/** The publication page parser: manual-data JSON to ordered block-level chunks. */
module HtmlParser {
  import opened Prelude
  import opened Json
  import opened Text

  datatype HtmlChunk = HtmlChunk(
    ordinal: int, text: string, anchor: Option<string>, parentAnchor: Option<string>, sourceUrl: string)

  datatype Parsed = Parsed(title: string, chunks: seq<HtmlChunk>)

  /** The foreign parts: Python's str() and the tag, entity and space removal on a fragment. */
  datatype Tools = Tools(py: Python, stripHtml: string -> string)

  // --- Values as Python sees them ---

  predicate Truthy(j: Json) {
    match j
    case Null => false
    case Bool(b) => b
    case Int(n) => n != 0
    case Real(x) => x != 0.0
    case NotFinite(_) => true
    case Str(s) => s != ""
    case List(items) => items != []
    case Obj(fields) => fields != map[]
  }

  function PyStr(j: Json, py: Python): string {
    if j.Str? then j.s else py.str(j)
  }

  /** str(j or "").strip() */
  function Label(j: Json, py: Python): string {
    if Truthy(j) then Strip(PyStr(j, py)) else ""
  }

  function OrElse(j: Json, k: Json): Json {
    if Truthy(j) then j else k
  }

  function LStripHashes(s: string): string {
    if s != "" && s[0] == '#' then LStripHashes(s[1..]) else s
  }

  function HashOf(fields: map<string, Json>, py: Python): Option<string> {
    var value := LStripHashes(Label(Get(fields, "hash"), py));
    if value == "" then None else Some(value)
  }

  function DeepLink(base: string, anchor: Option<string>): string {
    if anchor.Some? && anchor.value != "" then base + "#" + anchor.value else base
  }

  /** The dicts met by "for x in (j or [])"; None when j cannot be iterated. */
  function DictsIn(j: Json): Option<seq<map<string, Json>>> {
    if !Truthy(j) then Some([])
    else
      match j
      case List(items) => Some(DictsOf(items))
      case Obj(_) => Some([])   // iterating a dict yields its keys
      case Str(_) => Some([])   // iterating a string yields its characters
      case _ => None
  }

  function DictsOf(items: seq<Json>): seq<map<string, Json>> {
    if items == [] then []
    else (if items[0].Obj? then [items[0].fields] else []) + DictsOf(items[1..])
  }

  // --- Text of a block ---

  function NonEmpty(s: string): seq<string> {
    if s == "" then [] else [s]
  }

  function CaptionsOf(images: seq<map<string, Json>>, py: Python): seq<string> {
    if images == [] then []
    else
      NonEmpty(Label(Get(images[0], "caption1"), py)) + NonEmpty(Label(Get(images[0], "caption2"), py))
      + NonEmpty(Label(Get(images[0], "caption3"), py)) + CaptionsOf(images[1..], py)
  }

  function ImageCaptions(images: Json, py: Python): seq<string> {
    if images.List? then CaptionsOf(DictsOf(images.items), py) else []
  }

  /** The first of the four text keys that holds a string, stripped; nothing after it is looked at. */
  function FirstString(fields: map<string, Json>, keys: seq<string>, tools: Tools): seq<string> {
    if keys == [] then []
    else if Get(fields, keys[0]).Str? then NonEmpty(tools.stripHtml(Get(fields, keys[0]).s))
    else FirstString(fields, keys[1..], tools)
  }

  const TEXT_KEYS: seq<string> := ["content", "html", "text", "value"]

  function ContentTexts(content: Json, tools: Tools): seq<string>
    decreases content, 0
  {
    match content
    case Str(s) => NonEmpty(tools.stripHtml(s))
    case Obj(fields) => FirstString(fields, TEXT_KEYS, tools) + ImageCaptions(Get(fields, "images"), tools.py)
    case List(items) => ContentTextsOf(items, tools)
    case _ => []
  }

  function ContentTextsOf(items: seq<Json>, tools: Tools): seq<string>
    decreases items, 1
  {
    if items == [] then [] else ContentTexts(items[0], tools) + ContentTextsOf(items[1..], tools)
  }

  predicate ColonOrSpace(c: char) {
    c == ':' || c == ' '
  }

  /** s.strip(": ") */
  function StripColons(s: string): string
    decreases |s|
  {
    if s != "" && ColonOrSpace(s[0]) then StripColons(s[1..])
    else if s != "" && ColonOrSpace(s[|s| - 1]) then StripColons(s[..|s| - 1])
    else s
  }

  function StrEach(items: seq<Json>, py: Python): (texts: seq<string>)
    ensures |texts| == |items|
  {
    seq(|items|, i requires 0 <= i < |items| => PyStr(items[i], py))
  }

  function ToolEntry(item: Json, py: Python): string {
    match item
    case Str(s) => Strip(s)
    case Obj(fields) =>
      var caption := Label(OrElse(Get(fields, "label"), Get(fields, "title")), py);
      var value := OrElse(Get(fields, "description"), Get(fields, "value"));
      var valueText :=
        if !Truthy(value) then ""
        else if value.List? then Strip(Join(", ", StrEach(value.items, py)))
        else Strip(PyStr(value, py));
      Strip(StripColons(caption + ": " + valueText))
    case _ => ""
  }

  function ToolEntries(items: seq<Json>, py: Python): seq<string> {
    if items == [] then [] else NonEmpty(ToolEntry(items[0], py)) + ToolEntries(items[1..], py)
  }

  function ToolListText(toolList: Json, py: Python): string {
    if !Truthy(toolList) then ""
    else
      var content := if toolList.Obj? then Get(toolList.fields, "content") else toolList;
      var entries := if content.List? then ToolEntries(content.items, py) else [];
      if entries == [] then "" else "Tools: " + Join("; ", entries)
  }

  /** Title, paragraphs, captions and tools of a block, each distinct part once. */
  function BlockText(child: map<string, Json>, tools: Tools): string {
    var py := tools.py;
    var isToolList := Truthy(Get(child, "type")) && PyStr(Get(child, "type"), py) == "toolList";
    var body := if isToolList then [] else ContentTexts(Get(child, "content"), tools) + ImageCaptions(Get(child, "images"), py);
    var toolText := if isToolList then ToolListText(Obj(child), py) else ToolListText(Get(child, "toolList"), py);
    Strip(Join("\n", FirstSeen(NonEmpty(Label(Get(child, "title"), py)) + body + NonEmpty(toolText))))
  }

  // --- The document order of the pieces ---

  /** One text offered to _append with its anchors. */
  datatype Piece = Piece(text: string, anchor: Option<string>, parentAnchor: Option<string>)

  /** _append keeps a piece only if its stripped text is non-empty. */
  function Kept(text: string, anchor: Option<string>, parentAnchor: Option<string>): seq<Piece> {
    if Strip(text) == "" then [] else [Piece(Strip(text), anchor, parentAnchor)]
  }

  function ChildPieces(children: seq<map<string, Json>>, hash: Option<string>, tools: Tools): seq<Piece> {
    if children == [] then []
    else
      ChildPieces(children[..|children| - 1], hash, tools)
      + Kept(BlockText(children[|children| - 1], tools), HashOf(children[|children| - 1], tools.py), hash)
  }

  function HeadPieces(m: map<string, Json>, tools: Tools): seq<Piece> {
    var hash := HashOf(m, tools.py);
    Kept(Label(Get(m, "title"), tools.py), hash, hash) + Kept(ToolListText(Get(m, "toolList"), tools.py), None, hash)
  }

  function Children(m: map<string, Json>): seq<map<string, Json>> {
    var dicts := DictsIn(Get(m, "children"));
    if dicts.Some? then dicts.value else []
  }

  /** What one module contributes: its title, its tool list, its blocks, in order. */
  function ModulePieces(m: map<string, Json>, tools: Tools): seq<Piece> {
    HeadPieces(m, tools) + ChildPieces(Children(m), HashOf(m, tools.py), tools)
  }

  function PiecesOf(modules: seq<map<string, Json>>, tools: Tools): seq<Piece> {
    if modules == [] then []
    else PiecesOf(modules[..|modules| - 1], tools) + ModulePieces(modules[|modules| - 1], tools)
  }

  function Modules(data: map<string, Json>): seq<map<string, Json>> {
    var dicts := DictsIn(Get(data, "modules"));
    if dicts.Some? then dicts.value else []
  }

  /** Every kept piece of a publication in document order. */
  function Pieces(data: map<string, Json>, tools: Tools): seq<Piece> {
    Kept(ToolListText(Get(data, "toolList"), tools.py), None, None) + PiecesOf(Modules(data), tools)
  }

  function Numbered(pieces: seq<Piece>, base: string): (chunks: seq<HtmlChunk>)
    ensures |chunks| == |pieces|
    ensures forall i :: 0 <= i < |pieces| ==>
              chunks[i] == HtmlChunk(i + 1, pieces[i].text, pieces[i].anchor, pieces[i].parentAnchor,
                                     DeepLink(base, if pieces[i].anchor.Some? then pieces[i].anchor else pieces[i].parentAnchor))
  {
    seq(|pieces|, i requires 0 <= i < |pieces| =>
      HtmlChunk(i + 1, pieces[i].text, pieces[i].anchor, pieces[i].parentAnchor,
                DeepLink(base, if pieces[i].anchor.Some? then pieces[i].anchor else pieces[i].parentAnchor)))
  }

  predicate HasChildren(m: map<string, Json>) {
    DictsIn(Get(m, "children")).Some?
  }

  predicate AllHaveChildren(modules: seq<map<string, Json>>, from: nat)
    requires from <= |modules|
    decreases |modules| - from
  {
    from == |modules| || (HasChildren(modules[from]) && AllHaveChildren(modules, from + 1))
  }

  /** Where the parser can break: a value that is not iterable where a list is expected. */
  predicate Iterable(data: map<string, Json>) {
    DictsIn(Get(data, "modules")).Some?
    && AllHaveChildren(Modules(data), 0)
  }

  /**
   * The manual data of a page: Unreadable stands for the two failures the parser turns into an
   * IngestionError, DecoderRaises for any other exception of the decoder (an integer literal past
   * Python's digit limit, say).
   */
  datatype Page = Tree(json: Json) | Unreadable | DecoderRaises

  datatype ParseOutcome = Success(parsed: Parsed) | Malformed | Raised

  function ParsedOf(data: map<string, Json>, base: string, tools: Tools): Parsed {
    Parsed(Label(Get(data, "title"), tools.py), Numbered(Pieces(data, tools), base))
  }

  /** The page has a tree, and the tree is an object that can be iterated wherever a list is expected. */
  predicate WellShaped(page: Page) {
    page.Tree? && page.json.Obj? && Iterable(page.json.fields)
  }

  function Parse(page: Page, base: string, tools: Tools): ParseOutcome {
    match page
    case Unreadable => Malformed
    case DecoderRaises => Raised
    case Tree(Obj(data)) => if Iterable(data) then Success(ParsedOf(data, base, tools)) else Raised
    case Tree(_) => Raised
  }

  /** The nested _append: strip, skip if empty, bump the ordinal. */
  method Append(chunks0: seq<HtmlChunk>, ghost pieces: seq<Piece>, text: string, anchor: Option<string>,
                parentAnchor: Option<string>, base: string)
    returns (chunks: seq<HtmlChunk>)
    requires chunks0 == Numbered(pieces, base)
    ensures chunks == Numbered(pieces + Kept(text, anchor, parentAnchor), base)
  {
    chunks := chunks0;
    var stripped := Strip(text);
    if stripped == "" {
      assert pieces + [] == pieces;
      return;
    }
    var ordinal := |chunks| + 1;
    chunks := chunks + [HtmlChunk(ordinal, stripped, anchor, parentAnchor, DeepLink(base, if anchor.Some? then anchor else parentAnchor))];
  }

  lemma ChildSnoc(front: seq<Piece>, children: seq<map<string, Json>>, c: nat, hash: Option<string>, tools: Tools)
    requires c < |children|
    ensures front + ChildPieces(children[..c + 1], hash, tools)
            == front + ChildPieces(children[..c], hash, tools)
               + Kept(BlockText(children[c], tools), HashOf(children[c], tools.py), hash)
  {
    assert children[..c + 1][..c] == children[..c];
    JoinParts(front, ChildPieces(children[..c], hash, tools), Kept(BlockText(children[c], tools), HashOf(children[c], tools.py), hash), []);
  }

  lemma ModuleSnoc(front: seq<Piece>, modules: seq<map<string, Json>>, m: nat, tools: Tools)
    requires m < |modules|
    ensures front + PiecesOf(modules[..m + 1], tools)
            == front + PiecesOf(modules[..m], tools) + ModulePieces(modules[m], tools)
  {
    assert modules[..m + 1][..m] == modules[..m];
    JoinParts(front, PiecesOf(modules[..m], tools), ModulePieces(modules[m], tools), []);
  }

  /** The loop over a module's children. */
  method AppendChildren(chunks0: seq<HtmlChunk>, ghost front: seq<Piece>, children: seq<map<string, Json>>,
                        hash: Option<string>, base: string, tools: Tools)
    returns (chunks: seq<HtmlChunk>)
    requires chunks0 == Numbered(front, base)
    ensures chunks == Numbered(front + ChildPieces(children, hash, tools), base)
  {
    chunks := chunks0;
    ghost var pieces := front;
    assert front + [] == front;
    for c := 0 to |children|
      invariant pieces == front + ChildPieces(children[..c], hash, tools) && chunks == Numbered(pieces, base)
    {
      var block, anchor := BlockText(children[c], tools), HashOf(children[c], tools.py);
      chunks := Append(chunks, pieces, block, anchor, hash, base);
      ChildSnoc(front, children, c, hash, tools);
      pieces := pieces + Kept(block, anchor, hash);
    }
    assert children[..|children|] == children;
  }

  method AppendModule(chunks0: seq<HtmlChunk>, ghost pieces: seq<Piece>, m: map<string, Json>, base: string, tools: Tools)
    returns (chunks: seq<HtmlChunk>)
    requires chunks0 == Numbered(pieces, base) && HasChildren(m)
    ensures chunks == Numbered(pieces + ModulePieces(m, tools), base)
  {
    var hash := HashOf(m, tools.py);
    var title, toolText := Label(Get(m, "title"), tools.py), ToolListText(Get(m, "toolList"), tools.py);
    chunks := Append(chunks0, pieces, title, hash, hash, base);
    chunks := Append(chunks, pieces + Kept(title, hash, hash), toolText, None, hash, base);
    var children := DictsIn(Get(m, "children")).value;
    ghost var front := pieces + Kept(title, hash, hash) + Kept(toolText, None, hash);
    chunks := AppendChildren(chunks, front, children, hash, base, tools);
    ModuleParts(pieces, m, tools);
  }

  lemma ModuleParts(pieces: seq<Piece>, m: map<string, Json>, tools: Tools)
    ensures var hash := HashOf(m, tools.py);
            pieces + ModulePieces(m, tools)
            == pieces + Kept(Label(Get(m, "title"), tools.py), hash, hash)
               + Kept(ToolListText(Get(m, "toolList"), tools.py), None, hash) + ChildPieces(Children(m), hash, tools)
  {
    var hash := HashOf(m, tools.py);
    JoinParts(pieces, Kept(Label(Get(m, "title"), tools.py), hash, hash),
              Kept(ToolListText(Get(m, "toolList"), tools.py), None, hash), ChildPieces(Children(m), hash, tools));
  }

  lemma JoinParts(a: seq<Piece>, b: seq<Piece>, c: seq<Piece>, d: seq<Piece>)
    ensures a + (b + c + d) == a + b + c + d
    ensures a + (b + c) == a + b + c
  {
  }

  /** The loop body over the modules. */
  method AppendNext(chunks0: seq<HtmlChunk>, ghost front: seq<Piece>, modules: seq<map<string, Json>>, m: nat,
                    base: string, tools: Tools)
    returns (chunks: seq<HtmlChunk>)
    requires m < |modules| && HasChildren(modules[m])
    requires chunks0 == Numbered(front + PiecesOf(modules[..m], tools), base)
    ensures chunks == Numbered(front + PiecesOf(modules[..m + 1], tools), base)
  {
    chunks := AppendModule(chunks0, front + PiecesOf(modules[..m], tools), modules[m], base, tools);
    ModuleSnoc(front, modules, m, tools);
  }

  /** The loop over the modules; false when some module's children cannot be iterated. */
  method AppendModules(chunks0: seq<HtmlChunk>, ghost front: seq<Piece>, modules: seq<map<string, Json>>, base: string,
                       tools: Tools)
    returns (ok: bool, chunks: seq<HtmlChunk>)
    requires chunks0 == Numbered(front, base)
    ensures ok == AllHaveChildren(modules, 0)
    ensures ok ==> chunks == Numbered(front + PiecesOf(modules, tools), base)
  {
    chunks := chunks0;
    assert front + PiecesOf(modules[..0], tools) == front;
    for m := 0 to |modules|
      invariant chunks == Numbered(front + PiecesOf(modules[..m], tools), base)
      invariant AllHaveChildren(modules, 0) == AllHaveChildren(modules, m)
    {
      if !HasChildren(modules[m]) {
        return false, chunks;
      }
      chunks := AppendNext(chunks, front, modules, m, base, tools);
    }
    assert modules[..|modules|] == modules;
    ok := true;
  }

  method ParsePublication(page: Page, base: string, tools: Tools) returns (outcome: ParseOutcome)
    ensures outcome == Parse(page, base, tools)
  {
    if page.Unreadable? {
      return Malformed;
    }
    if page.DecoderRaises? || !page.json.Obj? {
      return Raised;
    }
    var data := page.json.fields;
    var title := Label(Get(data, "title"), tools.py);
    var modules := DictsIn(Get(data, "modules"));
    if modules.None? {
      return Raised;
    }
    var toolText := ToolListText(Get(data, "toolList"), tools.py);
    var chunks := Append([], [], toolText, None, None, base);
    assert [] + Kept(toolText, None, None) == Kept(toolText, None, None);
    var ok;
    ok, chunks := AppendModules(chunks, Kept(toolText, None, None), modules.value, base, tools);
    outcome := if ok then Success(Parsed(title, chunks)) else Raised;
  }

  // --- Pieces are clean ---

  ghost predicate CleanPieces(pieces: seq<Piece>) {
    forall i :: 0 <= i < |pieces| ==> pieces[i].text != "" && Trimmed(pieces[i].text)
  }

  lemma KeptIsClean(text: string, anchor: Option<string>, parentAnchor: Option<string>)
    ensures CleanPieces(Kept(text, anchor, parentAnchor))
  {
    StripTrims(text);
  }

  lemma {:induction false} ChildPiecesClean(children: seq<map<string, Json>>, hash: Option<string>, tools: Tools)
    ensures CleanPieces(ChildPieces(children, hash, tools))
    ensures forall p :: p in ChildPieces(children, hash, tools) ==> p.parentAnchor == hash
  {
    if children != [] {
      var n := |children| - 1;
      ChildPiecesClean(children[..n], hash, tools);
      KeptIsClean(BlockText(children[n], tools), HashOf(children[n], tools.py), hash);
    }
  }

  /** All pieces of a module carry the module's hash. */
  lemma ModulePiecesClean(m: map<string, Json>, tools: Tools)
    ensures CleanPieces(ModulePieces(m, tools))
    ensures forall p :: p in ModulePieces(m, tools) ==> p.parentAnchor == HashOf(m, tools.py)
  {
    var hash := HashOf(m, tools.py);
    KeptIsClean(Label(Get(m, "title"), tools.py), hash, hash);
    KeptIsClean(ToolListText(Get(m, "toolList"), tools.py), None, hash);
    ChildPiecesClean(Children(m), hash, tools);
  }

  lemma {:induction false} PiecesOfClean(modules: seq<map<string, Json>>, tools: Tools)
    ensures CleanPieces(PiecesOf(modules, tools))
  {
    if modules != [] {
      var n := |modules| - 1;
      PiecesOfClean(modules[..n], tools);
      ModulePiecesClean(modules[n], tools);
    }
  }

  /** The most precise link of a piece: at its own anchor, else at its module's, else the publication's. */
  ghost predicate LinksTo(url: string, base: string, piece: Piece) {
    if piece.anchor.Some? && piece.anchor.value != "" then url == base + "#" + piece.anchor.value
    else if piece.anchor.None? && piece.parentAnchor.Some? && piece.parentAnchor.value != "" then
      url == base + "#" + piece.parentAnchor.value
    else url == base
  }

  /** A parsed publication numbers its chunks 1..n in document order, each with non-empty trimmed text. */
  lemma ChunksAreNumbered(data: map<string, Json>, base: string, tools: Tools)
    ensures var parsed := ParsedOf(data, base, tools);
            && |parsed.chunks| == |Pieces(data, tools)|
            && forall i :: 0 <= i < |parsed.chunks| ==>
                 && parsed.chunks[i].ordinal == i + 1
                 && parsed.chunks[i].text == Pieces(data, tools)[i].text
                 && parsed.chunks[i].text != "" && Trimmed(parsed.chunks[i].text)
                 && parsed.chunks[i].anchor == Pieces(data, tools)[i].anchor
                 && parsed.chunks[i].parentAnchor == Pieces(data, tools)[i].parentAnchor
                 && LinksTo(parsed.chunks[i].sourceUrl, base, Pieces(data, tools)[i])
  {
    KeptIsClean(ToolListText(Get(data, "toolList"), tools.py), None, None);
    PiecesOfClean(Modules(data), tools);
    assert CleanPieces(Pieces(data, tools));
  }

  // --- One module's pieces among all pieces ---

  /** The pieces stored under a parent anchor, in order. */
  function Under(pieces: seq<Piece>, anchor: string): seq<Piece> {
    if pieces == [] then []
    else Under(pieces[..|pieces| - 1], anchor)
         + if pieces[|pieces| - 1].parentAnchor == Some(anchor) then [pieces[|pieces| - 1]] else []
  }

  lemma {:induction false} UnderAppend(a: seq<Piece>, b: seq<Piece>, anchor: string)
    ensures Under(a + b, anchor) == Under(a, anchor) + Under(b, anchor)
  {
    if b == [] {
      assert a + b == a;
    } else {
      var n := |b| - 1;
      assert (a + b)[..|a| + n] == a + b[..n];
      UnderAppend(a, b[..n], anchor);
    }
  }

  lemma {:induction false} UnderUniform(pieces: seq<Piece>, hash: Option<string>, anchor: string)
    requires forall p :: p in pieces ==> p.parentAnchor == hash
    ensures Under(pieces, anchor) == if hash == Some(anchor) then pieces else []
  {
    if pieces != [] {
      var n := |pieces| - 1;
      assert pieces == pieces[..n] + [pieces[n]];
      UnderUniform(pieces[..n], hash, anchor);
    }
  }

  /** The pieces of all modules that carry the hash, in document order. */
  function PiecesWithHash(modules: seq<map<string, Json>>, anchor: string, tools: Tools): seq<Piece> {
    if modules == [] then []
    else
      var m := modules[|modules| - 1];
      PiecesWithHash(modules[..|modules| - 1], anchor, tools)
      + if HashOf(m, tools.py) == Some(anchor) then ModulePieces(m, tools) else []
  }

  lemma {:induction false} UnderModules(modules: seq<map<string, Json>>, anchor: string, tools: Tools)
    ensures Under(PiecesOf(modules, tools), anchor) == PiecesWithHash(modules, anchor, tools)
  {
    if modules != [] {
      var n := |modules| - 1;
      UnderModules(modules[..n], anchor, tools);
      UnderAppend(PiecesOf(modules[..n], tools), ModulePieces(modules[n], tools), anchor);
      ModulePiecesClean(modules[n], tools);
      UnderUniform(ModulePieces(modules[n], tools), HashOf(modules[n], tools.py), anchor);
    }
  }

  /** What is stored under an anchor is exactly what the modules with that hash contribute. */
  lemma AnchorSelectsModules(data: map<string, Json>, anchor: string, tools: Tools)
    ensures Under(Pieces(data, tools), anchor) == PiecesWithHash(Modules(data), anchor, tools)
  {
    var head := Kept(ToolListText(Get(data, "toolList"), tools.py), None, None);
    UnderAppend(head, PiecesOf(Modules(data), tools), anchor);
    UnderUniform(head, None, anchor);
    UnderModules(Modules(data), anchor, tools);
  }

  predicate CarriesHash(m: map<string, Json>, anchor: string, tools: Tools) {
    HashOf(m, tools.py) == Some(anchor)
  }

  /** Exactly the module at k carries the hash; with k == |modules| none does. */
  predicate OnlyAt(modules: seq<map<string, Json>>, k: nat, anchor: string, tools: Tools) {
    modules == []
    || (OnlyAt(modules[..|modules| - 1], k, anchor, tools)
        && (CarriesHash(modules[|modules| - 1], anchor, tools) <==> k == |modules| - 1))
  }

  lemma {:induction false} NoModuleNoPieces(modules: seq<map<string, Json>>, k: nat, anchor: string, tools: Tools)
    requires k >= |modules| && OnlyAt(modules, k, anchor, tools)
    ensures PiecesWithHash(modules, anchor, tools) == []
  {
    if modules != [] { NoModuleNoPieces(modules[..|modules| - 1], k, anchor, tools); }
  }

  /** With a hash no other module has, that is one module's pieces. */
  lemma {:induction false} OwnHashOwnPieces(modules: seq<map<string, Json>>, k: nat, anchor: string, tools: Tools)
    requires k < |modules| && OnlyAt(modules, k, anchor, tools)
    ensures PiecesWithHash(modules, anchor, tools) == ModulePieces(modules[k], tools)
  {
    var n := |modules| - 1;
    if k == n {
      NoModuleNoPieces(modules[..n], k, anchor, tools);
    } else {
      OwnHashOwnPieces(modules[..n], k, anchor, tools);
    }
  }

  /** OnlyAt in words: every module with the hash is the one at k, and that one has it. */
  lemma {:induction false} OnlyAtMeans(modules: seq<map<string, Json>>, k: nat, anchor: string, tools: Tools)
    ensures OnlyAt(modules, k, anchor, tools)
            <==> forall i :: 0 <= i < |modules| ==> (CarriesHash(modules[i], anchor, tools) <==> i == k)
  {
    if OnlyAt(modules, k, anchor, tools) {
      forall i | 0 <= i < |modules| ensures CarriesHash(modules[i], anchor, tools) <==> i == k {
        OnlyAtGives(modules, k, anchor, tools, i);
      }
    }
    if forall i :: 0 <= i < |modules| ==> (CarriesHash(modules[i], anchor, tools) <==> i == k) {
      OnlyAtFrom(modules, k, anchor, tools);
    }
  }

  lemma {:induction false} OnlyAtGives(modules: seq<map<string, Json>>, k: nat, anchor: string, tools: Tools, i: nat)
    requires i < |modules| && OnlyAt(modules, k, anchor, tools)
    ensures CarriesHash(modules[i], anchor, tools) <==> i == k
  {
    if i < |modules| - 1 { OnlyAtGives(modules[..|modules| - 1], k, anchor, tools, i); }
  }

  lemma {:induction false} OnlyAtFrom(modules: seq<map<string, Json>>, k: nat, anchor: string, tools: Tools)
    requires forall i :: 0 <= i < |modules| ==> (CarriesHash(modules[i], anchor, tools) <==> i == k)
    ensures OnlyAt(modules, k, anchor, tools)
  {
    if modules != [] { OnlyAtFrom(modules[..|modules| - 1], k, anchor, tools); }
  }
}
