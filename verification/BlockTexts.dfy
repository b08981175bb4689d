/** What the parser takes from a block: every text of it, each once, and nothing else. */
module BlockTexts {
  import opened Prelude
  import opened Json
  import opened Text
  import opened HtmlParser

  // --- Which texts a value holds ---

  /** The first of the keys under which the object has a string. */
  ghost predicate FirstStringKey(fields: map<string, Json>, keys: seq<string>, i: int) {
    && 0 <= i < |keys| && keys[i] in fields && fields[keys[i]].Str?
    && forall j :: 0 <= j < i ==> keys[j] !in fields || !fields[keys[j]].Str?
  }

  /** A caption of one of the objects in a list of images. */
  ghost predicate HasCaption(images: Json, t: string, py: Python) {
    && images.List? && t != ""
    && exists i, key :: 0 <= i < |images.items| && images.items[i].Obj? && key in {"caption1", "caption2", "caption3"}
         && t == Label(Get(images.items[i].fields, key), py)
  }

  /** A text of a block's content: a string, an object's first string and captions, or any of these in a list. */
  ghost predicate HasText(content: Json, t: string, tools: Tools)
    decreases content
  {
    match content
    case Str(s) => t == tools.stripHtml(s) && t != ""
    case Obj(fields) =>
      || (exists i :: FirstStringKey(fields, TEXT_KEYS, i) && t == tools.stripHtml(fields[TEXT_KEYS[i]].s) && t != "")
      || ("images" in fields && HasCaption(fields["images"], t, tools.py))
    case List(items) => exists i :: 0 <= i < |items| && HasText(items[i], t, tools)
    case _ => false
  }

  lemma {:induction false} DictsAre(items: seq<Json>, d: map<string, Json>)
    ensures d in DictsOf(items) <==> exists i :: 0 <= i < |items| && items[i] == Obj(d)
  {
    if items != [] {
      DictsAre(items[1..], d);
      assert items == [items[0]] + items[1..];
      if d in DictsOf(items[1..]) {
        var i :| 0 <= i < |items[1..]| && items[1..][i] == Obj(d);
        assert items[i + 1] == Obj(d);
      }
      if i :| 0 <= i < |items| && items[i] == Obj(d) {
        if i > 0 { assert items[1..][i - 1] == Obj(d); }
      }
    }
  }

  lemma {:induction false} CaptionsAre(images: seq<map<string, Json>>, t: string, py: Python)
    ensures t in CaptionsOf(images, py) <==>
              t != "" && exists d, key :: d in images && key in {"caption1", "caption2", "caption3"} && t == Label(Get(d, key), py)
  {
    if images != [] {
      CaptionsAre(images[1..], t, py);
      assert images == [images[0]] + images[1..];
    }
  }

  lemma ImageCaptionsExactly(images: Json, t: string, py: Python)
    ensures t in ImageCaptions(images, py) <==> HasCaption(images, t, py)
  {
    if images.List? {
      CaptionsAre(DictsOf(images.items), t, py);
      if t in ImageCaptions(images, py) {
        var d, key :| d in DictsOf(images.items) && key in {"caption1", "caption2", "caption3"} && t == Label(Get(d, key), py);
        DictsAre(images.items, d);
        var i :| 0 <= i < |images.items| && images.items[i] == Obj(d);
      }
      if HasCaption(images, t, py) {
        var i, key :| 0 <= i < |images.items| && images.items[i].Obj? && key in {"caption1", "caption2", "caption3"}
                      && t == Label(Get(images.items[i].fields, key), py);
        DictsAre(images.items, images.items[i].fields);
      }
    }
  }

  lemma {:induction false} FirstStringExactly(fields: map<string, Json>, keys: seq<string>, tools: Tools, t: string)
    ensures t in FirstString(fields, keys, tools) <==>
              exists i :: FirstStringKey(fields, keys, i) && t == tools.stripHtml(fields[keys[i]].s) && t != ""
  {
    if keys != [] {
      FirstStringExactly(fields, keys[1..], tools, t);
      if Get(fields, keys[0]).Str? {
        assert FirstStringKey(fields, keys, 0);
      } else {
        LaterKeys(fields, keys);
      }
    }
  }

  /** The first key holds no string: the search goes on with the others. */
  lemma LaterKeys(fields: map<string, Json>, keys: seq<string>)
    requires keys != [] && !Get(fields, keys[0]).Str?
    ensures forall i :: FirstStringKey(fields, keys, i + 1) <==> FirstStringKey(fields, keys[1..], i)
    ensures !FirstStringKey(fields, keys, 0)
  {
    forall i ensures FirstStringKey(fields, keys, i + 1) <==> FirstStringKey(fields, keys[1..], i) {
      if FirstStringKey(fields, keys, i + 1) {
        forall j | 0 <= j < i ensures keys[1..][j] !in fields || !fields[keys[1..][j]].Str? { assert keys[j + 1] == keys[1..][j]; }
      }
      if FirstStringKey(fields, keys[1..], i) {
        forall j | 0 <= j < i + 1 ensures keys[j] !in fields || !fields[keys[j]].Str? {
          if j > 0 { assert keys[1..][j - 1] == keys[j]; }
        }
      }
    }
  }

  /** The flattening loses no text of the content and invents none. */
  lemma {:induction false} ContentTextsExactly(content: Json, t: string, tools: Tools)
    ensures t in ContentTexts(content, tools) <==> HasText(content, t, tools)
    decreases content, 0
  {
    match content
    case Obj(fields) =>
      FirstStringExactly(fields, TEXT_KEYS, tools, t);
      ImageCaptionsExactly(Get(fields, "images"), t, tools.py);
    case List(items) => ContentTextsOfExactly(items, t, tools);
    case _ =>
  }

  lemma {:induction false} ContentTextsOfExactly(items: seq<Json>, t: string, tools: Tools)
    ensures t in ContentTextsOf(items, tools) <==> exists i :: 0 <= i < |items| && HasText(items[i], t, tools)
    decreases items, 1
  {
    if items != [] {
      ContentTextsExactly(items[0], t, tools);
      ContentTextsOfExactly(items[1..], t, tools);
      if i :| 0 <= i < |items| && HasText(items[i], t, tools) {
        if i > 0 { assert items[1..][i - 1] == items[i]; }
      }
      if i :| 0 <= i < |items[1..]| && HasText(items[1..][i], t, tools) {
        assert items[i + 1] == items[1..][i];
      }
    }
  }

  // --- The text of a block ---

  predicate IsToolList(child: map<string, Json>, py: Python) {
    Truthy(Get(child, "type")) && PyStr(Get(child, "type"), py) == "toolList"
  }

  /** The tools of a block: the block itself if it is a tool list, else the list it carries. */
  function ToolsOf(child: map<string, Json>, py: Python): string {
    if IsToolList(child, py) then ToolListText(Obj(child), py) else ToolListText(Get(child, "toolList"), py)
  }

  /** A text the block holds: its title, a text or caption of it unless it is a tool list, or its tools. */
  ghost predicate HasPart(child: map<string, Json>, t: string, tools: Tools) {
    && t != ""
    && (|| t == Label(Get(child, "title"), tools.py)
        || (!IsToolList(child, tools.py)
            && (HasText(Get(child, "content"), t, tools) || HasCaption(Get(child, "images"), t, tools.py)))
        || t == ToolsOf(child, tools.py))
  }

  /** The texts of a block: the title first, the tools last unless they repeat an earlier text. */
  ghost predicate AreParts(parts: seq<string>, child: map<string, Json>, tools: Tools) {
    && Distinct(parts) && (forall t :: t in parts <==> HasPart(child, t, tools))
    && (Label(Get(child, "title"), tools.py) != "" ==> parts != [] && parts[0] == Label(Get(child, "title"), tools.py))
    && (OnlyTools(child, tools) ==> parts != [] && parts[|parts| - 1] == ToolsOf(child, tools.py))
  }

  /** The tools are a text of the block that is neither its title nor another text of it. */
  ghost predicate OnlyTools(child: map<string, Json>, tools: Tools) {
    var t := ToolsOf(child, tools.py);
    && t != "" && t != Label(Get(child, "title"), tools.py)
    && (IsToolList(child, tools.py)
        || (!HasText(Get(child, "content"), t, tools) && !HasCaption(Get(child, "images"), t, tools.py)))
  }

  /** What the block says besides its title and its tools. */
  function BodyTexts(child: map<string, Json>, tools: Tools): seq<string> {
    if IsToolList(child, tools.py) then []
    else ContentTexts(Get(child, "content"), tools) + ImageCaptions(Get(child, "images"), tools.py)
  }

  lemma BodyTextsExactly(child: map<string, Json>, tools: Tools, t: string)
    ensures t in BodyTexts(child, tools) <==>
              && !IsToolList(child, tools.py)
              && (HasText(Get(child, "content"), t, tools) || HasCaption(Get(child, "images"), t, tools.py))
    ensures t in BodyTexts(child, tools) ==> t != ""
  {
    ContentTextsExactly(Get(child, "content"), t, tools);
    ImageCaptionsExactly(Get(child, "images"), t, tools.py);
    TextsAreNotEmpty(Get(child, "content"), t, tools);
  }

  /** A block's chunk is its texts, each once, one per line, its title first and its tools last. */
  lemma BlockTextIsItsParts(child: map<string, Json>, tools: Tools) returns (parts: seq<string>)
    ensures AreParts(parts, child, tools) && BlockText(child, tools) == Strip(Join("\n", parts))
  {
    var title, body, last := Label(Get(child, "title"), tools.py), BodyTexts(child, tools), ToolsOf(child, tools.py);
    parts := FirstSeen(NonEmpty(title) + body + NonEmpty(last));
    BlockTextJoins(child, tools);
    PartsOf(title, body, last);
    forall t ensures t in parts <==> HasPart(child, t, tools) { BodyTextsExactly(child, tools, t); }
    BodyTextsExactly(child, tools, last);
  }

  lemma BlockTextJoins(child: map<string, Json>, tools: Tools)
    ensures BlockText(child, tools)
            == Strip(Join("\n", FirstSeen(NonEmpty(Label(Get(child, "title"), tools.py)) + BodyTexts(child, tools)
                                           + NonEmpty(ToolsOf(child, tools.py)))))
  {
  }

  /** Deduplicating title, body and tools keeps the title first and tools that repeat nothing last. */
  lemma PartsOf(title: string, body: seq<string>, last: string)
    ensures var parts := FirstSeen(NonEmpty(title) + body + NonEmpty(last));
            && Distinct(parts)
            && (forall t :: t in parts <==> (t == title && t != "") || t in body || (t == last && t != ""))
            && (title != "" ==> parts != [] && parts[0] == title)
            && (last != "" && last != title && last !in body ==> parts != [] && parts[|parts| - 1] == last)
  {
    var front := NonEmpty(title) + body;
    var all := front + NonEmpty(last);
    FirstSeenFacts(all);
    if title != "" { FirstSeenHead(all); }
    if last != "" { FirstSeenSnoc(front, last); }
  }

  lemma {:induction false} TextsAreNotEmpty(content: Json, t: string, tools: Tools)
    ensures HasText(content, t, tools) ==> t != ""
    decreases content
  {
    if content.List? && HasText(content, t, tools) {
      var i :| 0 <= i < |content.items| && HasText(content.items[i], t, tools);
      TextsAreNotEmpty(content.items[i], t, tools);
    }
  }

  lemma {:induction false} FirstSeenHead<T(!new)>(xs: seq<T>)
    requires xs != []
    ensures FirstSeen(xs) != [] && FirstSeen(xs)[0] == xs[0]
  {
    if |xs| > 1 {
      FirstSeenHead(xs[..|xs| - 1]);
    } else {
      assert xs[..0] == [] && FirstSeen<T>([]) == [];
    }
  }

  // --- Tool lists ---

  /** The string under the first key, or under the second if there is nothing, null or an empty string under the first. */
  ghost predicate TextUnder(fields: map<string, Json>, first: string, second: string, text: string) {
    || (first in fields && fields[first] == Str(text))
    || ((first in fields ==> fields[first] == Null || fields[first] == Str("")) && second in fields && fields[second] == Str(text))
  }

  /** A tool given as a name and a size is listed as "name: size"; one given as a string as that string, stripped. */
  lemma ToolEntryMeans(fields: map<string, Json>, name: string, size: string, py: Python, s: string)
    requires name != "" && Trimmed(name) && name[0] != ':' && size != "" && Trimmed(size) && size[|size| - 1] != ':'
    requires TextUnder(fields, "label", "title", name) && TextUnder(fields, "description", "value", size)
    ensures ToolEntry(Obj(fields), py) == name + ": " + size
    ensures ToolEntry(Str(s), py) == Strip(s)
  {
    var entry := name + ": " + size;
    TrimmedIsFixed(name);
    TrimmedIsFixed(size);
    assert Trimmed(entry) && !ColonOrSpace(entry[0]) && !ColonOrSpace(entry[|entry| - 1]);
    TrimmedIsFixed(entry);
  }

  lemma {:induction false} ToolEntriesExactly(items: seq<Json>, t: string, py: Python)
    ensures t in ToolEntries(items, py) <==> t != "" && exists item :: item in items && t == ToolEntry(item, py)
  {
    if items != [] {
      ToolEntriesExactly(items[1..], t, py);
      assert items == [items[0]] + items[1..];
    }
  }

  /** A tool list, bare or under "content", is one line of its non-empty entries; without any it is no text. */
  lemma ToolListMeans(items: seq<Json>, py: Python) returns (entries: seq<string>)
    requires items != []
    ensures forall t :: t in entries <==> t != "" && exists item :: item in items && t == ToolEntry(item, py)
    ensures ToolListText(List(items), py) == if entries == [] then "" else "Tools: " + Join("; ", entries)
    ensures forall fields: map<string, Json> :: "content" in fields && fields["content"] == List(items) ==>
              ToolListText(Obj(fields), py) == ToolListText(List(items), py)
  {
    entries := ToolEntries(items, py);
    forall t ensures t in entries <==> t != "" && exists item :: item in items && t == ToolEntry(item, py) {
      ToolEntriesExactly(items, t, py);
    }
  }

  // --- Anchors and pieces ---

  ghost predicate AllHashes(s: string) {
    forall i :: 0 <= i < |s| ==> s[i] == '#'
  }

  lemma {:induction false} HashesCut(s: string) returns (cut: string)
    ensures s == cut + LStripHashes(s) && AllHashes(cut)
    ensures LStripHashes(s) != "" ==> LStripHashes(s)[0] != '#'
  {
    cut := "";
    if s != "" && s[0] == '#' {
      cut := HashesCut(s[1..]);
      cut := "#" + cut;
      assert s == [s[0]] + s[1..];
    }
  }

  /** The anchor of a node is its label under "hash" without the leading hash signs; none if nothing is left. */
  lemma HashExactly(fields: map<string, Json>, py: Python) returns (cut: string)
    ensures AllHashes(cut)
    ensures match HashOf(fields, py)
            case None => Label(Get(fields, "hash"), py) == cut
            case Some(h) => h != "" && h[0] != '#' && Label(Get(fields, "hash"), py) == cut + h
  {
    cut := HashesCut(Label(Get(fields, "hash"), py));
  }

  /** The piece of a block under its module's hash. */
  ghost predicate IsBlockPiece(p: Piece, child: map<string, Json>, hash: Option<string>, tools: Tools) {
    p.text != "" && p.text == Strip(BlockText(child, tools)) && p.anchor == HashOf(child, tools.py) && p.parentAnchor == hash
  }

  /** The pieces each element contributes, in order. */
  ghost function FlatEach(xs: seq<map<string, Json>>, each: map<string, Json> -> seq<Piece>): seq<Piece> {
    if xs == [] then [] else FlatEach(xs[..|xs| - 1], each) + each(xs[|xs| - 1])
  }

  lemma {:induction false} FlatMembers(xs: seq<map<string, Json>>, each: map<string, Json> -> seq<Piece>, p: Piece)
    ensures p in FlatEach(xs, each) <==> exists x :: x in xs && p in each(x)
  {
    if xs != [] {
      FlatMembers(xs[..|xs| - 1], each, p);
      assert xs == xs[..|xs| - 1] + [xs[|xs| - 1]];
    }
  }

  function BlockPieces(hash: Option<string>, tools: Tools): map<string, Json> -> seq<Piece> {
    (c: map<string, Json>) => Kept(BlockText(c, tools), HashOf(c, tools.py), hash)
  }

  lemma {:induction false} ChildPiecesAreFlat(children: seq<map<string, Json>>, hash: Option<string>, tools: Tools)
    ensures ChildPieces(children, hash, tools) == FlatEach(children, BlockPieces(hash, tools))
  {
    if children != [] { ChildPiecesAreFlat(children[..|children| - 1], hash, tools); }
  }

  lemma BlockPieceKept(p: Piece, child: map<string, Json>, hash: Option<string>, tools: Tools)
    ensures p in BlockPieces(hash, tools)(child) <==> IsBlockPiece(p, child, hash, tools)
  {
  }

  lemma ChildPiecesExactly(children: seq<map<string, Json>>, hash: Option<string>, tools: Tools, p: Piece)
    ensures p in ChildPieces(children, hash, tools) <==> exists c :: c in children && IsBlockPiece(p, c, hash, tools)
  {
    ChildPiecesAreFlat(children, hash, tools);
    FlatMembers(children, BlockPieces(hash, tools), p);
    forall c ensures p in BlockPieces(hash, tools)(c) <==> IsBlockPiece(p, c, hash, tools) {
      BlockPieceKept(p, c, hash, tools);
    }
  }

  /** A piece of a module: its title at its own hash, its tool list without an anchor, or one of its blocks. */
  ghost predicate IsModulePiece(p: Piece, m: map<string, Json>, tools: Tools) {
    var hash := HashOf(m, tools.py);
    || (p.text != "" && p == Piece(Strip(Label(Get(m, "title"), tools.py)), hash, hash))
    || (p.text != "" && p == Piece(Strip(ToolListText(Get(m, "toolList"), tools.py)), None, hash))
    || (Get(m, "children").List?
        && exists i :: 0 <= i < |Get(m, "children").items| && Get(m, "children").items[i].Obj?
             && IsBlockPiece(p, Get(m, "children").items[i].fields, hash, tools))
  }

  lemma ModulePiecesExactly(m: map<string, Json>, tools: Tools, p: Piece)
    ensures p in ModulePieces(m, tools) <==> IsModulePiece(p, m, tools)
  {
    var hash, children := HashOf(m, tools.py), Get(m, "children");
    ChildPiecesExactly(Children(m), hash, tools, p);
    if c :| c in Children(m) && IsBlockPiece(p, c, hash, tools) {
      assert children.List?;
      DictsAre(children.items, c);
      var j :| 0 <= j < |children.items| && children.items[j] == Obj(c);
    }
    if children.List? {
      if i :| 0 <= i < |children.items| && children.items[i].Obj? && IsBlockPiece(p, children.items[i].fields, hash, tools) {
        DictsAre(children.items, children.items[i].fields);
        assert children.items[i].fields in Children(m);
      }
    }
  }

  lemma {:induction false} PiecesAreFlat(modules: seq<map<string, Json>>, tools: Tools)
    ensures PiecesOf(modules, tools) == FlatEach(modules, m => ModulePieces(m, tools))
  {
    if modules != [] { PiecesAreFlat(modules[..|modules| - 1], tools); }
  }

  lemma PiecesOfExactly(modules: seq<map<string, Json>>, tools: Tools, p: Piece)
    ensures p in PiecesOf(modules, tools) <==> exists m :: m in modules && IsModulePiece(p, m, tools)
  {
    PiecesAreFlat(modules, tools);
    FlatMembers(modules, m => ModulePieces(m, tools), p);
    forall m ensures p in ModulePieces(m, tools) <==> IsModulePiece(p, m, tools) {
      ModulePiecesExactly(m, tools, p);
    }
  }

  /** The pieces of a publication are its own tool list and the pieces of its modules: none is lost, none is invented. */
  lemma PiecesExactly(data: map<string, Json>, tools: Tools, p: Piece)
    ensures p in Pieces(data, tools) <==>
              || (p.text != "" && p == Piece(Strip(ToolListText(Get(data, "toolList"), tools.py)), None, None))
              || (Get(data, "modules").List?
                  && exists i :: 0 <= i < |Get(data, "modules").items| && Get(data, "modules").items[i].Obj?
                       && IsModulePiece(p, Get(data, "modules").items[i].fields, tools))
  {
    var modules := Get(data, "modules");
    PiecesOfExactly(Modules(data), tools, p);
    if m :| m in Modules(data) && IsModulePiece(p, m, tools) {
      assert modules.List?;
      DictsAre(modules.items, m);
      var j :| 0 <= j < |modules.items| && modules.items[j] == Obj(m);
    }
    if modules.List? {
      if i :| 0 <= i < |modules.items| && modules.items[i].Obj? && IsModulePiece(p, modules.items[i].fields, tools) {
        DictsAre(modules.items, modules.items[i].fields);
        assert modules.items[i].fields in Modules(data);
      }
    }
  }

  // --- Document order ---

  lemma {:induction false} DictsInOrder(a: seq<Json>, b: seq<Json>)
    ensures DictsOf(a + b) == DictsOf(a) + DictsOf(b)
  {
    if a == [] {
      assert a + b == b;
    } else {
      assert (a + b)[1..] == a[1..] + b;
      DictsInOrder(a[1..], b);
    }
  }

  lemma {:induction false} FlatInOrder(
    xs: seq<map<string, Json>>, ys: seq<map<string, Json>>, each: map<string, Json> -> seq<Piece>)
    ensures FlatEach(xs + ys, each) == FlatEach(xs, each) + FlatEach(ys, each)
  {
    if ys == [] {
      assert xs + ys == xs;
    } else {
      var n := |ys| - 1;
      assert (xs + ys)[..|xs| + n] == xs + ys[..n];
      FlatInOrder(xs, ys[..n], each);
    }
  }

  lemma PiecesAppend(xs: seq<map<string, Json>>, ys: seq<map<string, Json>>, tools: Tools)
    ensures PiecesOf(xs + ys, tools) == PiecesOf(xs, tools) + PiecesOf(ys, tools)
  {
    PiecesAreFlat(xs + ys, tools);
    PiecesAreFlat(xs, tools);
    PiecesAreFlat(ys, tools);
    FlatInOrder(xs, ys, m => ModulePieces(m, tools));
  }

  lemma ChildPiecesAppend(xs: seq<map<string, Json>>, ys: seq<map<string, Json>>, hash: Option<string>, tools: Tools)
    ensures ChildPieces(xs + ys, hash, tools) == ChildPieces(xs, hash, tools) + ChildPieces(ys, hash, tools)
  {
    ChildPiecesAreFlat(xs + ys, hash, tools);
    ChildPiecesAreFlat(xs, hash, tools);
    ChildPiecesAreFlat(ys, hash, tools);
    FlatInOrder(xs, ys, BlockPieces(hash, tools));
  }

  /** The publication's own tool list, if it has one. */
  function ToolPieces(data: map<string, Json>, anchor: Option<string>, tools: Tools): seq<Piece> {
    Kept(ToolListText(Get(data, "toolList"), tools.py), None, anchor)
  }

  /** Pieces stand in document order: the publication's tool list, then what each module contributes, earlier modules first. */
  lemma PiecesInOrder(data: map<string, Json>, a: seq<Json>, b: seq<Json>, tools: Tools)
    requires "modules" in data && data["modules"] == List(a + b)
    ensures Pieces(data, tools) == ToolPieces(data, None, tools) + (PiecesOf(DictsOf(a), tools) + PiecesOf(DictsOf(b), tools))
  {
    DictsInOrder(a, b);
    PiecesAppend(DictsOf(a), DictsOf(b), tools);
    PiecesSplit(data, a + b, tools);
  }

  lemma PiecesSplit(data: map<string, Json>, items: seq<Json>, tools: Tools)
    requires "modules" in data && data["modules"] == List(items)
    ensures Pieces(data, tools) == ToolPieces(data, None, tools) + PiecesOf(DictsOf(items), tools)
  {
    assert Modules(data) == DictsOf(items);
  }

  /** Within a module: its title, its tool list, then its blocks, earlier blocks first. */
  lemma ModuleInOrder(m: map<string, Json>, a: seq<Json>, b: seq<Json>, tools: Tools)
    requires "children" in m && m["children"] == List(a + b)
    ensures var hash := HashOf(m, tools.py);
            ModulePieces(m, tools)
            == Kept(Label(Get(m, "title"), tools.py), hash, hash) + ToolPieces(m, hash, tools)
               + (ChildPieces(DictsOf(a), hash, tools) + ChildPieces(DictsOf(b), hash, tools))
  {
    DictsInOrder(a, b);
    ChildPiecesAppend(DictsOf(a), DictsOf(b), HashOf(m, tools.py), tools);
    ModuleSplit(m, a + b, tools);
  }

  lemma ModuleSplit(m: map<string, Json>, items: seq<Json>, tools: Tools)
    requires "children" in m && m["children"] == List(items)
    ensures var hash := HashOf(m, tools.py);
            ModulePieces(m, tools)
            == Kept(Label(Get(m, "title"), tools.py), hash, hash) + ToolPieces(m, hash, tools)
               + ChildPieces(DictsOf(items), hash, tools)
  {
    assert Children(m) == DictsOf(items);
  }
}
