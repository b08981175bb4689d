/** Parse, store, reconstruct: what fetch_module_text gives back for an ingested publication. */
module ModuleText {
  import opened Prelude
  import opened Embedder
  import opened Json
  import opened Text
  import opened Tables
  import opened HtmlParser
  import opened HtmlPipeline
  import QueryRoute

  function TextsOf(pieces: seq<Piece>): (texts: seq<string>)
    ensures |texts| == |pieces| && forall i :: 0 <= i < |pieces| ==> texts[i] == pieces[i].text
  {
    seq(|pieces|, i requires 0 <= i < |pieces| => pieces[i].text)
  }

  /** The ordinals at which the pieces of an anchor are stored. */
  function OrdinalsUnder(pieces: seq<Piece>, anchor: string): seq<int> {
    if pieces == [] then []
    else OrdinalsUnder(pieces[..|pieces| - 1], anchor)
         + if pieces[|pieces| - 1].parentAnchor == Some(anchor) then [|pieces|] else []
  }

  /** The piece stored at an ordinal belongs to the anchor. */
  predicate AtOrdinal(pieces: seq<Piece>, anchor: string, o: int) {
    1 <= o <= |pieces| && pieces[o - 1].parentAnchor == Some(anchor)
  }

  lemma {:induction false} OrdinalsUnderFacts(pieces: seq<Piece>, anchor: string)
    ensures Ascending(OrdinalsUnder(pieces, anchor))
    ensures forall o :: o in OrdinalsUnder(pieces, anchor) <==> AtOrdinal(pieces, anchor, o)
  {
    if pieces != [] {
      var n := |pieces| - 1;
      var front := pieces[..n];
      var rest := OrdinalsUnder(front, anchor);
      OrdinalsUnderFacts(front, anchor);
      assert forall i :: 0 <= i < |rest| ==> rest[i] in rest;
      forall o ensures AtOrdinal(pieces, anchor, o) <==> AtOrdinal(front, anchor, o) || (o == n + 1 && pieces[n].parentAnchor == Some(anchor)) {
        if 1 <= o <= n { assert front[o - 1] == pieces[o - 1]; }
      }
    }
  }

  /** The i-th piece of an anchor stands at its i-th ordinal. */
  lemma {:induction false} UnderByOrdinal(pieces: seq<Piece>, anchor: string, i: nat)
    requires i < |Under(pieces, anchor)| || i < |OrdinalsUnder(pieces, anchor)|
    ensures |OrdinalsUnder(pieces, anchor)| == |Under(pieces, anchor)|
    ensures 1 <= OrdinalsUnder(pieces, anchor)[i] <= |pieces|
    ensures Under(pieces, anchor)[i] == pieces[OrdinalsUnder(pieces, anchor)[i] - 1]
  {
    var n := |pieces| - 1;
    SameCount(pieces, anchor);
    SameCount(pieces[..n], anchor);
    if i < |Under(pieces[..n], anchor)| {
      UnderByOrdinal(pieces[..n], anchor, i);
    }
  }

  lemma {:induction false} SameCount(pieces: seq<Piece>, anchor: string)
    ensures |OrdinalsUnder(pieces, anchor)| == |Under(pieces, anchor)|
  {
    if pieces != [] { SameCount(pieces[..|pieces| - 1], anchor); }
  }

  /** The document of an ingested publication, as some successful ingest left it. */
  ghost predicate Holds(db: Db, document: int, data: map<string, Json>, base: string, tools: Tools, embedded: seq<Vector>, now: int)
  {
    var parsed := ParsedOf(data, base, tools);
    |embedded| == |parsed.chunks| && HasChunks(db, document, HtmlPlan(parsed, embedded, |embedded|, now))
  }

  /** Every listing of an anchor's chunks meets exactly the pieces stored under it, in document order. */
  lemma ListingIsUnder(
    db: Db, document: int, data: map<string, Json>, base: string, tools: Tools, embedded: seq<Vector>, now: int,
    anchor: string, ordinals: seq<int>)
    requires Holds(db, document, data, base, tools, embedded, now)
    requires IsModuleListing(db, document, anchor, ordinals)
    ensures TextsAt(db, document, ordinals) == TextsOf(Under(Pieces(data, tools), anchor))
  {
    var pieces := Pieces(data, tools);
    var parsed := ParsedOf(data, base, tools);
    PlanListing(db, document, pieces, HtmlPlan(parsed, embedded, |embedded|, now), anchor, ordinals);
  }

  /** The same over the plan alone: pieces numbered 1..n are stored with their texts and parent anchors. */
  lemma PlanListing(
    db: Db, document: int, pieces: seq<Piece>, plan: map<int, Content>, anchor: string, ordinals: seq<int>)
    requires HasChunks(db, document, plan) && IsModuleListing(db, document, anchor, ordinals)
    requires forall o :: o in plan <==> 1 <= o <= |pieces|
    requires forall o :: o in plan ==> plan[o].text == pieces[o - 1].text && plan[o].parentAnchor == pieces[o - 1].parentAnchor
    ensures TextsAt(db, document, ordinals) == TextsOf(Under(pieces, anchor))
  {
    ListedOrdinals(db, document, pieces, plan, anchor, ordinals);
    SameCount(pieces, anchor);
    forall i | 0 <= i < |ordinals| ensures TextsAt(db, document, ordinals)[i] == Under(pieces, anchor)[i].text {
      UnderByOrdinal(pieces, anchor, i);
      assert (document, ordinals[i]) in db.chunks <==> ordinals[i] in plan;
    }
  }

  lemma ListedOrdinals(db: Db, document: int, pieces: seq<Piece>, plan: map<int, Content>, anchor: string, ordinals: seq<int>)
    requires HasChunks(db, document, plan) && IsModuleListing(db, document, anchor, ordinals)
    requires forall o :: o in plan <==> 1 <= o <= |pieces|
    requires forall o :: o in plan ==> plan[o].parentAnchor == pieces[o - 1].parentAnchor
    ensures ordinals == OrdinalsUnder(pieces, anchor)
  {
    forall o ensures InModule(db, document, anchor, o) <==> AtOrdinal(pieces, anchor, o) {
      assert (document, o) in db.chunks <==> o in plan;
      if o in plan { assert plan[o].parentAnchor == pieces[o - 1].parentAnchor; }
    }
    OrdinalsUnderFacts(pieces, anchor);
    assert forall i :: 0 <= i < |ordinals| ==> ordinals[i] in ordinals;
    AscendingUnique(ordinals, OrdinalsUnder(pieces, anchor));
  }

  /**
   * fetch_module_text, for an anchor that names modules: it joins what all modules with that hash
   * contribute (titles, tool lists and blocks), in document order.
   */
  lemma ModuleTextIsItsPieces(
    db: Db, document: int, data: map<string, Json>, base: string, tools: Tools, embedded: seq<Vector>, now: int,
    anchor: string, ordinals: seq<int>)
    requires Holds(db, document, data, base, tools, embedded, now)
    requires IsModuleListing(db, document, anchor, ordinals)
    ensures Join("\n\n", TextsAt(db, document, ordinals))
            == Join("\n\n", TextsOf(PiecesWithHash(Modules(data), anchor, tools)))
  {
    ListingIsUnder(db, document, data, base, tools, embedded, now, anchor, ordinals);
    AnchorSelectsModules(data, anchor, tools);
  }

  /** Only module k carries the hash. */
  ghost predicate OwnHash(modules: seq<map<string, Json>>, k: nat, anchor: string, tools: Tools) {
    k < |modules| && forall i :: 0 <= i < |modules| ==> (CarriesHash(modules[i], anchor, tools) <==> i == k)
  }

  /** With a hash of its own, a module's stored texts are its non-empty title, tool list and block texts, in order. */
  lemma ModuleIsRead(
    db: Db, document: int, data: map<string, Json>, base: string, tools: Tools, embedded: seq<Vector>, now: int,
    k: nat, anchor: string, ordinals: seq<int>)
    requires Holds(db, document, data, base, tools, embedded, now)
    requires OwnHash(Modules(data), k, anchor, tools) && IsModuleListing(db, document, anchor, ordinals)
    ensures TextsAt(db, document, ordinals) == TextsOf(ModulePieces(Modules(data)[k], tools))
  {
    ListingIsUnder(db, document, data, base, tools, embedded, now, anchor, ordinals);
    AnchorSelectsModules(data, anchor, tools);
    OnlyAtMeans(Modules(data), k, anchor, tools);
    OwnHashOwnPieces(Modules(data), k, anchor, tools);
  }

  /** fetch_module_text reconstructs such a module exactly. */
  lemma ModuleIsReconstructed(
    db: Db, document: int, data: map<string, Json>, base: string, tools: Tools, embedded: seq<Vector>, now: int,
    k: nat, anchor: string, ordinals: seq<int>)
    requires Holds(db, document, data, base, tools, embedded, now)
    requires OwnHash(Modules(data), k, anchor, tools) && IsModuleListing(db, document, anchor, ordinals)
    ensures Join("\n\n", TextsAt(db, document, ordinals)) == Join("\n\n", TextsOf(ModulePieces(Modules(data)[k], tools)))
  {
    ModuleIsRead(db, document, data, base, tools, embedded, now, k, anchor, ordinals);
  }

  // --- The label ---

  lemma StripKeepsHead(s: string)
    requires s != "" && !IsSpace(s[0])
    ensures Strip(s) != "" && Strip(s)[0] == s[0]
  {
    RStripKeepsHead(s);
  }

  lemma {:induction false} RStripKeepsHead(s: string)
    requires s != "" && !IsSpace(s[0])
    ensures RStrip(s) != "" && RStrip(s)[0] == s[0]
  {
    if |s| > 1 && IsSpace(s[|s| - 1]) { RStripKeepsHead(s[..|s| - 1]); }
  }

  /** The first line of joined clean texts is the first line of the first one. */
  lemma LabelOfJoin(texts: seq<string>, fallback: string)
    requires texts != [] && forall i :: 0 <= i < |texts| ==> texts[i] != "" && Trimmed(texts[i])
    ensures QueryRoute.HtmlLabel(Join("\n\n", texts), fallback) == Take(Strip(FirstLine(texts[0])), QueryRoute.LABEL_MAX_CHARS)
  {
    var all := Join("\n\n", texts);
    JoinTrimmed("\n\n", texts);
    TrimmedIsFixed(all);
    if |texts| > 1 {
      var rest := Join("\n\n", texts[1..]);
      assert all == texts[0] + "\n" + ("\n" + rest);
      FirstLineOfJoin(texts[0], "\n" + rest);
    }
    assert FirstLine(texts[0]) != "" && FirstLine(texts[0])[0] == texts[0][0];
    StripKeepsHead(FirstLine(texts[0]));
  }

  /** A titled module with a hash of its own is labelled by its title's first line, cut to 80 characters. */
  lemma TitledModuleLabel(
    db: Db, document: int, data: map<string, Json>, base: string, tools: Tools, embedded: seq<Vector>, now: int,
    k: nat, anchor: string, ordinals: seq<int>, documentTitle: string)
    requires Holds(db, document, data, base, tools, embedded, now)
    requires OwnHash(Modules(data), k, anchor, tools) && IsModuleListing(db, document, anchor, ordinals)
    requires Label(Get(Modules(data)[k], "title"), tools.py) != ""
    ensures QueryRoute.HtmlLabel(Join("\n\n", TextsAt(db, document, ordinals)), documentTitle)
            == Take(Strip(FirstLine(Label(Get(Modules(data)[k], "title"), tools.py))), QueryRoute.LABEL_MAX_CHARS)
  {
    var m := Modules(data)[k];
    var pieces := ModulePieces(m, tools);
    ModuleIsReconstructed(db, document, data, base, tools, embedded, now, k, anchor, ordinals);
    ModulePiecesClean(m, tools);
    TitleComesFirst(m, tools);
    LabelOfJoin(TextsOf(pieces), documentTitle);
  }

  lemma TitleComesFirst(m: map<string, Json>, tools: Tools)
    requires Label(Get(m, "title"), tools.py) != ""
    ensures ModulePieces(m, tools) != [] && ModulePieces(m, tools)[0].text == Label(Get(m, "title"), tools.py)
  {
    var title := Label(Get(m, "title"), tools.py);
    StripTrims(PyStr(Get(m, "title"), tools.py));
    TrimmedIsFixed(title);
  }
}
