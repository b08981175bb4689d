/** Publication references on model pages: the per-page parse and what deduplication means. */
module PublicationRefs {
  import opened Prelude

  /** One link on a model page as the pattern captures it; the type may be missing. */
  datatype Link = Link(locale: string, pubId: string, pubType: Option<string>)

  datatype Ref = Ref(pubId: string, pubType: string, sourceUrl: string)

  function RefOf(link: Link): Ref {
    Ref(link.pubId, if link.pubType.Some? then link.pubType.value else "",
        "https://docs.sram.com/" + link.locale + "/publications/" + link.pubId)
  }

  function RefsOf(links: seq<Link>): (refs: seq<Ref>)
    ensures |refs| == |links| && forall i :: 0 <= i < |links| ==> refs[i] == RefOf(links[i])
  {
    seq(|links|, i requires 0 <= i < |links| => RefOf(links[i]))
  }

  // --- Deduplication as a specification ---

  function Ids(refs: seq<Ref>): seq<string> {
    if refs == [] then [] else Ids(refs[..|refs| - 1]) + [refs[|refs| - 1].pubId]
  }

  /** The first reference to a publication, typed ones only if asked for. */
  function First(refs: seq<Ref>, pubId: string, typed: bool): Option<Ref> {
    if refs == [] then None
    else
      var front := First(refs[..|refs| - 1], pubId, typed);
      var last := refs[|refs| - 1];
      if front.Some? then front
      else if last.pubId == pubId && (typed ==> last.pubType != "") then Some(last)
      else None
  }

  /** The first typed reference, else the first one. */
  function Best(refs: seq<Ref>, pubId: string): Option<Ref> {
    if First(refs, pubId, true).Some? then First(refs, pubId, true) else First(refs, pubId, false)
  }

  function BestOf(order: seq<string>, refs: seq<Ref>): seq<Ref> {
    if order == [] then []
    else BestOf(order[..|order| - 1], refs)
         + match Best(refs, order[|order| - 1]) case None => [] case Some(ref) => [ref]
  }

  /** Each publication once, in order of first mention, with its best reference. */
  function Dedupe(refs: seq<Ref>): seq<Ref> {
    BestOf(FirstSeen(Ids(refs)), refs)
  }

  lemma IdsSnoc(refs: seq<Ref>, ref: Ref)
    ensures Ids(refs + [ref]) == Ids(refs) + [ref.pubId]
  {
    assert (refs + [ref])[..|refs|] == refs;
  }

  lemma FirstSnoc(refs: seq<Ref>, ref: Ref, pubId: string, typed: bool)
    ensures First(refs + [ref], pubId, typed)
            == if First(refs, pubId, typed).Some? then First(refs, pubId, typed)
               else if ref.pubId == pubId && (typed ==> ref.pubType != "") then Some(ref) else None
  {
    assert (refs + [ref])[..|refs|] == refs;
  }

  lemma {:induction false} FirstFound(refs: seq<Ref>, pubId: string)
    ensures First(refs, pubId, false).Some? <==> pubId in Ids(refs)
    ensures First(refs, pubId, true).Some? ==> First(refs, pubId, false).Some?
    ensures First(refs, pubId, true).Some? ==> First(refs, pubId, true).value.pubType != ""
    ensures forall typed :: First(refs, pubId, typed).Some? ==> First(refs, pubId, typed).value.pubId == pubId
    ensures First(refs, pubId, true).None? && First(refs, pubId, false).Some? ==> First(refs, pubId, false).value.pubType == ""
  {
    if refs != [] { FirstFound(refs[..|refs| - 1], pubId); }
  }

  // --- The loops ---

  /** The dict of references: keys in order, each with the best reference so far. */
  ghost predicate Found(order: seq<string>, found: map<string, Ref>, refs: seq<Ref>) {
    && order == FirstSeen(Ids(refs))
    && (forall p :: p in found <==> p in Ids(refs))
    && (forall p :: p in found ==> Best(refs, p) == Some(found[p]))
  }

  lemma FoundAdds(order: seq<string>, found: map<string, Ref>, refs: seq<Ref>, ref: Ref)
    requires Found(order, found, refs)
    ensures ref.pubId !in found ==> Found(order + [ref.pubId], found[ref.pubId := ref], refs + [ref])
    ensures ref.pubId in found ==>
              Found(order, if ref.pubType != "" && found[ref.pubId].pubType == "" then found[ref.pubId := ref] else found, refs + [ref])
  {
    IdsSnoc(refs, ref);
    FirstSeenSnoc(Ids(refs), ref.pubId);
    forall p ensures Best(refs + [ref], p) == BestAfter(refs, ref, p) {
      BestSnoc(refs, ref, p);
    }
    forall p | p in found ensures BestIsTyped(refs, p) {
      FirstFound(refs, p);
    }
    FirstFound(refs, ref.pubId);
  }

  /** Best(refs + [ref], p) from Best(refs, p): a first mention, or the first typed one after bare ones. */
  function BestAfter(refs: seq<Ref>, ref: Ref, p: string): Option<Ref> {
    if ref.pubId != p then Best(refs, p)
    else
      match Best(refs, p)
      case None => Some(ref)
      case Some(best) => if best.pubType == "" && ref.pubType != "" then Some(ref) else Some(best)
  }

  lemma BestSnoc(refs: seq<Ref>, ref: Ref, p: string)
    ensures Best(refs + [ref], p) == BestAfter(refs, ref, p)
  {
    FirstFound(refs, p);
    FirstSnoc(refs, ref, p, true);
    FirstSnoc(refs, ref, p, false);
  }

  ghost predicate BestIsTyped(refs: seq<Ref>, p: string) {
    Best(refs, p).Some? ==> (Best(refs, p).value.pubType != "" <==> First(refs, p, true).Some?)
  }

  /** The values of a dict in insertion order. */
  function ValuesOf(order: seq<string>, found: map<string, Ref>): seq<Ref> {
    if order == [] then []
    else ValuesOf(order[..|order| - 1], found) + if order[|order| - 1] in found then [found[order[|order| - 1]]] else []
  }

  lemma FoundIsDedupe(order: seq<string>, found: map<string, Ref>, refs: seq<Ref>)
    requires Found(order, found, refs)
    ensures ValuesOf(order, found) == Dedupe(refs)
  {
    FirstSeenFacts(Ids(refs));
    ValuesAreBest(order, found, refs);
  }

  lemma {:induction false} ValuesAreBest(order: seq<string>, found: map<string, Ref>, refs: seq<Ref>)
    requires forall p :: p in order ==> p in found && Best(refs, p) == Some(found[p])
    ensures ValuesOf(order, found) == BestOf(order, refs)
  {
    if order != [] {
      assert order[|order| - 1] in order;
      ValuesAreBest(order[..|order| - 1], found, refs);
    }
  }

  method ParsePublicationRefs(links: seq<Link>) returns (refs: seq<Ref>)
    ensures refs == Dedupe(RefsOf(links))
  {
    var order: seq<string> := [];
    var found: map<string, Ref> := map[];
    ghost var all := RefsOf(links);
    for i := 0 to |links|
      invariant Found(order, found, all[..i])
    {
      var ref := RefOf(links[i]);
      FoundAdds(order, found, all[..i], ref);
      assert all[..i + 1] == all[..i] + [ref];
      if ref.pubId !in found {
        found := found[ref.pubId := ref];
        order := order + [ref.pubId];
      } else if ref.pubType != "" && found[ref.pubId].pubType == "" {
        found := found[ref.pubId := ref];
      }
    }
    assert all[..|links|] == all;
    FoundIsDedupe(order, found, all);
    refs := ValuesOf(order, found);
  }

  // --- Two levels are one flat pass ---

  lemma {:induction false} IdsAppend(a: seq<Ref>, b: seq<Ref>)
    ensures Ids(a + b) == Ids(a) + Ids(b)
  {
    if b == [] {
      assert a + b == a;
    } else {
      var n := |b| - 1;
      assert a + b == a + b[..n] + [b[n]];
      IdsSnoc(a + b[..n], b[n]);
      IdsAppend(a, b[..n]);
    }
  }

  lemma {:induction false} FirstAppend(a: seq<Ref>, b: seq<Ref>, p: string, typed: bool)
    ensures First(a + b, p, typed) == if First(a, p, typed).Some? then First(a, p, typed) else First(b, p, typed)
  {
    if b == [] {
      assert a + b == a;
    } else {
      var n := |b| - 1;
      assert a + b == a + b[..n] + [b[n]];
      FirstSnoc(a + b[..n], b[n], p, typed);
      FirstAppend(a, b[..n], p, typed);
    }
  }

  lemma {:induction false} FirstSeenAbsorbs<T(!new)>(xs: seq<T>, ys: seq<T>)
    ensures FirstSeen(xs + FirstSeen(ys)) == FirstSeen(xs + ys)
  {
    if ys != [] {
      var n := |ys| - 1;
      FirstSeenAbsorbs(xs, ys[..n]);
      assert xs + ys == xs + ys[..n] + [ys[n]];
      FirstSeenSnoc(xs + ys[..n], ys[n]);
      FirstSeenFacts(ys[..n]);
      if ys[n] !in ys[..n] {
        assert xs + FirstSeen(ys) == xs + FirstSeen(ys[..n]) + [ys[n]];
        FirstSeenSnoc(xs + FirstSeen(ys[..n]), ys[n]);
      }
    }
  }

  /** The ids and the firsts of a list of best references. */
  lemma {:induction false} BestOfFacts(order: seq<string>, refs: seq<Ref>, p: string)
    requires Distinct(order) && forall q :: q in order ==> q in Ids(refs)
    ensures Ids(BestOf(order, refs)) == order
    ensures First(BestOf(order, refs), p, false) == if p in order then Best(refs, p) else None
    ensures First(BestOf(order, refs), p, true) == if p in order then First(refs, p, true) else None
  {
    if order != [] {
      var n := |order| - 1;
      var q := order[n];
      assert order == order[..n] + [q];
      BestOfFacts(order[..n], refs, p);
      FirstFound(refs, q);
      var best := Best(refs, q).value;
      IdsSnoc(BestOf(order[..n], refs), best);
      FirstSnoc(BestOf(order[..n], refs), best, p, true);
      FirstSnoc(BestOf(order[..n], refs), best, p, false);
    }
  }

  /** Deduplicating a suffix first changes neither the order of first mention nor any best reference. */
  lemma DedupeSuffix(a: seq<Ref>, b: seq<Ref>)
    ensures FirstSeen(Ids(a + Dedupe(b))) == FirstSeen(Ids(a + b))
    ensures forall p :: Best(a + Dedupe(b), p) == Best(a + b, p)
  {
    FirstSeenFacts(Ids(b));
    BestOfFacts(FirstSeen(Ids(b)), b, "");
    IdsAppend(a, b);
    IdsAppend(a, Dedupe(b));
    FirstSeenAbsorbs(Ids(a), Ids(b));
    forall p ensures Best(a + Dedupe(b), p) == Best(a + b, p) {
      BestOfFacts(FirstSeen(Ids(b)), b, p);
      FirstFound(b, p);
      FirstAppend(a, b, p, true);
      FirstAppend(a, b, p, false);
      FirstAppend(a, Dedupe(b), p, true);
      FirstAppend(a, Dedupe(b), p, false);
    }
  }

  lemma {:induction false} BestOfSame(order: seq<string>, a: seq<Ref>, b: seq<Ref>)
    requires forall p :: Best(a, p) == Best(b, p)
    ensures BestOf(order, a) == BestOf(order, b)
  {
    if order != [] { BestOfSame(order[..|order| - 1], a, b); }
  }

  function PerPage(pages: seq<seq<Ref>>): (each: seq<seq<Ref>>)
    ensures |each| == |pages| && forall i :: 0 <= i < |pages| ==> each[i] == Dedupe(pages[i])
  {
    seq(|pages|, i requires 0 <= i < |pages| => Dedupe(pages[i]))
  }

  lemma {:induction false} PagesAgree(pages: seq<seq<Ref>>)
    ensures FirstSeen(Ids(Flatten(PerPage(pages)))) == FirstSeen(Ids(Flatten(pages)))
    ensures forall p :: Best(Flatten(PerPage(pages)), p) == Best(Flatten(pages), p)
  {
    if pages != [] {
      var n := |pages| - 1;
      var deep, flat := Flatten(PerPage(pages[..n])), Flatten(pages[..n]);
      PagesAgree(pages[..n]);
      assert PerPage(pages)[..n] == PerPage(pages[..n]);
      assert Flatten(PerPage(pages)) == deep + Dedupe(pages[n]);
      DedupeSuffix(deep, pages[n]);
      PrefixSwap(deep, flat, pages[n]);
    }
  }

  /** A prefix contributes to the best reference through its own best reference only. */
  lemma BestAppend(a: seq<Ref>, c: seq<Ref>, p: string)
    ensures Best(a + c, p) ==
              match Best(a, p)
              case None => Best(c, p)
              case Some(best) => if best.pubType == "" && First(c, p, true).Some? then First(c, p, true) else Some(best)
  {
    FirstFound(a, p);
    FirstAppend(a, c, p, true);
    FirstAppend(a, c, p, false);
  }

  /** A prefix matters only through its order of first mention and its best references. */
  lemma PrefixSwap(a: seq<Ref>, b: seq<Ref>, c: seq<Ref>)
    requires FirstSeen(Ids(a)) == FirstSeen(Ids(b)) && forall p :: Best(a, p) == Best(b, p)
    ensures FirstSeen(Ids(a + c)) == FirstSeen(Ids(b + c))
    ensures forall p :: Best(a + c, p) == Best(b + c, p)
  {
    IdsAppend(a, c);
    IdsAppend(b, c);
    FirstSeenPrefix(Ids(a), Ids(b), Ids(c));
    forall p ensures Best(a + c, p) == Best(b + c, p) {
      BestAppend(a, c, p);
      BestAppend(b, c, p);
    }
  }

  lemma {:induction false} FirstSeenPrefix<T(!new)>(xs: seq<T>, ys: seq<T>, zs: seq<T>)
    requires FirstSeen(xs) == FirstSeen(ys)
    ensures FirstSeen(xs + zs) == FirstSeen(ys + zs)
  {
    if zs == [] {
      assert xs + zs == xs && ys + zs == ys;
    } else {
      var n := |zs| - 1;
      FirstSeenPrefix(xs, ys, zs[..n]);
      assert xs + zs == xs + zs[..n] + [zs[n]] && ys + zs == ys + zs[..n] + [zs[n]];
      FirstSeenSnoc(xs + zs[..n], zs[n]);
      FirstSeenSnoc(ys + zs[..n], zs[n]);
      FirstSeenFacts(xs + zs[..n]);
      FirstSeenFacts(ys + zs[..n]);
      assert zs[n] in xs + zs[..n] <==> zs[n] in FirstSeen(xs + zs[..n]);
    }
  }

  /** Deduplicating each page and then across pages is deduplicating all links once. */
  lemma TwoLevelsAreFlat(pages: seq<seq<Ref>>)
    ensures Dedupe(Flatten(PerPage(pages))) == Dedupe(Flatten(pages))
  {
    PagesAgree(pages);
    BestOfSame(FirstSeen(Ids(Flatten(pages))), Flatten(PerPage(pages)), Flatten(pages));
  }

  /** A deduplicated list names each publication once. */
  lemma DedupeIds(refs: seq<Ref>)
    ensures Ids(Dedupe(refs)) == FirstSeen(Ids(refs)) && Distinct(Ids(Dedupe(refs)))
    ensures forall p :: p in Ids(Dedupe(refs)) <==> p in Ids(refs)
  {
    FirstSeenFacts(Ids(refs));
    BestOfFacts(FirstSeen(Ids(refs)), refs, "");
  }

  lemma {:induction false} IdsAt(refs: seq<Ref>, i: nat)
    requires i <= |refs|
    ensures |Ids(refs)| == |refs| && Ids(refs)[..i] == Ids(refs[..i])
    ensures i < |refs| ==> Ids(refs)[i] == refs[i].pubId
  {
    var n := |refs| - 1;
    if i < |refs| {
      IdsAt(refs[..n], i);
      assert refs[..n][..i] == refs[..i];
    } else if refs != [] {
      IdsAt(refs[..n], n);
      assert refs[..i] == refs && refs[..n][..n] == refs[..n];
    }
  }

  // --- Which link a publication gets ---

  /** The first link to the publication, typed ones only if asked for. */
  ghost predicate FirstLink(links: seq<Link>, pubId: string, typed: bool, i: int) {
    && 0 <= i < |links| && links[i].pubId == pubId && (typed ==> IsTyped(links[i]))
    && forall j :: 0 <= j < i ==> links[j].pubId != pubId || (typed && !IsTyped(links[j]))
  }

  predicate IsTyped(link: Link) {
    link.pubType.Some? && link.pubType.value != ""
  }

  lemma {:induction false} FirstIsFirstLink(links: seq<Link>, pubId: string, typed: bool)
    ensures match First(RefsOf(links), pubId, typed)
            case None => forall i :: 0 <= i < |links| ==> links[i].pubId != pubId || (typed && !IsTyped(links[i]))
            case Some(ref) => exists i :: FirstLink(links, pubId, typed, i) && ref == RefOf(links[i])
  {
    if links != [] {
      var n := |links| - 1;
      assert RefsOf(links)[..n] == RefsOf(links[..n]);
      FirstIsFirstLink(links[..n], pubId, typed);
      if First(RefsOf(links[..n]), pubId, typed).Some? {
        var i :| FirstLink(links[..n], pubId, typed, i) && First(RefsOf(links[..n]), pubId, typed).value == RefOf(links[..n][i]);
        assert FirstLink(links, pubId, typed, i);
      } else if First(RefsOf(links), pubId, typed).Some? {
        assert FirstLink(links, pubId, typed, n);
      }
    }
  }

  /**
   * A deduplicated publication has the type and the address of its first typed link, or of its first link
   * if none is typed.
   */
  lemma BestLink(links: seq<Link>, pubId: string) returns (i: int)
    requires exists j :: 0 <= j < |links| && links[j].pubId == pubId
    ensures FirstLink(links, pubId, true, i)
            || (FirstLink(links, pubId, false, i) && forall j :: 0 <= j < |links| && links[j].pubId == pubId ==> !IsTyped(links[j]))
    ensures var link := links[i];
            Best(RefsOf(links), pubId)
            == Some(Ref(pubId, if IsTyped(link) then link.pubType.value else "",
                        "https://docs.sram.com/" + link.locale + "/publications/" + pubId))
  {
    FirstIsFirstLink(links, pubId, true);
    FirstIsFirstLink(links, pubId, false);
    if First(RefsOf(links), pubId, true).Some? {
      i :| FirstLink(links, pubId, true, i) && First(RefsOf(links), pubId, true).value == RefOf(links[i]);
    } else {
      i :| FirstLink(links, pubId, false, i) && First(RefsOf(links), pubId, false).value == RefOf(links[i]);
    }
  }
}
