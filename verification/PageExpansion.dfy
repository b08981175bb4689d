/** Merging the base hits with the leading document's neighbour pages under a page budget. */
module PageExpansion {
  import opened Prelude
  import opened Ordering
  import opened RankFusion
  import opened Reranking

  /** A neighbour page: its chunk and its ordinal in the leading document. */
  datatype Page = Page(chunk: int, ordinal: int)

  function Distance(page: Page, anchor: int): nat {
    if page.ordinal >= anchor then page.ordinal - anchor else anchor - page.ordinal
  }

  /** The sort key (|ordinal - anchor|, ordinal). */
  function ClosestFirst(anchor: int): (Page, Page) -> bool {
    (p: Page, q: Page) =>
      Distance(p, anchor) < Distance(q, anchor)
      || (Distance(p, anchor) == Distance(q, anchor) && p.ordinal <= q.ordinal)
  }

  predicate HasChunk(hits: seq<Hit>, chunk: int) {
    exists i :: 0 <= i < |hits| && hits[i].chunk == chunk
  }

  /** The neighbours that are not hits already. */
  function NewPages(hits: seq<Hit>, neighbors: seq<Page>): seq<Page> {
    if neighbors == [] then []
    else (if HasChunk(hits, neighbors[0].chunk) then [] else [neighbors[0]]) + NewPages(hits, neighbors[1..])
  }

  /** Display scores: one bonus step below the anchor per appended page. */
  function AsHits(pages: seq<Page>, anchorScore: real): (hits: seq<Hit>)
    ensures |hits| == |pages|
    ensures forall i :: 0 <= i < |pages| ==> hits[i] == Hit(pages[i].chunk, anchorScore - (i + 1) as real * RERANK_BONUS)
  {
    seq(|pages|, i requires 0 <= i < |pages| => Hit(pages[i].chunk, anchorScore - (i + 1) as real * RERANK_BONUS))
  }

  function Assembled(base: seq<Hit>, neighbors: seq<Page>, anchor: int, anchorScore: real, budget: nat): seq<Hit> {
    var kept := Take(base, budget);
    var ordered := StableSort(NewPages(kept, neighbors), ClosestFirst(anchor));
    kept + AsHits(Take(ordered, budget - |kept|), anchorScore)
  }

  method AssembleCandidates(base: seq<Hit>, neighbors: seq<Page>, anchor: int, anchorScore: real, budget: nat)
    returns (kept: seq<Hit>)
    ensures kept == Assembled(base, neighbors, anchor, anchorScore, budget)
  {
    kept := Take(base, budget);
    ghost var prefix := kept;
    var ordered := StableSort(NewPages(kept, neighbors), ClosestFirst(anchor));
    if |kept| >= budget {
      assert AsHits(Take(ordered, 0), anchorScore) == [];
      return;
    }
    var rank := 0;
    while rank < |ordered| && |kept| < budget
      invariant 0 <= rank <= |ordered| && rank <= budget - |prefix|
      invariant kept == prefix + AsHits(ordered[..rank], anchorScore)
    {
      assert AsHits(ordered[..rank + 1], anchorScore)
          == AsHits(ordered[..rank], anchorScore) + [Hit(ordered[rank].chunk, anchorScore - (rank + 1) as real * RERANK_BONUS)];
      kept := kept + [Hit(ordered[rank].chunk, anchorScore - (rank + 1) as real * RERANK_BONUS)];
      rank := rank + 1;
    }
    assert ordered[..rank] == Take(ordered, budget - |prefix|);
  }

  // --- What assembly guarantees ---

  ghost predicate UniquePages(pages: seq<Page>) {
    forall i, j :: 0 <= i < j < |pages| ==> pages[i].chunk != pages[j].chunk
  }

  lemma {:induction false} NewPagesContents(hits: seq<Hit>, neighbors: seq<Page>)
    ensures forall p :: p in NewPages(hits, neighbors) <==> p in neighbors && !HasChunk(hits, p.chunk)
    ensures UniquePages(neighbors) ==> UniquePages(NewPages(hits, neighbors))
  {
    if neighbors != [] {
      NewPagesContents(hits, neighbors[1..]);
      assert neighbors == [neighbors[0]] + neighbors[1..];
      var rest := NewPages(hits, neighbors[1..]);
      if UniquePages(neighbors) {
        forall j | 0 <= j < |rest| ensures rest[j].chunk != neighbors[0].chunk {
          assert rest[j] in neighbors[1..];
        }
      }
    }
  }

  lemma OrderedPages(hits: seq<Hit>, neighbors: seq<Page>, anchor: int) returns (ordered: seq<Page>)
    requires UniquePages(neighbors)
    ensures ordered == StableSort(NewPages(hits, neighbors), ClosestFirst(anchor))
    ensures Sorted(ordered, ClosestFirst(anchor)) && UniquePages(ordered)
    ensures forall p :: p in ordered <==> p in neighbors && !HasChunk(hits, p.chunk)
  {
    var added := NewPages(hits, neighbors);
    ordered := StableSort(added, ClosestFirst(anchor));
    NewPagesContents(hits, neighbors);
    assert TotalPreorder(ClosestFirst(anchor));
    SortSorts(added, ClosestFirst(anchor));
    SortPermutes(added, ClosestFirst(anchor));
    SameElements(added, ordered);
    assert Distinct(added);
    PermutationDistinct(added, ordered);
    forall i, j | 0 <= i < j < |ordered| ensures ordered[i].chunk != ordered[j].chunk {
      assert ordered[i] in added && ordered[j] in added;
    }
  }

  /** The base prefix is kept as it is and never evicted; the result fills the budget as far as pages go. */
  lemma AssemblyShape(base: seq<Hit>, neighbors: seq<Page>, anchor: int, anchorScore: real, budget: nat)
    requires UniqueChunks(base) && UniquePages(neighbors)
    ensures var result := Assembled(base, neighbors, anchor, anchorScore, budget);
            && Take(base, budget) <= result
            && |result| == Min(budget, |base| + |NewPages(base, neighbors)|)
            && UniqueChunks(result)
  {
    AssemblyUnique(base, neighbors, anchor, anchorScore, budget);
    AssemblyLength(base, neighbors, anchor, anchorScore, budget);
  }

  lemma AssemblyLength(base: seq<Hit>, neighbors: seq<Page>, anchor: int, anchorScore: real, budget: nat)
    ensures |Assembled(base, neighbors, anchor, anchorScore, budget)| == Min(budget, |base| + |NewPages(base, neighbors)|)
  {
    var kept := Take(base, budget);
    var added := NewPages(kept, neighbors);
    SortLength(added, anchor);
    AppendedLength(kept, StableSort(added, ClosestFirst(anchor)), budget - |kept|, anchorScore);
    if |base| <= budget { assert kept == base; }
  }

  lemma SortLength(pages: seq<Page>, anchor: int)
    ensures |StableSort(pages, ClosestFirst(anchor))| == |pages|
  {
    SortPermutes(pages, ClosestFirst(anchor));
    assert |multiset(pages)| == |pages|;
  }

  lemma AppendedLength(kept: seq<Hit>, ordered: seq<Page>, room: nat, anchorScore: real)
    ensures |kept + AsHits(Take(ordered, room), anchorScore)| == |kept| + Min(room, |ordered|)
  {
  }

  lemma AssemblyUnique(base: seq<Hit>, neighbors: seq<Page>, anchor: int, anchorScore: real, budget: nat)
    requires UniqueChunks(base) && UniquePages(neighbors)
    ensures UniqueChunks(Assembled(base, neighbors, anchor, anchorScore, budget))
  {
    var kept := Take(base, budget);
    var ordered := OrderedPages(kept, neighbors, anchor);
    var taken := Take(ordered, budget - |kept|);
    forall i | 0 <= i < |taken| ensures !HasChunk(kept, taken[i].chunk) {
      assert taken[i] == ordered[i] && ordered[i] in ordered;
    }
    JoinUnique(kept, taken, anchorScore);
  }

  lemma JoinUnique(kept: seq<Hit>, pages: seq<Page>, anchorScore: real)
    requires UniqueChunks(kept) && UniquePages(pages)
    requires forall i :: 0 <= i < |pages| ==> !HasChunk(kept, pages[i].chunk)
    ensures UniqueChunks(kept + AsHits(pages, anchorScore))
  {
    var result := kept + AsHits(pages, anchorScore);
    forall i, j | 0 <= i < j < |result| ensures result[i].chunk != result[j].chunk {
      if j >= |kept| {
        assert result[j].chunk == pages[j - |kept|].chunk;
        if i < |kept| { assert kept[i] == result[i]; }
      }
    }
  }

  /** Every injected page is a new neighbour, scored strictly below the anchor, ever lower with its place. */
  lemma InjectedPages(base: seq<Hit>, neighbors: seq<Page>, anchor: int, anchorScore: real, budget: nat, i: nat)
    requires UniquePages(neighbors)
    requires |Take(base, budget)| <= i < |Assembled(base, neighbors, anchor, anchorScore, budget)|
    ensures var result := Assembled(base, neighbors, anchor, anchorScore, budget);
            && (exists p :: p in neighbors && p.chunk == result[i].chunk && !HasChunk(Take(base, budget), p.chunk))
            && result[i].score < anchorScore
            && forall j :: i < j < |result| ==> result[j].score < result[i].score
  {
    var kept := Take(base, budget);
    var ordered := OrderedPages(kept, neighbors, anchor);
    assert ordered[i - |kept|] in ordered;
  }

  /** The n-th injected page is scored n steps of 0.0005 below the anchor. */
  lemma InjectedScores(base: seq<Hit>, neighbors: seq<Page>, anchor: int, anchorScore: real, budget: nat, n: nat)
    requires 1 <= n && Min(|base|, budget) + n <= |Assembled(base, neighbors, anchor, anchorScore, budget)|
    ensures Assembled(base, neighbors, anchor, anchorScore, budget)[Min(|base|, budget) + n - 1].score == anchorScore - n as real * 0.0005
  {
  }

  /** Where a new page stands among the ordered ones decides whether it is in the result. */
  lemma PlaceDecides(kept: seq<Hit>, ordered: seq<Page>, room: nat, anchorScore: real, i: nat)
    requires UniquePages(ordered) && i < |ordered| && !HasChunk(kept, ordered[i].chunk)
    ensures HasChunk(kept + AsHits(Take(ordered, room), anchorScore), ordered[i].chunk) <==> i < room
  {
    var result := kept + AsHits(Take(ordered, room), anchorScore);
    assert forall h :: 0 <= h < |kept| ==> result[h] == kept[h];
    if i < room {
      assert result[|kept| + i].chunk == ordered[i].chunk;
    }
    if HasChunk(result, ordered[i].chunk) {
      var j :| 0 <= j < |result| && result[j].chunk == ordered[i].chunk;
      assert result[j].chunk == ordered[j - |kept|].chunk;
    }
  }

  /** p has no larger |ordinal - anchor| than q, and no larger ordinal if they are equally far. */
  ghost predicate Nearer(p: Page, q: Page, anchor: int) {
    var far := (n: int) => if n < anchor then anchor - n else n - anchor;
    far(p.ordinal) < far(q.ordinal) || (far(p.ordinal) == far(q.ordinal) && p.ordinal <= q.ordinal)
  }

  /** No dropped neighbour is closer to the anchor than a kept one; equally far ones go by the lower page. */
  lemma ClosestPagesKept(base: seq<Hit>, neighbors: seq<Page>, anchor: int, anchorScore: real, budget: nat, p: Page, q: Page)
    requires UniquePages(neighbors) && p in neighbors && q in neighbors
    requires !HasChunk(Take(base, budget), p.chunk) && !HasChunk(Take(base, budget), q.chunk)
    requires HasChunk(Assembled(base, neighbors, anchor, anchorScore, budget), p.chunk)
    requires !HasChunk(Assembled(base, neighbors, anchor, anchorScore, budget), q.chunk)
    ensures Nearer(p, q, anchor)
  {
    var kept := Take(base, budget);
    var ordered := OrderedPages(kept, neighbors, anchor);
    assert p in ordered && q in ordered;
    KeptIsCloser(kept, ordered, budget - |kept|, anchor, anchorScore, p, q);
  }

  /** The appended pages come closest first, equally far ones lower page first. */
  lemma AppendedInOrder(
    base: seq<Hit>, neighbors: seq<Page>, anchor: int, anchorScore: real, budget: nat, i: nat, j: nat, p: Page, q: Page)
    requires UniquePages(neighbors) && p in neighbors && q in neighbors
    requires |Take(base, budget)| <= i < j < |Assembled(base, neighbors, anchor, anchorScore, budget)|
    requires Assembled(base, neighbors, anchor, anchorScore, budget)[i].chunk == p.chunk
    requires Assembled(base, neighbors, anchor, anchorScore, budget)[j].chunk == q.chunk
    ensures Nearer(p, q, anchor)
  {
    var kept := Take(base, budget);
    var ordered := OrderedPages(kept, neighbors, anchor);
    PageAt(neighbors, ordered, i - |kept|, p);
    PageAt(neighbors, ordered, j - |kept|, q);
  }

  lemma PageAt(neighbors: seq<Page>, ordered: seq<Page>, k: nat, p: Page)
    requires UniquePages(neighbors) && p in neighbors && k < |ordered| && ordered[k].chunk == p.chunk
    requires forall q :: q in ordered ==> q in neighbors
    ensures ordered[k] == p
  {
    assert ordered[k] in ordered;
  }

  lemma KeptIsCloser(kept: seq<Hit>, ordered: seq<Page>, room: nat, anchor: int, anchorScore: real, p: Page, q: Page)
    requires UniquePages(ordered) && Sorted(ordered, ClosestFirst(anchor)) && p in ordered && q in ordered
    requires !HasChunk(kept, p.chunk) && !HasChunk(kept, q.chunk)
    requires HasChunk(kept + AsHits(Take(ordered, room), anchorScore), p.chunk)
    requires !HasChunk(kept + AsHits(Take(ordered, room), anchorScore), q.chunk)
    ensures ClosestFirst(anchor)(p, q)
  {
    var k :| 0 <= k < |ordered| && ordered[k] == p;
    var j :| 0 <= j < |ordered| && ordered[j] == q;
    PlaceDecides(kept, ordered, room, anchorScore, k);
    PlaceDecides(kept, ordered, room, anchorScore, j);
  }

  /** Kept and dropped pages together are the considered ones. */
  lemma KeptAndDropped(base: seq<Hit>, neighbors: seq<Page>, anchor: int, anchorScore: real, budget: nat)
    requires UniqueChunks(base) && UniquePages(neighbors)
    ensures var result := Assembled(base, neighbors, anchor, anchorScore, budget);
            var considered := (set i | 0 <= i < |base| :: base[i].chunk) + (set i | 0 <= i < |neighbors| :: neighbors[i].chunk);
            var kept := set i | 0 <= i < |result| :: result[i].chunk;
            kept <= considered && |result| + |considered - kept| == |considered|
  {
    var result := Assembled(base, neighbors, anchor, anchorScore, budget);
    var considered := (set i | 0 <= i < |base| :: base[i].chunk) + (set i | 0 <= i < |neighbors| :: neighbors[i].chunk);
    var kept := set i | 0 <= i < |result| :: result[i].chunk;
    AssemblyShape(base, neighbors, anchor, anchorScore, budget);
    CountChunks(result);
    forall i | 0 <= i < |result| ensures result[i].chunk in considered {
      if i < |Take(base, budget)| {
        assert result[i] == Take(base, budget)[i] == base[i];
      } else {
        InjectedPages(base, neighbors, anchor, anchorScore, budget, i);
        var p :| p in neighbors && p.chunk == result[i].chunk;
        var j :| 0 <= j < |neighbors| && neighbors[j] == p;
      }
    }
    assert considered == kept + (considered - kept);
  }

  lemma {:induction false} CountChunks(hits: seq<Hit>)
    requires UniqueChunks(hits)
    ensures |set i | 0 <= i < |hits| :: hits[i].chunk| == |hits|
  {
    var s := set i | 0 <= i < |hits| :: hits[i].chunk;
    if hits != [] {
      var n := |hits| - 1;
      CountChunks(hits[..n]);
      var t := set i | 0 <= i < n :: hits[..n][i].chunk;
      assert s == t + {hits[n].chunk};
    } else {
      assert s == {};
    }
  }

  /** The rows of a window may arrive in any order: with distinct ordinals the result is the same. */
  lemma RowOrderIrrelevant(base: seq<Hit>, first: seq<Page>, second: seq<Page>, anchor: int, anchorScore: real, budget: nat)
    requires UniquePages(first) && UniquePages(second)
    requires forall p :: p in first <==> p in second
    requires forall p, q :: p in first && q in first && p.ordinal == q.ordinal ==> p == q
    ensures Assembled(base, first, anchor, anchorScore, budget) == Assembled(base, second, anchor, anchorScore, budget)
  {
    var kept := Take(base, budget);
    var a := OrderedPages(kept, first, anchor);
    var b := OrderedPages(kept, second, anchor);
    assert forall p, q :: p in a && q in a && p.ordinal == q.ordinal ==> p == q;
    SortedPagesEqual(a, b, anchor);
  }

  lemma SortedPagesEqual(a: seq<Page>, b: seq<Page>, anchor: int)
    requires Sorted(a, ClosestFirst(anchor)) && Sorted(b, ClosestFirst(anchor))
    requires UniquePages(a) && UniquePages(b)
    requires forall p :: p in a <==> p in b
    requires forall p, q :: p in a && q in a && p.ordinal == q.ordinal ==> p == q
    ensures a == b
  {
    var le := ClosestFirst(anchor);
    SameMembersSameBag(a, b);
    forall p, q | p in a && q in a && Before(a, p, q) ensures Before(b, p, q) {
      BeforeDistinctAsymmetric(a, p, q);
      BeforeTotal(b, p, q);
      assert le(p, q) && !le(q, p);
    }
    OrderDetermines(a, b);
  }

  lemma SameMembersSameBag(a: seq<Page>, b: seq<Page>)
    requires UniquePages(a) && UniquePages(b)
    requires forall p :: p in a <==> p in b
    ensures multiset(a) == multiset(b) && Distinct(a) && Distinct(b)
  {
    forall p ensures multiset(a)[p] == multiset(b)[p] {
      CountAtMostOnce(a, p);
      CountAtMostOnce(b, p);
      assert p in multiset(a) <==> p in a;
      assert p in multiset(b) <==> p in b;
    }
  }
}
