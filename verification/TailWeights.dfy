/** When many late hits of one document outweigh the few early hits of another. */
module TailWeights {
  import opened Prelude
  import opened RankFusion
  import opened ProductMatch
  import opened Corpus
  import opened DocumentRanking
  import opened HybridSearch

  /** The first q ranks. */
  ghost function Head(q: nat): set<nat> {
    set r: nat | r <= q && InHead(r, q)
  }

  predicate InHead(r: nat, q: nat) {
    1 <= r <= q
  }

  /** The last p ranks of a pool of n. */
  ghost function Tail(n: nat, p: nat): set<nat> {
    set r: nat | r <= n && InTail(r, n, p)
  }

  predicate InTail(r: nat, n: nat, p: nat) {
    1 <= r <= n < r + p
  }

  lemma {:induction false} HeadCount(q: nat)
    ensures |Head(q)| == q
  {
    if q > 0 {
      HeadCount(q - 1);
      assert Head(q) == Head(q - 1) + {q};
    }
  }

  lemma {:induction false} TailCount(n: nat, p: nat)
    requires p <= n
    ensures |Tail(n, p)| == p
  {
    if p > 0 {
      TailCount(n, p - 1);
      assert Tail(n, p) == Tail(n, p - 1) + {n - p + 1};
    } else {
      assert Tail(n, p) == {};
    }
  }

  ghost predicate AreRanks(ranks: set<nat>, n: nat) {
    forall r :: r in ranks ==> 1 <= r <= n
  }

  lemma {:induction false} RankCount(ranks: set<nat>, n: nat)
    requires AreRanks(ranks, n)
    ensures |ranks| <= n
  {
    HeadCount(n);
    assert ranks <= Head(n);
    SubsetCount(ranks, Head(n));
  }

  lemma {:induction false} SubsetCount(a: set<nat>, b: set<nat>)
    requires a <= b
    ensures |a| <= |b|
  {
    if a != {} {
      var x :| x in a;
      SubsetCount(a - {x}, b - {x});
    }
  }

  /** Of all rank sets of one size the first ranks weigh most. */
  lemma {:induction false} HeadIsHeaviest(ranks: set<nat>, n: nat)
    requires AreRanks(ranks, n)
    ensures WeightOf(ranks, n) <= WeightOf(Head(|ranks|), n)
  {
    var q := |ranks|;
    RankCount(ranks, n);
    if n > 0 && n !in ranks {
      RankCount(ranks, n - 1);
      HeadIsHeaviest(ranks, n - 1);
    } else if n > 0 {
      var others := ranks - {n};
      assert |others| == q - 1;
      HeadIsHeaviest(others, n - 1);
      WeightOfAgrees(ranks, others, n - 1);
      HeadGrows(q, n - 1);
      if q < n {
        WeightDecreases(RANK_AGG_K, q, n);
        WeightOfAgrees(Head(q), Head(q), n);
      }
    }
  }

  /** One more first rank. */
  lemma HeadGrows(q: nat, n: nat)
    requires 1 <= q <= n + 1
    ensures WeightOf(Head(q), n + 1) == WeightOf(Head(q - 1), n) + Weight(RANK_AGG_K, q)
  {
    WeightWithout(Head(q), n + 1, q);
    assert Head(q) - {q} == Head(q - 1);
    assert n + 1 !in Head(q - 1);
  }

  /** Of all rank sets of one size the last ranks weigh least. */
  lemma {:induction false} TailIsLightest(ranks: set<nat>, n: nat)
    requires AreRanks(ranks, n)
    ensures WeightOf(Tail(n, |ranks|), n) <= WeightOf(ranks, n)
  {
    var p := |ranks|;
    RankCount(ranks, n);
    if p == 0 {
      assert Tail(n, 0) == {};
      WeightOfEmpty(n);
    } else if n in ranks {
      var others := ranks - {n};
      assert |others| == p - 1;
      TailIsLightest(others, n - 1);
      WeightOfAgrees(ranks, others, n - 1);
      WeightOfAgrees(Tail(n, p), Tail(n - 1, p - 1), n - 1);
    } else {
      RankCount(ranks, n - 1);
      TailIsLightest(ranks, n - 1);
      TailMoves(n, p);
    }
  }

  /** A longer pool has a lighter tail. */
  lemma TailMoves(n: nat, p: nat)
    requires 1 <= p < n
    ensures WeightOf(Tail(n, p), n) <= WeightOf(Tail(n - 1, p), n - 1)
  {
    WeightOfAgrees(Tail(n, p), Tail(n - 1, p - 1), n - 1);
    WeightWithout(Tail(n - 1, p), n - 1, n - p);
    assert Tail(n - 1, p) - {n - p} == Tail(n - 1, p - 1);
    WeightDecreases(RANK_AGG_K, n - p, n);
  }

  // --- Over all pools ---

  lemma RanksAreRanks(pool: seq<Hit>, rows: Rows, document: int)
    ensures AreRanks(Ranks(pool, rows, document), |pool|)
  {
  }

  /** In every pool of n hits every document with p hits outscores every other document with q hits. */
  ghost predicate AlwaysWins(n: nat, p: nat, q: nat) {
    forall pool: seq<Hit>, rows: Rows, a: int, b: int ::
      Contest(pool, rows, a, b, n, p, q) ==> DocScore(pool, rows, a) > DocScore(pool, rows, b)
  }

  ghost predicate Contest(pool: seq<Hit>, rows: Rows, a: int, b: int, n: nat, p: nat, q: nat) {
    UniqueChunks(pool) && WellFormed(rows) && |pool| == n && a != b && |Ranks(pool, rows, a)| == p && |Ranks(pool, rows, b)| == q
  }

  /** A pool in which document 1 has the last p ranks and document 2 the first q. */
  function SplitRows(n: nat, p: nat, q: nat, row: Row): Rows {
    map c: int | 1 <= c <= n :: SplitRow(c, n, p, q, row)
  }

  function SplitRow(c: int, n: nat, p: nat, q: nat, row: Row): Row {
    row.(document := if c <= q then 2 else if n < c + p then 1 else 3, ordinal := c)
  }

  function CountedPool(n: nat): (pool: seq<Hit>)
    ensures |pool| == n && forall i :: 0 <= i < n ==> pool[i] == Hit(i + 1, Weight(RRF_K, i + 1))
  {
    seq(n, i requires 0 <= i < n => Hit(i + 1, Weight(RRF_K, i + 1)))
  }

  lemma SplitRanks(n: nat, p: nat, q: nat, row: Row)
    requires p + q <= n
    ensures Ranks(CountedPool(n), SplitRows(n, p, q, row), 1) == Tail(n, p)
    ensures Ranks(CountedPool(n), SplitRows(n, p, q, row), 2) == Head(q)
  {
    var pool, rows := CountedPool(n), SplitRows(n, p, q, row);
    forall r: nat ensures HitAtRank(pool, rows, 1, r) <==> r in Tail(n, p) {
      if 1 <= r <= n { assert pool[r - 1].chunk == r; }
    }
    forall r: nat ensures HitAtRank(pool, rows, 2, r) <==> r in Head(q) {
      if 1 <= r <= n { assert pool[r - 1].chunk == r; }
    }
  }

  /**
   * Whether p hits always beat q hits of another document is decided by the two extreme placements: they do
   * exactly when the last p ranks of the pool outweigh its first q.
   */
  lemma CountsDecideExactly(n: nat, p: nat, q: nat, row: Row)
    requires p + q <= n
    ensures AlwaysWins(n, p, q) <==> WeightOf(Tail(n, p), n) > WeightOf(Head(q), n)
  {
    if WeightOf(Tail(n, p), n) > WeightOf(Head(q), n) {
      forall pool: seq<Hit>, rows: Rows, a: int, b: int | Contest(pool, rows, a, b, n, p, q)
        ensures DocScore(pool, rows, a) > DocScore(pool, rows, b)
      {
        ExtremesDecide(pool, rows, a, b);
      }
    }
    if AlwaysWins(n, p, q) {
      var pool, rows := CountedPool(n), SplitRows(n, p, q, row);
      SplitRanks(n, p, q, row);
      HeadCount(q);
      TailCount(n, p);
      assert Contest(pool, rows, 1, 2, n, p, q);
      DocScoreByRanks(pool, rows, 1);
      DocScoreByRanks(pool, rows, 2);
    }
  }

  lemma ExtremesDecide(pool: seq<Hit>, rows: Rows, a: int, b: int)
    ensures DocScore(pool, rows, a) >= WeightOf(Tail(|pool|, |Ranks(pool, rows, a)|), |pool|)
    ensures DocScore(pool, rows, b) <= WeightOf(Head(|Ranks(pool, rows, b)|), |pool|)
  {
    DocScoreByRanks(pool, rows, a);
    DocScoreByRanks(pool, rows, b);
    RanksAreRanks(pool, rows, a);
    RanksAreRanks(pool, rows, b);
    TailIsLightest(Ranks(pool, rows, a), |pool|);
    HeadIsHeaviest(Ranks(pool, rows, b), |pool|);
  }

  /** Two hits beat one of another document in every pool of n hits exactly up to n = 62. */
  lemma TwoBeatOneExactly(n: nat, row: Row)
    requires n >= 3
    ensures AlwaysWins(n, 2, 1) <==> n <= TWO_HIT_POOL
  {
    CountsDecideExactly(n, 2, 1, row);
    TailStep(n, 1);
    TailStep(n, 2);
    HeadStep(1, n);
    assert Tail(n, 0) == {} == Head(0);
    WeightOfEmpty(n);
    if n < 62 {
      WeightDecreases(RANK_AGG_K, n, 62);
      WeightDecreases(RANK_AGG_K, n - 1, 61);
    }
    if n > 63 {
      WeightDecreases(RANK_AGG_K, 63, n);
      WeightDecreases(RANK_AGG_K, 62, n - 1);
    }
  }

  // --- The remark about the tail at ranks 15 to 20 ---

  lemma {:induction false} WeightOfBeyond(ranks: set<nat>, m: nat, n: nat)
    requires AreRanks(ranks, m) && m <= n
    ensures WeightOf(ranks, n) == WeightOf(ranks, m)
  {
    if m < n { WeightOfBeyond(ranks, m, n - 1); }
  }

  lemma LastFourOfTwenty()
    ensures WeightOf(Tail(20, 4), 20) > WeightOf(Head(3), 20)
  {
    LastFour();
    FirstThree();
  }

  lemma LastFour()
    ensures WeightOf(Tail(20, 4), 20) >= 0.0509
  {
    TailStep(20, 1);
    TailStep(20, 2);
    TailStep(20, 3);
    TailStep(20, 4);
    assert Tail(20, 0) == {};
    WeightOfEmpty(20);
    assert Weight(RANK_AGG_K, 17) == 1.0 / 77.0 && Weight(RANK_AGG_K, 18) == 1.0 / 78.0;
    assert Weight(RANK_AGG_K, 19) == 1.0 / 79.0 && Weight(RANK_AGG_K, 20) == 1.0 / 80.0;
  }

  lemma FirstThree()
    ensures WeightOf(Head(3), 20) <= 0.0485
  {
    HeadStep(1, 20);
    HeadStep(2, 20);
    HeadStep(3, 20);
    assert Head(0) == {};
    WeightOfEmpty(20);
    assert Weight(RANK_AGG_K, 1) == 1.0 / 61.0 && Weight(RANK_AGG_K, 2) == 1.0 / 62.0 && Weight(RANK_AGG_K, 3) == 1.0 / 63.0;
  }

  lemma HeadStep(q: nat, n: nat)
    requires 1 <= q <= n
    ensures WeightOf(Head(q), n) == WeightOf(Head(q - 1), n) + Weight(RANK_AGG_K, q)
  {
    WeightWithout(Head(q), n, q);
    assert Head(q) - {q} == Head(q - 1);
  }

  lemma TailStep(n: nat, p: nat)
    requires 1 <= p <= n
    ensures WeightOf(Tail(n, p), n) == WeightOf(Tail(n, p - 1), n) + Weight(RANK_AGG_K, n - p + 1)
  {
    WeightWithout(Tail(n, p), n, n - p + 1);
    assert Tail(n, p) - {n - p + 1} == Tail(n, p - 1);
  }

  lemma {:induction false} HeadMonotone(q: nat, m: nat, n: nat)
    requires q <= m <= n
    ensures WeightOf(Head(q), n) <= WeightOf(Head(m), n)
  {
    if q < m {
      HeadMonotone(q, m - 1, n);
      HeadStep(m, n);
    }
  }

  lemma {:induction false} TailMonotone(n: nat, q: nat, m: nat)
    requires q <= m <= n
    ensures WeightOf(Tail(n, q), n) <= WeightOf(Tail(n, m), n)
  {
    if q < m {
      TailMonotone(n, q, m - 1);
      TailStep(n, m);
    }
  }

  /** A document hit only at ranks 15 to 20 out-sums one hit at exactly the first three exactly when it is hit four times or more. */
  lemma TailAgainstFocus(pool: seq<Hit>, rows: Rows, tail: int, focused: int)
    requires Ranks(pool, rows, focused) == Head(3)
    requires forall r :: r in Ranks(pool, rows, tail) ==> 15 <= r <= 20
    ensures DocScore(pool, rows, tail) > DocScore(pool, rows, focused) <==> |Ranks(pool, rows, tail)| >= 4
  {
    var late, n := Ranks(pool, rows, tail), |pool|;
    DocScoreByRanks(pool, rows, tail);
    DocScoreByRanks(pool, rows, focused);
    RanksAreRanks(pool, rows, tail);
    assert 3 in Ranks(pool, rows, focused);
    if |late| >= 4 {
      var r :| r in late;
      RankCount(late, 20);
      TailIsLightest(late, 20);
      TailMonotone(20, 4, |late|);
      LastFourOfTwenty();
      SameWeight(late, n);
      SameWeight(Head(3), n);
    } else {
      HeadIsHeaviest(late, n);
      HeadMonotone(|late|, 3, n);
    }
  }

  /** Ranks up to 20 weigh the same in every pool that has them. */
  lemma SameWeight(ranks: set<nat>, n: nat)
    requires AreRanks(ranks, 20) && AreRanks(ranks, n)
    ensures WeightOf(ranks, n) == WeightOf(ranks, 20)
  {
    if n <= 20 { WeightOfBeyond(ranks, n, 20); } else { WeightOfBeyond(ranks, 20, n); }
  }

  // --- A request in which the tail leads ---

  const CATALOG := Title("Catalog", {"catalog"}, Reading(["catalog"], {}))
  const PLAIN := Row(0, 1, Body("rotor", {"rotor"}, false), None, None, "", Html, CATALOG, "", Facet(None, None))

  function UpTo(n: nat): (channel: seq<int>)
    ensures |channel| == n && forall i :: 0 <= i < n ==> channel[i] == i + 1
  {
    seq(n, i => i + 1)
  }

  /** Document 2 at ranks 1 to 3, document 1 at ranks 15 to 18, every other rank a document of its own. */
  const TAIL_ROWS: Rows :=
    map c: int | 1 <= c <= 20 :: PLAIN.(document := if c <= 3 then 2 else if 15 <= c <= 18 then 1 else 100 + c, ordinal := c)

  /** Twenty vector hits and no keyword hit. */
  const TAIL_REQUEST := Request(Question("how?", {}, UNIDENTIFIED), [], UpTo(20), TAIL_ROWS, 5, 2, 8)

  lemma TailIsPossible()
    ensures Possible(TAIL_REQUEST)
  {
    StopwordsStart("catalog");
    StopwordsStart("rotor");
    HeadCount(20);
    assert TAIL_ROWS.Keys == Head(20);
  }

  lemma TailPool()
    ensures PoolOf(TAIL_REQUEST) == CountedPool(20)
    ensures forall d, r: nat :: HitAtRank(PoolOf(TAIL_REQUEST), TAIL_ROWS, d, r) <==> 1 <= r <= 20 && TAIL_ROWS[r].document == d
  {
    OneChannel(UpTo(20), RRF_K);
    var pool := PoolOf(TAIL_REQUEST);
    assert pool == CountedPool(20);
    forall d, r: nat ensures HitAtRank(pool, TAIL_ROWS, d, r) <==> 1 <= r <= 20 && TAIL_ROWS[r].document == d {
      if 1 <= r <= 20 { assert pool[r - 1].chunk == r; }
    }
  }

  /** A document of its own is hit once, and loses to the four hits. */
  lemma SingleLoses(pool: seq<Hit>, e: int)
    requires pool == PoolOf(TAIL_REQUEST) && IsOwner(pool, TAIL_ROWS, e) && e != 1 && e != 2
    requires |Ranks(pool, TAIL_ROWS, 1)| == 4
    ensures DocScore(pool, TAIL_ROWS, 1) > DocScore(pool, TAIL_ROWS, e)
  {
    TailPool();
    var i :| 0 <= i < |pool| && Owned(pool[i], TAIL_ROWS, e);
    var rank: nat := i + 1;
    assert HitAtRank(pool, TAIL_ROWS, e, rank);
    assert Ranks(pool, TAIL_ROWS, e) == {rank};
    TwoHitsBeatOne(pool, TAIL_ROWS, 1, e);
  }

  /** Four hits at ranks 15 to 18 lead over three at ranks 1 to 3. */
  lemma TailLeadsPool()
    ensures var pool := PoolOf(TAIL_REQUEST);
            && Ranks(pool, TAIL_ROWS, 2) == {1, 2, 3} && Ranks(pool, TAIL_ROWS, 1) == {15, 16, 17, 18}
            && LeadingDocument(pool, TAIL_ROWS) == Some(1)
  {
    var pool := PoolOf(TAIL_REQUEST);
    TailPool();
    var tail: set<nat>, head: set<nat> := {15, 16, 17, 18}, {1, 2, 3};
    assert Ranks(pool, TAIL_ROWS, 1) == tail;
    assert Ranks(pool, TAIL_ROWS, 2) == head;
    assert head == Head(3);
    assert |tail| == 4;
    TailAgainstFocus(pool, TAIL_ROWS, 1, 2);
    forall e | IsOwner(pool, TAIL_ROWS, e) && e != 1 ensures DocScore(pool, TAIL_ROWS, 1) > DocScore(pool, TAIL_ROWS, e) {
      if e != 2 { SingleLoses(pool, e); }
    }
    assert HitAtRank(pool, TAIL_ROWS, 1, 15);
    assert Owned(pool[14], TAIL_ROWS, 1);
    LeadingDocumentIsBest(pool, TAIL_ROWS, 1);
  }

  /** A possible request whose leading document is the tail. */
  lemma TailLeads()
    ensures Possible(TAIL_REQUEST)
    ensures var pool := PoolOf(TAIL_REQUEST);
            && Ranks(pool, TAIL_ROWS, 2) == {1, 2, 3} && Ranks(pool, TAIL_ROWS, 1) == {15, 16, 17, 18}
            && LeadingDocument(pool, TAIL_ROWS) == Some(1)
  {
    TailIsPossible();
    TailLeadsPool();
  }
}
