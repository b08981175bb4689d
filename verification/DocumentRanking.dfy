/** Aggregation of page hits into documents by their rank in the re-sorted pool. */
module DocumentRanking {
  import opened Prelude
  import opened Ordering
  import opened RankFusion
  import opened Corpus

  const RANK_AGG_K: nat := RRF_K

  /** The hit has a row, so its document is known. */
  predicate Owned(hit: Hit, rows: Rows, document: int) {
    hit.chunk in rows && rows[hit.chunk].document == document
  }

  /** The documents of the hydrated hits, in hit order. */
  function Owners(pool: seq<Hit>, rows: Rows): seq<int> {
    if pool == [] then []
    else
      var last := pool[|pool| - 1];
      Owners(pool[..|pool| - 1], rows) + if last.chunk in rows then [rows[last.chunk].document] else []
  }

  /** The rank weight collected by one document. */
  function DocScore(pool: seq<Hit>, rows: Rows, document: int): (s: real)
    ensures s >= 0.0
  {
    if pool == [] then 0.0
    else
      var n := |pool|;
      DocScore(pool[..n - 1], rows, document) + if Owned(pool[n - 1], rows, document) then Weight(RANK_AGG_K, n) else 0.0
  }

  datatype Scored = Scored(document: int, score: real)

  /** The sort key (-score, document id). */
  function BestFirst(): (Scored, Scored) -> bool {
    (a: Scored, b: Scored) => a.score > b.score || (a.score == b.score && a.document <= b.document)
  }

  function Items(order: seq<int>, scores: map<int, real>): (docs: seq<Scored>)
    requires forall i :: 0 <= i < |order| ==> order[i] in scores
    ensures |docs| == |order| && forall i :: 0 <= i < |order| ==> docs[i] == Scored(order[i], scores[order[i]])
  {
    seq(|order|, i requires 0 <= i < |order| => Scored(order[i], scores[order[i]]))
  }

  function ScoredOwners(order: seq<int>, pool: seq<Hit>, rows: Rows): (docs: seq<Scored>)
    ensures |docs| == |order|
    ensures forall i :: 0 <= i < |order| ==> docs[i] == Scored(order[i], DocScore(pool, rows, order[i]))
  {
    seq(|order|, i requires 0 <= i < |order| => Scored(order[i], DocScore(pool, rows, order[i])))
  }

  /** Every owner once with its score, best first. */
  function Documents(pool: seq<Hit>, rows: Rows): seq<Scored> {
    StableSort(ScoredOwners(FirstSeen(Owners(pool, rows)), pool, rows), BestFirst())
  }

  function LeadingDocument(pool: seq<Hit>, rows: Rows): Option<int> {
    var docs := Documents(pool, rows);
    if docs == [] then None else Some(docs[0].document)
  }

  ghost predicate Collected(order: seq<int>, scores: map<int, real>, pool: seq<Hit>, rows: Rows) {
    && order == FirstSeen(Owners(pool, rows))
    && KeysOf(order, scores)
    && ScoresMatch(scores, pool, rows)
  }

  lemma CollectSkip(order: seq<int>, scores: map<int, real>, pool: seq<Hit>, rows: Rows, hit: Hit)
    requires Collected(order, scores, pool, rows) && hit.chunk !in rows
    ensures Collected(order, scores, pool + [hit], rows)
  {
    OwnersSkip(pool, rows, hit);
    forall d ensures Tally(scores, d) == DocScore(pool + [hit], rows, d) {
      assert (pool + [hit])[..|pool|] == pool;
    }
  }

  lemma OwnersSkip(pool: seq<Hit>, rows: Rows, hit: Hit)
    requires hit.chunk !in rows
    ensures Owners(pool + [hit], rows) == Owners(pool, rows)
  {
    assert (pool + [hit])[..|pool|] == pool;
  }

  lemma CollectHit(
    order: seq<int>, scores: map<int, real>, pool: seq<Hit>, rows: Rows, hit: Hit, order': seq<int>, scores': map<int, real>)
    requires Collected(order, scores, pool, rows) && hit.chunk in rows
    requires var d := rows[hit.chunk].document;
             && order' == (if d in scores then order else order + [d])
             && scores' == scores[d := Tally(scores, d) + Weight(RANK_AGG_K, |pool| + 1)]
    ensures Collected(order', scores', pool + [hit], rows)
  {
    ScoresHit(scores, pool, rows, hit);
    OwnersHit(order, scores, pool, rows, hit);
    KeysHit(order, scores, rows[hit.chunk].document, scores'[rows[hit.chunk].document]);
  }

  /** Every document's tally is its score over the hits so far. */
  ghost predicate ScoresMatch(scores: map<int, real>, pool: seq<Hit>, rows: Rows) {
    forall d {:trigger Tally(scores, d)} :: Tally(scores, d) == DocScore(pool, rows, d)
  }

  lemma ScoresHit(scores: map<int, real>, pool: seq<Hit>, rows: Rows, hit: Hit)
    requires ScoresMatch(scores, pool, rows) && hit.chunk in rows
    ensures var d := rows[hit.chunk].document;
            ScoresMatch(scores[d := Tally(scores, d) + Weight(RANK_AGG_K, |pool| + 1)], pool + [hit], rows)
  {
    var d, w := rows[hit.chunk].document, Weight(RANK_AGG_K, |pool| + 1);
    var scores' := scores[d := Tally(scores, d) + w];
    forall e ensures Tally(scores', e) == DocScore(pool + [hit], rows, e) {
      ScoreHit(pool, rows, hit, e);
      assert Tally(scores', e) == Tally(scores, e) + if e == d then w else 0.0;
    }
  }

  lemma OwnersHit(order: seq<int>, scores: map<int, real>, pool: seq<Hit>, rows: Rows, hit: Hit)
    requires order == FirstSeen(Owners(pool, rows)) && KeysOf(order, scores) && hit.chunk in rows
    ensures var d := rows[hit.chunk].document;
            FirstSeen(Owners(pool + [hit], rows)) == if d in scores then order else order + [d]
  {
    ScoreHit(pool, rows, hit, 0);
    FirstSeenSnoc(Owners(pool, rows), rows[hit.chunk].document);
    FirstSeenFacts(Owners(pool, rows));
  }

  lemma ScoreHit(pool: seq<Hit>, rows: Rows, hit: Hit, e: int)
    requires hit.chunk in rows
    ensures DocScore(pool + [hit], rows, e)
            == DocScore(pool, rows, e) + if e == rows[hit.chunk].document then Weight(RANK_AGG_K, |pool| + 1) else 0.0
    ensures Owners(pool + [hit], rows) == Owners(pool, rows) + [rows[hit.chunk].document]
  {
    assert (pool + [hit])[..|pool|] == pool;
  }

  lemma CollectedItems(order: seq<int>, scores: map<int, real>, pool: seq<Hit>, rows: Rows)
    requires Collected(order, scores, pool, rows)
    ensures Items(order, scores) == ScoredOwners(FirstSeen(Owners(pool, rows)), pool, rows)
  {
    forall i | 0 <= i < |order| ensures scores[order[i]] == DocScore(pool, rows, order[i]) {
      assert Tally(scores, order[i]) == scores[order[i]];
    }
  }

  lemma CollectedNothing(rows: Rows)
    ensures Collected([], map[], [], rows)
  {
  }

  /** A hydrated hit counts for its document. */
  method CountHit(order0: seq<int>, scores0: map<int, real>, ghost front: seq<Hit>, rows: Rows, hit: Hit, rank: nat)
    returns (order: seq<int>, scores: map<int, real>)
    requires Collected(order0, scores0, front, rows) && hit.chunk in rows && rank == |front| + 1
    ensures Collected(order, scores, front + [hit], rows)
  {
    var d := rows[hit.chunk].document;
    order := if d in scores0 then order0 else order0 + [d];
    scores := scores0[d := Tally(scores0, d) + Weight(RANK_AGG_K, rank)];
    CollectHit(order0, scores0, front, rows, hit, order, scores);
  }

  /** The loop body: one hit at its rank. */
  method AddHit(order0: seq<int>, scores0: map<int, real>, ghost front: seq<Hit>, rows: Rows, hit: Hit, rank: nat)
    returns (order: seq<int>, scores: map<int, real>)
    requires Collected(order0, scores0, front, rows) && rank == |front| + 1
    ensures Collected(order, scores, front + [hit], rows)
  {
    order, scores := order0, scores0;
    if hit.chunk in rows {
      order, scores := CountHit(order, scores, front, rows, hit, rank);
    } else {
      CollectSkip(order, scores, front, rows, hit);
    }
  }

  method AggregateToDocuments(pool: seq<Hit>, rows: Rows) returns (docs: seq<Scored>)
    ensures docs == Documents(pool, rows)
  {
    var order: seq<int> := [];
    var scores: map<int, real> := map[];
    CollectedNothing(rows);
    for r := 0 to |pool|
      invariant Collected(order, scores, pool[..r], rows)
    {
      order, scores := AddHit(order, scores, pool[..r], rows, pool[r], r + 1);
      assert pool[..r + 1] == pool[..r] + [pool[r]];
    }
    assert pool[..|pool|] == pool;
    CollectedItems(order, scores, pool, rows);
    docs := StableSort(Items(order, scores), BestFirst());
  }

  // --- What the leading document is ---

  /** A document owning some hydrated hit of the pool. */
  ghost predicate IsOwner(pool: seq<Hit>, rows: Rows, document: int) {
    exists i :: 0 <= i < |pool| && Owned(pool[i], rows, document)
  }

  lemma {:induction false} OwnersExactly(pool: seq<Hit>, rows: Rows, document: int)
    ensures document in Owners(pool, rows) <==> IsOwner(pool, rows, document)
  {
    if pool != [] {
      var n := |pool| - 1;
      OwnersExactly(pool[..n], rows, document);
      if IsOwner(pool, rows, document) {
        var i :| 0 <= i < |pool| && Owned(pool[i], rows, document);
        assert i < n ==> pool[..n][i] == pool[i];
      }
      if IsOwner(pool[..n], rows, document) {
        var i :| 0 <= i < n && Owned(pool[..n][i], rows, document);
        assert Owned(pool[i], rows, document);
      }
    }
  }

  lemma DocumentsContents(pool: seq<Hit>, rows: Rows)
    ensures forall d, s :: Scored(d, s) in Documents(pool, rows) <==> IsOwner(pool, rows, d) && s == DocScore(pool, rows, d)
  {
    var order := FirstSeen(Owners(pool, rows));
    var docs := ScoredOwners(order, pool, rows);
    FirstSeenFacts(Owners(pool, rows));
    SortPermutes(docs, BestFirst());
    SameElements(docs, Documents(pool, rows));
    forall d, s ensures Scored(d, s) in docs <==> IsOwner(pool, rows, d) && s == DocScore(pool, rows, d) {
      OwnersExactly(pool, rows, d);
      if d in order && s == DocScore(pool, rows, d) {
        var i :| 0 <= i < |order| && order[i] == d;
        assert docs[i] == Scored(d, s);
      }
    }
  }

  /** The leading document has the most rank weight of all owners, the lowest id among equals; None only without owners. */
  lemma LeadingDocumentIsBest(pool: seq<Hit>, rows: Rows, document: int)
    ensures LeadingDocument(pool, rows) == Some(document) <==>
              && IsOwner(pool, rows, document)
              && forall e :: IsOwner(pool, rows, e) && e != document ==>
                   var mine, theirs := DocScore(pool, rows, document), DocScore(pool, rows, e);
                   mine > theirs || (mine == theirs && document < e)
    ensures LeadingDocument(pool, rows).None? <==> forall e :: !IsOwner(pool, rows, e)
  {
    var docs := Documents(pool, rows);
    DocumentsContents(pool, rows);
    assert TotalPreorder(BestFirst());
    SortSorts(ScoredOwners(FirstSeen(Owners(pool, rows)), pool, rows), BestFirst());
    if docs != [] {
      var lead := docs[0];
      assert lead in docs;
      forall e | IsOwner(pool, rows, e) && e != lead.document
        ensures lead.score > DocScore(pool, rows, e) || (lead.score == DocScore(pool, rows, e) && lead.document < e)
      {
        assert Scored(e, DocScore(pool, rows, e)) in docs;
        var j :| 0 <= j < |docs| && docs[j] == Scored(e, DocScore(pool, rows, e));
        assert BestFirst()(docs[0], docs[j]);
      }
      assert Scored(lead.document, lead.score) in docs;
    }
    forall e | IsOwner(pool, rows, e) ensures docs != [] {
      assert Scored(e, DocScore(pool, rows, e)) in docs;
    }
  }

  // --- Conservation ---

  function Total(docs: seq<Scored>): real {
    if docs == [] then 0.0 else docs[0].score + Total(docs[1..])
  }

  /** The rank weight of all hydrated hits. */
  function HydratedWeight(pool: seq<Hit>, rows: Rows): real {
    if pool == [] then 0.0
    else
      var n := |pool|;
      HydratedWeight(pool[..n - 1], rows) + if pool[n - 1].chunk in rows then Weight(RANK_AGG_K, n) else 0.0
  }

  lemma {:induction false} TotalInsert(x: Scored, docs: seq<Scored>, le: (Scored, Scored) -> bool)
    ensures Total(Insert(x, docs, le)) == x.score + Total(docs)
  {
    if docs == [] || le(x, docs[0]) {
      assert ([x] + docs)[1..] == docs;
    } else {
      TotalInsert(x, docs[1..], le);
      assert ([docs[0]] + Insert(x, docs[1..], le))[1..] == Insert(x, docs[1..], le);
    }
  }

  lemma {:induction false} TotalSort(docs: seq<Scored>, le: (Scored, Scored) -> bool)
    ensures Total(StableSort(docs, le)) == Total(docs)
  {
    if docs != [] {
      TotalSort(docs[1..], le);
      TotalInsert(docs[0], StableSort(docs[1..], le), le);
    }
  }

  lemma {:induction false} TotalSnoc(docs: seq<Scored>, x: Scored)
    ensures Total(docs + [x]) == Total(docs) + x.score
  {
    if docs == [] {
      assert [x][1..] == [];
    } else {
      TotalSnoc(docs[1..], x);
      assert (docs + [x])[1..] == docs[1..] + [x];
    }
  }

  /** Adding a hit of document d moves only the entry of d. */
  lemma {:induction false} TotalAfterHit(order: seq<int>, pool: seq<Hit>, rows: Rows, hit: Hit)
    requires Distinct(order) && hit.chunk in rows
    ensures Total(ScoredOwners(order, pool + [hit], rows))
            == Total(ScoredOwners(order, pool, rows))
               + if rows[hit.chunk].document in order then Weight(RANK_AGG_K, |pool| + 1) else 0.0
  {
    if order != [] {
      var n := |order| - 1;
      var d := order[n];
      TotalAfterHit(order[..n], pool, rows, hit);
      assert (pool + [hit])[..|pool|] == pool;
      assert ScoredOwners(order, pool, rows) == ScoredOwners(order[..n], pool, rows) + [Scored(d, DocScore(pool, rows, d))];
      TotalSnoc(ScoredOwners(order[..n], pool, rows), Scored(d, DocScore(pool, rows, d)));
      var after := DocScore(pool + [hit], rows, d);
      assert ScoredOwners(order, pool + [hit], rows) == ScoredOwners(order[..n], pool + [hit], rows) + [Scored(d, after)];
      TotalSnoc(ScoredOwners(order[..n], pool + [hit], rows), Scored(d, after));
      assert rows[hit.chunk].document in order <==> rows[hit.chunk].document in order[..n] || rows[hit.chunk].document == d;
    }
  }

  lemma {:induction false} OwnersConserve(pool: seq<Hit>, rows: Rows)
    ensures Total(ScoredOwners(FirstSeen(Owners(pool, rows)), pool, rows)) == HydratedWeight(pool, rows)
  {
    if pool != [] {
      var n := |pool| - 1;
      var front, hit := pool[..n], pool[n];
      assert pool == front + [hit];
      OwnersConserve(front, rows);
      var order := FirstSeen(Owners(front, rows));
      FirstSeenFacts(Owners(front, rows));
      if hit.chunk in rows {
        ConserveHit(order, front, rows, hit);
      } else {
        forall d ensures DocScore(pool, rows, d) == DocScore(front, rows, d) {}
        OwnersSkip(front, rows, hit);
        assert ScoredOwners(order, pool, rows) == ScoredOwners(order, front, rows);
      }
    }
  }

  lemma ConserveHit(order: seq<int>, front: seq<Hit>, rows: Rows, hit: Hit)
    requires hit.chunk in rows && order == FirstSeen(Owners(front, rows)) && Distinct(order)
    requires Total(ScoredOwners(order, front, rows)) == HydratedWeight(front, rows)
    ensures Total(ScoredOwners(FirstSeen(Owners(front + [hit], rows)), front + [hit], rows))
            == HydratedWeight(front + [hit], rows)
  {
    var d, pool := rows[hit.chunk].document, front + [hit];
    ScoreHit(front, rows, hit, d);
    TotalAfterHit(order, front, rows, hit);
    FirstSeenSnoc(Owners(front, rows), d);
    FirstSeenFacts(Owners(front, rows));
    WeightHit(front, rows, hit);
    if d !in order {
      OwnersExactly(front, rows, d);
      NoOwnerNoScore(front, rows, d);
      TotalOneMore(order, d, pool, rows);
    }
  }

  lemma WeightHit(front: seq<Hit>, rows: Rows, hit: Hit)
    requires hit.chunk in rows
    ensures HydratedWeight(front + [hit], rows) == HydratedWeight(front, rows) + Weight(RANK_AGG_K, |front| + 1)
  {
    assert (front + [hit])[..|front|] == front;
  }

  lemma TotalOneMore(order: seq<int>, d: int, pool: seq<Hit>, rows: Rows)
    ensures Total(ScoredOwners(order + [d], pool, rows)) == Total(ScoredOwners(order, pool, rows)) + DocScore(pool, rows, d)
  {
    var last := Scored(d, DocScore(pool, rows, d));
    assert ScoredOwners(order + [d], pool, rows) == ScoredOwners(order, pool, rows) + [last];
    TotalSnoc(ScoredOwners(order, pool, rows), last);
  }

  lemma {:induction false} NoOwnerNoScore(pool: seq<Hit>, rows: Rows, d: int)
    requires !IsOwner(pool, rows, d)
    ensures DocScore(pool, rows, d) == 0.0
  {
    if pool != [] {
      var n := |pool| - 1;
      assert !Owned(pool[n], rows, d);
      assert !IsOwner(pool[..n], rows, d) by {
        assert forall i :: 0 <= i < n ==> pool[..n][i] == pool[i];
      }
      NoOwnerNoScore(pool[..n], rows, d);
    }
  }

  /** The document scores add up to the rank weight of the hydrated hits. */
  lemma ScoresConserveWeight(pool: seq<Hit>, rows: Rows)
    ensures Total(Documents(pool, rows)) == HydratedWeight(pool, rows)
  {
    OwnersConserve(pool, rows);
    TotalSort(ScoredOwners(FirstSeen(Owners(pool, rows)), pool, rows), BestFirst());
  }

  // --- Domination ---

  /** The 1-based ranks at which a document is hit. */
  ghost function Ranks(pool: seq<Hit>, rows: Rows, document: int): set<nat> {
    set r: nat | r <= |pool| && HitAtRank(pool, rows, document, r)
  }

  predicate HitAtRank(pool: seq<Hit>, rows: Rows, document: int, rank: nat) {
    1 <= rank <= |pool| && Owned(pool[rank - 1], rows, document)
  }

  ghost function WeightOf(ranks: set<nat>, n: nat): (w: real)
    ensures w >= 0.0
  {
    if n == 0 then 0.0 else WeightOf(ranks, n - 1) + if n in ranks then Weight(RANK_AGG_K, n) else 0.0
  }

  lemma {:induction false} WeightOfAgrees(a: set<nat>, b: set<nat>, n: nat)
    requires forall r :: 1 <= r <= n ==> (r in a <==> r in b)
    ensures WeightOf(a, n) == WeightOf(b, n)
  {
    if n > 0 { WeightOfAgrees(a, b, n - 1); }
  }

  lemma {:induction false} DocScoreByRanks(pool: seq<Hit>, rows: Rows, document: int)
    ensures DocScore(pool, rows, document) == WeightOf(Ranks(pool, rows, document), |pool|)
  {
    if pool != [] {
      var n := |pool| - 1;
      DocScoreByRanks(pool[..n], rows, document);
      WeightOfAgrees(Ranks(pool[..n], rows, document), Ranks(pool, rows, document), n);
    }
  }

  lemma {:induction false} WeightWithout(ranks: set<nat>, n: nat, r: nat)
    requires r in ranks && 1 <= r <= n
    ensures WeightOf(ranks, n) == WeightOf(ranks - {r}, n) + Weight(RANK_AGG_K, r)
  {
    if n == r {
      WeightOfAgrees(ranks, ranks - {r}, n - 1);
    } else {
      WeightWithout(ranks, n - 1, r);
    }
  }

  ghost predicate EarlierInjection(m: map<nat, nat>, late: set<nat>, early: set<nat>) {
    && (forall r :: r in late ==> r in m && m[r] in early && 1 <= m[r] < r)
    && (forall r, s :: r in late && s in late && r != s ==> m[r] != m[s])
  }

  lemma {:induction false} EarlierWeighsMore(late: set<nat>, early: set<nat>, m: map<nat, nat>, n: nat)
    requires EarlierInjection(m, late, early)
    requires forall r :: r in late ==> r <= n
    ensures WeightOf(early, n) >= WeightOf(late, n)
    ensures late != {} ==> WeightOf(early, n) > WeightOf(late, n)
    decreases |late|
  {
    if late == {} {
      WeightOfEmpty(n);
    } else {
      var r :| r in late;
      EarlierWeighsMore(late - {r}, early - {m[r]}, m, n);
      WeightWithout(late, n, r);
      WeightWithout(early, n, m[r]);
      WeightDecreases(RANK_AGG_K, m[r], r);
    }
  }

  lemma {:induction false} WeightOfEmpty(n: nat)
    ensures WeightOf({}, n) == 0.0
  {
    if n > 0 { WeightOfEmpty(n - 1); }
  }

  /** If the hits of b map one to one to earlier hits of a, then a scores strictly higher. */
  lemma EarlierHitsWin(pool: seq<Hit>, rows: Rows, a: int, b: int, m: map<nat, nat>)
    requires IsOwner(pool, rows, b)
    requires EarlierInjection(m, Ranks(pool, rows, b), Ranks(pool, rows, a))
    ensures DocScore(pool, rows, a) > DocScore(pool, rows, b)
  {
    DocScoreByRanks(pool, rows, a);
    DocScoreByRanks(pool, rows, b);
    var i :| 0 <= i < |pool| && Owned(pool[i], rows, b);
    assert i + 1 in Ranks(pool, rows, b);
    EarlierWeighsMore(Ranks(pool, rows, b), Ranks(pool, rows, a), m, |pool|);
  }

  // --- Two hits beat one ---

  /** The largest pool in which two hits always outweigh one. */
  const TWO_HIT_POOL: nat := 62

  lemma TwoHitsWeigh(ranks: set<nat>, n: nat, r: nat, s: nat)
    requires r in ranks && s in ranks && 1 <= r < s <= n <= TWO_HIT_POOL
    ensures WeightOf(ranks, n) > Weight(RANK_AGG_K, 1)
  {
    WeightWithout(ranks, n, r);
    WeightWithout(ranks - {r}, n, s);
    if r < 61 { WeightDecreases(RANK_AGG_K, r, 61); }
    if s < 62 { WeightDecreases(RANK_AGG_K, s, 62); }
  }

  lemma OneHitWeighs(ranks: set<nat>, n: nat, r: nat)
    requires ranks == {r} && 1 <= r <= n
    ensures WeightOf(ranks, n) <= Weight(RANK_AGG_K, 1)
  {
    WeightWithout(ranks, n, r);
    assert ranks - {r} == {};
    WeightOfEmpty(n);
    if r > 1 { WeightDecreases(RANK_AGG_K, 1, r); }
  }

  /** In every pool of at most 62 hits a document hit twice outscores a document hit once. */
  lemma TwoHitsBeatOne(pool: seq<Hit>, rows: Rows, a: int, b: int)
    requires |pool| <= TWO_HIT_POOL
    requires |Ranks(pool, rows, a)| >= 2 && |Ranks(pool, rows, b)| == 1
    ensures DocScore(pool, rows, a) > DocScore(pool, rows, b)
  {
    DocScoreByRanks(pool, rows, a);
    DocScoreByRanks(pool, rows, b);
    var p := TwoMembers(Ranks(pool, rows, a));
    TwoHitsWeigh(Ranks(pool, rows, a), |pool|, p.0, p.1);
    var r :| r in Ranks(pool, rows, b);
    assert |Ranks(pool, rows, b) - {r}| == 0;
    OneHitWeighs(Ranks(pool, rows, b), |pool|, r);
  }

  lemma TwoMembers(s: set<nat>) returns (p: (nat, nat))
    requires |s| >= 2
    ensures p.0 in s && p.1 in s && p.0 < p.1
  {
    var x :| x in s;
    assert |s - {x}| >= 1;
    var y :| y in s - {x};
    p := if x < y then (x, y) else (y, x);
  }

  /** The two channels give at most 40 hits, so a single-hit document leads only if all are single-hit. */
  lemma SingleHitLeadsOnlyAmongSingles(pool: seq<Hit>, rows: Rows, lead: int, other: int)
    requires |pool| <= 2 * PER_CHANNEL_K
    requires LeadingDocument(pool, rows) == Some(lead) && |Ranks(pool, rows, lead)| == 1
    ensures |Ranks(pool, rows, other)| <= 1
  {
    if |Ranks(pool, rows, other)| >= 2 {
      TwoHitsBeatOne(pool, rows, other, lead);
      var r :| r in Ranks(pool, rows, other);
      assert Owned(pool[r - 1], rows, other);
      LeadingDocumentIsBest(pool, rows, lead);
      assert false;
    }
  }

  /** w added up count times. */
  ghost function Times(count: nat, w: real): real {
    if count == 0 then 0.0 else Times(count - 1, w) + w
  }

  lemma {:induction false} TimesIsProduct(count: nat, w: real)
    ensures Times(count, w) == count as real * w
  {
    if count > 0 {
      TimesIsProduct(count - 1, w);
      var c := (count - 1) as real;
      assert count as real == c + 1.0 && (c + 1.0) * w == c * w + w;
    }
  }

  lemma {:induction false} WeightBounds(ranks: set<nat>, n: nat)
    requires 1 <= n && forall r :: r in ranks ==> 1 <= r <= n
    ensures Times(|ranks|, Weight(RANK_AGG_K, n)) <= WeightOf(ranks, n) <= Times(|ranks|, Weight(RANK_AGG_K, 1))
    decreases |ranks|
  {
    if ranks == {} {
      WeightOfEmpty(n);
    } else {
      var r :| r in ranks;
      WeightBounds(ranks - {r}, n);
      WeightWithout(ranks, n, r);
      assert |ranks| == |ranks - {r}| + 1;
      if r < n { WeightDecreases(RANK_AGG_K, r, n); }
      if r > 1 { WeightDecreases(RANK_AGG_K, 1, r); }
    }
  }

  /**
   * A closed-form bound: p hits, wherever they sit in the pool, beat q hits if p / (60 + pool) > q / 61.
   * The exact comparison is TailWeights.CountsDecideExactly.
   */
  lemma EnoughHitsWin(pool: seq<Hit>, rows: Rows, a: int, b: int)
    requires pool != []
    requires 61 * |Ranks(pool, rows, a)| > (60 + |pool|) * |Ranks(pool, rows, b)|
    ensures DocScore(pool, rows, a) > DocScore(pool, rows, b)
  {
    DocScoreByRanks(pool, rows, a);
    DocScoreByRanks(pool, rows, b);
    CountsDecide(Ranks(pool, rows, a), Ranks(pool, rows, b), |pool|);
  }

  lemma CountsDecide(more: set<nat>, fewer: set<nat>, n: nat)
    requires n >= 1 && forall r :: r in more || r in fewer ==> 1 <= r <= n
    requires 61 * |more| > (60 + n) * |fewer|
    ensures WeightOf(more, n) > WeightOf(fewer, n)
  {
    WeightBounds(more, n);
    WeightBounds(fewer, n);
    CountsCompare(|more|, |fewer|, n);
  }

  lemma CountsCompare(p: nat, q: nat, n: nat)
    requires n >= 1 && 61 * p > (60 + n) * q
    ensures Times(p, Weight(RANK_AGG_K, n)) > Times(q, Weight(RANK_AGG_K, 1))
  {
    TimesIsProduct(p, Weight(RANK_AGG_K, n));
    TimesIsProduct(q, Weight(RANK_AGG_K, 1));
    ProductsCompare(p, q, 60 + n);
  }

  lemma ProductsCompare(p: nat, q: nat, d: nat)
    requires d > 0 && 61 * p > d * q
    ensures p as real * (1.0 / d as real) > q as real * (1.0 / 61.0)
  {
    var x, y, z := p as real, q as real, d as real;
    assert 61.0 * x > z * y by { assert (d * q) as real == z * y; }
    assert x * (1.0 / z) == x / z;
    assert x / z - y / 61.0 == (61.0 * x - z * y) / (61.0 * z);
  }
}
