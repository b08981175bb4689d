/** The whole retrieval: fuse, re-sort, choose the leading document, expand it, hydrate. */
module HybridSearch {
  import opened Prelude
  import opened Ordering
  import opened RankFusion
  import opened Corpus
  import opened Reranking
  import opened DocumentRanking
  import opened PageExpansion

  /** The two channels' answers, the joined rows, and the request's three knobs. */
  datatype Request = Request(
    question: Question, keyword: seq<int>, vector: seq<int>, rows: Rows, topK: nat, window: nat, budget: nat)

  /** A row of the store, read by the tokenizer: a page image for PDFs only, numbered from one. */
  ghost predicate IsStored(row: Row) {
    row.ordinal >= 1 && (row.png.Some? <==> row.sourceType == Pdf) && AreTokens(row.title.tokens) && AreTokens(row.body.tokens)
  }

  /**
   * A request the service can receive: tokenized text, rows the constraints allow, knobs in their ranges,
   * no chunk twice in a channel, and as many vector hits as there are chunks, up to the limit.
   */
  ghost predicate Possible(r: Request) {
    && r.question.text != "" && AreTokens(r.question.tokens)
    && WellFormed(r.rows) && (forall c :: c in r.rows ==> IsStored(r.rows[c]))
    && Distinct(r.keyword) && Distinct(r.vector)
    && (forall c :: c in r.keyword || c in r.vector ==> c in r.rows)
    && |r.keyword| <= PER_CHANNEL_K && |r.vector| == Min(PER_CHANNEL_K, |r.rows|)
    && 1 <= r.topK <= 10 && r.window <= 3 && 1 <= r.budget <= 10
  }

  datatype Retrieved = Retrieved(chunk: int, row: Row, score: real)

  // --- The stages as functions ---

  function FusedOf(r: Request): seq<Hit> {
    Fused([r.keyword, r.vector], RRF_K)
  }

  function PoolOf(r: Request): seq<Hit> {
    Pool(r.question, FusedOf(r), r.rows)
  }

  function BaseOf(r: Request): seq<Hit> {
    Take(PoolOf(r), r.topK)
  }

  function OwnedHits(hits: seq<Hit>, rows: Rows, document: int): seq<Hit> {
    if hits == [] then []
    else (if Owned(hits[0], rows, document) then [hits[0]] else []) + OwnedHits(hits[1..], rows, document)
  }

  /** min over the key (-score, chunk id). */
  function SelectLeaderChunk(hits: seq<Hit>): Option<Hit> {
    if hits == [] then None
    else
      match SelectLeaderChunk(hits[1..])
      case None => Some(hits[0])
      case Some(best) =>
        if best.score > hits[0].score || (best.score == hits[0].score && best.chunk < hits[0].chunk)
        then Some(best) else Some(hits[0])
  }

  /** The anchor: the leading document's best base hit, else its first hit in the pool. */
  function LeaderOf(base: seq<Hit>, pool: seq<Hit>, rows: Rows): Option<Hit> {
    match LeadingDocument(pool, rows)
    case None => None
    case Some(document) =>
      var best := SelectLeaderChunk(OwnedHits(base, rows, document));
      if best.Some? then best
      else
        var owned := OwnedHits(pool, rows, document);
        if owned == [] then None else Some(owned[0])
  }

  function Leader(r: Request): Option<Hit> {
    LeaderOf(BaseOf(r), PoolOf(r), r.rows)
  }

  /** Only a PDF leader with a positive window is expanded. */
  predicate Expands(r: Request) {
    var leader := Leader(r);
    leader.Some? && leader.value.chunk in r.rows
    && r.rows[leader.value.chunk].sourceType == Pdf && r.window > 0
  }

  function LeaderRow(r: Request): Row
    requires Expands(r)
  {
    r.rows[Leader(r).value.chunk]
  }

  predicate InWindow(rows: Rows, chunk: int, document: int, anchor: int, window: nat) {
    chunk in rows && rows[chunk].document == document && anchor - window <= rows[chunk].ordinal <= anchor + window
  }

  /** An answer of the neighbour query: every row of the window once, in whatever order. */
  ghost predicate IsWindow(pages: seq<Page>, rows: Rows, document: int, anchor: int, window: nat) {
    && UniquePages(pages)
    && (forall p :: p in pages ==> InWindow(rows, p.chunk, document, anchor, window) && p.ordinal == rows[p.chunk].ordinal)
    && (forall c :: InWindow(rows, c, document, anchor, window) ==> Page(c, rows[c].ordinal) in pages)
  }

  ghost predicate IsNeighborAnswer(r: Request, pages: seq<Page>) {
    Expands(r) ==> IsWindow(pages, r.rows, LeaderRow(r).document, LeaderRow(r).ordinal, r.window)
  }

  /** The base after the within-document pass. */
  function FinalBase(r: Request): seq<Hit> {
    if Expands(r) then RerankWithinDoc(r.question, BaseOf(r), r.rows, LeaderRow(r).document) else BaseOf(r)
  }

  function Candidates(r: Request, pages: seq<Page>): seq<Hit> {
    if Expands(r) then Assembled(FinalBase(r), pages, LeaderRow(r).ordinal, Leader(r).value.score, r.budget)
    else Take(FinalBase(r), r.budget)
  }

  function Hydrate(hits: seq<Hit>, rows: Rows): seq<Retrieved> {
    if hits == [] then []
    else
      (if hits[0].chunk in rows then [Retrieved(hits[0].chunk, rows[hits[0].chunk], hits[0].score)] else [])
      + Hydrate(hits[1..], rows)
  }

  function Search(r: Request, pages: seq<Page>): seq<Retrieved> {
    Hydrate(Candidates(r, pages), r.rows)
  }

  // --- The program ---

  /** The neighbour query: no ORDER BY, so the rows come in any order. */
  method LoadNeighbors(rows: Rows, document: int, anchor: int, window: nat) returns (pages: seq<Page>)
    ensures IsWindow(pages, rows, document, anchor, window)
  {
    pages := [];
    var todo := set c | c in rows && InWindow(rows, c, document, anchor, window);
    while todo != {}
      invariant forall c :: c in todo ==> InWindow(rows, c, document, anchor, window)
      invariant UniquePages(pages) && forall p :: p in pages ==> p.chunk !in todo
      invariant forall p :: p in pages ==> InWindow(rows, p.chunk, document, anchor, window) && p.ordinal == rows[p.chunk].ordinal
      invariant forall c :: InWindow(rows, c, document, anchor, window) ==> c in todo || Page(c, rows[c].ordinal) in pages
    {
      var c :| c in todo;
      assert forall i :: 0 <= i < |pages| ==> pages[i] in pages;
      pages := pages + [Page(c, rows[c].ordinal)];
      todo := todo - {c};
    }
  }

  method HybridSearch(r: Request) returns (retrieved: seq<Retrieved>, neighbors: seq<Page>)
    ensures IsNeighborAnswer(r, neighbors)
    ensures retrieved == Search(r, neighbors)
  {
    neighbors := [];
    var fused := ReciprocalRankFusion([r.keyword, r.vector], RRF_K);
    if fused == [] {
      EmptyFusion(r);
      return [], neighbors;
    }
    fused := RerankByTitle(r.question, fused, r.rows);
    fused := RerankByProduct(r.question, fused, r.rows);
    var base := Take(fused, r.topK);
    var documents := AggregateToDocuments(fused, r.rows);
    var leader := None;
    if documents != [] {
      leader := SelectLeaderChunk(OwnedHits(base, r.rows, documents[0].document));
      if leader.None? {
        var owned := OwnedHits(fused, r.rows, documents[0].document);
        leader := if owned == [] then None else Some(owned[0]);
      }
    }
    assert leader == Leader(r);
    var assembled := Take(base, r.budget);
    if leader.Some? && leader.value.chunk in r.rows {
      var leaderRow := r.rows[leader.value.chunk];
      if leaderRow.sourceType == Pdf && r.window > 0 {
        neighbors := LoadNeighbors(r.rows, leaderRow.document, leaderRow.ordinal, r.window);
        base := RerankWithinDoc(r.question, base, r.rows, leaderRow.document);
        assembled := AssembleCandidates(base, neighbors, leaderRow.ordinal, leader.value.score, r.budget);
      }
    }
    retrieved := Hydrate(assembled, r.rows);
  }

  lemma EmptyFusion(r: Request)
    requires FusedOf(r) == []
    ensures !Expands(r) && forall pages :: Search(r, pages) == []
  {
    PoolFacts(r);
    assert PoolOf(r) == [] by { assert |multiset(PoolOf(r))| == 0; }
  }

  // --- Facts about the stages ---

  lemma PoolFacts(r: Request)
    ensures UniqueChunks(FusedOf(r)) && Ranked(FusedOf(r))
    ensures UniqueChunks(PoolOf(r)) && UniqueChunks(BaseOf(r)) && UniqueChunks(FinalBase(r))
    ensures multiset(PoolOf(r)) == multiset(FusedOf(r))
    ensures multiset(FinalBase(r)) == multiset(BaseOf(r))
    ensures forall h :: h in PoolOf(r) <==> h in FusedOf(r)
    ensures forall h :: h in FinalBase(r) <==> h in BaseOf(r)
    ensures forall h :: h in BaseOf(r) ==> h in PoolOf(r)
    ensures |FinalBase(r)| == |BaseOf(r)|
  {
    var channels := [r.keyword, r.vector];
    FusedContents(channels, RRF_K);
    forall a, b | Before(FusedOf(r), a, b) ensures a.score >= b.score {
      FusedIsRanked(channels, RRF_K, a, b);
    }
    PoolPermutes(r.question, FusedOf(r), r.rows);
    FinalBasePermutes(r);
  }

  lemma FinalBasePermutes(r: Request)
    requires UniqueChunks(PoolOf(r))
    ensures UniqueChunks(BaseOf(r)) && UniqueChunks(FinalBase(r))
    ensures multiset(FinalBase(r)) == multiset(BaseOf(r)) && |FinalBase(r)| == |BaseOf(r)|
    ensures forall h :: h in FinalBase(r) <==> h in BaseOf(r)
  {
    RerankingPermutes(r.question, BaseOf(r), r.rows, if Expands(r) then LeaderRow(r).document else 0);
    SameElements(FinalBase(r), BaseOf(r));
    assert |FinalBase(r)| == |multiset(FinalBase(r))| && |BaseOf(r)| == |multiset(BaseOf(r))|;
  }

  lemma {:induction false} HydrateAppend(xs: seq<Hit>, ys: seq<Hit>, rows: Rows)
    ensures Hydrate(xs + ys, rows) == Hydrate(xs, rows) + Hydrate(ys, rows)
  {
    if xs == [] {
      assert xs + ys == ys;
    } else {
      assert (xs + ys)[1..] == xs[1..] + ys;
      HydrateAppend(xs[1..], ys, rows);
    }
  }

  /** The retrieved entry of a hydrated hit. */
  function Entry(hit: Hit, rows: Rows): Retrieved
    requires hit.chunk in rows
  {
    Retrieved(hit.chunk, rows[hit.chunk], hit.score)
  }

  /** Hydration keeps order: a hydrated hit before another one is retrieved before it. */
  lemma HydrateOrder(hits: seq<Hit>, rows: Rows, a: Hit, b: Hit)
    requires a.chunk in rows && b.chunk in rows && Before(hits, a, b)
    ensures Before(Hydrate(hits, rows), Entry(a, rows), Entry(b, rows))
  {
    var i, j :| 0 <= i < j < |hits| && hits[i] == a && hits[j] == b;
    var front, mid, tail := hits[..i], hits[i + 1..j], hits[j + 1..];
    assert hits == front + [a] + (mid + [b] + tail);
    HydrateAppend(front + [a], mid + [b] + tail, rows);
    HydrateAround(front, a, [], rows);
    HydrateAround(mid, b, tail, rows);
    InOrder(Hydrate(front, rows), Entry(a, rows), Hydrate(mid, rows), Entry(b, rows), Hydrate(tail, rows));
  }

  lemma HydrateAround(front: seq<Hit>, a: Hit, tail: seq<Hit>, rows: Rows)
    requires a.chunk in rows
    ensures Hydrate(front + [a] + tail, rows) == Hydrate(front, rows) + [Entry(a, rows)] + Hydrate(tail, rows)
    ensures Hydrate(front + [a], rows) == Hydrate(front, rows) + [Entry(a, rows)]
  {
    HydrateAppend(front + [a], tail, rows);
    HydrateAppend(front, [a], rows);
  }

  lemma InOrder(x: seq<Retrieved>, a: Retrieved, y: seq<Retrieved>, b: Retrieved, z: seq<Retrieved>)
    ensures Before(x + [a] + (y + [b] + z), a, b)
  {
    var out := x + [a] + (y + [b] + z);
    assert out[|x|] == a && out[|x| + 1 + |y|] == b;
  }

  lemma {:induction false} HydrateContents(hits: seq<Hit>, rows: Rows)
    ensures |Hydrate(hits, rows)| <= |hits|
    ensures forall e :: e in Hydrate(hits, rows)
              <==> e.chunk in rows && e.row == rows[e.chunk] && Hit(e.chunk, e.score) in hits
  {
    if hits != [] {
      HydrateContents(hits[1..], rows);
      assert hits == [hits[0]] + hits[1..];
    }
  }

  // --- No far-ahead page is displaced ---

  /**
   * End to end: if a leads b by at least the title cap in fused score, then whenever b survives the
   * top_k cut and the page budget so does a, and a is retrieved before b.
   */
  lemma FarAheadIsNeverDisplaced(r: Request, pages: seq<Page>, a: Hit, b: Hit)
    requires a in FusedOf(r) && b in FusedOf(r) && a.chunk in r.rows && b.chunk in r.rows
    requires a.score - b.score >= TITLE_BOOST_CAP
    requires b in Take(FinalBase(r), r.budget)
    ensures a in Take(FinalBase(r), r.budget)
    ensures Before(Search(r, pages), Entry(a, r.rows), Entry(b, r.rows))
  {
    LeadInFinalBase(r, a, b);
    UniqueChunksDistinct(FinalBase(r));
    BeforeTake(FinalBase(r), r.budget, a, b);
    CandidatesStartWithBase(r, pages);
    BeforePrefix(Take(FinalBase(r), r.budget), Candidates(r, pages), a, b);
    HydrateOrder(Candidates(r, pages), r.rows, a, b);
  }

  lemma LeadInFinalBase(r: Request, a: Hit, b: Hit)
    requires a in FusedOf(r) && b in FusedOf(r)
    requires a.score - b.score >= TITLE_BOOST_CAP
    requires b in FinalBase(r)
    ensures Before(FinalBase(r), a, b) && UniqueChunks(FinalBase(r))
  {
    PoolFacts(r);
    LeadSurvivesPool(r.question, FusedOf(r), r.rows, a, b);
    UniqueChunksDistinct(PoolOf(r));
    BeforeTake(PoolOf(r), r.topK, a, b);
    if Expands(r) {
      LeadSurvivesWithin(r.question, BaseOf(r), r.rows, LeaderRow(r).document, a, b);
    }
  }

  lemma CandidatesStartWithBase(r: Request, pages: seq<Page>)
    ensures Take(FinalBase(r), r.budget) <= Candidates(r, pages)
  {
  }

  lemma BeforePrefix<T>(xs: seq<T>, ys: seq<T>, a: T, b: T)
    requires xs <= ys && Before(xs, a, b)
    ensures Before(ys, a, b)
  {
    var i, j :| 0 <= i < j < |xs| && xs[i] == a && xs[j] == b;
    assert ys[i] == a && ys[j] == b;
  }

  /**
   * Agreement between the channels is never overturned: a chunk both channels found comes before every
   * chunk only one found, in the fused list, in the pool, and among the retrieved base pages.
   */
  lemma BothChannelsStayAhead(r: Request, pages: seq<Page>, a: Hit, b: Hit)
    requires Distinct(r.keyword) && Distinct(r.vector)
    requires |r.keyword| <= PER_CHANNEL_K && |r.vector| <= PER_CHANNEL_K
    requires a in FusedOf(r) && b in FusedOf(r)
    requires a.chunk in r.keyword && a.chunk in r.vector
    requires b.chunk !in r.keyword || b.chunk !in r.vector
    ensures Before(FusedOf(r), a, b) && Before(PoolOf(r), a, b)
    ensures b in FinalBase(r) ==> Before(FinalBase(r), a, b)
    ensures b in Take(FinalBase(r), r.budget) && a.chunk in r.rows && b.chunk in r.rows
            ==> Before(Search(r, pages), Entry(a, r.rows), Entry(b, r.rows))
  {
    BothChannelsGap(r, a, b);
    PoolFacts(r);
    BeforeTotal(FusedOf(r), a, b);
    assert !Before(FusedOf(r), b, a);
    LeadSurvivesPool(r.question, FusedOf(r), r.rows, a, b);
    if b in FinalBase(r) {
      LeadInFinalBase(r, a, b);
    }
    if b in Take(FinalBase(r), r.budget) && a.chunk in r.rows && b.chunk in r.rows {
      FarAheadIsNeverDisplaced(r, pages, a, b);
    }
  }

  lemma BothChannelsGap(r: Request, a: Hit, b: Hit)
    requires Distinct(r.keyword) && Distinct(r.vector)
    requires |r.keyword| <= PER_CHANNEL_K && |r.vector| <= PER_CHANNEL_K
    requires a in FusedOf(r) && b in FusedOf(r)
    requires a.chunk in r.keyword && a.chunk in r.vector
    requires b.chunk !in r.keyword || b.chunk !in r.vector
    ensures a.score - b.score >= 1.0 / 40.0 - 1.0 / 61.0 > TITLE_BOOST_CAP
  {
    FusedContents([r.keyword, r.vector], RRF_K);
    BothChannelsLead(r.keyword, r.vector, a.chunk, b.chunk);
  }

  // --- The anchor and the injected pages ---

  lemma {:induction false} OwnedHitsContents(hits: seq<Hit>, rows: Rows, document: int)
    ensures forall h :: h in OwnedHits(hits, rows, document) <==> h in hits && Owned(h, rows, document)
  {
    if hits != [] {
      OwnedHitsContents(hits[1..], rows, document);
      assert hits == [hits[0]] + hits[1..];
    }
  }

  /** The selected hit is the best by score, the lowest chunk id among equals. */
  lemma {:induction false} LeaderChunkIsBest(hits: seq<Hit>)
    ensures SelectLeaderChunk(hits).None? <==> hits == []
    ensures hits != [] ==>
              var best := SelectLeaderChunk(hits).value;
              best in hits && forall h :: h in hits ==>
                best.score > h.score || (best.score == h.score && best.chunk <= h.chunk)
  {
    if hits != [] {
      LeaderChunkIsBest(hits[1..]);
      assert hits == [hits[0]] + hits[1..];
    }
  }

  /** The first of the owned hits is the first owned hit. */
  lemma {:induction false} FirstOwned(hits: seq<Hit>, rows: Rows, document: int)
    requires OwnedHits(hits, rows, document) != []
    ensures exists i :: 0 <= i < |hits| && hits[i] == OwnedHits(hits, rows, document)[0] && NoneOwned(hits, rows, document, i)
  {
    if Owned(hits[0], rows, document) {
      assert NoneOwned(hits, rows, document, 0);
    } else {
      FirstOwned(hits[1..], rows, document);
      var i :| 0 <= i < |hits[1..]| && hits[1..][i] == OwnedHits(hits, rows, document)[0] && NoneOwned(hits[1..], rows, document, i);
      forall j | 0 <= j < i + 1 ensures !Owned(hits[j], rows, document) {
        if j > 0 { assert hits[1..][j - 1] == hits[j]; }
      }
      assert hits[i + 1] == OwnedHits(hits, rows, document)[0] && NoneOwned(hits, rows, document, i + 1);
    }
  }

  /** None of the first n hits is of the document. */
  ghost predicate NoneOwned(hits: seq<Hit>, rows: Rows, document: int, n: int) {
    forall j :: 0 <= j < n <= |hits| ==> !Owned(hits[j], rows, document)
  }

  /** No hit of the document has a higher score, or an equal one and a lower chunk id. */
  ghost predicate BestOwned(hits: seq<Hit>, rows: Rows, document: int, best: Hit) {
    forall h :: h in hits && Owned(h, rows, document) ==>
      best.score > h.score || (best.score == h.score && best.chunk <= h.chunk)
  }

  /**
   * The anchor is a hit of the leading document: the best of its base hits (lowest chunk id among equals),
   * or its first hit in the pool if the base has none of its pages.
   */
  lemma AnchorBelongs(r: Request)
    ensures Leader(r).None? <==> LeadingDocument(PoolOf(r), r.rows).None?
    ensures Leader(r).Some? ==>
              var document, leader := LeadingDocument(PoolOf(r), r.rows).value, Leader(r).value;
              && Owned(leader, r.rows, document) && leader in PoolOf(r)
              && (leader in BaseOf(r) <==> exists h :: h in BaseOf(r) && Owned(h, r.rows, document))
              && (leader in BaseOf(r) ==> BestOwned(BaseOf(r), r.rows, document, leader))
              && (leader !in BaseOf(r) ==>
                    exists i :: 0 <= i < |PoolOf(r)| && PoolOf(r)[i] == leader && NoneOwned(PoolOf(r), r.rows, document, i))
  {
    var pool, base := PoolOf(r), BaseOf(r);
    match LeadingDocument(pool, r.rows)
    case None =>
    case Some(document) =>
      LeadingDocumentIsBest(pool, r.rows, document);
      OwnedHitsContents(base, r.rows, document);
      OwnedHitsContents(pool, r.rows, document);
      LeaderChunkIsBest(OwnedHits(base, r.rows, document));
      var i :| 0 <= i < |pool| && Owned(pool[i], r.rows, document);
      assert pool[i] in OwnedHits(pool, r.rows, document);
      assert forall h :: h in base ==> h in pool;
      FirstOwned(pool, r.rows, document);
  }

  lemma HasChunkTake(base: seq<Hit>, n: nat, hit: Hit)
    requires hit in Take(base, n)
    ensures HasChunk(Take(base, n), hit.chunk)
  {
    var i :| 0 <= i < |Take(base, n)| && Take(base, n)[i] == hit;
  }

  /** With room for one page, the closest new page, the anchor itself, is taken. */
  lemma AnchorIsTaken(base: seq<Hit>, neighbors: seq<Page>, anchor: Page, score: real, budget: nat)
    requires UniquePages(neighbors) && anchor in neighbors
    requires forall p :: p in neighbors && p.ordinal == anchor.ordinal ==> p == anchor
    ensures HasChunk(Assembled(base, neighbors, anchor.ordinal, score, budget), anchor.chunk)
            <==> HasChunk(Take(base, budget), anchor.chunk) || |base| < budget
  {
    var kept := Take(base, budget);
    var result := Assembled(base, neighbors, anchor.ordinal, score, budget);
    if i :| 0 <= i < |kept| && kept[i].chunk == anchor.chunk {
      assert result[i] == kept[i];
    } else {
      var ordered := OrderedPages(kept, neighbors, anchor.ordinal);
      assert anchor in ordered;
      var k :| 0 <= k < |ordered| && ordered[k] == anchor;
      assert k == 0 by {
        assert ClosestFirst(anchor.ordinal)(ordered[0], ordered[k]) && ordered[0] in ordered;
      }
      PlaceDecides(kept, ordered, budget - |kept|, score, 0);
    }
  }

  /**
   * Anchor coverage. When the leading document is expanded, its anchor page is a candidate exactly when
   * it is in the kept base or the base leaves room, even if the document won on hits below top_k.
   */
  lemma AnchorCovered(r: Request, pages: seq<Page>)
    requires WellFormed(r.rows) && Expands(r) && IsNeighborAnswer(r, pages)
    ensures HasChunk(Candidates(r, pages), Leader(r).value.chunk)
            <==> HasChunk(Take(FinalBase(r), r.budget), Leader(r).value.chunk) || |BaseOf(r)| < r.budget
  {
    var leader, row := Leader(r).value, LeaderRow(r);
    assert InWindow(r.rows, leader.chunk, row.document, row.ordinal, r.window);
    var anchor := Page(leader.chunk, row.ordinal);
    assert anchor in pages;
    PoolFacts(r);
    AnchorIsTaken(FinalBase(r), pages, anchor, leader.score, r.budget);
  }

  /** A candidate whose chunk has a row is retrieved. */
  lemma CandidateIsRetrieved(r: Request, pages: seq<Page>, chunk: int)
    requires HasChunk(Candidates(r, pages), chunk) && chunk in r.rows
    ensures exists e :: e in Search(r, pages) && e.chunk == chunk && e.row == r.rows[chunk]
  {
    var hits := Candidates(r, pages);
    HydrateContents(hits, r.rows);
    var i :| 0 <= i < |hits| && hits[i].chunk == chunk;
    assert hits[i] in hits && hits[i] == Hit(chunk, hits[i].score);
    assert Retrieved(chunk, r.rows[chunk], hits[i].score) in Hydrate(hits, r.rows);
  }

  /** The anchor page reaches the extractor whenever the base is smaller than the page budget. */
  lemma AnchorIsRetrieved(r: Request, pages: seq<Page>)
    requires WellFormed(r.rows) && Expands(r) && IsNeighborAnswer(r, pages)
    requires |BaseOf(r)| < r.budget
    ensures exists e :: e in Search(r, pages) && e.chunk == Leader(r).value.chunk && e.row == LeaderRow(r)
  {
    AnchorCovered(r, pages);
    CandidateIsRetrieved(r, pages, Leader(r).value.chunk);
  }

  /** The neighbour rows are exactly the document's rows at most the window away from the anchor. */
  lemma WindowMeans(pages: seq<Page>, rows: Rows, document: int, anchor: int, window: nat, c: int)
    requires IsWindow(pages, rows, document, anchor, window)
    ensures (exists p :: p in pages && p.chunk == c) <==>
              c in rows && rows[c].document == document && anchor - window <= rows[c].ordinal <= anchor + window
    ensures forall p :: p in pages && p.chunk == c ==> p == Page(c, rows[c].ordinal)
  {
    if InWindow(rows, c, document, anchor, window) { assert Page(c, rows[c].ordinal) in pages; }
    forall p | p in pages && p.chunk == c ensures p == Page(c, rows[c].ordinal) && InWindow(rows, c, document, anchor, window) {}
  }

  /** A request is expanded exactly when the window is positive and the leading document is a PDF. */
  lemma ExpandsExactly(r: Request)
    ensures Expands(r) <==>
              && r.window > 0 && LeadingDocument(PoolOf(r), r.rows).Some?
              && exists h :: h in PoolOf(r) && Owned(h, r.rows, LeadingDocument(PoolOf(r), r.rows).value)
                   && Leader(r) == Some(h) && r.rows[h.chunk].sourceType == Pdf
  {
    AnchorBelongs(r);
  }

  /** The base of the retrieved list is made of the first top_k hits of the pool. */
  lemma BaseIsTopK(r: Request)
    ensures |FinalBase(r)| == Min(r.topK, |PoolOf(r)|)
    ensures forall h :: h in FinalBase(r) <==> exists i :: 0 <= i < r.topK && i < |PoolOf(r)| && PoolOf(r)[i] == h
  {
    PoolFacts(r);
    forall h ensures h in BaseOf(r) <==> exists i :: 0 <= i < r.topK && i < |PoolOf(r)| && PoolOf(r)[i] == h {
      if i :| 0 <= i < r.topK && i < |PoolOf(r)| && PoolOf(r)[i] == h { assert BaseOf(r)[i] == h; }
    }
  }

  /**
   * The retrieved list respects the budget and has no duplicates; every page that is not a base hit is
   * a page of the leading document, a PDF, at most the window away from the anchor page.
   */
  lemma RetrievedPages(r: Request, pages: seq<Page>)
    requires IsNeighborAnswer(r, pages)
    ensures |Search(r, pages)| <= r.budget
    ensures UniqueChunks(Candidates(r, pages))
    ensures forall e :: e in Search(r, pages) && !HasChunk(Take(FinalBase(r), r.budget), e.chunk) ==>
              && r.window > 0 && Leader(r).Some? && Leader(r).value.chunk in r.rows
              && var row := r.rows[Leader(r).value.chunk];
                 && row.sourceType == Pdf && e.row.document == row.document
                 && row.ordinal - r.window <= e.row.ordinal <= row.ordinal + r.window
  {
    PoolFacts(r);
    var hits := Candidates(r, pages);
    HydrateContents(hits, r.rows);
    if Expands(r) {
      var row, score := LeaderRow(r), Leader(r).value.score;
      AssemblyShape(FinalBase(r), pages, row.ordinal, score, r.budget);
      forall e | e in Search(r, pages) && !HasChunk(Take(FinalBase(r), r.budget), e.chunk)
        ensures InWindow(r.rows, e.chunk, row.document, row.ordinal, r.window)
      {
        InjectedIsNeighbor(FinalBase(r), pages, row.ordinal, score, r.budget, Hit(e.chunk, e.score));
      }
    } else {
      forall e | e in Search(r, pages) ensures HasChunk(Take(FinalBase(r), r.budget), e.chunk) {
        HasChunkTake(FinalBase(r), r.budget, Hit(e.chunk, e.score));
      }
    }
  }

  lemma InjectedIsNeighbor(base: seq<Hit>, pages: seq<Page>, anchor: int, score: real, budget: nat, hit: Hit)
    requires UniquePages(pages) && hit in Assembled(base, pages, anchor, score, budget)
    requires !HasChunk(Take(base, budget), hit.chunk)
    ensures exists p :: p in pages && p.chunk == hit.chunk
  {
    var result, kept := Assembled(base, pages, anchor, score, budget), Take(base, budget);
    var i :| 0 <= i < |result| && result[i] == hit;
    assert forall h :: 0 <= h < |kept| ==> result[h] == kept[h];
    InjectedPages(base, pages, anchor, score, budget, i);
  }

  /** The database may return the window in any order: the search result does not depend on it. */
  lemma AnswerOrderIrrelevant(r: Request, first: seq<Page>, second: seq<Page>)
    requires WellFormed(r.rows) && IsNeighborAnswer(r, first) && IsNeighborAnswer(r, second)
    ensures Search(r, first) == Search(r, second)
  {
    if Expands(r) {
      var row := LeaderRow(r);
      forall p ensures p in first <==> p in second {
        if p in first { assert InWindow(r.rows, p.chunk, row.document, row.ordinal, r.window); }
        if p in second { assert InWindow(r.rows, p.chunk, row.document, row.ordinal, r.window); }
      }
      RowOrderIrrelevant(FinalBase(r), first, second, row.ordinal, Leader(r).value.score, r.budget);
    }
  }
}
