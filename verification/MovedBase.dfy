/** A request in which the within-document pass moves a base hit of another document. */
module MovedBase {
  import opened Prelude
  import opened Ordering
  import opened RankFusion
  import opened ProductMatch
  import opened Corpus
  import opened Reranking
  import opened DocumentRanking
  import opened HybridSearch

  const CATALOG := Title("Catalog", {"catalog"}, Reading(["catalog"], {}))
  const TORQUE := Body("caliper 8 Nm", {"caliper", "8", "nm"}, true)
  const OUTSIDE := Row(9, 1, Body("rotor", {"rotor"}, false), Some("k"), None, "", Pdf, CATALOG, "", Facet(None, None))
  const PAGE := Row(7, 1, TORQUE, Some("k"), None, "", Pdf, CATALOG, "", Facet(None, None))

  /** Chunk 1 is another manual's page; chunks 2 and 3 are two torque pages of the leading manual. */
  const ROWS: Rows := map[1 := OUTSIDE, 2 := PAGE, 3 := PAGE.(ordinal := 2)]

  /** No page holds both words, so only the vector channel answers. */
  const QUESTION := Question("caliper clamp", {"caliper", "clamp"}, UNIDENTIFIED)

  const REQUEST := Request(QUESTION, [], [1, 2, 3], ROWS, 3, 1, 3)

  /** The question names no product, and the facets are those of the title. */
  lemma ScopesAreRead(pick: BrandPicker)
    ensures ExtractQueryScope(Reading(["caliper", "clamp"], {}), pick) == QUESTION.asked
    ensures forall c :: c in ROWS ==> ROWS[c].facet == DeriveFacet(ROWS[c].title.reading, pick)
  {
    PlainTextIsUnidentified(Reading(["caliper", "clamp"], {}), pick);
    PlainTextIsUnidentified(CATALOG.reading, pick);
  }

  lemma Words()
    ensures AreTokens(QUESTION.tokens) && AreTokens(CATALOG.tokens) && AreTokens(TORQUE.tokens) && AreTokens({"rotor"})
  {
    StopwordsStart("caliper");
    StopwordsStart("clamp");
    StopwordsStart("catalog");
    StopwordsStart("rotor");
    StopwordsStart("8");
    StopwordsStart("nm");
  }

  lemma RequestIsPossible()
    ensures Possible(REQUEST)
  {
    Words();
    assert ROWS.Keys == {1, 2, 3};
  }

  /** Equal titles move nothing. */
  lemma PoolIsTheChannel()
    ensures PoolOf(REQUEST) == ChannelHits([1, 2, 3], RRF_K)
  {
    var hits := ChannelHits([1, 2, 3], RRF_K);
    OneChannel([1, 2, 3], RRF_K);
    WeightDecreases(RRF_K, 1, 2);
    WeightDecreases(RRF_K, 2, 3);
    SortIsIdentityExactly(hits, TitleKey(QUESTION.tokens, ROWS));
  }

  lemma Hits(pool: seq<Hit>)
    requires pool == ChannelHits([1, 2, 3], RRF_K)
    ensures Ranks(pool, ROWS, 7) == {2, 3} && Ranks(pool, ROWS, 9) == {1}
    ensures forall d :: IsOwner(pool, ROWS, d) <==> d == 7 || d == 9
  {
    var two: set<nat>, one: set<nat> := {2, 3}, {1};
    assert HitAtRank(pool, ROWS, 7, 2) && HitAtRank(pool, ROWS, 7, 3) && HitAtRank(pool, ROWS, 9, 1);
    assert Ranks(pool, ROWS, 7) == two && Ranks(pool, ROWS, 9) == one;
    assert Owned(pool[1], ROWS, 7) && Owned(pool[0], ROWS, 9);
  }

  lemma ManualLeads()
    ensures LeadingDocument(PoolOf(REQUEST), ROWS) == Some(7)
  {
    PoolIsTheChannel();
    var pool := PoolOf(REQUEST);
    Hits(pool);
    TwoHitsBeatOne(pool, ROWS, 7, 9);
    LeadingDocumentIsBest(pool, ROWS, 7);
  }

  lemma BaseIs()
    ensures BaseOf(REQUEST) == [Hit(1, Weight(RRF_K, 1)), Hit(2, Weight(RRF_K, 2)), Hit(3, Weight(RRF_K, 3))]
  {
    PoolIsTheChannel();
    WholeChannel(PoolOf(REQUEST));
  }

  lemma WholeChannel(pool: seq<Hit>)
    requires pool == ChannelHits([1, 2, 3], RRF_K)
    ensures Take(pool, 3) == [Hit(1, Weight(RRF_K, 1)), Hit(2, Weight(RRF_K, 2)), Hit(3, Weight(RRF_K, 3))]
  {
  }

  lemma LastTwo(a: Hit, b: Hit, c: Hit)
    ensures [a, b, c][1..] == [b, c] && [b, c][1..] == [c] && [c][1..] == []
  {
  }

  lemma PageIsLeader()
    ensures Leader(REQUEST) == Some(Hit(2, Weight(RRF_K, 2)))
  {
    BaseIs();
    ManualLeads();
    WeightDecreases(RRF_K, 2, 3);
    var a, b, c := Hit(1, Weight(RRF_K, 1)), Hit(2, Weight(RRF_K, 2)), Hit(3, Weight(RRF_K, 3));
    LastTwo(a, b, c);
    assert OwnedHits([c], ROWS, 7) == [c];
    assert OwnedHits([b, c], ROWS, 7) == [b, c];
    assert OwnedHits([a, b, c], ROWS, 7) == [b, c];
    assert SelectLeaderChunk([c]) == Some(c);
    assert SelectLeaderChunk([b, c]) == Some(b);
  }

  /** One later hit overtakes the outside hit. */
  lemma OneOvertaker(base: seq<Hit>)
    requires base == [Hit(1, Weight(RRF_K, 1)), Hit(2, Weight(RRF_K, 2)), Hit(3, Weight(RRF_K, 3))]
    ensures Overtakers(base, WithinKey(QUESTION.tokens, ROWS, 7), 0) == 1
    ensures Overtaken(base, WithinKey(QUESTION.tokens, ROWS, 7), 0) == 0
  {
    Keys();
    var key := WithinKey(QUESTION.tokens, ROWS, 7);
    assert "caliper" in QUESTION.tokens * TORQUE.tokens;
    assert key(base[1]) > key(base[0]) > key(base[2]);
    var f := (y: Hit) => key(y) > key(base[0]);
    LastTwo(base[0], base[1], base[2]);
    var later := base[1..];
    assert later == [base[1], base[2]];
    assert Count(later[1..], f) == 0;
    assert Count(later, f) == 1;
    OvertakersCounted(base, key, 0, f);
    assert base[..0] == [];
  }

  lemma ManualExpands()
    ensures Expands(REQUEST) && LeaderRow(REQUEST).document == 7
  {
    PageIsLeader();
  }

  lemma Keys()
    ensures Weight(RRF_K, 2) + RERANK_BONUS > Weight(RRF_K, 1) > Weight(RRF_K, 3) + RERANK_BONUS
  {
    assert Weight(RRF_K, 1) == 1.0 / 61.0 && Weight(RRF_K, 2) == 1.0 / 62.0 && Weight(RRF_K, 3) == 1.0 / 63.0;
  }

  /** Where the pass puts the first base hit. */
  lemma FirstGoesSecond(base: seq<Hit>)
    requires base == [Hit(1, Weight(RRF_K, 1)), Hit(2, Weight(RRF_K, 2)), Hit(3, Weight(RRF_K, 3))]
    ensures var out := RerankWithinDoc(QUESTION, base, ROWS, 7);
            |out| == 3 && out[1] == base[0] != out[0]
  {
    OneOvertaker(base);
    WithinPlace(QUESTION, base, ROWS, 7, 0);
  }

  /** The other manual's page stands first in the base and second after the pass, behind a page with a lower raw score. */
  lemma OutsideHitMoves()
    ensures Possible(REQUEST) && Expands(REQUEST) && LeaderRow(REQUEST).document == 7
    ensures |BaseOf(REQUEST)| == 3 && BaseOf(REQUEST)[0].chunk == 1 && ROWS[1].document != 7
    ensures |FinalBase(REQUEST)| == 3 && FinalBase(REQUEST)[1] == BaseOf(REQUEST)[0] != FinalBase(REQUEST)[0]
  {
    RequestIsPossible();
    ManualExpands();
    BaseIs();
    FirstGoesSecond(BaseOf(REQUEST));
  }
}
