/** A request in which naming a product undoes the title re-sort. */
module UndoneTitle {
  import opened Prelude
  import opened RankFusion
  import opened ProductMatch
  import opened Corpus
  import opened Reranking
  import opened HybridSearch

  const ASKED := Reading(["2012", "lyrik"], {})
  const CATALOG := Title("Catalog", {"catalog"}, Reading(["catalog"], {}))
  const NEWER := Title("2012 Catalog", {"2012", "catalog"}, Reading(["2012", "catalog"], {}))
  const PAGE := Row(1, 1, Body("rotor", {"rotor"}, false), Some("k"), None, "", Pdf, CATALOG, "", Facet(None, None))

  /** Two catalogues without a recognised product; the second has the year of the question in its title. */
  const ROWS: Rows := map[1 := PAGE, 2 := PAGE.(document := 2, title := NEWER)]

  const QUESTION := Question("2012 Lyrik", {"2012", "lyrik"}, ProductScope(Some("lyrik"), None, 0.9))

  /** The plain catalogue is the better vector hit. */
  const REQUEST := Request(QUESTION, [], [1, 2], ROWS, 5, 1, 10)

  /** The scope is what the matcher reads off the question, and the facets are those of the titles. */
  lemma ScopesAreRead(pick: BrandPicker)
    ensures ExtractQueryScope(ASKED, pick) == QUESTION.asked
    ensures forall c :: c in ROWS ==> ROWS[c].facet == DeriveFacet(ROWS[c].title.reading, pick)
  {
    AskedFamily();
    NoPhrase(0);
    NoBrandAmong("2012");
    NoBrandAmong("lyrik");
    PlainTextIsUnidentified(CATALOG.reading, pick);
    PlainTextIsUnidentified(NEWER.reading, pick);
  }

  lemma AskedFamily()
    ensures DetectFamily(ASKED) == Some("lyrik")
  {
    var tokens := (set t | t in ASKED.tokens) - GENERIC_TITLE_TOKENS;
    assert "lyrik" in tokens && tokens <= {"2012", "lyrik"};
    assert {"pike"} * tokens == {};
    assert "lyrik" in {"lyrik"} * tokens;
  }

  lemma Words()
    ensures AreTokens(QUESTION.tokens) && AreTokens(CATALOG.tokens) && AreTokens(NEWER.tokens) && AreTokens({"rotor"})
  {
    StopwordsStart("2012");
    StopwordsStart("lyrik");
    StopwordsStart("catalog");
    StopwordsStart("rotor");
  }

  lemma RequestIsPossible()
    ensures Possible(REQUEST)
  {
    Words();
    assert ROWS.Keys == {1, 2};
  }

  const FIRST := Hit(1, Weight(RRF_K, 1))
  const SECOND := Hit(2, Weight(RRF_K, 2))

  lemma Fusion()
    ensures FusedOf(REQUEST) == [FIRST, SECOND]
  {
    OneChannel([1, 2], RRF_K);
  }

  lemma Scores()
    ensures FIRST.score > SECOND.score > FIRST.score - TITLE_TOKEN_BOOST
  {
    assert Weight(RRF_K, 1) == 1.0 / 61.0 && Weight(RRF_K, 2) == 1.0 / 62.0;
  }

  lemma Boosts()
    ensures TitleBoost(QUESTION.tokens, CATALOG.tokens) == 0.0
    ensures TitleBoost(QUESTION.tokens, NEWER.tokens) == TITLE_TOKEN_BOOST
  {
    assert "2012"[0] == '2' && "lyrik"[0] == 'l' && "catalog"[0] == 'c';
    assert QUESTION.tokens * CATALOG.tokens == {};
    assert QUESTION.tokens * NEWER.tokens == {"2012"};
  }

  lemma TitleThenProduct(fused: seq<Hit>)
    requires fused == [FIRST, SECOND]
    ensures Before(RerankByTitle(QUESTION, fused, ROWS), SECOND, FIRST)
    ensures Before(Pool(QUESTION, fused, ROWS), FIRST, SECOND)
  {
    Scores();
    Boosts();
    TitleOrder(QUESTION, fused, ROWS, SECOND, FIRST);
    PoolOrder(QUESTION, fused, ROWS, FIRST, SECOND);
  }

  /**
   * The year in its title brings the second hit to the front; then the product re-sort, in which neither
   * document has a known product, takes it back.
   */
  lemma ProductUndoesTitle()
    ensures Possible(REQUEST) && FusedOf(REQUEST) == [FIRST, SECOND]
    ensures Before(RerankByTitle(QUESTION, [FIRST, SECOND], ROWS), SECOND, FIRST)
    ensures Before(PoolOf(REQUEST), FIRST, SECOND)
  {
    RequestIsPossible();
    Fusion();
    TitleThenProduct([FIRST, SECOND]);
  }
}
