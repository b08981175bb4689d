/** The three bounded re-sorts: by title overlap, by product, and within the leading document. */
module Reranking {
  import opened Prelude
  import opened Ordering
  import opened RankFusion
  import opened ProductMatch
  import opened Corpus

  const TITLE_TOKEN_BOOST := 0.0005
  const TITLE_BOOST_CAP := 0.0015
  const RERANK_BONUS := 0.0005

  function TitleBoost(query: set<string>, title: set<string>): (boost: real)
    ensures 0.0 <= boost <= TITLE_BOOST_CAP
  {
    if query == {} then 0.0
    else
      var raw := |query * title| as real * TITLE_TOKEN_BOOST;
      if raw <= TITLE_BOOST_CAP then raw else TITLE_BOOST_CAP
  }

  function TitleKey(query: set<string>, rows: Rows): Hit -> real {
    (h: Hit) => h.score + TitleBoost(query, if h.chunk in rows then rows[h.chunk].title.tokens else {})
  }

  function RerankByTitle(question: Question, fused: seq<Hit>, rows: Rows): seq<Hit> {
    if question.tokens == {} then fused
    else SortDescending(fused, TitleKey(question.tokens, rows))
  }

  function ProductKey(asked: ProductScope, rows: Rows): Hit -> real {
    (h: Hit) => if h.chunk in rows then h.score + ProductDelta(asked, rows[h.chunk].facet) else h.score
  }

  function RerankByProduct(question: Question, fused: seq<Hit>, rows: Rows): seq<Hit> {
    if !question.asked.IsIdentified() then fused
    else SortDescending(fused, ProductKey(question.asked, rows))
  }

  predicate MatchesFastenerSpec(query: set<string>, body: Body) {
    body.hasTorque && query * body.tokens != {}
  }

  function WithinKey(query: set<string>, rows: Rows, leader: int): Hit -> real {
    (h: Hit) =>
      if h.chunk !in rows || rows[h.chunk].document != leader || rows[h.chunk].sourceType != Pdf then h.score
      else h.score + if MatchesFastenerSpec(query, rows[h.chunk].body) then RERANK_BONUS else 0.0
  }

  function RerankWithinDoc(question: Question, fused: seq<Hit>, rows: Rows, leader: int): seq<Hit> {
    if question.tokens == {} then fused
    else SortDescending(fused, WithinKey(question.tokens, rows, leader))
  }

  // --- Permutations that leave scores alone ---

  lemma RerankingPermutes(question: Question, fused: seq<Hit>, rows: Rows, leader: int)
    requires UniqueChunks(fused)
    ensures multiset(RerankByTitle(question, fused, rows)) == multiset(fused)
    ensures multiset(RerankByProduct(question, fused, rows)) == multiset(fused)
    ensures multiset(RerankWithinDoc(question, fused, rows, leader)) == multiset(fused)
    ensures UniqueChunks(RerankByTitle(question, fused, rows))
    ensures UniqueChunks(RerankByProduct(question, fused, rows))
    ensures UniqueChunks(RerankWithinDoc(question, fused, rows, leader))
  {
    SortPermutes(fused, ByKeyDescending(TitleKey(question.tokens, rows)));
    SortPermutes(fused, ByKeyDescending(ProductKey(question.asked, rows)));
    SortPermutes(fused, ByKeyDescending(WithinKey(question.tokens, rows, leader)));
    PermutationUniqueChunks(fused, RerankByTitle(question, fused, rows));
    PermutationUniqueChunks(fused, RerankByProduct(question, fused, rows));
    PermutationUniqueChunks(fused, RerankWithinDoc(question, fused, rows, leader));
  }

  /** The order the document scores are read from: title re-sort, then product re-sort. */
  function Pool(question: Question, fused: seq<Hit>, rows: Rows): seq<Hit> {
    RerankByProduct(question, RerankByTitle(question, fused, rows), rows)
  }

  lemma PoolPermutes(question: Question, fused: seq<Hit>, rows: Rows)
    requires UniqueChunks(fused)
    ensures multiset(Pool(question, fused, rows)) == multiset(fused)
    ensures UniqueChunks(Pool(question, fused, rows))
    ensures forall h :: h in Pool(question, fused, rows) <==> h in fused
  {
    var titled := RerankByTitle(question, fused, rows);
    RerankingPermutes(question, fused, rows, 0);
    RerankingPermutes(question, titled, rows, 0);
    SameElements(fused, Pool(question, fused, rows));
  }

  // --- The exact orders ---

  /** A list that is already best first by score. */
  ghost predicate Ranked(fused: seq<Hit>) {
    forall a, b :: Before(fused, a, b) ==> a.score >= b.score
  }

  /** Order by a key, ties by the order of xs. */
  ghost predicate KeyThen<T>(key: T -> real, xs: seq<T>, a: T, b: T) {
    key(a) > key(b) || (key(a) == key(b) && Before(xs, a, b))
  }

  /** The title re-sort orders by score + title boost, then fused position (even when it returns early). */
  lemma TitleOrder(question: Question, fused: seq<Hit>, rows: Rows, a: Hit, b: Hit)
    requires UniqueChunks(fused) && Ranked(fused)
    requires a in fused && b in fused && a != b
    ensures Before(RerankByTitle(question, fused, rows), a, b)
            <==> KeyThen(TitleKey(question.tokens, rows), fused, a, b)
  {
    UniqueChunksDistinct(fused);
    var key := TitleKey(question.tokens, rows);
    if question.tokens == {} {
      assert key(a) == a.score && key(b) == b.score;
      BeforeTotal(fused, a, b);
      if Before(fused, a, b) { BeforeDistinctAsymmetric(fused, a, b); }
    } else {
      SortDescendingOrder(fused, key, a, b);
    }
  }

  /**
   * The pool order. When the question names a product it is lexicographic in (score + product delta,
   * score + title boost, fused position): the title order survives as a tie-break only.
   */
  lemma PoolOrder(question: Question, fused: seq<Hit>, rows: Rows, a: Hit, b: Hit)
    requires UniqueChunks(fused) && Ranked(fused)
    requires a in fused && b in fused && a != b
    ensures var product, title := ProductKey(question.asked, rows), TitleKey(question.tokens, rows);
            Before(Pool(question, fused, rows), a, b) <==>
              if question.asked.IsIdentified() then
                product(a) > product(b) || (product(a) == product(b) && KeyThen(title, fused, a, b))
              else KeyThen(title, fused, a, b)
  {
    var titled := RerankByTitle(question, fused, rows);
    RerankingPermutes(question, fused, rows, 0);
    SameElements(fused, titled);
    TitleOrder(question, fused, rows, a, b);
    UniqueChunksDistinct(titled);
    if question.asked.IsIdentified() {
      SortDescendingOrder(titled, ProductKey(question.asked, rows), a, b);
    }
  }

  /**
   * When the title order survives: if the question names a product, a hit before another one after the
   * title re-sort stays before it exactly when its raw score + product delta is not smaller.
   */
  lemma TitleOrderSurvives(question: Question, fused: seq<Hit>, rows: Rows, a: Hit, b: Hit)
    requires UniqueChunks(fused) && question.asked.IsIdentified()
    requires a in fused && b in fused && Before(RerankByTitle(question, fused, rows), a, b)
    ensures var product := ProductKey(question.asked, rows);
            Before(Pool(question, fused, rows), a, b) <==> product(a) >= product(b)
  {
    var titled := RerankByTitle(question, fused, rows);
    RerankingPermutes(question, fused, rows, 0);
    SameElements(fused, titled);
    UniqueChunksDistinct(titled);
    BeforeDistinctAsymmetric(titled, a, b);
    SortDescendingOrder(titled, ProductKey(question.asked, rows), a, b);
  }

  /**
   * What a named product does to two hits: a document known to match it overtakes one known not to match,
   * exactly if it trails by less than 0.001 (or by that much, standing first in the title order); a
   * document without a known product is neither raised nor lowered.
   */
  lemma MatchBeatsMismatch(question: Question, fused: seq<Hit>, rows: Rows, a: Hit, b: Hit)
    requires UniqueChunks(fused) && Ranked(fused) && question.asked.IsIdentified()
    requires a in fused && b in fused && a != b && a.chunk in rows && b.chunk in rows
    requires IsKnown(rows[a.chunk].facet) && ScopeMatches(question.asked, ScopeOf(rows[a.chunk].facet))
    ensures IsKnown(rows[b.chunk].facet) && !ScopeMatches(question.asked, ScopeOf(rows[b.chunk].facet)) ==>
              (Before(Pool(question, fused, rows), a, b) <==>
                 b.score - a.score < 0.001
                 || (b.score - a.score == 0.001 && Before(RerankByTitle(question, fused, rows), a, b)))
    ensures !IsKnown(rows[b.chunk].facet) ==>
              (Before(Pool(question, fused, rows), a, b) <==>
                 b.score - a.score < 0.0005
                 || (b.score - a.score == 0.0005 && Before(RerankByTitle(question, fused, rows), a, b)))
  {
    ScopeIsFacet(question.asked, rows[a.chunk].facet);
    ScopeIsFacet(question.asked, rows[b.chunk].facet);
    PoolOrder(question, fused, rows, a, b);
    TitleOrder(question, fused, rows, a, b);
  }

  /** The facet names a family or a brand. */
  predicate IsKnown(facet: Facet) {
    facet.family.Some? || facet.brand.Some?
  }

  /** The facet as a scope; how sure it is plays no part. */
  function ScopeOf(facet: Facet): ProductScope {
    ProductScope(facet.family, facet.brand, 1.0)
  }

  lemma ScopeIsFacet(asked: ProductScope, facet: Facet)
    ensures ProductDelta(asked, facet) == if !IsKnown(facet) then 0.0 else if ScopeMatches(asked, ScopeOf(facet)) then 0.0005 else -0.0005
  {
  }

  /** The pool is the title order exactly when no product is named or no earlier hit has a smaller product key than a later one. */
  lemma PoolIsTitleOrderExactly(question: Question, fused: seq<Hit>, rows: Rows)
    requires UniqueChunks(fused)
    ensures var titled, product := RerankByTitle(question, fused, rows), ProductKey(question.asked, rows);
            Pool(question, fused, rows) == titled <==>
              || !question.asked.IsIdentified()
              || forall i, j :: 0 <= i < j < |titled| ==> product(titled[i]) >= product(titled[j])
  {
    var titled := RerankByTitle(question, fused, rows);
    RerankingPermutes(question, fused, rows, 0);
    UniqueChunksDistinct(titled);
    SortIsIdentityExactly(titled, ProductKey(question.asked, rows));
  }

  /**
   * The within-document pass sorts the whole base by raw score + bonus, the pool order only breaking
   * ties: hits of other documents are re-sorted by raw score as well.
   */
  lemma WithinOrder(question: Question, base: seq<Hit>, rows: Rows, leader: int, a: Hit, b: Hit)
    requires UniqueChunks(base)
    requires a in base && b in base && a != b
    ensures question.tokens != {} ==>
              (Before(RerankWithinDoc(question, base, rows, leader), a, b)
               <==> KeyThen(WithinKey(question.tokens, rows, leader), base, a, b))
    ensures question.tokens == {} ==> RerankWithinDoc(question, base, rows, leader) == base
  {
    UniqueChunksDistinct(base);
    if question.tokens != {} {
      SortDescendingOrder(base, WithinKey(question.tokens, rows, leader), a, b);
    }
  }

  /**
   * Where other documents' hits really move: two hits outside the leading document keep their base
   * order exactly when their raw scores do not contradict it.
   */
  lemma OtherDocumentsMove(question: Question, base: seq<Hit>, rows: Rows, leader: int, a: Hit, b: Hit)
    requires UniqueChunks(base) && question.tokens != {}
    requires a in base && b in base && Before(base, a, b)
    requires a.chunk in rows && b.chunk in rows
    requires rows[a.chunk].document != leader && rows[b.chunk].document != leader
    ensures Before(RerankWithinDoc(question, base, rows, leader), a, b) <==> a.score >= b.score
  {
    UniqueChunksDistinct(base);
    BeforeDistinctAsymmetric(base, a, b);
    WithinOrder(question, base, rows, leader, a, b);
  }

  /** The hit gets the bonus of the within-document pass. */
  ghost predicate HasBonus(query: set<string>, rows: Rows, leader: int, h: Hit) {
    && h.chunk in rows && rows[h.chunk].document == leader && rows[h.chunk].sourceType == Pdf
    && rows[h.chunk].body.hasTorque && exists t :: t in query && t in rows[h.chunk].body.tokens
  }

  /** The bonus goes to the leading PDF's pages that hold a torque value and a word of the question, to no others. */
  lemma BonusExactly(query: set<string>, rows: Rows, leader: int, h: Hit)
    ensures WithinKey(query, rows, leader)(h) == h.score + if HasBonus(query, rows, leader, h) then RERANK_BONUS else 0.0
  {
    if h.chunk in rows {
      var words := rows[h.chunk].body.tokens;
      if t :| t in query && t in words { assert t in query * words; }
      if query * words != {} {
        var t :| t in query * words;
        assert t in query && t in words;
      }
    }
  }

  /**
   * The non-demotion invariant, exactly: a hit with a higher raw score comes first unless only the other
   * one has the bonus and the lead does not exceed it (or equals it, the other one standing first).
   */
  lemma NoDemotion(question: Question, base: seq<Hit>, rows: Rows, leader: int, a: Hit, b: Hit)
    requires UniqueChunks(base) && question.tokens != {} && a in base && b in base
    requires a.score > b.score
    ensures var bonus := (h: Hit) => HasBonus(question.tokens, rows, leader, h);
            var lead := a.score - b.score;
            Before(RerankWithinDoc(question, base, rows, leader), a, b) <==>
              !(bonus(b) && !bonus(a) && (lead < RERANK_BONUS || (lead == RERANK_BONUS && Before(base, b, a))))
  {
    BonusExactly(question.tokens, rows, leader, a);
    BonusExactly(question.tokens, rows, leader, b);
    UniqueChunksDistinct(base);
    BeforeTotal(base, a, b);
    if Before(base, a, b) { BeforeDistinctAsymmetric(base, a, b); }
    WithinOrder(question, base, rows, leader, a, b);
  }

  /** The within-document pass leaves the base as it is exactly when no earlier hit has a smaller key than a later one. */
  lemma WithinIsIdentityExactly(question: Question, base: seq<Hit>, rows: Rows, leader: int)
    requires UniqueChunks(base)
    ensures RerankWithinDoc(question, base, rows, leader) == base <==>
              || question.tokens == {}
              || (var key := WithinKey(question.tokens, rows, leader);
                  forall i, j :: 0 <= i < j < |base| ==> key(base[i]) >= key(base[j]))
  {
    UniqueChunksDistinct(base);
    if question.tokens != {} {
      SortIsIdentityExactly(base, WithinKey(question.tokens, rows, leader));
    }
  }

  /**
   * Where the within-document pass puts a hit, of the leading document or not: one place back for every
   * later hit with a larger key, one forward for every earlier hit with a smaller key. It keeps its place
   * exactly when these are equally many.
   */
  lemma WithinPlace(question: Question, base: seq<Hit>, rows: Rows, leader: int, i: nat)
    requires UniqueChunks(base) && question.tokens != {} && i < |base|
    ensures var key, out := WithinKey(question.tokens, rows, leader), RerankWithinDoc(question, base, rows, leader);
            var p := i + Overtakers(base, key, i) - Overtaken(base, key, i);
            && |out| == |base| && 0 <= p < |out| && out[p] == base[i]
            && (out[i] == base[i] <==> Overtakers(base, key, i) == Overtaken(base, key, i))
  {
    UniqueChunksDistinct(base);
    var key := WithinKey(question.tokens, rows, leader);
    SortedPlace(base, key, i);
    SortDescendingFacts(base, key);
  }

  // --- No re-sort closes the gap ---

  /** A lead of TITLE_BOOST_CAP survives the title and product re-sorts. */
  lemma LeadSurvivesPool(question: Question, fused: seq<Hit>, rows: Rows, a: Hit, b: Hit)
    requires UniqueChunks(fused) && Ranked(fused)
    requires a in fused && b in fused
    requires a.score - b.score >= TITLE_BOOST_CAP
    ensures Before(Pool(question, fused, rows), a, b)
  {
    UniqueChunksDistinct(fused);
    BeforeTotal(fused, a, b);
    assert Before(fused, a, b);
    PoolOrder(question, fused, rows, a, b);
  }

  /** A lead of RERANK_BONUS within the base survives the within-document re-sort. */
  lemma LeadSurvivesWithin(question: Question, base: seq<Hit>, rows: Rows, leader: int, a: Hit, b: Hit)
    requires UniqueChunks(base)
    requires Before(base, a, b)
    requires a.score - b.score >= RERANK_BONUS
    ensures Before(RerankWithinDoc(question, base, rows, leader), a, b)
  {
    UniqueChunksDistinct(base);
    BeforeDistinctAsymmetric(base, a, b);
    WithinOrder(question, base, rows, leader, a, b);
  }

  /**
   * The cap is the exact threshold: for any two hits of a fused list whose lead is smaller there are a
   * question and titles with which the second overtakes the first.
   */
  lemma SmallerLeadCanBeLost(fused: seq<Hit>, a: Hit, b: Hit) returns (question: Question, rows: Rows)
    requires UniqueChunks(fused) && Ranked(fused) && a in fused && b in fused && a != b
    requires a.score - b.score < TITLE_BOOST_CAP
    ensures AreTokens(question.tokens) && WellFormed(rows) && forall c :: c in rows ==> AreTokens(rows[c].title.tokens)
    ensures Before(Pool(question, fused, rows), b, a)
  {
    var words := {"c", "e", "l"};
    question := Question("c e l", words, UNIDENTIFIED);
    var plain := Title("", {}, Reading([], {}));
    var named := Title("", words, Reading([], {}));
    var near := Row(1, 1, Body("", {}, false), None, None, "", Html, plain, "", Facet(None, None));
    rows := map[a.chunk := near, b.chunk := near.(document := 2, title := named)];
    FullBoost(words);
    UniqueChunksDistinct(fused);
    PoolOrder(question, fused, rows, b, a);
  }

  lemma FullBoost(words: set<string>)
    requires words == {"c", "e", "l"}
    ensures AreTokens(words)
    ensures TitleBoost(words, words) == TITLE_BOOST_CAP && TitleBoost(words, {}) == 0.0
  {
    assert "c"[0] == 'c' && "e"[0] == 'e' && "l"[0] == 'l';
    StopwordsStart("c");
    StopwordsStart("e");
    StopwordsStart("l");
    assert words * words == words && words * {} == {};
    assert |words| == 3;
  }
}
