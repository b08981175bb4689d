/** The deterministic product matcher shared by ranking, the stored facet and the abstention gate. */
module ProductMatch {
  import opened Prelude

  /** What the matcher reads off a text: its ordered tokens and the brand phrases it contains. */
  datatype Reading = Reading(tokens: seq<string>, phrases: set<string>)

  datatype ProductScope = ProductScope(family: Option<string>, brand: Option<string>, confidence: real) {
    predicate IsIdentified() {
      family.Some? || brand.Some?
    }
  }

  const UNIDENTIFIED := ProductScope(None, None, 0.0)

  /** The columns product_family and brand of a document. */
  datatype Facet = Facet(family: Option<string>, brand: Option<string>)

  const IN_CORPUS_BRANDS: set<string> := {"rockshox", "sram", "avid", "zipp", "quarq"}

  const OUT_OF_CORPUS_BRANDS: set<string> :=
    {"shimano", "fox", "campagnolo", "magura", "hope", "crankbrothers", "trp", "box", "hayes",
     "tektro", "formula", "praxis", "easton", "enve", "industry-nine", "onyx", "wolftooth", "wolf-tooth"}

  const BRAND_PHRASES: seq<(string, string)> :=
    [("dt swiss", "dt-swiss"), ("race face", "race-face"), ("chris king", "chris-king"),
     ("cane creek", "cane-creek"), ("wolf tooth", "wolf-tooth")]

  const FAMILY_TOKENS: seq<(string, set<string>)> :=
    [("pike", {"pike"}), ("lyrik", {"lyrik"}), ("zeb", {"zeb"}), ("yari", {"yari"}), ("sid", {"sid"}),
     ("sidluxe", {"sidluxe"}), ("revelation", {"revelation"}), ("reba", {"reba"}), ("recon", {"recon"}),
     ("sektor", {"sektor"}), ("domain", {"domain"}), ("boxxer", {"boxxer"}), ("judy", {"judy"}),
     ("tora", {"tora"}), ("argyle", {"argyle"}), ("dart", {"dart"}), ("bluto", {"bluto"}),
     ("vivid", {"vivid"}), ("monarch", {"monarch"}), ("deluxe", {"deluxe"}), ("kage", {"kage"}),
     ("reverb", {"reverb"}), ("code", {"code"}), ("guide", {"guide"}), ("level", {"level"}),
     ("bb7", {"bb7"}), ("db", {"db5", "db8"}), ("reaktiv", {"reaktiv"}), ("eagle", {"eagle"}),
     ("axs", {"axs"}), ("rs1", {"rs-1", "rs1"}), ("predictive-steering", {"predictive"})]

  const GENERIC_TITLE_TOKENS: set<string> :=
    {"technical", "front", "suspension", "spare", "part", "catalog", "road", "frame", "fit",
     "specifications", "safety", "instructions", "user", "udh", "hose", "bleed", "procedure", "adjustment"}

  const GUIDE_PRODUCT_VARIANTS: set<string> := {"rs", "rsc", "re", "r", "t", "ultimate"}
  const GUIDE_GENRE_CONTEXT: set<string> := {"tuning", "theory", "service", "identification", "start", "quick"}

  const FAMILY_PERSIST_CONFIDENCE := 0.9

  // --- Brand and family detection ---

  predicate IsBrandToken(token: string) {
    token in IN_CORPUS_BRANDS || token in OUT_OF_CORPUS_BRANDS
  }

  /** The search loop over the positions of "guide", with its early returns and its continues. */
  function GuideScan(tokens: seq<string>, i: nat): bool
    requires i <= |tokens|
    decreases |tokens| - i
  {
    if i == |tokens| then false
    else if tokens[i] != "guide" then GuideScan(tokens, i + 1)
    else
      var prev := if i > 0 then Some(tokens[i - 1]) else None;
      var next := if i + 1 < |tokens| then Some(tokens[i + 1]) else None;
      if next == Some("brake") then true
      else if next.Some? && next.value in GUIDE_PRODUCT_VARIANTS then true
      else if prev.Some? && prev.value in GUIDE_GENRE_CONTEXT then GuideScan(tokens, i + 1)
      else if next.None? then GuideScan(tokens, i + 1)
      else GuideScan(tokens, i + 1)
  }

  function GuideIsProduct(tokens: seq<string>): bool {
    GuideScan(tokens, 0)
  }

  function PhraseBrand(phrases: set<string>, i: nat): Option<string>
    requires i <= |BRAND_PHRASES|
    decreases |BRAND_PHRASES| - i
  {
    if i == |BRAND_PHRASES| then None
    else if BRAND_PHRASES[i].0 in phrases then Some(BRAND_PHRASES[i].1)
    else PhraseBrand(phrases, i + 1)
  }

  /**
   * The order in which one process walks the token set of a text is not fixed by the text: the loop
   * returns whichever brand token that walk meets first. A picker stands for one process's walks.
   */
  type BrandPicker = seq<string> -> string

  ghost predicate ValidPicker(pick: BrandPicker) {
    forall tokens: seq<string> {:trigger pick(tokens)} ::
      (exists t :: t in tokens && IsBrandToken(t)) ==> pick(tokens) in tokens && IsBrandToken(pick(tokens))
  }

  function DetectBrand(text: Reading, pick: BrandPicker): Option<string> {
    var phrase := PhraseBrand(text.phrases, 0);
    if phrase.Some? then phrase
    else if exists t :: t in text.tokens && IsBrandToken(t) then Some(pick(text.tokens))
    else None
  }

  function FamilyFrom(tokens: set<string>, ordered: seq<string>, i: nat): Option<string>
    requires i <= |FAMILY_TOKENS|
    decreases |FAMILY_TOKENS| - i
  {
    if i == |FAMILY_TOKENS| then None
    else
      var (family, surface) := FAMILY_TOKENS[i];
      if surface * tokens == {} then FamilyFrom(tokens, ordered, i + 1)
      else if family == "guide" && !GuideIsProduct(ordered) then FamilyFrom(tokens, ordered, i + 1)
      else Some(family)
  }

  function DetectFamily(text: Reading): Option<string> {
    FamilyFrom((set t | t in text.tokens) - GENERIC_TITLE_TOKENS, text.tokens, 0)
  }

  // --- Scopes ---

  function NormalizeProduct(text: Reading, pick: BrandPicker): ProductScope {
    var brand := DetectBrand(text, pick);
    var family := DetectFamily(text);
    if family.None? && brand.None? then UNIDENTIFIED
    else ProductScope(family, brand, if family.Some? then 0.9 else 0.6)
  }

  function DeriveFacet(title: Reading, pick: BrandPicker): Facet {
    var scope := NormalizeProduct(title, pick);
    Facet(if scope.confidence >= FAMILY_PERSIST_CONFIDENCE then scope.family else None, scope.brand)
  }

  function ExtractQueryScope(query: Reading, pick: BrandPicker): ProductScope {
    var brand := DetectBrand(query, pick);
    var family := DetectFamily(query);
    if family.None? && brand.None? then UNIDENTIFIED
    else ProductScope(family, brand, if family.Some? then 0.9 else 0.7)
  }

  predicate ScopeMatches(asked: ProductScope, candidate: ProductScope) {
    if !asked.IsIdentified() then false
    else if asked.family.Some? && candidate.family.Some? then asked.family == candidate.family
    else if candidate.family.None? then
      if candidate.brand.None? then true
      else if asked.brand.Some? then asked.brand == candidate.brand
      else true
    else if candidate.brand.Some? && asked.brand.Some? then asked.brand == candidate.brand
    else false
  }

  const PRODUCT_MATCH_BOOST := 0.0005
  const PRODUCT_MISMATCH_PENALTY := 0.0005

  function ProductDelta(asked: ProductScope, facet: Facet): (delta: real)
    ensures -PRODUCT_MISMATCH_PENALTY <= delta <= PRODUCT_MATCH_BOOST
  {
    var candidate := ProductScope(facet.family, facet.brand, if facet.family.Some? then 0.9 else 0.6);
    if !candidate.IsIdentified() then 0.0
    else if ScopeMatches(asked, candidate) then PRODUCT_MATCH_BOOST
    else -PRODUCT_MISMATCH_PENALTY
  }

  predicate Penalised(asked: ProductScope, facet: Facet) {
    ProductDelta(asked, facet) < 0.0
  }

  // --- What the matcher decides ---

  /** "guide" is the brake exactly when "brake" or a variant token follows some occurrence of it. */
  lemma GuideIsProductExactly(tokens: seq<string>)
    ensures GuideIsProduct(tokens) <==>
              exists i :: 0 <= i < |tokens| - 1 && tokens[i] == "guide"
                          && (tokens[i + 1] == "brake" || tokens[i + 1] in GUIDE_PRODUCT_VARIANTS)
  {
    GuideScanExactly(tokens, 0);
  }

  lemma {:induction false} GuideScanExactly(tokens: seq<string>, i: nat)
    requires i <= |tokens|
    ensures GuideScan(tokens, i) <==>
              exists j :: i <= j < |tokens| - 1 && tokens[j] == "guide"
                          && (tokens[j + 1] == "brake" || tokens[j + 1] in GUIDE_PRODUCT_VARIANTS)
    decreases |tokens| - i
  {
    if i < |tokens| {
      GuideScanExactly(tokens, i + 1);
    }
  }

  /**
   * The documented third case (a "guide" that leads a reference is the product) is not what the code
   * does: "guide axle ..." has no genre word before it, is not trailing, and is still rejected.
   */
  lemma LeadingGuideIsNotProduct()
    ensures !GuideIsProduct(["guide", "axle", "torque"])
  {
    var tokens := ["guide", "axle", "torque"];
    GuideIsProductExactly(tokens);
    assert tokens[1] == "axle" && |tokens[1]| == 4 && |"brake"| == 5;
    assert forall v :: v in GUIDE_PRODUCT_VARIANTS ==> |v| != 4;
    assert tokens[1][0] == 'a' && tokens[2][0] == 't';
    assert |tokens[2]| == 6;
  }

  /** An identified question is satisfied exactly in these three ways. */
  lemma ScopeMatchesExactly(asked: ProductScope, candidate: ProductScope)
    requires asked.IsIdentified()
    ensures ScopeMatches(asked, candidate) <==>
              || (candidate.family.Some? && asked.family == candidate.family)
              || (candidate.family.None? && (candidate.brand.None? || asked.brand.None? || asked.brand == candidate.brand))
              || (candidate.family.Some? && asked.family.None? && asked.brand == candidate.brand)
  {
  }

  /**
   * A brand-only question against a title that names a family but no brand is documented as
   * non-blocking. The code lets it pass for no such title at all.
   */
  lemma BrandlessFamilyTitleBlocksBrandQuestion(asked: ProductScope, candidate: ProductScope)
    requires asked.IsIdentified() && asked.family.None?
    requires candidate.family.Some?
    ensures ScopeMatches(asked, candidate) <==> candidate.brand.Some? && candidate.brand == asked.brand
  {
  }

  /** The i-th family is named: by a word that is not generic, and "guide" only where it is the brake. */
  ghost predicate NamesFamily(text: Reading, i: int)
    requires 0 <= i < |FAMILY_TOKENS|
  {
    && (exists t :: t in FAMILY_TOKENS[i].1 && t in text.tokens && t !in GENERIC_TITLE_TOKENS)
    && (FAMILY_TOKENS[i].0 == "guide" ==>
          exists j :: 0 <= j < |text.tokens| - 1 && text.tokens[j] == "guide"
                      && (text.tokens[j + 1] == "brake" || text.tokens[j + 1] in GUIDE_PRODUCT_VARIANTS))
  }

  /** The text names no family from one index up to another. */
  ghost predicate NoneNamed(text: Reading, from: nat, to: nat)
    requires to <= |FAMILY_TOKENS|
  {
    forall j :: from <= j < to ==> !NamesFamily(text, j)
  }

  /** The detected family is the first one of the table that the text names. */
  lemma FamilyExactly(text: Reading) returns (k: nat)
    ensures k <= |FAMILY_TOKENS| && NoneNamed(text, 0, k)
    ensures k == |FAMILY_TOKENS| ==> DetectFamily(text).None?
    ensures k < |FAMILY_TOKENS| ==> NamesFamily(text, k) && DetectFamily(text) == Some(FAMILY_TOKENS[k].0)
  {
    k := FamilyScan(text, (set t | t in text.tokens) - GENERIC_TITLE_TOKENS, 0);
  }

  lemma {:induction false} FamilyScan(text: Reading, tokens: set<string>, i: nat) returns (k: nat)
    requires i <= |FAMILY_TOKENS| && tokens == (set t | t in text.tokens) - GENERIC_TITLE_TOKENS
    ensures i <= k <= |FAMILY_TOKENS| && NoneNamed(text, i, k)
    ensures k == |FAMILY_TOKENS| ==> FamilyFrom(tokens, text.tokens, i).None?
    ensures k < |FAMILY_TOKENS| ==> NamesFamily(text, k) && FamilyFrom(tokens, text.tokens, i) == Some(FAMILY_TOKENS[k].0)
    decreases |FAMILY_TOKENS| - i
  {
    k := i;
    if i < |FAMILY_TOKENS| {
      FamilyStep(text, tokens, i);
      if !NamesFamily(text, i) {
        k := FamilyScan(text, tokens, i + 1);
        NoneNamedFrom(text, i, k);
      }
    }
  }

  lemma NoneNamedFrom(text: Reading, i: nat, k: nat)
    requires i < k <= |FAMILY_TOKENS| && !NamesFamily(text, i) && NoneNamed(text, i + 1, k)
    ensures NoneNamed(text, i, k)
  {
  }

  lemma FamilyStep(text: Reading, tokens: set<string>, i: nat)
    requires i < |FAMILY_TOKENS| && tokens == (set t | t in text.tokens) - GENERIC_TITLE_TOKENS
    ensures FamilyFrom(tokens, text.tokens, i)
            == if NamesFamily(text, i) then Some(FAMILY_TOKENS[i].0) else FamilyFrom(tokens, text.tokens, i + 1)
  {
    var surface := FAMILY_TOKENS[i].1;
    GuideIsProductExactly(text.tokens);
    if t :| t in surface && t in text.tokens && t !in GENERIC_TITLE_TOKENS { assert t in surface * tokens; }
    if surface * tokens != {} {
      var t :| t in surface * tokens;
      assert t in surface && t in text.tokens && t !in GENERIC_TITLE_TOKENS;
    }
  }

  /** Of the phrases from one on, the one at k is the first the text contains. */
  ghost predicate FirstPhrase(text: Reading, from: nat, k: int) {
    && from <= k < |BRAND_PHRASES| && BRAND_PHRASES[k].0 in text.phrases
    && forall j :: from <= j < k ==> BRAND_PHRASES[j].0 !in text.phrases
  }

  lemma {:induction false} PhraseScan(text: Reading, i: nat)
    requires i <= |BRAND_PHRASES|
    ensures var found := PhraseBrand(text.phrases, i);
            if found.None? then forall k :: i <= k < |BRAND_PHRASES| ==> BRAND_PHRASES[k].0 !in text.phrases
            else exists k :: FirstPhrase(text, i, k) && BRAND_PHRASES[k].1 == found.value
    decreases |BRAND_PHRASES| - i
  {
    if i < |BRAND_PHRASES| {
      PhraseScan(text, i + 1);
      if BRAND_PHRASES[i].0 in text.phrases {
        assert FirstPhrase(text, i, i);
      } else if PhraseBrand(text.phrases, i + 1).Some? {
        var k :| FirstPhrase(text, i + 1, k) && BRAND_PHRASES[k].1 == PhraseBrand(text.phrases, i + 1).value;
        assert FirstPhrase(text, i, k);
      }
    }
  }

  /** The brand is that of the first phrase of the table the text contains; else some brand word of the text, if there is one. */
  lemma BrandExactly(text: Reading, pick: BrandPicker)
    requires ValidPicker(pick)
    ensures var brand := DetectBrand(text, pick);
            if exists k :: 0 <= k < |BRAND_PHRASES| && BRAND_PHRASES[k].0 in text.phrases then
              exists k :: FirstPhrase(text, 0, k) && brand == Some(BRAND_PHRASES[k].1)
            else if exists t :: t in text.tokens && (t in IN_CORPUS_BRANDS || t in OUT_OF_CORPUS_BRANDS) then
              brand.Some? && brand.value in text.tokens && (brand.value in IN_CORPUS_BRANDS || brand.value in OUT_OF_CORPUS_BRANDS)
            else brand.None?
  {
    PhraseScan(text, 0);
    if t :| t in text.tokens && (t in IN_CORPUS_BRANDS || t in OUT_OF_CORPUS_BRANDS) {
      assert IsBrandToken(t);
    }
  }

  /** The question, the stored facet and the gate read the same family and brand off a text. */
  lemma OneReading(text: Reading, pick: BrandPicker)
    ensures DeriveFacet(text, pick) == Facet(DetectFamily(text), DetectBrand(text, pick))
    ensures ExtractQueryScope(text, pick).family == NormalizeProduct(text, pick).family == DetectFamily(text)
    ensures ExtractQueryScope(text, pick).brand == NormalizeProduct(text, pick).brand == DetectBrand(text, pick)
  {
  }

  // --- One matcher in three places: agreement up to the brand walk ---

  /** The brands some process may report for a text. */
  ghost predicate PossibleBrand(text: Reading, brand: Option<string>) {
    var phrase := PhraseBrand(text.phrases, 0);
    if phrase.Some? then brand == phrase
    else if exists t :: t in text.tokens && IsBrandToken(t) then
      brand.Some? && brand.value in text.tokens && IsBrandToken(brand.value)
    else brand.None?
  }

  /** The text names at most one known brand, as far as the detector can tell. */
  ghost predicate OneBrand(text: Reading) {
    forall b, c :: PossibleBrand(text, b) && PossibleBrand(text, c) ==> b == c
  }

  lemma DetectedIsPossible(text: Reading, pick: BrandPicker)
    requires ValidPicker(pick)
    ensures PossibleBrand(text, DetectBrand(text, pick))
  {
  }

  /** Every possible brand of a text is what some process reports for it. */
  lemma PossibleIsDetected(text: Reading, brand: Option<string>) returns (pick: BrandPicker)
    requires PossibleBrand(text, brand)
    ensures ValidPicker(pick) && DetectBrand(text, pick) == brand
  {
    pick := (tokens: seq<string>) =>
      if tokens == text.tokens && brand.Some? && brand.value in tokens && IsBrandToken(brand.value) then brand.value
      else FirstBrand(tokens);
    forall tokens: seq<string> | exists t :: t in tokens && IsBrandToken(t)
      ensures pick(tokens) in tokens && IsBrandToken(pick(tokens))
    {
      FirstBrandFound(tokens);
    }
  }

  function FirstBrand(tokens: seq<string>): string {
    if tokens == [] then "" else if IsBrandToken(tokens[0]) then tokens[0] else FirstBrand(tokens[1..])
  }

  lemma {:induction false} FirstBrandFound(tokens: seq<string>)
    requires exists t :: t in tokens && IsBrandToken(t)
    ensures FirstBrand(tokens) in tokens && IsBrandToken(FirstBrand(tokens))
  {
    if !IsBrandToken(tokens[0]) {
      assert tokens == [tokens[0]] + tokens[1..];
      FirstBrandFound(tokens[1..]);
    }
  }

  /** The facet some ingesting process derives from the title. */
  ghost predicate DerivedFacet(title: Reading, facet: Facet) {
    exists pick: BrandPicker :: ValidPicker(pick) && facet == DeriveFacet(title, pick)
  }

  /** The stored facet penalises a title exactly when the live gate rejects it. */
  ghost predicate RankingAgreesWithGate(title: Reading, asked: ProductScope, ingest: BrandPicker, live: BrandPicker) {
    Penalised(asked, DeriveFacet(title, ingest)) <==> !ScopeMatches(asked, NormalizeProduct(title, live))
  }

  /** With one brand in the title, ingest and query processes agree on every identified question. */
  lemma PenaltyMeansRejection(title: Reading, asked: ProductScope, ingest: BrandPicker, live: BrandPicker)
    requires ValidPicker(ingest) && ValidPicker(live)
    requires asked.IsIdentified() && OneBrand(title)
    ensures RankingAgreesWithGate(title, asked, ingest, live)
  {
    DetectedIsPossible(title, ingest);
    DetectedIsPossible(title, live);
  }

  /** The agreement holds for every question and every pair of processes exactly for one-brand titles. */
  lemma AgreementNeedsOneBrand(title: Reading)
    ensures OneBrand(title) <==>
              forall asked: ProductScope, ingest: BrandPicker, live: BrandPicker ::
                asked.IsIdentified() && ValidPicker(ingest) && ValidPicker(live)
                ==> RankingAgreesWithGate(title, asked, ingest, live)
  {
    if OneBrand(title) {
      forall asked: ProductScope, ingest: BrandPicker, live: BrandPicker
        | asked.IsIdentified() && ValidPicker(ingest) && ValidPicker(live)
        ensures RankingAgreesWithGate(title, asked, ingest, live)
      {
        PenaltyMeansRejection(title, asked, ingest, live);
      }
    } else {
      var b, c :| PossibleBrand(title, b) && PossibleBrand(title, c) && b != c;
      var ingest := PossibleIsDetected(title, b);
      var live := PossibleIsDetected(title, c);
      var asked := ProductScope(None, c, 0.7);
      assert b.Some? && c.Some?;
      assert ScopeMatches(asked, NormalizeProduct(title, live));
      assert Penalised(asked, DeriveFacet(title, ingest));
      assert !RankingAgreesWithGate(title, asked, ingest, live);
    }
  }

  /**
   * Asking with a title's own words is accepted by that title, whatever the two processes' walks,
   * exactly when the title names a family or at most one brand.
   */
  lemma OwnTitleIsAccepted(title: Reading)
    ensures (DetectFamily(title).Some? || OneBrand(title)) <==>
              forall p: BrandPicker, q: BrandPicker ::
                ValidPicker(p) && ValidPicker(q) && ExtractQueryScope(title, p).IsIdentified()
                ==> ScopeMatches(ExtractQueryScope(title, p), NormalizeProduct(title, q))
  {
    if DetectFamily(title).Some? || OneBrand(title) {
      forall p: BrandPicker, q: BrandPicker
        | ValidPicker(p) && ValidPicker(q) && ExtractQueryScope(title, p).IsIdentified()
        ensures ScopeMatches(ExtractQueryScope(title, p), NormalizeProduct(title, q))
      {
        DetectedIsPossible(title, p);
        DetectedIsPossible(title, q);
      }
    } else {
      var b, c :| PossibleBrand(title, b) && PossibleBrand(title, c) && b != c;
      var p := PossibleIsDetected(title, b);
      var q := PossibleIsDetected(title, c);
      assert !ScopeMatches(ExtractQueryScope(title, p), NormalizeProduct(title, q));
    }
  }

  const TWO_BRANDS := Reading(["sram", "rockshox", "catalog"], {})

  /** A title naming two known brands and no family: some ranking disagrees with some gate, and some process rejects it when asked with its own words. */
  lemma TwoBrandTitle()
    ensures !OneBrand(TWO_BRANDS) && DetectFamily(TWO_BRANDS).None?
    ensures exists asked: ProductScope, ingest: BrandPicker, live: BrandPicker ::
              asked.IsIdentified() && ValidPicker(ingest) && ValidPicker(live)
              && !RankingAgreesWithGate(TWO_BRANDS, asked, ingest, live)
    ensures exists p: BrandPicker, q: BrandPicker ::
              ValidPicker(p) && ValidPicker(q) && ExtractQueryScope(TWO_BRANDS, p).IsIdentified()
              && !ScopeMatches(ExtractQueryScope(TWO_BRANDS, p), NormalizeProduct(TWO_BRANDS, q))
  {
    TwoBrands();
    PlainTextHasNoFamily(TWO_BRANDS);
    AgreementNeedsOneBrand(TWO_BRANDS);
    OwnTitleIsAccepted(TWO_BRANDS);
  }

  /** Words among which no surface form of a family is. */
  const PLAIN_WORDS: set<string> := {"sram", "rockshox", "catalog", "caliper", "clamp", "2012"}

  lemma NoSurface(i: nat)
    requires i < |FAMILY_TOKENS|
    ensures FAMILY_TOKENS[i].1 * PLAIN_WORDS == {}
  {
  }

  lemma {:induction false} NoFamily(text: Reading, tokens: set<string>, i: nat)
    requires i <= |FAMILY_TOKENS| && tokens <= PLAIN_WORDS
    ensures FamilyFrom(tokens, text.tokens, i).None?
    decreases |FAMILY_TOKENS| - i
  {
    if i < |FAMILY_TOKENS| {
      NoSurface(i);
      assert FAMILY_TOKENS[i].1 * tokens <= FAMILY_TOKENS[i].1 * PLAIN_WORDS;
      NoFamily(text, tokens, i + 1);
    }
  }

  lemma PlainTextHasNoFamily(text: Reading)
    requires forall t :: t in text.tokens ==> t in PLAIN_WORDS
    ensures DetectFamily(text).None?
  {
    NoFamily(text, (set t | t in text.tokens) - GENERIC_TITLE_TOKENS, 0);
  }

  lemma NoBrandAmong(t: string)
    requires t in {"catalog", "caliper", "clamp", "2012", "lyrik"}
    ensures !IsBrandToken(t)
  {
  }

  /** A text of such words without a brand names no product. */
  lemma PlainTextIsUnidentified(text: Reading, pick: BrandPicker)
    requires text.phrases == {}
    requires forall t :: t in text.tokens ==> t in {"catalog", "caliper", "clamp", "2012"}
    ensures ExtractQueryScope(text, pick) == UNIDENTIFIED && DeriveFacet(text, pick) == Facet(None, None)
  {
    PlainTextHasNoFamily(text);
    NoPhrase(0);
    forall t | t in text.tokens ensures !IsBrandToken(t) { NoBrandAmong(t); }
  }

  lemma TwoBrands()
    ensures !OneBrand(TWO_BRANDS)
  {
    var title := TWO_BRANDS;
    assert "sram" in title.tokens && "rockshox" in title.tokens;
    assert IsBrandToken("sram") && IsBrandToken("rockshox");
    NoPhrase(0);
    assert PossibleBrand(title, Some("sram")) && PossibleBrand(title, Some("rockshox"));
    assert |"sram"| != |"rockshox"|;
  }

  lemma {:induction false} NoPhrase(i: nat)
    requires i <= |BRAND_PHRASES|
    ensures PhraseBrand({}, i).None?
    decreases |BRAND_PHRASES| - i
  {
    if i < |BRAND_PHRASES| { NoPhrase(i + 1); }
  }
}
