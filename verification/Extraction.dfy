/** The extractor's answer: the deterministic abstention gate, then the parse of the model's reply. */
module Extraction {
  import opened Prelude
  import opened RankFusion
  import opened ProductMatch
  import opened Corpus
  import opened PageExpansion
  import opened DocumentRanking
  import opened HybridSearch
  import opened Json

  type Bytes = seq<bv8>

  datatype Candidate = Candidate(
    index: int, sourceType: SourceType, caption: string, png: Option<Bytes>, text: Option<string>, title: Option<Title>)

  datatype Answer = Answer(
    text: string, toolSize: Option<string>, torque: Option<string>, sourceIndex: Option<int>, confidence: real,
    abstained: bool)

  const ABSTAIN_CONFIDENCE_CEILING := 0.3
  /** Stands for the fixed message of an abstention; no result reads its words. */
  const ABSTAIN_TEXT := "no manual for that product"
  const ABSTENTION := Answer(ABSTAIN_TEXT, None, None, None, ABSTAIN_CONFIDENCE_CEILING, true)

  datatype Block = TextBlock(text: string) | OtherBlock
  datatype Response = Response(stopReason: string, content: seq<Block>)

  datatype ExtractError =
    | NoCandidates | MissingPng | MissingText
    | Unavailable | Unauthorized | Rejected
    | Truncated | Refused | EmptyResponse | NonTextBlock | InvalidJson | SchemaMismatch
    | UnknownSourceIndex | InvalidAnswer
    | UncaughtOverflow  // OverflowError is not among the exceptions the parser catches
    | UncaughtDecoder   // nor is what json.loads raises besides JSONDecodeError

  datatype Outcome = Answered(answer: Answer) | Failed(error: ExtractError)

  /** The foreign parts of an extraction: JSON text decoding (fences stripped), conversions, brand walk. */
  datatype Env = Env(decode: string -> Decoding, py: Python, pick: BrandPicker)

  // --- The gate ---

  function CandidateScope(title: Option<Title>, pick: BrandPicker): ProductScope {
    if title.Some? then NormalizeProduct(title.value.reading, pick) else UNIDENTIFIED
  }

  predicate GateFires(asked: ProductScope, titles: seq<Option<Title>>, pick: BrandPicker) {
    asked.IsIdentified()
    && forall i :: 0 <= i < |titles| ==> !ScopeMatches(asked, CandidateScope(titles[i], pick))
  }

  function Titles(candidates: seq<Candidate>): (titles: seq<Option<Title>>)
    ensures |titles| == |candidates| && forall i :: 0 <= i < |titles| ==> titles[i] == candidates[i].title
  {
    seq(|candidates|, i requires 0 <= i < |candidates| => candidates[i].title)
  }

  predicate IsOutOfCorpus(asked: ProductScope, candidates: seq<Candidate>, pick: BrandPicker) {
    GateFires(asked, Titles(candidates), pick)
  }

  // --- The parse ---

  function FindIndex(candidates: seq<Candidate>, index: int): Option<Candidate> {
    if candidates == [] then None
    else if candidates[0].index == index then Some(candidates[0])
    else FindIndex(candidates[1..], index)
  }

  function OptionalText(j: Json, py: Python): Option<string> {
    if j.Null? then None else Some(py.str(j))
  }

  function ParsePayload(fields: map<string, Json>, candidates: seq<Candidate>, py: Python): Outcome {
    if "answer" !in fields || "confidence" !in fields then Failed(SchemaMismatch)
    else
      match ToFloat(fields["confidence"], py)
      case BadValue => Failed(SchemaMismatch)
      case Overflow => Failed(UncaughtOverflow)
      case Value(confidence) =>
        var rawIndex := Get(fields, "source_index");
        if rawIndex.Null? then Answered(ABSTENTION)
        else
          match ToInt(rawIndex, py)
          case BadValue => Failed(SchemaMismatch)
          case Overflow => Failed(UncaughtOverflow)
          case Value(index) =>
            var found := FindIndex(candidates, index);
            if found.None? then Failed(UnknownSourceIndex)
            else if confidence.None? || !(0.0 <= confidence.value <= 1.0) || found.value.index < 1 then Failed(InvalidAnswer)
            else
              Answered(Answer(py.str(fields["answer"]), OptionalText(Get(fields, "tool_size"), py),
                              OptionalText(Get(fields, "torque"), py), Some(found.value.index), confidence.value, false))
  }

  function ParseResponse(response: Response, candidates: seq<Candidate>, asked: ProductScope, env: Env): Outcome {
    if IsOutOfCorpus(asked, candidates, env.pick) then Answered(ABSTENTION)
    else if response.stopReason == "max_tokens" then Failed(Truncated)
    else if response.stopReason == "refusal" then Failed(Refused)
    else if response.content == [] then Failed(EmptyResponse)
    else if !response.content[0].TextBlock? then Failed(NonTextBlock)
    else
      match env.decode(response.content[0].text)
      case NotJson => Failed(InvalidJson)
      case Breaks => Failed(UncaughtDecoder)
      case Decoded(payload) =>
        if !payload.Obj? then Failed(SchemaMismatch) else ParsePayload(payload.fields, candidates, env.py)
  }

  /** What the call to the model came back with. */
  datatype Upstream = Outage | Denied | Malformed | Responded(response: Response)

  function MissingPart(candidates: seq<Candidate>): Option<ExtractError> {
    if candidates == [] then None
    else if candidates[0].sourceType == Pdf && candidates[0].png.None? then Some(MissingPng)
    else if candidates[0].sourceType == Html && candidates[0].text.None? then Some(MissingText)
    else MissingPart(candidates[1..])
  }

  function Extract(candidates: seq<Candidate>, asked: ProductScope, upstream: Upstream, env: Env): Outcome {
    if candidates == [] then Failed(NoCandidates)
    else if MissingPart(candidates).Some? then Failed(MissingPart(candidates).value)
    else
      match upstream
      case Outage => Failed(Unavailable)
      case Denied => Failed(Unauthorized)
      case Malformed => Failed(Rejected)
      case Responded(response) => ParseResponse(response, candidates, asked, env)
  }

  // --- Citation soundness ---

  lemma {:induction false} FindIndexFinds(candidates: seq<Candidate>, index: int)
    ensures FindIndex(candidates, index).Some? <==> exists c :: c in candidates && c.index == index
    ensures FindIndex(candidates, index).Some? ==>
              FindIndex(candidates, index).value in candidates && FindIndex(candidates, index).value.index == index
  {
    if candidates != [] {
      FindIndexFinds(candidates[1..], index);
      assert candidates == [candidates[0]] + candidates[1..];
    }
  }

  /** When the gate fires every reply of the model is the same abstention. */
  lemma GateIgnoresModel(first: Response, second: Response, candidates: seq<Candidate>, asked: ProductScope, env: Env)
    requires IsOutOfCorpus(asked, candidates, env.pick)
    ensures ParseResponse(first, candidates, asked, env) == ParseResponse(second, candidates, asked, env) == Answered(ABSTENTION)
  {
  }

  /** An answer the caller may link: not abstained, its index names a supplied candidate. */
  ghost predicate Cites(answer: Answer, candidates: seq<Candidate>) {
    && !answer.abstained && answer.sourceIndex.Some? && answer.sourceIndex.value >= 1
    && (exists c :: c in candidates && c.index == answer.sourceIndex.value)
    && 0.0 <= answer.confidence <= 1.0
  }

  /** A payload whose conversions succeed and whose index names a candidate. */
  ghost predicate Citing(fields: map<string, Json>, candidates: seq<Candidate>, py: Python) {
    && "answer" in fields && "confidence" in fields
    && ToFloat(fields["confidence"], py).Value? && ToFloat(fields["confidence"], py).v.Some?
    && 0.0 <= ToFloat(fields["confidence"], py).v.value <= 1.0
    && !Get(fields, "source_index").Null? && ToInt(Get(fields, "source_index"), py).Value?
    && ToInt(Get(fields, "source_index"), py).v >= 1
    && exists c :: c in candidates && c.index == ToInt(Get(fields, "source_index"), py).v
  }

  /** Each parsed payload is an error, the abstention, or a citing answer; and it cites exactly when it can. */
  lemma PayloadOutcome(fields: map<string, Json>, candidates: seq<Candidate>, py: Python)
    ensures var outcome := ParsePayload(fields, candidates, py);
            && (outcome.Answered? ==> outcome.answer == ABSTENTION || Cites(outcome.answer, candidates))
            && ((outcome.Answered? && !outcome.answer.abstained) <==> Citing(fields, candidates, py))
            && (Citing(fields, candidates, py) ==>
                  outcome.answer.sourceIndex == Some(ToInt(Get(fields, "source_index"), py).v))
  {
    match ToInt(Get(fields, "source_index"), py)
    case Value(index) => FindIndexFinds(candidates, index);
    case _ =>
  }

  /** The string a payload field gives an answer: nothing if it is missing or null, else its str(). */
  ghost predicate FieldIs(value: Option<string>, fields: map<string, Json>, key: string, py: Python) {
    && (value.None? <==> key !in fields || fields[key] == Null)
    && (value.Some? ==> value.value == py.str(fields[key]))
  }

  /** The answer says what the payload says: each part under its own key. */
  ghost predicate Says(answer: Answer, fields: map<string, Json>, py: Python) {
    && "answer" in fields && "confidence" in fields && "source_index" in fields
    && answer.text == py.str(fields["answer"])
    && FieldIs(answer.toolSize, fields, "tool_size", py) && FieldIs(answer.torque, fields, "torque", py)
    && ToFloat(fields["confidence"], py) == Value(Some(answer.confidence))
    && answer.sourceIndex.Some? && ToInt(fields["source_index"], py) == Value(answer.sourceIndex.value)
    && !answer.abstained
  }

  /** The fields every payload needs are there and the confidence is a number. */
  ghost predicate Readable(fields: map<string, Json>, py: Python) {
    "answer" in fields && "confidence" in fields && ToFloat(fields["confidence"], py).Value?
  }

  /** The model itself found no source. */
  ghost predicate SaysNoSource(fields: map<string, Json>, py: Python) {
    Readable(fields, py) && ("source_index" !in fields || fields["source_index"] == Null)
  }

  /** The index a readable payload names, if it converts. */
  ghost predicate Names(fields: map<string, Json>, index: int, py: Python) {
    && Readable(fields, py) && "source_index" in fields && fields["source_index"] != Null
    && ToInt(fields["source_index"], py) == Value(index)
  }

  ghost predicate IsSupplied(candidates: seq<Candidate>, index: int) {
    exists c :: c in candidates && c.index == index
  }

  /**
   * How a payload that does not cite ends: the abstention exactly when it names no source, an unknown
   * index exactly when it names one that was not supplied, an invalid answer exactly when the index was
   * supplied but it or the confidence is out of range; all else is a mismatch or an overflow.
   */
  lemma PayloadVerdict(fields: map<string, Json>, candidates: seq<Candidate>, py: Python)
    ensures var outcome := ParsePayload(fields, candidates, py);
            && (outcome == Answered(ABSTENTION) <==> SaysNoSource(fields, py))
            && (outcome == Failed(UnknownSourceIndex) <==>
                  exists index :: Names(fields, index, py) && !IsSupplied(candidates, index))
            && (outcome == Failed(InvalidAnswer) <==>
                  && !Citing(fields, candidates, py)
                  && exists index :: Names(fields, index, py) && IsSupplied(candidates, index))
            && (outcome.Failed? ==>
                  outcome.error in {SchemaMismatch, UnknownSourceIndex, InvalidAnswer, UncaughtOverflow})
  {
    PayloadOutcome(fields, candidates, py);
    match ToInt(Get(fields, "source_index"), py)
    case Value(index) =>
      FindIndexFinds(candidates, index);
      assert Readable(fields, py) && !Get(fields, "source_index").Null? ==> Names(fields, index, py);
    case _ =>
  }

  /** A citing payload is answered with exactly what it says. */
  lemma PayloadFields(fields: map<string, Json>, candidates: seq<Candidate>, py: Python)
    requires Citing(fields, candidates, py)
    ensures ParsePayload(fields, candidates, py).Answered? && Says(ParsePayload(fields, candidates, py).answer, fields, py)
  {
    PayloadOutcome(fields, candidates, py);
    FindIndexFinds(candidates, ToInt(fields["source_index"], py).v);
  }

  /** The object a reply that is read decodes to, if any. */
  ghost function ReadObject(response: Response, candidates: seq<Candidate>, asked: ProductScope, env: Env): Option<map<string, Json>> {
    if !IsRead(response, candidates, asked, env.pick) then None
    else
      match env.decode(response.content[0].text)
      case Decoded(Obj(fields)) => Some(fields)
      case _ => None
  }

  /**
   * A whole reply cites exactly when it is read, decodes to an object, and that object cites; it then says
   * what the object says. It abstains exactly when the gate fires or that object names no source.
   */
  lemma ResponseFields(response: Response, candidates: seq<Candidate>, asked: ProductScope, env: Env)
    ensures var outcome, payload := ParseResponse(response, candidates, asked, env), ReadObject(response, candidates, asked, env);
            && (outcome.Answered? && !outcome.answer.abstained <==> payload.Some? && Citing(payload.value, candidates, env.py))
            && (outcome.Answered? && !outcome.answer.abstained ==> Says(outcome.answer, payload.value, env.py))
            && (outcome == Answered(ABSTENTION) <==>
                  IsOutOfCorpus(asked, candidates, env.pick) || (payload.Some? && SaysNoSource(payload.value, env.py)))
            && (outcome.Answered? && outcome.answer.abstained ==> outcome.answer == ABSTENTION)
  {
    if IsRead(response, candidates, asked, env.pick) {
      match env.decode(response.content[0].text)
      case Decoded(Obj(fields)) =>
        PayloadOutcome(fields, candidates, env.py);
        PayloadVerdict(fields, candidates, env.py);
        if Citing(fields, candidates, env.py) { PayloadFields(fields, candidates, env.py); }
      case _ =>
    }
  }

  /** A candidate list is complete exactly when every PDF has its image and every publication its text. */
  lemma {:induction false} MissingPartExactly(candidates: seq<Candidate>)
    ensures MissingPart(candidates).None? <==>
              forall c :: c in candidates ==> (c.sourceType == Pdf ==> c.png.Some?) && (c.sourceType == Html ==> c.text.Some?)
    ensures MissingPart(candidates) in {None, Some(MissingPng), Some(MissingText)}
  {
    if candidates != [] {
      MissingPartExactly(candidates[1..]);
      assert candidates == [candidates[0]] + candidates[1..];
    }
  }

  /** Every reply ends in an error, the abstention without an index, or an answer citing a candidate. */
  lemma ResponseOutcome(response: Response, candidates: seq<Candidate>, asked: ProductScope, env: Env)
    ensures var outcome := ParseResponse(response, candidates, asked, env);
            outcome.Answered? ==> outcome.answer == ABSTENTION || Cites(outcome.answer, candidates)
  {
    if response.content != [] && response.content[0].TextBlock? {
      match env.decode(response.content[0].text)
      case Decoded(Obj(fields)) => PayloadOutcome(fields, candidates, env.py);
      case _ =>
    }
  }

  // --- What escapes the parser ---

  /** A conversion overflows: the confidence is an int too large for a float, or it converts and the index is infinite. */
  predicate Overflows(fields: map<string, Json>, py: Python) {
    && "answer" in fields && "confidence" in fields
    && ((fields["confidence"].Int? && py.tooLarge(fields["confidence"].n))
        || (ToFloat(fields["confidence"], py).Value? && Get(fields, "source_index") == NotFinite(false)))
  }

  /** The reply is read: the gate does not fire, the stop reason is good, and the first block is text. */
  predicate IsRead(response: Response, candidates: seq<Candidate>, asked: ProductScope, pick: BrandPicker) {
    && !IsOutOfCorpus(asked, candidates, pick) && response.stopReason !in ["max_tokens", "refusal"]
    && response.content != [] && response.content[0].TextBlock?
  }

  lemma OverflowExactly(fields: map<string, Json>, candidates: seq<Candidate>, py: Python)
    ensures ParsePayload(fields, candidates, py) == Failed(UncaughtOverflow) <==> Overflows(fields, py)
    ensures ParsePayload(fields, candidates, py) != Failed(UncaughtDecoder)
  {
  }

  /** What lets an exception other than an ExtractionError out of the parser. */
  ghost predicate Escapes(response: Response, candidates: seq<Candidate>, asked: ProductScope, env: Env) {
    && IsRead(response, candidates, asked, env.pick)
    && match env.decode(response.content[0].text)
       case Breaks => true
       case Decoded(Obj(fields)) => Overflows(fields, env.py)
       case _ => false
  }

  /**
   * An exception other than an ExtractionError escapes the parser exactly when a reply that is read makes
   * the decoder raise something else than a JSONDecodeError, or is an object with an overflowing conversion.
   */
  lemma EscapesExactly(response: Response, candidates: seq<Candidate>, asked: ProductScope, env: Env)
    ensures var outcome := ParseResponse(response, candidates, asked, env);
            outcome.Failed? && (outcome.error.UncaughtOverflow? || outcome.error.UncaughtDecoder?) <==>
              Escapes(response, candidates, asked, env)
  {
    if IsRead(response, candidates, asked, env.pick) {
      match env.decode(response.content[0].text)
      case Decoded(Obj(fields)) => OverflowExactly(fields, candidates, env.py);
      case _ =>
    }
  }

  /** An int confidence past the largest float escapes whatever the index is. */
  lemma HugeConfidenceEscapes(candidates: seq<Candidate>, py: Python, n: int, index: Json)
    requires py.tooLarge(n)
    ensures var fields := map["answer" := Str("5 mm"), "confidence" := Int(n), "source_index" := index];
            ParsePayload(fields, candidates, py) == Failed(UncaughtOverflow)
  {
  }

  /** An infinite index is JSON the decoder accepts, and its conversion error escapes the parser. */
  lemma InfiniteIndexEscapes(candidates: seq<Candidate>, py: Python)
    ensures var fields := map["answer" := Str("5 mm"), "confidence" := Real(0.9), "source_index" := NotFinite(false)];
            ParsePayload(fields, candidates, py) == Failed(UncaughtOverflow)
  {
  }

  // --- The gate behind retrieval ---

  function RetrievedTitles(retrieved: seq<Retrieved>): (titles: seq<Option<Title>>)
    ensures |titles| == |retrieved| && forall i :: 0 <= i < |titles| ==> titles[i] == Some(retrieved[i].row.title)
  {
    seq(|retrieved|, i requires 0 <= i < |retrieved| => Some(retrieved[i].row.title))
  }

  predicate Abstains(asked: ProductScope, retrieved: seq<Retrieved>, pick: BrandPicker) {
    GateFires(asked, RetrievedTitles(retrieved), pick)
  }

  /** The titles a question rejects. */
  predicate Rejects(asked: ProductScope, title: Title, pick: BrandPicker) {
    !ScopeMatches(asked, NormalizeProduct(title.reading, pick))
  }

  lemma AbstainsMeansAllRejected(asked: ProductScope, retrieved: seq<Retrieved>, pick: BrandPicker)
    ensures Abstains(asked, retrieved, pick)
            <==> asked.IsIdentified() && forall e :: e in retrieved ==> Rejects(asked, e.row.title, pick)
  {
    var titles := RetrievedTitles(retrieved);
    forall i | 0 <= i < |retrieved|
      ensures CandidateScope(titles[i], pick) == NormalizeProduct(retrieved[i].row.title.reading, pick)
    {
    }
    if asked.IsIdentified() && forall e :: e in retrieved ==> Rejects(asked, e.row.title, pick) {
      forall i | 0 <= i < |titles| ensures !ScopeMatches(asked, CandidateScope(titles[i], pick)) {
        assert retrieved[i] in retrieved;
      }
    }
    if Abstains(asked, retrieved, pick) {
      forall e | e in retrieved ensures Rejects(asked, e.row.title, pick) {
        var i :| 0 <= i < |retrieved| && retrieved[i] == e;
        assert !ScopeMatches(asked, CandidateScope(titles[i], pick));
      }
    }
  }

  /** Adding candidates never turns an answer into an abstention. */
  lemma MoreCandidatesNeverAbstain(asked: ProductScope, some: seq<Option<Title>>, more: seq<Option<Title>>, pick: BrandPicker)
    requires GateFires(asked, some + more, pick)
    ensures GateFires(asked, some, pick)
  {
    assert forall i :: 0 <= i < |some| ==> (some + more)[i] == some[i];
  }

  /** The kept base, as it would be sent without the injected pages. */
  function KeptBase(r: Request): seq<Retrieved> {
    Hydrate(Take(FinalBase(r), r.budget), r.rows)
  }

  /**
   * What page expansion does to the verdict: the gate fires on the expanded list exactly when it fires
   * on the kept base and, if pages were injected, the leading document's title is rejected as well.
   */
  lemma ExpansionVerdict(r: Request, pages: seq<Page>, pick: BrandPicker)
    requires WellFormed(r.rows) && IsNeighborAnswer(r, pages)
    ensures var asked, all, kept := r.question.asked, Search(r, pages), KeptBase(r);
            Abstains(asked, all, pick)
            <==> Abstains(asked, kept, pick)
                 && (|all| > |kept| ==> Expands(r) && Rejects(asked, LeaderRow(r).title, pick))
  {
    var asked, all, kept := r.question.asked, Search(r, pages), KeptBase(r);
    AbstainsMeansAllRejected(asked, all, pick);
    AbstainsMeansAllRejected(asked, kept, pick);
    var extra := InjectedTail(r, pages);
    forall e | e in all ensures e in kept || (e in extra && Expands(r) && e.row.title == LeaderRow(r).title) {
      if e !in kept { assert e in extra; }
    }
    forall e | e in kept ensures e in all {}
    if |all| > |kept| {
      assert extra[0] in extra && extra[0] in all;
    }
  }

  /** The retrieved list is the kept base followed by pages of the leading document. */
  lemma InjectedTail(r: Request, pages: seq<Page>) returns (extra: seq<Retrieved>)
    requires WellFormed(r.rows) && IsNeighborAnswer(r, pages)
    ensures Search(r, pages) == KeptBase(r) + extra
    ensures forall e :: e in extra ==> Expands(r) && e.row.title == LeaderRow(r).title
  {
    var kept, hits := Take(FinalBase(r), r.budget), Candidates(r, pages);
    CandidatesStartWithBase(r, pages);
    var tail := hits[|kept|..];
    assert hits == kept + tail;
    HydrateAppend(kept, tail, r.rows);
    extra := Hydrate(tail, r.rows);
    HydrateContents(tail, r.rows);
    if Expands(r) {
      var row, score := LeaderRow(r), Leader(r).value.score;
      forall e | e in extra ensures e.row.title == row.title {
        var i :| 0 <= i < |tail| && tail[i] == Hit(e.chunk, e.score);
        InjectedPages(FinalBase(r), pages, row.ordinal, score, r.budget, |kept| + i);
        assert InWindow(r.rows, e.chunk, row.document, row.ordinal, r.window);
      }
    }
  }

  /** If the leading document already has a page in the kept base, expansion cannot change the verdict. */
  lemma ExpansionKeepsVerdict(r: Request, pages: seq<Page>, pick: BrandPicker, page: Hit)
    requires WellFormed(r.rows) && IsNeighborAnswer(r, pages) && Expands(r)
    requires page in Take(FinalBase(r), r.budget) && Owned(page, r.rows, LeaderRow(r).document)
    ensures Abstains(r.question.asked, Search(r, pages), pick) <==> Abstains(r.question.asked, KeptBase(r), pick)
  {
    ExpansionVerdict(r, pages, pick);
    AbstainsMeansAllRejected(r.question.asked, KeptBase(r), pick);
    HydrateContents(Take(FinalBase(r), r.budget), r.rows);
    assert Entry(page, r.rows) in KeptBase(r);
    assert Entry(page, r.rows).row.title == LeaderRow(r).title;
  }

  /** Rows with one-brand titles, each stored by some ingesting process with the facet it derived from the title. */
  ghost predicate FacetsDerived(retrieved: seq<Retrieved>) {
    forall e :: e in retrieved ==> OneBrand(e.row.title.reading) && DerivedFacet(e.row.title.reading, e.row.facet)
  }

  /** The gate fires exactly when the question is identified and ranking penalised every candidate. */
  lemma GateIsTotalPenalty(asked: ProductScope, retrieved: seq<Retrieved>, live: BrandPicker)
    requires ValidPicker(live) && FacetsDerived(retrieved)
    ensures Abstains(asked, retrieved, live)
            <==> asked.IsIdentified() && forall e :: e in retrieved ==> Penalised(asked, e.row.facet)
  {
    AbstainsMeansAllRejected(asked, retrieved, live);
    if asked.IsIdentified() {
      forall e | e in retrieved ensures Rejects(asked, e.row.title, live) <==> Penalised(asked, e.row.facet) {
        var ingest :| ValidPicker(ingest) && e.row.facet == DeriveFacet(e.row.title.reading, ingest);
        PenaltyMeansRejection(e.row.title.reading, asked, ingest, live);
      }
    }
  }

  /** An out-of-corpus brand asked without a family is refused unless a title is product blind or names that brand. */
  lemma ForeignBrandIsRefused(asked: ProductScope, retrieved: seq<Retrieved>, pick: BrandPicker)
    requires asked.family.None? && asked.brand.Some?
    ensures Abstains(asked, retrieved, pick) <==>
              forall e :: e in retrieved ==>
                var scope := NormalizeProduct(e.row.title.reading, pick);
                scope.IsIdentified() && scope.brand != asked.brand
  {
    AbstainsMeansAllRejected(asked, retrieved, pick);
    forall e | e in retrieved
      ensures var scope := NormalizeProduct(e.row.title.reading, pick);
              Rejects(asked, e.row.title, pick) <==> scope.IsIdentified() && scope.brand != asked.brand
    {
      ScopeMatchesExactly(asked, NormalizeProduct(e.row.title.reading, pick));
    }
  }
}
