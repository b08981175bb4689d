/** POST /v1/query: number the hits, extract, map the cited number back to its hit. */
module QueryRoute {
  import opened Prelude
  import opened ProductMatch
  import opened Corpus
  import opened HybridSearch
  import opened Extraction
  import opened Text

  const LABEL_MAX_CHARS: nat := 80

  /** Reading a page image: an HTTP failure is caught, a failure to presign its URL is not. */
  datatype Fetched = Image(png: Bytes) | HttpFailed | Raises

  /** Reads: page images, object URLs, and the module text stored for (document, anchor); None: the read raises. */
  datatype Assets = Assets(
    fetchPng: string -> Fetched, resolve: string -> Option<string>, moduleText: (int, string) -> Option<string>)

  datatype View = View(sourceType: SourceType, caption: string, score: real, sourceUrl: string, screenshot: Option<string>)

  datatype HttpResult =
    | Status(code: int)
    | Reply(text: string, toolSize: Option<string>, torque: Option<string>, confidence: real, abstained: bool,
            sourceType: Option<SourceType>, sourceUrl: Option<string>, screenshot: Option<string>, candidates: seq<View>)

  function PdfLabel(hit: Retrieved): string {
    "p. " + Decimal(hit.row.ordinal) + " of " + hit.row.title.text
  }

  function HtmlLabel(moduleText: string, title: string): string {
    var firstLine := Strip(FirstLine(Strip(moduleText)));
    Take(if firstLine != "" then firstLine else title, LABEL_MAX_CHARS)
  }

  function ModuleText(hit: Retrieved, assets: Assets): Option<string> {
    if hit.row.parentAnchor.None? then Some(hit.row.body.text)
    else
      match assets.moduleText(hit.row.document, hit.row.parentAnchor.value)
      case None => None
      case Some(text) => Some(if text == "" then hit.row.body.text else text)
  }

  /** The links of a hit; None when a URL cannot be made. */
  function SourceLinks(hit: Retrieved, assets: Assets): Option<(string, Option<string>)> {
    if hit.row.sourceType == Html then Some((hit.row.sourceUrl, None))
    else
      match assets.resolve(hit.row.documentUrl)
      case None => None
      case Some(url) =>
        var page := url + "#page=" + Decimal(hit.row.ordinal);
        if hit.row.png.None? || hit.row.png.value == "" then Some((page, None))
        else
          match assets.resolve(hit.row.png.value)
          case None => None
          case Some(screenshot) => Some((page, Some(screenshot)))
  }

  /** One numbered candidate, or the status of the failure. */
  function BuildCandidate(hit: Retrieved, index: int, assets: Assets): Result<Candidate, int> {
    if hit.row.sourceType == Pdf then
      if hit.row.png.None? then Err(500)
      else
        match assets.fetchPng(hit.row.png.value)
        case HttpFailed => Err(502)
        case Raises => Err(500)
        case Image(png) => Ok(Candidate(index, Pdf, PdfLabel(hit), Some(png), None, Some(hit.row.title)))
    else
      match ModuleText(hit, assets)
      case None => Err(500)
      case Some(text) => Ok(Candidate(index, Html, HtmlLabel(text, hit.row.title.text), None, Some(text), Some(hit.row.title)))
  }

  function ErrorStatus(error: ExtractError): int {
    match error
    case Unavailable => 503
    case Unauthorized => 503
    case UncaughtOverflow => 500
    case UncaughtDecoder => 500
    case _ => 502
  }

  /** The list sent to the extractor: hit number i + 1 for every retrieved hit i. */
  ghost predicate Numbered(sent: seq<Candidate>, retrieved: seq<Retrieved>, assets: Assets) {
    && |sent| <= |retrieved|
    && forall i :: 0 <= i < |sent| ==> BuildCandidate(retrieved[i], i + 1, assets) == Ok(sent[i])
  }

  ghost predicate Viewed(views: seq<View>, sent: seq<Candidate>, retrieved: seq<Retrieved>, assets: Assets) {
    && |views| <= |sent| == |retrieved|
    && forall i :: 0 <= i < |views| ==>
         var links := SourceLinks(retrieved[i], assets);
         && links.Some?
         && views[i] == View(retrieved[i].row.sourceType, sent[i].caption, retrieved[i].score, links.value.0, links.value.1)
  }

  /** Every hit's links can be made. */
  predicate Linkable(retrieved: seq<Retrieved>, assets: Assets) {
    forall i :: 0 <= i < |retrieved| ==> SourceLinks(retrieved[i], assets).Some?
  }

  /** What a reply may say when the extractor answered. */
  ghost predicate FaithfulReply(
    reply: HttpResult, answer: Answer, sent: seq<Candidate>, retrieved: seq<Retrieved>, assets: Assets)
  {
    && reply.Reply? && reply.text == answer.text && reply.confidence == answer.confidence
    && reply.toolSize == answer.toolSize && reply.torque == answer.torque
    && |reply.candidates| == |retrieved| && Viewed(reply.candidates, sent, retrieved, assets)
    && reply.abstained == answer.abstained
    && if answer.abstained then reply.sourceType.None? && reply.sourceUrl.None? && reply.screenshot.None?
       else
         // the cited number is the number of exactly one sent candidate, and the links are that hit's links
         && answer.sourceIndex.Some? && 1 <= answer.sourceIndex.value <= |retrieved|
         && (forall j :: 0 <= j < |sent| ==> (sent[j].index == answer.sourceIndex.value <==> j == answer.sourceIndex.value - 1))
         && var hit := retrieved[answer.sourceIndex.value - 1];
            && reply.sourceType == Some(hit.row.sourceType) && reply.sourceUrl.Some?
            && SourceLinks(hit, assets) == Some((reply.sourceUrl.value, reply.screenshot))
  }

  /** What the route does with a non-empty retrieval. */
  ghost predicate Served(
    result: HttpResult, sent: seq<Candidate>, retrieved: seq<Retrieved>, asked: ProductScope, assets: Assets,
    upstream: Upstream, env: Env)
  {
    && Numbered(sent, retrieved, assets)
    && (|sent| < |retrieved| ==>
          BuildCandidate(retrieved[|sent|], |sent| + 1, assets).Err?
          && result == Status(BuildCandidate(retrieved[|sent|], |sent| + 1, assets).error))
    && (|sent| == |retrieved| ==>
          match Extract(sent, asked, upstream, env)
          case Failed(error) => result == Status(ErrorStatus(error))
          case Answered(answer) =>
            if Linkable(retrieved, assets) then FaithfulReply(result, answer, sent, retrieved, assets)
            else result == Status(500))
  }

  method Query(
    retrieval: Option<seq<Retrieved>>, asked: ProductScope, assets: Assets, respond: seq<Candidate> -> Upstream, env: Env)
    returns (result: HttpResult, sent: seq<Candidate>)
    ensures retrieval.None? ==> result == Status(503)
    ensures retrieval == Some([]) ==> result == Status(404)
    ensures retrieval.Some? && retrieval.value != [] ==>
              Served(result, sent, retrieval.value, asked, assets, respond(sent), env)
  {
    sent := [];
    if retrieval.None? {
      return Status(503), sent;
    }
    var retrieved := retrieval.value;
    if retrieved == [] {
      return Status(404), sent;
    }
    for i := 0 to |retrieved|
      invariant |sent| == i && Numbered(sent, retrieved, assets)
    {
      match BuildCandidate(retrieved[i], i + 1, assets)
      case Err(code) => return Status(code), sent;
      case Ok(candidate) => sent := sent + [candidate];
    }
    match Extract(sent, asked, respond(sent), env)
    case Failed(error) =>
      result := Status(ErrorStatus(error));
    case Answered(answer) =>
      var views := BuildViews(sent, retrieved, assets);
      if views.None? {
        return Status(500), sent;
      }
      result := Respond(answer, views.value, sent, retrieved, asked, respond(sent), assets, env);
  }

  /** The second loop: the strict zip of hits and candidates. */
  method BuildViews(sent: seq<Candidate>, retrieved: seq<Retrieved>, assets: Assets) returns (r: Option<seq<View>>)
    requires |sent| == |retrieved|
    ensures r.Some? <==> Linkable(retrieved, assets)
    ensures r.Some? ==> |r.value| == |retrieved| && Viewed(r.value, sent, retrieved, assets)
  {
    var views: seq<View> := [];
    for i := 0 to |retrieved|
      invariant |views| == i && Viewed(views, sent, retrieved, assets)
    {
      var links := SourceLinks(retrieved[i], assets);
      if links.None? {
        return None;
      }
      views := views + [View(retrieved[i].row.sourceType, sent[i].caption, retrieved[i].score, links.value.0, links.value.1)];
    }
    r := Some(views);
  }

  /** The tail of the route: the abstention branch, then the lookup by the cited number. */
  method Respond(
    answer: Answer, views: seq<View>, sent: seq<Candidate>, retrieved: seq<Retrieved>, asked: ProductScope,
    upstream: Upstream, assets: Assets, env: Env)
    returns (reply: HttpResult)
    requires |sent| == |retrieved| == |views| && Numbered(sent, retrieved, assets) && Viewed(views, sent, retrieved, assets)
    requires Extract(sent, asked, upstream, env) == Answered(answer)
    ensures FaithfulReply(reply, answer, sent, retrieved, assets)
  {
    AnswerCites(answer, sent, retrieved, asked, upstream, assets, env);
    if answer.abstained || answer.sourceIndex.None? {
      return Reply(answer.text, answer.toolSize, answer.torque, answer.confidence, true, None, None, None, views);
    }
    var chosen := retrieved[answer.sourceIndex.value - 1];
    var view := views[answer.sourceIndex.value - 1];
    var sourceUrl, screenshot := view.sourceUrl, view.screenshot;
    if chosen.row.sourceType == Pdf && chosen.row.png.None? {
      match assets.resolve(chosen.row.documentUrl)
      case None => return Status(500);
      case Some(url) => sourceUrl, screenshot := url, None;
    }
    reply := Reply(answer.text, answer.toolSize, answer.torque, answer.confidence, false,
                   Some(chosen.row.sourceType), Some(sourceUrl), screenshot, views);
  }

  /** Numbering makes the extractor's guarantee usable as an index; an abstention has none. */
  lemma AnswerCites(
    answer: Answer, sent: seq<Candidate>, retrieved: seq<Retrieved>, asked: ProductScope, upstream: Upstream,
    assets: Assets, env: Env)
    requires |sent| == |retrieved| && Numbered(sent, retrieved, assets)
    requires Extract(sent, asked, upstream, env) == Answered(answer)
    ensures answer.abstained <==> answer.sourceIndex.None?
    ensures !answer.abstained ==>
              && 1 <= answer.sourceIndex.value <= |retrieved|
              && (forall j :: 0 <= j < |sent| ==> (sent[j].index == answer.sourceIndex.value <==> j == answer.sourceIndex.value - 1))
              && !(retrieved[answer.sourceIndex.value - 1].row.sourceType == Pdf
                   && retrieved[answer.sourceIndex.value - 1].row.png.None?)
  {
    ResponseOutcome(upstream.response, sent, asked, env);
    if !answer.abstained {
      NumberFinds(sent, retrieved, assets, answer.sourceIndex.value);
    }
  }

  /** The number of a sent candidate finds exactly the hit it was built from. */
  lemma NumberFinds(sent: seq<Candidate>, retrieved: seq<Retrieved>, assets: Assets, number: int)
    requires |sent| == |retrieved| && Numbered(sent, retrieved, assets)
    requires exists c :: c in sent && c.index == number
    ensures 1 <= number <= |retrieved|
    ensures forall j :: 0 <= j < |sent| ==> (sent[j].index == number <==> j == number - 1)
    ensures !(retrieved[number - 1].row.sourceType == Pdf && retrieved[number - 1].row.png.None?)
  {
    assert forall j :: 0 <= j < |sent| ==> sent[j].index == j + 1;
    var c :| c in sent && c.index == number;
    var j :| 0 <= j < |sent| && sent[j] == c;
    assert BuildCandidate(retrieved[j], j + 1, assets).Ok?;
  }

  /**
   * The route never asks the extractor for a PDF hit without a page image, so the document-level
   * citation fallback for such a hit is unreachable: the request has already failed.
   */
  lemma NoPageImageFailsTheRequest(retrieved: seq<Retrieved>, sent: seq<Candidate>, assets: Assets, i: nat)
    requires i < |retrieved| && retrieved[i].row.sourceType == Pdf && retrieved[i].row.png.None?
    requires Numbered(sent, retrieved, assets)
    ensures |sent| <= i
  {
    assert BuildCandidate(retrieved[i], i + 1, assets).Err?;
  }

  // --- What is sent, in terms of the hits ---

  /** Each candidate carries its hit's title, and the image stored under its hit's own key or its hit's own text. */
  lemma SentMeans(sent: seq<Candidate>, retrieved: seq<Retrieved>, assets: Assets, i: nat)
    requires Numbered(sent, retrieved, assets) && i < |sent|
    ensures var c, row := sent[i], retrieved[i].row;
            && c.index == i + 1 && c.sourceType == row.sourceType && c.title == Some(row.title)
            && (row.sourceType == Pdf ==>
                  && row.png.Some? && c.png.Some? && assets.fetchPng(row.png.value) == Image(c.png.value)
                  && c.text.None? && c.caption == "p. " + Decimal(row.ordinal) + " of " + row.title.text)
            && (row.sourceType == Html ==>
                  && c.png.None? && c.text.Some?
                  && (row.parentAnchor.None? ==> c.text == Some(row.body.text))
                  && (row.parentAnchor.Some? ==>
                        var stored := assets.moduleText(row.document, row.parentAnchor.value);
                        && stored.Some? && (stored.value != "" ==> c.text == stored)
                        && (stored.value == "" ==> c.text == Some(row.body.text)))
                  && (Strip(c.text.value) == "" ==> c.caption == Take(row.title.text, 80)))
  {
    assert BuildCandidate(retrieved[i], i + 1, assets) == Ok(sent[i]);
  }

  /** Why a hit is not sent: a PDF hit without a key, or a failing read of its image or its module text. */
  lemma SendFailure(result: HttpResult, sent: seq<Candidate>, retrieved: seq<Retrieved>, asked: ProductScope,
                    assets: Assets, upstream: Upstream, env: Env)
    requires Served(result, sent, retrieved, asked, assets, upstream, env) && |sent| < |retrieved|
    ensures var row := retrieved[|sent|].row;
            if row.sourceType == Pdf then
              if row.png.None? || assets.fetchPng(row.png.value).Raises? then result == Status(500)
              else assets.fetchPng(row.png.value).HttpFailed? && result == Status(502)
            else
              && row.parentAnchor.Some? && assets.moduleText(row.document, row.parentAnchor.value).None?
              && result == Status(500)
  {
  }

  /** The gate reads the titles of the hits themselves. */
  lemma GateOnSent(sent: seq<Candidate>, retrieved: seq<Retrieved>, asked: ProductScope, assets: Assets, pick: BrandPicker)
    requires Numbered(sent, retrieved, assets) && |sent| == |retrieved|
    ensures IsOutOfCorpus(asked, sent, pick) <==> Abstains(asked, retrieved, pick)
  {
    forall i | 0 <= i < |sent| ensures Titles(sent)[i] == RetrievedTitles(retrieved)[i] {
      SentMeans(sent, retrieved, assets, i);
    }
    assert Titles(sent) == RetrievedTitles(retrieved);
  }

  // --- What comes back ---

  /** The links of a hit: an HTML hit's own deep link, or the PDF's URL at the hit's page and the page image's URL. */
  ghost predicate LinksOf(hit: Retrieved, url: string, screenshot: Option<string>, assets: Assets) {
    if hit.row.sourceType == Html then url == hit.row.sourceUrl && screenshot == None
    else
      && assets.resolve(hit.row.documentUrl).Some?
      && url == assets.resolve(hit.row.documentUrl).value + "#page=" + Decimal(hit.row.ordinal)
      && if hit.row.png.Some? && hit.row.png.value != "" then screenshot.Some? && screenshot == assets.resolve(hit.row.png.value)
         else screenshot.None?
  }

  lemma LinksAreTheirs(hit: Retrieved, assets: Assets)
    requires SourceLinks(hit, assets).Some?
    ensures LinksOf(hit, SourceLinks(hit, assets).value.0, SourceLinks(hit, assets).value.1, assets)
  {
  }

  /** Links are missing only where a URL of a PDF or of its page image cannot be resolved; an answer then fails. */
  lemma LinkableExactly(retrieved: seq<Retrieved>, assets: Assets)
    ensures Linkable(retrieved, assets) <==>
              forall hit :: hit in retrieved && hit.row.sourceType == Pdf ==>
                && assets.resolve(hit.row.documentUrl).Some?
                && (hit.row.png.Some? && hit.row.png.value != "" ==> assets.resolve(hit.row.png.value).Some?)
  {
    assert forall i :: 0 <= i < |retrieved| ==> retrieved[i] in retrieved;
  }

  /** A linked reply links the cited hit, and every listed candidate links its own hit. */
  lemma RepliedLinks(
    reply: HttpResult, answer: Answer, sent: seq<Candidate>, retrieved: seq<Retrieved>, assets: Assets, i: nat)
    requires FaithfulReply(reply, answer, sent, retrieved, assets) && i < |retrieved|
    ensures var view := reply.candidates[i];
            && LinksOf(retrieved[i], view.sourceUrl, view.screenshot, assets)
            && view.score == retrieved[i].score && view.sourceType == retrieved[i].row.sourceType && view.caption == sent[i].caption
    ensures !answer.abstained ==>
              var hit := retrieved[answer.sourceIndex.value - 1];
              && reply.sourceUrl.Some? && LinksOf(hit, reply.sourceUrl.value, reply.screenshot, assets)
              && reply.sourceType == Some(hit.row.sourceType)
  {
    LinksAreTheirs(retrieved[i], assets);
    if !answer.abstained { LinksAreTheirs(retrieved[answer.sourceIndex.value - 1], assets); }
  }

  /**
   * A reply of the model to a fully sent list: the abstention without a link exactly when the gate rejects
   * everything retrieved, whatever the model said, or the model's object names no source; a linked reply
   * exactly when that object cites, saying what it says; else a 502, or a 500 where an exception escapes.
   */
  lemma ReplyToModel(
    result: HttpResult, sent: seq<Candidate>, retrieved: seq<Retrieved>, asked: ProductScope, assets: Assets,
    response: Response, env: Env)
    requires Served(result, sent, retrieved, asked, assets, Responded(response), env)
    requires sent != [] && |sent| == |retrieved| && Linkable(retrieved, assets)
    ensures Abstains(asked, retrieved, env.pick) ==>
              && result.Reply? && result.text == ABSTAIN_TEXT && result.toolSize.None? && result.torque.None?
              && result.confidence == 0.3 && result.abstained
              && result.sourceType.None? && result.sourceUrl.None? && result.screenshot.None?
    ensures var payload := ReadObject(response, sent, asked, env);
            && (result.Reply? && result.abstained <==>
                  Abstains(asked, retrieved, env.pick) || (payload.Some? && SaysNoSource(payload.value, env.py)))
            && (result.Reply? && !result.abstained <==> payload.Some? && Citing(payload.value, sent, env.py))
            && (result.Reply? && !result.abstained ==>
                  exists answer :: FaithfulReply(result, answer, sent, retrieved, assets) && Says(answer, payload.value, env.py))
    ensures !result.Reply? ==> result == Status(if Escapes(response, sent, asked, env) then 500 else 502)
  {
    SentIsComplete(sent, sent, retrieved, assets);
    GateOnSent(sent, retrieved, asked, assets, env.pick);
    ResponseFields(response, sent, asked, env);
    EscapesExactly(response, sent, asked, env);
    NotUpstream(response, sent, asked, env);
    var outcome := Extract(sent, asked, Responded(response), env);
    if outcome.Answered? { assert FaithfulReply(result, outcome.answer, sent, retrieved, assets); }
  }

  /** A reply of the model never counts as an unavailable service. */
  lemma NotUpstream(response: Response, sent: seq<Candidate>, asked: ProductScope, env: Env)
    ensures var outcome := ParseResponse(response, sent, asked, env);
            outcome.Failed? ==> !outcome.error.Unavailable? && !outcome.error.Unauthorized?
  {
    if ReadObject(response, sent, asked, env).Some? { PayloadVerdict(ReadObject(response, sent, asked, env).value, sent, env.py); }
  }

  /** Without a reply of the model: 503 when it is unavailable or refuses the service, 502 when it rejects the request. */
  lemma NoReplyOfModel(
    result: HttpResult, sent: seq<Candidate>, retrieved: seq<Retrieved>, asked: ProductScope, assets: Assets,
    upstream: Upstream, env: Env)
    requires Served(result, sent, retrieved, asked, assets, upstream, env) && sent != [] && |sent| == |retrieved|
    requires !upstream.Responded?
    ensures result == Status(if upstream.Malformed? then 502 else 503)
  {
    SentIsComplete(sent, sent, retrieved, assets);
  }

  /**
   * When the gate rejects everything retrieved, two replies of the model give one and the same reply of
   * the route.
   */
  lemma GateFixesTheReply(
    first: Response, second: Response, sent: seq<Candidate>, retrieved: seq<Retrieved>, asked: ProductScope,
    assets: Assets, env: Env, reply: HttpResult, other: HttpResult)
    requires sent != [] && |sent| == |retrieved| && Abstains(asked, retrieved, env.pick) && Linkable(retrieved, assets)
    requires Served(reply, sent, retrieved, asked, assets, Responded(first), env)
    requires Served(other, sent, retrieved, asked, assets, Responded(second), env)
    ensures reply == other
  {
    ReplyToModel(reply, sent, retrieved, asked, assets, first, env);
    ReplyToModel(other, sent, retrieved, asked, assets, second, env);
    SentIsComplete(sent, sent, retrieved, assets);
    GateOnSent(sent, retrieved, asked, assets, env.pick);
    assert reply.candidates == other.candidates;
  }

  /** Sent candidates are complete, so extraction never fails for a missing image or text. */
  lemma {:induction false} SentIsComplete(sent: seq<Candidate>, from: seq<Candidate>, retrieved: seq<Retrieved>, assets: Assets)
    requires Numbered(from, retrieved, assets)
    requires forall c :: c in sent ==> c in from
    ensures MissingPart(sent).None?
  {
    if sent != [] {
      assert sent[0] in from;
      var i :| 0 <= i < |from| && from[i] == sent[0];
      assert BuildCandidate(retrieved[i], i + 1, assets) == Ok(from[i]);
      SentIsComplete(sent[1..], from, retrieved, assets);
    }
  }
}
