/** Ingestion of one publication: fetch, parse, embed, replace the chunks, flip the status. */
module HtmlPipeline {
  import opened Prelude
  import opened ProductMatch
  import opened Corpus
  import opened Embedder
  import opened Json
  import opened Tables
  import opened Store
  import opened Registry
  import opened HtmlParser

  /** One attempt: what each foreign call comes back with. */
  datatype HtmlJob = HtmlJob(fetched: bool, page: Page, embedded: Option<seq<Vector>>, server: Server)

  /** Foreign text functions of the ingesting process. */
  datatype HtmlEnv = HtmlEnv(tools: Tools, analyse: string -> Title, pick: BrandPicker)

  /** The content of the n-th chunk. */
  function ChunkContent(parsed: Parsed, embedded: seq<Vector>, n: int, now: int): Content
    requires 1 <= n <= |parsed.chunks| == |embedded|
  {
    var c := parsed.chunks[n - 1];
    Content(c.text, embedded[n - 1], None, c.anchor, c.parentAnchor, c.sourceUrl, now)
  }

  /** The first n chunks by ordinal. */
  function HtmlPlan(parsed: Parsed, embedded: seq<Vector>, n: nat, now: int): map<int, Content>
    requires n <= |parsed.chunks| == |embedded|
  {
    map o: int | 1 <= o <= n :: ChunkContent(parsed, embedded, o, now)
  }

  /** The insert loop over the first n chunks. */
  function ChunksInserted(db: Db, server: Server, document: int, parsed: Parsed, embedded: seq<Vector>, n: nat, now: int): (bool, Db)
    requires n <= |parsed.chunks| == |embedded|
  {
    if n == 0 then (true, db)
    else
      var (ok, mid) := ChunksInserted(db, server, document, parsed, embedded, n - 1, now);
      if !ok then (false, mid)
      else
        match TryInsert(mid, server, document, parsed.chunks[n - 1].ordinal, ChunkContent(parsed, embedded, n, now))
        case Err(_) => (false, mid)
        case Ok(next) => (true, next)
  }

  function TitleOf(parsed: Parsed, pub: PubRow, env: HtmlEnv): Title {
    env.analyse(if parsed.title != "" then parsed.title else pub.details.title)
  }

  /** From the emptied document to the end: the inserts and the status flip. */
  function FillDocument(
    db: Db, server: Server, pubId: string, document: int, parsed: Parsed, embedded: seq<Vector>, now: int): (Outcome, Db)
    requires |parsed.chunks| == |embedded|
  {
    var (ok, after) := ChunksInserted(db, server, document, parsed, embedded, |parsed.chunks|, now);
    if !ok then (Crashed, after)
    else
      match TryStatus(after, server, pubId, Tables.Ingested)
      case Err(NotFound) => (Refused, after)
      case Err(_) => (Crashed, after)
      case Ok(done) => (Done(pubId), done)
  }

  /** The writes, once everything has been fetched, parsed and embedded. */
  function StoreParsed(
    db: Db, server: Server, pubId: string, pub: PubRow, parsed: Parsed, embedded: seq<Vector>, now: int, env: HtmlEnv)
    : (Outcome, Db)
    requires |parsed.chunks| == |embedded|
  {
    match TryUpsert(db, server, Html, TitleOf(parsed, pub, env), pub.details.sourceUrl, pubId, now, env.pick)
    case Err(SourceTypeMismatch) => (Refused, db)
    case Err(_) => (Crashed, db)
    case Ok(mid) =>
      var id := mid.documents[pubId].id;
      if !Runs(server, DropChunks(id)) then (Crashed, mid)
      else FillDocument(DeleteChunks(mid, id), server, pubId, id, parsed, embedded, now)
  }

  function HtmlAttempt(db: Db, pubId: string, pub: PubRow, job: HtmlJob, now: int, env: HtmlEnv): (Outcome, Db) {
    if !job.fetched then (Refused, db)
    else
      match Parse(job.page, pub.details.sourceUrl, env.tools)
      case Malformed => (Refused, db)
      case Raised => (Crashed, db)
      case Success(parsed) =>
        if parsed.chunks == [] then (Refused, db)
        else if job.embedded.None? || |job.embedded.value| != |parsed.chunks| then (Refused, db)
        else StoreParsed(db, job.server, pubId, pub, parsed, job.embedded.value, now, env)
  }

  class HtmlIngestionPipeline {
    const repo: Repository
    const registry: PublicationRegistry
    const env: HtmlEnv

    constructor (repo: Repository, registry: PublicationRegistry, env: HtmlEnv)
      ensures this.repo == repo && this.registry == registry && this.env == env
    {
      this.repo := repo;
      this.registry := registry;
      this.env := env;
    }

    /** Repository and registry share the session, and the repository derives facets with the same matcher. */
    ghost predicate Wired() {
      registry.session == repo.session && repo.pick == env.pick
    }

    method IngestPublication(pubId: string, pub: PubRow, job: HtmlJob) returns (outcome: Outcome)
      requires Wired() && repo.session.server == job.server
      modifies repo.session
      ensures repo.session.committed == old(repo.session.committed)
      ensures (outcome, repo.session.working)
           == HtmlAttempt(old(repo.session.working), pubId, pub, job, repo.session.now, env)
    {
      if !job.fetched {
        return Refused;
      }
      var parse := ParsePublication(job.page, pub.details.sourceUrl, env.tools);
      if parse.Malformed? {
        return Refused;
      }
      if parse.Raised? {
        return Crashed;
      }
      var parsed := parse.parsed;
      if parsed.chunks == [] || job.embedded.None? || |job.embedded.value| != |parsed.chunks| {
        return Refused;
      }
      outcome := StoreChunks(pubId, pub, parsed, job.embedded.value);
    }

    method StoreChunks(pubId: string, pub: PubRow, parsed: Parsed, embedded: seq<Vector>) returns (outcome: Outcome)
      requires Wired() && |parsed.chunks| == |embedded|
      modifies repo.session
      ensures repo.session.committed == old(repo.session.committed)
      ensures (outcome, repo.session.working)
           == StoreParsed(old(repo.session.working), repo.session.server, pubId, pub, parsed, embedded, repo.session.now, env)
    {
      var document := repo.UpsertDocument(Html, TitleOf(parsed, pub, env), pub.details.sourceUrl, pubId);
      if document.Err? {
        return if document.error.SourceTypeMismatch? then Refused else Crashed;
      }
      var id := document.value.id;
      var deleted := repo.DeleteChunks(id);
      if deleted.Err? {
        return Crashed;
      }
      outcome := Fill(pubId, id, parsed, embedded);
    }

    /** The insert loop and the status flip. */
    method Fill(pubId: string, document: int, parsed: Parsed, embedded: seq<Vector>) returns (outcome: Outcome)
      requires Wired() && |parsed.chunks| == |embedded|
      modifies repo.session
      ensures repo.session.committed == old(repo.session.committed)
      ensures (outcome, repo.session.working)
           == FillDocument(old(repo.session.working), repo.session.server, pubId, document, parsed, embedded, repo.session.now)
    {
      var ok := InsertAll(document, parsed, embedded);
      if !ok {
        return Crashed;
      }
      var flipped := registry.SetStatus(pubId, Tables.Ingested);
      outcome := if flipped.Ok? then Done(pubId) else if flipped.error.NotFound? then Refused else Crashed;
    }

    method InsertAll(document: int, parsed: Parsed, embedded: seq<Vector>) returns (ok: bool)
      requires |parsed.chunks| == |embedded|
      modifies repo.session
      ensures repo.session.committed == old(repo.session.committed)
      ensures (ok, repo.session.working)
           == ChunksInserted(old(repo.session.working), repo.session.server, document, parsed, embedded, |parsed.chunks|, repo.session.now)
    {
      ghost var start, server := repo.session.working, repo.session.server;
      ok := true;
      for i := 0 to |parsed.chunks|
        invariant repo.session.committed == old(repo.session.committed)
        invariant ok && ChunksInserted(start, server, document, parsed, embedded, i, repo.session.now) == (true, repo.session.working)
      {
        var r := repo.InsertChunk(document, parsed.chunks[i].ordinal, ChunkContent(parsed, embedded, i + 1, repo.session.now));
        if r.Err? {
          ok := false;
          ChunksInsertedStop(start, server, document, parsed, embedded, i + 1, |parsed.chunks|, repo.session.now);
          return;
        }
      }
    }
  }

  lemma {:induction false} ChunksInsertedStop(
    db: Db, server: Server, document: int, parsed: Parsed, embedded: seq<Vector>, m: nat, n: nat, now: int)
    requires m <= n <= |parsed.chunks| == |embedded| && !ChunksInserted(db, server, document, parsed, embedded, m, now).0
    ensures ChunksInserted(db, server, document, parsed, embedded, n, now)
            == ChunksInserted(db, server, document, parsed, embedded, m, now)
  {
    if m < n { ChunksInsertedStop(db, server, document, parsed, embedded, m, n - 1, now); }
  }

  // --- What an ingest leaves behind ---

  /** Ordinals as the parser gives them. */
  ghost predicate NumberedFromOne(parsed: Parsed) {
    forall i :: 0 <= i < |parsed.chunks| ==> parsed.chunks[i].ordinal == i + 1
  }

  lemma ParseNumbers(page: Page, base: string, tools: Tools)
    ensures Parse(page, base, tools).Success? ==> NumberedFromOne(Parse(page, base, tools).parsed)
  {
  }

  /** The inserts of the first n chunks get through. */
  ghost predicate InsertsRun(server: Server, document: int, parsed: Parsed, embedded: seq<Vector>, n: nat, now: int)
    requires n <= |parsed.chunks| == |embedded|
  {
    n == 0 || (InsertsRun(server, document, parsed, embedded, n - 1, now)
               && Runs(server, WriteChunk(document, n, ChunkContent(parsed, embedded, n, now))))
  }

  lemma {:induction false} InsertsRunMeans(server: Server, document: int, parsed: Parsed, embedded: seq<Vector>, n: nat, now: int)
    requires n <= |parsed.chunks| == |embedded|
    ensures InsertsRun(server, document, parsed, embedded, n, now) <==>
              forall o :: 1 <= o <= n ==> Runs(server, WriteChunk(document, o, ChunkContent(parsed, embedded, o, now)))
  {
    if n > 0 { InsertsRunMeans(server, document, parsed, embedded, n - 1, now); }
  }

  /** With ordinals 1..n into an emptied document an insertion fails only for a statement that raises. */
  lemma {:induction false} InsertsStorePlan(
    db: Db, server: Server, ref: string, parsed: Parsed, embedded: seq<Vector>, n: nat, now: int)
    requires Sound(db) && ref in db.documents && db.documents[ref].sourceType == Html
    requires HasChunks(db, db.documents[ref].id, map[])
    requires NumberedFromOne(parsed) && n <= |parsed.chunks| == |embedded|
    ensures var id := db.documents[ref].id;
            var (ok, after) := ChunksInserted(db, server, id, parsed, embedded, n, now);
            && (ok <==> InsertsRun(server, id, parsed, embedded, n, now))
            && SameDocuments(db, after)
            && (ok ==> StoredPlan(db, after, id, HtmlPlan(parsed, embedded, n, now)))
  {
    if n == 0 {
      assert HtmlPlan(parsed, embedded, 0, now) == map[];
    } else {
      InsertsStorePlan(db, server, ref, parsed, embedded, n - 1, now);
      LastInsertStores(db, server, ref, parsed, embedded, n, now);
    }
  }

  lemma LastInsertStores(db: Db, server: Server, ref: string, parsed: Parsed, embedded: seq<Vector>, n: nat, now: int)
    requires ref in db.documents && db.documents[ref].sourceType == Html && NumberedFromOne(parsed)
    requires 1 <= n <= |parsed.chunks| == |embedded|
    requires var (ok, mid) := ChunksInserted(db, server, db.documents[ref].id, parsed, embedded, n - 1, now);
             && SameDocuments(db, mid)
             && (ok ==> StoredPlan(db, mid, db.documents[ref].id, HtmlPlan(parsed, embedded, n - 1, now)))
    ensures var id := db.documents[ref].id;
            var before, (ok, after) :=
              ChunksInserted(db, server, id, parsed, embedded, n - 1, now).0, ChunksInserted(db, server, id, parsed, embedded, n, now);
            && (ok <==> before && Runs(server, WriteChunk(id, n, ChunkContent(parsed, embedded, n, now))))
            && SameDocuments(db, after)
            && (ok ==> StoredPlan(db, after, id, HtmlPlan(parsed, embedded, n, now)))
  {
    var id, content := db.documents[ref].id, ChunkContent(parsed, embedded, n, now);
    var (ok, mid) := ChunksInserted(db, server, id, parsed, embedded, n - 1, now);
    InsertUnfolds(db, server, id, parsed, embedded, n, now);
    if ok {
      NextInsertStores(db, mid, ref, parsed, embedded, n, now);
    }
  }

  lemma InsertUnfolds(db: Db, server: Server, document: int, parsed: Parsed, embedded: seq<Vector>, n: nat, now: int)
    requires 1 <= n <= |parsed.chunks| == |embedded| && parsed.chunks[n - 1].ordinal == n
    ensures var (ok, mid) := ChunksInserted(db, server, document, parsed, embedded, n - 1, now);
            var content := ChunkContent(parsed, embedded, n, now);
            var next := InsertChunk(mid, document, n, content);
            ChunksInserted(db, server, document, parsed, embedded, n, now)
            == if ok && Runs(server, WriteChunk(document, n, content)) && next.Ok? then (true, next.value) else (false, mid)
  {
  }

  lemma NextInsertStores(db: Db, mid: Db, ref: string, parsed: Parsed, embedded: seq<Vector>, n: nat, now: int)
    requires 1 <= n <= |parsed.chunks| == |embedded|
    requires ref in mid.documents && mid.documents[ref].sourceType == Html
    requires StoredPlan(db, mid, mid.documents[ref].id, HtmlPlan(parsed, embedded, n - 1, now))
    ensures var next := InsertChunk(mid, mid.documents[ref].id, n, ChunkContent(parsed, embedded, n, now));
            next.Ok? && StoredPlan(db, next.value, mid.documents[ref].id, HtmlPlan(parsed, embedded, n, now))
  {
    HtmlPlanSteps(parsed, embedded, n, now);
    StoredStep(db, mid, ref, n, ChunkContent(parsed, embedded, n, now), HtmlPlan(parsed, embedded, n - 1, now));
  }

  lemma HtmlPlanSteps(parsed: Parsed, embedded: seq<Vector>, n: nat, now: int)
    requires 1 <= n <= |parsed.chunks| == |embedded|
    ensures n !in HtmlPlan(parsed, embedded, n - 1, now)
    ensures HtmlPlan(parsed, embedded, n, now)
            == HtmlPlan(parsed, embedded, n - 1, now)[n := ChunkContent(parsed, embedded, n, now)]
  {
  }

  /** The chunk of a parsed piece: its text, anchors and link, and the vector embedded for it. */
  ghost predicate ChunkIsPiece(content: Content, chunk: HtmlChunk, vector: Vector, now: int) {
    && content.text == chunk.text && content.embedding == vector && content.png.None?
    && content.anchor == chunk.anchor && content.parentAnchor == chunk.parentAnchor
    && content.sourceUrl == chunk.sourceUrl && content.createdAt == now
  }

  /** Each planned chunk pairs one parsed piece with the vector at the same place. */
  lemma PlanPairsPieces(parsed: Parsed, embedded: seq<Vector>, n: nat, now: int, o: int)
    requires n <= |parsed.chunks| == |embedded|
    ensures o in HtmlPlan(parsed, embedded, n, now) <==> 1 <= o <= n
    ensures 1 <= o <= n ==> ChunkIsPiece(HtmlPlan(parsed, embedded, n, now)[o], parsed.chunks[o - 1], embedded[o - 1], now)
  {
  }

  /** The tables when the insert loop starts: the document upserted, its old chunks gone, all else as it was. */
  lemma EmptiedDocument(db: Db, pubId: string, title: Title, url: string, now: int, pick: BrandPicker)
    requires Sound(db) && UpsertDocument(db, Html, title, url, pubId, now, pick).Ok?
    ensures var mid := UpsertDocument(db, Html, title, url, pubId, now, pick).value;
            pubId in mid.documents && Emptied(db, DeleteChunks(mid, mid.documents[pubId].id), pubId)
  {
    UpsertSound(db, Html, title, url, pubId, now, pick);
    UpsertEffect(db, Html, title, url, pubId, now, pick);
    DeletionEmpties(db, UpsertDocument(db, Html, title, url, pubId, now, pick).value, pubId);
  }

  lemma DeletionEmpties(db: Db, mid: Db, pubId: string)
    requires Sound(mid) && pubId in mid.documents && mid.documents[pubId].sourceType == Html
    requires mid.chunks == db.chunks && mid.publications == db.publications && mid.pubOrder == db.pubOrder
    requires db.nextDocument <= mid.nextDocument && db.nextChunk <= mid.nextChunk
    ensures Emptied(db, DeleteChunks(mid, mid.documents[pubId].id), pubId)
  {
    var id := mid.documents[pubId].id;
    DeleteSound(mid, id);
    assert OtherChunksKept(db, mid, id);
    KeptTransitive(db, mid, DeleteChunks(mid, id), id);
  }

  ghost predicate Emptied(db: Db, start: Db, pubId: string) {
    && Sound(start) && pubId in start.documents && start.documents[pubId].sourceType == Html
    && HasChunks(start, start.documents[pubId].id, map[]) && OtherChunksKept(db, start, start.documents[pubId].id)
    && start.publications == db.publications && start.pubOrder == db.pubOrder
    && db.nextDocument <= start.nextDocument && db.nextChunk <= start.nextChunk
  }

  /** What a successful ingest of a publication did to the tables. */
  ghost predicate Replaced(db: Db, db': Db, pubId: string, plan: map<int, Content>) {
    && Sound(db') && db'.documents.Keys == db.documents.Keys + {pubId}
    && (forall r :: r in db.documents && r != pubId ==> db'.documents[r] == db.documents[r])
    && db'.documents[pubId].sourceType == Html
    && (pubId in db.documents ==> db.documents[pubId].sourceType == Html && db'.documents[pubId].id == db.documents[pubId].id)
    && HasChunks(db', db'.documents[pubId].id, plan) && OtherChunksKept(db, db', db'.documents[pubId].id)
    && pubId in db.publications
    && db'.publications == WithStatus(db, pubId, Tables.Ingested).value.publications && db'.pubOrder == db.pubOrder
  }

  /** No PDF has the publication's id. */
  predicate NoPdf(db: Db, pubId: string) {
    pubId in db.documents ==> db.documents[pubId].sourceType == Html
  }

  /** The id the document has or gets. */
  function DocumentId(db: Db, pubId: string): int {
    if pubId in db.documents then db.documents[pubId].id else db.nextDocument
  }

  /** The statements up to and including the inserts get through. */
  ghost predicate WritesRun(
    db: Db, server: Server, pubId: string, title: Title, url: string, parsed: Parsed, embedded: seq<Vector>, now: int, pick: BrandPicker)
    requires |parsed.chunks| == |embedded|
  {
    var id := DocumentId(db, pubId);
    && RowRuns(db, server, title, url, pubId, pick) && Runs(server, DropChunks(id))
    && InsertsRun(server, id, parsed, embedded, |parsed.chunks|, now)
  }

  /** The flip of the status gets through, if the publication is there to flip. */
  predicate FlipRuns(db: Db, server: Server, pubId: string) {
    Runs(server, FindPublication(pubId)) && (pubId in db.publications ==> StatusRuns(db, server, pubId, Tables.Ingested))
  }

  /** All statements of the writes get through. */
  ghost predicate StatementsRun(
    db: Db, server: Server, pubId: string, title: Title, url: string, parsed: Parsed, embedded: seq<Vector>, now: int, pick: BrandPicker)
    requires |parsed.chunks| == |embedded|
  {
    && Runs(server, FindUpserted(pubId))
    && (NoPdf(db, pubId) ==>
          WritesRun(db, server, pubId, title, url, parsed, embedded, now, pick) && FlipRuns(db, server, pubId))
  }

  /** The writes never violate a constraint: they fail only for a statement that raises, a PDF of the same id, or no publication. */
  lemma StoreOutcome(
    db: Db, server: Server, pubId: string, pub: PubRow, parsed: Parsed, embedded: seq<Vector>, now: int, env: HtmlEnv)
    requires Sound(db) && NumberedFromOne(parsed) && |parsed.chunks| == |embedded|
    ensures var (outcome, db') := StoreParsed(db, server, pubId, pub, parsed, embedded, now, env);
            var runs := StatementsRun(db, server, pubId, TitleOf(parsed, pub, env), pub.details.sourceUrl, parsed, embedded, now, env.pick);
            && (outcome.Crashed? <==> !runs)
            && (outcome.Done? <==> runs && pubId in db.publications && NoPdf(db, pubId))
            && db.nextDocument <= db'.nextDocument && db.nextChunk <= db'.nextChunk
  {
    var title, url := TitleOf(parsed, pub, env), pub.details.sourceUrl;
    var upsert := UpsertDocument(db, Html, title, url, pubId, now, env.pick);
    assert upsert.Ok? <==> NoPdf(db, pubId);
    if upsert.Ok? {
      WritesOutcome(db, server, pubId, title, url, parsed, embedded, now, env.pick);
    }
  }

  /** The writes after the upsert. */
  lemma WritesOutcome(
    db: Db, server: Server, pubId: string, title: Title, url: string, parsed: Parsed, embedded: seq<Vector>, now: int, pick: BrandPicker)
    requires Sound(db) && NumberedFromOne(parsed) && |parsed.chunks| == |embedded|
    requires UpsertDocument(db, Html, title, url, pubId, now, pick).Ok?
    ensures var mid := UpsertDocument(db, Html, title, url, pubId, now, pick).value;
            var id := DocumentId(db, pubId);
            && mid.documents[pubId].id == id && db.nextDocument <= mid.nextDocument && db.nextChunk == mid.nextChunk
            && FillsAsStated(db, DeleteChunks(mid, id), server, pubId, id, parsed, embedded, now)
  {
    UpsertEffect(db, Html, title, url, pubId, now, pick);
    EmptiedDocument(db, pubId, title, url, now, pick);
    var mid := UpsertDocument(db, Html, title, url, pubId, now, pick).value;
    FillOutcome(db, DeleteChunks(mid, mid.documents[pubId].id), server, pubId, parsed, embedded, now);
  }

  /** How the inserts and the flip end. */
  ghost predicate FillsAsStated(
    db: Db, start: Db, server: Server, pubId: string, id: int, parsed: Parsed, embedded: seq<Vector>, now: int)
    requires |parsed.chunks| == |embedded|
  {
    var (outcome, db') := FillDocument(start, server, pubId, id, parsed, embedded, now);
    var ok := InsertsRun(server, id, parsed, embedded, |parsed.chunks|, now);
    && (outcome.Crashed? <==> !(ok && FlipRuns(db, server, pubId)))
    && (outcome.Done? <==> ok && FlipRuns(db, server, pubId) && pubId in db.publications)
    && db.nextDocument <= db'.nextDocument && db.nextChunk <= db'.nextChunk
  }

  lemma FillOutcome(db: Db, start: Db, server: Server, pubId: string, parsed: Parsed, embedded: seq<Vector>, now: int)
    requires NumberedFromOne(parsed) && |parsed.chunks| == |embedded| && Emptied(db, start, pubId)
    ensures FillsAsStated(db, start, server, pubId, start.documents[pubId].id, parsed, embedded, now)
  {
    EmptiedIsFilled(db, start, server, pubId, parsed, embedded, now);
    FillEnds(db, start, server, pubId, start.documents[pubId].id, parsed, embedded, now);
  }

  /** A good end replaces the document's chunks by the complete set, and changes nothing of any other document. */
  lemma StoreReplaces(
    db: Db, server: Server, pubId: string, pub: PubRow, parsed: Parsed, embedded: seq<Vector>, now: int, env: HtmlEnv)
    requires Sound(db) && NumberedFromOne(parsed) && |parsed.chunks| == |embedded|
    requires StoreParsed(db, server, pubId, pub, parsed, embedded, now, env).0.Done?
    ensures var db' := StoreParsed(db, server, pubId, pub, parsed, embedded, now, env).1;
            && Replaced(db, db', pubId, HtmlPlan(parsed, embedded, |parsed.chunks|, now))
            && StoredRow(db, pubId, db'.documents[pubId], TitleOf(parsed, pub, env), pub.details.sourceUrl, now, env.pick)
  {
    FillReplaces(db, server, pubId, TitleOf(parsed, pub, env), pub.details.sourceUrl, parsed, embedded, now, env.pick);
  }

  /** The columns an ingest writes on its document. */
  ghost predicate StoredRow(db: Db, pubId: string, row: DocRow, title: Title, url: string, now: int, pick: BrandPicker) {
    && row.title == title && row.sourceUrl == url && row.facet == DeriveFacet(title.reading, pick)
    && (pubId in db.documents ==> row.createdAt == db.documents[pubId].createdAt)
    && (pubId !in db.documents ==> row.id == db.nextDocument && row.createdAt == now)
  }

  /** How the end of the writes goes, from the emptied document on. */
  lemma FillEnds(
    db: Db, start: Db, server: Server, pubId: string, id: int, parsed: Parsed, embedded: seq<Vector>, now: int)
    requires |parsed.chunks| == |embedded|
    requires var after := ChunksInserted(start, server, id, parsed, embedded, |parsed.chunks|, now).1;
             after.publications == db.publications && db.nextDocument <= after.nextDocument && db.nextChunk <= after.nextChunk
    ensures var (outcome, db') := FillDocument(start, server, pubId, id, parsed, embedded, now);
            var ok := ChunksInserted(start, server, id, parsed, embedded, |parsed.chunks|, now).0;
            && (outcome.Crashed? <==> !(ok && FlipRuns(db, server, pubId)))
            && (outcome.Done? <==> ok && FlipRuns(db, server, pubId) && pubId in db.publications)
            && db.nextDocument <= db'.nextDocument && db.nextChunk <= db'.nextChunk
  {
    FlipOutcome(db, server, ChunksInserted(start, server, id, parsed, embedded, |parsed.chunks|, now).1, pubId);
  }

  /** What a good end leaves. */
  lemma FillReplaces(
    db: Db, server: Server, pubId: string, title: Title, url: string, parsed: Parsed, embedded: seq<Vector>, now: int, pick: BrandPicker)
    requires Sound(db) && NumberedFromOne(parsed) && |parsed.chunks| == |embedded|
    requires UpsertDocument(db, Html, title, url, pubId, now, pick).Ok?
    requires var mid := UpsertDocument(db, Html, title, url, pubId, now, pick).value;
             FillDocument(DeleteChunks(mid, mid.documents[pubId].id), server, pubId, mid.documents[pubId].id, parsed, embedded, now).0.Done?
    ensures var mid := UpsertDocument(db, Html, title, url, pubId, now, pick).value;
            var id := mid.documents[pubId].id;
            var db' := FillDocument(DeleteChunks(mid, id), server, pubId, id, parsed, embedded, now).1;
            && Replaced(db, db', pubId, HtmlPlan(parsed, embedded, |parsed.chunks|, now))
            && StoredRow(db, pubId, db'.documents[pubId], title, url, now, pick)
  {
    var mid := UpsertDocument(db, Html, title, url, pubId, now, pick).value;
    ChunksReplaced(db, server, pubId, title, url, parsed, embedded, now, pick);
    var id := mid.documents[pubId].id;
    var after := ChunksInserted(DeleteChunks(mid, id), server, id, parsed, embedded, |parsed.chunks|, now).1;
    RowStored(db, mid, title, url, pubId, now, pick);
    FlipCompletes(db, mid, after, pubId, HtmlPlan(parsed, embedded, |parsed.chunks|, now));
  }

  /** How the flip ends. */
  lemma FlipOutcome(db: Db, server: Server, after: Db, pubId: string)
    requires after.publications == db.publications
    ensures var flipped := TryStatus(after, server, pubId, Tables.Ingested);
            && (flipped.Ok? <==> FlipRuns(db, server, pubId) && pubId in db.publications)
            && (flipped.Err? && !flipped.error.NotFound? <==> !FlipRuns(db, server, pubId))
            && (flipped.Ok? ==> flipped == WithStatus(after, pubId, Tables.Ingested))
  {
  }

  /** What the upsert leaves of the document. */
  lemma RowStored(db: Db, mid: Db, title: Title, url: string, pubId: string, now: int, pick: BrandPicker)
    requires UpsertDocument(db, Html, title, url, pubId, now, pick) == Ok(mid)
    ensures mid.documents.Keys == db.documents.Keys + {pubId} && mid.documents[pubId].sourceType == Html
    ensures StoredRow(db, pubId, mid.documents[pubId], title, url, now, pick)
    ensures forall r :: r in db.documents && r != pubId ==> mid.documents[r] == db.documents[r]
    ensures pubId in db.documents ==> db.documents[pubId].sourceType == Html && mid.documents[pubId].id == db.documents[pubId].id
  {
    UpsertEffect(db, Html, title, url, pubId, now, pick);
  }

  /** From the replaced chunks to the whole effect: the status flip is the last write. */
  lemma FlipCompletes(db: Db, mid: Db, after: Db, pubId: string, plan: map<int, Content>)
    requires Sound(after) && pubId in db.publications && after.documents == mid.documents
    requires mid.documents.Keys == db.documents.Keys + {pubId} && mid.documents[pubId].sourceType == Html
    requires forall r :: r in db.documents && r != pubId ==> mid.documents[r] == db.documents[r]
    requires pubId in db.documents ==> db.documents[pubId].sourceType == Html && mid.documents[pubId].id == db.documents[pubId].id
    requires after.publications == db.publications && after.pubOrder == db.pubOrder
    requires HasChunks(after, mid.documents[pubId].id, plan) && OtherChunksKept(db, after, mid.documents[pubId].id)
    ensures WithStatus(after, pubId, Tables.Ingested).Ok?
    ensures Replaced(db, WithStatus(after, pubId, Tables.Ingested).value, pubId, plan)
  {
    StatusKeepsChunks(after, pubId);
    var done := WithStatus(after, pubId, Tables.Ingested).value;
    SameChunks(db, after, done, mid.documents[pubId].id, plan);
  }

  lemma SameChunks(db: Db, after: Db, done: Db, document: int, plan: map<int, Content>)
    requires done.chunks == after.chunks && HasChunks(after, document, plan) && OtherChunksKept(db, after, document)
    ensures HasChunks(done, document, plan) && OtherChunksKept(db, done, document)
  {
  }

  /** Upsert, delete and insert: the document's chunks are now exactly the parsed ones, unless an insert raised. */
  lemma ChunksReplaced(
    db: Db, server: Server, pubId: string, title: Title, url: string, parsed: Parsed, embedded: seq<Vector>, now: int, pick: BrandPicker)
    requires Sound(db) && NumberedFromOne(parsed) && |parsed.chunks| == |embedded|
    requires UpsertDocument(db, Html, title, url, pubId, now, pick).Ok?
    ensures var mid := UpsertDocument(db, Html, title, url, pubId, now, pick).value;
            var id := mid.documents[pubId].id;
            var (ok, after) := ChunksInserted(DeleteChunks(mid, id), server, id, parsed, embedded, |parsed.chunks|, now);
            && after.documents == mid.documents && after.publications == db.publications && after.pubOrder == db.pubOrder
            && (ok ==> Sound(after) && HasChunks(after, id, HtmlPlan(parsed, embedded, |parsed.chunks|, now))
                       && OtherChunksKept(db, after, id))
  {
    EmptiedDocument(db, pubId, title, url, now, pick);
    var mid := UpsertDocument(db, Html, title, url, pubId, now, pick).value;
    EmptiedIsFilled(db, DeleteChunks(mid, mid.documents[pubId].id), server, pubId, parsed, embedded, now);
  }

  /** From the emptied document on. */
  lemma EmptiedIsFilled(db: Db, start: Db, server: Server, pubId: string, parsed: Parsed, embedded: seq<Vector>, now: int)
    requires NumberedFromOne(parsed) && |parsed.chunks| == |embedded|
    requires Emptied(db, start, pubId)
    ensures var id := start.documents[pubId].id;
            var (ok, after) := ChunksInserted(start, server, id, parsed, embedded, |parsed.chunks|, now);
            && (ok <==> InsertsRun(server, id, parsed, embedded, |parsed.chunks|, now))
            && after.documents == start.documents && after.publications == db.publications && after.pubOrder == db.pubOrder
            && (ok ==> Sound(after) && HasChunks(after, id, HtmlPlan(parsed, embedded, |parsed.chunks|, now))
                       && OtherChunksKept(db, after, id))
            && db.nextDocument <= after.nextDocument && db.nextChunk <= after.nextChunk
  {
    var id := start.documents[pubId].id;
    InsertsStorePlan(start, server, pubId, parsed, embedded, |parsed.chunks|, now);
    var (ok, after) := ChunksInserted(start, server, id, parsed, embedded, |parsed.chunks|, now);
    if ok { KeptTransitive(db, start, after, id); }
  }

  lemma StatusKeepsChunks(db: Db, pubId: string)
    requires Sound(db) && pubId in db.publications
    ensures var db' := WithStatus(db, pubId, Tables.Ingested).value;
            Sound(db') && db'.chunks == db.chunks && db'.documents == db.documents
  {
    var db' := WithStatus(db, pubId, Tables.Ingested).value;
    forall k | k in db'.chunks ensures HasId(db', k.0) {
      assert HasId(db, k.0);
    }
  }

  /** The page parses and there is one vector per chunk. */
  predicate Fits(pub: PubRow, job: HtmlJob, env: HtmlEnv) {
    Parse(job.page, pub.details.sourceUrl, env.tools).Success? && job.embedded.Some?
    && |job.embedded.value| == |Parse(job.page, pub.details.sourceUrl, env.tools).parsed.chunks|
  }

  /** The inputs of an attempt are complete. */
  predicate Ready(pub: PubRow, job: HtmlJob, env: HtmlEnv) {
    job.fetched && Fits(pub, job, env) && job.embedded.value != []
  }

  /** The complete chunk set of a job. */
  function JobPlan(pub: PubRow, job: HtmlJob, now: int, env: HtmlEnv): map<int, Content>
    requires Fits(pub, job, env)
  {
    var parsed := Parse(job.page, pub.details.sourceUrl, env.tools).parsed;
    HtmlPlan(parsed, job.embedded.value, |parsed.chunks|, now)
  }

  /** All statements of a ready attempt get through. */
  ghost predicate JobRuns(db: Db, pubId: string, pub: PubRow, job: HtmlJob, now: int, env: HtmlEnv)
    requires Fits(pub, job, env)
  {
    var parsed := Parse(job.page, pub.details.sourceUrl, env.tools).parsed;
    StatementsRun(db, job.server, pubId, TitleOf(parsed, pub, env), pub.details.sourceUrl, parsed, job.embedded.value, now, env.pick)
  }

  /**
   * An attempt succeeds exactly when its inputs are ready, the publication is registered, no PDF has its
   * id, and every statement gets through.
   */
  lemma HtmlIngestIsComplete(db: Db, pubId: string, pub: PubRow, job: HtmlJob, now: int, env: HtmlEnv)
    requires Sound(db)
    ensures var (outcome, db') := HtmlAttempt(db, pubId, pub, job, now, env);
            && (outcome.Done? <==>
                  Ready(pub, job, env) && pubId in db.publications && NoPdf(db, pubId) && JobRuns(db, pubId, pub, job, now, env))
            && (outcome.Done? ==> Replaced(db, db', pubId, JobPlan(pub, job, now, env))
                                  && StoredRow(db, pubId, db'.documents[pubId], JobTitle(pub, job, env), pub.details.sourceUrl, now, env.pick))
            && db.nextDocument <= db'.nextDocument && db.nextChunk <= db'.nextChunk
  {
    ParseNumbers(job.page, pub.details.sourceUrl, env.tools);
    if Ready(pub, job, env) {
      var parsed := Parse(job.page, pub.details.sourceUrl, env.tools).parsed;
      StoreOutcome(db, job.server, pubId, pub, parsed, job.embedded.value, now, env);
      if HtmlAttempt(db, pubId, pub, job, now, env).0.Done? {
        StoreReplaces(db, job.server, pubId, pub, parsed, job.embedded.value, now, env);
      }
    }
  }

  /** After a good ingest the chunk at each ordinal is that parsed piece with the vector at the same place. */
  lemma IngestedPieces(db: Db, pubId: string, pub: PubRow, job: HtmlJob, now: int, env: HtmlEnv, o: int)
    requires Sound(db) && HtmlAttempt(db, pubId, pub, job, now, env).0.Done?
    ensures Ready(pub, job, env)
    ensures var db' := HtmlAttempt(db, pubId, pub, job, now, env).1;
            var chunks := Parse(job.page, pub.details.sourceUrl, env.tools).parsed.chunks;
            && pubId in db'.documents
            && var key := (db'.documents[pubId].id, o);
               && (key in db'.chunks <==> 1 <= o <= |chunks|)
               && (key in db'.chunks ==> ChunkIsPiece(db'.chunks[key].content, chunks[o - 1], job.embedded.value[o - 1], now))
  {
    HtmlIngestIsComplete(db, pubId, pub, job, now, env);
    var parsed := Parse(job.page, pub.details.sourceUrl, env.tools).parsed;
    PlanPairsPieces(parsed, job.embedded.value, |parsed.chunks|, now, o);
  }

  /** A good ingest titles its document with the page's own title, or with the registered one if the page has none. */
  lemma IngestedDocument(db: Db, pubId: string, pub: PubRow, job: HtmlJob, now: int, env: HtmlEnv)
    requires Sound(db) && HtmlAttempt(db, pubId, pub, job, now, env).0.Done?
    ensures WellShaped(job.page)
    ensures var db', own := HtmlAttempt(db, pubId, pub, job, now, env).1, Label(Get(job.page.json.fields, "title"), env.tools.py);
            && pubId in db'.documents
            && var row := db'.documents[pubId];
               && row.title == env.analyse(if own == "" then pub.details.title else own)
               && row.sourceType == Html && row.sourceUrl == pub.details.sourceUrl
               && row.facet == Facet(DetectFamily(row.title.reading), DetectBrand(row.title.reading, env.pick))
               && (pubId in db.documents ==> row.id == db.documents[pubId].id && row.createdAt == db.documents[pubId].createdAt)
               && (pubId !in db.documents ==> row.id == db.nextDocument && row.createdAt == now)
  {
    HtmlIngestIsComplete(db, pubId, pub, job, now, env);
    var title := JobTitle(pub, job, env);
    OneReading(title.reading, env.pick);
  }

  /** The texts an ingest embeds, in order. */
  function ChunkTexts(parsed: Parsed): (texts: seq<string>)
    ensures |texts| == |parsed.chunks| && forall i :: 0 <= i < |texts| ==> texts[i] == parsed.chunks[i].text
  {
    seq(|parsed.chunks|, i requires 0 <= i < |parsed.chunks| => parsed.chunks[i].text)
  }

  /**
   * End to end: when the vectors are the batched answers for the parsed texts, each stored vector is the
   * provider's vector of the stored text itself, clipped.
   */
  lemma StoredVectorIsOfItsText(
    db: Db, pubId: string, pub: PubRow, job: HtmlJob, now: int, env: HtmlEnv, o: int,
    provider: Provider, requests: seq<seq<string>>, each: string -> Vector)
    requires Sound(db) && HtmlAttempt(db, pubId, pub, job, now, env).0.Done? && AllAccepted(provider, requests)
    requires Flatten(requests) == Clipped(ChunkTexts(Parse(job.page, pub.details.sourceUrl, env.tools).parsed))
    requires Pointwise(provider, each) && job.embedded == Some(Answers(provider, requests))
    ensures var db' := HtmlAttempt(db, pubId, pub, job, now, env).1;
            && pubId in db'.documents
            && var key := (db'.documents[pubId].id, o);
               key in db'.chunks ==> db'.chunks[key].content.embedding == each(Clip(db'.chunks[key].content.text))
  {
    IngestedPieces(db, pubId, pub, job, now, env, o);
    BatchingIsInvisible(ChunkTexts(Parse(job.page, pub.details.sourceUrl, env.tools).parsed), provider, requests, each);
  }

  /** The title an ingest stores. */
  function JobTitle(pub: PubRow, job: HtmlJob, env: HtmlEnv): Title
    requires Fits(pub, job, env)
  {
    TitleOf(Parse(job.page, pub.details.sourceUrl, env.tools).parsed, pub, env)
  }

  /**
   * An exception other than an IngestionError escapes exactly when the decoder raises, when the tree is
   * not an object or cannot be iterated where a list is expected, or when an attempt with everything at
   * hand reaches a statement that raises or sends a text PostgreSQL cannot store.
   */
  lemma UncaughtExactly(db: Db, pubId: string, pub: PubRow, job: HtmlJob, now: int, env: HtmlEnv)
    requires Sound(db)
    ensures HtmlAttempt(db, pubId, pub, job, now, env).0.Crashed? <==>
              || (job.fetched && !job.page.Unreadable? && !WellShaped(job.page))
              || (Ready(pub, job, env) && !JobRuns(db, pubId, pub, job, now, env))
  {
    ParseNumbers(job.page, pub.details.sourceUrl, env.tools);
    if Ready(pub, job, env) {
      var parsed := Parse(job.page, pub.details.sourceUrl, env.tools).parsed;
      StoreOutcome(db, job.server, pubId, pub, parsed, job.embedded.value, now, env);
    }
  }

  /** A number where the list of modules should be. */
  lemma NumberForModulesEscapes(db: Db, pubId: string, pub: PubRow, job: HtmlJob, now: int, env: HtmlEnv)
    requires Sound(db) && job.fetched && job.page == Tree(Obj(map["modules" := Int(5)]))
    ensures HtmlAttempt(db, pubId, pub, job, now, env).0.Crashed?
  {
    UncaughtExactly(db, pubId, pub, job, now, env);
    assert !Iterable(map["modules" := Int(5)]) by { assert DictsIn(Int(5)).None?; }
  }

  /** A NUL in a parsed text, which JSON can spell: the page is well shaped and its insert is refused. */
  lemma NulTextEscapes(db: Db, pubId: string, pub: PubRow, job: HtmlJob, now: int, env: HtmlEnv, k: nat)
    requires Sound(db) && Ready(pub, job, env) && NoPdf(db, pubId)
    requires var chunks := Parse(job.page, pub.details.sourceUrl, env.tools).parsed.chunks;
             k < |chunks| && '\0' in chunks[k].text
    ensures WellShaped(job.page) && HtmlAttempt(db, pubId, pub, job, now, env).0.Crashed?
  {
    UncaughtExactly(db, pubId, pub, job, now, env);
    NulStopsInserts(job.server, DocumentId(db, pubId), Parse(job.page, pub.details.sourceUrl, env.tools).parsed,
                    job.embedded.value, now, k);
  }

  lemma NulStopsInserts(server: Server, document: int, parsed: Parsed, embedded: seq<Vector>, now: int, k: nat)
    requires k < |parsed.chunks| == |embedded| && '\0' in parsed.chunks[k].text
    ensures !InsertsRun(server, document, parsed, embedded, |parsed.chunks|, now)
  {
    InsertsRunMeans(server, document, parsed, embedded, |parsed.chunks|, now);
    assert !Runs(server, WriteChunk(document, k + 1, ChunkContent(parsed, embedded, k + 1, now)));
  }
}
