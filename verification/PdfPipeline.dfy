/** Ingestion of one PDF: dedupe by content hash, store, parse, embed, render and index page by page. */
module PdfPipeline {
  import opened Prelude
  import opened ProductMatch
  import opened Corpus
  import opened Embedder
  import opened Text
  import opened Tables
  import opened Store

  datatype ParsedPage = ParsedPage(number: int, text: string)

  datatype FileCheck = IsFile | NotFile | CheckRaises

  /**
   * One attempt: the file and what each foreign call comes back with. hashed, readable and stored say
   * whether the two reads of the file and the upload of its bytes succeed; None: the call raises.
   */
  datatype PdfJob = PdfJob(
    file: FileCheck, hashed: bool, readable: bool, sha: string, title: Title, stored: bool,
    parsed: Option<seq<ParsedPage>>, embedded: Option<seq<Vector>>,
    rendered: seq<bool>,  // page i + 1 was rendered; whether its image upload succeeds
    renderFails: bool,    // the renderer raises after these pages
    server: Server)

  function PdfKey(sha: string): string {
    "pdfs/" + sha + ".pdf"
  }

  /** f"{n:04d}" for n >= 1 */
  function Pad4(n: nat): string {
    if n < 10 then "000" + Decimal(n) else if n < 100 then "00" + Decimal(n) else if n < 1000 then "0" + Decimal(n) else Decimal(n)
  }

  function PngKey(sha: string, page: nat): string {
    "pages/" + sha + "/" + Pad4(page) + ".png"
  }

  /** The dicts keyed by page number keep the last entry of a repeated number. */
  function LastWith(pages: seq<ParsedPage>, number: int): Option<nat> {
    if pages == [] then None
    else if pages[|pages| - 1].number == number then Some(|pages| - 1)
    else LastWith(pages[..|pages| - 1], number)
  }

  /** The page is the parsed page of that number that comes last. */
  lemma {:induction false} LastWithIsLast(pages: seq<ParsedPage>, number: int)
    ensures LastWith(pages, number).None? <==> forall i :: 0 <= i < |pages| ==> pages[i].number != number
    ensures LastWith(pages, number).Some? ==>
              var k := LastWith(pages, number).value;
              k < |pages| && pages[k].number == number && forall i :: k < i < |pages| ==> pages[i].number != number
  {
    if pages != [] { LastWithIsLast(pages[..|pages| - 1], number); }
  }

  /** All foreign results are in and fit together. */
  predicate Embedded(job: PdfJob) {
    job.parsed.Some? && job.embedded.Some? && |job.embedded.value| == |job.parsed.value|
  }

  /** The chunk of a rendered page: text and vector of the same parsed page, and its image key. */
  function PageContent(job: PdfJob, page: nat, now: int): Option<Content>
    requires Embedded(job)
  {
    match LastWith(job.parsed.value, page)
    case None => None
    case Some(k) =>
      LastWithIsLast(job.parsed.value, page);
      Some(Content(job.parsed.value[k].text, job.embedded.value[k], Some(PngKey(job.sha, page)), None, None,
                   PdfKey(job.sha) + "#page=" + Decimal(page), now))
  }

  /** The complete chunk set of the PDF: every rendered page that has parsed text. */
  function PdfPlan(job: PdfJob, pages: nat, now: int): map<int, Content>
    requires Embedded(job)
  {
    map n: int | 1 <= n <= pages && PageContent(job, n, now).Some? :: PageContent(job, n, now).value
  }

  /** How far the render loop got: a failed upload is an IngestionError, a failed insert is not. */
  datatype Progress = Going | UploadFailed | Raised

  /** The render loop over the first n pages: how far it got, and the tables it left. */
  function Persisted(db: Db, document: int, job: PdfJob, n: nat, now: int): (Progress, Db)
    requires Embedded(job) && n <= |job.rendered|
  {
    if n == 0 then (Going, db)
    else
      var (progress, mid) := Persisted(db, document, job, n - 1, now);
      var content := PageContent(job, n, now);
      if !progress.Going? then (progress, mid)
      else if content.None? then (Going, mid)
      else if !job.rendered[n - 1] then (UploadFailed, mid)
      else
        match TryInsert(mid, job.server, document, n, content.value)
        case Err(_) => (Raised, mid)
        case Ok(next) => (Going, next)
  }

  /** The end of an attempt whose render loop ended. */
  function LoopOutcome(progress: Progress, job: PdfJob): Outcome {
    match progress
    case Raised => Crashed
    case UploadFailed => Refused
    case Going => if job.renderFails then Refused else Done(job.sha)
  }

  /** From the upload of the file on. */
  function StorePdf(db: Db, job: PdfJob, now: int, pick: BrandPicker): (Outcome, Db) {
    if !job.stored || job.parsed.None? || job.parsed.value == [] then (Refused, db)
    else
      match TryUpsert(db, job.server, Pdf, job.title, PdfKey(job.sha), job.sha, now, pick)
      case Err(SourceTypeMismatch) => (Refused, db)
      case Err(_) => (Crashed, db)
      case Ok(mid) =>
        if !Embedded(job) then (Refused, mid)
        else
          var (progress, after) := Persisted(mid, mid.documents[job.sha].id, job, |job.rendered|, now);
          (LoopOutcome(progress, job), after)
  }

  /** How an attempt ends and the tables its transaction then sees. */
  function PdfAttempt(db: Db, job: PdfJob, now: int, pick: BrandPicker): (Outcome, Db) {
    if job.file.CheckRaises? then (Crashed, db)
    else if job.file.NotFile? then (Refused, db)
    else if !job.hashed || !Runs(job.server, FindDocument(job.sha)) then (Crashed, db)
    else if job.sha in db.documents then (Done(job.sha), db)
    else if !job.readable then (Crashed, db)
    else StorePdf(db, job, now, pick)
  }

  class IngestionPipeline {
    const repo: Repository

    constructor (repo: Repository)
      ensures this.repo == repo
    {
      this.repo := repo;
    }

    method Ingest(job: PdfJob) returns (outcome: Outcome)
      requires job.server == repo.session.server
      modifies repo.session
      ensures repo.session.committed == old(repo.session.committed)
      ensures (outcome, repo.session.working) == PdfAttempt(old(repo.session.working), job, repo.session.now, repo.pick)
    {
      if job.file.CheckRaises? {
        return Crashed;
      }
      if job.file.NotFile? {
        return Refused;
      }
      if !job.hashed {
        return Crashed;
      }
      var existing := repo.GetDocument(job.sha);
      if existing.Err? {
        return Crashed;
      }
      if existing.value.Some? {
        return Done(job.sha);
      }
      if !job.readable {
        return Crashed;
      }
      outcome := Store(job);
    }

    /** From the upload of the file on. */
    method Store(job: PdfJob) returns (outcome: Outcome)
      requires job.server == repo.session.server
      modifies repo.session
      ensures repo.session.committed == old(repo.session.committed)
      ensures (outcome, repo.session.working) == StorePdf(old(repo.session.working), job, repo.session.now, repo.pick)
    {
      if !job.stored || job.parsed.None? || job.parsed.value == [] {
        return Refused;
      }
      var document := repo.UpsertDocument(Pdf, job.title, PdfKey(job.sha), job.sha);
      if document.Err? {
        return if document.error.SourceTypeMismatch? then Refused else Crashed;
      }
      if !Embedded(job) {
        return Refused;
      }
      var progress := RenderAndPersist(document.value.id, job);
      outcome := LoopOutcome(progress, job);
    }

    method RenderAndPersist(document: int, job: PdfJob) returns (progress: Progress)
      requires Embedded(job) && job.server == repo.session.server
      modifies repo.session
      ensures repo.session.committed == old(repo.session.committed)
      ensures (progress, repo.session.working)
           == Persisted(old(repo.session.working), document, job, |job.rendered|, repo.session.now)
    {
      ghost var start := repo.session.working;
      for i := 0 to |job.rendered|
        invariant repo.session.committed == old(repo.session.committed)
        invariant Persisted(start, document, job, i, repo.session.now) == (Going, repo.session.working)
      {
        progress := PersistPage(document, job, i + 1);
        if !progress.Going? {
          PersistedStops(start, document, job, i + 1, |job.rendered|, repo.session.now);
          return;
        }
      }
      progress := Going;
    }

    /** The loop body: one rendered page. */
    method PersistPage(document: int, job: PdfJob, page: nat) returns (progress: Progress)
      requires Embedded(job) && job.server == repo.session.server && 1 <= page <= |job.rendered|
      modifies repo.session
      ensures repo.session.committed == old(repo.session.committed)
      ensures (progress, repo.session.working)
           == var content, db := PageContent(job, page, repo.session.now), old(repo.session.working);
              if content.None? then (Going, db)
              else if !job.rendered[page - 1] then (UploadFailed, db)
              else match TryInsert(db, job.server, document, page, content.value)
                   case Err(_) => (Raised, db)
                   case Ok(next) => (Going, next)
    {
      var content := PageContent(job, page, repo.session.now);
      if content.None? {
        return Going;
      }
      if !job.rendered[page - 1] {
        return UploadFailed;
      }
      var r := repo.InsertChunk(document, page, content.value);
      progress := if r.Ok? then Going else Raised;
    }
  }

  /** Once the loop has ended early, nothing more happens. */
  lemma {:induction false} PersistedStops(db: Db, document: int, job: PdfJob, m: nat, n: nat, now: int)
    requires Embedded(job) && m <= n <= |job.rendered| && !Persisted(db, document, job, m, now).0.Going?
    ensures Persisted(db, document, job, n, now) == Persisted(db, document, job, m, now)
  {
    if m < n { PersistedStops(db, document, job, m, n - 1, now); }
  }

  // --- What an ingest leaves behind ---

  /** The insert of a page with parsed text raises. */
  predicate RaisesAt(job: PdfJob, document: int, n: nat, now: int)
    requires Embedded(job)
  {
    var content := PageContent(job, n, now);
    content.Some? && !Runs(job.server, WriteChunk(document, n, content.value))
  }

  /** The page gives the loop no reason to stop. */
  predicate Passes(job: PdfJob, document: int, n: nat, now: int)
    requires Embedded(job) && 1 <= n <= |job.rendered|
  {
    PageContent(job, n, now).None? || (job.rendered[n - 1] && !RaisesAt(job, document, n, now))
  }

  ghost predicate AllPass(job: PdfJob, document: int, n: nat, now: int)
    requires Embedded(job) && n <= |job.rendered|
  {
    forall m :: 1 <= m <= n ==> Passes(job, document, m, now)
  }

  /** Every page before k passes, the image of page k is stored, and its insert raises. */
  ghost predicate RaisesFirst(job: PdfJob, document: int, k: nat, now: int)
    requires Embedded(job) && 1 <= k <= |job.rendered|
  {
    AllPass(job, document, k - 1, now) && job.rendered[k - 1] && RaisesAt(job, document, k, now)
  }

  /** The loop over the first n pages meets an insert that raises. */
  ghost predicate InsertRaises(job: PdfJob, document: int, n: nat, now: int)
    requires Embedded(job) && n <= |job.rendered|
  {
    exists k :: 1 <= k <= n && RaisesFirst(job, document, k, now)
  }

  /** One more page for both conditions. */
  lemma AllPassStep(job: PdfJob, document: int, n: nat, now: int)
    requires Embedded(job) && 1 <= n <= |job.rendered|
    ensures AllPass(job, document, n, now) <==> AllPass(job, document, n - 1, now) && Passes(job, document, n, now)
  {
  }

  lemma InsertRaisesStep(job: PdfJob, document: int, n: nat, now: int)
    requires Embedded(job) && 1 <= n <= |job.rendered|
    ensures InsertRaises(job, document, n, now) <==> InsertRaises(job, document, n - 1, now) || RaisesFirst(job, document, n, now)
  {
    if InsertRaises(job, document, n, now) {
      var k :| 1 <= k <= n && RaisesFirst(job, document, k, now);
      assert k == n || InsertRaises(job, document, n - 1, now);
    }
  }

  lemma PlanSteps(job: PdfJob, n: nat, now: int)
    requires Embedded(job) && n >= 1
    ensures n !in PdfPlan(job, n - 1, now)
    ensures PdfPlan(job, n, now) == match PageContent(job, n, now)
                                    case None => PdfPlan(job, n - 1, now)
                                    case Some(content) => PdfPlan(job, n - 1, now)[n := content]
  {
  }

  /** How the loop over the first n pages ends, and what it stored. */
  ghost predicate PersistedAsPlanned(db: Db, job: PdfJob, id: int, n: nat, now: int)
    requires Embedded(job) && n <= |job.rendered|
  {
    var (progress, after) := Persisted(db, id, job, n, now);
    && (progress.Going? <==> AllPass(job, id, n, now))
    && (progress.Raised? <==> InsertRaises(job, id, n, now))
    && SameDocuments(db, after)
    && (progress.Going? ==> StoredPlan(db, after, id, PdfPlan(job, n, now)))
  }

  /**
   * The loop stores exactly the planned chunks: no insertion ever violates a constraint, so it stops
   * early only for a failed upload or a statement that raises.
   */
  lemma {:induction false} PersistStoresPlan(db: Db, job: PdfJob, n: nat, now: int)
    requires Sound(db) && Embedded(job) && n <= |job.rendered|
    requires job.sha in db.documents && db.documents[job.sha].sourceType == Pdf
    requires HasChunks(db, db.documents[job.sha].id, map[])
    ensures PersistedAsPlanned(db, job, db.documents[job.sha].id, n, now)
  {
    var id := db.documents[job.sha].id;
    if n == 0 {
      assert PdfPlan(job, 0, now) == map[];
    } else {
      PersistStoresPlan(db, job, n - 1, now);
      NextPageStoresPlan(db, job, n, now);
    }
  }

  lemma NextPageStoresPlan(db: Db, job: PdfJob, n: nat, now: int)
    requires Embedded(job) && 1 <= n <= |job.rendered|
    requires job.sha in db.documents && db.documents[job.sha].sourceType == Pdf
    requires PersistedAsPlanned(db, job, db.documents[job.sha].id, n - 1, now)
    ensures PersistedAsPlanned(db, job, db.documents[job.sha].id, n, now)
  {
    PageStoresPlan(db, job, n, now);
    AllPassStep(job, db.documents[job.sha].id, n, now);
    InsertRaisesStep(job, db.documents[job.sha].id, n, now);
  }

  /** One more page. */
  lemma PageStoresPlan(db: Db, job: PdfJob, n: nat, now: int)
    requires Embedded(job) && 1 <= n <= |job.rendered|
    requires job.sha in db.documents && db.documents[job.sha].sourceType == Pdf
    requires var (progress, mid) := Persisted(db, db.documents[job.sha].id, job, n - 1, now);
             && SameDocuments(db, mid)
             && (progress.Going? ==> StoredPlan(db, mid, db.documents[job.sha].id, PdfPlan(job, n - 1, now)))
    ensures var id := db.documents[job.sha].id;
            var before, (progress, after) := Persisted(db, id, job, n - 1, now).0, Persisted(db, id, job, n, now);
            && (progress.Going? <==> before.Going? && Passes(job, id, n, now))
            && (progress.Raised? <==> before.Raised? || (before.Going? && job.rendered[n - 1] && RaisesAt(job, id, n, now)))
            && SameDocuments(db, after)
            && (progress.Going? ==> StoredPlan(db, after, id, PdfPlan(job, n, now)))
  {
    PlanSteps(job, n, now);
    var (progress, mid) := Persisted(db, db.documents[job.sha].id, job, n - 1, now);
    var content := PageContent(job, n, now);
    if progress.Going? && content.Some? {
      StoredStep(db, mid, job.sha, n, content.value, PdfPlan(job, n - 1, now));
    }
  }

  /** The rows of a failed attempt will be rolled back; its sequences only ever move up. */
  lemma PdfAttemptSequences(db: Db, job: PdfJob, now: int, pick: BrandPicker)
    requires Sound(db)
    ensures var after := PdfAttempt(db, job, now, pick).1;
            db.nextDocument <= after.nextDocument && db.nextChunk <= after.nextChunk
  {
    if job.sha !in db.documents && Embedded(job) {
      AfterUpsert(db, job, now, pick);
    }
  }

  /** The state in which the render loop starts, and what the loop makes of it. */
  lemma AfterUpsert(db: Db, job: PdfJob, now: int, pick: BrandPicker)
    requires Sound(db) && job.sha !in db.documents && Embedded(job)
    ensures var mid := UpsertDocument(db, Pdf, job.title, PdfKey(job.sha), job.sha, now, pick);
            && mid.Ok? && job.sha in mid.value.documents && mid.value.documents[job.sha].id == db.nextDocument
            && db.nextDocument < mid.value.nextDocument && mid.value.chunks == db.chunks && mid.value.nextChunk == db.nextChunk
            && var (progress, after) := Persisted(mid.value, db.nextDocument, job, |job.rendered|, now);
               && (progress.Going? <==> AllPass(job, db.nextDocument, |job.rendered|, now))
               && (progress.Raised? <==> InsertRaises(job, db.nextDocument, |job.rendered|, now))
               && SameDocuments(mid.value, after)
               && (progress.Going? ==> StoredPlan(mid.value, after, db.nextDocument, PdfPlan(job, |job.rendered|, now)))
  {
    UpsertSound(db, Pdf, job.title, PdfKey(job.sha), job.sha, now, pick);
    UpsertEffect(db, Pdf, job.title, PdfKey(job.sha), job.sha, now, pick);
    var mid := UpsertDocument(db, Pdf, job.title, PdfKey(job.sha), job.sha, now, pick).value;
    PersistStoresPlan(mid, job, |job.rendered|, now);
  }

  /** The shortcut: a file whose hash is known is done without a change. */
  lemma KnownHashIsDone(db: Db, job: PdfJob, now: int, pick: BrandPicker)
    requires job.file.IsFile? && job.hashed && Runs(job.server, FindDocument(job.sha)) && job.sha in db.documents
    ensures PdfAttempt(db, job, now, pick) == (Done(job.sha), db)
  {
  }

  /** A first ingest that ends well leaves the document with its complete chunk set and touches nothing else. */
  lemma PdfIngestIsComplete(db: Db, job: PdfJob, now: int, pick: BrandPicker)
    requires Sound(db) && job.sha !in db.documents && PdfAttempt(db, job, now, pick).0.Done?
    ensures var db' := PdfAttempt(db, job, now, pick).1;
            && Sound(db') && Embedded(job) && db'.documents.Keys == db.documents.Keys + {job.sha}
            && (forall r :: r in db.documents ==> db'.documents[r] == db.documents[r])
            && db'.documents[job.sha]
               == DocRow(db.nextDocument, Pdf, job.title, "pdfs/" + job.sha + ".pdf", DeriveFacet(job.title.reading, pick), now)
            && HasChunks(db', db.nextDocument, PdfPlan(job, |job.rendered|, now))
            && OtherChunksKept(db, db', db.nextDocument)
            && db'.publications == db.publications && db'.pubOrder == db.pubOrder
  {
    AfterUpsert(db, job, now, pick);
    UpsertEffect(db, Pdf, job.title, PdfKey(job.sha), job.sha, now, pick);
  }

  // --- How an attempt ends ---

  /** The file could be hashed and looked up, and no document has its hash. */
  predicate IsNew(db: Db, job: PdfJob) {
    job.file.IsFile? && job.hashed && Runs(job.server, FindDocument(job.sha)) && job.sha !in db.documents
  }

  /** The file's bytes could be read and stored, and it has pages. */
  predicate IsParsed(job: PdfJob) {
    job.readable && job.stored && job.parsed.Some? && job.parsed.value != []
  }

  /** The two statements of the upsert of a new document get through. */
  predicate DocumentRuns(job: PdfJob) {
    Runs(job.server, FindUpserted(job.sha)) && Runs(job.server, WriteDocument(job.sha, job.title.text, PdfKey(job.sha)))
  }

  /**
   * An exception other than an IngestionError escapes exactly when the file check, one of the two reads
   * of the file, or a statement the attempt reaches raises: never for a constraint, and not for an upload.
   */
  lemma UncaughtExactly(db: Db, job: PdfJob, now: int, pick: BrandPicker)
    requires Sound(db)
    ensures PdfAttempt(db, job, now, pick).0.Crashed? <==>
              || job.file.CheckRaises?
              || (job.file.IsFile? && (!job.hashed || !Runs(job.server, FindDocument(job.sha))))
              || (IsNew(db, job) && !job.readable)
              || (IsNew(db, job) && IsParsed(job) && !DocumentRuns(job))
              || (IsNew(db, job) && IsParsed(job) && Embedded(job)
                  && InsertRaises(job, db.nextDocument, |job.rendered|, now))
  {
    if job.sha !in db.documents && Embedded(job) { AfterUpsert(db, job, now, pick); }
  }

  /** A new file is ingested exactly when all its parts are there, every upload works and every statement runs. */
  lemma IngestedExactly(db: Db, job: PdfJob, now: int, pick: BrandPicker)
    requires Sound(db) && job.sha !in db.documents
    ensures PdfAttempt(db, job, now, pick).0.Done? <==>
              && IsNew(db, job) && IsParsed(job) && DocumentRuns(job) && Embedded(job)
              && AllPass(job, db.nextDocument, |job.rendered|, now) && !job.renderFails
  {
    if Embedded(job) { AfterUpsert(db, job, now, pick); }
  }

  lemma PaddingDenotes(n: nat)
    ensures ValueOf(Pad4(n)) == n
  {
    DecimalDenotes(n);
    ZerosDoNotCount(Decimal(n));
    ZerosDoNotCount("0" + Decimal(n));
    ZerosDoNotCount("0" + ("0" + Decimal(n)));
    assert "00" + Decimal(n) == "0" + ("0" + Decimal(n));
    assert "000" + Decimal(n) == "0" + ("0" + ("0" + Decimal(n)));
  }

  /** No two pages of any two files have the same image key: hashes are equally long. */
  lemma PagesHaveOwnImages(sha: string, m: nat, other: string, n: nat)
    requires |sha| == |other| && PngKey(sha, m) == PngKey(other, n)
    ensures sha == other && m == n
  {
    PaddingDenotes(m);
    PaddingDenotes(n);
    var a, b := PngKey(sha, m), PngKey(other, n);
    assert a[6..6 + |sha|] == sha && b[6..6 + |sha|] == other;
    assert a[7 + |sha|..|a| - 4] == Pad4(m) && b[7 + |sha|..|b| - 4] == Pad4(n);
  }

  /** The page of the file that comes last under its number. */
  ghost predicate IsPage(job: PdfJob, n: int, k: nat)
    requires job.parsed.Some?
  {
    && k < |job.parsed.value| && job.parsed.value[k].number == n
    && forall i :: k < i < |job.parsed.value| ==> job.parsed.value[i].number != n
  }

  /** The chunk of a page: its text and its vector, the image stored for it, the file at that page. */
  ghost predicate ChunkIsPage(content: Content, job: PdfJob, n: int, k: nat, now: int)
    requires Embedded(job) && IsPage(job, n, k) && n >= 1
  {
    && content.text == job.parsed.value[k].text && content.embedding == job.embedded.value[k]
    && content.png == Some(PngKey(job.sha, n)) && content.anchor.None? && content.parentAnchor.None?
    && content.sourceUrl == "pdfs/" + job.sha + ".pdf" + "#page=" + Decimal(n) && content.createdAt == now
  }

  /** A chunk is planned for exactly the rendered pages with parsed text, and it is the chunk of that page. */
  lemma PlanPairsPages(job: PdfJob, pages: nat, now: int, n: int)
    requires Embedded(job)
    ensures n in PdfPlan(job, pages, now) <==> 1 <= n <= pages && exists k :: IsPage(job, n, k)
    ensures n in PdfPlan(job, pages, now) ==>
              1 <= n && forall k :: IsPage(job, n, k) ==> ChunkIsPage(PdfPlan(job, pages, now)[n], job, n, k, now)
  {
    LastWithIsLast(job.parsed.value, n);
    if LastWith(job.parsed.value, n).Some? {
      var k := LastWith(job.parsed.value, n).value;
      assert IsPage(job, n, k);
      forall j | IsPage(job, n, j) ensures j == k {}
    }
  }
}
