/** Whole runs of ingestion and discovery commands: transactions, the command line, and what stays true. */
module Lifecycle {
  import opened Prelude
  import opened ProductMatch
  import opened Corpus
  import opened Tables
  import opened Store
  import opened Registry
  import opened Crawler
  import PdfPipeline
  import HtmlPipeline
  import HtmlParser

  /** One transaction of a command; aborted: an exception outside the attempt, up to the commit itself. */
  datatype Tx =
    | PdfTx(pdf: PdfPipeline.PdfJob, now: int, pick: BrandPicker, aborted: bool)
    | HtmlTx(pubId: string, pub: PubRow, html: HtmlPipeline.HtmlJob, now: int, env: HtmlPipeline.HtmlEnv, aborted: bool)
    | CrawlTx(modelIds: seq<string>, web: Web, now: int, aborted: bool)

  /** How the transaction's work ended and what its session saw. */
  function Attempt(db: Db, tx: Tx): (Outcome, Db) {
    match tx
    case PdfTx(job, now, pick, _) => PdfPipeline.PdfAttempt(db, job, now, pick)
    case HtmlTx(pubId, pub, job, now, env, _) => HtmlPipeline.HtmlAttempt(db, pubId, pub, job, now, env)
    case CrawlTx(modelIds, web, _, _) =>
      var (ok, after) := Crawl(db, modelIds, web);
      (if ok then Done("") else Crashed, after)
  }

  predicate Commits(db: Db, tx: Tx) {
    Attempt(db, tx).0.Done? && !tx.aborted
  }

  /** The committed tables after the transaction. */
  function After(db: Db, tx: Tx): Db {
    if Commits(db, tx) then Attempt(db, tx).1 else RolledBack(db, Attempt(db, tx).1)
  }

  function RunTables(db: Db, txs: seq<Tx>): Db {
    if txs == [] then db else After(RunTables(db, txs[..|txs| - 1]), txs[|txs| - 1])
  }

  lemma RunSnoc(db: Db, txs: seq<Tx>, tx: Tx)
    ensures RunTables(db, txs + [tx]) == After(RunTables(db, txs), tx)
  {
    assert (txs + [tx])[..|txs|] == txs;
  }

  // --- The command line ---

  /** async with _PipelineScope: one session for one PDF. */
  method RunIngestOne(db: Db, job: PdfPipeline.PdfJob, now: int, pick: BrandPicker, aborted: bool) returns (rc: int, after: Db)
    ensures after == After(db, PdfTx(job, now, pick, aborted))
    ensures rc == if Commits(db, PdfTx(job, now, pick, aborted)) then 0 else 1
  {
    var session := new Session(db, now, job.server);
    var repo := new Repository(session, pick);
    var pipeline := new PdfPipeline.IngestionPipeline(repo);
    var outcome := pipeline.Ingest(job);
    if outcome.Done? && !aborted {
      session.Commit();
      rc := 0;
    } else {
      session.Rollback();
      rc := 1;
    }
    after := session.committed;
  }

  /** One attempt of a directory run. */
  datatype PdfTry = PdfTry(job: PdfPipeline.PdfJob, now: int, aborted: bool)

  function PdfTxs(tries: seq<PdfTry>, pick: BrandPicker): (txs: seq<Tx>)
    ensures |txs| == |tries|
    ensures forall i :: 0 <= i < |tries| ==> txs[i] == PdfTx(tries[i].job, tries[i].now, pick, tries[i].aborted)
  {
    seq(|tries|, i requires 0 <= i < |tries| => PdfTx(tries[i].job, tries[i].now, pick, tries[i].aborted))
  }

  predicate CommitsAt(db: Db, txs: seq<Tx>, i: nat)
    requires i < |txs|
  {
    Commits(RunTables(db, txs[..i]), txs[i])
  }

  /** Each of the first n transactions committed when its turn came. */
  predicate AllCommit(db: Db, txs: seq<Tx>, n: nat)
    requires n <= |txs|
  {
    n == 0 || (AllCommit(db, txs, n - 1) && CommitsAt(db, txs, n - 1))
  }

  /** ingest-dir: a fresh scope per file; one failure never undoes or stops another. */
  method RunIngestDir(db: Db, isDirectory: bool, tries: seq<PdfTry>, pick: BrandPicker) returns (rc: int, after: Db)
    ensures !isDirectory ==> rc == 2 && after == db
    ensures isDirectory ==> after == RunTables(db, PdfTxs(tries, pick))
    ensures isDirectory ==> (rc == 0 || rc == 1)
    ensures isDirectory ==> (rc == 0 <==> AllCommit(db, PdfTxs(tries, pick), |tries|))
  {
    if !isDirectory {
      return 2, db;
    }
    ghost var txs := PdfTxs(tries, pick);
    rc, after := 0, db;
    for i := 0 to |tries|
      invariant after == RunTables(db, txs[..i]) && (rc == 0 || rc == 1)
      invariant rc == 0 <==> AllCommit(db, txs, i)
    {
      var before, one := after, 0;
      one, after := RunIngestOne(before, tries[i].job, tries[i].now, pick, tries[i].aborted);
      CommitStep(db, txs, i, before, one == 0, after);
      rc := if rc > one then rc else one;
    }
    assert txs[..|tries|] == txs;
  }

  function WithStatusIn(db: Db, order: seq<string>): seq<string>
    requires forall p :: p in order ==> p in db.publications
  {
    if order == [] then []
    else
      (if db.publications[order[0]].status != Tables.Ingested then [order[0]] else []) + WithStatusIn(db, order[1..])
  }

  function Listed(order: seq<string>, wanted: seq<string>): seq<string> {
    if order == [] then [] else (if order[0] in wanted then [order[0]] else []) + Listed(order[1..], wanted)
  }

  /** The publications an ingest-html command takes: the wanted ones, or all that are not up to date. */
  function Targets(db: Db, wanted: seq<string>): seq<string>
    requires forall p :: p in db.pubOrder ==> p in db.publications
  {
    if wanted != [] then Listed(db.pubOrder, wanted) else WithStatusIn(db, db.pubOrder)
  }

  datatype HtmlTry = HtmlTry(job: HtmlPipeline.HtmlJob, now: int, aborted: bool)

  function HtmlTxFor(db: Db, p: string, attempts: string -> HtmlTry, env: HtmlPipeline.HtmlEnv): Tx
    requires p in db.publications
  {
    HtmlTx(p, db.publications[p], attempts(p).job, attempts(p).now, env, attempts(p).aborted)
  }

  /** The rows were read once, before the first transaction. */
  function HtmlTxs(db: Db, targets: seq<string>, attempts: string -> HtmlTry, env: HtmlPipeline.HtmlEnv): (txs: seq<Tx>)
    requires forall p :: p in targets ==> p in db.publications
    ensures |txs| == |targets|
    ensures forall i :: 0 <= i < |targets| ==> targets[i] in db.publications && txs[i] == HtmlTxFor(db, targets[i], attempts, env)
  {
    seq(|targets|, i requires 0 <= i < |targets| && targets[i] in targets => HtmlTxFor(db, targets[i], attempts, env))
  }

  /** One session for one publication; stop: an exception the command does not catch. */
  method RunHtmlOne(db: Db, p: string, pub: PubRow, job: HtmlPipeline.HtmlJob, now: int, env: HtmlPipeline.HtmlEnv, aborted: bool)
    returns (ok: bool, stop: bool, after: Db)
    ensures var tx := HtmlTx(p, pub, job, now, env, aborted);
            && after == After(db, tx) && (ok <==> Commits(db, tx))
            && (stop <==> Stops(db, tx))
  {
    var session := new Session(db, now, job.server);
    var repo := new Repository(session, env.pick);
    var registry := new PublicationRegistry(session);
    var pipeline := new HtmlPipeline.HtmlIngestionPipeline(repo, registry, env);
    var outcome := pipeline.IngestPublication(p, pub, job);
    ok, stop := outcome.Done? && !aborted, aborted || outcome.Crashed?;
    if ok {
      session.Commit();
    } else {
      session.Rollback();
    }
    after := session.committed;
  }

  /** ingest-html. done is how many targets were attempted: all of them unless an uncaught exception ended the run. */
  method RunIngestHtml(db: Db, wanted: seq<string>, attempts: string -> HtmlTry, env: HtmlPipeline.HtmlEnv)
    returns (rc: int, after: Db, done: nat)
    requires RegistrySound(db)
    ensures (exists p :: p in wanted && p !in db.publications) ==> rc == 2 && after == db && done == 0
    ensures !(exists p :: p in wanted && p !in db.publications) ==>
              var targets := Targets(db, wanted);
              && (forall p :: p in targets ==> p in db.publications)
              && StopsAfter(db, HtmlTxs(db, targets, attempts, env), done)
              && after == RunTables(db, HtmlTxs(db, targets, attempts, env)[..done])
              && (rc == 0 <==> done == |targets| && AllCommit(db, HtmlTxs(db, targets, attempts, env), done))
  {
    if exists p :: p in wanted && p !in db.publications {
      return 2, db, 0;
    }
    var targets := Targets(db, wanted);
    TargetsAreRegistered(db, wanted);
    rc, after, done := RunTargets(db, targets, attempts, env, HtmlTxs(db, targets, attempts, env));
  }

  /** An uncaught exception ends the run in its i-th transaction. */
  predicate StopsAt(db: Db, txs: seq<Tx>, i: nat)
    requires i < |txs|
  {
    Stops(RunTables(db, txs[..i]), txs[i])
  }

  predicate Stops(db: Db, tx: Tx) {
    tx.aborted || Attempt(db, tx).0.Crashed?
  }

  /** None of the first n transactions ends the run. */
  predicate NoneStops(db: Db, txs: seq<Tx>, n: nat)
    requires n <= |txs|
  {
    n == 0 || (NoneStops(db, txs, n - 1) && !StopsAt(db, txs, n - 1))
  }

  /** The run made exactly these transactions: no earlier one stopped it, and if some are left the last one did. */
  ghost predicate StopsAfter(db: Db, txs: seq<Tx>, done: nat) {
    && done <= |txs| && (done > 0 ==> NoneStops(db, txs, done - 1))
    && (done < |txs| ==> done > 0 && StopsAt(db, txs, done - 1))
  }

  method RunTargets(
    db: Db, targets: seq<string>, attempts: string -> HtmlTry, env: HtmlPipeline.HtmlEnv, ghost txs: seq<Tx>)
    returns (rc: int, after: Db, done: nat)
    requires AreTxsOf(txs, db, targets, attempts, env)
    ensures StopsAfter(db, txs, done) && after == RunTables(db, txs[..done])
    ensures rc == 0 <==> done == |targets| && AllCommit(db, txs, done)
  {
    rc, after, done := 0, db, 0;
    var stop := false;
    while done < |targets| && !stop
      invariant Progressed(db, txs, rc, after, done, stop)
      decreases |targets| - done
    {
      rc, after, stop := RunTarget(db, targets, attempts, env, txs, rc, after, done);
      done := done + 1;
    }
  }

  /** The state of the loop: what the first transactions left, whether all committed, whether the last one ends the run. */
  ghost predicate Progressed(db: Db, txs: seq<Tx>, rc: int, after: Db, done: nat, stop: bool) {
    && done <= |txs| && after == RunTables(db, txs[..done])
    && (rc == 0 <==> AllCommit(db, txs, done))
    && (stop ==> rc != 0 && done > 0 && StopsAt(db, txs, done - 1))
    && if stop then NoneStops(db, txs, done - 1) else NoneStops(db, txs, done)
  }

  lemma ProgressStep(db: Db, txs: seq<Tx>, rc: int, before: Db, done: nat, ok: bool, stop: bool, after: Db)
    requires done < |txs| && Progressed(db, txs, rc, before, done, false)
    requires after == After(before, txs[done]) && ok == Commits(before, txs[done]) && stop == Stops(before, txs[done]) && (stop ==> !ok)
    ensures Progressed(db, txs, if ok then rc else 1, after, done + 1, stop)
  {
    CommitStep(db, txs, done, before, ok, after);
  }

  /** The transactions of a command, target by target. */
  ghost predicate AreTxsOf(txs: seq<Tx>, db: Db, targets: seq<string>, attempts: string -> HtmlTry, env: HtmlPipeline.HtmlEnv) {
    |txs| == |targets|
    && forall i :: 0 <= i < |targets| ==> targets[i] in db.publications && txs[i] == HtmlTxFor(db, targets[i], attempts, env)
  }

  lemma TxOfTarget(
    txs: seq<Tx>, db: Db, targets: seq<string>, attempts: string -> HtmlTry, env: HtmlPipeline.HtmlEnv, i: nat)
    requires AreTxsOf(txs, db, targets, attempts, env) && i < |targets|
    ensures targets[i] in db.publications
    ensures var p, attempt := targets[i], attempts(targets[i]);
            txs[i] == HtmlTx(p, db.publications[p], attempt.job, attempt.now, env, attempt.aborted)
  {
  }

  /** One more transaction of a command. */
  lemma CommitStep(db: Db, txs: seq<Tx>, i: nat, before: Db, ok: bool, after: Db)
    requires i < |txs| && before == RunTables(db, txs[..i]) && after == After(before, txs[i]) && ok == Commits(before, txs[i])
    ensures after == RunTables(db, txs[..i + 1]) && AllCommit(db, txs, i + 1) == (AllCommit(db, txs, i) && ok)
  {
    TablesStep(db, txs, i);
    AllCommitStep(db, txs, i);
  }

  lemma TablesStep(db: Db, txs: seq<Tx>, i: nat)
    requires i < |txs|
    ensures RunTables(db, txs[..i + 1]) == After(RunTables(db, txs[..i]), txs[i])
  {
    assert txs[..i + 1] == txs[..i] + [txs[i]];
    RunSnoc(db, txs[..i], txs[i]);
  }

  lemma AllCommitStep(db: Db, txs: seq<Tx>, i: nat)
    requires i < |txs|
    ensures AllCommit(db, txs, i + 1) == (AllCommit(db, txs, i) && Commits(RunTables(db, txs[..i]), txs[i]))
  {
  }

  /** The loop body: the next target, with the row read at the start. */
  method RunTarget(
    db: Db, targets: seq<string>, attempts: string -> HtmlTry, env: HtmlPipeline.HtmlEnv, ghost txs: seq<Tx>,
    code: int, before: Db, i: nat)
    returns (rc: int, after: Db, stop: bool)
    requires AreTxsOf(txs, db, targets, attempts, env) && i < |targets| && Progressed(db, txs, code, before, i, false)
    ensures Progressed(db, txs, rc, after, i + 1, stop)
  {
    var p := targets[i];
    TxOfTarget(txs, db, targets, attempts, env, i);
    var ok;
    ok, stop, after := RunHtmlOne(
      before, p, db.publications[p], attempts(p).job, attempts(p).now, env, attempts(p).aborted);
    ProgressStep(db, txs, code, before, i, ok, stop, after);
    rc := if ok then code else 1;
  }

  lemma {:induction false} ListedMembers(order: seq<string>, wanted: seq<string>)
    ensures forall p :: p in Listed(order, wanted) <==> p in order && p in wanted
  {
    if order != [] {
      ListedMembers(order[1..], wanted);
      assert order == [order[0]] + order[1..];
    }
  }

  lemma {:induction false} WithStatusMembers(db: Db, order: seq<string>)
    requires forall p :: p in order ==> p in db.publications
    ensures forall p :: p in WithStatusIn(db, order) <==> p in order && db.publications[p].status != Tables.Ingested
  {
    if order != [] {
      WithStatusMembers(db, order[1..]);
      assert order == [order[0]] + order[1..];
    }
  }

  /** Targets are taken in registration order, each once. */
  lemma TargetsInOrder(db: Db, wanted: seq<string>, p: string, q: string)
    requires RegistrySound(db) && Before(Targets(db, wanted), p, q)
    ensures Before(db.pubOrder, p, q) && p != q
  {
    if wanted != [] {
      ListedInOrder(db.pubOrder, wanted, p, q);
    } else {
      WithStatusInOrder(db, db.pubOrder, p, q);
    }
    BeforeDistinctAsymmetric(db.pubOrder, p, q);
  }

  lemma {:induction false} ListedInOrder(order: seq<string>, wanted: seq<string>, p: string, q: string)
    requires Before(Listed(order, wanted), p, q)
    ensures Before(order, p, q)
  {
    var rest := Listed(order[1..], wanted);
    assert order == [order[0]] + order[1..];
    ListedMembers(order[1..], wanted);
    BeforeCons(order[0], order[1..], p, q);
    if order[0] in wanted { BeforeCons(order[0], rest, p, q); }
    if Before(rest, p, q) { ListedInOrder(order[1..], wanted, p, q); }
  }

  lemma {:induction false} WithStatusInOrder(db: Db, order: seq<string>, p: string, q: string)
    requires (forall r :: r in order ==> r in db.publications) && Before(WithStatusIn(db, order), p, q)
    ensures Before(order, p, q)
  {
    var rest := WithStatusIn(db, order[1..]);
    assert order == [order[0]] + order[1..];
    WithStatusMembers(db, order[1..]);
    BeforeCons(order[0], order[1..], p, q);
    if db.publications[order[0]].status != Tables.Ingested { BeforeCons(order[0], rest, p, q); }
    if Before(rest, p, q) { WithStatusInOrder(db, order[1..], p, q); }
  }

  lemma TargetsAreRegistered(db: Db, wanted: seq<string>)
    requires RegistrySound(db)
    ensures forall p :: p in Targets(db, wanted) ==> p in db.publications
    ensures wanted == [] ==> forall p :: p in Targets(db, wanted) <==> p in db.publications && db.publications[p].status != Tables.Ingested
    ensures wanted != [] ==> forall p :: p in Targets(db, wanted) <==> p in db.publications && p in wanted
  {
    ListedMembers(db.pubOrder, wanted);
    WithStatusMembers(db, db.pubOrder);
  }

  /** seed and sitemap discovery: one transaction for the whole crawl. */
  method RunDiscovery(db: Db, modelIds: seq<string>, web: Web, now: int, aborted: bool) returns (ok: bool, after: Db)
    ensures var tx := CrawlTx(modelIds, web, now, aborted);
            after == After(db, tx) && (ok <==> Commits(db, tx))
  {
    var session := new Session(db, now, web.server);
    var registry := new PublicationRegistry(session);
    var crawler := new DiscoveryCrawler(registry);
    ok := crawler.DiscoverSeed(modelIds, web);
    ok := ok && !aborted;
    if ok {
      session.Commit();
    } else {
      session.Rollback();
    }
    after := session.committed;
  }

  // --- History ---

  /** The tables with what led to them: the last committed ingest of every document, and the registry events. */
  datatype State = State(db: Db, ledger: map<string, Entry>, history: seq<Event>)

  /** The last committed ingest of a document and the complete chunk set it had to store. */
  datatype Entry = Entry(tx: Tx, plan: map<int, Content>)

  /** The complete chunk set of an ingest; nothing when its inputs do not fit together. */
  function PlanOf(tx: Tx): map<int, Content> {
    match tx
    case PdfTx(job, now, _, _) => if PdfPipeline.Embedded(job) then PdfPipeline.PdfPlan(job, |job.rendered|, now) else map[]
    case HtmlTx(_, pub, job, now, env, _) => if HtmlPipeline.Fits(pub, job, env) then HtmlPipeline.JobPlan(pub, job, now, env) else map[]
    case CrawlTx(_, _, _, _) => map[]
  }

  const EMPTY := State(Db(map[], map[], map[], [], 1, 1), map[], [])

  function Ledger(s: State, tx: Tx): map<string, Entry> {
    if !Commits(s.db, tx) then s.ledger
    else
      match tx
      case PdfTx(job, _, _, _) => if job.sha in s.db.documents then s.ledger else s.ledger[job.sha := Entry(tx, PlanOf(tx))]
      case HtmlTx(pubId, _, _, _, _, _) => s.ledger[pubId := Entry(tx, PlanOf(tx))]
      case CrawlTx(_, _, _, _) => s.ledger
  }

  function Events(s: State, tx: Tx): seq<Event> {
    if !Commits(s.db, tx) then []
    else
      match tx
      case PdfTx(_, _, _, _) => []
      case HtmlTx(pubId, _, _, _, _, _) => [IngestDone(pubId)]
      case CrawlTx(modelIds, web, _, _) => CrawlEvents(modelIds, web)
  }

  function Next(s: State, tx: Tx): State {
    State(After(s.db, tx), Ledger(s, tx), s.history + Events(s, tx))
  }

  function Run(s: State, txs: seq<Tx>): State {
    if txs == [] then s else Next(Run(s, txs[..|txs| - 1]), txs[|txs| - 1])
  }

  lemma {:induction false} RunHasTables(s: State, txs: seq<Tx>)
    ensures Run(s, txs).db == RunTables(s.db, txs)
  {
    if txs != [] { RunHasTables(s, txs[..|txs| - 1]); }
  }

  // --- The invariant ---

  /** The entry is of an ingest of this document, with the complete chunk set of that ingest. */
  ghost predicate Faithful(ref: string, entry: Entry) {
    && entry.plan == PlanOf(entry.tx)
    && ((entry.tx.PdfTx? && entry.tx.pdf.sha == ref && PdfPipeline.Embedded(entry.tx.pdf))
        || (entry.tx.HtmlTx? && entry.tx.pubId == ref && HtmlPipeline.Fits(entry.tx.pub, entry.tx.html, entry.tx.env)))
  }

  /** The document under ref is of the entry's kind and holds exactly its chunks. */
  ghost predicate Holds(db: Db, ref: string, entry: Entry)
    requires ref in db.documents
  {
    db.documents[ref].sourceType == (if entry.tx.PdfTx? then Pdf else Html)
    && HasChunks(db, db.documents[ref].id, entry.plan)
  }

  /** Every document of the ledger is there and complete. Documents from before the run have no entry. */
  ghost predicate Complete(db: Db, ledger: map<string, Entry>) {
    forall ref :: ref in ledger ==> ref in db.documents && Holds(db, ref, ledger[ref])
  }

  ghost predicate LedgerFaithful(ledger: map<string, Entry>) {
    forall ref :: ref in ledger ==> Faithful(ref, ledger[ref])
  }

  ghost predicate Inv(s: State) {
    && Sound(s.db) && RegistrySound(s.db) && Complete(s.db, s.ledger) && LedgerFaithful(s.ledger)
    && forall p :: Tracks(s.db, s.history, p)
  }

  /** The same rows, and sequences that moved up at most. */
  ghost predicate SameRows(db: Db, db': Db) {
    && db'.documents == db.documents && db'.chunks == db.chunks && db'.publications == db.publications
    && db'.pubOrder == db.pubOrder && db.nextDocument <= db'.nextDocument && db.nextChunk <= db'.nextChunk
  }

  /** Documents and chunks as before, the sequence no lower: integrity and completeness carry over. */
  lemma SameDocumentsSound(db: Db, db': Db)
    requires Sound(db) && db'.documents == db.documents && db'.chunks == db.chunks && db.nextDocument <= db'.nextDocument
    ensures Sound(db')
  {
    forall k | k in db'.chunks ensures HasId(db', k.0) { assert HasId(db, k.0); }
  }

  lemma SameDocumentsComplete(db: Db, db': Db, ledger: map<string, Entry>)
    requires Complete(db, ledger) && db'.documents == db.documents && db'.chunks == db.chunks
    ensures Complete(db', ledger)
  {
    forall ref | ref in ledger ensures ref in db'.documents && Holds(db', ref, ledger[ref]) {
      SameDocumentsHold(db, db', ref, ledger[ref]);
    }
  }

  lemma SameDocumentsHold(db: Db, db': Db, ref: string, entry: Entry)
    requires ref in db.documents && Holds(db, ref, entry) && db'.documents == db.documents && db'.chunks == db.chunks
    ensures Holds(db', ref, entry)
  {
  }

  lemma SamePublicationsTracked(db: Db, db': Db, history: seq<Event>)
    requires forall p :: Tracks(db, history, p)
    requires db'.publications == db.publications
    ensures forall p :: Tracks(db', history, p)
  {
    forall p ensures Tracks(db', history, p) { assert Tracks(db, history, p); }
  }

  lemma SameRowsKeepInv(db: Db, db': Db, ledger: map<string, Entry>, history: seq<Event>)
    requires Inv(State(db, ledger, history)) && SameRows(db, db')
    ensures Inv(State(db', ledger, history))
  {
    SameDocumentsSound(db, db');
    SameDocumentsComplete(db, db', ledger);
    SamePublicationsTracked(db, db', history);
  }

  /** Sequences never move down in any attempt. */
  lemma SequencesMoveUp(db: Db, tx: Tx)
    requires Sound(db)
    ensures SameRows(db, RolledBack(db, Attempt(db, tx).1))
  {
    match tx
    case PdfTx(job, now, pick, _) => PdfPipeline.PdfAttemptSequences(db, job, now, pick);
    case HtmlTx(pubId, pub, job, now, env, _) => HtmlPipeline.HtmlIngestIsComplete(db, pubId, pub, job, now, env);
    case CrawlTx(modelIds, web, _, _) => CrawlTouchesOnlyPublications(db, modelIds, web);
  }

  /** One document was stored completely, everything else is as before: completeness carries over. */
  lemma StoredKeepsComplete(db: Db, db': Db, ledger: map<string, Entry>, ref: string, entry: Entry)
    requires Complete(db, ledger) && db'.documents.Keys == db.documents.Keys + {ref}
    requires forall r :: r in db.documents && r != ref ==> db.documents[r].id != db'.documents[ref].id
    requires forall r :: r in db.documents && r != ref ==> db'.documents[r] == db.documents[r]
    requires Holds(db', ref, entry) && OtherChunksKept(db, db', db'.documents[ref].id)
    ensures Complete(db', ledger[ref := entry])
  {
    forall r | r in ledger && r != ref ensures r in db'.documents && Holds(db', r, ledger[r]) {
      assert r in db.documents && Holds(db, r, ledger[r]);
      KeptChunks(db, db', db'.documents[ref].id, db.documents[r].id, ledger[r].plan);
    }
  }

  lemma KeptChunks(db: Db, db': Db, changed: int, document: int, plan: map<int, Content>)
    requires OtherChunksKept(db, db', changed) && document != changed && HasChunks(db, document, plan)
    ensures HasChunks(db', document, plan)
  {
    forall o ensures ((document, o) in db'.chunks <==> o in plan) && (o in plan ==> db'.chunks[(document, o)].content == plan[o]) {
      assert (document, o).0 != changed;
    }
  }

  /** A transaction that does not commit leaves every row as it was; ids its attempt took are never given again. */
  lemma FailureLeavesOnlySequences(db: Db, tx: Tx)
    requires !Commits(db, tx)
    ensures var after, attempt := After(db, tx), Attempt(db, tx).1;
            && after.documents == db.documents && after.chunks == db.chunks
            && after.publications == db.publications && after.pubOrder == db.pubOrder
            && after.nextDocument == attempt.nextDocument && after.nextChunk == attempt.nextChunk
  {
  }

  lemma PdfKeepsInv(s: State, tx: Tx)
    requires Inv(s) && tx.PdfTx? && Commits(s.db, tx) && tx.pdf.sha !in s.db.documents
    ensures Inv(Next(s, tx))
  {
    PdfPipeline.PdfIngestIsComplete(s.db, tx.pdf, tx.now, tx.pick);
    assert s.history + [] == s.history;
    NewDocumentKeepsInv(s, Next(s, tx).db, tx.pdf.sha, Entry(tx, PlanOf(tx)));
  }

  /** A new document with its complete chunk set, and nothing else. */
  lemma NewDocumentKeepsInv(s: State, db': Db, ref: string, entry: Entry)
    requires Inv(s) && Sound(db') && ref !in s.db.documents && db'.documents.Keys == s.db.documents.Keys + {ref}
    requires forall r :: r in s.db.documents ==> db'.documents[r] == s.db.documents[r]
    requires db'.documents[ref].id == s.db.nextDocument && Holds(db', ref, entry) && Faithful(ref, entry)
    requires OtherChunksKept(s.db, db', s.db.nextDocument)
    requires db'.publications == s.db.publications && db'.pubOrder == s.db.pubOrder
    ensures Inv(State(db', s.ledger[ref := entry], s.history))
  {
    StoredKeepsComplete(s.db, db', s.ledger, ref, entry);
    SamePublicationsTracked(s.db, db', s.history);
    SameRegistrySound(s.db, db');
    EntryKeepsFaithful(s.ledger, ref, entry);
  }

  lemma SameRegistrySound(db: Db, db': Db)
    requires RegistrySound(db) && db'.publications == db.publications && db'.pubOrder == db.pubOrder
    ensures RegistrySound(db')
  {
  }

  lemma EntryKeepsFaithful(ledger: map<string, Entry>, ref: string, entry: Entry)
    requires LedgerFaithful(ledger) && Faithful(ref, entry)
    ensures LedgerFaithful(ledger[ref := entry])
  {
  }

  lemma HtmlKeepsInv(s: State, tx: Tx)
    requires Inv(s) && tx.HtmlTx? && Commits(s.db, tx)
    ensures Inv(Next(s, tx))
  {
    var db', p := Next(s, tx).db, tx.pubId;
    HtmlPipeline.HtmlIngestIsComplete(s.db, p, tx.pub, tx.html, tx.now, tx.env);
    StoredKeepsComplete(s.db, db', s.ledger, p, Entry(tx, PlanOf(tx)));
    FlipKeepsRegistry(s.db, db', p);
    FlipKeepsTracks(s.db, db', s.history, p);
    EntryKeepsFaithful(s.ledger, p, Entry(tx, PlanOf(tx)));
  }

  lemma FlipKeepsTracks(db: Db, db': Db, history: seq<Event>, p: string)
    requires (forall q :: Tracks(db, history, q)) && p in db.publications
    requires db'.publications == WithStatus(db, p, Tables.Ingested).value.publications
    ensures forall q :: Tracks(db', history + [IngestDone(p)], q)
  {
    forall q ensures Tracks(db', history + [IngestDone(p)], q) {
      assert Tracks(db, history, q);
      IngestTracks(db, history, p, q);
    }
  }

  lemma FlipKeepsRegistry(db: Db, db': Db, p: string)
    requires RegistrySound(db) && p in db.publications && db'.pubOrder == db.pubOrder
    requires db'.publications == WithStatus(db, p, Tables.Ingested).value.publications
    ensures RegistrySound(db')
  {
  }

  lemma CrawlKeepsInv(s: State, tx: Tx)
    requires Inv(s) && tx.CrawlTx? && Commits(s.db, tx)
    ensures Inv(Next(s, tx))
  {
    var db' := Next(s, tx).db;
    CrawlTouchesOnlyPublications(s.db, tx.modelIds, tx.web);
    SameDocumentsSound(s.db, db');
    SameDocumentsComplete(s.db, db', s.ledger);
    forall p ensures Tracks(db', s.history + CrawlEvents(tx.modelIds, tx.web), p) {
      CrawlTracks(s.db, s.history, tx.modelIds, tx.web, p);
    }
  }

  lemma NextKeepsInv(s: State, tx: Tx)
    requires Inv(s)
    ensures Inv(Next(s, tx))
  {
    if !Commits(s.db, tx) {
      SequencesMoveUp(s.db, tx);
      SameRowsKeepInv(s.db, After(s.db, tx), s.ledger, s.history);
      assert s.history + [] == s.history;
    } else if tx.PdfTx? {
      if tx.pdf.sha in s.db.documents {
        assert s.history + [] == s.history;
      } else {
        PdfKeepsInv(s, tx);
      }
    } else if tx.HtmlTx? {
      HtmlKeepsInv(s, tx);
    } else {
      CrawlKeepsInv(s, tx);
    }
  }

  lemma {:induction false} RunKeepsInv(s: State, txs: seq<Tx>)
    requires Inv(s)
    ensures Inv(Run(s, txs))
  {
    if txs != [] {
      RunKeepsInv(s, txs[..|txs| - 1]);
      NextKeepsInv(Run(s, txs[..|txs| - 1]), txs[|txs| - 1]);
    }
  }

  lemma EmptyInv()
    ensures Inv(EMPTY)
  {
    forall p ensures Tracks(EMPTY.db, EMPTY.history, p) {}
  }

  // --- What every run guarantees ---

  /** No entry is lost, and every document is an old one or has an entry. */
  lemma {:induction false} LedgerCovers(s: State, txs: seq<Tx>)
    requires Inv(s)
    ensures EntriesFit(s, Run(s, txs))
  {
    if txs != [] {
      var n := |txs| - 1;
      LedgerCovers(s, txs[..n]);
      RunKeepsInv(s, txs[..n]);
      NextEntries(Run(s, txs[..n]), txs[n]);
    }
  }

  /** A transaction adds a document exactly with an entry for it. */
  lemma NextEntries(s: State, tx: Tx)
    requires Inv(s)
    ensures EntriesFit(s, Next(s, tx))
  {
    assert s.ledger.Keys <= s.db.documents.Keys;
    if Commits(s.db, tx) {
      match tx
      case PdfTx(_, _, _, _) => PdfEntries(s, tx);
      case HtmlTx(_, _, _, _, _, _) => HtmlEntries(s, tx);
      case CrawlTx(modelIds, web, _, _) => CrawlTouchesOnlyPublications(s.db, modelIds, web);
    }
  }

  ghost predicate EntriesFit(s: State, t: State) {
    s.ledger.Keys <= t.ledger.Keys && t.db.documents.Keys == s.db.documents.Keys + t.ledger.Keys
  }

  lemma PdfEntries(s: State, tx: Tx)
    requires Inv(s) && tx.PdfTx? && Commits(s.db, tx) && s.ledger.Keys <= s.db.documents.Keys
    ensures EntriesFit(s, Next(s, tx))
  {
    if tx.pdf.sha !in s.db.documents {
      PdfPipeline.PdfIngestIsComplete(s.db, tx.pdf, tx.now, tx.pick);
      OneEntry(s, Next(s, tx), tx.pdf.sha, Entry(tx, PlanOf(tx)));
    }
  }

  lemma HtmlEntries(s: State, tx: Tx)
    requires Inv(s) && tx.HtmlTx? && Commits(s.db, tx) && s.ledger.Keys <= s.db.documents.Keys
    ensures EntriesFit(s, Next(s, tx))
  {
    HtmlPipeline.HtmlIngestIsComplete(s.db, tx.pubId, tx.pub, tx.html, tx.now, tx.env);
    OneEntry(s, Next(s, tx), tx.pubId, Entry(tx, PlanOf(tx)));
  }

  lemma OneEntry(s: State, t: State, ref: string, entry: Entry)
    requires s.ledger.Keys <= s.db.documents.Keys && t.ledger == s.ledger[ref := entry]
    requires t.db.documents.Keys == s.db.documents.Keys + {ref}
    ensures EntriesFit(s, t)
  {
    assert t.ledger.Keys == s.ledger.Keys + {ref};
  }

  /** The document was not there before the run, or its ingest is on record. */
  predicate Recorded(s: State, ref: string) {
    ref in s.db.documents ==> ref in s.ledger
  }

  /**
   * Over every run, from whatever tables, a committed document that was not there before it holds exactly
   * the complete chunk set of its last successful ingest; in particular a PDF chunk carries the image key
   * of its own page.
   */
  lemma CommittedDocumentsAreComplete(s: State, txs: seq<Tx>, ref: string)
    requires Inv(s) && Recorded(s, ref) && ref in Run(s, txs).db.documents
    ensures var t := Run(s, txs);
            && ref in t.ledger && Faithful(ref, t.ledger[ref]) && Holds(t.db, ref, t.ledger[ref])
            && forall o :: t.db.documents[ref].sourceType == Pdf && (t.db.documents[ref].id, o) in t.db.chunks ==>
                 o >= 1 && t.db.chunks[(t.db.documents[ref].id, o)].content.png == Some(PdfPipeline.PngKey(ref, o))
  {
    RunKeepsInv(s, txs);
    LedgerCovers(s, txs);
    EntryIsComplete(Run(s, txs), ref);
  }

  lemma EntryIsComplete(t: State, ref: string)
    requires Inv(t) && ref in t.ledger
    ensures ref in t.db.documents && Faithful(ref, t.ledger[ref]) && Holds(t.db, ref, t.ledger[ref])
    ensures forall o :: t.db.documents[ref].sourceType == Pdf && (t.db.documents[ref].id, o) in t.db.chunks ==>
              o >= 1 && t.db.chunks[(t.db.documents[ref].id, o)].content.png == Some(PdfPipeline.PngKey(ref, o))
  {
    var entry := t.ledger[ref];
    assert Holds(t.db, ref, entry) && Faithful(ref, entry);
    var id := t.db.documents[ref].id;
    forall o | entry.tx.PdfTx? && (id, o) in t.db.chunks
      ensures o >= 1 && t.db.chunks[(id, o)].content.png == Some(PdfPipeline.PngKey(ref, o))
    {
      assert o in entry.plan;
      PdfPipeline.PlanPairsPages(entry.tx.pdf, |entry.tx.pdf.rendered|, entry.tx.now, o);
      var k :| PdfPipeline.IsPage(entry.tx.pdf, o, k);
    }
  }

  /**
   * What the chunks of a committed document are, over every run: for a PDF the rendered pages with text of
   * its ingest, each with its own text, vector, image and link; for a publication the pieces of the page
   * last ingested, each with its own text, vector, anchors and link.
   */
  lemma CommittedChunksAreTheirs(s: State, txs: seq<Tx>, ref: string, o: int)
    requires Inv(s) && Recorded(s, ref) && ref in Run(s, txs).db.documents
    ensures var t := Run(s, txs);
            && ref in t.ledger
            && var tx, key := t.ledger[ref].tx, (t.db.documents[ref].id, o);
               if t.db.documents[ref].sourceType == Pdf then
                 && tx.PdfTx? && tx.pdf.sha == ref && PdfPipeline.Embedded(tx.pdf)
                 && (key in t.db.chunks <==> 1 <= o <= |tx.pdf.rendered| && exists k :: PdfPipeline.IsPage(tx.pdf, o, k))
                 && (key in t.db.chunks ==>
                       forall k :: PdfPipeline.IsPage(tx.pdf, o, k) ==>
                         PdfPipeline.ChunkIsPage(t.db.chunks[key].content, tx.pdf, o, k, tx.now))
               else
                 && tx.HtmlTx? && tx.pubId == ref && HtmlPipeline.Fits(tx.pub, tx.html, tx.env)
                 && var pieces := HtmlParser.Parse(tx.html.page, tx.pub.details.sourceUrl, tx.env.tools).parsed.chunks;
                    && (key in t.db.chunks <==> 1 <= o <= |pieces|)
                    && (key in t.db.chunks ==>
                          HtmlPipeline.ChunkIsPiece(t.db.chunks[key].content, pieces[o - 1], tx.html.embedded.value[o - 1], tx.now))
  {
    CommittedDocumentsAreComplete(s, txs, ref);
    var t := Run(s, txs);
    var tx := t.ledger[ref].tx;
    if tx.PdfTx? {
      PdfPipeline.PlanPairsPages(tx.pdf, |tx.pdf.rendered|, tx.now, o);
    } else {
      var parsed := HtmlParser.Parse(tx.html.page, tx.pub.details.sourceUrl, tx.env.tools).parsed;
      HtmlPipeline.PlanPairsPieces(parsed, tx.html.embedded.value, |parsed.chunks|, tx.now, o);
    }
    assert (t.db.documents[ref].id, o) in t.db.chunks <==> o in t.ledger[ref].plan;
  }

  /**
   * The content-hash shortcut never skips unfinished work: it changes nothing, and the document it
   * returns, unless it is older than the run, holds the complete chunk set of the ingest that committed it.
   * That ingest was a PDF ingest of the same hash, unless a publication id equals the hash, which the
   * shortcut does not check.
   */
  lemma ShortcutIsSound(s: State, txs: seq<Tx>, job: PdfPipeline.PdfJob, now: int, pick: BrandPicker)
    requires Inv(s) && Recorded(s, job.sha)
    requires job.file.IsFile? && job.hashed && Runs(job.server, FindDocument(job.sha))
    requires job.sha in Run(s, txs).db.documents
    ensures var t := Run(s, txs);
            && PdfPipeline.PdfAttempt(t.db, job, now, pick) == (Done(job.sha), t.db)
            && job.sha in t.ledger && Faithful(job.sha, t.ledger[job.sha]) && Holds(t.db, job.sha, t.ledger[job.sha])
            && ((t.ledger[job.sha].tx.PdfTx? && t.ledger[job.sha].tx.pdf.sha == job.sha)
                <==> t.db.documents[job.sha].sourceType == Pdf)
  {
    CommittedDocumentsAreComplete(s, txs, job.sha);
  }

  /** Each of the first n transactions committed: their files' documents are there. */
  lemma {:induction false} CommittedFilesAreThere(s: State, txs: seq<Tx>, n: nat, i: nat)
    requires Inv(s) && i < n <= |txs| && AllCommit(s.db, txs, n)
    requires forall j :: 0 <= j < n ==> txs[j].PdfTx?
    ensures txs[i].pdf.sha in Run(s, txs[..n]).db.documents
  {
    FilesStep(s, txs, n - 1);
    if i < n - 1 { CommittedFilesAreThere(s, txs, n - 1, i); }
  }

  /** One more committed file: its document is there, and no other one is gone. */
  lemma FilesStep(s: State, txs: seq<Tx>, n: nat)
    requires Inv(s) && n < |txs| && CommitsAt(s.db, txs, n) && txs[n].PdfTx?
    ensures Run(s, txs[..n]).db.documents.Keys + {txs[n].pdf.sha} <= Run(s, txs[..n + 1]).db.documents.Keys
  {
    assert txs[..n + 1][..n] == txs[..n];
    RunHasTables(s, txs[..n]);
    RunKeepsInv(s, txs[..n]);
    LastFileIsThere(Run(s, txs[..n]), txs[n]);
    NextEntries(Run(s, txs[..n]), txs[n]);
  }

  lemma LastFileIsThere(s: State, tx: Tx)
    requires Inv(s) && tx.PdfTx? && Commits(s.db, tx)
    ensures tx.pdf.sha in Next(s, tx).db.documents
  {
    if tx.pdf.sha !in s.db.documents { PdfPipeline.PdfIngestIsComplete(s.db, tx.pdf, tx.now, tx.pick); }
  }

  /** The same of the whole run, with what the documents hold. */
  lemma CommittedFilesAreComplete(s: State, txs: seq<Tx>, i: nat)
    requires Inv(s) && i < |txs| && AllCommit(s.db, txs, |txs|) && forall j :: 0 <= j < |txs| ==> txs[j].PdfTx?
    ensures var t, ref := Run(s, txs), txs[i].pdf.sha;
            ref in t.db.documents
            && (Recorded(s, ref) ==> ref in t.ledger && Faithful(ref, t.ledger[ref]) && Holds(t.db, ref, t.ledger[ref]))
  {
    CommittedFilesAreThere(s, txs, |txs|, i);
    assert txs[..|txs|] == txs;
    if Recorded(s, txs[i].pdf.sha) { CommittedDocumentsAreComplete(s, txs, txs[i].pdf.sha); }
  }

  /**
   * A directory run that returns 0 leaves, for each of its files, the document of that hash; it holds the
   * complete chunk set of the ingest that stored it, unless it is older than the record.
   */
  lemma {:induction false} CleanDirectoryRun(s: State, tries: seq<PdfTry>, pick: BrandPicker, i: nat)
    requires Inv(s) && i < |tries| && AllCommit(s.db, PdfTxs(tries, pick), |tries|)
    ensures var t, ref := Run(s, PdfTxs(tries, pick)), tries[i].job.sha;
            && t.db == RunTables(s.db, PdfTxs(tries, pick)) && ref in t.db.documents
            && (Recorded(s, ref) ==> ref in t.ledger && Faithful(ref, t.ledger[ref]) && Holds(t.db, ref, t.ledger[ref]))
  {
    RunHasTables(s, PdfTxs(tries, pick));
    CommittedFilesAreComplete(s, PdfTxs(tries, pick), i);
  }

  /** The other case: after any committed ingest of a publication, a file whose hash is its id is taken for ingested. */
  lemma ShortcutReturnsHtml(s: State, tx: Tx, job: PdfPipeline.PdfJob, now: int, pick: BrandPicker)
    requires Inv(s) && tx.HtmlTx? && Commits(s.db, tx) && job.sha == tx.pubId
    requires job.file.IsFile? && job.hashed && Runs(job.server, FindDocument(job.sha))
    ensures var db := Next(s, tx).db;
            && PdfPipeline.PdfAttempt(db, job, now, pick) == (Done(job.sha), db)
            && job.sha in db.documents && db.documents[job.sha].sourceType == Html
  {
    HtmlPipeline.HtmlIngestIsComplete(s.db, tx.pubId, tx.pub, tx.html, tx.now, tx.env);
  }

  /** A document row is never removed; its id, type and creation time never change, and a PDF's row not at all. */
  lemma {:induction false} IdentityIsPermanent(s: State, txs: seq<Tx>, ref: string)
    requires Inv(s) && ref in s.db.documents
    ensures var db' := Run(s, txs).db;
            && ref in db'.documents && db'.documents[ref].id == s.db.documents[ref].id
            && db'.documents[ref].sourceType == s.db.documents[ref].sourceType
            && db'.documents[ref].createdAt == s.db.documents[ref].createdAt
            && (s.db.documents[ref].sourceType == Pdf ==> db'.documents[ref] == s.db.documents[ref])
  {
    if txs != [] {
      var mid, tx := Run(s, txs[..|txs| - 1]), txs[|txs| - 1];
      IdentityIsPermanent(s, txs[..|txs| - 1], ref);
      RunKeepsInv(s, txs[..|txs| - 1]);
      NextKeepsIdentity(mid.db, tx, ref);
    }
  }

  lemma NextKeepsIdentity(db: Db, tx: Tx, ref: string)
    requires Sound(db) && ref in db.documents
    ensures var db' := After(db, tx);
            && ref in db'.documents && db'.documents[ref].id == db.documents[ref].id
            && db'.documents[ref].sourceType == db.documents[ref].sourceType
            && db'.documents[ref].createdAt == db.documents[ref].createdAt
            && (db.documents[ref].sourceType == Pdf ==> db'.documents[ref] == db.documents[ref])
  {
    if Commits(db, tx) {
      match tx
      case PdfTx(job, now, pick, _) =>
        if job.sha !in db.documents { PdfPipeline.PdfIngestIsComplete(db, job, now, pick); }
      case HtmlTx(pubId, pub, job, now, env, _) =>
        HtmlPipeline.HtmlIngestIsComplete(db, pubId, pub, job, now, env);
        HtmlPipeline.IngestedDocument(db, pubId, pub, job, now, env);
      case CrawlTx(modelIds, web, _, _) => CrawlTouchesOnlyPublications(db, modelIds, web);
    }
  }

  /**
   * Over every run, a publication is "ingested" exactly if no hash-changing upsert followed its last
   * successful ingest, and the next full HTML ingest takes exactly the registered others.
   */
  lemma ChangedPublicationsAreTargets(s: State, txs: seq<Tx>, p: string)
    requires Inv(s)
    ensures var t := Run(s, txs);
            && RegistrySound(t.db)
            && (p in t.db.publications <==> LastHash(t.history, p).Some?)
            && (p in t.db.publications ==> (t.db.publications[p].status == Tables.Ingested <==> UpToDate(t.history, p)))
            && (p in Targets(t.db, []) <==> p in t.db.publications && !UpToDate(t.history, p))
  {
    RunKeepsInv(s, txs);
    var t := Run(s, txs);
    assert Tracks(t.db, t.history, p);
    CurrentIsUpToDate(t.history, p);
    TargetsAreRegistered(t.db, []);
  }

  /** Recorded references are never lost: one transaction. */
  lemma NextKeepsReferences(s: State, tx: Tx, p: string, model: string)
    requires Inv(s) && Referenced(s.db, p, model) && Commits(s.db, tx)
    ensures Referenced(Next(s, tx).db, p, model)
  {
    match tx
    case PdfTx(job, now, pick, _) =>
      if job.sha !in s.db.documents { PdfPipeline.PdfIngestIsComplete(s.db, job, now, pick); }
    case HtmlTx(_, _, _, _, _, _) => FlipKeepsReferences(s, tx, p, model);
    case CrawlTx(modelIds, web, _, _) => CrawlReferences(s.db, modelIds, web, p, model);
  }

  lemma FlipKeepsReferences(s: State, tx: Tx, p: string, model: string)
    requires Inv(s) && Referenced(s.db, p, model) && tx.HtmlTx? && Commits(s.db, tx)
    ensures Referenced(Next(s, tx).db, p, model)
  {
    HtmlPipeline.HtmlIngestIsComplete(s.db, tx.pubId, tx.pub, tx.html, tx.now, tx.env);
  }

  /** Recorded references are never lost, and they stay sorted and free of repetitions. */
  lemma {:induction false} ReferencesOnlyGrow(s: State, txs: seq<Tx>, p: string, model: string)
    requires Inv(s) && Referenced(s.db, p, model)
    ensures Referenced(Run(s, txs).db, p, model) && StrictlySorted(Run(s, txs).db.publications[p].referencedBy)
  {
    RunKeepsInv(s, txs);
    if txs != [] {
      var mid, tx := Run(s, txs[..|txs| - 1]), txs[|txs| - 1];
      ReferencesOnlyGrow(s, txs[..|txs| - 1], p, model);
      RunKeepsInv(s, txs[..|txs| - 1]);
      if Commits(mid.db, tx) {
        NextKeepsReferences(mid, tx, p, model);
      }
    }
  }
}
