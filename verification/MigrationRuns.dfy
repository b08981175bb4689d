/** The round trip of the migrations with any ingestion and discovery commands in between. */
module MigrationRuns {
  import opened ProductMatch
  import opened Corpus
  import opened Embedder
  import opened Tables
  import opened Registry
  import opened Crawler
  import opened Migrations
  import opened Lifecycle
  import PdfPipeline
  import HtmlPipeline

  /** A document keeps its row as far as the copies carry it, and its chunks. */
  ghost predicate KeepsDocument(db: Db, db': Db, r: string) {
    && r in db.documents && r in db'.documents && db'.documents[r] == db.documents[r]
    && forall n :: SameChunk(db, db', (db.documents[r].id, n))
  }

  ghost predicate SameChunk(db: Db, db': Db, k: (int, int)) {
    (k in db.chunks <==> k in db'.chunks) && (k in db.chunks && k in db'.chunks ==> db'.chunks[k] == db.chunks[k])
  }

  /** No transaction changes a PDF document or its chunks. */
  lemma PdfDocumentsAreFixed(db: Db, tx: Tx, r: string)
    requires Sound(db) && r in db.documents && db.documents[r].sourceType == Pdf
    ensures KeepsDocument(db, After(db, tx), r)
  {
    if Commits(db, tx) {
      match tx
      case PdfTx(job, now, pick, _) =>
        if job.sha !in db.documents {
          PdfPipeline.PdfIngestIsComplete(db, job, now, pick);
          OtherKept(db, After(db, tx), db.nextDocument, r);
        }
      case HtmlTx(pubId, pub, job, now, env, _) =>
        HtmlPipeline.HtmlIngestIsComplete(db, pubId, pub, job, now, env);
        OtherKept(db, After(db, tx), After(db, tx).documents[pubId].id, r);
      case CrawlTx(modelIds, web, _, _) => CrawlTouchesOnlyPublications(db, modelIds, web);
    }
  }

  lemma OtherKept(db: Db, db': Db, changed: int, r: string)
    requires OtherChunksKept(db, db', changed) && r in db.documents && r in db'.documents && db'.documents[r] == db.documents[r]
    requires db.documents[r].id != changed
    ensures KeepsDocument(db, db', r)
  {
    forall n ensures SameChunk(db, db', (db.documents[r].id, n)) {
      assert (db.documents[r].id, n).0 != changed;
    }
  }

  lemma TxKeepsSound(db: Db, tx: Tx)
    requires Sound(db)
    ensures Sound(After(db, tx))
  {
    if Commits(db, tx) {
      match tx
      case PdfTx(job, now, pick, _) =>
        if job.sha !in db.documents { PdfPipeline.PdfIngestIsComplete(db, job, now, pick); }
      case HtmlTx(pubId, pub, job, now, env, _) => HtmlPipeline.HtmlIngestIsComplete(db, pubId, pub, job, now, env);
      case CrawlTx(modelIds, web, _, _) =>
        CrawlTouchesOnlyPublications(db, modelIds, web);
        SameDocumentsSound(db, After(db, tx));
    } else {
      SequencesMoveUp(db, tx);
      SameDocumentsSound(db, After(db, tx));
    }
  }

  /** Legacy rows survive every transaction. */
  lemma TxKeepsWithin(l: Legacy, db: Db, tx: Tx)
    requires Sound(db) && Within(l, db)
    ensures Within(l, After(db, tx))
  {
    forall r | r in l.pdfs ensures r in After(db, tx).documents && SameDocument(l.pdfs[r], After(db, tx).documents[r])
    {
      PdfDocumentsAreFixed(db, tx, r);
    }
    forall r, n | r in l.pdfs ensures SamePage(l, After(db, tx), l.pdfs[r].id, After(db, tx).documents[r].id, n) {
      PdfDocumentsAreFixed(db, tx, r);
      assert SamePage(l, db, l.pdfs[r].id, db.documents[r].id, n);
      assert SameChunk(db, After(db, tx), (db.documents[r].id, n));
    }
  }

  /** Only PDF ingests add PDF documents. */
  lemma TxAddsNoPdf(l: Legacy, db: Db, tx: Tx)
    requires Sound(db) && NoOtherPdf(l, db) && !tx.PdfTx?
    ensures NoOtherPdf(l, After(db, tx))
  {
    if Commits(db, tx) {
      match tx
      case HtmlTx(pubId, pub, job, now, env, _) => HtmlPipeline.HtmlIngestIsComplete(db, pubId, pub, job, now, env);
      case CrawlTx(modelIds, web, _, _) => CrawlTouchesOnlyPublications(db, modelIds, web);
    }
  }

  lemma {:induction false} RunKeepsWithin(l: Legacy, db: Db, txs: seq<Tx>)
    requires Sound(db) && Within(l, db)
    ensures Sound(RunTables(db, txs)) && Within(l, RunTables(db, txs))
  {
    if txs != [] {
      var n := |txs| - 1;
      RunKeepsWithin(l, db, txs[..n]);
      TxKeepsSound(RunTables(db, txs[..n]), txs[n]);
      TxKeepsWithin(l, RunTables(db, txs[..n]), txs[n]);
    }
  }

  ghost predicate NoPdfTx(txs: seq<Tx>) {
    forall i :: 0 <= i < |txs| ==> !txs[i].PdfTx?
  }

  lemma {:induction false} RunAddsNoPdf(l: Legacy, db: Db, txs: seq<Tx>)
    requires Sound(db) && Mirrors(l, db) && NoPdfTx(txs)
    ensures NoOtherPdf(l, RunTables(db, txs))
  {
    if txs != [] {
      var n := |txs| - 1;
      RunAddsNoPdf(l, db, txs[..n]);
      RunKeepsWithin(l, db, txs[..n]);
      TxAddsNoPdf(l, RunTables(db, txs[..n]), txs[n]);
    }
  }

  lemma SoundHasImages(db: Db)
    requires Sound(db)
    ensures UniqueIds(db) && PdfChunksHaveImages(db)
  {
  }

  /**
   * Copying with 0004, dropping with 0005, any HTML ingests and crawls (failed ones included), and
   * downgrading 0005 gives back the same PDFs with the same pages, up to row ids: nothing lost, nothing
   * twice, nothing from HTML. The page counts become the largest stored page numbers.
   */
  lemma RoundTrip(
    l: Legacy, start: Db, pdfOrder: seq<string>, pageOrder: seq<(int, int)>, txs: seq<Tx>,
    documentOrder: seq<string>, chunkOrder: seq<(int, int)>)
    requires LegacySound(l) && Lists(pdfOrder, l.pdfs.Keys) && Lists(pageOrder, l.pages.Keys) && NoPdfTx(txs)
    requires Lists(documentOrder, RunTables(Copied(l, start, pdfOrder, pageOrder), txs).documents.Keys)
    requires Lists(chunkOrder, RunTables(Copied(l, start, pdfOrder, pageOrder), txs).chunks.Keys)
    ensures var l' := Rebuilt(RunTables(Copied(l, start, pdfOrder, pageOrder), txs), documentOrder, chunkOrder);
            l'.Some? && LegacySound(l'.value) && SameUpToIds(l, l'.value) && CountsAreLargest(l'.value)
  {
    var copied := Copied(l, start, pdfOrder, pageOrder);
    UpgradeMirrors(l, start, pdfOrder, pageOrder);
    RunKeepsWithin(l, copied, txs);
    RunAddsNoPdf(l, copied, txs);
    RebuildMirrored(l, RunTables(copied, txs), documentOrder, chunkOrder);
  }

  lemma RebuildMirrored(l: Legacy, db: Db, documentOrder: seq<string>, chunkOrder: seq<(int, int)>)
    requires Sound(db) && Mirrors(l, db) && Lists(documentOrder, db.documents.Keys) && Lists(chunkOrder, db.chunks.Keys)
    ensures var l' := Rebuilt(db, documentOrder, chunkOrder);
            l'.Some? && LegacySound(l'.value) && SameUpToIds(l, l'.value) && CountsAreLargest(l'.value)
  {
    SoundHasImages(db);
    DowngradeMirrors(db, documentOrder, chunkOrder);
    MirrorsAgree(l, Rebuilt(db, documentOrder, chunkOrder).value, db);
  }

  /** With PDF ingests in between as well, every legacy PDF still comes back with exactly its pages. */
  lemma NothingIsLost(
    l: Legacy, db: Db, txs: seq<Tx>, documentOrder: seq<string>, chunkOrder: seq<(int, int)>, r: string)
    requires Sound(db) && Within(l, db) && r in l.pdfs
    requires Lists(documentOrder, RunTables(db, txs).documents.Keys) && Lists(chunkOrder, RunTables(db, txs).chunks.Keys)
    ensures var l' := Rebuilt(RunTables(db, txs), documentOrder, chunkOrder);
            && l'.Some? && r in l'.value.pdfs && SameColumns(l.pdfs[r], l'.value.pdfs[r])
            && forall n :: SameLegacyPage(l, l'.value, l.pdfs[r].id, l'.value.pdfs[r].id, n)
  {
    RunKeepsWithin(l, db, txs);
    var db' := RunTables(db, txs);
    SoundHasImages(db');
    DowngradeMirrors(db', documentOrder, chunkOrder);
    var l' := Rebuilt(db', documentOrder, chunkOrder).value;
    assert r in db'.documents && db'.documents[r].sourceType == Pdf;
    RowsAgree(l, l', db', r);
  }

  lemma RowsAgree(l: Legacy, l': Legacy, db: Db, r: string)
    requires Within(l, db) && Within(l', db) && r in l.pdfs && r in l'.pdfs
    ensures SameColumns(l.pdfs[r], l'.pdfs[r]) && forall n :: SameLegacyPage(l, l', l.pdfs[r].id, l'.pdfs[r].id, n)
  {
    forall n ensures SameLegacyPage(l, l', l.pdfs[r].id, l'.pdfs[r].id, n) {
      assert SamePage(l, db, l.pdfs[r].id, db.documents[r].id, n);
      assert SamePage(l', db, l'.pdfs[r].id, db.documents[r].id, n);
    }
  }

  /** The page_count of the rebuilt tables is the original one exactly for a PDF whose count was its largest stored page number. */
  lemma PageCountAfterRoundTrip(
    l: Legacy, start: Db, pdfOrder: seq<string>, pageOrder: seq<(int, int)>, txs: seq<Tx>,
    documentOrder: seq<string>, chunkOrder: seq<(int, int)>, r: string)
    requires LegacySound(l) && Lists(pdfOrder, l.pdfs.Keys) && Lists(pageOrder, l.pages.Keys) && NoPdfTx(txs) && r in l.pdfs
    requires Lists(documentOrder, RunTables(Copied(l, start, pdfOrder, pageOrder), txs).documents.Keys)
    requires Lists(chunkOrder, RunTables(Copied(l, start, pdfOrder, pageOrder), txs).chunks.Keys)
    ensures var l' := Rebuilt(RunTables(Copied(l, start, pdfOrder, pageOrder), txs), documentOrder, chunkOrder);
            && l'.Some? && r in l'.value.pdfs
            && (l'.value.pdfs[r].pageCount == l.pdfs[r].pageCount <==> LargestPage(l, l.pdfs[r].id, l.pdfs[r].pageCount))
  {
    RoundTrip(l, start, pdfOrder, pageOrder, txs, documentOrder, chunkOrder);
    var l' := Rebuilt(RunTables(Copied(l, start, pdfOrder, pageOrder), txs), documentOrder, chunkOrder).value;
    PageCountSurvives(l, l', r);
  }

  /** A two-page PDF whose last page was never stored. */
  function TwoPages(title: Title, vector: Vector): Legacy {
    Legacy(map["s" := PdfRow(1, title, "k", 2, 0)], map[(1, 1) := PageRow(1, "t", vector, "p", 0)])
  }

  /** Copied and rebuilt, it has a count of one. */
  lemma LastPageMissing(title: Title, vector: Vector, start: Db)
    ensures var l := TwoPages(title, vector);
            var l' := Rebuilt(Copied(l, start, ["s"], [(1, 1)]), ["s"], [(1, 1)]);
            l.pdfs["s"].pageCount == 2 && l'.Some? && "s" in l'.value.pdfs && l'.value.pdfs["s"].pageCount == 1
  {
    var l := TwoPages(title, vector);
    OnePage(l, start);
    var db := Copied(l, start, ["s"], [(1, 1)]);
    UpgradeMirrors(l, start, ["s"], [(1, 1)]);
    RebuildMirrored(l, db, ["s"], [(1, 1)]);
    OnePageCount(l, Rebuilt(db, ["s"], [(1, 1)]).value);
  }

  lemma OnePageCount(l: Legacy, l': Legacy)
    requires l.pdfs.Keys == {"s"} && l.pdfs["s"].id == 1 && l.pages.Keys == {(1, 1)}
    requires SameUpToIds(l, l') && CountsAreLargest(l')
    ensures l'.pdfs["s"].pageCount == 1
  {
    assert LargestPage(l, 1, 1) by { assert (1, 1) in l.pages; }
    LargestPageCarries(l, l', "s", 1);
    assert LargestPage(l', l'.pdfs["s"].id, l'.pdfs["s"].pageCount);
  }

  /** Tables of one PDF with one page, and what 0004 makes of them: one document with one chunk. */
  lemma OnePage(l: Legacy, start: Db)
    requires l.pdfs.Keys == {"s"} && l.pages.Keys == {(1, 1)} && l.pdfs["s"].id == 1
    ensures LegacySound(l) && Lists(["s"], l.pdfs.Keys) && Lists([(1, 1)], l.pages.Keys)
    ensures var db := Copied(l, start, ["s"], [(1, 1)]); Lists(["s"], db.documents.Keys) && Lists([(1, 1)], db.chunks.Keys)
  {
    assert HasPdf(l, 1) by { assert "s" in l.pdfs; }
    var documents := CopiedDocuments(l.pdfs, ["s"]);
    DocumentsAreCopied(l.pdfs, ["s"]);
    assert CopiedAt(l.pdfs, ["s"], documents, "s");
    JoinLinksAll(["s"], l, documents);
    OneChunk(l, documents, PageJoin(["s"], l.pdfs, documents));
  }

  lemma OneChunk(l: Legacy, documents: map<string, DocRow>, join: map<int, Target>)
    requires l.pdfs.Keys == {"s"} && l.pages.Keys == {(1, 1)} && l.pdfs["s"].id == 1
    requires LinksAll(l, documents, join) && documents["s"].id == 1
    ensures CopiedChunks(l.pages, [(1, 1)], join).Keys == {(1, 1)}
  {
    assert Linked(l.pdfs["s"], documents["s"], join);
    var chunks := CopiedChunks(l.pages, [(1, 1)], join);
    assert [(1, 1)][..0] == [];
    assert CopiedChunks(l.pages, [], join) == map[];
    assert chunks.Keys == {(1, 1)};
  }

  // --- Runs that start from copied tables ---

  /** The copied tables with no ingest on record. */
  function CopiedState(l: Legacy, start: Db, pdfOrder: seq<string>, pageOrder: seq<(int, int)>, history: seq<Event>): State
    requires (forall r :: r in pdfOrder ==> r in l.pdfs) && (forall k :: k in pageOrder ==> k in l.pages)
  {
    State(Copied(l, start, pdfOrder, pageOrder), map[], history)
  }

  lemma CopiedInv(l: Legacy, start: Db, pdfOrder: seq<string>, pageOrder: seq<(int, int)>, history: seq<Event>)
    requires LegacySound(l) && Lists(pdfOrder, l.pdfs.Keys) && Lists(pageOrder, l.pages.Keys)
    requires RegistrySound(start) && forall p :: Tracks(start, history, p)
    ensures Inv(CopiedState(l, start, pdfOrder, pageOrder, history))
  {
    var db := Copied(l, start, pdfOrder, pageOrder);
    UpgradeMirrors(l, start, pdfOrder, pageOrder);
    SamePublicationsTracked(start, db, history);
  }

  lemma {:induction false} CopiesHaveNoFacet(pdfs: map<string, PdfRow>, order: seq<string>)
    requires forall r :: r in order ==> r in pdfs
    ensures forall r :: r in CopiedDocuments(pdfs, order) ==> CopiedDocuments(pdfs, order)[r].facet == NO_FACET
  {
    if order != [] { CopiesHaveNoFacet(pdfs, order[..|order| - 1]); }
  }

  /** A PDF from before the run stays as it is, and off the record. */
  lemma {:induction false} OldPdfStays(s: State, txs: seq<Tx>, r: string)
    requires Inv(s) && r in s.db.documents && s.db.documents[r].sourceType == Pdf && r !in s.ledger
    ensures r !in Run(s, txs).ledger && KeepsDocument(s.db, Run(s, txs).db, r)
  {
    if txs == [] {
      forall n ensures SameChunk(s.db, s.db, (s.db.documents[r].id, n)) {}
    } else {
      var n := |txs| - 1;
      OldPdfStays(s, txs[..n], r);
      RunKeepsInv(s, txs[..n]);
      var mid := Run(s, txs[..n]);
      PdfDocumentsAreFixed(mid.db, txs[n], r);
      NoNewEntry(mid, txs[n], r);
      KeepsTransitive(s.db, mid.db, Next(mid, txs[n]).db, r);
    }
  }

  lemma NoNewEntry(s: State, tx: Tx, r: string)
    requires Inv(s) && r in s.db.documents && s.db.documents[r].sourceType == Pdf && r !in s.ledger
    ensures r !in Next(s, tx).ledger
  {
    if tx.HtmlTx? { HtmlPipeline.HtmlIngestIsComplete(s.db, tx.pubId, tx.pub, tx.html, tx.now, tx.env); }
  }

  lemma KeepsTransitive(a: Db, b: Db, c: Db, r: string)
    requires KeepsDocument(a, b, r) && KeepsDocument(b, c, r)
    ensures KeepsDocument(a, c, r)
  {
    forall n ensures SameChunk(a, c, (a.documents[r].id, n)) {
      assert SameChunk(a, b, (a.documents[r].id, n)) && SameChunk(b, c, (a.documents[r].id, n));
    }
  }

  /**
   * After any run from copied tables every document is either a legacy PDF, still with exactly its legacy
   * pages and without a facet, or holds the complete chunk set of its last successful ingest.
   */
  lemma CopiedOrComplete(
    l: Legacy, start: Db, pdfOrder: seq<string>, pageOrder: seq<(int, int)>, history: seq<Event>, txs: seq<Tx>, r: string)
    requires LegacySound(l) && Lists(pdfOrder, l.pdfs.Keys) && Lists(pageOrder, l.pages.Keys)
    requires RegistrySound(start) && forall p :: Tracks(start, history, p)
    requires r in Run(CopiedState(l, start, pdfOrder, pageOrder, history), txs).db.documents
    ensures var t := Run(CopiedState(l, start, pdfOrder, pageOrder, history), txs);
            if r in l.pdfs then
              && r !in t.ledger && SameDocument(l.pdfs[r], t.db.documents[r]) && t.db.documents[r].facet == NO_FACET
              && forall n :: SamePage(l, t.db, l.pdfs[r].id, t.db.documents[r].id, n)
            else
              r in t.ledger && Faithful(r, t.ledger[r]) && Holds(t.db, r, t.ledger[r])
  {
    var s := CopiedState(l, start, pdfOrder, pageOrder, history);
    CopiedInv(l, start, pdfOrder, pageOrder, history);
    DocumentsAreCopied(l.pdfs, pdfOrder);
    if r in l.pdfs {
      UpgradeMirrors(l, start, pdfOrder, pageOrder);
      CopiesHaveNoFacet(l.pdfs, pdfOrder);
      LegacyStays(l, s, txs, r);
    } else {
      CommittedDocumentsAreComplete(s, txs, r);
    }
  }

  lemma LegacyStays(l: Legacy, s: State, txs: seq<Tx>, r: string)
    requires Inv(s) && Within(l, s.db) && r in l.pdfs && r !in s.ledger
    ensures var t := Run(s, txs);
            && r in t.db.documents && t.db.documents[r] == s.db.documents[r] && r !in t.ledger
            && SameDocument(l.pdfs[r], t.db.documents[r])
            && forall n :: SamePage(l, t.db, l.pdfs[r].id, t.db.documents[r].id, n)
  {
    var t := Run(s, txs);
    OldPdfStays(s, txs, r);
    forall n ensures SamePage(l, t.db, l.pdfs[r].id, t.db.documents[r].id, n) {
      assert SamePage(l, s.db, l.pdfs[r].id, s.db.documents[r].id, n);
      assert SameChunk(s.db, t.db, (s.db.documents[r].id, n));
    }
  }

  /** A legacy PDF counts as ingested for ever: a page its copy lacks is never added by ingesting the file again. */
  lemma MissingPagesStay(
    l: Legacy, start: Db, pdfOrder: seq<string>, pageOrder: seq<(int, int)>, history: seq<Event>, txs: seq<Tx>,
    job: PdfPipeline.PdfJob, now: int, pick: BrandPicker, n: int)
    requires LegacySound(l) && Lists(pdfOrder, l.pdfs.Keys) && Lists(pageOrder, l.pages.Keys)
    requires RegistrySound(start) && forall p :: Tracks(start, history, p)
    requires job.sha in l.pdfs && (l.pdfs[job.sha].id, n) !in l.pages
    requires job.file.IsFile? && job.hashed && Runs(job.server, FindDocument(job.sha))
    ensures var db := Run(CopiedState(l, start, pdfOrder, pageOrder, history), txs).db;
            && PdfPipeline.PdfAttempt(db, job, now, pick) == (Done(job.sha), db)
            && job.sha in db.documents && (db.documents[job.sha].id, n) !in db.chunks
  {
    var s := CopiedState(l, start, pdfOrder, pageOrder, history);
    CopiedInv(l, start, pdfOrder, pageOrder, history);
    UpgradeMirrors(l, start, pdfOrder, pageOrder);
    LegacyStays(l, s, txs, job.sha);
    PdfPipeline.KnownHashIsDone(Run(s, txs).db, job, now, pick);
    assert SamePage(l, Run(s, txs).db, l.pdfs[job.sha].id, Run(s, txs).db.documents[job.sha].id, n);
  }
}
