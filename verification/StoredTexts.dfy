/** No text that PostgreSQL cannot hold is ever committed. */
module StoredTexts {
  import opened Prelude
  import opened Embedder
  import opened Tables
  import opened Registry
  import opened PublicationRefs
  import opened Crawler
  import opened Lifecycle
  import PdfPipeline
  import HtmlPipeline
  import HtmlParser

  ghost predicate NoNul(s: string) {
    forall i :: 0 <= i < |s| ==> s[i] as int != 0
  }

  ghost predicate NoneHasNul(texts: seq<string>) {
    forall i :: 0 <= i < |texts| ==> NoNul(texts[i])
  }

  ghost predicate OptionHasNoNul(s: Option<string>) {
    s.None? || NoNul(s.value)
  }

  /** Every text column of every row is free of U+0000. */
  ghost predicate TextsStored(db: Db) {
    && (forall r :: r in db.documents ==> DocumentFits(r, db.documents[r]))
    && (forall k :: k in db.chunks ==> ChunkFits(db.chunks[k].content))
    && (forall p :: p in db.publications ==> PublicationFits(p, db.publications[p]))
  }

  ghost predicate DocumentFits(r: string, row: DocRow) {
    NoNul(r) && NoNul(row.title.text) && NoNul(row.sourceUrl)
  }

  ghost predicate ChunkFits(c: Content) {
    NoNul(c.text) && OptionHasNoNul(c.png) && OptionHasNoNul(c.anchor) && OptionHasNoNul(c.parentAnchor) && NoNul(c.sourceUrl)
  }

  ghost predicate PublicationFits(p: string, row: PubRow) {
    && NoNul(p) && NoNul(row.contentHash) && NoneHasNul(row.referencedBy) && DetailsFit(row.details)
  }

  ghost predicate DetailsFit(d: Details) {
    && NoNul(d.pubType) && NoNul(d.title) && NoNul(d.locale) && NoNul(d.sourceUrl)
    && NoneHasNul(d.series) && NoneHasNul(d.models) && NoneHasNul(d.procedures)
  }

  lemma FitsHasNoNul(s: string)
    ensures TextFits(s) <==> NoNul(s)
  {
    if NoNul(s) {
      assert '\0' as int == 0;
    }
  }

  lemma StoredDocument(server: Server, r: string, row: DocRow)
    requires Runs(server, WriteDocument(r, row.title.text, row.sourceUrl))
    ensures DocumentFits(r, row)
  {
    FitsHasNoNul(r);
    FitsHasNoNul(row.title.text);
    FitsHasNoNul(row.sourceUrl);
  }

  lemma StoredChunk(server: Server, document: int, ordinal: int, c: Content)
    requires Runs(server, WriteChunk(document, ordinal, c))
    ensures ChunkFits(c)
  {
    FitsHasNoNul(c.text);
    FitsHasNoNul(c.sourceUrl);
    if c.png.Some? { FitsHasNoNul(c.png.value); }
    if c.anchor.Some? { FitsHasNoNul(c.anchor.value); }
    if c.parentAnchor.Some? { FitsHasNoNul(c.parentAnchor.value); }
  }

  lemma AllFitHaveNoNul(texts: seq<string>)
    requires AllFit(texts)
    ensures NoneHasNul(texts)
  {
    forall i | 0 <= i < |texts| ensures NoNul(texts[i]) { FitsHasNoNul(texts[i]); }
  }

  /** One document's row and chunks were written and fit, the rest is as before. */
  lemma OneDocumentFits(db: Db, db': Db, ref: string, plan: map<int, Content>)
    requires TextsStored(db) && db'.documents.Keys == db.documents.Keys + {ref}
    requires forall r :: r in db.documents && r != ref ==> db'.documents[r] == db.documents[r]
    requires DocumentFits(ref, db'.documents[ref])
    requires HasChunks(db', db'.documents[ref].id, plan) && OtherChunksKept(db, db', db'.documents[ref].id)
    requires forall o :: o in plan ==> ChunkFits(plan[o])
    ensures forall r :: r in db'.documents ==> DocumentFits(r, db'.documents[r])
    ensures forall k :: k in db'.chunks ==> ChunkFits(db'.chunks[k].content)
  {
    var id := db'.documents[ref].id;
    forall k: (int, int) | k in db'.chunks ensures ChunkFits(db'.chunks[k].content) {
      var (d, o) := k;
      if d == id {
        assert (id, o) in db'.chunks;
        assert ChunkFits(plan[o]);
      } else {
        assert k in db.chunks && db'.chunks[k] == db.chunks[k];
      }
    }
  }

  lemma PdfTextsStored(db: Db, tx: Tx)
    requires Sound(db) && TextsStored(db) && tx.PdfTx? && Commits(db, tx)
    ensures TextsStored(After(db, tx))
  {
    if tx.pdf.sha !in db.documents {
      var db', job := After(db, tx), tx.pdf;
      PdfPipeline.PdfIngestIsComplete(db, job, tx.now, tx.pick);
      PdfPipeline.IngestedExactly(db, job, tx.now, tx.pick);
      PdfRowFits(db, tx);
      PdfPlanFits(job, db.nextDocument, tx.now);
      OneDocumentFits(db, db', job.sha, PdfPipeline.PdfPlan(job, |job.rendered|, tx.now));
    }
  }

  lemma PdfRowFits(db: Db, tx: Tx)
    requires Sound(db) && tx.PdfTx? && Commits(db, tx) && tx.pdf.sha !in db.documents
    ensures tx.pdf.sha in After(db, tx).documents && DocumentFits(tx.pdf.sha, After(db, tx).documents[tx.pdf.sha])
  {
    PdfPipeline.PdfIngestIsComplete(db, tx.pdf, tx.now, tx.pick);
    PdfPipeline.IngestedExactly(db, tx.pdf, tx.now, tx.pick);
    StoredDocument(tx.pdf.server, tx.pdf.sha, After(db, tx).documents[tx.pdf.sha]);
  }

  lemma PdfPlanFits(job: PdfPipeline.PdfJob, document: int, now: int)
    requires PdfPipeline.Embedded(job) && PdfPipeline.AllPass(job, document, |job.rendered|, now)
    ensures forall o :: o in PdfPipeline.PdfPlan(job, |job.rendered|, now) ==> ChunkFits(PdfPipeline.PdfPlan(job, |job.rendered|, now)[o])
  {
    var plan := PdfPipeline.PdfPlan(job, |job.rendered|, now);
    forall o | o in plan ensures ChunkFits(plan[o]) {
      assert PdfPipeline.Passes(job, document, o, now);
      StoredChunk(job.server, document, o, plan[o]);
    }
  }

  lemma HtmlTextsStored(db: Db, tx: Tx)
    requires Sound(db) && TextsStored(db) && tx.HtmlTx? && Commits(db, tx)
    ensures TextsStored(After(db, tx))
  {
    var db' := After(db, tx);
    HtmlPipeline.HtmlIngestIsComplete(db, tx.pubId, tx.pub, tx.html, tx.now, tx.env);
    HtmlRowFits(db, tx);
    HtmlPlanFits(db, tx);
    OneDocumentFits(db, db', tx.pubId, HtmlPipeline.JobPlan(tx.pub, tx.html, tx.now, tx.env));
    forall p | p in db'.publications ensures PublicationFits(p, db'.publications[p]) {
      assert PublicationFits(p, db.publications[p]);
    }
  }

  lemma HtmlRowFits(db: Db, tx: Tx)
    requires Sound(db) && TextsStored(db) && tx.HtmlTx? && Commits(db, tx)
    ensures tx.pubId in After(db, tx).documents && DocumentFits(tx.pubId, After(db, tx).documents[tx.pubId])
  {
    var db' := After(db, tx);
    HtmlPipeline.HtmlIngestIsComplete(db, tx.pubId, tx.pub, tx.html, tx.now, tx.env);
    var title, url := HtmlPipeline.JobTitle(tx.pub, tx.html, tx.env), tx.pub.details.sourceUrl;
    assert RowRuns(db, tx.html.server, title, url, tx.pubId, tx.env.pick);
    if RowUnchanged(db, title, url, tx.pubId, tx.env.pick) {
      assert DocumentFits(tx.pubId, db.documents[tx.pubId]);
    } else {
      StoredDocument(tx.html.server, tx.pubId, db'.documents[tx.pubId]);
    }
  }

  lemma HtmlPlanFits(db: Db, tx: Tx)
    requires Sound(db) && tx.HtmlTx? && Commits(db, tx)
    ensures HtmlPipeline.Fits(tx.pub, tx.html, tx.env)
    ensures var plan := HtmlPipeline.JobPlan(tx.pub, tx.html, tx.now, tx.env);
            forall o :: o in plan ==> ChunkFits(plan[o])
  {
    HtmlPipeline.HtmlIngestIsComplete(db, tx.pubId, tx.pub, tx.html, tx.now, tx.env);
    var parsed := HtmlParser.Parse(tx.html.page, tx.pub.details.sourceUrl, tx.env.tools).parsed;
    InsertedFit(tx.html.server, HtmlPipeline.DocumentId(db, tx.pubId), parsed, tx.html.embedded.value, tx.now);
  }

  lemma InsertedFit(server: Server, document: int, parsed: HtmlParser.Parsed, embedded: seq<Vector>, now: int)
    requires |parsed.chunks| == |embedded| && HtmlPipeline.InsertsRun(server, document, parsed, embedded, |embedded|, now)
    ensures var plan := HtmlPipeline.HtmlPlan(parsed, embedded, |embedded|, now);
            forall o :: o in plan ==> ChunkFits(plan[o])
  {
    HtmlPipeline.InsertsRunMeans(server, document, parsed, embedded, |embedded|, now);
    var plan := HtmlPipeline.HtmlPlan(parsed, embedded, |embedded|, now);
    forall o | o in plan ensures ChunkFits(plan[o]) {
      StoredChunk(server, document, o, plan[o]);
    }
  }

  lemma SortedHaveNoNul(xs: seq<string>)
    requires NoneHasNul(xs)
    ensures NoneHasNul(SortedSet(xs))
  {
    SortedSetFacts(xs);
    forall i | 0 <= i < |SortedSet(xs)| ensures NoNul(SortedSet(xs)[i]) {
      assert SortedSet(xs)[i] in xs;
    }
  }

  lemma UpsertTextsStored(db: Db, server: Server, pub: Publication, mentions: seq<string>)
    requires TextsStored(db) && UpsertRuns(db, server, pub, mentions)
    ensures TextsStored(Upserted(db, pub, mentions).0)
  {
    var db' := Upserted(db, pub, mentions).0;
    UpsertMeans(db, pub, mentions);
    RowFits(db, server, pub, mentions);
    forall p | p in db'.publications ensures PublicationFits(p, db'.publications[p]) {
      if p != pub.pubId { assert p in db.publications; }
    }
  }

  lemma RowFits(db: Db, server: Server, pub: Publication, mentions: seq<string>)
    requires TextsStored(db) && UpsertRuns(db, server, pub, mentions)
    ensures var db' := Upserted(db, pub, mentions).0;
            pub.pubId in db'.publications && PublicationFits(pub.pubId, db'.publications[pub.pubId])
  {
    FitsHasNoNul(pub.pubId);
    FitsHasNoNul(pub.contentHash);
    AllFitHaveNoNul(mentions);
    SortedHaveNoNul(mentions);
    if pub.pubId in db.publications {
      assert PublicationFits(pub.pubId, db.publications[pub.pubId]);
      SortedHaveNoNul(db.publications[pub.pubId].referencedBy + mentions);
    }
    if !(pub.pubId in db.publications && db.publications[pub.pubId].contentHash == pub.contentHash) {
      DetailsHaveNoNul(server, pub, mentions);
    }
  }

  lemma DetailsHaveNoNul(server: Server, pub: Publication, mentions: seq<string>)
    requires Runs(server, WritePublication(pub.pubId, pub.details, pub.contentHash, mentions))
    ensures DetailsFit(pub.details)
  {
    var d := pub.details;
    FitsHasNoNul(d.pubType);
    FitsHasNoNul(d.title);
    FitsHasNoNul(d.locale);
    FitsHasNoNul(d.sourceUrl);
    AllFitHaveNoNul(d.series);
    AllFitHaveNoNul(d.models);
    AllFitHaveNoNul(d.procedures);
  }

  lemma CrawlTextsStored(db: Db, modelIds: seq<string>, web: Web)
    requires TextsStored(db) && Crawl(db, modelIds, web).0
    ensures TextsStored(Crawl(db, modelIds, web).1)
  {
    var pages := PagesOf(modelIds, web).value;
    var refs, step := Dedupe(Flatten(pages)), StepOf(modelIds, pages, web);
    var kept := (d: Db) => TextsStored(d);
    forall d, ref | kept(d) && step(d, ref).Some? ensures kept(step(d, ref).value) {
      UpsertTextsStored(d, web.server, Build(web.publication(ref.sourceUrl).value, ref), SortedSet(Mentions(modelIds, pages, ref.pubId)));
    }
    UpsertsAlwaysKeep(db, refs, step, |refs|, kept);
  }

  lemma TxKeepsTexts(db: Db, tx: Tx)
    requires Sound(db) && TextsStored(db)
    ensures TextsStored(After(db, tx))
  {
    if Commits(db, tx) {
      match tx
      case PdfTx(_, _, _, _) => PdfTextsStored(db, tx);
      case HtmlTx(_, _, _, _, _, _) => HtmlTextsStored(db, tx);
      case CrawlTx(modelIds, web, _, _) => CrawlTextsStored(db, modelIds, web);
    }
  }

  /** Over every run no committed text, of a document, a chunk or a publication, holds U+0000. */
  lemma {:induction false} NoNulIsCommitted(s: State, txs: seq<Tx>)
    requires Inv(s) && TextsStored(s.db)
    ensures TextsStored(Run(s, txs).db)
  {
    if txs != [] {
      var n := |txs| - 1;
      NoNulIsCommitted(s, txs[..n]);
      RunKeepsInv(s, txs[..n]);
      TxKeepsTexts(Run(s, txs[..n]).db, txs[n]);
    }
  }
}
