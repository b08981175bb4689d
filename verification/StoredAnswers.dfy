/** What the store left by a run of commands means for a question: the joined rows, the gate and the module texts. */
module StoredAnswers {
  import opened Prelude
  import opened ProductMatch
  import opened Corpus
  import opened Json
  import opened Text
  import opened Tables
  import PageExpansion
  import opened HybridSearch
  import opened Extraction
  import opened HtmlParser
  import opened Lifecycle
  import opened Migrations
  import PdfPipeline
  import HtmlPipeline
  import Crawler
  import ModuleText
  import QueryRoute
  import MigrationRuns

  // --- chunks JOIN documents ---

  function RowOf(chunk: ChunkRow, k: (int, int), d: DocRow, read: string -> Body): Row {
    Row(k.0, k.1, read(chunk.content.text), chunk.content.png, chunk.content.parentAnchor, chunk.content.sourceUrl,
        d.sourceType, d.title, d.sourceUrl, d.facet)
  }

  /** The row is the join of the chunk under k with the document under ref. */
  ghost predicate Joins(row: Row, chunk: int, db: Db, k: (int, int), ref: string, read: string -> Body) {
    && k in db.chunks && db.chunks[k].id == chunk && ref in db.documents && db.documents[ref].id == k.0
    && row == RowOf(db.chunks[k], k, db.documents[ref], read)
  }

  /** The rows of a question were joined from these tables; read is the tokenizer. */
  ghost predicate IsJoin(rows: Rows, db: Db, read: string -> Body) {
    forall c :: c in rows ==> exists k, ref :: Joins(rows[c], c, db, k, ref, read)
  }

  /** Rows joined from sound tables agree on every document column and have one chunk per ordinal. */
  lemma JoinIsWellFormed(rows: Rows, db: Db, read: string -> Body)
    requires Sound(db) && IsJoin(rows, db, read)
    ensures WellFormed(rows)
  {
    forall c, d | c in rows && d in rows && rows[c].document == rows[d].document
      ensures rows[c].sourceType == rows[d].sourceType && rows[c].title == rows[d].title && rows[c].facet == rows[d].facet
      ensures rows[c].ordinal == rows[d].ordinal ==> c == d
    {
      var k, ref :| Joins(rows[c], c, db, k, ref, read);
      var l, other :| Joins(rows[d], d, db, l, other, read);
      assert ref == other;
      assert rows[c].ordinal == rows[d].ordinal ==> k == l;
    }
  }

  // --- Facets over runs ---

  /** Every document's facet is what some process derives from its stored title; the blank ones may have none. */
  ghost predicate FacetsStored(db: Db, blank: set<string>) {
    forall r :: r in db.documents ==> FacetFits(db.documents[r], r in blank)
  }

  ghost predicate FacetFits(row: DocRow, mayBeBlank: bool) {
    DerivedFacet(row.title.reading, row.facet) || (mayBeBlank && row.facet == Facet(None, None))
  }

  /** The brand walks of the transactions' processes. */
  ghost predicate ValidPickers(txs: seq<Tx>) {
    forall i :: 0 <= i < |txs| ==> PickerIsValid(txs[i])
  }

  ghost predicate PickerIsValid(tx: Tx) {
    match tx
    case PdfTx(_, _, pick, _) => ValidPicker(pick)
    case HtmlTx(_, _, _, _, env, _) => ValidPicker(env.pick)
    case CrawlTx(_, _, _, _) => true
  }

  lemma TxKeepsFacets(db: Db, tx: Tx, blank: set<string>)
    requires Sound(db) && FacetsStored(db, blank) && PickerIsValid(tx)
    ensures FacetsStored(After(db, tx), blank)
  {
    if Commits(db, tx) {
      match tx
      case PdfTx(_, _, _, _) => PdfKeepsFacets(db, tx, blank);
      case HtmlTx(_, _, _, _, _, _) => HtmlKeepsFacets(db, tx, blank);
      case CrawlTx(modelIds, web, _, _) => Crawler.CrawlTouchesOnlyPublications(db, modelIds, web);
    }
  }

  lemma PdfKeepsFacets(db: Db, tx: Tx, blank: set<string>)
    requires Sound(db) && FacetsStored(db, blank) && PickerIsValid(tx) && tx.PdfTx? && Commits(db, tx)
    ensures FacetsStored(After(db, tx), blank)
  {
    if tx.pdf.sha !in db.documents {
      PdfPipeline.PdfIngestIsComplete(db, tx.pdf, tx.now, tx.pick);
      OneNewFacet(db, After(db, tx), tx.pdf.sha, tx.pick, blank);
    }
  }

  lemma HtmlKeepsFacets(db: Db, tx: Tx, blank: set<string>)
    requires Sound(db) && FacetsStored(db, blank) && PickerIsValid(tx) && tx.HtmlTx? && Commits(db, tx)
    ensures FacetsStored(After(db, tx), blank)
  {
    HtmlPipeline.HtmlIngestIsComplete(db, tx.pubId, tx.pub, tx.html, tx.now, tx.env);
    OneNewFacet(db, After(db, tx), tx.pubId, tx.env.pick, blank);
  }

  lemma OneNewFacet(db: Db, db': Db, ref: string, pick: BrandPicker, blank: set<string>)
    requires FacetsStored(db, blank) && ValidPicker(pick) && db'.documents.Keys == db.documents.Keys + {ref}
    requires forall r :: r in db.documents && r != ref ==> db'.documents[r] == db.documents[r]
    requires db'.documents[ref].facet == DeriveFacet(db'.documents[ref].title.reading, pick)
    ensures FacetsStored(db', blank)
  {
  }

  /** Over every run, each stored facet is derived from the stored title, except for documents that had none before it. */
  lemma {:induction false} FacetsAreDerived(s: State, txs: seq<Tx>, blank: set<string>)
    requires Inv(s) && FacetsStored(s.db, blank) && ValidPickers(txs)
    ensures Sound(Run(s, txs).db) && FacetsStored(Run(s, txs).db, blank)
  {
    RunKeepsInv(s, txs);
    if txs != [] {
      var n := |txs| - 1;
      FacetsAreDerived(s, txs[..n], blank);
      TxKeepsFacets(Run(s, txs[..n]).db, txs[n], blank);
    }
  }

  /** Copied tables are such a start: their documents have no facet. */
  lemma CopiesAreBlank(l: Legacy, start: Db, pdfOrder: seq<string>, pageOrder: seq<(int, int)>)
    requires Lists(pdfOrder, l.pdfs.Keys) && Lists(pageOrder, l.pages.Keys)
    ensures FacetsStored(Copied(l, start, pdfOrder, pageOrder), l.pdfs.Keys)
  {
    DocumentsAreCopied(l.pdfs, pdfOrder);
    MigrationRuns.CopiesHaveNoFacet(l.pdfs, pdfOrder);
  }

  /** The titles of the store name at most one brand each. */
  ghost predicate OneBrandTitles(db: Db) {
    forall r :: r in db.documents ==> OneBrand(db.documents[r].title.reading)
  }

  /** The row was penalised, or has no facet to penalise and a title the question rejects. */
  predicate PenalisedOrBlank(asked: ProductScope, row: Row, live: BrandPicker) {
    Penalised(asked, row.facet) || (row.facet == Facet(None, None) && Rejects(asked, row.title, live))
  }

  /**
   * After any run from any tables over titles of one brand each, a question is refused exactly when it is
   * identified and everything retrieved was penalised, or has no facet and a title the question rejects.
   */
  lemma GateOverRuns(
    s: State, txs: seq<Tx>, blank: set<string>, r: Request, pages: seq<PageExpansion.Page>, live: BrandPicker, read: string -> Body)
    requires Inv(s) && FacetsStored(s.db, blank) && ValidPickers(txs) && ValidPicker(live) && OneBrandTitles(Run(s, txs).db)
    requires IsJoin(r.rows, Run(s, txs).db, read) && IsNeighborAnswer(r, pages)
    ensures Abstains(r.question.asked, Search(r, pages), live) <==>
              r.question.asked.IsIdentified()
              && forall e :: e in Search(r, pages) ==> PenalisedOrBlank(r.question.asked, e.row, live)
  {
    FacetsAreDerived(s, txs, blank);
    var db := Run(s, txs).db;
    AbstainsMeansAllRejected(r.question.asked, Search(r, pages), live);
    if r.question.asked.IsIdentified() {
      forall e | e in Search(r, pages)
        ensures Rejects(r.question.asked, e.row.title, live) <==> PenalisedOrBlank(r.question.asked, e.row, live)
      {
        HydrateContents(Candidates(r, pages), r.rows);
        var k, ref :| Joins(r.rows[e.chunk], e.chunk, db, k, ref, read);
        RowIsJudged(r.question.asked, db.documents[ref], ref in blank, e.row, live);
      }
    }
  }

  lemma RowIsJudged(asked: ProductScope, d: DocRow, mayBeBlank: bool, row: Row, live: BrandPicker)
    requires asked.IsIdentified() && ValidPicker(live) && FacetFits(d, mayBeBlank) && OneBrand(d.title.reading)
    requires row.title == d.title && row.facet == d.facet
    ensures Rejects(asked, row.title, live) <==> PenalisedOrBlank(asked, row, live)
  {
    if DerivedFacet(d.title.reading, d.facet) {
      var ingest :| ValidPicker(ingest) && d.facet == DeriveFacet(d.title.reading, ingest);
      PenaltyMeansRejection(d.title.reading, asked, ingest, live);
    }
  }

  /**
   * After any run from empty tables over titles of one brand each, whatever processes ingested them, a
   * question is refused exactly when it is identified and the ranking penalised everything it retrieved.
   */
  lemma GateIsTotalPenaltyOverRuns(txs: seq<Tx>, r: Request, pages: seq<PageExpansion.Page>, live: BrandPicker, read: string -> Body)
    requires ValidPickers(txs) && ValidPicker(live) && OneBrandTitles(Run(EMPTY, txs).db)
    requires IsJoin(r.rows, Run(EMPTY, txs).db, read) && IsNeighborAnswer(r, pages)
    ensures Abstains(r.question.asked, Search(r, pages), live) <==>
              r.question.asked.IsIdentified()
              && forall e :: e in Search(r, pages) ==> Penalised(r.question.asked, e.row.facet)
  {
    EmptyInv();
    FacetsAreDerived(EMPTY, txs, {});
    var db := Run(EMPTY, txs).db;
    HydrateContents(Candidates(r, pages), r.rows);
    forall e | e in Search(r, pages) ensures OneBrand(e.row.title.reading) && DerivedFacet(e.row.title.reading, e.row.facet) {
      var k, ref :| Joins(r.rows[e.chunk], e.chunk, db, k, ref, read);
      assert FacetFits(db.documents[ref], false);
    }
    GateIsTotalPenalty(r.question.asked, Search(r, pages), live);
  }

  // --- Module texts over runs ---

  /** The tree a stored publication was last ingested from. */
  function TreeOf(tx: Tx): map<string, Json>
    requires tx.HtmlTx? && WellShaped(tx.html.page)
  {
    tx.html.page.json.fields
  }

  lemma StoredTree(txs: seq<Tx>, ref: string)
    requires ref in Run(EMPTY, txs).db.documents && Run(EMPTY, txs).db.documents[ref].sourceType == Html
    ensures var s := Run(EMPTY, txs);
            && ref in s.ledger && s.ledger[ref].tx.HtmlTx? && WellShaped(s.ledger[ref].tx.html.page)
            && var tx := s.ledger[ref].tx;
               tx.html.embedded.Some?
               && ModuleText.Holds(s.db, s.db.documents[ref].id, TreeOf(tx), tx.pub.details.sourceUrl, tx.env.tools,
                                   tx.html.embedded.value, tx.now)
  {
    EmptyInv();
    CommittedDocumentsAreComplete(EMPTY, txs, ref);
  }

  /**
   * Over every run, a module with a hash of its own is read back from the store as exactly its non-empty
   * title, tool list and block texts of the last successful ingest.
   */
  lemma CommittedModule(txs: seq<Tx>, ref: string, k: nat, anchor: string, ordinals: seq<int>)
    requires ref in Run(EMPTY, txs).db.documents && Run(EMPTY, txs).db.documents[ref].sourceType == Html
    requires var s := Run(EMPTY, txs);
             && ref in s.ledger && s.ledger[ref].tx.HtmlTx? && WellShaped(s.ledger[ref].tx.html.page)
             && ModuleText.OwnHash(Modules(TreeOf(s.ledger[ref].tx)), k, anchor, s.ledger[ref].tx.env.tools)
             && IsModuleListing(s.db, s.db.documents[ref].id, anchor, ordinals)
    ensures var s := Run(EMPTY, txs);
            var tx := s.ledger[ref].tx;
            TextsAt(s.db, s.db.documents[ref].id, ordinals)
            == ModuleText.TextsOf(ModulePieces(Modules(TreeOf(tx))[k], tx.env.tools))
  {
    StoredTree(txs, ref);
    var s := Run(EMPTY, txs);
    var tx := s.ledger[ref].tx;
    ModuleText.ModuleIsRead(
      s.db, s.db.documents[ref].id, TreeOf(tx), tx.pub.details.sourceUrl, tx.env.tools, tx.html.embedded.value, tx.now, k,
      anchor, ordinals);
  }

  /** The route reads module texts from these tables, as Repository.FetchModuleText does. */
  ghost predicate ReadsStore(assets: QueryRoute.Assets, db: Db) {
    forall document, anchor, ordinals :: IsModuleListing(db, document, anchor, ordinals) ==>
      assets.moduleText(document, anchor) == Some(Join("\n\n", TextsAt(db, document, ordinals)))
  }

  /** The candidate sent for a hit in a module with a hash of its own carries exactly that module's text. */
  lemma HtmlCandidateIsItsModule(
    txs: seq<Tx>, ref: string, k: nat, hit: Retrieved, index: int, ordinals: seq<int>, assets: QueryRoute.Assets,
    read: string -> Body)
    requires ref in Run(EMPTY, txs).db.documents && Run(EMPTY, txs).db.documents[ref].sourceType == Html
    requires ReadsStore(assets, Run(EMPTY, txs).db)
    requires exists key :: Joins(hit.row, hit.chunk, Run(EMPTY, txs).db, key, ref, read)
    requires hit.row.parentAnchor.Some?
    requires var s := Run(EMPTY, txs);
             && ref in s.ledger && s.ledger[ref].tx.HtmlTx? && WellShaped(s.ledger[ref].tx.html.page)
             && ModuleText.OwnHash(Modules(TreeOf(s.ledger[ref].tx)), k, hit.row.parentAnchor.value, s.ledger[ref].tx.env.tools)
             && IsModuleListing(s.db, s.db.documents[ref].id, hit.row.parentAnchor.value, ordinals)
    ensures var tx := Run(EMPTY, txs).ledger[ref].tx;
            var text := Join("\n\n", ModuleText.TextsOf(ModulePieces(Modules(TreeOf(tx))[k], tx.env.tools)));
            QueryRoute.BuildCandidate(hit, index, assets)
            == Ok(Candidate(index, Html, QueryRoute.HtmlLabel(text, hit.row.title.text), None, Some(text), Some(hit.row.title)))
  {
    var s, anchor := Run(EMPTY, txs), hit.row.parentAnchor.value;
    var tx, id := s.ledger[ref].tx, s.db.documents[ref].id;
    CommittedModule(txs, ref, k, anchor, ordinals);
    var key :| Joins(hit.row, hit.chunk, s.db, key, ref, read);
    HitIsListed(hit, s.db, key, ref, read, ordinals);
    PiecesJoin(Modules(TreeOf(tx))[k], tx.env.tools);
    CandidateWith(hit, index, assets, Join("\n\n", TextsAt(s.db, id, ordinals)));
  }

  /** The hit's own chunk is in the listing. */
  lemma HitIsListed(hit: Retrieved, db: Db, key: (int, int), ref: string, read: string -> Body, ordinals: seq<int>)
    requires Joins(hit.row, hit.chunk, db, key, ref, read) && hit.row.parentAnchor.Some?
    requires IsModuleListing(db, db.documents[ref].id, hit.row.parentAnchor.value, ordinals)
    ensures ordinals != [] && hit.row.document == db.documents[ref].id && hit.row.sourceType == db.documents[ref].sourceType
  {
    assert InModule(db, db.documents[ref].id, hit.row.parentAnchor.value, key.1);
    assert key.1 in ordinals;
  }

  lemma PiecesJoin(m: map<string, Json>, tools: Tools)
    ensures ModulePieces(m, tools) != [] ==> Join("\n\n", ModuleText.TextsOf(ModulePieces(m, tools))) != ""
  {
    ModulePiecesClean(m, tools);
    if ModulePieces(m, tools) != [] {
      JoinTrimmed("\n\n", ModuleText.TextsOf(ModulePieces(m, tools)));
    }
  }

  lemma CandidateWith(hit: Retrieved, index: int, assets: QueryRoute.Assets, text: string)
    requires hit.row.sourceType == Html && hit.row.parentAnchor.Some? && text != ""
    requires assets.moduleText(hit.row.document, hit.row.parentAnchor.value) == Some(text)
    ensures QueryRoute.BuildCandidate(hit, index, assets)
            == Ok(Candidate(index, Html, QueryRoute.HtmlLabel(text, hit.row.title.text), None, Some(text), Some(hit.row.title)))
  {
  }
}
