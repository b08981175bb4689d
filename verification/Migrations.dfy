/** Migrations 0004 and 0005: the legacy pdfs/pages tables copied into documents/chunks, dropped, and rebuilt. */
module Migrations {
  import opened Prelude
  import opened ProductMatch
  import opened Corpus
  import opened Embedder
  import opened Text
  import opened Tables

  /** A pdfs row without its sha256, which keys the table (uq_pdfs_sha256). */
  datatype PdfRow = PdfRow(id: int, filename: Title, r2Key: string, pageCount: int, createdAt: int)

  /** A pages row without its (pdf_id, page_no), which key the table (uq_pages_pdf_page). */
  datatype PageRow = PageRow(id: int, text: string, embedding: Vector, png: string, createdAt: int)

  datatype Legacy = Legacy(pdfs: map<string, PdfRow>, pages: map<(int, int), PageRow>)

  /** What the legacy schema enforces: the primary key of pdfs, the foreign key of pages. */
  ghost predicate LegacySound(l: Legacy) {
    && (forall r, q :: r in l.pdfs && q in l.pdfs && l.pdfs[r].id == l.pdfs[q].id ==> r == q)
    && (forall k :: k in l.pages ==> HasPdf(l, k.0))
  }

  ghost predicate HasPdf(l: Legacy, id: int) {
    exists r :: r in l.pdfs && l.pdfs[r].id == id
  }

  /** The order in which a statement meets the rows of a table: any listing of its keys. */
  ghost predicate Lists<T(!new)>(order: seq<T>, keys: set<T>) {
    Distinct(order) && forall x :: x in order <==> x in keys
  }

  // --- Joins ---

  /** The equi-join of two tables on a shared unique text key: the values of the second by the id of the first. */
  function Joined<V>(order: seq<string>, ids: map<string, int>, values: map<string, V>): map<int, V> {
    if order == [] then map[]
    else
      var front, r := Joined(order[..|order| - 1], ids, values), order[|order| - 1];
      if r in ids && r in values then front[ids[r] := values[r]] else front
  }

  lemma {:induction false} JoinedAt<V>(order: seq<string>, ids: map<string, int>, values: map<string, V>, r: string)
    requires forall p, q :: p in ids && q in ids && ids[p] == ids[q] ==> p == q
    requires r in order && r in ids && r in values
    ensures ids[r] in Joined(order, ids, values) && Joined(order, ids, values)[ids[r]] == values[r]
  {
    var n := |order| - 1;
    assert order == order[..n] + [order[n]];
    if order[n] != r { JoinedAt(order[..n], ids, values, r); }
  }

  lemma {:induction false} JoinedFrom<V>(order: seq<string>, ids: map<string, int>, values: map<string, V>, d: int)
    requires d in Joined(order, ids, values)
    ensures exists r :: r in order && r in ids && r in values && ids[r] == d && Joined(order, ids, values)[d] == values[r]
  {
    var n := |order| - 1;
    assert order[n] in order;
    if order[n] !in ids || order[n] !in values || ids[order[n]] != d {
      JoinedFrom(order[..n], ids, values, d);
      var r :| r in order[..n] && r in ids && r in values && ids[r] == d && Joined(order[..n], ids, values)[d] == values[r];
      assert r in order;
    }
  }

  function PdfIds(pdfs: map<string, PdfRow>): map<string, int> {
    map r | r in pdfs :: pdfs[r].id
  }

  /** The ids of the documents of source type 'pdf'. */
  function PdfDocumentIds(documents: map<string, DocRow>): map<string, int> {
    map r | r in documents && documents[r].sourceType == Pdf :: documents[r].id
  }

  /** What a copied page takes from its PDF and its new document. */
  datatype Target = Target(document: int, r2Key: string)

  function Targets(pdfs: map<string, PdfRow>, documents: map<string, DocRow>): map<string, Target> {
    map r | r in pdfs && r in documents :: Target(documents[r].id, pdfs[r].r2Key)
  }

  /** pages JOIN pdfs JOIN documents, by pdf_id. */
  function PageJoin(order: seq<string>, pdfs: map<string, PdfRow>, documents: map<string, DocRow>): map<int, Target> {
    Joined(order, PdfIds(pdfs), Targets(pdfs, documents))
  }

  /** chunks JOIN documents (of type 'pdf') JOIN pdfs, by document_id. */
  function ChunkJoin(order: seq<string>, documents: map<string, DocRow>, pdfs: map<string, PdfRow>): map<int, int> {
    Joined(order, PdfDocumentIds(documents), PdfIds(pdfs))
  }

  // --- 0004: the two copies ---

  const NO_FACET := Facet(None, None)

  /** The first INSERT … SELECT. */
  function CopiedDocuments(pdfs: map<string, PdfRow>, order: seq<string>): map<string, DocRow>
    requires forall r :: r in order ==> r in pdfs
  {
    if order == [] then map[]
    else
      var r := order[|order| - 1];
      CopiedDocuments(pdfs, order[..|order| - 1])
        [r := DocRow(|order|, Pdf, pdfs[r].filename, pdfs[r].r2Key, NO_FACET, pdfs[r].createdAt)]
  }

  function ChunkOf(page: PageRow, pageNo: int, r2Key: string): Content {
    Content(page.text, page.embedding, Some(page.png), None, None, r2Key + "#page=" + Decimal(pageNo), page.createdAt)
  }

  /** The second INSERT … SELECT: a page that joins nothing is not copied. */
  function CopiedChunks(pages: map<(int, int), PageRow>, order: seq<(int, int)>, join: map<int, Target>)
    : map<(int, int), ChunkRow>
    requires forall k :: k in order ==> k in pages
  {
    if order == [] then map[]
    else
      var done := CopiedChunks(pages, order[..|order| - 1], join);
      var k := order[|order| - 1];
      if k.0 !in join then done
      else done[(join[k.0].document, k.1) := ChunkRow(|done| + 1, ChunkOf(pages[k], k.1, join[k.0].r2Key))]
  }

  // --- 0005 downgrade: the two rebuilds ---

  /** max(c.ordinal) over the chunks of a document. */
  function MaxOrdinal(order: seq<(int, int)>, document: int): Option<int> {
    if order == [] then None
    else
      var k := order[|order| - 1];
      match MaxOrdinal(order[..|order| - 1], document)
      case None => if k.0 == document then Some(k.1) else None
      case Some(m) => if k.0 == document && k.1 > m then Some(k.1) else Some(m)
  }

  /** coalesce(max(c.ordinal), 0) */
  function PageCount(order: seq<(int, int)>, document: int): int {
    match MaxOrdinal(order, document) case None => 0 case Some(m) => m
  }

  function RebuiltPdfs(documents: map<string, DocRow>, order: seq<string>, chunkOrder: seq<(int, int)>): map<string, PdfRow>
    requires forall r :: r in order ==> r in documents
  {
    if order == [] then map[]
    else
      var done := RebuiltPdfs(documents, order[..|order| - 1], chunkOrder);
      var r := order[|order| - 1];
      var d := documents[r];
      if d.sourceType != Pdf then done
      else done[r := PdfRow(|done| + 1, d.title, d.sourceUrl, PageCount(chunkOrder, d.id), d.createdAt)]
  }

  /** The page of a chunk; None violates NOT NULL on png_r2_key. */
  function PageOf(chunk: ChunkRow, id: int): Option<PageRow> {
    match chunk.content.png
    case None => None
    case Some(png) => Some(PageRow(id, chunk.content.text, chunk.content.embedding, png, chunk.content.createdAt))
  }

  /** None: a NOT NULL violation. Chunks of other documents join nothing. */
  function RebuiltPages(chunks: map<(int, int), ChunkRow>, order: seq<(int, int)>, join: map<int, int>)
    : Option<map<(int, int), PageRow>>
    requires forall k :: k in order ==> k in chunks
  {
    if order == [] then Some(map[])
    else
      match RebuiltPages(chunks, order[..|order| - 1], join)
      case None => None
      case Some(done) =>
        var k := order[|order| - 1];
        if k.0 !in join then Some(done)
        else
          match PageOf(chunks[k], |done| + 1)
          case None => None
          case Some(page) => Some(done[(join[k.0], k.1) := page])
  }

  /** The tables after 0004. */
  function Copied(l: Legacy, db: Db, pdfOrder: seq<string>, pageOrder: seq<(int, int)>): Db
    requires (forall r :: r in pdfOrder ==> r in l.pdfs) && (forall k :: k in pageOrder ==> k in l.pages)
  {
    var documents := CopiedDocuments(l.pdfs, pdfOrder);
    var chunks := CopiedChunks(l.pages, pageOrder, PageJoin(pdfOrder, l.pdfs, documents));
    db.(documents := documents, nextDocument := |pdfOrder| + 1, chunks := chunks, nextChunk := |chunks| + 1)
  }

  /** The legacy tables after the 0005 downgrade; None when it fails. */
  function Rebuilt(db: Db, documentOrder: seq<string>, chunkOrder: seq<(int, int)>): Option<Legacy>
    requires (forall r :: r in documentOrder ==> r in db.documents) && (forall k :: k in chunkOrder ==> k in db.chunks)
  {
    var pdfs := RebuiltPdfs(db.documents, documentOrder, chunkOrder);
    match RebuiltPages(db.chunks, chunkOrder, ChunkJoin(documentOrder, db.documents, pdfs))
    case None => None
    case Some(pages) => Some(Legacy(pdfs, pages))
  }

  /** The database through the two revisions; legacy is None once pdfs and pages are dropped. */
  class Database {
    var legacy: Option<Legacy>
    var tables: Db

    constructor (legacy: Legacy, tables: Db)
      ensures this.legacy == Some(legacy) && this.tables == tables
    {
      this.legacy := Some(legacy);
      this.tables := tables;
    }

    /** 0004: create and fill documents and chunks; the rows are met in any order. */
    method Upgrade0004(pdfOrder: seq<string>, pageOrder: seq<(int, int)>)
      requires legacy.Some? && Lists(pdfOrder, legacy.value.pdfs.Keys)
      requires Lists(pageOrder, legacy.value.pages.Keys)
      modifies this
      ensures legacy == old(legacy) && tables == Copied(legacy.value, old(tables), pdfOrder, pageOrder)
    {
      tables := tables.(documents := map[], chunks := map[], nextDocument := 1, nextChunk := 1);
      var documents := CopyDocuments(legacy.value.pdfs, pdfOrder);
      tables := tables.(documents := documents, nextDocument := |pdfOrder| + 1);
      FillChunks(pdfOrder, pageOrder);
    }

    /** The second statement of 0004. */
    method FillChunks(pdfOrder: seq<string>, pageOrder: seq<(int, int)>)
      requires legacy.Some? && Lists(pageOrder, legacy.value.pages.Keys)
      modifies this
      ensures legacy == old(legacy)
      ensures var chunks := CopiedChunks(legacy.value.pages, pageOrder, PageJoin(pdfOrder, legacy.value.pdfs, old(tables).documents));
              tables == old(tables).(chunks := chunks, nextChunk := |chunks| + 1)
    {
      var join := PageJoin(pdfOrder, legacy.value.pdfs, tables.documents);
      var chunks := CopyChunks(legacy.value.pages, pageOrder, join);
      tables := tables.(chunks := chunks, nextChunk := |chunks| + 1);
    }

    /** 0005: drop pages, then pdfs. */
    method Upgrade0005()
      modifies this
      ensures legacy == None && tables == old(tables)
    {
      legacy := None;
    }

    /** 0005 downgrade: recreate and refill pdfs and pages; a failing statement rolls everything back. */
    method Downgrade0005(documentOrder: seq<string>, chunkOrder: seq<(int, int)>) returns (ok: bool)
      requires legacy.None? && Lists(documentOrder, tables.documents.Keys)
      requires Lists(chunkOrder, tables.chunks.Keys)
      modifies this
      ensures tables == old(tables)
      ensures legacy == Rebuilt(tables, documentOrder, chunkOrder) && ok == legacy.Some?
    {
      var pdfs := RebuildPdfs(tables.documents, documentOrder, chunkOrder);
      var pages := RebuildPages(tables.chunks, chunkOrder, ChunkJoin(documentOrder, tables.documents, pdfs));
      ok := pages.Some?;
      if ok {
        legacy := Some(Legacy(pdfs, pages.value));
      }
    }
  }

  // --- The statements as loops ---

  method CopyDocuments(pdfs: map<string, PdfRow>, order: seq<string>) returns (documents: map<string, DocRow>)
    requires Lists(order, pdfs.Keys)
    ensures documents == CopiedDocuments(pdfs, order)
  {
    documents := map[];
    for i := 0 to |order|
      invariant documents == CopiedDocuments(pdfs, order[..i])
    {
      var r := order[i];
      assert order[..i + 1][..i] == order[..i];
      documents := documents[r := DocRow(i + 1, Pdf, pdfs[r].filename, pdfs[r].r2Key, NO_FACET, pdfs[r].createdAt)];
    }
    assert order[..|order|] == order;
  }

  method CopyChunks(pages: map<(int, int), PageRow>, order: seq<(int, int)>, join: map<int, Target>)
    returns (chunks: map<(int, int), ChunkRow>)
    requires Lists(order, pages.Keys)
    ensures chunks == CopiedChunks(pages, order, join)
  {
    chunks := map[];
    for i := 0 to |order|
      invariant chunks == CopiedChunks(pages, order[..i], join)
    {
      var k := order[i];
      assert order[..i + 1][..i] == order[..i];
      if k.0 in join {
        chunks := chunks[(join[k.0].document, k.1) := ChunkRow(|chunks| + 1, ChunkOf(pages[k], k.1, join[k.0].r2Key))];
      }
    }
    assert order[..|order|] == order;
  }

  /** The correlated subquery of one row. */
  method CountPages(order: seq<(int, int)>, document: int) returns (count: int)
    ensures count == PageCount(order, document)
  {
    var largest: Option<int> := None;
    for i := 0 to |order|
      invariant largest == MaxOrdinal(order[..i], document)
    {
      assert order[..i + 1][..i] == order[..i];
      if order[i].0 == document && (largest.None? || order[i].1 > largest.value) {
        largest := Some(order[i].1);
      }
    }
    assert order[..|order|] == order;
    count := match largest case None => 0 case Some(m) => m;
  }

  method RebuildPdfs(documents: map<string, DocRow>, order: seq<string>, chunkOrder: seq<(int, int)>)
    returns (pdfs: map<string, PdfRow>)
    requires Lists(order, documents.Keys)
    ensures pdfs == RebuiltPdfs(documents, order, chunkOrder)
  {
    pdfs := map[];
    for i := 0 to |order|
      invariant pdfs == RebuiltPdfs(documents, order[..i], chunkOrder)
    {
      var d := documents[order[i]];
      assert order[..i + 1][..i] == order[..i];
      if d.sourceType == Pdf {
        var count := CountPages(chunkOrder, d.id);
        pdfs := pdfs[order[i] := PdfRow(|pdfs| + 1, d.title, d.sourceUrl, count, d.createdAt)];
      }
    }
    assert order[..|order|] == order;
  }

  method RebuildPages(chunks: map<(int, int), ChunkRow>, order: seq<(int, int)>, join: map<int, int>)
    returns (pages: Option<map<(int, int), PageRow>>)
    requires Lists(order, chunks.Keys)
    ensures pages == RebuiltPages(chunks, order, join)
  {
    var done: map<(int, int), PageRow> := map[];
    for i := 0 to |order|
      invariant RebuiltPages(chunks, order[..i], join) == Some(done)
    {
      var k := order[i];
      assert order[..i + 1][..i] == order[..i];
      if k.0 in join {
        var page := PageOf(chunks[k], |done| + 1);
        if page.None? {
          RebuildStops(chunks, order, join, i + 1);
          return None;
        }
        done := done[(join[k.0], k.1) := page.value];
      }
    }
    assert order[..|order|] == order;
    pages := Some(done);
  }

  lemma {:induction false} RebuildStops(chunks: map<(int, int), ChunkRow>, order: seq<(int, int)>, join: map<int, int>, n: nat)
    requires n <= |order| && (forall k :: k in order ==> k in chunks) && RebuiltPages(chunks, order[..n], join).None?
    ensures RebuiltPages(chunks, order, join).None?
  {
    if n == |order| {
      assert order[..n] == order;
    } else {
      assert order[..|order| - 1][..n] == order[..n];
      RebuildStops(chunks, order[..|order| - 1], join, n);
    }
  }

  // --- The relation both directions establish ---

  /** A page and a chunk agree: both or neither exist, with the same content. */
  ghost predicate SamePage(l: Legacy, db: Db, pdf: int, document: int, n: int) {
    && ((pdf, n) in l.pages <==> (document, n) in db.chunks)
    && ((pdf, n) in l.pages && (document, n) in db.chunks ==> PageFits(l.pages[(pdf, n)], db.chunks[(document, n)].content))
  }

  /** The PDF and its document agree in every column the copies carry. */
  ghost predicate SameDocument(pdf: PdfRow, d: DocRow) {
    d.sourceType == Pdf && d.title == pdf.filename && d.sourceUrl == pdf.r2Key && d.createdAt == pdf.createdAt
  }

  /** Every legacy PDF is there as a PDF document with exactly its pages. */
  ghost predicate Within(l: Legacy, db: Db) {
    forall r :: r in l.pdfs ==>
      && r in db.documents && SameDocument(l.pdfs[r], db.documents[r])
      && forall n :: SamePage(l, db, l.pdfs[r].id, db.documents[r].id, n)
  }

  /** The unified tables hold no PDF document the legacy tables lack. */
  ghost predicate NoOtherPdf(l: Legacy, db: Db) {
    forall r :: r in db.documents && db.documents[r].sourceType == Pdf ==> r in l.pdfs
  }

  /** The legacy tables are the PDF part of the unified tables, up to the numbering of rows. */
  ghost predicate Mirrors(l: Legacy, db: Db) {
    Within(l, db) && NoOtherPdf(l, db)
  }

  ghost predicate UniqueIds(db: Db) {
    forall r, q :: r in db.documents && q in db.documents && db.documents[r].id == db.documents[q].id ==> r == q
  }

  ghost predicate PdfChunksHaveImages(db: Db) {
    forall r, k :: r in db.documents && db.documents[r].sourceType == Pdf && k in db.chunks && k.0 == db.documents[r].id ==>
      db.chunks[k].content.png.Some?
  }

  /** m is the largest page number stored for the PDF, or 0 for a PDF without pages. */
  ghost predicate LargestPage(l: Legacy, pdf: int, m: int) {
    && (forall n :: (pdf, n) in l.pages ==> n <= m)
    && ((pdf, m) in l.pages || (m == 0 && forall n :: (pdf, n) !in l.pages))
  }

  ghost predicate CountsAreLargest(l: Legacy) {
    forall r :: r in l.pdfs ==> LargestPage(l, l.pdfs[r].id, l.pdfs[r].pageCount)
  }

  // --- 0004 copies everything ---

  /** Each PDF becomes the document numbered by its place in the order. */
  lemma {:induction false} DocumentCopied(pdfs: map<string, PdfRow>, order: seq<string>, i: nat)
    requires (forall r :: r in order ==> r in pdfs) && Distinct(order) && i < |order|
    ensures order[i] in CopiedDocuments(pdfs, order)
    ensures var p := pdfs[order[i]];
            CopiedDocuments(pdfs, order)[order[i]] == DocRow(i + 1, Pdf, p.filename, p.r2Key, NO_FACET, p.createdAt)
  {
    if i < |order| - 1 { DocumentCopied(pdfs, order[..|order| - 1], i); }
  }

  lemma {:induction false} OnlyPdfsCopied(pdfs: map<string, PdfRow>, order: seq<string>, r: string)
    requires (forall q :: q in order ==> q in pdfs) && r in CopiedDocuments(pdfs, order)
    ensures r in order
  {
    if r != order[|order| - 1] { OnlyPdfsCopied(pdfs, order[..|order| - 1], r); }
  }

  lemma {:induction false} ChunkCopied(
    pages: map<(int, int), PageRow>, order: seq<(int, int)>, join: map<int, Target>, i: nat)
    requires (forall k :: k in order ==> k in pages) && Distinct(order) && i < |order| && order[i].0 in join
    requires forall p, q :: p in join && q in join && join[p].document == join[q].document ==> p == q
    ensures var k, chunks := order[i], CopiedChunks(pages, order, join);
            && (join[k.0].document, k.1) in chunks
            && chunks[(join[k.0].document, k.1)].content == ChunkOf(pages[k], k.1, join[k.0].r2Key)
  {
    if i < |order| - 1 {
      ChunkCopied(pages, order[..|order| - 1], join, i);
      assert order[i] != order[|order| - 1];
    }
  }

  lemma {:induction false} OnlyPagesCopied(
    pages: map<(int, int), PageRow>, order: seq<(int, int)>, join: map<int, Target>, key: (int, int))
    requires (forall k :: k in order ==> k in pages) && key in CopiedChunks(pages, order, join)
    ensures exists i :: 0 <= i < |order| && order[i].0 in join && (join[order[i].0].document, order[i].1) == key
  {
    var n := |order| - 1;
    if order[n].0 !in join || (join[order[n].0].document, order[n].1) != key {
      OnlyPagesCopied(pages, order[..n], join, key);
      var i :| 0 <= i < n && order[..n][i].0 in join && (join[order[..n][i].0].document, order[..n][i].1) == key;
      assert order[i] == order[..n][i];
    }
  }

  lemma DocumentsAreCopied(pdfs: map<string, PdfRow>, order: seq<string>)
    requires Lists(order, pdfs.Keys)
    ensures CopiedDocuments(pdfs, order).Keys == pdfs.Keys
    ensures forall r :: r in pdfs ==> CopiedAt(pdfs, order, CopiedDocuments(pdfs, order), r)
  {
    forall r | r in pdfs ensures CopiedAt(pdfs, order, CopiedDocuments(pdfs, order), r) {
      var i :| 0 <= i < |order| && order[i] == r;
      DocumentCopied(pdfs, order, i);
    }
    forall r | r in CopiedDocuments(pdfs, order) ensures r in pdfs {
      OnlyPdfsCopied(pdfs, order, r);
    }
  }

  /** The PDF under r was copied, and its new id is its place in the order. */
  ghost predicate CopiedAt(pdfs: map<string, PdfRow>, order: seq<string>, documents: map<string, DocRow>, r: string) {
    && r in pdfs && r in documents && SameDocument(pdfs[r], documents[r])
    && 1 <= documents[r].id <= |order| && order[documents[r].id - 1] == r
  }

  /** The join links every PDF id to its own document and nothing else. */
  ghost predicate LinksAll(l: Legacy, documents: map<string, DocRow>, join: map<int, Target>) {
    && (forall r :: r in l.pdfs ==> r in documents && Linked(l.pdfs[r], documents[r], join))
    && (forall p :: p in join ==> HasPdf(l, p))
  }

  ghost predicate Linked(pdf: PdfRow, d: DocRow, join: map<int, Target>) {
    pdf.id in join && join[pdf.id] == Target(d.id, pdf.r2Key)
  }

  lemma JoinLinksAll(order: seq<string>, l: Legacy, documents: map<string, DocRow>)
    requires LegacySound(l) && documents.Keys == l.pdfs.Keys && Lists(order, l.pdfs.Keys)
    ensures LinksAll(l, documents, PageJoin(order, l.pdfs, documents))
  {
    var ids, targets, join := PdfIds(l.pdfs), Targets(l.pdfs, documents), PageJoin(order, l.pdfs, documents);
    forall r | r in l.pdfs ensures Linked(l.pdfs[r], documents[r], join) {
      JoinedAt(order, ids, targets, r);
    }
    forall p | p in join ensures HasPdf(l, p) {
      JoinedFrom(order, ids, targets, p);
    }
  }

  lemma LinksAreInjective(l: Legacy, documents: map<string, DocRow>, join: map<int, Target>)
    requires LinksAll(l, documents, join)
    requires forall r, q :: r in documents && q in documents && documents[r].id == documents[q].id ==> r == q
    ensures forall p, q :: p in join && q in join && join[p].document == join[q].document ==> p == q
  {
    forall p, q | p in join && q in join && join[p].document == join[q].document ensures p == q {
      var r :| r in l.pdfs && l.pdfs[r].id == p;
      var s :| s in l.pdfs && l.pdfs[s].id == q;
      assert Linked(l.pdfs[r], documents[r], join) && Linked(l.pdfs[s], documents[s], join);
    }
  }

  /** The chunks are the pages, page by page. */
  lemma PageIsCopied(l: Legacy, order: seq<(int, int)>, join: map<int, Target>, db: Db, r: string, n: int)
    requires LegacySound(l) && Lists(order, l.pages.Keys) && LinksAll(l, db.documents, join) && UniqueIds(db)
    requires db.chunks == CopiedChunks(l.pages, order, join) && r in l.pdfs
    ensures SamePage(l, db, l.pdfs[r].id, db.documents[r].id, n)
  {
    LinksAreInjective(l, db.documents, join);
    var p, d := l.pdfs[r].id, db.documents[r].id;
    assert Linked(l.pdfs[r], db.documents[r], join);
    if (p, n) in l.pages {
      var i :| 0 <= i < |order| && order[i] == (p, n);
      ChunkCopied(l.pages, order, join, i);
    }
    if (d, n) in db.chunks {
      OnlyPagesCopied(l.pages, order, join, (d, n));
      var i :| 0 <= i < |order| && order[i].0 in join && (join[order[i].0].document, order[i].1) == (d, n);
      assert order[i].0 == p && order[i] == (p, n);
    }
  }

  /** Copied chunks belong to copied documents and have page images. */
  lemma CopiedChunkFits(l: Legacy, order: seq<(int, int)>, join: map<int, Target>, db: Db, key: (int, int))
    requires LegacySound(l) && Lists(order, l.pages.Keys) && LinksAll(l, db.documents, join) && UniqueIds(db)
    requires db.chunks == CopiedChunks(l.pages, order, join) && key in db.chunks
    ensures HasId(db, key.0) && db.chunks[key].content.png.Some?
  {
    LinksAreInjective(l, db.documents, join);
    OnlyPagesCopied(l.pages, order, join, key);
    var i :| 0 <= i < |order| && order[i].0 in join && (join[order[i].0].document, order[i].1) == key;
    ChunkCopied(l.pages, order, join, i);
    var r :| r in l.pdfs && l.pdfs[r].id == order[i].0;
    assert Linked(l.pdfs[r], db.documents[r], join);
  }

  /** The documents of the copy. */
  ghost predicate DocumentsReady(l: Legacy, db: Db) {
    && db.documents.Keys == l.pdfs.Keys && UniqueIds(db)
    && (forall r :: r in l.pdfs ==> SameDocument(l.pdfs[r], db.documents[r]) && db.documents[r].id < db.nextDocument)
  }

  lemma CopyIsReady(l: Legacy, order: seq<string>, db: Db)
    requires Lists(order, l.pdfs.Keys) && db.documents == CopiedDocuments(l.pdfs, order) && db.nextDocument == |order| + 1
    ensures DocumentsReady(l, db)
  {
    DocumentsAreCopied(l.pdfs, order);
    PlacesAreIds(l, order, db);
  }

  lemma PlacesAreIds(l: Legacy, order: seq<string>, db: Db)
    requires db.documents.Keys == l.pdfs.Keys && db.nextDocument == |order| + 1
    requires forall r :: r in l.pdfs ==> CopiedAt(l.pdfs, order, db.documents, r)
    ensures DocumentsReady(l, db)
  {
  }

  lemma CopiedChunksMirror(l: Legacy, order: seq<(int, int)>, join: map<int, Target>, db: Db)
    requires LegacySound(l) && Lists(order, l.pages.Keys) && LinksAll(l, db.documents, join) && DocumentsReady(l, db)
    requires db.chunks == CopiedChunks(l.pages, order, join)
    ensures Mirrors(l, db)
  {
    forall r, n | r in l.pdfs ensures SamePage(l, db, l.pdfs[r].id, db.documents[r].id, n) {
      PageIsCopied(l, order, join, db, r, n);
    }
  }

  lemma CopiedChunksSound(l: Legacy, order: seq<(int, int)>, join: map<int, Target>, db: Db)
    requires LegacySound(l) && Lists(order, l.pages.Keys) && LinksAll(l, db.documents, join) && DocumentsReady(l, db)
    requires db.chunks == CopiedChunks(l.pages, order, join)
    ensures Sound(db)
  {
    forall key | key in db.chunks ensures HasId(db, key.0) && db.chunks[key].content.png.Some? {
      CopiedChunkFits(l, order, join, db, key);
    }
  }

  lemma CopyMirrors(l: Legacy, pdfOrder: seq<string>, pageOrder: seq<(int, int)>, db: Db)
    requires LegacySound(l) && Lists(pdfOrder, l.pdfs.Keys) && Lists(pageOrder, l.pages.Keys)
    requires db.documents == CopiedDocuments(l.pdfs, pdfOrder) && db.nextDocument == |pdfOrder| + 1
    requires db.chunks == CopiedChunks(l.pages, pageOrder, PageJoin(pdfOrder, l.pdfs, db.documents))
    ensures Sound(db) && Mirrors(l, db)
  {
    var join := PageJoin(pdfOrder, l.pdfs, db.documents);
    CopyIsReady(l, pdfOrder, db);
    JoinLinksAll(pdfOrder, l, db.documents);
    CopiedChunksMirror(l, pageOrder, join, db);
    CopiedChunksSound(l, pageOrder, join, db);
  }

  /** 0004 in full: the unified tables are sound and mirror the legacy ones. */
  lemma UpgradeMirrors(l: Legacy, start: Db, pdfOrder: seq<string>, pageOrder: seq<(int, int)>)
    requires LegacySound(l) && Lists(pdfOrder, l.pdfs.Keys) && Lists(pageOrder, l.pages.Keys)
    ensures Sound(Copied(l, start, pdfOrder, pageOrder)) && Mirrors(l, Copied(l, start, pdfOrder, pageOrder))
  {
    CopyMirrors(l, pdfOrder, pageOrder, Copied(l, start, pdfOrder, pageOrder));
  }

  /** Each copied page links its PDF's stored file at its page number, and has no anchors. */
  lemma CopiedPageLinks(l: Legacy, start: Db, pdfOrder: seq<string>, pageOrder: seq<(int, int)>, r: string, n: int)
    requires LegacySound(l) && Lists(pdfOrder, l.pdfs.Keys) && Lists(pageOrder, l.pages.Keys)
    requires r in l.pdfs && (l.pdfs[r].id, n) in l.pages
    ensures var db := Copied(l, start, pdfOrder, pageOrder);
            && r in db.documents && (db.documents[r].id, n) in db.chunks
            && var content := db.chunks[(db.documents[r].id, n)].content;
               && content.sourceUrl == l.pdfs[r].r2Key + "#page=" + Decimal(n)
               && content.anchor.None? && content.parentAnchor.None?
  {
    var documents := CopiedDocuments(l.pdfs, pdfOrder);
    var join := PageJoin(pdfOrder, l.pdfs, documents);
    DocumentsAreCopied(l.pdfs, pdfOrder);
    JoinLinksAll(pdfOrder, l, documents);
    IdsAreUnique(l, pdfOrder, documents);
    LinksAreInjective(l, documents, join);
    assert Linked(l.pdfs[r], documents[r], join);
    var i :| 0 <= i < |pageOrder| && pageOrder[i] == (l.pdfs[r].id, n);
    ChunkCopied(l.pages, pageOrder, join, i);
  }

  lemma IdsAreUnique(l: Legacy, order: seq<string>, documents: map<string, DocRow>)
    requires documents.Keys == l.pdfs.Keys && forall r :: r in l.pdfs ==> CopiedAt(l.pdfs, order, documents, r)
    ensures forall r, q :: r in documents && q in documents && documents[r].id == documents[q].id ==> r == q
  {
    forall r, q | r in documents && q in documents && documents[r].id == documents[q].id ensures r == q {
      assert CopiedAt(l.pdfs, order, documents, r) && CopiedAt(l.pdfs, order, documents, q);
    }
  }

  // --- The downgrade rebuilds everything ---

  /** The rebuilt row of a PDF document, its count the aggregate over its chunks. */
  ghost predicate RebuiltRow(pdf: PdfRow, d: DocRow, chunkOrder: seq<(int, int)>) {
    SameDocument(pdf, d) && pdf.pageCount == PageCount(chunkOrder, d.id)
  }

  lemma {:induction false} PdfRebuilt(documents: map<string, DocRow>, order: seq<string>, chunkOrder: seq<(int, int)>, r: string)
    requires forall q :: q in order ==> q in documents
    ensures r in RebuiltPdfs(documents, order, chunkOrder) <==> r in order && documents[r].sourceType == Pdf
    ensures r in RebuiltPdfs(documents, order, chunkOrder) ==>
              RebuiltRow(RebuiltPdfs(documents, order, chunkOrder)[r], documents[r], chunkOrder)
  {
    if order != [] {
      var n := |order| - 1;
      assert order == order[..n] + [order[n]];
      PdfRebuilt(documents, order[..n], chunkOrder, r);
    }
  }

  /** The serial ids are distinct. */
  lemma {:induction false} RebuiltIds(documents: map<string, DocRow>, order: seq<string>, chunkOrder: seq<(int, int)>)
    requires Distinct(order) && forall q :: q in order ==> q in documents
    ensures var pdfs := RebuiltPdfs(documents, order, chunkOrder);
            && (forall r :: r in pdfs ==> 1 <= pdfs[r].id <= |pdfs|)
            && (forall r, q :: r in pdfs && q in pdfs && pdfs[r].id == pdfs[q].id ==> r == q)
  {
    if order != [] {
      var n := |order| - 1;
      RebuiltIds(documents, order[..n], chunkOrder);
      PdfRebuilt(documents, order[..n], chunkOrder, order[n]);
    }
  }

  lemma PdfsAreRebuilt(documents: map<string, DocRow>, order: seq<string>, chunkOrder: seq<(int, int)>)
    requires Lists(order, documents.Keys)
    ensures var pdfs := RebuiltPdfs(documents, order, chunkOrder);
            && (forall r :: r in pdfs <==> r in documents && documents[r].sourceType == Pdf)
            && (forall r :: r in pdfs ==> RebuiltRow(pdfs[r], documents[r], chunkOrder))
            && (forall r, q :: r in pdfs && q in pdfs && pdfs[r].id == pdfs[q].id ==> r == q)
  {
    RebuiltIds(documents, order, chunkOrder);
    forall r
      ensures r in RebuiltPdfs(documents, order, chunkOrder) <==> r in documents && documents[r].sourceType == Pdf
      ensures r in RebuiltPdfs(documents, order, chunkOrder) ==>
                RebuiltRow(RebuiltPdfs(documents, order, chunkOrder)[r], documents[r], chunkOrder)
    {
      PdfRebuilt(documents, order, chunkOrder, r);
    }
  }

  /** The aggregate is the largest ordinal of the document's chunks. */
  lemma {:induction false} MaxOrdinalIsMax(order: seq<(int, int)>, document: int)
    ensures MaxOrdinal(order, document).None? <==> forall n :: (document, n) !in order
    ensures MaxOrdinal(order, document).Some? ==>
              var m := MaxOrdinal(order, document).value;
              (document, m) in order && forall n :: (document, n) in order ==> n <= m
  {
    if order != [] {
      var front, last := order[..|order| - 1], order[|order| - 1];
      MaxOrdinalIsMax(front, document);
      assert order == front + [last];
      assert last in order;
    }
  }

  /** The join links every PDF document to its own rebuilt row and nothing else. */
  ghost predicate Returns(pdfs: map<string, PdfRow>, documents: map<string, DocRow>, join: map<int, int>) {
    && (forall r :: r in pdfs ==> r in documents && documents[r].sourceType == Pdf
                                  && documents[r].id in join && join[documents[r].id] == pdfs[r].id)
    && (forall d :: d in join ==> ReturnsFrom(pdfs, documents, d))
    && (forall d, e :: d in join && e in join && join[d] == join[e] ==> d == e)
  }

  ghost predicate ReturnsFrom(pdfs: map<string, PdfRow>, documents: map<string, DocRow>, d: int) {
    exists r :: r in pdfs && r in documents && documents[r].id == d
  }

  lemma JoinReturns(db: Db, order: seq<string>, pdfs: map<string, PdfRow>)
    requires UniqueIds(db) && Lists(order, db.documents.Keys)
    requires forall r :: r in pdfs <==> r in db.documents && db.documents[r].sourceType == Pdf
    requires forall r, q :: r in pdfs && q in pdfs && pdfs[r].id == pdfs[q].id ==> r == q
    ensures Returns(pdfs, db.documents, ChunkJoin(order, db.documents, pdfs))
  {
    var ids, join := PdfDocumentIds(db.documents), ChunkJoin(order, db.documents, pdfs);
    forall d | d in join
      ensures ReturnsFrom(pdfs, db.documents, d)
      ensures exists r :: r in pdfs && db.documents[r].id == d && join[d] == pdfs[r].id
    {
      JoinedFrom(order, ids, PdfIds(pdfs), d);
    }
    forall r | r in pdfs ensures db.documents[r].id in join && join[db.documents[r].id] == pdfs[r].id {
      JoinedAt(order, ids, PdfIds(pdfs), r);
    }
  }

  /** The second statement fails exactly for a joined chunk without an image. */
  lemma {:induction false} PagesFailForImages(chunks: map<(int, int), ChunkRow>, order: seq<(int, int)>, join: map<int, int>)
    requires forall k :: k in order ==> k in chunks
    ensures RebuiltPages(chunks, order, join).Some? <==>
              forall k :: k in order && k.0 in join ==> chunks[k].content.png.Some?
  {
    if order != [] {
      var front, last := order[..|order| - 1], order[|order| - 1];
      PagesFailForImages(chunks, front, join);
      assert order == front + [last];
      assert last in order;
    }
  }

  /** The chunk's content is the page's. */
  ghost predicate PageFits(page: PageRow, content: Content) {
    content.text == page.text && content.embedding == page.embedding && content.png == Some(page.png)
    && content.createdAt == page.createdAt
  }

  lemma {:induction false} PageRebuilt(chunks: map<(int, int), ChunkRow>, order: seq<(int, int)>, join: map<int, int>, i: nat)
    requires (forall k :: k in order ==> k in chunks) && Distinct(order) && i < |order| && order[i].0 in join
    requires forall d, e :: d in join && e in join && join[d] == join[e] ==> d == e
    requires RebuiltPages(chunks, order, join).Some?
    ensures var k, pages := order[i], RebuiltPages(chunks, order, join).value;
            (join[k.0], k.1) in pages && PageFits(pages[(join[k.0], k.1)], chunks[k].content)
  {
    if i < |order| - 1 {
      PageRebuilt(chunks, order[..|order| - 1], join, i);
      assert order[i] != order[|order| - 1];
    }
  }

  lemma {:induction false} OnlyChunksRebuilt(
    chunks: map<(int, int), ChunkRow>, order: seq<(int, int)>, join: map<int, int>, key: (int, int))
    requires (forall k :: k in order ==> k in chunks) && RebuiltPages(chunks, order, join).Some?
    requires key in RebuiltPages(chunks, order, join).value
    ensures exists i :: 0 <= i < |order| && order[i].0 in join && (join[order[i].0], order[i].1) == key
  {
    var n := |order| - 1;
    if order[n].0 !in join || (join[order[n].0], order[n].1) != key {
      OnlyChunksRebuilt(chunks, order[..n], join, key);
      var i :| 0 <= i < n && order[..n][i].0 in join && (join[order[..n][i].0], order[..n][i].1) == key;
      assert order[i] == order[..n][i];
    }
  }

  /** The pages are the PDF chunks, one by one. */
  lemma ChunkIsRebuilt(db: Db, order: seq<(int, int)>, join: map<int, int>, l: Legacy, r: string, n: int)
    requires Lists(order, db.chunks.Keys) && UniqueIds(db) && Returns(l.pdfs, db.documents, join)
    requires RebuiltPages(db.chunks, order, join) == Some(l.pages) && r in l.pdfs
    ensures SamePage(l, db, l.pdfs[r].id, db.documents[r].id, n)
  {
    var p, d := l.pdfs[r].id, db.documents[r].id;
    if (d, n) in db.chunks {
      var i :| 0 <= i < |order| && order[i] == (d, n);
      PageRebuilt(db.chunks, order, join, i);
    }
    if (p, n) in l.pages {
      OnlyChunksRebuilt(db.chunks, order, join, (p, n));
      var i :| 0 <= i < |order| && order[i].0 in join && (join[order[i].0], order[i].1) == (p, n);
      assert order[i].0 == d && order[i] == (d, n);
    }
  }

  /** Every rebuilt page belongs to a rebuilt PDF. */
  lemma RebuiltPageFits(db: Db, order: seq<(int, int)>, join: map<int, int>, l: Legacy, key: (int, int))
    requires Lists(order, db.chunks.Keys) && Returns(l.pdfs, db.documents, join)
    requires RebuiltPages(db.chunks, order, join) == Some(l.pages) && key in l.pages
    ensures HasPdf(l, key.0)
  {
    OnlyChunksRebuilt(db.chunks, order, join, key);
    var i :| 0 <= i < |order| && order[i].0 in join && (join[order[i].0], order[i].1) == key;
    assert ReturnsFrom(l.pdfs, db.documents, order[i].0);
  }

  /** The count of a rebuilt PDF is its largest page number. */
  lemma CountIsLargest(db: Db, order: seq<(int, int)>, l: Legacy, r: string)
    requires Lists(order, db.chunks.Keys) && r in l.pdfs && r in db.documents
    requires forall n :: SamePage(l, db, l.pdfs[r].id, db.documents[r].id, n)
    requires l.pdfs[r].pageCount == PageCount(order, db.documents[r].id)
    ensures LargestPage(l, l.pdfs[r].id, l.pdfs[r].pageCount)
  {
    var p, d := l.pdfs[r].id, db.documents[r].id;
    MaxOrdinalIsMax(order, d);
    forall n ensures (p, n) in l.pages <==> (d, n) in order {
      assert SamePage(l, db, p, d, n);
    }
  }

  lemma RebuiltMirrors(db: Db, order: seq<(int, int)>, join: map<int, int>, l: Legacy)
    requires Lists(order, db.chunks.Keys) && UniqueIds(db) && Returns(l.pdfs, db.documents, join)
    requires RebuiltPages(db.chunks, order, join) == Some(l.pages)
    requires forall r :: r in l.pdfs <==> r in db.documents && db.documents[r].sourceType == Pdf
    requires forall r :: r in l.pdfs ==> RebuiltRow(l.pdfs[r], db.documents[r], order)
    ensures Mirrors(l, db) && CountsAreLargest(l)
  {
    forall r | r in l.pdfs
      ensures forall n :: SamePage(l, db, l.pdfs[r].id, db.documents[r].id, n)
      ensures LargestPage(l, l.pdfs[r].id, l.pdfs[r].pageCount)
    {
      forall n ensures SamePage(l, db, l.pdfs[r].id, db.documents[r].id, n) {
        ChunkIsRebuilt(db, order, join, l, r, n);
      }
      CountIsLargest(db, order, l, r);
    }
  }

  /** Whether the rebuild fails, in terms of the tables. */
  lemma RebuildNeedsImages(db: Db, order: seq<(int, int)>, join: map<int, int>, pdfs: map<string, PdfRow>)
    requires Lists(order, db.chunks.Keys) && UniqueIds(db) && Returns(pdfs, db.documents, join)
    requires forall r :: r in pdfs <==> r in db.documents && db.documents[r].sourceType == Pdf
    ensures RebuiltPages(db.chunks, order, join).Some? <==> PdfChunksHaveImages(db)
  {
    PagesFailForImages(db.chunks, order, join);
    if PdfChunksHaveImages(db) {
      forall k | k in order && k.0 in join ensures db.chunks[k].content.png.Some? {
        assert ReturnsFrom(pdfs, db.documents, k.0);
      }
    } else {
      var r, k :| r in db.documents && db.documents[r].sourceType == Pdf && k in db.chunks && k.0 == db.documents[r].id
                  && db.chunks[k].content.png.None?;
      assert r in pdfs && k in order;
    }
  }

  /** Once the second statement succeeds, the legacy tables are sound and mirror the unified ones. */
  lemma PagesMirror(db: Db, documentOrder: seq<string>, chunkOrder: seq<(int, int)>, join: map<int, int>, l: Legacy)
    requires UniqueIds(db) && Lists(documentOrder, db.documents.Keys) && Lists(chunkOrder, db.chunks.Keys)
    requires l.pdfs == RebuiltPdfs(db.documents, documentOrder, chunkOrder) && Returns(l.pdfs, db.documents, join)
    requires RebuiltPages(db.chunks, chunkOrder, join) == Some(l.pages)
    ensures LegacySound(l) && Mirrors(l, db) && CountsAreLargest(l)
  {
    PdfsAreRebuilt(db.documents, documentOrder, chunkOrder);
    RebuiltMirrors(db, chunkOrder, join, l);
    forall key | key in l.pages ensures HasPdf(l, key.0) {
      RebuiltPageFits(db, chunkOrder, join, l, key);
    }
  }

  /** The 0005 downgrade in full: it fails exactly for a PDF chunk without an image. */
  lemma DowngradeMirrors(db: Db, documentOrder: seq<string>, chunkOrder: seq<(int, int)>)
    requires UniqueIds(db) && Lists(documentOrder, db.documents.Keys) && Lists(chunkOrder, db.chunks.Keys)
    ensures var l := Rebuilt(db, documentOrder, chunkOrder);
            && (l.Some? <==> PdfChunksHaveImages(db))
            && (l.Some? ==> LegacySound(l.value) && Mirrors(l.value, db) && CountsAreLargest(l.value))
  {
    var pdfs := RebuiltPdfs(db.documents, documentOrder, chunkOrder);
    var join := ChunkJoin(documentOrder, db.documents, pdfs);
    PdfsAreRebuilt(db.documents, documentOrder, chunkOrder);
    JoinReturns(db, documentOrder, pdfs);
    RebuildNeedsImages(db, chunkOrder, join, pdfs);
    var pages := RebuiltPages(db.chunks, chunkOrder, join);
    if pages.Some? {
      PagesMirror(db, documentOrder, chunkOrder, join, Legacy(pdfs, pages.value));
    }
  }

  // --- The round trip ---

  /** Same PDFs with the same pages, whatever the row ids; page_count apart. */
  ghost predicate SameUpToIds(l: Legacy, l': Legacy) {
    && l.pdfs.Keys == l'.pdfs.Keys
    && forall r :: r in l.pdfs ==>
         && SameColumns(l.pdfs[r], l'.pdfs[r])
         && forall n :: SameLegacyPage(l, l', l.pdfs[r].id, l'.pdfs[r].id, n)
  }

  ghost predicate SameColumns(pdf: PdfRow, pdf': PdfRow) {
    pdf.filename == pdf'.filename && pdf.r2Key == pdf'.r2Key && pdf.createdAt == pdf'.createdAt
  }

  ghost predicate SameLegacyPage(l: Legacy, l': Legacy, pdf: int, pdf': int, n: int) {
    && ((pdf, n) in l.pages <==> (pdf', n) in l'.pages)
    && ((pdf, n) in l.pages && (pdf', n) in l'.pages ==>
          var page, page' := l.pages[(pdf, n)], l'.pages[(pdf', n)];
          page.text == page'.text && page.embedding == page'.embedding && page.png == page'.png && page.createdAt == page'.createdAt)
  }

  /** Two legacy schemas that mirror the same tables are the same up to ids. */
  lemma MirrorsAgree(l: Legacy, l': Legacy, db: Db)
    requires Mirrors(l, db) && Mirrors(l', db)
    ensures SameUpToIds(l, l')
  {
    forall r, n | r in l.pdfs && r in l'.pdfs ensures SameLegacyPage(l, l', l.pdfs[r].id, l'.pdfs[r].id, n) {
      assert SamePage(l, db, l.pdfs[r].id, db.documents[r].id, n);
      assert SamePage(l', db, l'.pdfs[r].id, db.documents[r].id, n);
    }
  }

  lemma LargestPageCarries(l: Legacy, l': Legacy, r: string, m: int)
    requires SameUpToIds(l, l') && r in l.pdfs
    ensures LargestPage(l, l.pdfs[r].id, m) <==> LargestPage(l', l'.pdfs[r].id, m)
  {
    forall n ensures (l.pdfs[r].id, n) in l.pages <==> (l'.pdfs[r].id, n) in l'.pages {
      assert SameLegacyPage(l, l', l.pdfs[r].id, l'.pdfs[r].id, n);
    }
  }

  /** page_count survives a round trip exactly for a PDF whose count was its largest stored page number. */
  lemma PageCountSurvives(l: Legacy, l': Legacy, r: string)
    requires SameUpToIds(l, l') && CountsAreLargest(l') && r in l.pdfs
    ensures l'.pdfs[r].pageCount == l.pdfs[r].pageCount <==> LargestPage(l, l.pdfs[r].id, l.pdfs[r].pageCount)
  {
    LargestPageCarries(l, l', r, l.pdfs[r].pageCount);
    assert LargestPage(l', l'.pdfs[r].id, l'.pdfs[r].pageCount);
  }
}
