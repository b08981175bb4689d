/** The tables of the document store, their constraints, and the statements run on them. */
module Tables {
  import opened Prelude
  import opened ProductMatch
  import opened Corpus
  import opened Embedder

  /** A chunk without its keys; created_at is the time of the inserting transaction. */
  datatype Content = Content(
    text: string, embedding: Vector, png: Option<string>, anchor: Option<string>, parentAnchor: Option<string>,
    sourceUrl: string, createdAt: int)

  datatype ChunkRow = ChunkRow(id: int, content: Content)

  datatype DocRow = DocRow(
    id: int, sourceType: SourceType, title: Title, sourceUrl: string, facet: Facet, createdAt: int)

  datatype Status = Discovered | Stale | Ingested

  /** The descriptive columns of a publication. */
  datatype Details = Details(
    pubType: string, title: string, locale: string, sourceUrl: string, series: seq<string>, models: seq<string>,
    procedures: seq<string>)

  datatype PubRow = PubRow(details: Details, referencedBy: seq<string>, contentHash: string, status: Status)

  /**
   * The tables. documents is keyed by source_ref and chunks by (document_id, ordinal): the two unique
   * constraints. pubOrder lists the publications by id. The counters are the id sequences.
   */
  datatype Db = Db(
    documents: map<string, DocRow>, chunks: map<(int, int), ChunkRow>,
    publications: map<string, PubRow>, pubOrder: seq<string>, nextDocument: int, nextChunk: int)

  datatype DbError = SourceTypeMismatch | UniqueViolation | ForeignKeyViolation | NotFound | StatementFailed

  /** How an ingest attempt ends: Refused stands for an IngestionError, Crashed for any other exception. */
  datatype Outcome = Done(ref: string) | Refused | Crashed

  /**
   * A statement of the program, with the values it sends; an insert includes reading the new row back.
   * No transaction executes one of them twice.
   */
  datatype Statement =
    | FindDocument(ref: string)  // by the duplicate check
    | FindUpserted(ref: string)  // by the upsert
    | WriteDocument(ref: string, title: string, sourceUrl: string)
    | DropChunks(document: int)
    | WriteChunk(document: int, ordinal: int, content: Content)
    | FindPublication(pubId: string)
    | WritePublication(pubId: string, details: Details, contentHash: string, mentions: seq<string>)
    | WriteReferences(pubId: string, mentions: seq<string>)
    | WriteStatus(pubId: string)

  /** The server during one transaction: the statements that raise, for a dropped connection, say. */
  type Server = Statement -> bool

  /** PostgreSQL text holds every character but U+0000. */
  predicate TextFits(s: string) {
    '\0' !in s
  }

  predicate OptionFits(s: Option<string>) {
    s.Some? ==> TextFits(s.value)
  }

  predicate AllFit(texts: seq<string>) {
    forall i :: 0 <= i < |texts| ==> TextFits(texts[i])
  }

  predicate ContentFits(c: Content) {
    TextFits(c.text) && OptionFits(c.png) && OptionFits(c.anchor) && OptionFits(c.parentAnchor) && TextFits(c.sourceUrl)
  }

  predicate Storable(s: Statement) {
    match s
    case FindDocument(ref) => TextFits(ref)
    case FindUpserted(ref) => TextFits(ref)
    case WriteDocument(ref, title, sourceUrl) => TextFits(ref) && TextFits(title) && TextFits(sourceUrl)
    case DropChunks(_) => true
    case WriteChunk(_, _, content) => ContentFits(content)
    case FindPublication(pubId) => TextFits(pubId)
    case WritePublication(pubId, d, contentHash, mentions) =>
      && TextFits(pubId) && TextFits(d.pubType) && TextFits(d.title) && TextFits(d.locale) && TextFits(d.sourceUrl)
      && AllFit(d.series) && AllFit(d.models) && AllFit(d.procedures) && TextFits(contentHash) && AllFit(mentions)
    case WriteReferences(pubId, mentions) => TextFits(pubId) && AllFit(mentions)
    case WriteStatus(pubId) => TextFits(pubId)
  }

  /** The statement gets through: its text can be stored and the server does not raise. */
  predicate Runs(server: Server, s: Statement) {
    Storable(s) && !server(s)
  }

  predicate HasId(db: Db, document: int) {
    exists ref :: ref in db.documents && db.documents[ref].id == document
  }

  // --- The operations on the tables ---

  function UpsertDocument(
    db: Db, sourceType: SourceType, title: Title, sourceUrl: string, ref: string, now: int, pick: BrandPicker)
    : Result<Db, DbError>
  {
    var facet := DeriveFacet(title.reading, pick);
    if ref in db.documents then
      if db.documents[ref].sourceType != sourceType then Err(SourceTypeMismatch)
      else
        var row := db.documents[ref].(title := title, sourceUrl := sourceUrl, facet := facet);
        Ok(db.(documents := db.documents[ref := row]))
    else
      var row := DocRow(db.nextDocument, sourceType, title, sourceUrl, facet, now);
      Ok(db.(documents := db.documents[ref := row], nextDocument := db.nextDocument + 1))
  }

  function InsertChunk(db: Db, document: int, ordinal: int, content: Content): Result<Db, DbError> {
    if !HasId(db, document) then Err(ForeignKeyViolation)
    else if (document, ordinal) in db.chunks then Err(UniqueViolation)
    else Ok(db.(chunks := db.chunks[(document, ordinal) := ChunkRow(db.nextChunk, content)], nextChunk := db.nextChunk + 1))
  }

  /** An upsert that changes no column, for which no statement is sent. */
  predicate RowUnchanged(db: Db, title: Title, sourceUrl: string, ref: string, pick: BrandPicker) {
    && ref in db.documents && db.documents[ref].title.text == title.text && db.documents[ref].sourceUrl == sourceUrl
    && db.documents[ref].facet == DeriveFacet(title.reading, pick)
  }

  /** The insert of a new row or the update of a changed one gets through. */
  predicate RowRuns(db: Db, server: Server, title: Title, sourceUrl: string, ref: string, pick: BrandPicker) {
    RowUnchanged(db, title, sourceUrl, ref, pick) || Runs(server, WriteDocument(ref, title.text, sourceUrl))
  }

  /** The two statements of an upsert; the type check stands between them. */
  function TryUpsert(
    db: Db, server: Server, sourceType: SourceType, title: Title, sourceUrl: string, ref: string, now: int, pick: BrandPicker)
    : Result<Db, DbError>
  {
    if !Runs(server, FindUpserted(ref)) then Err(StatementFailed)
    else
      match UpsertDocument(db, sourceType, title, sourceUrl, ref, now, pick)
      case Err(e) => Err(e)
      case Ok(next) => if RowRuns(db, server, title, sourceUrl, ref, pick) then Ok(next) else Err(StatementFailed)
  }

  /** An upsert that changes no column needs the lookup only, whatever writes would raise; every other one needs its write. */
  lemma UnchangedIsNotWritten(
    db: Db, server: Server, sourceType: SourceType, title: Title, sourceUrl: string, ref: string, now: int, pick: BrandPicker)
    requires Runs(server, FindUpserted(ref)) && UpsertDocument(db, sourceType, title, sourceUrl, ref, now, pick).Ok?
    ensures TryUpsert(db, server, sourceType, title, sourceUrl, ref, now, pick).Ok? <==>
              || Runs(server, WriteDocument(ref, title.text, sourceUrl))
              || (ref in db.documents
                  && var row := db.documents[ref];
                     (row.title.text, row.sourceUrl, row.facet) == (title.text, sourceUrl, DeriveFacet(title.reading, pick)))
  {
  }

  function TryInsert(db: Db, server: Server, document: int, ordinal: int, content: Content): Result<Db, DbError> {
    if Runs(server, WriteChunk(document, ordinal, content)) then InsertChunk(db, document, ordinal, content)
    else Err(StatementFailed)
  }

  function DeleteChunks(db: Db, document: int): Db {
    db.(chunks := map k | k in db.chunks && k.0 != document :: db.chunks[k])
  }

  function SetFacet(db: Db, ref: string, facet: Facet): Db
    requires ref in db.documents
  {
    db.(documents := db.documents[ref := db.documents[ref].(facet := facet)])
  }

  /** Sequences are not transactional: a rollback restores every row but no counter. */
  function RolledBack(committed: Db, working: Db): Db {
    committed.(nextDocument := working.nextDocument, nextChunk := working.nextChunk)
  }

  // --- Integrity ---

  /** Ids are unique and below the sequence; chunks have documents; exactly PDF chunks have a page image. */
  ghost predicate Sound(db: Db) {
    && (forall r, q :: r in db.documents && q in db.documents && db.documents[r].id == db.documents[q].id ==> r == q)
    && (forall r :: r in db.documents ==> db.documents[r].id < db.nextDocument)
    && (forall k :: k in db.chunks ==> HasId(db, k.0))
    && (forall r, k :: r in db.documents && k in db.chunks && k.0 == db.documents[r].id ==>
          (db.chunks[k].content.png.Some? <==> db.documents[r].sourceType == Pdf))
  }

  /** The chunks of a document are exactly these, by ordinal. */
  ghost predicate HasChunks(db: Db, document: int, plan: map<int, Content>) {
    forall o :: ((document, o) in db.chunks <==> o in plan)
             && (o in plan ==> db.chunks[(document, o)].content == plan[o])
  }

  /** Every chunk of every other document is as before. */
  ghost predicate OtherChunksKept(before: Db, after: Db, document: int) {
    forall k: (int, int) :: k.0 != document ==>
      (k in before.chunks <==> k in after.chunks) && (k in before.chunks ==> after.chunks[k] == before.chunks[k])
  }

  lemma UpsertEffect(
    db: Db, sourceType: SourceType, title: Title, sourceUrl: string, ref: string, now: int, pick: BrandPicker)
    requires UpsertDocument(db, sourceType, title, sourceUrl, ref, now, pick).Ok?
    ensures var db' := UpsertDocument(db, sourceType, title, sourceUrl, ref, now, pick).value;
            && db'.documents.Keys == db.documents.Keys + {ref} && db'.documents[ref].sourceType == sourceType
            && db'.chunks == db.chunks && db'.publications == db.publications && db'.pubOrder == db.pubOrder
            && (forall r :: r in db.documents && r != ref ==> db'.documents[r] == db.documents[r])
            && (ref in db.documents ==> db'.documents[ref].id == db.documents[ref].id
                                        && db'.documents[ref].sourceType == db.documents[ref].sourceType
                                        && db'.documents[ref].createdAt == db.documents[ref].createdAt)
            && (ref !in db.documents ==> db'.documents[ref].id == db.nextDocument && db'.documents[ref].createdAt == now)
            && db.nextDocument <= db'.nextDocument && (ref !in db.documents ==> db.nextDocument < db'.nextDocument)
  {
  }

  lemma UpsertSound(
    db: Db, sourceType: SourceType, title: Title, sourceUrl: string, ref: string, now: int, pick: BrandPicker)
    requires Sound(db) && UpsertDocument(db, sourceType, title, sourceUrl, ref, now, pick).Ok?
    ensures Sound(UpsertDocument(db, sourceType, title, sourceUrl, ref, now, pick).value)
    ensures ref !in db.documents ==>
              HasChunks(UpsertDocument(db, sourceType, title, sourceUrl, ref, now, pick).value, db.nextDocument, map[])
  {
    UpsertEffect(db, sourceType, title, sourceUrl, ref, now, pick);
    var db' := UpsertDocument(db, sourceType, title, sourceUrl, ref, now, pick).value;
    ChunksHaveOldIds(db);
    DocumentChangeSound(db, db', ref);
  }

  lemma ChunksHaveOldIds(db: Db)
    requires Sound(db)
    ensures forall k :: k in db.chunks ==> k.0 < db.nextDocument
  {
    forall k | k in db.chunks ensures k.0 < db.nextDocument {
      var r :| r in db.documents && db.documents[r].id == k.0;
    }
  }

  /** Changing or adding one document row, with its id and type kept or its id new, keeps the tables sound. */
  lemma DocumentChangeSound(db: Db, db': Db, ref: string)
    requires Sound(db) && db'.chunks == db.chunks && db'.documents.Keys == db.documents.Keys + {ref}
    requires forall r :: r in db.documents && r != ref ==> db'.documents[r] == db.documents[r]
    requires db.nextDocument <= db'.nextDocument
    requires ref in db.documents ==> db'.documents[ref].id == db.documents[ref].id
                                     && db'.documents[ref].sourceType == db.documents[ref].sourceType
    requires ref !in db.documents ==> db.nextDocument == db'.documents[ref].id < db'.nextDocument
    ensures Sound(db')
  {
    DocumentChangeKeepsIds(db, db', ref);
    DocumentChangeKeepsImages(db, db', ref);
  }

  lemma DocumentChangeKeepsImages(db: Db, db': Db, ref: string)
    requires Sound(db) && db'.chunks == db.chunks && db'.documents.Keys == db.documents.Keys + {ref}
    requires forall r :: r in db.documents && r != ref ==> db'.documents[r] == db.documents[r]
    requires ref in db.documents ==> db'.documents[ref].id == db.documents[ref].id
                                     && db'.documents[ref].sourceType == db.documents[ref].sourceType
    requires ref !in db.documents ==> db.nextDocument == db'.documents[ref].id
    ensures forall r, k :: r in db'.documents && k in db'.chunks && k.0 == db'.documents[r].id ==>
              (db'.chunks[k].content.png.Some? <==> db'.documents[r].sourceType == Pdf)
  {
    ChunksHaveOldIds(db);
  }

  lemma DocumentChangeKeepsIds(db: Db, db': Db, ref: string)
    requires Sound(db) && db'.chunks == db.chunks && db'.documents.Keys == db.documents.Keys + {ref}
    requires forall r :: r in db.documents && r != ref ==> db'.documents[r] == db.documents[r]
    requires ref in db.documents ==> db'.documents[ref].id == db.documents[ref].id
    ensures forall k :: k in db'.chunks ==> HasId(db', k.0)
  {
    forall k | k in db'.chunks ensures HasId(db', k.0) {
      var r :| r in db.documents && db.documents[r].id == k.0;
      assert db'.documents[r].id == k.0;
    }
  }

  lemma InsertSound(db: Db, ref: string, ordinal: int, content: Content)
    requires Sound(db) && ref in db.documents && (content.png.Some? <==> db.documents[ref].sourceType == Pdf)
    requires (db.documents[ref].id, ordinal) !in db.chunks
    ensures InsertChunk(db, db.documents[ref].id, ordinal, content).Ok?
    ensures Sound(InsertChunk(db, db.documents[ref].id, ordinal, content).value)
  {
    var id := db.documents[ref].id;
    assert HasId(db, id);
    var db' := InsertChunk(db, id, ordinal, content).value;
    forall k | k in db'.chunks ensures HasId(db', k.0) {
      if k != (id, ordinal) { assert HasId(db, k.0); }
    }
  }

  lemma DeleteSound(db: Db, document: int)
    requires Sound(db)
    ensures Sound(DeleteChunks(db, document)) && HasChunks(DeleteChunks(db, document), document, map[])
    ensures OtherChunksKept(db, DeleteChunks(db, document), document)
  {
    var db' := DeleteChunks(db, document);
    forall k | k in db'.chunks ensures HasId(db', k.0) {
      assert HasId(db, k.0);
    }
  }

  /** Inserting one more chunk extends the plan. */
  lemma InsertExtends(db: Db, document: int, ordinal: int, content: Content, plan: map<int, Content>)
    requires HasChunks(db, document, plan) && ordinal !in plan && InsertChunk(db, document, ordinal, content).Ok?
    ensures HasChunks(InsertChunk(db, document, ordinal, content).value, document, plan[ordinal := content])
    ensures OtherChunksKept(db, InsertChunk(db, document, ordinal, content).value, document)
  {
  }

  /** Only chunks were inserted. */
  ghost predicate SameDocuments(db: Db, db': Db) {
    && db'.documents == db.documents && db'.publications == db.publications && db'.pubOrder == db.pubOrder
    && db'.nextDocument == db.nextDocument && db.nextChunk <= db'.nextChunk
  }

  /** What an insert loop has done: the document holds the plan, nothing else moved. */
  ghost predicate StoredPlan(db: Db, after: Db, document: int, plan: map<int, Content>) {
    Sound(after) && SameDocuments(db, after) && OtherChunksKept(db, after, document) && HasChunks(after, document, plan)
  }

  /** Inserting a fitting chunk into a document succeeds, extends its plan by one and touches nothing else. */
  lemma InsertStep(db: Db, ref: string, ordinal: int, content: Content, plan: map<int, Content>)
    requires Sound(db) && ref in db.documents && (content.png.Some? <==> db.documents[ref].sourceType == Pdf)
    requires HasChunks(db, db.documents[ref].id, plan) && ordinal !in plan
    ensures var id := db.documents[ref].id;
            var next := InsertChunk(db, id, ordinal, content);
            && next.Ok? && Sound(next.value) && SameDocuments(db, next.value) && OtherChunksKept(db, next.value, id)
            && HasChunks(next.value, id, plan[ordinal := content])
  {
    InsertSound(db, ref, ordinal, content);
    InsertExtends(db, db.documents[ref].id, ordinal, content, plan);
  }

  lemma KeptTransitive(a: Db, b: Db, c: Db, document: int)
    requires OtherChunksKept(a, b, document) && OtherChunksKept(b, c, document)
    ensures OtherChunksKept(a, c, document)
  {
  }

  /** One more insertion after a stored plan. */
  lemma StoredStep(db: Db, mid: Db, ref: string, ordinal: int, content: Content, plan: map<int, Content>)
    requires ref in mid.documents && StoredPlan(db, mid, mid.documents[ref].id, plan) && ordinal !in plan
    requires content.png.Some? <==> mid.documents[ref].sourceType == Pdf
    ensures var next := InsertChunk(mid, mid.documents[ref].id, ordinal, content);
            next.Ok? && StoredPlan(db, next.value, mid.documents[ref].id, plan[ordinal := content])
  {
    InsertStep(mid, ref, ordinal, content, plan);
    KeptTransitive(db, mid, InsertChunk(mid, mid.documents[ref].id, ordinal, content).value, mid.documents[ref].id);
  }

  // --- Module text ---

  predicate InModule(db: Db, document: int, parentAnchor: string, ordinal: int) {
    (document, ordinal) in db.chunks && db.chunks[(document, ordinal)].content.parentAnchor == Some(parentAnchor)
  }

  ghost predicate Ascending(xs: seq<int>) {
    forall i, j :: 0 <= i < j < |xs| ==> xs[i] < xs[j]
  }

  ghost predicate IsModuleListing(db: Db, document: int, parentAnchor: string, ordinals: seq<int>) {
    && Ascending(ordinals)
    && (forall i :: 0 <= i < |ordinals| ==> InModule(db, document, parentAnchor, ordinals[i]))
    && (forall o :: InModule(db, document, parentAnchor, o) ==> o in ordinals)
  }

  /** A module has one listing. */
  lemma ListingUnique(db: Db, document: int, parentAnchor: string, xs: seq<int>, ys: seq<int>)
    requires IsModuleListing(db, document, parentAnchor, xs) && IsModuleListing(db, document, parentAnchor, ys)
    ensures xs == ys
  {
    forall x ensures x in xs <==> x in ys {
      assert x in xs ==> InModule(db, document, parentAnchor, x);
      assert x in ys ==> InModule(db, document, parentAnchor, x);
    }
    AscendingUnique(xs, ys);
  }

  function TextsAt(db: Db, document: int, ordinals: seq<int>): (texts: seq<string>)
    ensures |texts| == |ordinals|
    ensures forall i :: 0 <= i < |ordinals| && (document, ordinals[i]) in db.chunks ==>
              texts[i] == db.chunks[(document, ordinals[i])].content.text
  {
    seq(|ordinals|, i requires 0 <= i < |ordinals| =>
      if (document, ordinals[i]) in db.chunks then db.chunks[(document, ordinals[i])].content.text else "")
  }

  /** Two ascending lists of the same numbers are the same list. */
  lemma {:induction false} AscendingUnique(xs: seq<int>, ys: seq<int>)
    requires Ascending(xs) && Ascending(ys) && forall x :: x in xs <==> x in ys
    ensures xs == ys
  {
    if xs == [] {
      assert forall i :: 0 <= i < |ys| ==> ys[i] in ys;
    } else {
      assert xs[0] in ys && |ys| > 0;
      assert ys[0] in xs;
      forall x ensures x in xs[1..] <==> x in ys[1..] {
        assert x in xs[1..] <==> x in xs && x != xs[0];
        assert x in ys[1..] <==> x in ys && x != ys[0];
      }
      AscendingUnique(xs[1..], ys[1..]);
    }
  }
}
