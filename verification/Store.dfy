/** Transactions and the repository, which changes the tables through a session. */
module Store {
  import opened Prelude
  import opened ProductMatch
  import opened Corpus
  import opened Text
  import opened Tables

  /** One connection: what is committed, and what the open transaction sees. */
  class Session {
    var committed: Db
    var working: Db
    const now: int
    const server: Server

    constructor (db: Db, now: int, server: Server)
      ensures committed == db && working == db && this.now == now && this.server == server
    {
      this.now := now;
      this.server := server;
      committed, working := db, db;
    }

    method Commit()
      modifies this
      ensures committed == old(working) && working == old(working)
    {
      committed := working;
    }

    method Rollback()
      modifies this
      ensures committed == RolledBack(old(committed), old(working)) && working == committed
    {
      committed := RolledBack(committed, working);
      working := committed;
    }
  }

  class Repository {
    const session: Session
    const pick: BrandPicker

    constructor (session: Session, pick: BrandPicker)
      ensures this.session == session && this.pick == pick
    {
      this.session := session;
      this.pick := pick;
    }

    method GetDocument(ref: string) returns (r: Result<Option<DocRow>, DbError>)
      ensures r == if !Runs(session.server, FindDocument(ref)) then Err(StatementFailed)
                   else if ref in session.working.documents then Ok(Some(session.working.documents[ref]))
                   else Ok(None)
    {
      if !Runs(session.server, FindDocument(ref)) {
        return Err(StatementFailed);
      }
      r := Ok(if ref in session.working.documents then Some(session.working.documents[ref]) else None);
    }

    method UpsertDocument(sourceType: SourceType, title: Title, sourceUrl: string, ref: string)
      returns (r: Result<DocRow, DbError>)
      modifies session
      ensures session.committed == old(session.committed)
      ensures match TryUpsert(old(session.working), session.server, sourceType, title, sourceUrl, ref, session.now, pick)
              case Err(e) => r == Err(e) && session.working == old(session.working)
              case Ok(db) => session.working == db && r == Ok(db.documents[ref])
    {
      var db := session.working;
      var facet := DeriveFacet(title.reading, pick);
      if !Runs(session.server, FindUpserted(ref)) {
        return Err(StatementFailed);
      }
      if ref in db.documents && db.documents[ref].sourceType != sourceType {
        return Err(SourceTypeMismatch);
      }
      if !RowRuns(db, session.server, title, sourceUrl, ref, pick) {
        return Err(StatementFailed);
      }
      if ref in db.documents {
        var existing := db.documents[ref].(title := title, sourceUrl := sourceUrl, facet := facet);
        session.working := db.(documents := db.documents[ref := existing]);
        return Ok(existing);
      }
      var row := DocRow(db.nextDocument, sourceType, title, sourceUrl, facet, session.now);
      session.working := db.(documents := db.documents[ref := row], nextDocument := db.nextDocument + 1);
      r := Ok(row);
    }

    method InsertChunk(document: int, ordinal: int, content: Content) returns (r: Result<int, DbError>)
      modifies session
      ensures session.committed == old(session.committed)
      ensures match TryInsert(old(session.working), session.server, document, ordinal, content)
              case Err(e) => r == Err(e) && session.working == old(session.working)
              case Ok(db) => session.working == db && r == Ok(db.chunks[(document, ordinal)].id)
    {
      var db := session.working;
      if !Runs(session.server, WriteChunk(document, ordinal, content)) {
        return Err(StatementFailed);
      }
      if !HasId(db, document) {
        return Err(ForeignKeyViolation);
      }
      if (document, ordinal) in db.chunks {
        return Err(UniqueViolation);
      }
      session.working := db.(chunks := db.chunks[(document, ordinal) := ChunkRow(db.nextChunk, content)], nextChunk := db.nextChunk + 1);
      r := Ok(db.nextChunk);
    }

    method DeleteChunks(document: int) returns (r: Result<nat, DbError>)
      modifies session
      ensures session.committed == old(session.committed)
      ensures r.Ok? <==> Runs(session.server, DropChunks(document))
      ensures r.Err? ==> r == Err(StatementFailed) && session.working == old(session.working)
      ensures r.Ok? ==> session.working == Tables.DeleteChunks(old(session.working), document)
                        && r.value + |session.working.chunks| == |old(session.working).chunks|
    {
      var db := session.working;
      if !Runs(session.server, DropChunks(document)) {
        return Err(StatementFailed);
      }
      var doomed := set k | k in db.chunks && k.0 == document;
      session.working := Tables.DeleteChunks(db, document);
      assert db.chunks.Keys == doomed + session.working.chunks.Keys;
      r := Ok(|doomed|);
    }

    method SetProductFacet(document: int, facet: Facet) returns (r: Result<(), DbError>)
      modifies session
      ensures session.committed == old(session.committed)
      ensures r.Err? <==> !HasId(old(session.working), document)
      ensures r.Err? ==> session.working == old(session.working)
      ensures r.Ok? ==>
                (exists ref :: ref in old(session.working).documents
                   && old(session.working).documents[ref].id == document
                   && session.working == SetFacet(old(session.working), ref, facet))
    {
      var db := session.working;
      if ref :| ref in db.documents && db.documents[ref].id == document {
        session.working := SetFacet(db, ref, facet);
        return Ok(());
      }
      r := Err(NotFound);
    }

    /** Chunks of a module joined in ordinal order: there is one listing of its ordinals, and this is its text. */
    method FetchModuleText(document: int, parentAnchor: string) returns (text: string)
      ensures exists ordinals :: IsModuleListing(session.working, document, parentAnchor, ordinals)
      ensures forall ordinals :: IsModuleListing(session.working, document, parentAnchor, ordinals) ==>
                text == Join("\n\n", TextsAt(session.working, document, ordinals))
    {
      var db := session.working;
      var todo := set k | k in db.chunks && k.0 == document && InModule(db, document, parentAnchor, k.1);
      var texts: seq<string> := [];
      ghost var ordinals: seq<int> := [];
      while todo != {}
        invariant Listing(db, document, parentAnchor, todo, ordinals) && texts == TextsAt(db, document, ordinals)
      {
        var k := Least(todo);
        ListNext(db, document, parentAnchor, todo, ordinals, k);
        texts := texts + [db.chunks[k].content.text];
        ordinals := ordinals + [k.1];
        todo := todo - {k};
      }
      text := Join("\n\n", texts);
      assert IsModuleListing(db, document, parentAnchor, ordinals);
      forall others | IsModuleListing(db, document, parentAnchor, others) ensures others == ordinals {
        ListingUnique(db, document, parentAnchor, others, ordinals);
      }
    }
  }

  /** A listing in progress: what is listed comes before what is left, and nothing is forgotten. */
  ghost predicate Listing(db: Db, document: int, parentAnchor: string, todo: set<(int, int)>, ordinals: seq<int>) {
    && (forall k :: k in todo ==> k.0 == document && InModule(db, document, parentAnchor, k.1))
    && (forall i :: 0 <= i < |ordinals| ==> InModule(db, document, parentAnchor, ordinals[i]))
    && (forall o :: InModule(db, document, parentAnchor, o) ==> (document, o) in todo || o in ordinals)
    && (forall i, k :: 0 <= i < |ordinals| && k in todo ==> ordinals[i] < k.1)
    && Ascending(ordinals)
  }

  lemma ListNext(db: Db, document: int, parentAnchor: string, todo: set<(int, int)>, ordinals: seq<int>, next: (int, int))
    requires Listing(db, document, parentAnchor, todo, ordinals)
    requires next in todo && forall k :: k in todo ==> next.1 <= k.1
    ensures Listing(db, document, parentAnchor, todo - {next}, ordinals + [next.1])
  {
    forall i, k | 0 <= i <= |ordinals| && k in todo - {next} ensures (ordinals + [next.1])[i] < k.1 {
      assert k.1 == next.1 ==> k == (next.0, next.1);
    }
    forall o | InModule(db, document, parentAnchor, o) ensures (document, o) in todo - {next} || o in ordinals + [next.1] {
      if o !in ordinals { assert (document, o) in todo; }
    }
  }

  /** ORDER BY ordinal, one row at a time. */
  method Least(keys: set<(int, int)>) returns (m: (int, int))
    requires keys != {}
    ensures m in keys && forall k :: k in keys ==> m.1 <= k.1
  {
    m :| m in keys;
    var rest := keys - {m};
    while rest != {}
      invariant m in keys && rest <= keys && forall k :: k in keys ==> k in rest || m.1 <= k.1
    {
      var k :| k in rest;
      if k.1 < m.1 { m := k; }
      rest := rest - {k};
    }
  }
}
