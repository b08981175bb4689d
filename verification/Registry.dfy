/** The publication registry: upsert with change detection, status flips, and the history they leave. */
module Registry {
  import opened Prelude
  import opened Ordering
  import opened Tables
  import opened Store

  // --- sorted(set(...)) over strings ---

  /** Python's order on strings. */
  predicate StringLe(a: string, b: string) {
    a == "" || (b != "" && (a[0] < b[0] || (a[0] == b[0] && StringLe(a[1..], b[1..]))))
  }

  function StringOrder(): (string, string) -> bool {
    (a: string, b: string) => StringLe(a, b)
  }

  lemma {:induction false} StringLeTotal(a: string, b: string)
    ensures StringLe(a, b) || StringLe(b, a)
    ensures StringLe(a, b) && StringLe(b, a) ==> a == b
  {
    if a != "" && b != "" && a[0] == b[0] {
      StringLeTotal(a[1..], b[1..]);
      assert a == [a[0]] + a[1..] && b == [b[0]] + b[1..];
    }
  }

  lemma {:induction false} StringLeTransitive(a: string, b: string, c: string)
    requires StringLe(a, b) && StringLe(b, c)
    ensures StringLe(a, c)
  {
    if a != "" && a[0] == b[0] == c[0] {
      StringLeTransitive(a[1..], b[1..], c[1..]);
    }
  }

  /** The order is that of the first difference; a prefix comes first. */
  lemma {:induction false} StringLeExactly(a: string, b: string)
    ensures StringLe(a, b) <==> a <= b || exists k :: DiffersAt(a, b, k) && a[k] < b[k]
  {
    if a != "" && b != "" {
      StringLeExactly(a[1..], b[1..]);
      if a[0] == b[0] {
        assert a == [a[0]] + a[1..] && b == [b[0]] + b[1..];
        assert a <= b <==> a[1..] <= b[1..];
        if k :| DiffersAt(a, b, k) && a[k] < b[k] {
          assert k > 0 && DiffersAt(a[1..], b[1..], k - 1);
        }
        if k :| DiffersAt(a[1..], b[1..], k) && a[1..][k] < b[1..][k] {
          LaterDifference(a, b, k);
        }
      } else {
        assert DiffersAt(a, b, 0);
        if k :| DiffersAt(a, b, k) && a[k] < b[k] {
          assert k == 0;
        }
      }
    }
  }

  ghost predicate DiffersAt(a: string, b: string, k: int) {
    0 <= k < |a| && k < |b| && a[k] != b[k] && forall i :: 0 <= i < k ==> a[i] == b[i]
  }

  lemma LaterDifference(a: string, b: string, k: int)
    requires a != "" && b != "" && a[0] == b[0] && DiffersAt(a[1..], b[1..], k)
    ensures DiffersAt(a, b, k + 1)
  {
    forall i | 0 <= i < k + 1 ensures a[i] == b[i] {
      if i > 0 { assert a[1..][i - 1] == b[1..][i - 1]; }
    }
  }

  lemma StringOrderIsTotal()
    ensures TotalPreorder(StringOrder())
  {
    forall a: string, b: string ensures StringLe(a, b) || StringLe(b, a) {
      StringLeTotal(a, b);
    }
    forall a: string, b: string, c: string | StringLe(a, b) && StringLe(b, c) ensures StringLe(a, c) {
      StringLeTransitive(a, b, c);
    }
  }

  /** sorted(set(xs)) */
  function SortedSet(xs: seq<string>): seq<string> {
    StableSort(FirstSeen(xs), StringOrder())
  }

  /** Sorted and duplicate free. */
  ghost predicate StrictlySorted(xs: seq<string>) {
    Distinct(xs) && Sorted(xs, StringOrder())
  }

  lemma SortedSetFacts(xs: seq<string>)
    ensures StrictlySorted(SortedSet(xs))
    ensures forall x :: x in SortedSet(xs) <==> x in xs
  {
    StringOrderIsTotal();
    FirstSeenFacts(xs);
    SortSorts(FirstSeen(xs), StringOrder());
    SortPermutes(FirstSeen(xs), StringOrder());
    PermutationDistinct(FirstSeen(xs), SortedSet(xs));
    SameElements(FirstSeen(xs), SortedSet(xs));
  }

  /** A strictly sorted list is determined by its members. */
  lemma StrictlySortedUnique(xs: seq<string>, ys: seq<string>)
    requires StrictlySorted(xs) && StrictlySorted(ys) && forall x :: x in xs <==> x in ys
    ensures xs == ys
  {
    forall x ensures multiset(xs)[x] == multiset(ys)[x] {
      CountAtMostOnce(xs, x);
      CountAtMostOnce(ys, x);
      assert x in multiset(xs) <==> x in xs;
      assert x in multiset(ys) <==> x in ys;
    }
    forall a, b | a in xs && b in xs && Before(xs, a, b) ensures Before(ys, a, b) {
      BeforeDistinctAsymmetric(xs, a, b);
      BeforeTotal(ys, a, b);
      StringLeTotal(a, b);
      assert StringOrder()(a, b);
    }
    OrderDetermines(xs, ys);
  }

  // --- Upsert and status ---

  /** What discovery read off a publication page. */
  datatype Publication = Publication(pubId: string, details: Details, contentHash: string)

  datatype UpsertResult = Inserted | Unchanged | WentStale

  function Upserted(db: Db, pub: Publication, referencedBy: seq<string>): (Db, UpsertResult) {
    if pub.pubId !in db.publications then
      (db.(publications := db.publications[pub.pubId := PubRow(pub.details, SortedSet(referencedBy), pub.contentHash, Discovered)],
           pubOrder := db.pubOrder + [pub.pubId]),
       Inserted)
    else
      var row := db.publications[pub.pubId];
      var seen := row.(referencedBy := SortedSet(row.referencedBy + referencedBy));
      if row.contentHash != pub.contentHash then
        var changed := seen.(contentHash := pub.contentHash, details := pub.details, status := Stale);
        (db.(publications := db.publications[pub.pubId := changed]), WentStale)
      else (db.(publications := db.publications[pub.pubId := seen]), Unchanged)
  }

  function WithStatus(db: Db, pubId: string, status: Status): Result<Db, DbError> {
    if pubId !in db.publications then Err(NotFound)
    else Ok(db.(publications := db.publications[pubId := db.publications[pubId].(status := status)]))
  }

  /** The update of a status gets through; none is sent when the status stays. */
  predicate StatusRuns(db: Db, server: Server, pubId: string, status: Status) {
    (pubId in db.publications && db.publications[pubId].status == status) || Runs(server, WriteStatus(pubId))
  }

  function TryStatus(db: Db, server: Server, pubId: string, status: Status): Result<Db, DbError> {
    if !Runs(server, FindPublication(pubId)) then Err(StatementFailed)
    else
      match WithStatus(db, pubId, status)
      case Err(e) => Err(e)
      case Ok(next) => if StatusRuns(db, server, pubId, status) then Ok(next) else Err(StatementFailed)
  }

  /** A flip to the status a publication has sends no update; any other flip does. */
  lemma SameStatusIsNotWritten(db: Db, server: Server, pubId: string, status: Status)
    requires Runs(server, FindPublication(pubId)) && pubId in db.publications
    ensures TryStatus(db, server, pubId, status).Ok? <==>
              db.publications[pubId].status == status || Runs(server, WriteStatus(pubId))
  {
  }

  /** The statements of an upsert get through; an unchanged publication only writes its references. */
  predicate UpsertRuns(db: Db, server: Server, pub: Publication, referencedBy: seq<string>) {
    var sameHash := pub.pubId in db.publications && db.publications[pub.pubId].contentHash == pub.contentHash;
    && Runs(server, FindPublication(pub.pubId))
    && Runs(server, if sameHash then WriteReferences(pub.pubId, referencedBy)
                    else WritePublication(pub.pubId, pub.details, pub.contentHash, referencedBy))
  }

  class PublicationRegistry {
    const session: Session

    constructor (session: Session)
      ensures this.session == session
    {
      this.session := session;
    }

    method Upsert(pub: Publication, referencedBy: seq<string>) returns (r: Result<UpsertResult, DbError>)
      modifies session
      ensures session.committed == old(session.committed)
      ensures r.Ok? <==> UpsertRuns(old(session.working), session.server, pub, referencedBy)
      ensures r.Err? ==> r == Err(StatementFailed) && session.working == old(session.working)
      ensures r.Ok? ==> (session.working, r.value) == Upserted(old(session.working), pub, referencedBy)
    {
      var db := session.working;
      if !UpsertRuns(db, session.server, pub, referencedBy) {
        return Err(StatementFailed);
      }
      if pub.pubId !in db.publications {
        var row := PubRow(pub.details, SortedSet(referencedBy), pub.contentHash, Discovered);
        session.working := db.(publications := db.publications[pub.pubId := row], pubOrder := db.pubOrder + [pub.pubId]);
        return Ok(Inserted);
      }
      var row := db.publications[pub.pubId];
      row := row.(referencedBy := SortedSet(row.referencedBy + referencedBy));
      var result := Unchanged;
      if row.contentHash != pub.contentHash {
        row := row.(contentHash := pub.contentHash, details := pub.details, status := Stale);
        result := WentStale;
      }
      session.working := db.(publications := db.publications[pub.pubId := row]);
      r := Ok(result);
    }

    method SetStatus(pubId: string, status: Status) returns (r: Result<(), DbError>)
      modifies session
      ensures session.committed == old(session.committed)
      ensures match TryStatus(old(session.working), session.server, pubId, status)
              case Err(e) => r == Err(e) && session.working == old(session.working)
              case Ok(db) => r.Ok? && session.working == db
    {
      var db := session.working;
      if !Runs(session.server, FindPublication(pubId)) {
        return Err(StatementFailed);
      }
      if pubId !in db.publications {
        return Err(NotFound);
      }
      if !StatusRuns(db, session.server, pubId, status) {
        return Err(StatementFailed);
      }
      session.working := db.(publications := db.publications[pubId := db.publications[pubId].(status := status)]);
      r := Ok(());
    }
  }

  /** Publications are listed once each, in insertion order, with sorted duplicate-free references. */
  ghost predicate RegistrySound(db: Db) {
    && Distinct(db.pubOrder) && (forall p :: p in db.pubOrder <==> p in db.publications)
    && forall p :: p in db.publications ==> StrictlySorted(db.publications[p].referencedBy)
  }

  lemma UpsertKeepsSound(db: Db, pub: Publication, referencedBy: seq<string>)
    requires RegistrySound(db)
    ensures RegistrySound(Upserted(db, pub, referencedBy).0)
  {
    var old' := if pub.pubId in db.publications then db.publications[pub.pubId].referencedBy else [];
    SortedSetFacts(old' + referencedBy);
    assert [] + referencedBy == referencedBy;
    RowKeepsSound(db, Upserted(db, pub, referencedBy).0, pub.pubId);
  }

  /** Writing one row with sorted references keeps the registry sound. */
  lemma RowKeepsSound(db: Db, db': Db, p: string)
    requires RegistrySound(db) && p in db'.publications && StrictlySorted(db'.publications[p].referencedBy)
    requires db'.publications == db.publications[p := db'.publications[p]]
    requires db'.pubOrder == if p in db.publications then db.pubOrder else db.pubOrder + [p]
    ensures RegistrySound(db')
  {
  }

  /** References only grow, by exactly the models given. */
  lemma ReferencesGrow(db: Db, pub: Publication, referencedBy: seq<string>, model: string)
    ensures var db' := Upserted(db, pub, referencedBy).0;
            model in db'.publications[pub.pubId].referencedBy <==>
              model in referencedBy || (pub.pubId in db.publications && model in db.publications[pub.pubId].referencedBy)
  {
    var old' := if pub.pubId in db.publications then db.publications[pub.pubId].referencedBy else [];
    SortedSetFacts(old' + referencedBy);
    assert [] + referencedBy == referencedBy;
    assert model in old' + referencedBy <==> model in old' || model in referencedBy;
  }

  /**
   * What an upsert leaves of its publication: a new one is there as discovered; a changed hash refreshes
   * every column and makes it stale; an unchanged hash leaves columns and status alone. No other row moves.
   */
  lemma UpsertMeans(db: Db, pub: Publication, referencedBy: seq<string>)
    ensures var (db', result) := Upserted(db, pub, referencedBy);
            && db'.publications.Keys == db.publications.Keys + {pub.pubId}
            && (forall p :: p in db.publications && p != pub.pubId ==> db'.publications[p] == db.publications[p])
            && db'.pubOrder == (if pub.pubId in db.publications then db.pubOrder else db.pubOrder + [pub.pubId])
            && Refreshed(db, db', pub)
            && (result == Inserted <==> pub.pubId !in db.publications)
            && (result == WentStale <==>
                  pub.pubId in db.publications && db.publications[pub.pubId].contentHash != pub.contentHash)
  {
  }

  ghost predicate Refreshed(db: Db, db': Db, pub: Publication) {
    && pub.pubId in db'.publications
    && var row := db'.publications[pub.pubId];
       && row.contentHash == pub.contentHash
       && if pub.pubId in db.publications && db.publications[pub.pubId].contentHash == pub.contentHash then
            row.details == db.publications[pub.pubId].details && row.status == db.publications[pub.pubId].status
          else
            row.details == pub.details && row.status == if pub.pubId in db.publications then Stale else Discovered
  }

  /** Repeating an upsert reports "unchanged" and changes nothing. */
  lemma RepeatIsUnchanged(db: Db, pub: Publication, referencedBy: seq<string>)
    requires RegistrySound(db)
    ensures var db' := Upserted(db, pub, referencedBy).0;
            Upserted(db', pub, referencedBy) == (db', Unchanged)
  {
    var db' := Upserted(db, pub, referencedBy).0;
    UpsertKeepsSound(db, pub, referencedBy);
    var row := db'.publications[pub.pubId];
    forall m | m in referencedBy ensures m in row.referencedBy {
      ReferencesGrow(db, pub, referencedBy, m);
    }
    KnownReferencesChangeNothing(row.referencedBy, referencedBy);
    assert db'.publications[pub.pubId := row] == db'.publications;
  }

  lemma KnownReferencesChangeNothing(known: seq<string>, again: seq<string>)
    requires StrictlySorted(known) && forall m :: m in again ==> m in known
    ensures SortedSet(known + again) == known
  {
    SortedSetFacts(known + again);
    forall x ensures x in SortedSet(known + again) <==> x in known {
      assert x in known + again <==> x in known || x in again;
    }
    StrictlySortedUnique(SortedSet(known + again), known);
  }

  // --- The history of a publication ---

  /** A committed upsert that saw a content hash, or a committed successful ingest. */
  datatype Event = Seen(pubId: string, hash: string) | IngestDone(pubId: string)

  /** The content hash last seen for a publication. */
  function LastHash(history: seq<Event>, pubId: string): Option<string> {
    if history == [] then None
    else
      var last := history[|history| - 1];
      if last.Seen? && last.pubId == pubId then Some(last.hash) else LastHash(history[..|history| - 1], pubId)
  }

  /** The event is an upsert that changed the hash of the publication. */
  ghost predicate Changes(history: seq<Event>, i: nat, pubId: string)
    requires i < |history|
  {
    history[i].Seen? && history[i].pubId == pubId && LastHash(history[..i], pubId) != Some(history[i].hash)
  }

  /** Some successful ingest was followed by no hash-changing upsert. */
  ghost predicate UpToDate(history: seq<Event>, pubId: string) {
    exists i :: 0 <= i < |history| && history[i] == IngestDone(pubId) && NoChangeAfter(history, i, pubId)
  }

  ghost predicate NoChangeAfter(history: seq<Event>, i: int, pubId: string) {
    forall j :: i < j < |history| && 0 <= j ==> !Changes(history, j, pubId)
  }

  lemma ChangesPrefix(history: seq<Event>, more: seq<Event>, i: nat, pubId: string)
    requires i < |history|
    ensures Changes(history + more, i, pubId) <==> Changes(history, i, pubId)
  {
    assert (history + more)[..i] == history[..i];
  }

  /** How one event changes the verdict. */
  lemma UpToDateSnoc(history: seq<Event>, e: Event, pubId: string)
    ensures UpToDate(history + [e], pubId) <==>
              e == IngestDone(pubId) || (UpToDate(history, pubId) && !Changes(history + [e], |history|, pubId))
  {
    var all := history + [e];
    var n := |history|;
    if e == IngestDone(pubId) {
      assert all[n] == IngestDone(pubId) && NoChangeAfter(all, n, pubId);
    }
    if UpToDate(all, pubId) && e != IngestDone(pubId) {
      var i :| 0 <= i < |all| && all[i] == IngestDone(pubId) && NoChangeAfter(all, i, pubId);
      forall j | i < j < n && 0 <= j ensures !Changes(history, j, pubId) {
        ChangesPrefix(history, [e], j, pubId);
      }
      assert history[i] == IngestDone(pubId) && NoChangeAfter(history, i, pubId);
    }
    if UpToDate(history, pubId) && !Changes(all, n, pubId) {
      var i :| 0 <= i < n && history[i] == IngestDone(pubId) && NoChangeAfter(history, i, pubId);
      forall j | i < j < |all| && 0 <= j ensures !Changes(all, j, pubId) {
        if j < n { ChangesPrefix(history, [e], j, pubId); }
      }
      assert all[i] == IngestDone(pubId) && NoChangeAfter(all, i, pubId);
    }
  }

  /** The same verdict, event by event. */
  ghost predicate Current(history: seq<Event>, pubId: string) {
    history != []
    && (history[|history| - 1] == IngestDone(pubId)
        || (Current(history[..|history| - 1], pubId) && !Changes(history, |history| - 1, pubId)))
  }

  lemma {:induction false} CurrentIsUpToDate(history: seq<Event>, pubId: string)
    ensures Current(history, pubId) <==> UpToDate(history, pubId)
  {
    if history != [] {
      var n := |history| - 1;
      CurrentIsUpToDate(history[..n], pubId);
      UpToDateSnoc(history[..n], history[n], pubId);
      assert history[..n] + [history[n]] == history;
    }
  }

  lemma CurrentSnoc(history: seq<Event>, e: Event, pubId: string)
    ensures Current(history + [e], pubId) <==>
              e == IngestDone(pubId) || (Current(history, pubId) && !Changes(history + [e], |history|, pubId))
  {
    assert (history + [e])[..|history|] == history;
  }

  lemma LastHashSnoc(history: seq<Event>, e: Event, pubId: string)
    ensures LastHash(history + [e], pubId) == if e.Seen? && e.pubId == pubId then Some(e.hash) else LastHash(history, pubId)
  {
    assert (history + [e])[..|history|] == history;
  }

  /**
   * The table and the history agree on one publication: it has a row exactly if it was seen, the row
   * holds the last hash, and its status is "ingested" exactly if no hash-changing upsert followed the
   * last successful ingest. What was never seen was never ingested.
   */
  ghost predicate Tracks(db: Db, history: seq<Event>, p: string) {
    && (p in db.publications <==> LastHash(history, p).Some?)
    && (p in db.publications ==> Some(db.publications[p].contentHash) == LastHash(history, p))
    && ((p in db.publications && db.publications[p].status == Ingested) <==> Current(history, p))
  }

  lemma UpsertTracks(db: Db, history: seq<Event>, pub: Publication, referencedBy: seq<string>, p: string)
    requires Tracks(db, history, p)
    ensures Tracks(Upserted(db, pub, referencedBy).0, history + [Seen(pub.pubId, pub.contentHash)], p)
  {
    var e := Seen(pub.pubId, pub.contentHash);
    LastHashSnoc(history, e, p);
    CurrentSnoc(history, e, p);
    assert (history + [e])[..|history|] == history;
  }

  lemma IngestTracks(db: Db, history: seq<Event>, pubId: string, p: string)
    requires Tracks(db, history, p) && pubId in db.publications
    ensures Tracks(WithStatus(db, pubId, Ingested).value, history + [IngestDone(pubId)], p)
  {
    var e := IngestDone(pubId);
    LastHashSnoc(history, e, p);
    CurrentSnoc(history, e, p);
  }
}
