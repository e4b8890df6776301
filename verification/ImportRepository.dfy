/**
  * The replay import tables and their transactions (replay/import_repository.py). Each
  * method of the repository is one transaction, so each is one total function on the tables;
  * `None` is an exception, after which the tables are as before.
  */
module ImportRepository {
  import opened Maybe

  type ImportId = nat

  /** The checksum pair of a snapshots file and a quotes file. */
  datatype Digest = Digest(snapshots: string, quotes: string)

  /** Imported sessions are named after their checksums; sessions captured live have other names. */
  datatype SessionId = ImportedSession(digest: Digest) | LiveSession(name: string)

  datatype Status = Uploaded | Validating | AwaitingConfirmation | Publishing | Completed | Failed | Cancelled

  /** `adopted` is the summary's duplicate_session_id. */
  datatype ImportRecord = ImportRecord(status: Status, digest: Digest, session: Option<SessionId>, adopted: Option<SessionId>)

  /** Import rows, and for every session row the import that published it, if any. */
  datatype Tables = Tables(imports: map<ImportId, ImportRecord>, sessions: map<SessionId, Option<ImportId>>)

  function Updated(t: Tables, id: ImportId, r: ImportRecord): Tables { t.(imports := t.imports[id := r]) }

  function CreateRow(t: Tables, id: ImportId, digest: Digest): Tables {
    Updated(t, id, ImportRecord(Uploaded, digest, None, None))
  }

  function Transition(t: Tables, id: ImportId, expected: Status, next: Status, session: Option<SessionId>): Option<Tables> {
    if id !in t.imports || t.imports[id].status != expected then None
    else Some(Updated(t, id, t.imports[id].(status := next, session := OrElse(session, t.imports[id].session))))
  }

  function MarkValidating(t: Tables, id: ImportId): Option<Tables> { Transition(t, id, Uploaded, Validating, None) }

  function MarkAwaiting(t: Tables, id: ImportId, session: SessionId): Option<Tables> {
    Transition(t, id, Validating, AwaitingConfirmation, Some(session))
  }

  function MarkPublishing(t: Tables, id: ImportId): Option<Tables> {
    Transition(t, id, AwaitingConfirmation, Publishing, None)
  }

  function MarkCompleted(t: Tables, id: ImportId, session: SessionId): Option<Tables> {
    Transition(t, id, Publishing, Completed, Some(session))
  }

  function MarkFailed(t: Tables, id: ImportId): Option<Tables> {
    if id !in t.imports || t.imports[id].status in {Completed, Cancelled} then None
    else Some(Updated(t, id, t.imports[id].(status := Failed)))
  }

  function MarkCancelled(t: Tables, id: ImportId): Option<Tables> {
    if id !in t.imports || t.imports[id].status !in {Uploaded, Validating, AwaitingConfirmation} then None
    else Some(Updated(t, id, t.imports[id].(status := Cancelled)))
  }

  function SaveArchive(t: Tables, id: ImportId, digest: Digest): Option<Tables> {
    if id !in t.imports then None else Some(Updated(t, id, t.imports[id].(digest := digest)))
  }

  function SaveValidation(t: Tables, id: ImportId, adopted: Option<SessionId>): Option<Tables> {
    if id !in t.imports then None else Some(Updated(t, id, t.imports[id].(adopted := adopted)))
  }

  /** The publishing transaction's effect on imports and sessions. */
  function Publish(t: Tables, id: ImportId, session: SessionId): Option<Tables> {
    if id !in t.imports || t.imports[id].status != Publishing || session in t.sessions then None
    else Some(Tables(t.imports[id := t.imports[id].(status := Completed, session := Some(session))],
                     t.sessions[session := Some(id)]))
  }

  // ------------------------------------------------------------- lifecycle edges

  predicate Edge(from: Status, to: Status) {
    match from
    case Uploaded => to in {Validating, Failed, Cancelled}
    case Validating => to in {AwaitingConfirmation, Failed, Cancelled}
    case AwaitingConfirmation => to in {Publishing, Failed, Cancelled}
    case Publishing => to in {Completed, Failed}
    case Failed => false
    case Completed => false
    case Cancelled => false
  }

  /** A call for an import with this status succeeds, or changes nothing. */
  ghost predicate SucceedsWith(t: Tables, id: ImportId, r: Option<Tables>, possible: bool, row: ImportRecord) {
    if possible then r == Some(t.(imports := t.imports[id := row])) else r.None?
  }

  /**
    * Every call succeeds from exactly the statuses that have an edge to its own, except that a
    * failed import may fail again and that publication needs a session of its own.
    */
  lemma CallsFollowEdges(t: Tables, id: ImportId, session: SessionId, r: ImportRecord)
    requires id in t.imports && t.imports[id] == r
    ensures SucceedsWith(t, id, MarkValidating(t, id), Edge(r.status, Validating), r.(status := Validating))
    ensures SucceedsWith(t, id, MarkAwaiting(t, id, session), Edge(r.status, AwaitingConfirmation),
                         r.(status := AwaitingConfirmation, session := Some(session)))
    ensures SucceedsWith(t, id, MarkPublishing(t, id), Edge(r.status, Publishing), r.(status := Publishing))
    ensures SucceedsWith(t, id, MarkCompleted(t, id, session), Edge(r.status, Completed), r.(status := Completed, session := Some(session)))
    ensures SucceedsWith(t, id, MarkCancelled(t, id), Edge(r.status, Cancelled), r.(status := Cancelled))
    ensures SucceedsWith(t, id, MarkFailed(t, id), Edge(r.status, Failed) || r.status == Failed, r.(status := Failed))
    ensures Publish(t, id, session).Some? <==> Edge(r.status, Completed) && session !in t.sessions
    ensures Publish(t, id, session).Some? ==>
      Publish(t, id, session).value
      == Tables(t.imports[id := r.(status := Completed, session := Some(session))], t.sessions[session := Some(id)])
  {
    assert r.(session := r.session) == r;
  }

  /** No import disappears, statuses move along edges or stay, and sessions are only added. */
  ghost predicate MovesAlongEdges(before: Tables, after: Tables) {
    && (forall i :: i in before.imports ==>
          && i in after.imports
          && (before.imports[i].status == after.imports[i].status || Edge(before.imports[i].status, after.imports[i].status))
          && (before.imports[i].status == Completed ==> after.imports[i].session == before.imports[i].session))
    && (forall s :: s in before.sessions ==> s in after.sessions && after.sessions[s] == before.sessions[s])
  }

  // --------------------------------------------------------------- publishing rows

  datatype SnapshotRow = SnapshotRow(sourceId: string, order: int, time: int)
  datatype QuoteRow = QuoteRow(sourceId: string, contractId: string, order: int, bid: Option<real>, ask: Option<real>)

  type SnapshotTable = map<(SessionId, string), SnapshotRow>
  type QuoteTable = map<(SessionId, string, string), QuoteRow>

  function QuoteKey(session: SessionId, q: QuoteRow): (SessionId, string, string) { (session, q.sourceId, q.contractId) }

  /** Rows inserted one by one; a second row under a primary key is an error. */
  function InsertQuotes(t: QuoteTable, session: SessionId, quotes: seq<QuoteRow>): Option<QuoteTable>
    decreases |quotes|
  {
    if |quotes| == 0 then Some(t)
    else
      var key := QuoteKey(session, quotes[0]);
      if key in t then None else InsertQuotes(t[key := quotes[0]], session, quotes[1..])
  }

  function InsertSnapshots(t: SnapshotTable, session: SessionId, rows: seq<SnapshotRow>): Option<SnapshotTable>
    decreases |rows|
  {
    if |rows| == 0 then Some(t)
    else
      var key := (session, rows[0].sourceId);
      if key in t then None else InsertSnapshots(t[key := rows[0]], session, rows[1..])
  }

  lemma {:induction false} InsertQuotesAppend(t: QuoteTable, session: SessionId, a: seq<QuoteRow>, b: seq<QuoteRow>)
    ensures InsertQuotes(t, session, a + b) ==
      var first := InsertQuotes(t, session, a);
      if first.None? then None else InsertQuotes(first.value, session, b)
    decreases |a|
  {
    if |a| == 0 {
      assert a + b == b;
    } else {
      assert (a + b)[1..] == a[1..] + b;
      var key := QuoteKey(session, a[0]);
      if key !in t { InsertQuotesAppend(t[key := a[0]], session, a[1..], b); }
    }
  }

  lemma {:induction false} InsertSnapshotsAppend(t: SnapshotTable, session: SessionId, a: seq<SnapshotRow>, b: seq<SnapshotRow>)
    ensures InsertSnapshots(t, session, a + b) ==
      var first := InsertSnapshots(t, session, a);
      if first.None? then None else InsertSnapshots(first.value, session, b)
    decreases |a|
  {
    if |a| == 0 {
      assert a + b == b;
    } else {
      assert (a + b)[1..] == a[1..] + b;
      var key := (session, a[0].sourceId);
      if key !in t { InsertSnapshotsAppend(t[key := a[0]], session, a[1..], b); }
    }
  }

  /** No key is in the table already or comes twice. */
  ghost predicate Insertable(t: QuoteTable, session: SessionId, quotes: seq<QuoteRow>) {
    && (forall i :: 0 <= i < |quotes| ==> QuoteKey(session, quotes[i]) !in t)
    && (forall i, j :: 0 <= i < j < |quotes| ==> QuoteKey(session, quotes[i]) != QuoteKey(session, quotes[j]))
  }

  lemma InsertableUnfold(t: QuoteTable, session: SessionId, quotes: seq<QuoteRow>)
    requires |quotes| > 0
    ensures Insertable(t, session, quotes) <==>
      var key := QuoteKey(session, quotes[0]); key !in t && Insertable(t[key := quotes[0]], session, quotes[1..])
  {}

  /**
    * Inserting succeeds exactly when no key is taken or repeated; then every quote is stored
    * under its key, nothing else changes, and each quote adds one row.
    */
  lemma {:induction false} InsertQuotesMeaning(t: QuoteTable, session: SessionId, quotes: seq<QuoteRow>)
    ensures InsertQuotes(t, session, quotes).Some? <==> Insertable(t, session, quotes)
    ensures Insertable(t, session, quotes) ==>
      var r := InsertQuotes(t, session, quotes).value;
      && |r| == |t| + |quotes|
      && (forall key :: key in t ==> key in r && r[key] == t[key])
      && (forall i :: 0 <= i < |quotes| ==> QuoteKey(session, quotes[i]) in r && r[QuoteKey(session, quotes[i])] == quotes[i])
    decreases |quotes|
  {
    if |quotes| > 0 {
      InsertableUnfold(t, session, quotes);
      var key, rest := QuoteKey(session, quotes[0]), quotes[1..];
      var t' := t[key := quotes[0]];
      InsertQuotesMeaning(t', session, rest);
      assert forall i :: 0 < i < |quotes| ==> quotes[i] == rest[i - 1];
    }
  }

  /** No snapshot's key is in the table already or comes twice. */
  ghost predicate InsertableSnapshots(t: SnapshotTable, session: SessionId, rows: seq<SnapshotRow>) {
    && (forall i :: 0 <= i < |rows| ==> (session, rows[i].sourceId) !in t)
    && (forall i, j :: 0 <= i < j < |rows| ==> rows[i].sourceId != rows[j].sourceId)
  }

  lemma InsertableSnapshotsUnfold(t: SnapshotTable, session: SessionId, rows: seq<SnapshotRow>)
    requires |rows| > 0
    ensures InsertableSnapshots(t, session, rows) <==>
      var key := (session, rows[0].sourceId); key !in t && InsertableSnapshots(t[key := rows[0]], session, rows[1..])
  {
    assert forall i :: 0 < i < |rows| ==> rows[i] == rows[1..][i - 1];
  }

  /** Inserting snapshots succeeds, and stores them, under the same conditions as inserting quotes. */
  lemma {:induction false} InsertSnapshotsMeaning(t: SnapshotTable, session: SessionId, rows: seq<SnapshotRow>)
    ensures InsertSnapshots(t, session, rows).Some? <==> InsertableSnapshots(t, session, rows)
    ensures InsertableSnapshots(t, session, rows) ==>
      var r := InsertSnapshots(t, session, rows).value;
      && |r| == |t| + |rows|
      && (forall key :: key in t ==> key in r && r[key] == t[key])
      && (forall i :: 0 <= i < |rows| ==> (session, rows[i].sourceId) in r && r[(session, rows[i].sourceId)] == rows[i])
    decreases |rows|
  {
    if |rows| > 0 {
      InsertableSnapshotsUnfold(t, session, rows);
      InsertSnapshotsMeaning(t[(session, rows[0].sourceId) := rows[0]], session, rows[1..]);
      assert forall i :: 0 < i < |rows| ==> rows[i] == rows[1..][i - 1];
    }
  }

  const QUOTE_INSERT_BATCH_SIZE: nat := 5_000

  datatype PublishedTables = PublishedTables(tables: Tables, snapshots: SnapshotTable, quotes: QuoteTable, quoteCount: nat)

  /** The whole publishing transaction as one function of the tables before it. */
  function PublishAll(t: Tables, snapshotTable: SnapshotTable, quoteTable: QuoteTable, id: ImportId, session: SessionId,
                      snapshots: seq<SnapshotRow>, quotes: seq<QuoteRow>): Option<PublishedTables> {
    var tables := Publish(t, id, session);
    var s := InsertSnapshots(snapshotTable, session, snapshots);
    var q := InsertQuotes(quoteTable, session, quotes);
    if tables.None? || s.None? || q.None? then None
    else Some(PublishedTables(tables.value, s.value, q.value, |quotes|))
  }

  /** Publication succeeds exactly when the import is publishing, the session is new and no row's key is taken or repeated. */
  lemma PublicationSucceedsIff(t: Tables, snapshotTable: SnapshotTable, quoteTable: QuoteTable, id: ImportId, session: SessionId,
                               snapshots: seq<SnapshotRow>, quotes: seq<QuoteRow>, r: Option<PublishedTables>)
    requires r == PublishAll(t, snapshotTable, quoteTable, id, session, snapshots, quotes)
    ensures r.Some? <==>
      && id in t.imports && t.imports[id].status == Publishing && session !in t.sessions
      && InsertableSnapshots(snapshotTable, session, snapshots) && Insertable(quoteTable, session, quotes)
    ensures r.Some? ==>
      && r.value.tables.imports == t.imports[id := t.imports[id].(status := Completed, session := Some(session))]
      && r.value.tables.sessions == t.sessions[session := Some(id)]
      && r.value.quoteCount == |quotes| == |r.value.quotes| - |quoteTable| && |snapshots| == |r.value.snapshots| - |snapshotTable|
  {
    InsertSnapshotsMeaning(snapshotTable, session, snapshots);
    InsertQuotesMeaning(quoteTable, session, quotes);
  }

  class ReplayImportRepository {
    var tables: Tables
    var snapshotTable: SnapshotTable
    var quoteTable: QuoteTable
    var quoteCounts: map<SessionId, nat>

    constructor ()
      ensures tables == Tables(map[], map[]) && snapshotTable == map[] && quoteTable == map[] && quoteCounts == map[]
    {
      tables := Tables(map[], map[]);
      snapshotTable, quoteTable, quoteCounts := map[], map[], map[];
    }

    method TransitionRow(id: ImportId, expected: Status, next: Status, session: Option<SessionId>) returns (ok: bool)
      modifies this`tables
      ensures ok == Transition(old(tables), id, expected, next, session).Some?
      ensures tables == if ok then Transition(old(tables), id, expected, next, session).value else old(tables)
    {
      if id !in tables.imports || tables.imports[id].status != expected {
        return false;
      }
      var r := tables.imports[id];
      r := r.(status := next, session := if session.Some? then session else r.session);
      tables := tables.(imports := tables.imports[id := r]);
      ok := true;
    }

    method Fail(id: ImportId) returns (ok: bool)
      modifies this`tables
      ensures ok == MarkFailed(old(tables), id).Some?
      ensures tables == if ok then MarkFailed(old(tables), id).value else old(tables)
    {
      if id !in tables.imports || tables.imports[id].status in {Completed, Cancelled} {
        return false;
      }
      tables := tables.(imports := tables.imports[id := tables.imports[id].(status := Failed)]);
      ok := true;
    }

    method SaveSummary(id: ImportId, adopted: Option<SessionId>) returns (ok: bool)
      modifies this`tables
      ensures ok == SaveValidation(old(tables), id, adopted).Some?
      ensures tables == if ok then SaveValidation(old(tables), id, adopted).value else old(tables)
    {
      if id !in tables.imports {
        return false;
      }
      tables := tables.(imports := tables.imports[id := tables.imports[id].(adopted := adopted)]);
      ok := true;
    }

    method Cancel(id: ImportId) returns (ok: bool)
      modifies this`tables
      ensures ok == MarkCancelled(old(tables), id).Some?
      ensures tables == if ok then MarkCancelled(old(tables), id).value else old(tables)
    {
      if id !in tables.imports || tables.imports[id].status !in {Uploaded, Validating, AwaitingConfirmation} {
        return false;
      }
      tables := tables.(imports := tables.imports[id := tables.imports[id].(status := Cancelled)]);
      ok := true;
    }

    /**
      * One transaction: session row, snapshot rows, quote rows in batches, status. However the
      * batches fall, all quotes are stored in order and counted once; any failure leaves every
      * table as it was.
      */
    method PublishImport(id: ImportId, session: SessionId, snapshots: seq<SnapshotRow>, quotes: seq<QuoteRow>)
      returns (ok: bool)
      modifies this
      ensures var r := PublishAll(old(tables), old(snapshotTable), old(quoteTable), id, session, snapshots, quotes);
        && ok == r.Some?
        && (ok ==> tables == r.value.tables && snapshotTable == r.value.snapshots && quoteTable == r.value.quotes
                   && quoteCounts == old(quoteCounts)[session := r.value.quoteCount])
        && (!ok ==> unchanged(this))
    {
      var published := Publish(tables, id, session);
      if published.None? {
        return false;
      }
      var snapshotsOk, newSnapshots := InsertSnapshotRows(session, snapshots);
      if !snapshotsOk {
        return false;
      }
      var quotesOk, stored, quoteCount := InsertQuoteBatches(session, quotes);
      if !quotesOk {
        return false;
      }
      tables, snapshotTable, quoteTable := published.value, newSnapshots, stored;
      quoteCounts := quoteCounts[session := quoteCount];
      ok := true;
    }

    /** Full batches as the quotes come, then the rest. */
    method InsertQuoteBatches(session: SessionId, quotes: seq<QuoteRow>) returns (ok: bool, stored: QuoteTable, quoteCount: nat)
      ensures ok == InsertQuotes(quoteTable, session, quotes).Some?
      ensures ok ==> Some(stored) == InsertQuotes(quoteTable, session, quotes) && quoteCount == |quotes|
    {
      quoteCount := 0;
      var batch: seq<QuoteRow> := [];
      stored := quoteTable;
      var i := 0;
      while i < |quotes|
        modifies {}
        invariant 0 <= i <= |quotes|
        invariant |batch| < QUOTE_INSERT_BATCH_SIZE && quoteCount + |batch| == i
        invariant batch == quotes[quoteCount..i]
        invariant InsertQuotes(quoteTable, session, quotes[..quoteCount]) == Some(stored)
      {
        batch := batch + [quotes[i]];
        i := i + 1;
        if |batch| >= QUOTE_INSERT_BATCH_SIZE {
          assert quotes == quotes[..quoteCount] + batch + quotes[i..];
          assert quotes[..i] == quotes[..quoteCount] + batch;
          BatchStep(quoteTable, session, quotes[..quoteCount], batch, quotes[i..]);
          var inserted := InsertQuotes(stored, session, batch);
          if inserted.None? {
            return false, stored, quoteCount;
          }
          stored := inserted.value;
          quoteCount := quoteCount + |batch|;
          batch := [];
        }
      }
      if |batch| > 0 {
        assert quotes == quotes[..quoteCount] + batch && quotes == quotes + [];
        BatchStep(quoteTable, session, quotes[..quoteCount], batch, []);
        var inserted := InsertQuotes(stored, session, batch);
        if inserted.None? {
          return false, stored, quoteCount;
        }
        stored := inserted.value;
        quoteCount := quoteCount + |batch|;
      }
      assert quotes[..quoteCount] == quotes;
      ok := true;
    }

    method InsertSnapshotRows(session: SessionId, snapshots: seq<SnapshotRow>) returns (ok: bool, stored: SnapshotTable)
      ensures ok == InsertSnapshots(snapshotTable, session, snapshots).Some?
      ensures ok ==> Some(stored) == InsertSnapshots(snapshotTable, session, snapshots)
    {
      stored := snapshotTable;
      var i := 0;
      while i < |snapshots|
        modifies {}
        invariant 0 <= i <= |snapshots|
        invariant InsertSnapshots(snapshotTable, session, snapshots[..i]) == Some(stored)
      {
        var row := snapshots[i];
        InsertSnapshotsAppend(snapshotTable, session, snapshots[..i], snapshots[i..]);
        InsertSnapshotsAppend(snapshotTable, session, snapshots[..i], [row]);
        assert snapshots[..i] + snapshots[i..] == snapshots && snapshots[..i + 1] == snapshots[..i] + [row];
        if (session, row.sourceId) in stored {
          return false, stored;
        }
        stored := stored[(session, row.sourceId) := row];
        i := i + 1;
      }
      assert snapshots[..i] == snapshots;
      ok := true;
    }
  }

  /** A batch that cannot be inserted fails the whole sequence; one that can extends the stored prefix. */
  lemma BatchStep(t: QuoteTable, session: SessionId, front: seq<QuoteRow>, batch: seq<QuoteRow>, rest: seq<QuoteRow>)
    requires InsertQuotes(t, session, front).Some?
    ensures InsertQuotes(t, session, front + batch) == InsertQuotes(InsertQuotes(t, session, front).value, session, batch)
    ensures InsertQuotes(t, session, front + batch).None? ==> InsertQuotes(t, session, front + batch + rest).None?
  {
    InsertQuotesAppend(t, session, front, batch);
    InsertQuotesAppend(t, session, front + batch, rest);
  }
}
