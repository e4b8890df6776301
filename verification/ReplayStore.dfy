/**
  * The replay store (replay/repository.py): a table of captured snapshots, and a session
  * table whose start, end and count are derived from it. Rows are in the order of their
  * serial ids. Imported sessions live in the same session table without captured snapshots.
  */
module ReplayStore {
  import opened Maybe
  import opened Lists

  type SessionId = string

  const IMPORT_SOURCE: string := "parquet_import"

  datatype Captured = Captured(sessionId: SessionId, symbol: string, expiry: string, time: int, payload: nat, rowCount: nat)

  datatype SnapshotRow = SnapshotRow(id: nat, snapshot: Captured)

  datatype SessionRow = SessionRow(symbol: string, expiry: string, source: string, start: int, end: int, count: nat)

  datatype Store = Store(sessions: map<SessionId, SessionRow>, rows: seq<SnapshotRow>, nextId: nat)

  const EMPTY_STORE: Store := Store(map[], [], 1)

  // ---------------------------------------------------------------- aggregates

  function InSession(s: SessionId): SnapshotRow -> bool { (r: SnapshotRow) => r.snapshot.sessionId == s }

  function OutsideSession(s: SessionId): SnapshotRow -> bool { (r: SnapshotRow) => r.snapshot.sessionId != s }

  function RowsOf(rows: seq<SnapshotRow>, s: SessionId): seq<SnapshotRow> { Filter(InSession(s), rows) }

  function MinTime(rows: seq<SnapshotRow>): int
    requires |rows| > 0
  {
    if |rows| == 1 then rows[0].snapshot.time
    else
      var rest := MinTime(rows[1..]);
      if rows[0].snapshot.time <= rest then rows[0].snapshot.time else rest
  }

  function MaxTime(rows: seq<SnapshotRow>): int
    requires |rows| > 0
  {
    if |rows| == 1 then rows[0].snapshot.time
    else
      var rest := MaxTime(rows[1..]);
      if rows[0].snapshot.time >= rest then rows[0].snapshot.time else rest
  }

  lemma {:induction false} TimeBounds(rows: seq<SnapshotRow>)
    requires |rows| > 0
    ensures forall r :: r in rows ==> MinTime(rows) <= r.snapshot.time <= MaxTime(rows)
    ensures exists r, r' :: r in rows && r' in rows && r.snapshot.time == MinTime(rows) && r'.snapshot.time == MaxTime(rows)
  {
    if |rows| == 1 {
      assert rows[0] in rows;
    } else {
      TimeBounds(rows[1..]);
      assert rows == [rows[0]] + rows[1..];
      var a, b :| a in rows[1..] && b in rows[1..]
                  && a.snapshot.time == MinTime(rows[1..]) && b.snapshot.time == MaxTime(rows[1..]);
      assert rows[0] in rows && a in rows && b in rows;
    }
  }

  // ------------------------------------------------------------ the transactions

  function UpsertSession(st: Store, c: Captured, source: string): Store {
    var row := if c.sessionId in st.sessions
      then st.sessions[c.sessionId].(symbol := c.symbol, expiry := c.expiry, source := source)
      else SessionRow(c.symbol, c.expiry, source, c.time, c.time, 0);
    st.(sessions := st.sessions[c.sessionId := row])
  }

  function Refresh(st: Store, s: SessionId): Store {
    var rows := RowsOf(st.rows, s);
    if |rows| == 0 then st.(sessions := st.sessions - {s})
    else if s !in st.sessions then st
    else st.(sessions := st.sessions[s := st.sessions[s].(start := MinTime(rows), end := MaxTime(rows), count := |rows|)])
  }

  function Appended(st: Store, c: Captured): Store {
    st.(rows := st.rows + [SnapshotRow(st.nextId, c)], nextId := st.nextId + 1)
  }

  function Insert(st: Store, c: Captured, source: string): Store {
    Refresh(Appended(UpsertSession(st, c, source), c), c.sessionId)
  }

  function FindRow(rows: seq<SnapshotRow>, id: nat): Option<SnapshotRow> {
    if |rows| == 0 then None else if rows[0].id == id then Some(rows[0]) else FindRow(rows[1..], id)
  }

  function Rewrite(rows: seq<SnapshotRow>, id: nat, c: Captured): seq<SnapshotRow> {
    Map((r: SnapshotRow) => Rewritten(r, id, c), rows)
  }

  function Rewritten(r: SnapshotRow, id: nat, c: Captured): SnapshotRow { if r.id == id then SnapshotRow(id, c) else r }

  /** The first transaction of an update: it alone when the row exists, else only the upsert. */
  function UpdateTransaction(st: Store, id: nat, c: Captured, source: string): Store {
    var previous := FindRow(st.rows, id);
    var upserted := UpsertSession(st, c, source);
    if previous.None? then upserted
    else
      var rewritten := upserted.(rows := Rewrite(st.rows, id, c));
      var moved := previous.value.snapshot.sessionId != c.sessionId;
      Refresh(if moved then Refresh(rewritten, previous.value.snapshot.sessionId) else rewritten, c.sessionId)
  }

  function Update(st: Store, id: nat, c: Captured, source: string): Store {
    var first := UpdateTransaction(st, id, c, source);
    if FindRow(st.rows, id).None? then Insert(first, c, source) else first
  }

  /** Deleting a session deletes its snapshots. */
  function Delete(st: Store, s: SessionId): Store {
    st.(sessions := st.sessions - {s}, rows := Filter(OutsideSession(s), st.rows))
  }

  /** A completed import adds a session row; its snapshots are kept in other tables. */
  function PublishImported(st: Store, s: SessionId, row: SessionRow): Store {
    if s in st.sessions then st else st.(sessions := st.sessions[s := row.(source := IMPORT_SOURCE)])
  }

  // ----------------------------------------------------------------- the cleanup

  function Expired(cutoff: int, matches: SessionId -> bool): SnapshotRow -> bool {
    (r: SnapshotRow) => r.snapshot.time < cutoff && matches(r.snapshot.sessionId)
  }

  function Kept(cutoff: int, matches: SessionId -> bool): SnapshotRow -> bool {
    (r: SnapshotRow) => !(r.snapshot.time < cutoff && matches(r.snapshot.sessionId))
  }

  datatype Counts = Counts(snapshots: nat, sessions: nat)

  function Predicted(st: Store, cutoff: int, matches: SessionId -> bool): Counts {
    Counts(|Filter(Expired(cutoff, matches), st.rows)|, |DoomedSessions(st, cutoff, matches)|)
  }

  /** Sessions of the pattern with a snapshot before the cutoff and none at or after it. */
  function DoomedSessions(st: Store, cutoff: int, matches: SessionId -> bool): set<SessionId> {
    set s | s in st.sessions && matches(s)
      && (exists r :: r in st.rows && r.snapshot.sessionId == s && r.snapshot.time < cutoff)
      && !(exists r :: r in st.rows && r.snapshot.sessionId == s && r.snapshot.time >= cutoff)
  }

  function Affected(st: Store, cutoff: int, matches: SessionId -> bool): set<SessionId> {
    set r | r in Filter(Expired(cutoff, matches), st.rows) :: r.snapshot.sessionId
  }

  /** Delete the expired snapshots, then refresh every session that lost one, in any order. */
  function Cleaned(st: Store, cutoff: int, matches: SessionId -> bool): Store {
    var rows := Filter(Kept(cutoff, matches), st.rows);
    st.(rows := rows, sessions := RefreshedSessions(st.sessions, rows, Affected(st, cutoff, matches)))
  }

  function RefreshedSessions(sessions: map<SessionId, SessionRow>, rows: seq<SnapshotRow>, affected: set<SessionId>): map<SessionId, SessionRow> {
    map s | s in sessions && !(s in affected && |RowsOf(rows, s)| == 0) ::
      if s in affected
      then sessions[s].(start := MinTime(RowsOf(rows, s)), end := MaxTime(RowsOf(rows, s)), count := |RowsOf(rows, s)|)
      else sessions[s]
  }

  // ------------------------------------------------------------- index agreement

  ghost predicate IdsAscend(rows: seq<SnapshotRow>) {
    forall i, j :: 0 <= i < j < |rows| ==> rows[i].id < rows[j].id
  }

  ghost predicate RowAgrees(st: Store, s: SessionId)
    requires s in st.sessions
  {
    var rows := RowsOf(st.rows, s);
    var row := st.sessions[s];
    if |rows| == 0 then row.source == IMPORT_SOURCE
    else row.start == MinTime(rows) && row.end == MaxTime(rows) && row.count == |rows|
  }

  /**
    * Ids are unique, every snapshot has its session row, and every session row has the least
    * time, greatest time and number of its snapshots, or is an import without any.
    */
  ghost predicate Agrees(st: Store) {
    && IdsAscend(st.rows)
    && (forall r :: r in st.rows ==> r.id < st.nextId && r.snapshot.sessionId in st.sessions)
    && (forall s :: s in st.sessions ==> RowAgrees(st, s))
  }

  lemma RowsOfMembers(rows: seq<SnapshotRow>, s: SessionId)
    ensures forall r :: r in RowsOf(rows, s) <==> r in rows && r.snapshot.sessionId == s
  {
    FilterMembers(InSession(s), rows);
  }

  lemma {:induction false} NoRowsOf(rows: seq<SnapshotRow>, s: SessionId)
    requires forall r :: r in rows ==> r.snapshot.sessionId != s
    ensures RowsOf(rows, s) == []
  {
    if |rows| > 0 {
      assert rows[0] in rows;
      NoRowsOf(rows[1..], s);
    }
  }

  lemma RowsOfAppend(rows: seq<SnapshotRow>, r: SnapshotRow, s: SessionId)
    ensures RowsOf(rows + [r], s) == if r.snapshot.sessionId == s then RowsOf(rows, s) + [r] else RowsOf(rows, s)
  {
    FilterAppend(InSession(s), rows, [r]);
  }

  lemma InsertAgrees(st: Store, c: Captured, source: string)
    requires Agrees(st)
    ensures Agrees(Insert(st, c, source))
  {
    var row := SnapshotRow(st.nextId, c);
    var grown := Appended(UpsertSession(st, c, source), c);
    assert grown.rows == st.rows + [row];
    assert forall i :: 0 <= i < |st.rows| ==> st.rows[i] in st.rows;
    forall s | s in grown.sessions && s != c.sessionId ensures RowAgrees(grown, s) {
      RowsOfAppend(st.rows, row, s);
      assert RowAgrees(st, s);
    }
    RefreshRepairs(grown, c.sessionId, {});
  }

  // ---- updates

  lemma {:induction false} FindRowFinds(rows: seq<SnapshotRow>, id: nat)
    ensures FindRow(rows, id).Some? ==> FindRow(rows, id).value in rows && FindRow(rows, id).value.id == id
    ensures FindRow(rows, id).None? ==> forall r :: r in rows ==> r.id != id
  {
    if |rows| > 0 {
      FindRowFinds(rows[1..], id);
      assert rows == [rows[0]] + rows[1..];
    }
  }

  /** A rewritten row keeps its place within its session's rows, or leaves them. */
  lemma {:induction false} RowsOfRewrite(rows: seq<SnapshotRow>, id: nat, c: Captured, s: SessionId)
    requires forall r :: r in rows && r.id == id ==> r.snapshot.sessionId == c.sessionId || s != c.sessionId
    ensures s == c.sessionId ==> RowsOf(Rewrite(rows, id, c), s) == Rewrite(RowsOf(rows, s), id, c)
    ensures s != c.sessionId && (forall r :: r in rows && r.id == id ==> r.snapshot.sessionId != s) ==>
      RowsOf(Rewrite(rows, id, c), s) == RowsOf(rows, s)
  {
    if |rows| > 0 {
      assert rows == [rows[0]] + rows[1..];
      RowsOfRewrite(rows[1..], id, c, s);
      RewriteCons(rows[0], rows[1..], id, c);
      RowsOfCons(rows[0], rows[1..], s);
      RowsOfCons(Rewritten(rows[0], id, c), Rewrite(rows[1..], id, c), s);
      RewriteCons(rows[0], RowsOf(rows[1..], s), id, c);
    }
  }

  lemma RewriteCons(r: SnapshotRow, rows: seq<SnapshotRow>, id: nat, c: Captured)
    ensures Rewrite([r] + rows, id, c) == [Rewritten(r, id, c)] + Rewrite(rows, id, c)
  {}

  lemma RowsOfCons(r: SnapshotRow, rows: seq<SnapshotRow>, s: SessionId)
    ensures RowsOf([r] + rows, s) == if r.snapshot.sessionId == s then [r] + RowsOf(rows, s) else RowsOf(rows, s)
  {}

  lemma RewriteMembers(rows: seq<SnapshotRow>, id: nat, c: Captured)
    ensures forall r :: r in Rewrite(rows, id, c) ==> r == SnapshotRow(id, c) || (r in rows && r.id != id)
    ensures (exists r :: r in rows && r.id == id) ==> SnapshotRow(id, c) in Rewrite(rows, id, c)
  {}

  /** Everything of the index invariant but the rows of the sessions in `stale`. */
  ghost predicate AgreesExcept(st: Store, stale: set<SessionId>) {
    && IdsAscend(st.rows)
    && (forall r :: r in st.rows ==> r.id < st.nextId && r.snapshot.sessionId in st.sessions)
    && (forall s :: s in st.sessions && s !in stale ==> RowAgrees(st, s))
  }

  lemma RefreshRepairs(st: Store, s: SessionId, stale: set<SessionId>)
    requires AgreesExcept(st, stale + {s})
    ensures AgreesExcept(Refresh(st, s), stale - {s})
  {
    var after := Refresh(st, s);
    RowsOfMembers(st.rows, s);
    assert after.rows == st.rows && after.nextId == st.nextId;
    assert |RowsOf(st.rows, s)| > 0 ==> RowsOf(st.rows, s)[0] in st.rows;
    forall r | r in st.rows ensures r.snapshot.sessionId in after.sessions {
      if r.snapshot.sessionId == s { assert r in RowsOf(st.rows, s); }
    }
    forall x | x in after.sessions && x !in stale - {s} ensures RowAgrees(after, x) {
      if x != s { assert RowAgrees(st, x); }
    }
  }

  /** Rewriting a row can only spoil the index rows of its old and its new session. */
  lemma RewriteSpoilsTwo(st: Store, c: Captured, source: string, previous: SnapshotRow)
    requires Agrees(st) && previous in st.rows
    ensures AgreesExcept(
      UpsertSession(st, c, source).(rows := Rewrite(st.rows, previous.id, c)), {previous.snapshot.sessionId, c.sessionId})
  {
    var rewritten := UpsertSession(st, c, source).(rows := Rewrite(st.rows, previous.id, c));
    RewriteMembers(st.rows, previous.id, c);
    forall r | r in st.rows && r.id == previous.id ensures r == previous { IdsAreUnique(st, r, previous); }
    forall s | s in rewritten.sessions && s !in {previous.snapshot.sessionId, c.sessionId} ensures RowAgrees(rewritten, s) {
      RowsOfRewrite(st.rows, previous.id, c, s);
      assert RowAgrees(st, s);
    }
  }

  lemma UpdateFoundAgrees(st: Store, id: nat, c: Captured, source: string)
    requires Agrees(st) && FindRow(st.rows, id).Some?
    ensures Agrees(UpdateTransaction(st, id, c, source))
  {
    FindRowFinds(st.rows, id);
    var previous := FindRow(st.rows, id).value;
    RewriteSpoilsTwo(st, c, source, previous);
    RefreshesRepair(UpsertSession(st, c, source).(rows := Rewrite(st.rows, id, c)), previous.snapshot.sessionId, c.sessionId);
  }

  lemma RefreshesRepair(st: Store, p: SessionId, s: SessionId)
    requires AgreesExcept(st, {p, s})
    ensures Agrees(Refresh(if p != s then Refresh(st, p) else st, s))
  {
    if p != s {
      assert {s} + {p} == {p, s};
      RefreshRepairs(st, p, {s});
      assert {s} - {p} == {} + {s};
      RefreshRepairs(Refresh(st, p), s, {});
    } else {
      assert {p, s} == {} + {s};
      RefreshRepairs(st, s, {});
    }
  }

  lemma IdsAreUnique(st: Store, a: SnapshotRow, b: SnapshotRow)
    requires Agrees(st) && a in st.rows && b in st.rows && a.id == b.id
    ensures a == b
  {}

  /** An update keeps the index in agreement, also when it moves the snapshot or misses its id. */
  lemma UpdateAgrees(st: Store, id: nat, c: Captured, source: string)
    requires Agrees(st)
    ensures Agrees(Update(st, id, c, source))
  {
    if FindRow(st.rows, id).Some? {
      UpdateFoundAgrees(st, id, c, source);
    } else {
      var upserted := UpsertSession(st, c, source);
      assert Insert(upserted, c, source) == Insert(st, c, source);
      InsertAgrees(st, c, source);
    }
  }

  /**
    * An update that misses its id commits twice. In between, the index agrees exactly when the
    * target session already had snapshots (or the new row poses as an import).
    */
  lemma MissedUpdateGapIff(st: Store, id: nat, c: Captured, source: string)
    requires Agrees(st) && FindRow(st.rows, id).None?
    ensures Agrees(UpdateTransaction(st, id, c, source)) <==> |RowsOf(st.rows, c.sessionId)| > 0 || source == IMPORT_SOURCE
  {
    var gap := UpdateTransaction(st, id, c, source);
    RowsOfMembers(st.rows, c.sessionId);
    if |RowsOf(st.rows, c.sessionId)| > 0 {
      assert RowsOf(st.rows, c.sessionId)[0] in st.rows;
      assert RowAgrees(st, c.sessionId);
    }
    if |RowsOf(st.rows, c.sessionId)| > 0 || source == IMPORT_SOURCE {
      forall s | s in gap.sessions ensures RowAgrees(gap, s) {
        if s != c.sessionId { assert RowAgrees(st, s); }
      }
    } else {
      assert c.sessionId in gap.sessions && !RowAgrees(gap, c.sessionId);
    }
  }

  /** In an empty store every missed update of a captured snapshot opens that gap. */
  lemma MissedUpdateCanDisagree(id: nat, c: Captured, source: string)
    requires source != IMPORT_SOURCE
    ensures Agrees(EMPTY_STORE) && !Agrees(UpdateTransaction(EMPTY_STORE, id, c, source))
    ensures Agrees(Update(EMPTY_STORE, id, c, source))
  {
    MissedUpdateGapIff(EMPTY_STORE, id, c, source);
    UpdateAgrees(EMPTY_STORE, id, c, source);
  }

  // ---------------------------------------------------- what an operation stores

  datatype Label = Label(symbol: string, expiry: string, source: string)

  function LabelOf(row: SessionRow): Label { Label(row.symbol, row.expiry, row.source) }

  ghost predicate SameSession(before: Store, after: Store, s: SessionId) {
    (s in after.sessions <==> s in before.sessions) && (s in before.sessions ==> after.sessions[s] == before.sessions[s])
  }

  ghost predicate Labelled(st: Store, s: SessionId, shown: Label) { s in st.sessions && LabelOf(st.sessions[s]) == shown }

  /** An insert stores its snapshot last, under the next id, and labels its session; other sessions stay. */
  lemma InsertStores(st: Store, c: Captured, source: string)
    ensures var after := Insert(st, c, source);
      && after.rows == st.rows + [SnapshotRow(st.nextId, c)] && after.nextId == st.nextId + 1
      && Labelled(after, c.sessionId, Label(c.symbol, c.expiry, source))
      && forall s :: s != c.sessionId ==> SameSession(st, after, s)
  {
    RowsOfAppend(st.rows, SnapshotRow(st.nextId, c), c.sessionId);
  }

  /** A published import gets its session row as it came, unless the session is there; nothing else changes. */
  lemma ImportStores(st: Store, s: SessionId, row: SessionRow)
    ensures var after := PublishImported(st, s, row);
      && (if s in st.sessions then after == st else s in after.sessions && after.sessions[s] == row.(source := "parquet_import"))
      && after.rows == st.rows && after.nextId == st.nextId && forall x :: x != s ==> SameSession(st, after, x)
  {}

  /** The rows with the one of this id overwritten in its place. */
  ghost predicate Overwritten(before: seq<SnapshotRow>, after: seq<SnapshotRow>, id: nat, c: Captured) {
    |after| == |before| && forall i :: 0 <= i < |before| ==> after[i] == (if before[i].id == id then SnapshotRow(id, c) else before[i])
  }

  /** A session that lost a snapshot is gone if that was its only one, and else keeps its label. */
  ghost predicate LostOne(st: Store, after: Store, id: nat, s: SessionId) {
    if exists r :: r in st.rows && r.snapshot.sessionId == s && r.id != id
    then s in st.sessions && Labelled(after, s, LabelOf(st.sessions[s]))
    else s !in after.sessions
  }

  /**
    * An update overwrites the snapshot of its id in place, labels the new session and leaves
    * all sessions but the old and the new one as they are; without such a snapshot it inserts.
    */
  lemma UpdateStores(st: Store, id: nat, c: Captured, source: string, after: Store)
    requires Agrees(st) && after == Update(st, id, c, source)
    ensures (forall r :: r in st.rows ==> r.id != id) ==> after == Insert(st, c, source)
    ensures forall r :: r in st.rows && r.id == id ==>
      && Overwritten(st.rows, after.rows, id, c) && after.nextId == st.nextId
      && Labelled(after, c.sessionId, Label(c.symbol, c.expiry, source))
      && (r.snapshot.sessionId != c.sessionId ==> LostOne(st, after, id, r.snapshot.sessionId))
      && forall s :: s !in {c.sessionId, r.snapshot.sessionId} ==> SameSession(st, after, s)
  {
    FindRowFinds(st.rows, id);
    if FindRow(st.rows, id).None? {
      var upserted := UpsertSession(st, c, source);
      assert Insert(upserted, c, source) == Insert(st, c, source);
    } else {
      var r := FindRow(st.rows, id).value;
      forall x | x in st.rows && x.id == id ensures x == r { IdsAreUnique(st, x, r); }
      FoundUpdateStores(st, id, c, source, r, after);
    }
  }

  lemma FoundUpdateStores(st: Store, id: nat, c: Captured, source: string, r: SnapshotRow, after: Store)
    requires Agrees(st) && after == UpdateTransaction(st, id, c, source) && FindRow(st.rows, id) == Some(r)
    requires r in st.rows && r.id == id && forall x :: x in st.rows && x.id == id ==> x == r
    ensures Overwritten(st.rows, after.rows, id, c) && after.nextId == st.nextId
    ensures Labelled(after, c.sessionId, Label(c.symbol, c.expiry, source))
    ensures r.snapshot.sessionId != c.sessionId ==> LostOne(st, after, id, r.snapshot.sessionId)
    ensures forall s :: s !in {c.sessionId, r.snapshot.sessionId} ==> SameSession(st, after, s)
  {
    var rewritten, p := UpsertSession(st, c, source).(rows := Rewrite(st.rows, id, c)), r.snapshot.sessionId;
    RewriteMembers(st.rows, id, c);
    RowsOfMembers(rewritten.rows, c.sessionId);
    assert SnapshotRow(id, c) in RowsOf(rewritten.rows, c.sessionId);
    if p != c.sessionId { MovedRows(st.rows, id, c, p); }
    TwoRefreshes(rewritten, p, c.sessionId, Label(c.symbol, c.expiry, source), after);
    forall s | s !in {c.sessionId, p} ensures SameSession(st, after, s) { assert SameSession(rewritten, after, s); }
  }

  lemma TwoRefreshes(st: Store, p: SessionId, s: SessionId, shown: Label, after: Store)
    requires after == Refresh(if p != s then Refresh(st, p) else st, s)
    requires |RowsOf(st.rows, s)| > 0 && Labelled(st, s, shown)
    ensures after.rows == st.rows && after.nextId == st.nextId && Labelled(after, s, shown)
    ensures p != s ==> if |RowsOf(st.rows, p)| == 0 then p !in after.sessions
                       else p in st.sessions ==> Labelled(after, p, LabelOf(st.sessions[p]))
    ensures forall x :: x !in {p, s} ==> SameSession(st, after, x)
  {
    var freed := if p != s then Refresh(st, p) else st;
    RefreshKeeps(st, p, Refresh(st, p));
    RefreshKeeps(freed, s, after);
  }

  /** A refresh touches one session, which goes with its last snapshot and else keeps its label. */
  lemma RefreshKeeps(st: Store, s: SessionId, after: Store)
    requires after == Refresh(st, s)
    ensures after.rows == st.rows && after.nextId == st.nextId
    ensures forall x :: x != s ==> SameSession(st, after, x)
    ensures if |RowsOf(st.rows, s)| == 0 then s !in after.sessions
            else s in st.sessions ==> Labelled(after, s, LabelOf(st.sessions[s]))
  {}

  lemma MovedRows(rows: seq<SnapshotRow>, id: nat, c: Captured, p: SessionId)
    requires p != c.sessionId
    ensures |RowsOf(Rewrite(rows, id, c), p)| > 0 <==> exists r :: r in rows && r.snapshot.sessionId == p && r.id != id
  {
    var after := Rewrite(rows, id, c);
    RowsOfMembers(after, p);
    RewriteMembers(rows, id, c);
    forall r | r in rows && r.id != id ensures r in after { assert exists i :: 0 <= i < |rows| && rows[i] == r && after[i] == r; }
    if |RowsOf(after, p)| > 0 { assert RowsOf(after, p)[0] in after; }
  }

  // ---- deletes and imports

  lemma DeleteAgrees(st: Store, s: SessionId)
    requires Agrees(st)
    ensures Agrees(Delete(st, s))
  {
    var keep := OutsideSession(s);
    var after := Delete(st, s);
    FilterMembers(keep, st.rows);
    FilterKeepsIds(keep, st.rows);
    forall x | x in after.sessions ensures RowAgrees(after, x) {
      FilterTwice(keep, st.rows, x);
      assert RowAgrees(st, x);
    }
  }

  /** A deleted session is gone with its snapshots, and everything else is as it was, in its order. */
  lemma DeletedSessionIsGone(st: Store, s: SessionId)
    ensures var after := Delete(st, s);
      && s !in after.sessions && (forall r :: r in after.rows ==> r.snapshot.sessionId != s)
      && (forall x :: x != s ==> (x in after.sessions <==> x in st.sessions) && (x in st.sessions ==> after.sessions[x] == st.sessions[x]))
      && (forall x :: x != s ==> RowsOf(after.rows, x) == RowsOf(st.rows, x))
      && after.nextId == st.nextId
  {
    FilterMembers(OutsideSession(s), st.rows);
    forall x | x != s ensures RowsOf(Delete(st, s).rows, x) == RowsOf(st.rows, x) { FilterTwice(OutsideSession(s), st.rows, x); }
  }

  lemma ImportAgrees(st: Store, s: SessionId, row: SessionRow)
    requires Agrees(st)
    ensures Agrees(PublishImported(st, s, row))
  {
    var after := PublishImported(st, s, row);
    if s !in st.sessions {
      NoRowsOf(st.rows, s);
      forall x | x in after.sessions ensures RowAgrees(after, x) {
        if x != s { assert RowAgrees(st, x); }
      }
    }
  }

  lemma {:induction false} FilterKeepsIds(keep: SnapshotRow -> bool, rows: seq<SnapshotRow>)
    requires IdsAscend(rows)
    ensures IdsAscend(Filter(keep, rows))
  {
    if |rows| > 0 {
      var tail := rows[1..];
      assert IdsAscend(tail) by { assert forall i :: 0 <= i < |tail| ==> tail[i] == rows[i + 1]; }
      FilterKeepsIds(keep, tail);
      FilterMembers(keep, tail);
      var rest := Filter(keep, tail);
      forall r | r in rest ensures rows[0].id < r.id {
        var n :| 0 <= n < |tail| && tail[n] == r;
        assert rows[n + 1] == r;
      }
      assert forall i :: 0 <= i < |rest| ==> rest[i] in rest;
    }
  }

  /** Rows of a session all of whose rows are kept are the same after filtering. */
  lemma {:induction false} FilterTwice(keep: SnapshotRow -> bool, rows: seq<SnapshotRow>, s: SessionId)
    requires forall r :: r in rows && r.snapshot.sessionId == s ==> keep(r)
    ensures RowsOf(Filter(keep, rows), s) == RowsOf(rows, s)
  {
    if |rows| > 0 {
      assert rows == [rows[0]] + rows[1..];
      FilterTwice(keep, rows[1..], s);
    }
  }

  // ---- cleanup

  /** A session that lost no snapshot keeps its rows. */
  lemma UnaffectedKeepsRows(st: Store, cutoff: int, matches: SessionId -> bool, s: SessionId)
    requires s !in Affected(st, cutoff, matches)
    ensures RowsOf(Filter(Kept(cutoff, matches), st.rows), s) == RowsOf(st.rows, s)
  {
    FilterMembers(Expired(cutoff, matches), st.rows);
    assert forall r :: r in st.rows && r.snapshot.sessionId == s && Expired(cutoff, matches)(r) ==> s in Affected(st, cutoff, matches);
    FilterTwice(Kept(cutoff, matches), st.rows, s);
  }

  lemma CleanedRowsHaveSessions(st: Store, cutoff: int, matches: SessionId -> bool, r: SnapshotRow)
    requires Agrees(st) && r in Filter(Kept(cutoff, matches), st.rows)
    ensures r.snapshot.sessionId in Cleaned(st, cutoff, matches).sessions && r.id < st.nextId
  {
    FilterMembers(Kept(cutoff, matches), st.rows);
    RowsOfMembers(Filter(Kept(cutoff, matches), st.rows), r.snapshot.sessionId);
    assert r in RowsOf(Filter(Kept(cutoff, matches), st.rows), r.snapshot.sessionId);
  }

  lemma CleanedRowAgrees(st: Store, cutoff: int, matches: SessionId -> bool, s: SessionId)
    requires Agrees(st) && s in Cleaned(st, cutoff, matches).sessions
    ensures RowAgrees(Cleaned(st, cutoff, matches), s)
  {
    assert RowAgrees(st, s);
    if s !in Affected(st, cutoff, matches) { UnaffectedKeepsRows(st, cutoff, matches, s); }
  }

  lemma CleanedAgrees(st: Store, cutoff: int, matches: SessionId -> bool)
    requires Agrees(st)
    ensures Agrees(Cleaned(st, cutoff, matches))
  {
    var after := Cleaned(st, cutoff, matches);
    FilterKeepsIds(Kept(cutoff, matches), st.rows);
    forall r | r in after.rows ensures r.id < after.nextId && r.snapshot.sessionId in after.sessions {
      CleanedRowsHaveSessions(st, cutoff, matches, r);
    }
    forall s | s in after.sessions ensures RowAgrees(after, s) {
      CleanedRowAgrees(st, cutoff, matches, s);
    }
  }

  lemma {:induction false} FilterSplitsLength(cutoff: int, matches: SessionId -> bool, rows: seq<SnapshotRow>)
    ensures |Filter(Kept(cutoff, matches), rows)| + |Filter(Expired(cutoff, matches), rows)| == |rows|
  {
    if |rows| > 0 { FilterSplitsLength(cutoff, matches, rows[1..]); }
  }

  lemma RemovedIsDoomed(st: Store, cutoff: int, matches: SessionId -> bool, s: SessionId)
    requires s in st.sessions && s !in Cleaned(st, cutoff, matches).sessions
    ensures s in DoomedSessions(st, cutoff, matches)
  {
    var rows := Filter(Kept(cutoff, matches), st.rows);
    FilterMembers(Kept(cutoff, matches), st.rows);
    FilterMembers(Expired(cutoff, matches), st.rows);
    RowsOfMembers(rows, s);
    assert s in Affected(st, cutoff, matches) && RowsOf(rows, s) == [];
    var r :| r in Filter(Expired(cutoff, matches), st.rows) && r.snapshot.sessionId == s;
    assert r in st.rows && r.snapshot.time < cutoff;
    assert forall x :: x in st.rows && x.snapshot.sessionId == s && x.snapshot.time >= cutoff ==> x in rows && x in RowsOf(rows, s);
  }

  lemma DoomedIsRemoved(st: Store, cutoff: int, matches: SessionId -> bool, s: SessionId)
    requires s in DoomedSessions(st, cutoff, matches)
    ensures s !in Cleaned(st, cutoff, matches).sessions
  {
    var rows := Filter(Kept(cutoff, matches), st.rows);
    FilterMembers(Kept(cutoff, matches), st.rows);
    FilterMembers(Expired(cutoff, matches), st.rows);
    RowsOfMembers(rows, s);
    var r :| r in st.rows && r.snapshot.sessionId == s && r.snapshot.time < cutoff;
    assert r in Filter(Expired(cutoff, matches), st.rows);
    assert s in Affected(st, cutoff, matches);
    assert forall x :: x in rows ==> x.snapshot.sessionId != s || x.snapshot.time >= cutoff;
    NoRowsOf(rows, s);
  }

  lemma RemovedAreDoomed(st: Store, cutoff: int, matches: SessionId -> bool)
    ensures Cleaned(st, cutoff, matches).sessions.Keys == st.sessions.Keys - DoomedSessions(st, cutoff, matches)
  {
    var after := Cleaned(st, cutoff, matches);
    forall s | s in st.sessions ensures s in after.sessions <==> s !in DoomedSessions(st, cutoff, matches) {
      if s !in after.sessions { RemovedIsDoomed(st, cutoff, matches, s); }
      if s in DoomedSessions(st, cutoff, matches) { DoomedIsRemoved(st, cutoff, matches, s); }
    }
  }

  /** A session without captured snapshots, as imported ones are, is untouched. */
  lemma EmptySessionUntouched(st: Store, cutoff: int, matches: SessionId -> bool, s: SessionId)
    requires s in st.sessions && |RowsOf(st.rows, s)| == 0
    ensures var after := Cleaned(st, cutoff, matches); s in after.sessions && after.sessions[s] == st.sessions[s]
  {
    RowsOfMembers(st.rows, s);
    FilterMembers(Expired(cutoff, matches), st.rows);
    assert forall r :: r in st.rows && r.snapshot.sessionId == s ==> r in RowsOf(st.rows, s);
    assert s !in Affected(st, cutoff, matches);
  }

  /**
    * What a dry run counts is what the cleanup removes, snapshots and sessions; exactly the
    * snapshots of the pattern before the cutoff go, and sessions without captured snapshots stay.
    */
  lemma CleanupRemovesWhatItPredicts(st: Store, cutoff: int, matches: SessionId -> bool)
    ensures var after, counts := Cleaned(st, cutoff, matches), Predicted(st, cutoff, matches);
      && |after.rows| == |st.rows| - counts.snapshots
      && |after.sessions| == |st.sessions| - counts.sessions
      && (forall r :: r in after.rows <==> r in st.rows && !(r.snapshot.time < cutoff && matches(r.snapshot.sessionId)))
      && (forall s :: s in st.sessions && |RowsOf(st.rows, s)| == 0 ==> s in after.sessions && after.sessions[s] == st.sessions[s])
  {
    var after := Cleaned(st, cutoff, matches);
    FilterSplitsLength(cutoff, matches, st.rows);
    FilterMembers(Kept(cutoff, matches), st.rows);
    RemovedAreDoomed(st, cutoff, matches);
    KeysRemoved(st.sessions, after.sessions, DoomedSessions(st, cutoff, matches));
    forall s | s in st.sessions && |RowsOf(st.rows, s)| == 0
      ensures s in after.sessions && after.sessions[s] == st.sessions[s]
    {
      EmptySessionUntouched(st, cutoff, matches, s);
    }
  }

  lemma KeysRemoved(before: map<SessionId, SessionRow>, after: map<SessionId, SessionRow>, gone: set<SessionId>)
    requires after.Keys == before.Keys - gone && gone <= before.Keys
    ensures |after| == |before| - |gone|
  {}

  lemma {:induction false} NothingExpiredTwice(cutoff: int, matches: SessionId -> bool, rows: seq<SnapshotRow>)
    ensures var kept := Filter(Kept(cutoff, matches), rows);
      Filter(Expired(cutoff, matches), kept) == [] && Filter(Kept(cutoff, matches), kept) == kept
  {
    if |rows| > 0 { NothingExpiredTwice(cutoff, matches, rows[1..]); }
  }

  /** A second cleanup at the same cutoff predicts nothing and changes nothing. */
  lemma SecondCleanupIsIdle(st: Store, cutoff: int, matches: SessionId -> bool)
    requires Agrees(st)
    ensures var after := Cleaned(st, cutoff, matches);
      Predicted(after, cutoff, matches) == Counts(0, 0) && Cleaned(after, cutoff, matches) == after
  {
    var after := Cleaned(st, cutoff, matches);
    NothingExpiredTwice(cutoff, matches, st.rows);
    FilterMembers(Kept(cutoff, matches), st.rows);
    assert Affected(after, cutoff, matches) == {};
    assert DoomedSessions(after, cutoff, matches) == {};
    assert Cleaned(after, cutoff, matches).sessions == after.sessions;
  }

  // ---------------------------------------------------------------------- runs

  datatype Operation =
    | InsertOp(snapshot: Captured, source: string)
    | UpdateOp(id: nat, snapshot: Captured, source: string)
    | DeleteOp(session: SessionId)
    | CleanupOp(cutoff: int, matches: SessionId -> bool)
    | ImportOp(session: SessionId, row: SessionRow)

  function Apply(st: Store, op: Operation): Store {
    match op
    case InsertOp(c, source) => Insert(st, c, source)
    case UpdateOp(id, c, source) => Update(st, id, c, source)
    case DeleteOp(s) => Delete(st, s)
    case CleanupOp(cutoff, matches) => Cleaned(st, cutoff, matches)
    case ImportOp(s, row) => PublishImported(st, s, row)
  }

  function ApplyAll(st: Store, ops: seq<Operation>): Store {
    if |ops| == 0 then st else Apply(ApplyAll(st, ops[..|ops| - 1]), ops[|ops| - 1])
  }

  lemma ApplyAgrees(st: Store, op: Operation)
    requires Agrees(st)
    ensures Agrees(Apply(st, op))
  {
    match op
    case InsertOp(c, source) => InsertAgrees(st, c, source);
    case UpdateOp(id, c, source) => UpdateAgrees(st, id, c, source);
    case DeleteOp(s) => DeleteAgrees(st, s);
    case CleanupOp(cutoff, matches) => CleanedAgrees(st, cutoff, matches);
    case ImportOp(s, row) => ImportAgrees(st, s, row);
  }

  /** The session index agrees with the snapshots after every run of operations. */
  lemma {:induction false} IndexAlwaysAgrees(ops: seq<Operation>)
    ensures Agrees(ApplyAll(EMPTY_STORE, ops))
  {
    if |ops| > 0 {
      IndexAlwaysAgrees(ops[..|ops| - 1]);
      ApplyAgrees(ApplyAll(EMPTY_STORE, ops[..|ops| - 1]), ops[|ops| - 1]);
    }
  }

  // ----------------------------------------------------------------- the labels

  /** The label last written for a session; an import writes one only for a session that is not there. */
  ghost function LastLabel(ops: seq<Operation>, s: SessionId): Option<Label> {
    if |ops| == 0 then None
    else
      var before := ops[..|ops| - 1];
      match ops[|ops| - 1]
      case InsertOp(c, source) => if c.sessionId == s then Some(Label(c.symbol, c.expiry, source)) else LastLabel(before, s)
      case UpdateOp(_, c, source) => if c.sessionId == s then Some(Label(c.symbol, c.expiry, source)) else LastLabel(before, s)
      case ImportOp(x, row) =>
        if x == s && s !in ApplyAll(EMPTY_STORE, before).sessions then Some(Label(row.symbol, row.expiry, IMPORT_SOURCE))
        else LastLabel(before, s)
      case _ => LastLabel(before, s)
  }

  /** The session an operation labels, and how. */
  ghost function Written(st: Store, op: Operation): Option<(SessionId, Label)> {
    match op
    case InsertOp(c, source) => Some((c.sessionId, Label(c.symbol, c.expiry, source)))
    case UpdateOp(_, c, source) => Some((c.sessionId, Label(c.symbol, c.expiry, source)))
    case ImportOp(s, row) => if s in st.sessions then None else Some((s, Label(row.symbol, row.expiry, IMPORT_SOURCE)))
    case _ => None
  }

  lemma ApplyLabels(st: Store, op: Operation, s: SessionId)
    requires Agrees(st) && s in Apply(st, op).sessions
    ensures var w := Written(st, op);
      if w.Some? && w.value.0 == s then Labelled(Apply(st, op), s, w.value.1)
      else s in st.sessions && Labelled(Apply(st, op), s, LabelOf(st.sessions[s]))
  {
    match op
    case InsertOp(c, source) => InsertStores(st, c, source); assert SameSession(st, Apply(st, op), s) || s == c.sessionId;
    case UpdateOp(id, c, source) => UpdateLabels(st, id, c, source, s);
    case DeleteOp(_) =>
    case CleanupOp(_, _) =>
    case ImportOp(_, _) =>
  }

  lemma UpdateLabels(st: Store, id: nat, c: Captured, source: string, s: SessionId)
    requires Agrees(st) && s in Update(st, id, c, source).sessions
    ensures var after := Update(st, id, c, source);
      if s == c.sessionId then Labelled(after, s, Label(c.symbol, c.expiry, source))
      else s in st.sessions && Labelled(after, s, LabelOf(st.sessions[s]))
  {
    var after := Update(st, id, c, source);
    UpdateStores(st, id, c, source, after);
    InsertStores(st, c, source);
    if r :| r in st.rows && r.id == id {
      assert s !in {c.sessionId, r.snapshot.sessionId} ==> SameSession(st, after, s);
    } else {
      assert s != c.sessionId ==> SameSession(st, after, s);
    }
  }

  /** After every run each session shows the symbol, expiry and source written for it last. */
  lemma {:induction false} SessionsShowLastLabel(ops: seq<Operation>, s: SessionId)
    requires s in ApplyAll(EMPTY_STORE, ops).sessions
    ensures Some(LabelOf(ApplyAll(EMPTY_STORE, ops).sessions[s])) == LastLabel(ops, s)
  {
    var before := ops[..|ops| - 1];
    IndexAlwaysAgrees(before);
    ApplyLabels(ApplyAll(EMPTY_STORE, before), ops[|ops| - 1], s);
    if s in ApplyAll(EMPTY_STORE, before).sessions { SessionsShowLastLabel(before, s); }
  }

  lemma RefreshOneMore(sessions: map<SessionId, SessionRow>, st: Store, done: set<SessionId>, s: SessionId)
    requires s !in done && st.sessions == RefreshedSessions(sessions, st.rows, done)
    ensures Refresh(st, s).sessions == RefreshedSessions(sessions, st.rows, done + {s})
  {}

  // ---------------------------------------------------------------- the repository

  class ReplayRepository {
    var sessions: map<SessionId, SessionRow>
    var rows: seq<SnapshotRow>
    var nextId: nat

    ghost function Contents(): Store
      reads this
    {
      Store(sessions, rows, nextId)
    }

    constructor ()
      ensures Contents() == EMPTY_STORE
    {
      sessions, rows, nextId := map[], [], 1;
    }

    method Upsert(c: Captured, source: string)
      modifies this`sessions
      ensures Contents() == UpsertSession(old(Contents()), c, source)
    {
      if c.sessionId in sessions {
        sessions := sessions[c.sessionId := sessions[c.sessionId].(symbol := c.symbol, expiry := c.expiry, source := source)];
      } else {
        sessions := sessions[c.sessionId := SessionRow(c.symbol, c.expiry, source, c.time, c.time, 0)];
      }
    }

    method RefreshSession(s: SessionId)
      modifies this`sessions
      ensures Contents() == Refresh(old(Contents()), s)
    {
      var own := RowsOf(rows, s);
      if |own| == 0 {
        sessions := sessions - {s};
      } else if s in sessions {
        sessions := sessions[s := sessions[s].(start := MinTime(own), end := MaxTime(own), count := |own|)];
      }
    }

    method InsertSnapshot(c: Captured, source: string) returns (id: nat)
      modifies this
      ensures Contents() == Insert(old(Contents()), c, source) && id == old(nextId)
    {
      Upsert(c, source);
      id := nextId;
      rows := rows + [SnapshotRow(id, c)];
      nextId := nextId + 1;
      RefreshSession(c.sessionId);
    }

    method UpdateSnapshot(id: nat, c: Captured, source: string) returns (stored: nat)
      modifies this
      ensures Contents() == Update(old(Contents()), id, c, source)
      ensures stored == if FindRow(old(rows), id).Some? then id else old(nextId)
    {
      var previous := FindRow(rows, id);
      Upsert(c, source);
      if previous.None? {
        stored := InsertSnapshot(c, source);
        return;
      }
      rows := Rewrite(rows, id, c);
      if previous.value.snapshot.sessionId != c.sessionId {
        RefreshSession(previous.value.snapshot.sessionId);
      }
      RefreshSession(c.sessionId);
      stored := id;
    }

    method DeleteSession(s: SessionId)
      modifies this
      ensures Contents() == Delete(old(Contents()), s)
    {
      sessions := sessions - {s};
      rows := Filter(OutsideSession(s), rows);
    }

    /** Refreshes the given sessions one by one, in whatever order they come. */
    method RefreshAll(affected: set<SessionId>)
      modifies this`sessions
      ensures sessions == RefreshedSessions(old(sessions), rows, affected)
    {
      var todo := affected;
      var done: set<SessionId> := {};
      while todo != {}
        invariant todo + done == affected && todo !! done
        invariant sessions == RefreshedSessions(old(sessions), rows, done)
        decreases |todo|
      {
        var s :| s in todo;
        RefreshOneMore(old(sessions), Contents(), done, s);
        RefreshSession(s);
        todo, done := todo - {s}, done + {s};
      }
      assert done == affected;
    }

    /** The counts are taken before anything is deleted; a dry run stops there. */
    method CleanupBefore(cutoff: int, dryRun: bool, matches: SessionId -> bool) returns (counts: Counts)
      modifies this
      ensures counts == Predicted(old(Contents()), cutoff, matches)
      ensures Contents() == if dryRun then old(Contents()) else Cleaned(old(Contents()), cutoff, matches)
    {
      var st := Store(sessions, rows, nextId);
      counts := Predicted(st, cutoff, matches);
      if dryRun {
        return;
      }
      var affected := Affected(st, cutoff, matches);
      rows := Filter(Kept(cutoff, matches), rows);
      RefreshAll(affected);
    }
  }

  // ------------------------------------------------------------ atomic retention

  /** Replay tables and saved views cleaned in one transaction (maintenance/retention.py). */
  class RetentionCleanup {
    const replay: ReplayRepository
    var savedViews: seq<(nat, int)>

    constructor (replay: ReplayRepository, savedViews: seq<(nat, int)>)
      ensures this.replay == replay && this.savedViews == savedViews
    {
      this.replay, this.savedViews := replay, savedViews;
    }

    /** Its effect on the replay tables, and its counts, are those of an unrestricted `CleanupBefore`. */
    method CleanupAtomically(replayCutoff: int, savedViewCutoff: int) returns (counts: Counts, views: nat)
      modifies this, replay
      ensures counts == Predicted(old(replay.Contents()), replayCutoff, (s: SessionId) => true)
      ensures replay.Contents() == Cleaned(old(replay.Contents()), replayCutoff, (s: SessionId) => true)
      ensures savedViews == Filter((v: (nat, int)) => v.1 >= savedViewCutoff, old(savedViews))
      ensures views == |old(savedViews)| - |savedViews|
    {
      var everySession := (s: SessionId) => true;
      var st := Store(replay.sessions, replay.rows, replay.nextId);
      counts := Predicted(st, replayCutoff, everySession);
      views := |Filter((v: (nat, int)) => v.1 < savedViewCutoff, savedViews)|;
      ViewsSplit(savedViews, savedViewCutoff);
      var affected := Affected(st, replayCutoff, everySession);
      savedViews := Filter((v: (nat, int)) => v.1 >= savedViewCutoff, savedViews);
      replay.rows := Filter(Kept(replayCutoff, everySession), replay.rows);
      replay.RefreshAll(affected);
    }
  }

  lemma {:induction false} ViewsSplit(views: seq<(nat, int)>, cutoff: int)
    ensures |Filter((v: (nat, int)) => v.1 < cutoff, views)| + |Filter((v: (nat, int)) => v.1 >= cutoff, views)| == |views|
  {
    if |views| > 0 { ViewsSplit(views[1..], cutoff); }
  }
}
