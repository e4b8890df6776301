/**
  * The capture recorder (replay/capture.py): turns a run of live snapshots into stored replay
  * frames. A frame replaces the latest one when it comes within the capture interval of it,
  * so bursts collapse; the theorem says exactly which frames survive.
  */
module ReplayCapture {
  import opened Maybe
  import opened Lists
  import opened ReplayStore

  const CAPTURE_SOURCE: string := "ibkr"

  datatype Offer = Offer(live: bool, snapshot: Captured)

  datatype Outcome = NotReady | NotLive | Empty | Stale | Inserted(id: nat) | Updated(id: nat)

  predicate Usable(offer: Option<Offer>) { offer.Some? && offer.value.live && offer.value.snapshot.rowCount > 0 }

  /** ORDER BY snapshot_time, snapshot_id. */
  function NoLaterThan(): (SnapshotRow, SnapshotRow) -> bool {
    (a: SnapshotRow, b: SnapshotRow) =>
      a.snapshot.time < b.snapshot.time || (a.snapshot.time == b.snapshot.time && a.id <= b.id)
  }

  function Latest(st: Store, s: SessionId): Option<SnapshotRow> {
    var rows := RowsOf(st.rows, s);
    if |rows| == 0 then None else Some(FirstMax(NoLaterThan(), rows))
  }

  function CaptureOutcome(st: Store, offer: Option<Offer>, interval: int): Outcome {
    if offer.None? then NotReady
    else if !offer.value.live then NotLive
    else if offer.value.snapshot.rowCount == 0 then Empty
    else
      var c := offer.value.snapshot;
      var latest := Latest(st, c.sessionId);
      if latest.None? then Inserted(st.nextId)
      else if c.time < latest.value.snapshot.time then Stale
      else if c.time - latest.value.snapshot.time >= interval then Inserted(st.nextId)
      else Updated(latest.value.id)
  }

  function Capture(st: Store, offer: Option<Offer>, interval: int): Store {
    match CaptureOutcome(st, offer, interval)
    case Inserted(_) => if Usable(offer) then Insert(st, offer.value.snapshot, CAPTURE_SOURCE) else st
    case Updated(id) => if Usable(offer) then Update(st, id, offer.value.snapshot, CAPTURE_SOURCE) else st
    case _ => st
  }

  function CaptureAll(st: Store, offers: seq<Option<Offer>>, interval: int): Store {
    if |offers| == 0 then st
    else Capture(CaptureAll(st, offers[..|offers| - 1], interval), offers[|offers| - 1], interval)
  }

  // -------------------------------------------------------- what should be stored

  function Frames(st: Store, s: SessionId): seq<Captured> { Map((r: SnapshotRow) => r.snapshot, RowsOf(st.rows, s)) }

  /** The usable snapshots of a session, in the order they were offered. */
  function Offered(offers: seq<Option<Offer>>, s: SessionId): seq<Captured> {
    if |offers| == 0 then []
    else
      var rest := Offered(offers[..|offers| - 1], s);
      var last := offers[|offers| - 1];
      if Usable(last) && last.value.snapshot.sessionId == s then rest + [last.value.snapshot] else rest
  }

  /** Those that are not older than any offered before them. */
  function Accepted(xs: seq<Captured>): seq<Captured> {
    if |xs| == 0 then []
    else
      var rest := Accepted(xs[..|xs| - 1]);
      if NoneNewer(xs[..|xs| - 1], xs[|xs| - 1]) then rest + [xs[|xs| - 1]] else rest
  }

  predicate NoneNewer(xs: seq<Captured>, c: Captured) { forall i :: 0 <= i < |xs| ==> xs[i].time <= c.time }

  /** Those whose successor comes at least an interval later, and the last one. */
  function Compact(xs: seq<Captured>, interval: int): seq<Captured> {
    if |xs| <= 1 then xs
    else if xs[1].time - xs[0].time >= interval then [xs[0]] + Compact(xs[1..], interval)
    else Compact(xs[1..], interval)
  }

  ghost predicate Chronological(xs: seq<Captured>) {
    forall i, j :: 0 <= i < j < |xs| ==> xs[i].time <= xs[j].time
  }

  ghost predicate Spaced(xs: seq<Captured>, interval: int) {
    forall i :: 0 < i < |xs| ==> xs[i].time - xs[i - 1].time >= interval
  }

  // ------------------------------------------------------------ compaction, by itself

  /** One more element: the stored tail is overwritten or followed. */
  function Push(frames: seq<Captured>, c: Captured, interval: int): seq<Captured> {
    if |frames| == 0 then [c]
    else
      var last := frames[|frames| - 1];
      if c.time < last.time then frames
      else if c.time - last.time >= interval then frames + [c]
      else frames[..|frames| - 1] + [c]
  }

  lemma {:induction false} CompactPush(xs: seq<Captured>, c: Captured, interval: int)
    requires |xs| > 0 ==> xs[|xs| - 1].time <= c.time
    ensures |xs| > 0 ==> |Compact(xs, interval)| > 0 && Compact(xs, interval)[|Compact(xs, interval)| - 1] == xs[|xs| - 1]
    ensures Compact(xs + [c], interval) == Push(Compact(xs, interval), c, interval)
  {
    if |xs| == 0 {
    } else if |xs| == 1 {
      assert (xs + [c])[1..] == [c];
    } else {
      CompactPush(xs[1..], c, interval);
      assert (xs + [c])[1..] == xs[1..] + [c];
    }
  }

  lemma {:induction false} CompactShape(xs: seq<Captured>, interval: int)
    requires Chronological(xs)
    ensures var f := Compact(xs, interval);
      Chronological(f) && Spaced(f, interval) && (forall c :: c in f ==> c in xs)
    ensures |xs| > 0 ==> |Compact(xs, interval)| > 0
  {
    if |xs| > 1 {
      var tail := xs[1..];
      assert Chronological(tail) by { assert forall i :: 0 <= i < |tail| ==> tail[i] == xs[i + 1]; }
      CompactShape(tail, interval);
      var f := Compact(tail, interval);
      assert f[0] in f;
      FirstIsOldest(tail, f[0]);
      if xs[1].time - xs[0].time >= interval { PrependShape(xs[0], f, interval); }
    }
  }

  lemma FirstIsOldest(xs: seq<Captured>, c: Captured)
    requires Chronological(xs) && c in xs
    ensures xs[0].time <= c.time
  {}

  lemma PrependShape(x: Captured, f: seq<Captured>, interval: int)
    requires |f| > 0 && Chronological(f) && Spaced(f, interval)
    requires x.time <= f[0].time && f[0].time - x.time >= interval
    ensures Chronological([x] + f) && Spaced([x] + f, interval)
  {}

  /** The last accepted snapshot is a newest one of those offered so far. */
  lemma {:induction false} NewestAccepted(xs: seq<Captured>)
    ensures EndsNewest(Accepted(xs), xs)
  {
    if |xs| > 0 {
      var front, last := xs[..|xs| - 1], xs[|xs| - 1];
      NewestAccepted(front);
      NewestStep(front, last, xs, Accepted(front), Accepted(xs));
    }
  }

  ghost predicate EndsNewest(a: seq<Captured>, xs: seq<Captured>) {
    if |a| > 0 then NoneNewer(xs, a[|a| - 1]) && a[|a| - 1] in xs else |xs| == 0
  }

  lemma NewestStep(front: seq<Captured>, last: Captured, xs: seq<Captured>, a: seq<Captured>, grown: seq<Captured>)
    requires xs == front + [last] && EndsNewest(a, front)
    requires grown == if NoneNewer(front, last) then a + [last] else a
    ensures EndsNewest(grown, xs)
  {
    if NoneNewer(front, last) {
      assert xs[|front|] == last;
    } else {
      var i :| 0 <= i < |front| && front[i].time > last.time;
      assert front[i].time <= a[|a| - 1].time;
    }
  }

  lemma {:induction false} AcceptedChronological(xs: seq<Captured>)
    ensures Chronological(Accepted(xs))
  {
    if |xs| > 0 {
      var front, last := xs[..|xs| - 1], xs[|xs| - 1];
      AcceptedChronological(front);
      if NoneNewer(front, last) {
        NewestAccepted(front);
        ChronologicalAppend(Accepted(front), front, last);
      }
    }
  }

  lemma ChronologicalAppend(a: seq<Captured>, xs: seq<Captured>, c: Captured)
    requires Chronological(a) && NoneNewer(xs, c) && (|a| > 0 ==> a[|a| - 1] in xs)
    ensures Chronological(a + [c])
  {
    if |a| > 0 {
      var i :| 0 <= i < |xs| && xs[i] == a[|a| - 1];
      assert a[|a| - 1].time <= c.time;
      forall k | 0 <= k < |a| ensures a[k].time <= c.time { assert k < |a| - 1 ==> a[k].time <= a[|a| - 1].time; }
    }
  }

  lemma AcceptedStep(xs: seq<Captured>, c: Captured)
    ensures var a := Accepted(xs);
      Accepted(xs + [c]) == if |a| == 0 || a[|a| - 1].time <= c.time then a + [c] else a
  {
    AcceptedUnfold(xs, c);
    LastDecides(xs, c);
  }

  lemma LastDecides(xs: seq<Captured>, c: Captured)
    ensures var a := Accepted(xs); NoneNewer(xs, c) <==> |a| == 0 || a[|a| - 1].time <= c.time
  {
    NewestAccepted(xs);
    if |Accepted(xs)| > 0 { NewestDecides(xs, Accepted(xs)[|Accepted(xs)| - 1], c); }
  }

  lemma AcceptedUnfold(xs: seq<Captured>, c: Captured)
    ensures Accepted(xs + [c]) == if NoneNewer(xs, c) then Accepted(xs) + [c] else Accepted(xs)
  {
    assert (xs + [c])[..|xs|] == xs;
  }

  lemma NewestDecides(xs: seq<Captured>, newest: Captured, c: Captured)
    requires NoneNewer(xs, newest) && newest in xs
    ensures NoneNewer(xs, c) <==> newest.time <= c.time
  {
    var i :| 0 <= i < |xs| && xs[i] == newest;
  }

  // ------------------------------------------------------------ what a capture decides

  /** The session's row of greatest time, and among those of greatest id. */
  ghost predicate LatestRow(st: Store, s: SessionId, r: SnapshotRow) {
    && r in st.rows && r.snapshot.sessionId == s
    && forall x :: x in st.rows && x.snapshot.sessionId == s ==>
         x.snapshot.time < r.snapshot.time || (x.snapshot.time == r.snapshot.time && x.id <= r.id)
  }

  ghost predicate AnyNewer(st: Store, c: Captured) {
    exists r :: r in st.rows && r.snapshot.sessionId == c.sessionId && r.snapshot.time > c.time
  }

  ghost predicate AllSpaced(st: Store, c: Captured, interval: int) {
    forall r :: r in st.rows && r.snapshot.sessionId == c.sessionId ==> r.snapshot.time <= c.time && r.snapshot.time + interval <= c.time
  }

  /** What a live snapshot with rows comes to: it overwrites its session's latest row, comes too late, or is added. */
  ghost predicate Decides(st: Store, c: Captured, interval: int, o: Outcome) {
    && (o.Stale? <==> AnyNewer(st, c))
    && (o.Inserted? <==> AllSpaced(st, c, interval))
    && (o.Inserted? || o.Updated? || o.Stale?)
    && (o.Inserted? ==> o.id == st.nextId)
    && (o.Updated? ==> exists r :: LatestRow(st, c.sessionId, r) && r.id == o.id)
  }

  lemma LatestIsLatestRow(st: Store, s: SessionId)
    ensures Latest(st, s).None? <==> forall r :: r in st.rows ==> r.snapshot.sessionId != s
    ensures Latest(st, s).Some? ==> LatestRow(st, s, Latest(st, s).value)
  {
    var rows := RowsOf(st.rows, s);
    RowsOfMembers(st.rows, s);
    if |rows| > 0 {
      FirstMaxIsGreatest(NoLaterThan(), rows);
      assert rows[0] in rows;
      forall x | x in st.rows && x.snapshot.sessionId == s ensures NoLaterThan()(x, FirstMax(NoLaterThan(), rows)) { assert x in rows; }
    }
  }

  /** What a capture comes to, and what it stores, for every store and snapshot. */
  lemma CaptureMeaning(st: Store, offer: Option<Offer>, interval: int, o: Outcome)
    requires o == CaptureOutcome(st, offer, interval)
    ensures o.NotReady? <==> offer.None?
    ensures o.NotLive? <==> offer.Some? && !offer.value.live
    ensures o.Empty? <==> offer.Some? && offer.value.live && offer.value.snapshot.rowCount == 0
    ensures offer.Some? && offer.value.live && offer.value.snapshot.rowCount > 0 ==> Decides(st, offer.value.snapshot, interval, o)
    ensures Capture(st, offer, interval) ==
      if o.Inserted? then Insert(st, offer.value.snapshot, "ibkr")
      else if o.Updated? then Update(st, o.id, offer.value.snapshot, "ibkr")
      else st
  {
    if o.Inserted? || o.Updated? || o.Stale? { LatestIsLatestRow(st, offer.value.snapshot.sessionId); }
  }

  // ------------------------------------------------------------------- one capture

  lemma SessionRowsAscend(st: Store, s: SessionId)
    requires Agrees(st)
    ensures IdsAscend(RowsOf(st.rows, s))
  {
    FilterKeepsIds(InSession(s), st.rows);
  }

  /** With frames in chronological order, the latest is the one stored last. */
  lemma LatestIsLast(st: Store, s: SessionId)
    requires Agrees(st) && Chronological(Frames(st, s)) && |RowsOf(st.rows, s)| > 0
    ensures var rows := RowsOf(st.rows, s); Latest(st, s) == Some(rows[|rows| - 1])
  {
    var rows := RowsOf(st.rows, s);
    var n := |rows|;
    SessionRowsAscend(st, s);
    FirstMaxIsGreatest(NoLaterThan(), rows);
    var m := FirstMax(NoLaterThan(), rows);
    var i :| 0 <= i < n && rows[i] == m;
    assert rows[n - 1] in rows;
    assert NoLaterThan()(rows[n - 1], m);
    assert Frames(st, s)[i] == m.snapshot && Frames(st, s)[n - 1] == rows[n - 1].snapshot;
  }

  lemma InsertAddsFrame(st: Store, c: Captured, s: SessionId)
    ensures Frames(Insert(st, c, CAPTURE_SOURCE), s) == if c.sessionId == s then Frames(st, s) + [c] else Frames(st, s)
  {
    RowsOfAppend(st.rows, SnapshotRow(st.nextId, c), s);
  }

  /** Overwriting a session's last row replaces its last frame and touches no other session. */
  lemma UpdateReplacesLastFrame(st: Store, c: Captured, s: SessionId)
    requires Agrees(st) && |RowsOf(st.rows, c.sessionId)| > 0
    ensures var own := RowsOf(st.rows, c.sessionId);
      var after := Update(st, own[|own| - 1].id, c, CAPTURE_SOURCE);
      Frames(after, s) == if c.sessionId == s then Frames(st, s)[..|own| - 1] + [c] else Frames(st, s)
  {
    var own := RowsOf(st.rows, c.sessionId);
    var last := own[|own| - 1];
    RowsOfMembers(st.rows, c.sessionId);
    assert last in own;
    FindRowFinds(st.rows, last.id);
    forall r | r in st.rows && r.id == last.id ensures r == last { IdsAreUnique(st, r, last); }
    RowsOfRewrite(st.rows, last.id, c, s);
    SessionRowsAscend(st, c.sessionId);
  }

  lemma CaptureStep(st: Store, offer: Option<Offer>, interval: int, s: SessionId)
    requires Agrees(st) && Usable(offer) && Chronological(Frames(st, offer.value.snapshot.sessionId))
    ensures var c := offer.value.snapshot;
      Frames(Capture(st, offer, interval), s) == if c.sessionId == s then Push(Frames(st, s), c, interval) else Frames(st, s)
  {
    var c := offer.value.snapshot;
    OutcomeByLastFrame(st, offer, interval);
    match CaptureOutcome(st, offer, interval)
    case Inserted(_) => CaptureInserts(st, offer, interval, s);
    case Updated(_) => CaptureUpdates(st, offer, interval, s);
    case _ =>
  }

  lemma CaptureInserts(st: Store, offer: Option<Offer>, interval: int, s: SessionId)
    requires Usable(offer) && CaptureOutcome(st, offer, interval).Inserted?
    ensures var c := offer.value.snapshot;
      Frames(Capture(st, offer, interval), s) == if c.sessionId == s then Frames(st, s) + [c] else Frames(st, s)
  {
    InsertAddsFrame(st, offer.value.snapshot, s);
  }

  lemma CaptureUpdates(st: Store, offer: Option<Offer>, interval: int, s: SessionId)
    requires Agrees(st) && Usable(offer)
    requires var own := RowsOf(st.rows, offer.value.snapshot.sessionId);
      |own| > 0 && CaptureOutcome(st, offer, interval) == Updated(own[|own| - 1].id)
    ensures var c := offer.value.snapshot;
      Frames(Capture(st, offer, interval), s) ==
        if c.sessionId == s then Frames(st, s)[..|Frames(st, s)| - 1] + [c] else Frames(st, s)
  {
    UpdateReplacesLastFrame(st, offer.value.snapshot, s);
  }

  /** The recorder decides by the session's last frame. */
  lemma OutcomeByLastFrame(st: Store, offer: Option<Offer>, interval: int)
    requires Agrees(st) && Usable(offer) && Chronological(Frames(st, offer.value.snapshot.sessionId))
    ensures var c := offer.value.snapshot; var own := RowsOf(st.rows, c.sessionId); var n := |own| - 1;
      CaptureOutcome(st, offer, interval) ==
        if |own| == 0 then Inserted(st.nextId)
        else if c.time < own[n].snapshot.time then Stale
        else if c.time - own[n].snapshot.time >= interval then Inserted(st.nextId)
        else Updated(own[n].id)
  {
    if |RowsOf(st.rows, offer.value.snapshot.sessionId)| > 0 { LatestIsLast(st, offer.value.snapshot.sessionId); }
  }

  lemma CaptureAgrees(st: Store, offer: Option<Offer>, interval: int)
    requires Agrees(st)
    ensures Agrees(Capture(st, offer, interval))
  {
    if Usable(offer) {
      InsertAgrees(st, offer.value.snapshot, CAPTURE_SOURCE);
      match CaptureOutcome(st, offer, interval)
      case Updated(id) => UpdateAgrees(st, id, offer.value.snapshot, CAPTURE_SOURCE);
      case _ =>
    }
  }

  // ----------------------------------------------------------------------- the run

  ghost predicate Fresh(st: Store) { Agrees(st) && st.rows == [] }

  /**
    * After any run of captures over any sessions, each session's frames, in the order of
    * their ids, are the accepted snapshots whose successor came an interval later, and the last.
    */
  lemma {:induction false} StoredFramesAreCompacted(st: Store, offers: seq<Option<Offer>>, interval: int, s: SessionId)
    requires Fresh(st)
    ensures Agrees(CaptureAll(st, offers, interval))
    ensures Frames(CaptureAll(st, offers, interval), s) == Compact(Accepted(Offered(offers, s)), interval)
  {
    if |offers| > 0 {
      var front, last := offers[..|offers| - 1], offers[|offers| - 1];
      StoredFramesAreCompacted(st, front, interval, s);
      var mid := CaptureAll(st, front, interval);
      CaptureAgrees(mid, last, interval);
      if Usable(last) {
        var c := last.value.snapshot;
        StoredFramesAreCompacted(st, front, interval, c.sessionId);
        AcceptedChronological(Offered(front, c.sessionId));
        CompactShape(Accepted(Offered(front, c.sessionId)), interval);
        CaptureStep(mid, last, interval, s);
        if c.sessionId == s { AcceptedThenCompact(Offered(front, s), c, interval); }
      }
    }
  }

  lemma AcceptedThenCompact(xs: seq<Captured>, c: Captured, interval: int)
    ensures Compact(Accepted(xs + [c]), interval) == Push(Compact(Accepted(xs), interval), c, interval)
  {
    var a := Accepted(xs);
    AcceptedStep(xs, c);
    NewestAccepted(xs);
    if |a| == 0 || a[|a| - 1].time <= c.time {
      CompactPush(a, c, interval);
    } else {
      CompactPush(a, a[|a| - 1], interval);
    }
  }

  /**
    * Hence stored times never go back, neighbours are an interval apart, and the newest
    * usable snapshot offered is stored.
    */
  lemma StoredFramesAreSpaced(st: Store, offers: seq<Option<Offer>>, interval: int, s: SessionId)
    requires Fresh(st)
    ensures var f := Frames(CaptureAll(st, offers, interval), s);
      && Chronological(f) && Spaced(f, interval)
      && (|Offered(offers, s)| > 0 ==>
        |f| > 0 && NoneNewer(Offered(offers, s), f[|f| - 1]))
  {
    StoredFramesAreCompacted(st, offers, interval, s);
    var a := Accepted(Offered(offers, s));
    AcceptedChronological(Offered(offers, s));
    NewestAccepted(Offered(offers, s));
    CompactShape(a, interval);
    if |a| > 0 { CompactPush(a, a[|a| - 1], interval); }
  }

  // ------------------------------------------------------------------ the recorder

  class ReplayCaptureRecorder {
    const repository: ReplayRepository
    const interval: int

    constructor (repository: ReplayRepository, interval: int)
      ensures this.repository == repository && this.interval == interval
    {
      this.repository, this.interval := repository, interval;
    }

    method CaptureSnapshot(offer: Option<Offer>) returns (outcome: Outcome)
      modifies repository
      ensures outcome == CaptureOutcome(old(repository.Contents()), offer, interval)
      ensures repository.Contents() == Capture(old(repository.Contents()), offer, interval)
    {
      if offer.None? { return NotReady; }
      if !offer.value.live { return NotLive; }
      if offer.value.snapshot.rowCount == 0 { return Empty; }
      var c := offer.value.snapshot;
      var latest := Latest(Store(repository.sessions, repository.rows, repository.nextId), c.sessionId);
      if latest.None? {
        var id := repository.InsertSnapshot(c, CAPTURE_SOURCE);
        return Inserted(id);
      }
      var elapsed := c.time - latest.value.snapshot.time;
      if elapsed < 0 { return Stale; }
      if elapsed >= interval {
        var id := repository.InsertSnapshot(c, CAPTURE_SOURCE);
        return Inserted(id);
      }
      LatestIsStored(repository.Contents(), c.sessionId);
      var id := repository.UpdateSnapshot(latest.value.id, c, CAPTURE_SOURCE);
      return Updated(id);
    }

    /** Captures one snapshot for each live session, in session order. */
    method CaptureEach(offers: seq<Option<Offer>>) returns (outcomes: seq<Outcome>)
      modifies repository
      ensures |outcomes| == |offers|
      ensures repository.Contents() == CaptureAll(old(repository.Contents()), offers, interval)
      ensures forall i :: 0 <= i < |offers| ==>
        outcomes[i] == CaptureOutcome(CaptureAll(old(repository.Contents()), offers[..i], interval), offers[i], interval)
    {
      ghost var before := repository.Contents();
      outcomes := [];
      while |outcomes| < |offers|
        invariant |outcomes| <= |offers|
        invariant repository.Contents() == CaptureAll(before, offers[..|outcomes|], interval)
        invariant forall i :: 0 <= i < |outcomes| ==>
          outcomes[i] == CaptureOutcome(CaptureAll(before, offers[..i], interval), offers[i], interval)
      {
        var n := |outcomes|;
        assert offers[..n + 1][..n] == offers[..n];
        var outcome := CaptureSnapshot(offers[n]);
        outcomes := outcomes + [outcome];
      }
      assert offers[..|offers|] == offers;
    }
  }

  lemma LatestIsStored(st: Store, s: SessionId)
    requires Latest(st, s).Some?
    ensures FindRow(st.rows, Latest(st, s).value.id).Some?
  {
    RowsOfMembers(st.rows, s);
    FindRowFinds(st.rows, Latest(st, s).value.id);
  }
}
