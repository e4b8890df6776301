/**
  * The heatmap store (heatmap/repository.py): open-interest baselines, which lock at 09:25 New
  * York time, and snapshots with their five-minute buckets. The lock test and the bucketing of
  * a time are given functions; times are integers.
  */
module HeatmapStore {
  import opened Maybe

  // --------------------------------------------------------------------- baselines

  datatype BaselineKey = BaselineKey(marketDate: string, symbol: string, tradingClass: string, expiration: string, contractId: string)

  /** A record as it arrives: empty times are None. */
  datatype Record = Record(
    key: BaselineKey, right: string, strike: real, openInterest: int,
    observedAt: int, capturedAt: Option<int>, sourceTime: Option<int>, locked: bool)

  /** A normalized record, as stored. */
  datatype Baseline = Baseline(
    key: BaselineKey, right: string, strike: real, openInterest: int,
    observedAt: int, capturedAt: int, sourceTime: int, locked: bool)

  function Normalized(r: Record, isLockTime: int -> bool): Baseline {
    var captured := OrElse(r.capturedAt, OrElse(r.sourceTime, Some(r.observedAt))).value;
    var source := OrElse(r.sourceTime, OrElse(r.capturedAt, Some(r.observedAt))).value;
    Baseline(r.key, r.right, r.strike, r.openInterest, r.observedAt, captured, source, r.locked || isLockTime(source))
  }

  type Baselines = map<BaselineKey, Baseline>

  predicate ReplacesProvisional(existing: Baseline, incoming: Baseline) {
    incoming.locked || incoming.sourceTime >= existing.sourceTime
  }

  /** The in-memory rule. */
  function Upserted(m: Baselines, b: Baseline): (r: Baselines)
    ensures b.key in r
  {
    if b.key in m && m[b.key].locked then m
    else if b.key !in m || ReplacesProvisional(m[b.key], b) then m[b.key := b]
    else m
  }

  /** INSERT ... ON CONFLICT DO UPDATE ... WHERE ..., field by field. */
  function SqlUpserted(m: Baselines, b: Baseline): Baselines {
    if b.key !in m then m[b.key := b]
    else
      var kept := m[b.key];
      if !kept.locked && (b.locked || b.sourceTime >= kept.sourceTime)
      then m[b.key := kept.(right := b.right, strike := b.strike, openInterest := b.openInterest, observedAt := b.observedAt,
                           capturedAt := b.capturedAt, sourceTime := b.sourceTime, locked := b.locked)]
      else m
  }

  function UpsertAll(m: Baselines, bs: seq<Baseline>): Baselines {
    if |bs| == 0 then m else Upserted(UpsertAll(m, bs[..|bs| - 1]), bs[|bs| - 1])
  }

  function Held(m: Baselines, key: BaselineKey): Baseline
    requires key in m
  {
    m[key]
  }

  /** What each arrival's key holds right after it. */
  function StoredEach(m: Baselines, bs: seq<Baseline>): seq<Baseline> {
    if |bs| == 0 then [] else StoredEach(m, bs[..|bs| - 1]) + [Held(UpsertAll(m, bs), bs[|bs| - 1].key)]
  }

  lemma OneMore(m: Baselines, bs: seq<Baseline>, b: Baseline)
    ensures UpsertAll(m, bs + [b]) == Upserted(UpsertAll(m, bs), b)
    ensures StoredEach(m, bs + [b]) == StoredEach(m, bs) + [Held(Upserted(UpsertAll(m, bs), b), b.key)]
  {}

  function SqlUpsertAll(m: Baselines, bs: seq<Baseline>): Baselines {
    if |bs| == 0 then m else SqlUpserted(SqlUpsertAll(m, bs[..|bs| - 1]), bs[|bs| - 1])
  }

  /** Every stored record is under its own key. */
  ghost predicate Keyed(m: Baselines) { forall k :: k in m ==> m[k].key == k }

  /** The in-memory rule and the SQL rule leave the same table after every run. */
  lemma {:induction false} RulesAgree(m: Baselines, bs: seq<Baseline>)
    requires Keyed(m)
    ensures Keyed(UpsertAll(m, bs)) && UpsertAll(m, bs) == SqlUpsertAll(m, bs)
  {
    if |bs| > 0 {
      RulesAgree(m, bs[..|bs| - 1]);
      var before, b := UpsertAll(m, bs[..|bs| - 1]), bs[|bs| - 1];
      if b.key in before { assert before[b.key].key == b.key; }
    }
  }

  function ArrivalsOf(bs: seq<Baseline>, key: BaselineKey): seq<Baseline> {
    if |bs| == 0 then []
    else if bs[|bs| - 1].key == key then ArrivalsOf(bs[..|bs| - 1], key) + [bs[|bs| - 1]]
    else ArrivalsOf(bs[..|bs| - 1], key)
  }

  /** The first locked arrival, or when none is locked the latest of those with the greatest source time. */
  ghost predicate Winner(arrivals: seq<Baseline>, i: int) {
    && 0 <= i < |arrivals|
    && if exists j :: 0 <= j < |arrivals| && arrivals[j].locked
       then arrivals[i].locked && forall j :: 0 <= j < i ==> !arrivals[j].locked
       else forall j :: 0 <= j < |arrivals| ==>
              arrivals[j].sourceTime <= arrivals[i].sourceTime && (j > i ==> arrivals[j].sourceTime < arrivals[i].sourceTime)
  }

  lemma WinnerIsUnique(arrivals: seq<Baseline>, i: int, j: int)
    requires Winner(arrivals, i) && Winner(arrivals, j)
    ensures i == j
  {}

  lemma WinnerStep(arrivals: seq<Baseline>, i: int, b: Baseline)
    requires Winner(arrivals, i)
    ensures var grown := arrivals + [b];
      Winner(grown, if !arrivals[i].locked && ReplacesProvisional(arrivals[i], b) then |arrivals| else i)
  {}

  /** What a key holds after any run of arrivals. */
  lemma {:induction false} BaselineMeaning(bs: seq<Baseline>, key: BaselineKey)
    ensures var m, arrivals := UpsertAll(map[], bs), ArrivalsOf(bs, key);
      if |arrivals| == 0 then key !in m else key in m && exists i :: Winner(arrivals, i) && m[key] == arrivals[i]
  {
    if |bs| > 0 {
      var front, b := bs[..|bs| - 1], bs[|bs| - 1];
      BaselineMeaning(front, key);
      var arrivals := ArrivalsOf(front, key);
      if b.key == key {
        var grown := arrivals + [b];
        if |arrivals| == 0 {
          assert Winner(grown, 0) && UpsertAll(map[], bs)[key] == grown[0];
        } else {
          var i :| Winner(arrivals, i) && UpsertAll(map[], front)[key] == arrivals[i];
          WinnerStep(arrivals, i, b);
          var k := if !arrivals[i].locked && ReplacesProvisional(arrivals[i], b) then |arrivals| else i;
          assert Winner(grown, k) && UpsertAll(map[], bs)[key] == grown[k];
        }
      }
    }
  }

  /** A locked baseline never changes again. */
  lemma {:induction false} LockedIsFinal(m: Baselines, bs: seq<Baseline>, key: BaselineKey)
    requires key in m && m[key].locked
    ensures key in UpsertAll(m, bs) && UpsertAll(m, bs)[key] == m[key]
  {
    if |bs| > 0 { LockedIsFinal(m, bs[..|bs| - 1], key); }
  }

  // ---------------------------------------------------- baselines, record by record

  /** When a record was made: its source time, else its capture, else its observation. */
  function MadeAt(r: Record): int {
    match (r.sourceTime, r.capturedAt)
    case (Some(source), _) => source
    case (None, Some(captured)) => captured
    case (None, None) => r.observedAt
  }

  /** A record is locked by itself or by having been made at a lock time. */
  predicate LockedRecord(r: Record, isLockTime: int -> bool) { r.locked || isLockTime(MadeAt(r)) }

  predicate StoredAs(r: Record, b: Baseline, isLockTime: int -> bool) {
    && b.key == r.key && b.right == r.right && b.strike == r.strike && b.openInterest == r.openInterest
    && b.observedAt == r.observedAt && b.sourceTime == MadeAt(r)
    && b.capturedAt == (if r.capturedAt.Some? then r.capturedAt.value else MadeAt(r))
    && b.locked == LockedRecord(r, isLockTime)
  }

  /** The record a key is left with: its first locked one, or without one the latest of those made last. */
  ghost predicate Prevails(records: seq<Record>, key: BaselineKey, isLockTime: int -> bool, i: int) {
    && 0 <= i < |records| && records[i].key == key
    && if exists j :: 0 <= j < |records| && records[j].key == key && LockedRecord(records[j], isLockTime)
       then LockedRecord(records[i], isLockTime)
            && forall j :: 0 <= j < i && records[j].key == key ==> !LockedRecord(records[j], isLockTime)
       else forall j :: 0 <= j < |records| && records[j].key == key ==>
              MadeAt(records[j]) <= MadeAt(records[i]) && (j > i ==> MadeAt(records[j]) < MadeAt(records[i]))
  }

  /** A key without records is not there; another has the record that prevails. */
  ghost predicate LeftWith(records: seq<Record>, key: BaselineKey, isLockTime: int -> bool, m: Baselines) {
    if forall r :: r in records ==> r.key != key then key !in m
    else key in m && exists i :: Prevails(records, key, isLockTime, i) && StoredAs(records[i], m[key], isLockTime)
  }

  /** What any run of records leaves under a key. */
  lemma {:induction false} RecordsMeaning(records: seq<Record>, key: BaselineKey, isLockTime: int -> bool)
    ensures LeftWith(records, key, isLockTime, UpsertAll(map[], NormalizedAll(records, isLockTime)))
  {
    var all := NormalizedAll(records, isLockTime);
    if |records| == 0 {
      assert LeftWith(records, key, isLockTime, map[]);
    } else {
      var front, r := records[..|records| - 1], records[|records| - 1];
      RecordsMeaning(front, key, isLockTime);
      var before := UpsertAll(map[], NormalizedAll(front, isLockTime));
      assert all[..|all| - 1] == NormalizedAll(front, isLockTime) && all[|all| - 1] == Normalized(r, isLockTime);
      OneMoreRecord(front, r, records, key, isLockTime, before, UpsertAll(map[], all));
    }
  }

  lemma OneMoreRecord(front: seq<Record>, r: Record, records: seq<Record>, key: BaselineKey, isLockTime: int -> bool,
                      before: Baselines, after: Baselines)
    requires LeftWith(front, key, isLockTime, before)
    requires records == front + [r] && after == Upserted(before, Normalized(r, isLockTime))
    ensures LeftWith(records, key, isLockTime, after)
  {
    assert records[|front|] == r;
    if forall x :: x in front ==> x.key != key {
      if r.key == key { assert Prevails(records, key, isLockTime, |front|); }
    } else {
      var i :| Prevails(front, key, isLockTime, i) && StoredAs(front[i], before[key], isLockTime);
      PrevailsStep(front, r, key, isLockTime, i);
      assert records[i] == front[i] && front[i] in records;
      StoredStep(front[i], r, key, isLockTime, before);
    }
  }

  lemma StoredStep(held: Record, r: Record, key: BaselineKey, isLockTime: int -> bool, before: Baselines)
    requires key in before && StoredAs(held, before[key], isLockTime)
    ensures var replaced := r.key == key && !LockedRecord(held, isLockTime) && (LockedRecord(r, isLockTime) || MadeAt(held) <= MadeAt(r));
      StoredAs(if replaced then r else held, Upserted(before, Normalized(r, isLockTime))[key], isLockTime)
  {}

  lemma PrevailsStep(records: seq<Record>, r: Record, key: BaselineKey, isLockTime: int -> bool, i: int)
    requires Prevails(records, key, isLockTime, i)
    ensures var replaced := r.key == key && !LockedRecord(records[i], isLockTime)
                            && (LockedRecord(r, isLockTime) || MadeAt(records[i]) <= MadeAt(r));
      Prevails(records + [r], key, isLockTime, if replaced then |records| else i)
  {
    var grown := records + [r];
    assert forall j :: 0 <= j < |records| ==> grown[j] == records[j];
    if exists j :: 0 <= j < |records| && records[j].key == key && LockedRecord(records[j], isLockTime) {
      var j :| 0 <= j < |records| && records[j].key == key && LockedRecord(records[j], isLockTime);
      assert grown[j].key == key && LockedRecord(grown[j], isLockTime);
    } else if r.key == key && LockedRecord(r, isLockTime) {
      assert grown[|records|].key == key && LockedRecord(grown[|records|], isLockTime);
    }
  }

  // --------------------------------------------------------------------- snapshots

  datatype Payload = Payload(sessionId: string, syncedAt: int, mode: string, rowCount: nat, body: nat)

  datatype SnapshotKey = SnapshotKey(sessionId: string, time: int, mode: string)

  datatype Saved = Saved(id: nat, payload: Payload)

  datatype Snapshots = Snapshots(saved: map<SnapshotKey, Saved>, buckets: map<SnapshotKey, Saved>, nextId: nat)

  const NO_SNAPSHOTS: Snapshots := Snapshots(map[], map[], 1)

  function KeyOf(p: Payload): SnapshotKey { SnapshotKey(p.sessionId, p.syncedAt, p.mode) }

  function BucketOf(p: Payload, bucketStart: int -> int): SnapshotKey { SnapshotKey(p.sessionId, bucketStart(p.syncedAt), p.mode) }

  function IdFor(st: Snapshots, p: Payload): nat { if KeyOf(p) in st.saved then st.saved[KeyOf(p)].id else st.nextId }

  function Save(st: Snapshots, p: Payload, bucketStart: int -> int): Snapshots {
    var saved := Saved(IdFor(st, p), p);
    Snapshots(
      st.saved[KeyOf(p) := saved], st.buckets[BucketOf(p, bucketStart) := saved],
      if KeyOf(p) in st.saved then st.nextId else st.nextId + 1)
  }

  function SaveAll(st: Snapshots, ps: seq<Payload>, bucketStart: int -> int): Snapshots {
    if |ps| == 0 then st else Save(SaveAll(st, ps[..|ps| - 1], bucketStart), ps[|ps| - 1], bucketStart)
  }

  /** Ids are the numbers from 1 on, one for each key. */
  ghost predicate Numbered(saved: map<SnapshotKey, Saved>, nextId: nat) {
    && nextId == |saved| + 1
    && (forall k :: k in saved ==> 1 <= saved[k].id < nextId && KeyOf(saved[k].payload) == k)
    && (forall k, l :: k in saved && l in saved && saved[k].id == saved[l].id ==> k == l)
  }

  lemma SaveKeepsNumbered(st: Snapshots, p: Payload, bucketStart: int -> int)
    requires Numbered(st.saved, st.nextId)
    ensures Numbered(Save(st, p, bucketStart).saved, Save(st, p, bucketStart).nextId)
  {}

  /** Ids are unique, without gaps, and a key keeps its id through every run. */
  lemma {:induction false} IdsAreStable(st: Snapshots, ps: seq<Payload>, bucketStart: int -> int)
    requires Numbered(st.saved, st.nextId)
    ensures Numbered(SaveAll(st, ps, bucketStart).saved, SaveAll(st, ps, bucketStart).nextId)
    ensures forall k :: k in st.saved ==>
      k in SaveAll(st, ps, bucketStart).saved && SaveAll(st, ps, bucketStart).saved[k].id == st.saved[k].id
  {
    if |ps| > 0 {
      IdsAreStable(st, ps[..|ps| - 1], bucketStart);
      SaveKeepsNumbered(SaveAll(st, ps[..|ps| - 1], bucketStart), ps[|ps| - 1], bucketStart);
    }
  }

  function LastInto(ps: seq<Payload>, bucket: SnapshotKey, bucketStart: int -> int): Option<Payload> {
    if |ps| == 0 then None
    else if BucketOf(ps[|ps| - 1], bucketStart) == bucket then Some(ps[|ps| - 1])
    else LastInto(ps[..|ps| - 1], bucket, bucketStart)
  }

  /** Each bucket holds the last snapshot saved into it, with the id and payload that snapshot has now. */
  lemma {:induction false} BucketsHoldLastSnapshot(ps: seq<Payload>, bucket: SnapshotKey, bucketStart: int -> int)
    ensures var st, last := SaveAll(NO_SNAPSHOTS, ps, bucketStart), LastInto(ps, bucket, bucketStart);
      if last.None? then bucket !in st.buckets
      else
        && bucket in st.buckets && st.buckets[bucket].payload == last.value
        && KeyOf(last.value) in st.saved && st.saved[KeyOf(last.value)] == st.buckets[bucket]
        && BucketOf(last.value, bucketStart) == bucket
  {
    if |ps| > 0 { BucketsHoldLastSnapshot(ps[..|ps| - 1], bucket, bucketStart); }
  }

  // ------------------------------------------------------ snapshots, save by save

  /** The last payload of a session, time and mode. */
  ghost predicate LastSaved(ps: seq<Payload>, sid: string, time: int, mode: string, i: int) {
    && 0 <= i < |ps| && ps[i].sessionId == sid && ps[i].syncedAt == time && ps[i].mode == mode
    && forall j :: i < j < |ps| ==> !(ps[j].sessionId == sid && ps[j].syncedAt == time && ps[j].mode == mode)
  }

  /** The last payload of a session and mode whose time falls into the bucket. */
  ghost predicate LastInBucket(ps: seq<Payload>, sid: string, start: int, mode: string, bucketStart: int -> int, i: int) {
    && 0 <= i < |ps| && ps[i].sessionId == sid && bucketStart(ps[i].syncedAt) == start && ps[i].mode == mode
    && forall j :: i < j < |ps| ==> !(ps[j].sessionId == sid && bucketStart(ps[j].syncedAt) == start && ps[j].mode == mode)
  }

  /** Each session, time and mode has the payload saved for it last, and nothing else is saved. */
  lemma {:induction false} SavedAreLast(ps: seq<Payload>, sid: string, time: int, mode: string, bucketStart: int -> int)
    ensures var saved, k := SaveAll(NO_SNAPSHOTS, ps, bucketStart).saved, SnapshotKey(sid, time, mode);
      if k in saved then exists i :: LastSaved(ps, sid, time, mode, i) && saved[k].payload == ps[i]
      else forall i :: !LastSaved(ps, sid, time, mode, i)
  {
    if |ps| > 0 {
      var front, n := ps[..|ps| - 1], |ps| - 1;
      SavedAreLast(front, sid, time, mode, bucketStart);
      if KeyOf(ps[n]) == SnapshotKey(sid, time, mode) {
        assert LastSaved(ps, sid, time, mode, n);
      } else {
        assert forall i :: 0 <= i < n ==> front[i] == ps[i];
        assert forall i :: LastSaved(ps, sid, time, mode, i) <==> LastSaved(front, sid, time, mode, i);
      }
    }
  }

  /** Each bucket of a session and mode has the payload saved into it last, and there are no other buckets. */
  lemma {:induction false} BucketsAreLast(ps: seq<Payload>, sid: string, start: int, mode: string, bucketStart: int -> int)
    ensures var buckets, k := SaveAll(NO_SNAPSHOTS, ps, bucketStart).buckets, SnapshotKey(sid, start, mode);
      if k in buckets then exists i :: LastInBucket(ps, sid, start, mode, bucketStart, i) && buckets[k].payload == ps[i]
      else forall i :: !LastInBucket(ps, sid, start, mode, bucketStart, i)
  {
    if |ps| > 0 {
      var front, n := ps[..|ps| - 1], |ps| - 1;
      BucketsAreLast(front, sid, start, mode, bucketStart);
      if BucketOf(ps[n], bucketStart) == SnapshotKey(sid, start, mode) {
        assert LastInBucket(ps, sid, start, mode, bucketStart, n);
      } else {
        assert forall i :: 0 <= i < n ==> front[i] == ps[i];
        assert forall i :: LastInBucket(ps, sid, start, mode, bucketStart, i) <==> LastInBucket(front, sid, start, mode, bucketStart, i);
      }
    }
  }

  // ---------------------------------------------------------------- the repository

  class InMemoryHeatmapRepository {
    var baselines: Baselines
    var saved: map<SnapshotKey, Saved>
    var buckets: map<SnapshotKey, Saved>
    var nextId: nat
    const isLockTime: int -> bool
    const bucketStart: int -> int

    ghost function Contents(): Snapshots
      reads this
    {
      Snapshots(saved, buckets, nextId)
    }

    constructor (isLockTime: int -> bool, bucketStart: int -> int)
      ensures this.isLockTime == isLockTime && this.bucketStart == bucketStart
      ensures baselines == map[] && Contents() == NO_SNAPSHOTS
    {
      this.isLockTime, this.bucketStart := isLockTime, bucketStart;
      baselines, saved, buckets, nextId := map[], map[], map[], 1;
    }

    method UpsertBaseline(record: Record) returns (stored: Baseline)
      modifies this`baselines
      ensures baselines == Upserted(old(baselines), Normalized(record, isLockTime))
      ensures stored == Held(baselines, record.key)
    {
      var b := Normalized(record, isLockTime);
      if b.key in baselines && baselines[b.key].locked {
        return baselines[b.key];
      }
      if b.key !in baselines || ReplacesProvisional(baselines[b.key], b) {
        baselines := baselines[b.key := b];
      }
      return baselines[b.key];
    }

    /** Upserts records in order; each result is what its key held right after it. */
    method UpsertBaselines(records: seq<Record>) returns (stored: seq<Baseline>)
      modifies this`baselines
      ensures baselines == UpsertAll(old(baselines), NormalizedAll(records, isLockTime))
      ensures stored == StoredEach(old(baselines), NormalizedAll(records, isLockTime))
    {
      ghost var start := baselines;
      stored := [];
      for i := 0 to |records|
        invariant baselines == UpsertAll(start, NormalizedAll(records[..i], isLockTime))
        invariant stored == StoredEach(start, NormalizedAll(records[..i], isLockTime))
      {
        assert records[..i + 1] == records[..i] + [records[i]];
        ghost var before := NormalizedAll(records[..i], isLockTime);
        NormalizedAllAppend(records[..i], records[i], isLockTime);
        OneMore(start, before, Normalized(records[i], isLockTime));
        var held := UpsertBaseline(records[i]);
        stored := stored + [held];
      }
      assert records[..|records|] == records;
    }

    method UpsertSnapshot(p: Payload) returns (id: nat)
      modifies this`saved, this`buckets, this`nextId
      ensures Contents() == Save(old(Contents()), p, bucketStart) && id == IdFor(old(Contents()), p)
    {
      var key := KeyOf(p);
      if key in saved {
        id := saved[key].id;
      } else {
        id := nextId;
        nextId := nextId + 1;
      }
      saved := saved[key := Saved(id, p)];
      buckets := buckets[BucketOf(p, bucketStart) := Saved(id, p)];
    }

    method LatestBucket(bucket: SnapshotKey) returns (r: Option<Saved>)
      ensures r == if bucket in buckets then Some(buckets[bucket]) else None
    {
      r := if bucket in buckets then Some(buckets[bucket]) else None;
    }
  }

  function NormalizedAll(records: seq<Record>, isLockTime: int -> bool): (r: seq<Baseline>)
    ensures |r| == |records|
  {
    if |records| == 0 then [] else NormalizedAll(records[..|records| - 1], isLockTime) + [Normalized(records[|records| - 1], isLockTime)]
  }

  lemma NormalizedAllAppend(records: seq<Record>, r: Record, isLockTime: int -> bool)
    ensures NormalizedAll(records + [r], isLockTime) == NormalizedAll(records, isLockTime) + [Normalized(r, isLockTime)]
  {}
}
