/**
  * The snapshot cache (ingestion/live_snapshot_service.py) over one collector history. A
  * cached snapshot is returned whenever the collector's identity is the one it was built
  * under. Builds change the shared carry-forward memory, so that a hit agrees with a
  * rebuild needs three facts: identities name states, builds are fixed points, and builds
  * of one session leave the other sessions' memory alone.
  */
module LiveSnapshotCache {
  import opened Maybe
  import opened OrderedTable
  import opened OptionRights
  import opened ImpliedVolatility
  import opened CollectorModel
  import opened LiveSnapshot
  import Sorting

  const DASHBOARD_KEY: string := "__dashboard__"

  datatype Query = Dashboard | Session(id: SessionId)

  function KeyOf(q: Query): string { if q.Dashboard? then DASHBOARD_KEY else q.id }

  function Rebuild(k: Kernel, st: State, q: Query, m: Memory): Built {
    if q.Dashboard? then DashboardBuild(k, st, m) else Build(k, st, Some(q.id), m)
  }

  datatype Identity = Identity(
    epoch: nat, revision: nat, lastEventTime: Option<int>,
    healthCount: nat, contractCount: nat, underlyingCount: nat, tickCount: nat)

  function IdentityOf(st: State): Identity {
    Identity(st.epoch, st.revision, st.lastEventTime, |st.health|, |st.contracts|, |st.underlying|, |st.ticks|)
  }

  datatype CachedSnapshot = CachedSnapshot(identity: Identity, snapshot: Option<Snapshot>)

  /** Collector, carry-forward memory, cache, and the epochs drawn so far (uuids never repeat). */
  datatype System = System(state: State, memory: Memory, cache: map<string, CachedSnapshot>, usedEpochs: set<nat>)

  datatype Event =
    | Ingest(event: CollectorEvent)
    | Clear(freshEpoch: nat)
    | Ask(query: Query)
    | Capture(order: seq<SessionId>)

  predicate Hit(sys: System, q: Query) {
    KeyOf(q) in sys.cache && sys.cache[KeyOf(q)].identity == IdentityOf(sys.state)
  }

  function Answer(k: Kernel, sys: System, q: Query): Option<Snapshot> {
    if Hit(sys, q) then sys.cache[KeyOf(q)].snapshot else Rebuild(k, sys.state, q, sys.memory).snapshot
  }

  function Asked(k: Kernel, sys: System, q: Query): System {
    if Hit(sys, q) then sys
    else
      var built := Rebuild(k, sys.state, q, sys.memory);
      sys.(memory := built.memory, cache := sys.cache[KeyOf(q) := CachedSnapshot(IdentityOf(sys.state), built.snapshot)])
  }

  /** The builds a capture makes: one per session in the given order, or one unrestricted build. */
  function Captured(k: Kernel, st: State, order: seq<SessionId>, m: Memory): Memory {
    if |st.underlying| == 0 then Build(k, st, None, m).memory else CapturedSessions(k, st, order, m)
  }

  function CapturedSessions(k: Kernel, st: State, order: seq<SessionId>, m: Memory): Memory {
    if |order| == 0 then m else CapturedSessions(k, st, order[1..], Build(k, st, Some(order[0]), m).memory)
  }

  function Step(k: Kernel, sys: System, e: Event): System {
    match e
    case Ingest(event) => sys.(state := Ingested(sys.state, event))
    case Clear(epoch) => sys.(state := Cleared(epoch), usedEpochs := sys.usedEpochs + {epoch})
    case Ask(q) => Asked(k, sys, q)
    case Capture(order) => sys.(memory := Captured(k, sys.state, order, sys.memory))
  }

  /** Clears draw an unused epoch and captures visit every session once. */
  ghost predicate Possible(sys: System, e: Event) {
    match e
    case Ingest(_) => true
    case Clear(epoch) => epoch !in sys.usedEpochs
    case Ask(_) => true
    case Capture(order) => multiset(order) == multiset(KeySet(sys.state.underlying))
  }

  function Start(epoch: nat, m: Memory): System { System(Cleared(epoch), m, map[], {epoch}) }

  function Run(k: Kernel, start: System, events: seq<Event>): System {
    if |events| == 0 then start else Step(k, Run(k, start, events[..|events| - 1]), events[|events| - 1])
  }

  /** The query whose rebuild filled each cache entry: two queries can share a key. */
  function Writers(k: Kernel, start: System, events: seq<Event>): map<string, Query> {
    if |events| == 0 then map[]
    else
      var before, last := events[..|events| - 1], events[|events| - 1];
      Wrote(Run(k, start, before), last, Writers(k, start, before))
  }

  function Wrote(sys: System, e: Event, writers: map<string, Query>): map<string, Query> {
    if e.Ask? && !Hit(sys, e.query) then writers[KeyOf(e.query) := e.query] else writers
  }

  ghost predicate PossibleRun(k: Kernel, start: System, events: seq<Event>) {
    forall i :: 0 <= i < |events| ==> Possible(Run(k, start, events[..i]), events[i])
  }

  lemma PossiblePrefix(k: Kernel, start: System, events: seq<Event>, n: nat)
    requires n <= |events| && PossibleRun(k, start, events)
    ensures PossibleRun(k, start, events[..n])
  {
    forall i | 0 <= i < n ensures Possible(Run(k, start, events[..n][..i]), events[..n][i]) {
      assert events[..n][..i] == events[..i];
    }
  }

  // -------------------------------------------------------- a query's frame

  function FrameOf(k: Kernel, st: State, q: Query): Option<Frame> {
    if q.Session? then BuildFrame(k, st, Some(q.id))
    else OrElse(BuildFrame(k, st, Some(SPX_DASHBOARD_SESSION_ID)), BuildFrame(k, st, None))
  }

  lemma RebuildFinishesFrame(k: Kernel, st: State, q: Query, m: Memory)
    ensures Rebuild(k, st, q, m) == FinishAny(FrameOf(k, st, q), m)
  {}

  /** In one state, a session has one frame however it was asked for. */
  lemma OneFramePerSession(k: Kernel, st: State, requested: Option<SessionId>)
    requires WellKeyed(st) && BuildFrame(k, st, requested).Some?
    ensures BuildFrame(k, st, requested) == BuildFrame(k, st, Some(BuildFrame(k, st, requested).value.sessionId))
  {
    var u := LatestUnderlying(st, requested).value;
    assert BuildFrame(k, st, requested).value.sessionId == u.sessionId;
    if requested.None? {
      LatestIsItsSessionsTick(st);
    } else {
      FindMember(st.underlying, requested.value);
      assert Entry(requested.value, u) in st.underlying;
    }
  }

  lemma FrameOfSession(k: Kernel, st: State, q: Query)
    requires WellKeyed(st) && FrameOf(k, st, q).Some?
    ensures FrameOf(k, st, q) == BuildFrame(k, st, Some(FrameOf(k, st, q).value.sessionId))
    ensures DistinctRows(FrameOf(k, st, q).value.raws)
  {
    var requested := if q.Session? then Some(q.id)
                     else if BuildFrame(k, st, Some(SPX_DASHBOARD_SESSION_ID)).Some? then Some(SPX_DASHBOARD_SESSION_ID)
                     else None;
    OneFramePerSession(k, st, requested);
    FrameRowsDistinct(k, st, requested);
  }

  // ------------------------------------------ builds keep each other's results

  /** Building any frame of the state leaves a memory in which a settled frame is still settled. */
  lemma BuildKeepsSettled(k: Kernel, st: State, f: Frame, requested: Option<SessionId>, m: Memory)
    requires WellKeyed(st) && BuildFrame(k, st, Some(f.sessionId)) == Some(f) && DistinctRows(f.raws)
    requires Finish(f, m).1 == m
    ensures var m' := Build(k, st, requested, m).memory; Finish(f, m') == (Finish(f, m).0, m')
  {
    var g := BuildFrame(k, st, requested);
    if g.Some? {
      OneFramePerSession(k, st, requested);
      FrameRowsDistinct(k, st, requested);
      var m' := Finish(g.value, m).1;
      if g.value.sessionId != f.sessionId {
        forall key: MemoryKey ensures key.0 != g.value.sessionId ==> Lookup(m', key) == Lookup(m, key) {
          FinishMemory(g.value, m, key);
        }
        FinishReadsOwnSession(f, m', m);
        var m'' := Finish(f, m').1;
        forall key: MemoryKey ensures Lookup(m'', key) == Lookup(m', key) {
          if key.0 == f.sessionId {
            assert key == (f.sessionId, key.1);
            assert Lookup(m'', (f.sessionId, key.1)) == Lookup(m, (f.sessionId, key.1));
          } else {
            FinishMemory(f, m', key);
          }
        }
        SameLookupsSameMemory(m'', m');
      }
    }
  }

  ghost predicate Settled(k: Kernel, st: State, q: Query, m: Memory, snapshot: Option<Snapshot>) {
    Rebuild(k, st, q, m) == Built(snapshot, m)
  }

  lemma BuildKeepsQuerySettled(k: Kernel, st: State, q: Query, requested: Option<SessionId>, m: Memory, s: Option<Snapshot>)
    requires WellKeyed(st) && Settled(k, st, q, m, s)
    ensures Settled(k, st, q, Build(k, st, requested, m).memory, s)
  {
    RebuildFinishesFrame(k, st, q, m);
    RebuildFinishesFrame(k, st, q, Build(k, st, requested, m).memory);
    if FrameOf(k, st, q).Some? {
      FrameOfSession(k, st, q);
      BuildKeepsSettled(k, st, FrameOf(k, st, q).value, requested, m);
    }
  }

  lemma RebuildKeepsQuerySettled(k: Kernel, st: State, q: Query, other: Query, m: Memory, s: Option<Snapshot>)
    requires WellKeyed(st) && Settled(k, st, q, m, s)
    ensures Settled(k, st, q, Rebuild(k, st, other, m).memory, s)
  {
    if other.Session? {
      BuildKeepsQuerySettled(k, st, q, Some(other.id), m, s);
    } else {
      BuildKeepsQuerySettled(k, st, q, Some(SPX_DASHBOARD_SESSION_ID), m, s);
      BuildKeepsQuerySettled(k, st, q, None, Build(k, st, Some(SPX_DASHBOARD_SESSION_ID), m).memory, s);
    }
  }

  lemma {:induction false} CaptureKeepsQuerySettled(k: Kernel, st: State, q: Query, order: seq<SessionId>, m: Memory, s: Option<Snapshot>)
    requires WellKeyed(st) && Settled(k, st, q, m, s)
    ensures Settled(k, st, q, CapturedSessions(k, st, order, m), s)
  {
    if |order| > 0 {
      BuildKeepsQuerySettled(k, st, q, Some(order[0]), m, s);
      CaptureKeepsQuerySettled(k, st, q, order[1..], Build(k, st, Some(order[0]), m).memory, s);
    }
  }

  /** Right after its own rebuild a query is settled with the snapshot just built. */
  lemma RebuildSettles(k: Kernel, st: State, q: Query, m: Memory)
    requires WellKeyed(st)
    ensures Settled(k, st, q, Rebuild(k, st, q, m).memory, Rebuild(k, st, q, m).snapshot)
  {
    RebuildFinishesFrame(k, st, q, m);
    RebuildFinishesFrame(k, st, q, Rebuild(k, st, q, m).memory);
    if FrameOf(k, st, q).Some? {
      FrameOfSession(k, st, q);
      FinishIsFixedPoint(FrameOf(k, st, q).value, m);
    }
  }

  // ---------------------------------------------------------- the run invariant

  /** Entries stem from the past; one built under the current identity is settled for its writer. */
  ghost predicate Consistent(k: Kernel, sys: System, writers: map<string, Query>) {
    && WellKeyed(sys.state)
    && sys.state.epoch in sys.usedEpochs
    && forall key :: key in sys.cache ==>
         && key in writers && KeyOf(writers[key]) == key
         && sys.cache[key].identity.epoch in sys.usedEpochs
         && (sys.cache[key].identity.epoch == sys.state.epoch ==> sys.cache[key].identity.revision <= sys.state.revision)
         && (sys.cache[key].identity == IdentityOf(sys.state) ==>
               Settled(k, sys.state, writers[key], sys.memory, sys.cache[key].snapshot))
  }

  lemma StepKeepsConsistent(k: Kernel, sys: System, writers: map<string, Query>, e: Event)
    requires Consistent(k, sys, writers) && Possible(sys, e)
    ensures Consistent(k, Step(k, sys, e), Wrote(sys, e, writers))
  {
    match e
    case Ingest(event) => IngestKeepsWellKeyed(sys.state, event);
    case Clear(epoch) =>
    case Ask(q) => AskKeepsConsistent(k, sys, writers, q);
    case Capture(order) => CaptureKeepsConsistent(k, sys, writers, order);
  }

  lemma CaptureKeepsConsistent(k: Kernel, sys: System, writers: map<string, Query>, order: seq<SessionId>)
    requires Consistent(k, sys, writers)
    ensures Consistent(k, sys.(memory := Captured(k, sys.state, order, sys.memory)), writers)
  {
    var m := Captured(k, sys.state, order, sys.memory);
    forall key | key in sys.cache && sys.cache[key].identity == IdentityOf(sys.state)
      ensures Settled(k, sys.state, writers[key], m, sys.cache[key].snapshot)
    {
      CapturedKeepsSettled(k, sys, writers, key, order);
    }
  }

  lemma AskKeepsConsistent(k: Kernel, sys: System, writers: map<string, Query>, q: Query)
    requires Consistent(k, sys, writers)
    ensures Consistent(k, Asked(k, sys, q), Wrote(sys, Ask(q), writers))
  {
    if !Hit(sys, q) {
      var m := Rebuild(k, sys.state, q, sys.memory).memory;
      RebuildSettles(k, sys.state, q, sys.memory);
      forall key | key in sys.cache && key != KeyOf(q) && sys.cache[key].identity == IdentityOf(sys.state)
        ensures Settled(k, sys.state, writers[key], m, sys.cache[key].snapshot)
      {
        RebuildKeepsQuerySettled(k, sys.state, writers[key], q, sys.memory, sys.cache[key].snapshot);
      }
    }
  }

  lemma CapturedKeepsSettled(k: Kernel, sys: System, writers: map<string, Query>, key: string, order: seq<SessionId>)
    requires Consistent(k, sys, writers) && key in sys.cache && sys.cache[key].identity == IdentityOf(sys.state)
    ensures Settled(k, sys.state, writers[key], Captured(k, sys.state, order, sys.memory), sys.cache[key].snapshot)
  {
    if |sys.state.underlying| == 0 {
      BuildKeepsQuerySettled(k, sys.state, writers[key], None, sys.memory, sys.cache[key].snapshot);
    } else {
      CaptureKeepsQuerySettled(k, sys.state, writers[key], order, sys.memory, sys.cache[key].snapshot);
    }
  }

  lemma {:induction false} RunKeepsConsistent(k: Kernel, epoch: nat, m: Memory, events: seq<Event>)
    requires PossibleRun(k, Start(epoch, m), events)
    ensures Consistent(k, Run(k, Start(epoch, m), events), Writers(k, Start(epoch, m), events))
  {
    if |events| > 0 {
      var before, last := events[..|events| - 1], events[|events| - 1];
      PossiblePrefix(k, Start(epoch, m), events, |events| - 1);
      RunKeepsConsistent(k, epoch, m, before);
      assert last == events[..][|events| - 1];
      StepKeepsConsistent(k, Run(k, Start(epoch, m), before), Writers(k, Start(epoch, m), before), last);
    }
  }

  // ------------------------------------------------------ when the cache answers

  predicate Changes(e: Event) { e.Ingest? || e.Clear? }

  /** The key was asked for, and the collector has not changed since. */
  ghost predicate AskedSinceChange(events: seq<Event>, key: string) {
    exists i :: AskedAt(events, key, i)
  }

  ghost predicate AskedAt(events: seq<Event>, key: string, i: int) {
    0 <= i < |events| && events[i].Ask? && KeyOf(events[i].query) == key && forall j :: i < j < |events| ==> !Changes(events[j])
  }

  lemma AskedStep(front: seq<Event>, last: Event, events: seq<Event>, key: string)
    requires events == front + [last]
    ensures AskedSinceChange(events, key) <==> (last.Ask? && KeyOf(last.query) == key) || (!Changes(last) && AskedSinceChange(front, key))
  {
    if last.Ask? && KeyOf(last.query) == key {
      assert AskedAt(events, key, |front|);
    } else if AskedSinceChange(events, key) {
      var i :| AskedAt(events, key, i);
      assert events[|front|] == last && i < |front|;
      forall j | i < j < |front| ensures !Changes(front[j]) { assert front[j] == events[j]; }
      assert AskedAt(front, key, i);
    } else if !Changes(last) && AskedSinceChange(front, key) {
      var i :| AskedAt(front, key, i);
      assert AskedAt(events, key, i);
    }
  }

  /** An event makes a key hit by asking for it, and makes every key miss by changing the collector. */
  lemma StepHits(k: Kernel, sys: System, writers: map<string, Query>, e: Event, q: Query)
    requires Consistent(k, sys, writers) && Possible(sys, e)
    ensures Hit(Step(k, sys, e), q) <==> (e.Ask? && KeyOf(e.query) == KeyOf(q)) || (!Changes(e) && Hit(sys, q))
  {}

  lemma LastPossible(k: Kernel, start: System, events: seq<Event>, front: seq<Event>, last: Event)
    requires events == front + [last] && PossibleRun(k, start, events)
    ensures PossibleRun(k, start, front) && Possible(Run(k, start, front), last)
    ensures Run(k, start, events) == Step(k, Run(k, start, front), last)
  {
    PossiblePrefix(k, start, events, |front|);
    assert events[..|front|] == front && events[|front|] == last;
  }

  /** In every run a query is answered from the cache exactly when its key was asked for since the collector last changed. */
  lemma {:induction false} HitIff(k: Kernel, epoch: nat, m: Memory, events: seq<Event>, q: Query)
    requires PossibleRun(k, Start(epoch, m), events)
    ensures Hit(Run(k, Start(epoch, m), events), q) <==> AskedSinceChange(events, KeyOf(q))
  {
    if |events| > 0 {
      var start, front, last := Start(epoch, m), events[..|events| - 1], events[|events| - 1];
      LastPossible(k, start, events, front, last);
      HitIff(k, epoch, m, front, q);
      RunKeepsConsistent(k, epoch, m, front);
      OneMoreHit(k, Run(k, start, front), Writers(k, start, front), front, last, events, q, Run(k, start, events));
    }
  }

  lemma OneMoreHit(k: Kernel, sys: System, writers: map<string, Query>, front: seq<Event>, last: Event, events: seq<Event>,
                   q: Query, next: System)
    requires Consistent(k, sys, writers) && Possible(sys, last) && next == Step(k, sys, last) && events == front + [last]
    requires Hit(sys, q) <==> AskedSinceChange(front, KeyOf(q))
    ensures Hit(next, q) <==> AskedSinceChange(events, KeyOf(q))
  {
    StepHits(k, sys, writers, last, q);
    AskedStep(front, last, events, KeyOf(q));
  }

  /** After a capture every session it visits is settled: a rebuild shows what the capture stored and changes nothing. */
  lemma {:induction false} CaptureSettles(k: Kernel, st: State, order: seq<SessionId>, m: Memory, sid: SessionId)
    requires WellKeyed(st) && |st.underlying| > 0 && sid in order
    ensures exists s :: Settled(k, st, Session(sid), Captured(k, st, order, m), s)
  {
    var after := Build(k, st, Some(order[0]), m).memory;
    assert Captured(k, st, order, m) == CapturedSessions(k, st, order[1..], after);
    if sid == order[0] {
      var s := Rebuild(k, st, Session(sid), m).snapshot;
      RebuildSettles(k, st, Session(sid), m);
      CaptureKeepsQuerySettled(k, st, Session(sid), order[1..], after, s);
      assert Settled(k, st, Session(sid), Captured(k, st, order, m), s);
    } else {
      CaptureSettles(k, st, order[1..], after, sid);
    }
  }

  /** A query is answered as rebuilding would answer it, and on a hit that rebuild would change nothing. */
  ghost predicate Transparent(k: Kernel, sys: System, q: Query) {
    && Answer(k, sys, q) == Rebuild(k, sys.state, q, sys.memory).snapshot
    && (Hit(sys, q) ==> Rebuild(k, sys.state, q, sys.memory).memory == sys.memory)
  }

  /** A hit on an entry of another query is transparent exactly when both have the same frame now. */
  lemma HitTransparentIff(k: Kernel, sys: System, writers: map<string, Query>, q: Query)
    requires Consistent(k, sys, writers) && Hit(sys, q)
    ensures Transparent(k, sys, q) <==> FrameOf(k, sys.state, writers[KeyOf(q)]) == FrameOf(k, sys.state, q)
  {
    var w := writers[KeyOf(q)];
    RebuildFinishesFrame(k, sys.state, q, sys.memory);
    RebuildFinishesFrame(k, sys.state, w, sys.memory);
    if FrameOf(k, sys.state, q).Some? { FrameOfSession(k, sys.state, q); }
    if FrameOf(k, sys.state, w).Some? { FrameOfSession(k, sys.state, w); }
  }

  /**
    * Cache transparency: after any run of ingests, clears, captures and queries of any keys, the
    * answer to a query of any session but the one named like the dashboard's key is what
    * rebuilding from the current state and memory gives, and on a hit that rebuild would leave
    * the memory as it is.
    */
  lemma CacheTransparent(k: Kernel, epoch: nat, m: Memory, events: seq<Event>, q: Query)
    requires PossibleRun(k, Start(epoch, m), events) && KeyOf(q) != DASHBOARD_KEY
    ensures Transparent(k, Run(k, Start(epoch, m), events), q)
  {
    var sys, writers := Run(k, Start(epoch, m), events), Writers(k, Start(epoch, m), events);
    RunKeepsConsistent(k, epoch, m, events);
    if Hit(sys, q) {
      assert writers[KeyOf(q)] == q;
      HitTransparentIff(k, sys, writers, q);
    }
  }

  // ------------------------------------------------------- identities name states

  /** `late` comes at or after `early` in one run. */
  ghost predicate NotBefore(early: System, late: System) {
    && early.usedEpochs <= late.usedEpochs
    && early.state.epoch in early.usedEpochs
    && late.state.epoch in late.usedEpochs
    && (late.state.epoch in early.usedEpochs ==> late.state.epoch == early.state.epoch)
    && (late.state.epoch == early.state.epoch ==>
          && early.state.revision <= late.state.revision
          && (early.state.revision == late.state.revision ==> early.state == late.state))
  }

  lemma StepAdvances(k: Kernel, early: System, late: System, e: Event)
    requires NotBefore(early, late) && Possible(late, e)
    ensures NotBefore(early, Step(k, late, e))
  {}

  lemma {:induction false} RunAdvances(k: Kernel, start: System, events: seq<Event>, n: nat)
    requires n <= |events| && PossibleRun(k, start, events)
    requires start.state.epoch in start.usedEpochs
    ensures NotBefore(Run(k, start, events[..n]), Run(k, start, events))
    decreases |events|
  {
    if |events| == 0 {
    } else {
      var last := |events| - 1;
      var init := events[..last];
      PossiblePrefix(k, start, events, last);
      if n == |events| {
        RunAdvances(k, start, init, last);
        assert init[..last] == init;
        StepAdvances(k, Run(k, start, init), Run(k, start, init), events[last]);
        assert events[..n] == events;
      } else {
        RunAdvances(k, start, init, n);
        assert init[..n] == events[..n];
        StepAdvances(k, Run(k, start, events[..n]), Run(k, start, init), events[last]);
      }
    }
  }

  /** Two points of a run with the same identity have the same collector contents. */
  lemma SameIdentitySameState(k: Kernel, epoch: nat, m: Memory, events: seq<Event>, i: nat, j: nat)
    requires i <= j <= |events| && PossibleRun(k, Start(epoch, m), events)
    requires IdentityOf(Run(k, Start(epoch, m), events[..i]).state) == IdentityOf(Run(k, Start(epoch, m), events[..j]).state)
    ensures Run(k, Start(epoch, m), events[..i]).state == Run(k, Start(epoch, m), events[..j]).state
  {
    PossiblePrefix(k, Start(epoch, m), events, j);
    assert events[..j][..i] == events[..i];
    RunAdvances(k, Start(epoch, m), events[..j], i);
  }

  // ------------------------------------------------------------ the reserved key

  /** Asked alone, a query of the shared key is transparent too: nobody else writes its entry. */
  lemma SharedKeyAloneTransparent(k: Kernel, epoch: nat, m: Memory, events: seq<Event>, q: Query)
    requires PossibleRun(k, Start(epoch, m), events)
    requires forall i :: 0 <= i < |events| && events[i].Ask? && KeyOf(events[i].query) == KeyOf(q) ==> events[i].query == q
    ensures Transparent(k, Run(k, Start(epoch, m), events), q)
  {
    var sys, writers := Run(k, Start(epoch, m), events), Writers(k, Start(epoch, m), events);
    RunKeepsConsistent(k, epoch, m, events);
    if Hit(sys, q) {
      WriterAsked(k, Start(epoch, m), events, KeyOf(q));
      HitTransparentIff(k, sys, writers, q);
    }
  }

  lemma {:induction false} WriterAsked(k: Kernel, start: System, events: seq<Event>, key: string)
    requires key in Writers(k, start, events)
    ensures exists i :: 0 <= i < |events| && events[i] == Ask(Writers(k, start, events)[key]) && KeyOf(events[i].query) == key
  {
    var last := |events| - 1;
    if events[last].Ask? && KeyOf(events[last].query) == key && !Hit(Run(k, start, events[..last]), events[last].query) {
      assert events[last] == Ask(Writers(k, start, events)[key]);
    } else {
      WriterAsked(k, start, events[..last], key);
      var i :| 0 <= i < last && events[..last][i] == Ask(Writers(k, start, events[..last])[key]) && KeyOf(events[..last][i].query) == key;
      assert events[i] == Ask(Writers(k, start, events)[key]);
    }
  }

  /** The dashboard would show the reserved session, or neither has anything to show. */
  ghost predicate ShowSame(k: Kernel, st: State) {
    var shown := FrameOf(k, st, Dashboard);
    if shown.Some? then shown.value.sessionId == DASHBOARD_KEY else FrameOf(k, st, Session(DASHBOARD_KEY)).None?
  }

  lemma SameFrameIff(k: Kernel, st: State)
    requires WellKeyed(st)
    ensures FrameOf(k, st, Dashboard) == FrameOf(k, st, Session(DASHBOARD_KEY)) <==> ShowSame(k, st)
  {
    if FrameOf(k, st, Dashboard).Some? { FrameOfSession(k, st, Dashboard); }
    if FrameOf(k, st, Session(DASHBOARD_KEY)).Some? {
      var u := LatestUnderlying(st, Some(DASHBOARD_KEY)).value;
      FindMember(st.underlying, DASHBOARD_KEY);
      assert Entry(DASHBOARD_KEY, u) in st.underlying;
    }
  }

  /**
    * A session named like the dashboard's key shares its cache entry. After any run, a query of
    * that key is transparent exactly when it misses, or hits an entry it wrote itself, or the
    * dashboard and that session have the same to show: the same frame, or nothing.
    */
  lemma ReservedKeyTransparentIff(k: Kernel, epoch: nat, m: Memory, events: seq<Event>, q: Query)
    requires PossibleRun(k, Start(epoch, m), events) && KeyOf(q) == DASHBOARD_KEY
    ensures var sys, writers := Run(k, Start(epoch, m), events), Writers(k, Start(epoch, m), events);
      Transparent(k, sys, q) <==>
      !Hit(sys, q) || (DASHBOARD_KEY in writers && writers[DASHBOARD_KEY] == q) || ShowSame(k, sys.state)
  {
    var sys, writers := Run(k, Start(epoch, m), events), Writers(k, Start(epoch, m), events);
    RunKeepsConsistent(k, epoch, m, events);
    if Hit(sys, q) {
      HitTransparentIff(k, sys, writers, q);
      SameFrameIff(k, sys.state);
    }
  }

  const ANY_HEALTH: Health := Health("c", "connected", 0, 0)
  const ANY_CONTRACT: Contract := Contract("x", "s", 0, Call, 1.0, 0)
  const ANY_UNDERLYING: UnderlyingTick := UnderlyingTick("s", "SPX", 0, Some(1.0), None, None)
  const ANY_TICK: OptionTick :=
    OptionTick("x", "s", 0, None, None, None, None, Carried(None, None, None, None, None, None, None, None))

  function OneQuoteState(): State {
    State(0, 4, [Entry("c", ANY_HEALTH)], [Entry("x", ANY_CONTRACT)], [Entry("s", ANY_UNDERLYING)], [Entry("x", ANY_TICK)], Some(0))
  }

  lemma OneQuoteFrame(k: Kernel)
    ensures BuildFrame(k, OneQuoteState(), Some("s")).Some?
  {}

  function OneQuoteEvents(): seq<Event> {
    [Ingest(HealthEvent(ANY_HEALTH)), Ingest(ContractEvent(ANY_CONTRACT)), Ingest(UnderlyingEvent(ANY_UNDERLYING)), Ingest(OptionEvent(ANY_TICK))]
  }

  lemma OneQuoteRun(k: Kernel)
    ensures Run(k, Start(0, map[]), OneQuoteEvents()) == System(OneQuoteState(), map[], map[], {0})
  {
    var e := OneQuoteEvents();
    assert e[..3][..2] == e[..2] && e[..2][..1] == e[..1] && e[..1][..0] == [];
    var s0 := Start(0, map[]);
    assert Run(k, s0, e[..1]) == s0.(state := Ingested(s0.state, e[0].event));
    assert Run(k, s0, e[..2]) == s0.(state := Ingested(Ingested(s0.state, e[0].event), e[1].event));
    assert Run(k, s0, e[..3]) == s0.(state := Ingested(Ingested(Ingested(s0.state, e[0].event), e[1].event), e[2].event));
  }

  lemma OneQuoteShown(k: Kernel)
    ensures var st := OneQuoteState();
      && Rebuild(k, st, Dashboard, map[]).snapshot.Some?
      && (forall m :: Rebuild(k, st, Session(DASHBOARD_KEY), m) == Built(None, m))
  {
    OneQuoteFrame(k);
    var st := OneQuoteState();
    RebuildFinishesFrame(k, st, Dashboard, map[]);
    assert LatestUnderlying(st, None) == Some(ANY_UNDERLYING) by { assert Values(st.underlying) == [ANY_UNDERLYING]; }
    assert BuildFrame(k, st, None) == BuildFrame(k, st, Some("s")) by { assert Find(st.underlying, "s") == Some(ANY_UNDERLYING); }
    assert Find(st.underlying, DASHBOARD_KEY) == None by { assert |DASHBOARD_KEY| != |"s"|; assert st.underlying[1..] == []; }
    assert BuildFrame(k, st, Some(DASHBOARD_KEY)) == None;
  }

  lemma OneQuoteThenAsk(k: Kernel, q: Query)
    ensures var events := OneQuoteEvents() + [Ask(q)];
      && PossibleRun(k, Start(0, map[]), events)
      && Run(k, Start(0, map[]), events) == Asked(k, System(OneQuoteState(), map[], map[], {0}), q)
  {
    var events := OneQuoteEvents() + [Ask(q)];
    assert events[..4] == OneQuoteEvents();
    OneQuoteRun(k);
  }

  /**
    * A run after which the cache answers for a session named like the dashboard's key, of
    * which nothing was ever received, with another session's snapshot.
    */
  lemma ReservedKeyCanAnswerWrongly(k: Kernel) returns (events: seq<Event>)
    ensures PossibleRun(k, Start(0, map[]), events)
    ensures var sys := Run(k, Start(0, map[]), events);
      && Answer(k, sys, Session(DASHBOARD_KEY)).Some?
      && Rebuild(k, sys.state, Session(DASHBOARD_KEY), sys.memory).snapshot == None
  {
    events := OneQuoteEvents() + [Ask(Dashboard)];
    OneQuoteThenAsk(k, Dashboard);
    OneQuoteShown(k);
  }

  /** A run after which, the reserved session having been asked for, the dashboard is answered with nothing. */
  lemma DashboardCanAnswerNothing(k: Kernel) returns (events: seq<Event>)
    ensures PossibleRun(k, Start(0, map[]), events)
    ensures var sys := Run(k, Start(0, map[]), events);
      Answer(k, sys, Dashboard) == None && Rebuild(k, sys.state, Dashboard, sys.memory).snapshot.Some?
  {
    events := OneQuoteEvents() + [Ask(Session(DASHBOARD_KEY))];
    OneQuoteThenAsk(k, Session(DASHBOARD_KEY));
    OneQuoteShown(k);
  }

  // ---------------------------------------------------------------- the service

  class LiveSnapshotService {
    const collector: CollectorState
    const memory: AnalyticsMemory
    var cache: map<string, CachedSnapshot>

    constructor (collector: CollectorState, memory: AnalyticsMemory)
      ensures this.collector == collector && this.memory == memory && cache == map[]
    {
      this.collector, this.memory := collector, memory;
      cache := map[];
    }

    ghost function Contents(usedEpochs: set<nat>): System
      reads this, collector, memory
    {
      System(collector.Contents(), memory.values, cache, usedEpochs)
    }

    method Query(k: Kernel, q: Query) returns (snapshot: Option<Snapshot>)
      modifies this, memory
      ensures forall epochs :: Contents(epochs) == Asked(k, old(Contents(epochs)), q)
      ensures forall epochs :: snapshot == Answer(k, old(Contents(epochs)), q)
    {
      var st := collector.Snapshot();
      var identity := IdentityOf(st);
      var key := KeyOf(q);
      if key !in cache || cache[key].identity != identity {
        var built;
        match q {
          case Dashboard => built := memory.BuildDashboardSnapshot(k, st);
          case Session(id) => built := memory.BuildLiveSnapshot(k, st, Some(id));
        }
        cache := cache[key := CachedSnapshot(identity, built)];
      }
      snapshot := cache[key].snapshot;
    }
  }
}
