/**
  * The browser's live transport (web/lib/snapshotUpdates.ts, snapshotStream.ts and
  * snapshotPolling.ts): a WebSocket, a polling fallback and a reconnect timer. Sockets, poll
  * loops and the timer are state; every callback the browser can make is a step, and the
  * browser makes them in any order.
  */
module LiveTransport {
  import opened Maybe

  datatype Source = Stream | Polling
  datatype Status = Connecting | Reconnecting | Disconnected | Streaming | FallbackPolling

  /** A snapshot time: milliseconds when it parses, its text when it does not. */
  datatype Stamp = Millis(ms: int) | Text(text: string)

  datatype Snapshot = Snapshot(mode: string, sessionId: string, expiry: string, time: Stamp, rowCount: nat)

  datatype Key = Key(mode: string, sessionId: string, expiry: string, second: Stamp, rowCount: nat)

  function RoundedSecond(time: Stamp): Stamp {
    if time.Millis? then Millis(time.ms / 1000 * 1000) else time
  }

  function UpdateKey(s: Snapshot): Key { Key(s.mode, s.sessionId, s.expiry, RoundedSecond(s.time), s.rowCount) }

  predicate InSecond(ms: int, second: int) { second * 1000 <= ms < second * 1000 + 1000 }

  /** Parsed times of one second, or the same unparsed text. */
  ghost predicate SameSecond(a: Stamp, b: Stamp) {
    match (a, b)
    case (Millis(x), Millis(y)) => exists second :: InSecond(x, second) && InSecond(y, second)
    case (Text(x), Text(y)) => x == y
    case _ => false
  }

  /** Snapshots the browser takes for the same update. */
  ghost predicate SameUpdate(a: Snapshot, b: Snapshot) {
    && a.mode == b.mode && a.sessionId == b.sessionId && a.expiry == b.expiry && a.rowCount == b.rowCount
    && SameSecond(a.time, b.time)
  }

  lemma KeysNameUpdates(a: Snapshot, b: Snapshot)
    ensures UpdateKey(a) == UpdateKey(b) <==> SameUpdate(a, b)
  {
    if a.time.Millis? { assert InSecond(a.time.ms, a.time.ms / 1000); }
  }

  /** One `startSnapshotStream`: `active` until stopped, `reported` once it has called `onUnavailable`. */
  datatype Socket = Socket(active: bool, reported: bool)

  /** One `startSnapshotPolling`: a pending timer or a load in flight keeps an active loop going. */
  datatype Loop = Loop(active: bool, timer: bool, loading: bool)

  /** `stopStream`: null, the no-op of a missing WebSocket, or the stop function of a socket. */
  datatype StreamHandle = NoStream | NoOpStream | StreamOf(socket: nat)

  datatype Transport = Transport(
    hasWebSocket: bool,
    stopped: bool,
    stream: StreamHandle,
    polling: Option<nat>,
    reconnect: bool,
    lastKey: Option<Key>,
    sockets: seq<Socket>,
    loops: seq<Loop>,
    applied: seq<(Snapshot, Source)>,
    statuses: seq<Status>)

  datatype Event =
    | Message(socket: nat, payload: Option<Snapshot>)
    | Down(socket: nat)
    | ReconnectFires
    | PollTimerFires(loop: nat)
    | LoadSettles(loop: nat, result: Option<Snapshot>)
    | Stop

  predicate Enabled(t: Transport, e: Event) {
    match e
    case Message(s, _) => s < |t.sockets|
    case Down(s) => s < |t.sockets|
    case ReconnectFires => t.reconnect
    case PollTimerFires(p) => p < |t.loops| && t.loops[p].timer
    case LoadSettles(p, _) => p < |t.loops| && t.loops[p].loading
    case Stop => true
  }

  // -------------------------------------------------------------- the closures

  function StopStream(t: Transport): Transport {
    var rest := t.(stream := NoStream);
    if t.stream.StreamOf? && t.stream.socket < |t.sockets|
    then rest.(sockets := t.sockets[t.stream.socket := t.sockets[t.stream.socket].(active := false)])
    else rest
  }

  function StopLoop(t: Transport): Transport {
    if t.polling.Some? && t.polling.value < |t.loops|
    then t.(loops := t.loops[t.polling.value := t.loops[t.polling.value].(active := false, timer := false)])
    else t
  }

  function StopPolling(t: Transport): Transport { StopLoop(t).(polling := None) }

  function StopAll(t: Transport): Transport {
    StopLoop(StopStream(t.(stopped := true, reconnect := false)))
  }

  /** A status report; the listener may call the stop function from inside it. */
  function Report(t: Transport, status: Status, listenerStops: bool): Transport {
    var reported := t.(statuses := t.statuses + [status]);
    if listenerStops then StopAll(reported) else reported
  }

  function StartPolling(t: Transport): Transport {
    if t.polling.Some? then t
    else t.(polling := Some(|t.loops|), loops := t.loops + [Loop(true, false, true)])
  }

  function ScheduleReconnect(t: Transport): Transport {
    if t.stopped || t.reconnect then t else t.(reconnect := true)
  }

  function HandleUnavailable(t: Transport, listenerStops: bool): Transport {
    ScheduleReconnect(StartPolling(Report(StopStream(t), Disconnected, listenerStops)))
  }

  function OpenStream(t: Transport, listenerStops: bool): Transport {
    if t.hasWebSocket
    then t.(sockets := t.sockets + [Socket(true, false)], stream := StreamOf(|t.sockets|))
    else HandleUnavailable(t, listenerStops).(stream := NoOpStream)
  }

  function ApplyChanged(t: Transport, s: Snapshot, source: Source, listenerStops: bool): Transport {
    if t.lastKey == Some(UpdateKey(s)) then t
    else
      var reported := Report(t.(lastKey := Some(UpdateKey(s))), if source.Stream? then Streaming else FallbackPolling, listenerStops);
      reported.(applied := reported.applied + [(s, source)])
  }

  function Start(hasWebSocket: bool): Transport {
    OpenStream(Transport(hasWebSocket, false, NoStream, None, false, None, [], [], [], [Connecting]), false)
  }

  /** One callback. The `stopAt`-th status it reports, if it reports so many, makes the listener call stop. */
  function Step(t: Transport, e: Event, stopAt: nat): Transport
    requires Enabled(t, e)
  {
    match e
    case Message(s, payload) =>
      if !t.sockets[s].active || payload.None? then t
      else ApplyChanged(StopPolling(t), payload.value, Stream, stopAt == 1)
    case Down(s) =>
      if !t.sockets[s].active || t.sockets[s].reported then t
      else HandleUnavailable(t.(sockets := t.sockets[s := t.sockets[s].(reported := true)]), stopAt == 1)
    case ReconnectFires =>
      var fired := t.(reconnect := false);
      if t.stopped then fired else OpenStream(Report(fired, Reconnecting, stopAt == 1), stopAt == 2)
    case PollTimerFires(p) => t.(loops := t.loops[p := t.loops[p].(timer := false, loading := true)])
    case LoadSettles(p, result) =>
      var settled := t.(loops := t.loops[p := t.loops[p].(loading := false)]);
      if !settled.loops[p].active then settled
      else
        var after := if result.None? then settled else ApplyChanged(settled, result.value, Polling, stopAt == 1);
        if p < |after.loops| && after.loops[p].active
        then after.(loops := after.loops[p := after.loops[p].(timer := true)])
        else after
    case Stop => StopAll(t)
  }

  // -------------------------------------------------------------- the invariant

  predicate LiveSocket(t: Transport, s: nat) { s < |t.sockets| && t.sockets[s].active }

  predicate ActiveLoop(t: Transport, p: nat) { p < |t.loops| && t.loops[p].active }

  /** At most one live socket and one active loop, both the ones the stop functions name. */
  ghost predicate HandlesOwnEverything(t: Transport) {
    && (forall s :: 0 <= s < |t.sockets| && t.sockets[s].active ==> t.stream == StreamOf(s) && !t.sockets[s].reported)
    && (forall p :: 0 <= p < |t.loops| && t.loops[p].active ==>
          t.polling == Some(p) && (t.loops[p].timer <==> !t.loops[p].loading))
    && (forall p :: 0 <= p < |t.loops| && t.loops[p].timer ==> t.loops[p].active)
    && (t.stream.StreamOf? ==> LiveSocket(t, t.stream.socket))
    && (t.polling.Some? ==> t.polling.value < |t.loops|)
  }

  ghost predicate Quiet(t: Transport) {
    && (forall s :: 0 <= s < |t.sockets| ==> !t.sockets[s].active)
    && (forall p :: 0 <= p < |t.loops| ==> !t.loops[p].active && !t.loops[p].timer)
    && !t.reconnect
  }

  /** Snapshots are applied only when their key changes. */
  ghost predicate NeighboursDiffer(t: Transport) {
    && (forall i :: 0 <= i < |t.applied| - 1 ==> UpdateKey(t.applied[i].0) != UpdateKey(t.applied[i + 1].0))
    && t.lastKey == (if |t.applied| == 0 then None else Some(UpdateKey(t.applied[|t.applied| - 1].0)))
  }

  ghost predicate Sound(t: Transport) {
    && HandlesOwnEverything(t)
    && NeighboursDiffer(t)
    && (t.stopped ==> Quiet(t))
    && (!t.stopped ==>
          && (t.stream.StreamOf? <==> !t.reconnect)
          && (t.polling.Some? ==> ActiveLoop(t, t.polling.value))
          && (!t.stream.StreamOf? ==> t.polling.Some?))
  }

  lemma StartIsSound(hasWebSocket: bool)
    ensures Sound(Start(hasWebSocket))
  {}

  lemma MessageKeepsSound(t: Transport, e: Event)
    requires Sound(t) && Enabled(t, e) && e.Message?
    ensures Sound(Step(t, e, 0))
  {
    if LiveSocket(t, e.socket) && e.payload.Some? {
      StopPollingKeepsSound(t);
      var quiet, r := StopPolling(t), ApplyChanged(StopPolling(t), e.payload.value, Stream, false);
      ApplyKeepsNeighbours(quiet, e.payload.value, Stream);
      assert r == quiet.(lastKey := r.lastKey, applied := r.applied, statuses := r.statuses);
    }
  }

  /** With a live socket the loop may be stopped. */
  lemma StopPollingKeepsSound(t: Transport)
    requires Sound(t) && t.stream.StreamOf?
    ensures Sound(StopPolling(t))
  {}

  lemma DownKeepsSound(t: Transport, e: Event)
    requires Sound(t) && Enabled(t, e) && e.Down?
    ensures Sound(Step(t, e, 0))
  {
    if t.sockets[e.socket].active {
      assert LiveSocket(t, e.socket);
    }
  }

  lemma ReconnectKeepsSound(t: Transport, e: Event)
    requires Sound(t) && Enabled(t, e) && e.ReconnectFires?
    ensures Sound(Step(t, e, 0))
  {}

  lemma ApplyKeepsNeighbours(t: Transport, s: Snapshot, source: Source)
    requires NeighboursDiffer(t)
    ensures var r := ApplyChanged(t, s, source, false);
      && NeighboursDiffer(r)
      && r == t.(lastKey := r.lastKey, applied := r.applied, statuses := r.statuses)
  {}

  /** The loop table with one entry replaced by one that obeys the loop rules. */
  lemma LoopUpdateKeepsSound(t: Transport, p: nat, l: Loop)
    requires Sound(t) && p < |t.loops|
    requires l.active == t.loops[p].active && (l.timer ==> l.active) && (l.active ==> (l.timer <==> !l.loading))
    ensures Sound(t.(loops := t.loops[p := l]))
  {}

  lemma PollTimerKeepsSound(t: Transport, p: nat)
    requires Sound(t) && Enabled(t, PollTimerFires(p))
    ensures Sound(Step(t, PollTimerFires(p), 0))
  {}

  lemma LoadKeepsSound(t: Transport, p: nat, result: Option<Snapshot>)
    requires Sound(t) && Enabled(t, LoadSettles(p, result))
    ensures Sound(Step(t, LoadSettles(p, result), 0))
  {
    var settled := t.(loops := t.loops[p := t.loops[p].(loading := false)]);
    if !t.loops[p].active {
      LoopUpdateKeepsSound(t, p, t.loops[p].(loading := false));
    } else {
      var after := if result.None? then settled else ApplyChanged(settled, result.value, Polling, false);
      if result.Some? { ApplyKeepsNeighbours(settled, result.value, Polling); }
      var rearmed := t.(loops := t.loops[p := t.loops[p].(loading := false, timer := true)]);
      LoopUpdateKeepsSound(t, p, t.loops[p].(loading := false, timer := true));
      var end := Step(t, LoadSettles(p, result), 0);
      assert end == rearmed.(lastKey := after.lastKey, applied := after.applied, statuses := after.statuses);
    }
  }

  lemma StopKeepsSound(t: Transport)
    requires Sound(t)
    ensures Sound(StopAll(t)) && StopAll(t).stopped
  {}

  lemma StepKeepsSound(t: Transport, e: Event)
    requires Sound(t) && Enabled(t, e)
    ensures Sound(Step(t, e, 0))
  {
    match e
    case Message(_, _) => MessageKeepsSound(t, e);
    case Down(_) => DownKeepsSound(t, e);
    case ReconnectFires => ReconnectKeepsSound(t, e);
    case PollTimerFires(p) => PollTimerKeepsSound(t, p);
    case LoadSettles(p, result) => LoadKeepsSound(t, p, result);
    case Stop => StopKeepsSound(t);
  }

  // -------------------------------------------------------------------- runs

  /** The callbacks of a run, each enabled where it happens. */
  ghost predicate Reaches(t: Transport, events: seq<Event>, end: Transport)
    decreases |events|
  {
    if |events| == 0 then t == end
    else Enabled(t, events[0]) && Reaches(Step(t, events[0], 0), events[1..], end)
  }

  lemma {:induction false} RunsStaySound(t: Transport, events: seq<Event>, end: Transport)
    requires Sound(t) && Reaches(t, events, end)
    ensures Sound(end)
    decreases |events|
  {
    if |events| > 0 {
      StepKeepsSound(t, events[0]);
      RunsStaySound(Step(t, events[0], 0), events[1..], end);
    }
  }

  /**
    * Every interleaving of callbacks: while not stopped, there is one live socket or one
    * pending reconnect timer but never both, and without a live socket exactly one poll loop
    * runs, with a timer or a load to keep it going. There are never two live sockets or two
    * active loops, and neighbouring applied snapshots are different updates.
    */
  lemma TransportInvariant(hasWebSocket: bool, events: seq<Event>, t: Transport)
    requires Reaches(Start(hasWebSocket), events, t)
    ensures forall s, s' :: LiveSocket(t, s) && LiveSocket(t, s') ==> s == s'
    ensures forall p, p' :: ActiveLoop(t, p) && ActiveLoop(t, p') ==> p == p'
    ensures forall p: nat :: ActiveLoop(t, p) ==> (t.loops[p].timer <==> !t.loops[p].loading)
    ensures !t.stopped ==> ((exists s :: LiveSocket(t, s)) <==> !t.reconnect)
    ensures !t.stopped && (forall s :: !LiveSocket(t, s)) ==> exists p :: ActiveLoop(t, p)
    ensures t.stopped ==> Quiet(t)
    ensures forall i :: 0 <= i < |t.applied| - 1 ==> !SameUpdate(t.applied[i].0, t.applied[i + 1].0)
  {
    StartIsSound(hasWebSocket);
    RunsStaySound(Start(hasWebSocket), events, t);
    forall i | 0 <= i < |t.applied| - 1 ensures !SameUpdate(t.applied[i].0, t.applied[i + 1].0) {
      KeysNameUpdates(t.applied[i].0, t.applied[i + 1].0);
    }
    if t.stream.StreamOf? { assert LiveSocket(t, t.stream.socket); }
    if t.polling.Some? && !t.stopped { assert ActiveLoop(t, t.polling.value); }
  }

  // ------------------------------------------------------- polling and the stream

  /** Something arrives that may be applied: a parsed message of a live socket, or a load of an active loop. */
  function Delivered(t: Transport, e: Event): Option<(Snapshot, Source)> {
    match e
    case Message(s, Some(snapshot)) => if LiveSocket(t, s) then Some((snapshot, Stream)) else None
    case LoadSettles(p, Some(snapshot)) => if ActiveLoop(t, p) then Some((snapshot, Polling)) else None
    case _ => None
  }

  /** The stream delivers. */
  predicate Heals(t: Transport, e: Event) {
    var d := Delivered(t, e);
    d.Some? && d.value.1 == Stream
  }

  /** A live socket goes down, or none can be opened. */
  predicate Breaks(t: Transport, e: Event) {
    (e.Down? && LiveSocket(t, e.socket)) || (e.ReconnectFires? && !t.hasWebSocket)
  }

  /** Whether, after these callbacks, the stream broke and has not delivered since. */
  function Broken(t: Transport, events: seq<Event>, broken: bool): bool
    decreases |events|
  {
    if |events| == 0 || !Enabled(t, events[0]) then broken
    else
      var e := events[0];
      Broken(Step(t, e, 0), events[1..], if Heals(t, e) then false else if Breaks(t, e) then true else broken)
  }

  lemma StepPolls(t: Transport, e: Event, r: Transport)
    requires Sound(t) && Enabled(t, e) && r == Step(t, e, 0) && !r.stopped
    ensures !t.stopped
    ensures r.polling.Some? <==> !Heals(t, e) && (Breaks(t, e) || t.polling.Some?)
  {
    match e
    case Message(s, payload) => MessagePolls(t, s, payload, 0, r);
    case Down(s) => DownPolls(t, s, r);
    case ReconnectFires => ReconnectPolls(t, r);
    case PollTimerFires(_) =>
    case LoadSettles(p, result) => LoadPolls(t, p, result, r);
    case Stop =>
  }

  lemma MessagePolls(t: Transport, s: nat, payload: Option<Snapshot>, stopAt: nat, r: Transport)
    requires Sound(t) && Enabled(t, Message(s, payload)) && r == Step(t, Message(s, payload), stopAt)
    ensures r.polling == if LiveSocket(t, s) && payload.Some? then None else t.polling
    ensures r.stopped <== t.stopped
  {}

  lemma DownPolls(t: Transport, s: nat, r: Transport)
    requires Sound(t) && Enabled(t, Down(s)) && r == Step(t, Down(s), 0)
    ensures r.stopped == t.stopped && (r.polling.Some? <==> LiveSocket(t, s) || t.polling.Some?)
  {}

  lemma ReconnectPolls(t: Transport, r: Transport)
    requires Sound(t) && Enabled(t, ReconnectFires) && r == Step(t, ReconnectFires, 0)
    ensures !t.stopped && !r.stopped && (r.polling.Some? <==> !t.hasWebSocket || t.polling.Some?)
  {}

  lemma LoadPolls(t: Transport, p: nat, result: Option<Snapshot>, r: Transport)
    requires Sound(t) && Enabled(t, LoadSettles(p, result)) && r == Step(t, LoadSettles(p, result), 0)
    ensures r.stopped == t.stopped && r.polling == t.polling
  {}

  lemma {:induction false} RunPolls(t: Transport, events: seq<Event>, end: Transport)
    requires Sound(t) && Reaches(t, events, end) && !end.stopped
    ensures !t.stopped && (end.polling.Some? <==> Broken(t, events, t.polling.Some?))
    decreases |events|
  {
    if |events| > 0 {
      var next := Step(t, events[0], 0);
      StepKeepsSound(t, events[0]);
      RunPolls(next, events[1..], end);
      StepPolls(t, events[0], next);
    }
  }

  /**
    * While the transport runs, a poll loop is active exactly when the stream broke, or could not
    * be opened, after it last delivered; at the start, exactly without a WebSocket.
    */
  lemma PollsWhileBroken(hasWebSocket: bool, events: seq<Event>, t: Transport)
    requires Reaches(Start(hasWebSocket), events, t) && !t.stopped
    ensures (exists p :: ActiveLoop(t, p)) <==> Broken(Start(hasWebSocket), events, !hasWebSocket)
  {
    StartIsSound(hasWebSocket);
    RunsStaySound(Start(hasWebSocket), events, t);
    RunPolls(Start(hasWebSocket), events, t);
    if t.polling.Some? { assert ActiveLoop(t, t.polling.value); }
  }

  /** Whenever the stream delivers, polling ends, even if the listener stops the transport. */
  lemma DeliveryEndsPolling(hasWebSocket: bool, events: seq<Event>, t: Transport, e: Event, stopAt: nat)
    requires Reaches(Start(hasWebSocket), events, t) && Enabled(t, e) && Heals(t, e)
    ensures var r := Step(t, e, stopAt); r.polling == None && forall p :: !ActiveLoop(r, p)
  {
    StartIsSound(hasWebSocket);
    RunsStaySound(Start(hasWebSocket), events, t);
    var r := Step(t, e, stopAt);
    MessagePolls(t, e.socket, e.payload, stopAt, r);
    DeliveryStopsLoops(t, e.socket, e.payload.value, stopAt, r);
  }

  lemma DeliveryStopsLoops(t: Transport, s: nat, snapshot: Snapshot, stopAt: nat, r: Transport)
    requires Sound(t) && LiveSocket(t, s) && r == Step(t, Message(s, Some(snapshot)), stopAt)
    ensures forall p :: !ActiveLoop(r, p)
  {
    var quiet := StopPolling(t);
    assert forall p :: !ActiveLoop(quiet, p);
    assert r.loops == quiet.loops;
  }

  /** A delivered snapshot that differs from the one applied last. */
  ghost predicate NewUpdate(t: Transport, e: Event) {
    var d := Delivered(t, e);
    d.Some? && (|t.applied| == 0 || !SameUpdate(t.applied[|t.applied| - 1].0, d.value.0))
  }

  /** The statuses one callback reports. */
  ghost function ReportedBy(t: Transport, e: Event): seq<Status> {
    if NewUpdate(t, e) then [if e.Message? then Streaming else FallbackPolling]
    else if e.Down? && LiveSocket(t, e.socket) then [Disconnected]
    else if e.ReconnectFires? && !t.stopped then [Reconnecting] + (if t.hasWebSocket then [] else [Disconnected])
    else []
  }

  /** A callback stops the transport exactly when it is a stop, or the listener stops it in one of the reports the callback makes. */
  ghost predicate StopsWith(t: Transport, e: Event, stopAt: nat, r: Transport) {
    r.stopped <==> t.stopped || e == Stop || 1 <= stopAt <= |ReportedBy(t, e)|
  }

  /** `r` is `t` with the snapshot applied and reported if it is new. */
  ghost predicate Applies(t: Transport, snapshot: Snapshot, source: Source, listenerStops: bool, r: Transport) {
    if |t.applied| == 0 || !SameUpdate(t.applied[|t.applied| - 1].0, snapshot) then
      && r.applied == t.applied + [(snapshot, source)]
      && r.statuses == t.statuses + [if source.Stream? then Streaming else FallbackPolling]
      && r.stopped == (t.stopped || listenerStops)
    else r.applied == t.applied && r.statuses == t.statuses && r.stopped == t.stopped
  }

  lemma ChangedApplies(t: Transport, snapshot: Snapshot, source: Source, listenerStops: bool, r: Transport)
    requires NeighboursDiffer(t) && r == ApplyChanged(t, snapshot, source, listenerStops)
    ensures Applies(t, snapshot, source, listenerStops, r)
  {
    if |t.applied| > 0 { KeysNameUpdates(t.applied[|t.applied| - 1].0, snapshot); }
  }

  lemma MessageApplies(t: Transport, s: nat, snapshot: Snapshot, stopAt: nat, r: Transport)
    requires Sound(t) && LiveSocket(t, s) && r == Step(t, Message(s, Some(snapshot)), stopAt)
    ensures Applies(t, snapshot, Stream, stopAt == 1, r)
  {
    ChangedApplies(StopPolling(t), snapshot, Stream, stopAt == 1, r);
  }

  lemma LoadApplies(t: Transport, p: nat, snapshot: Snapshot, stopAt: nat, r: Transport)
    requires Sound(t) && ActiveLoop(t, p) && t.loops[p].loading && r == Step(t, LoadSettles(p, Some(snapshot)), stopAt)
    ensures Applies(t, snapshot, Polling, stopAt == 1, r)
  {
    var settled := t.(loops := t.loops[p := t.loops[p].(loading := false)]);
    var after := ApplyChanged(settled, snapshot, Polling, stopAt == 1);
    ChangedApplies(settled, snapshot, Polling, stopAt == 1, after);
    assert r.applied == after.applied && r.statuses == after.statuses && r.stopped == after.stopped;
  }

  lemma UnavailableReports(t: Transport, listenerStops: bool, r: Transport)
    requires r == HandleUnavailable(t, listenerStops)
    ensures r.applied == t.applied && r.statuses == t.statuses + [Disconnected] && r.stopped == (t.stopped || listenerStops)
  {
    var reported := Report(StopStream(t), Disconnected, listenerStops);
    assert reported.statuses == t.statuses + [Disconnected] && reported.applied == t.applied && reported.stopped == (t.stopped || listenerStops);
    var polling := StartPolling(reported);
    assert polling.statuses == reported.statuses && polling.applied == reported.applied && polling.stopped == reported.stopped;
  }

  lemma DownReports(t: Transport, s: nat, stopAt: nat, r: Transport)
    requires Sound(t) && Enabled(t, Down(s)) && r == Step(t, Down(s), stopAt)
    ensures r.applied == t.applied && r.statuses == t.statuses + ReportedBy(t, Down(s)) && StopsWith(t, Down(s), stopAt, r)
  {
    if LiveSocket(t, s) {
      UnavailableReports(t.(sockets := t.sockets[s := t.sockets[s].(reported := true)]), stopAt == 1, r);
    }
  }

  lemma ReconnectReports(t: Transport, stopAt: nat, r: Transport)
    requires Sound(t) && t.reconnect && r == Step(t, ReconnectFires, stopAt)
    ensures r.applied == t.applied && r.statuses == t.statuses + ReportedBy(t, ReconnectFires) && StopsWith(t, ReconnectFires, stopAt, r)
  {
    var fired := Report(t.(reconnect := false), Reconnecting, stopAt == 1);
    if !t.hasWebSocket {
      UnavailableReports(fired, stopAt == 2, HandleUnavailable(fired, stopAt == 2));
      assert [Reconnecting] + [Disconnected] == [Reconnecting, Disconnected];
    }
  }

  lemma OthersApplyNothing(t: Transport, e: Event, stopAt: nat, r: Transport)
    requires Sound(t) && Enabled(t, e) && r == Step(t, e, stopAt) && Delivered(t, e).None?
    ensures r.applied == t.applied && r.statuses == t.statuses + ReportedBy(t, e) && StopsWith(t, e, stopAt, r)
  {
    match e
    case Down(s) => DownReports(t, s, stopAt, r);
    case ReconnectFires => ReconnectReports(t, stopAt, r);
    case Message(s, payload) => assert r == t;
    case LoadSettles(p, result) =>
      assert r == t.(loops := r.loops);
    case PollTimerFires(p) => assert r == t.(loops := r.loops);
    case Stop =>
  }

  /**
    * In every run exactly the new updates are applied, each with a report of its source; a live
    * socket's fall and the timer are reported, nothing else is, and stops take effect at once.
    */
  lemma AppliedExactlyNewUpdates(hasWebSocket: bool, events: seq<Event>, t: Transport, e: Event, stopAt: nat, r: Transport)
    requires Reaches(Start(hasWebSocket), events, t) && Enabled(t, e) && r == Step(t, e, stopAt)
    ensures r.applied == (if NewUpdate(t, e) then t.applied + [Delivered(t, e).value] else t.applied)
    ensures r.statuses == t.statuses + ReportedBy(t, e)
    ensures StopsWith(t, e, stopAt, r)
  {
    StartIsSound(hasWebSocket);
    RunsStaySound(Start(hasWebSocket), events, t);
    SoundStepApplies(t, e, stopAt, r);
  }

  lemma SoundStepApplies(t: Transport, e: Event, stopAt: nat, r: Transport)
    requires Sound(t) && Enabled(t, e) && r == Step(t, e, stopAt)
    ensures r.applied == (if NewUpdate(t, e) then t.applied + [Delivered(t, e).value] else t.applied)
    ensures r.statuses == t.statuses + ReportedBy(t, e)
    ensures StopsWith(t, e, stopAt, r)
  {
    if Delivered(t, e).None? { OthersApplyNothing(t, e, stopAt, r); } else { DeliveredApplies(t, e, stopAt, r); }
  }

  lemma DeliveredApplies(t: Transport, e: Event, stopAt: nat, r: Transport)
    requires Sound(t) && Enabled(t, e) && r == Step(t, e, stopAt) && Delivered(t, e).Some?
    ensures Applies(t, Delivered(t, e).value.0, Delivered(t, e).value.1, stopAt == 1, r)
  {
    if e.Message? { MessageApplies(t, e.socket, e.payload.value, stopAt, r); } else { LoadApplies(t, e.loop, e.result.value, stopAt, r); }
  }

  predicate ReportedLast(t: Transport, status: Status) { |t.statuses| > 0 && t.statuses[|t.statuses| - 1] == status }

  /** A stream that delivers is reported as streaming exactly when it delivers something new, or still was so reported. */
  lemma StreamingReportedIff(hasWebSocket: bool, events: seq<Event>, t: Transport, e: Event, stopAt: nat, r: Transport)
    requires Reaches(Start(hasWebSocket), events, t) && Enabled(t, e) && Heals(t, e) && r == Step(t, e, stopAt)
    ensures ReportedLast(r, Streaming) <==> NewUpdate(t, e) || ReportedLast(t, Streaming)
  {
    AppliedExactlyNewUpdates(hasWebSocket, events, t, e, stopAt, r);
    LastOfReports(t.statuses, ReportedBy(t, e), r.statuses);
  }

  lemma LastOfReports(before: seq<Status>, more: seq<Status>, after: seq<Status>)
    requires after == before + more
    ensures |after| > 0 ==> after[|after| - 1] == if |more| > 0 then more[|more| - 1] else before[|before| - 1]
  {}

  /** A socket that reconnects and repeats the last update stays reported as reconnecting, though nothing polls any more. */
  lemma StreamCanLookReconnecting(s: Snapshot) returns (events: seq<Event>, t: Transport)
    ensures Reaches(Start(true), events, t) && LiveSocket(t, 1) && !ActiveLoop(t, 0) && |t.loops| == 1
    ensures |events| == 4 && events[3] == Message(1, Some(s)) && t.statuses == [Connecting, Streaming, Disconnected, Reconnecting]
  {
    var t1 := Step(Start(true), Message(0, Some(s)), 0);
    var t2 := Step(t1, Down(0), 0);
    var t3 := Step(t2, ReconnectFires, 0);
    t := Step(t3, Message(1, Some(s)), 0);
    events := [Message(0, Some(s)), Down(0), ReconnectFires, Message(1, Some(s))];
    assert Reaches(t, [], t);
    assert Reaches(t3, [events[3]], t) && Reaches(t2, [events[2], events[3]], t) && Reaches(t1, [events[1], events[2], events[3]], t);
  }

  ghost predicate NothingHappened(before: Transport, after: Transport) {
    && after.applied == before.applied
    && after.statuses == before.statuses
    && |after.sockets| == |before.sockets|
    && |after.loops| == |before.loops|
    && after.stopped && Quiet(after)
  }

  lemma StoppedStepsAreSilent(t: Transport, e: Event)
    requires Sound(t) && t.stopped && Enabled(t, e)
    ensures NothingHappened(t, Step(t, e, 0))
  {}

  /** After stop, whatever callbacks still arrive, nothing is applied, reported, opened or scheduled. */
  lemma {:induction false} NothingAfterStop(t: Transport, events: seq<Event>, end: Transport)
    requires Sound(t) && t.stopped && Reaches(t, events, end)
    ensures NothingHappened(t, end)
    decreases |events|
  {
    if |events| > 0 {
      StepKeepsSound(t, events[0]);
      StoppedStepsAreSilent(t, events[0]);
      NothingAfterStop(Step(t, events[0], 0), events[1..], end);
    }
  }

  /** What a stop from inside a status report should mean: nothing more happens and nothing is left running. */
  ghost predicate SilentAfterReport(before: Transport, after: Transport, stopAt: nat) {
    && after.applied == before.applied
    && |after.statuses| == |before.statuses| + stopAt
    && |after.sockets| == |before.sockets|
    && |after.loops| == |before.loops|
    && Quiet(after)
  }

  /**
    * Stopping from inside a status report is different: the callback goes on after the stop.
    * For every reachable running state and callback, nothing more is applied, reported, opened,
    * scheduled or left running exactly when a socket goes down while a loop polls, or the
    * report was the second one of the callback.
    */
  lemma StopFromListenerSilentIff(hasWebSocket: bool, events: seq<Event>, t: Transport, e: Event, stopAt: nat, r: Transport)
    requires Reaches(Start(hasWebSocket), events, t) && !t.stopped && Enabled(t, e) && e != Stop
    requires r == Step(t, e, stopAt) && r.stopped
    ensures SilentAfterReport(t, r, stopAt) <==> (e.Down? && t.polling.Some?) || stopAt == 2
  {
    StartIsSound(hasWebSocket);
    RunsStaySound(Start(hasWebSocket), events, t);
    ListenerStopOutcome(t, e, stopAt, r);
  }

  /** What is left running after such a stop: a poll loop, or a socket the timer opened. */
  lemma StopFromListenerLeaksIff(hasWebSocket: bool, events: seq<Event>, t: Transport, e: Event, stopAt: nat, r: Transport)
    requires Reaches(Start(hasWebSocket), events, t) && !t.stopped && Enabled(t, e)
    requires r == Step(t, e, stopAt) && r.stopped
    ensures !Quiet(r) <==> (e.Down? && t.polling.None?) || (e.ReconnectFires? && t.hasWebSocket)
  {
    StartIsSound(hasWebSocket);
    RunsStaySound(Start(hasWebSocket), events, t);
    if e == Stop { StopKeepsSound(t); } else { ListenerStopOutcome(t, e, stopAt, r); }
  }

  /** Once such a callback has ended with nothing left running, nothing happens for ever. */
  lemma QuietStopIsFinal(t: Transport, e: Event, stopAt: nat, r: Transport, events: seq<Event>, end: Transport)
    requires Sound(t) && !t.stopped && Enabled(t, e) && r == Step(t, e, stopAt)
    requires r.stopped && Quiet(r) && Reaches(r, events, end)
    ensures NothingHappened(r, end)
  {
    if e == Stop { StopKeepsSound(t); } else { ListenerStopOutcome(t, e, stopAt, r); }
    NothingAfterStop(r, events, end);
  }

  lemma ListenerStopOutcome(t: Transport, e: Event, stopAt: nat, r: Transport)
    requires Sound(t) && !t.stopped && Enabled(t, e) && e != Stop && r == Step(t, e, stopAt) && r.stopped
    ensures SilentAfterReport(t, r, stopAt) <==> (e.Down? && t.polling.Some?) || stopAt == 2
    ensures !Quiet(r) <==> (e.Down? && t.polling.None?) || (e.ReconnectFires? && t.hasWebSocket)
    ensures Quiet(r) ==> Sound(r)
  {
    match e
    case Down(s) => DownWithStop(t, s, stopAt, r);
    case ReconnectFires => ReconnectWithStop(t, stopAt, r);
    case Message(s, payload) => MessageWithStop(t, s, payload, stopAt, r);
    case PollTimerFires(_) =>
    case LoadSettles(p, result) => LoadWithStop(t, p, result, stopAt, r);
  }

  lemma DownWithStop(t: Transport, s: nat, stopAt: nat, r: Transport)
    requires Sound(t) && !t.stopped && Enabled(t, Down(s)) && r == Step(t, Down(s), stopAt) && r.stopped
    ensures stopAt == 1 && (SilentAfterReport(t, r, stopAt) <==> t.polling.Some?) && (Quiet(r) <==> t.polling.Some?)
    ensures Quiet(r) ==> Sound(r)
  {
    var marked := t.(sockets := t.sockets[s := t.sockets[s].(reported := true)]);
    var stopped := Report(StopStream(marked), Disconnected, true);
    assert Quiet(stopped);
    if t.polling.None? { assert StartPolling(stopped).loops[|t.loops|].active; }
  }

  /** The timer without a WebSocket reports twice, and the loop that already polls is all there is. */
  lemma ReconnectWithStop(t: Transport, stopAt: nat, r: Transport)
    requires Sound(t) && !t.stopped && Enabled(t, ReconnectFires) && r == Step(t, ReconnectFires, stopAt) && r.stopped
    ensures SilentAfterReport(t, r, stopAt) <==> stopAt == 2
    ensures Quiet(r) <==> !t.hasWebSocket
    ensures Quiet(r) ==> Sound(r)
  {
    var fired := Report(t.(reconnect := false), Reconnecting, stopAt == 1);
    if t.hasWebSocket {
      assert r.sockets[|t.sockets|].active && stopAt == 1;
    } else {
      TimerWithoutSocket(t, stopAt, r);
    }
  }

  lemma TimerWithoutSocket(t: Transport, stopAt: nat, r: Transport)
    requires Sound(t) && !t.stopped && t.reconnect && !t.hasWebSocket && r == Step(t, ReconnectFires, stopAt) && r.stopped
    ensures Quiet(r) && Sound(r) && r.applied == t.applied && |r.statuses| == |t.statuses| + 2
    ensures |r.sockets| == |t.sockets| && |r.loops| == |t.loops|
    ensures stopAt == 1 || stopAt == 2
  {}

  lemma MessageWithStop(t: Transport, s: nat, payload: Option<Snapshot>, stopAt: nat, r: Transport)
    requires Sound(t) && !t.stopped && Enabled(t, Message(s, payload)) && r == Step(t, Message(s, payload), stopAt) && r.stopped
    ensures stopAt == 1 && |r.applied| == |t.applied| + 1 && Quiet(r) && Sound(r)
  {}

  lemma LoadWithStop(t: Transport, p: nat, result: Option<Snapshot>, stopAt: nat, r: Transport)
    requires Sound(t) && !t.stopped && Enabled(t, LoadSettles(p, result)) && r == Step(t, LoadSettles(p, result), stopAt) && r.stopped
    ensures stopAt == 1 && |r.applied| == |t.applied| + 1 && Quiet(r) && Sound(r)
  {
    assert t.polling == Some(p) && t.loops[p].active && result.Some?;
  }

  /** A stopping listener can leave a poll loop going. */
  lemma ListenerStopCanLeak()
    ensures var t := Start(true);
      Enabled(t, Down(0)) && Step(t, Down(0), 1).stopped && ActiveLoop(Step(t, Down(0), 1), 0)
  {}

  /** It can leave nothing running and yet have a snapshot applied to it after it stopped. */
  lemma ListenerStopCanStillApply(s: Snapshot)
    ensures var t := Start(true); var r := Step(t, Message(0, Some(s)), 1);
      Enabled(t, Message(0, Some(s))) && r.stopped && Quiet(r) && r.applied == t.applied + [(s, Stream)]
  {}

  /** Without a WebSocket it can still be sent a second status. */
  lemma ListenerStopCanStillReport()
    ensures var t := Start(false); var r := Step(t, ReconnectFires, 1);
      Enabled(t, ReconnectFires) && r.stopped && Quiet(r) && r.statuses == t.statuses + [Reconnecting, Disconnected]
  {}

  // -------------------------------------------------------------- the running object

  class LiveSnapshotUpdates {
    const hasWebSocket: bool
    var stopped: bool
    var stream: StreamHandle
    var polling: Option<nat>
    var reconnect: bool
    var lastKey: Option<Key>
    var sockets: seq<Socket>
    var loops: seq<Loop>
    var applied: seq<(Snapshot, Source)>
    var statuses: seq<Status>

    ghost function Contents(): Transport
      reads this
    {
      Transport(hasWebSocket, stopped, stream, polling, reconnect, lastKey, sockets, loops, applied, statuses)
    }

    constructor (hasWebSocket: bool)
      ensures Contents() == Start(hasWebSocket)
    {
      this.hasWebSocket := hasWebSocket;
      stopped, stream, polling, reconnect, lastKey := false, NoStream, None, false, None;
      sockets, loops, applied, statuses := [], [], [], [Connecting];
      new;
      Open(false);
    }

    /** A status report, after which the listener may call stop. */
    method Reported(status: Status, listenerStops: bool)
      modifies this
      ensures Contents() == Report(old(Contents()), status, listenerStops)
    {
      statuses := statuses + [status];
      if listenerStops {
        StopUpdates();
      }
    }

    method BeginPolling()
      modifies this`polling, this`loops
      ensures Contents() == StartPolling(old(Contents()))
    {
      if polling.Some? {
        return;
      }
      polling := Some(|loops|);
      loops := loops + [Loop(true, false, true)];
    }

    method EndPolling()
      modifies this`polling, this`loops
      ensures Contents() == StopPolling(old(Contents()))
    {
      if polling.Some? && polling.value < |loops| {
        loops := loops[polling.value := loops[polling.value].(active := false, timer := false)];
      }
      polling := None;
    }

    method EndStream()
      modifies this`stream, this`sockets
      ensures Contents() == StopStream(old(Contents()))
    {
      var handle := stream;
      stream := NoStream;
      if handle.StreamOf? && handle.socket < |sockets| {
        sockets := sockets[handle.socket := sockets[handle.socket].(active := false)];
      }
    }

    method Unavailable(listenerStops: bool)
      modifies this
      ensures Contents() == HandleUnavailable(old(Contents()), listenerStops)
    {
      EndStream();
      Reported(Disconnected, listenerStops);
      BeginPolling();
      if !stopped && !reconnect {
        reconnect := true;
      }
    }

    method Open(listenerStops: bool)
      modifies this
      ensures Contents() == OpenStream(old(Contents()), listenerStops)
    {
      if !hasWebSocket {
        Unavailable(listenerStops);
        stream := NoOpStream;
        return;
      }
      stream := StreamOf(|sockets|);
      sockets := sockets + [Socket(true, false)];
    }

    method ApplyIfChanged(s: Snapshot, source: Source, listenerStops: bool)
      modifies this
      ensures Contents() == ApplyChanged(old(Contents()), s, source, listenerStops)
    {
      var key := UpdateKey(s);
      if lastKey == Some(key) {
        return;
      }
      lastKey := Some(key);
      Reported(if source.Stream? then Streaming else FallbackPolling, listenerStops);
      applied := applied + [(s, source)];
    }

    method OnMessage(s: nat, payload: Option<Snapshot>, stopAt: nat)
      requires s < |sockets|
      modifies this
      ensures Contents() == Step(old(Contents()), Message(s, payload), stopAt)
    {
      if !sockets[s].active {
        return;
      }
      if payload.Some? {
        EndPolling();
        ApplyIfChanged(payload.value, Stream, stopAt == 1);
      }
    }

    method OnDown(s: nat, stopAt: nat)
      requires s < |sockets|
      modifies this
      ensures Contents() == Step(old(Contents()), Down(s), stopAt)
    {
      if !sockets[s].active || sockets[s].reported {
        return;
      }
      sockets := sockets[s := sockets[s].(reported := true)];
      Unavailable(stopAt == 1);
    }

    method OnReconnectTimer(stopAt: nat)
      requires reconnect
      modifies this
      ensures Contents() == Step(old(Contents()), ReconnectFires, stopAt)
    {
      reconnect := false;
      if stopped {
        return;
      }
      Reported(Reconnecting, stopAt == 1);
      Open(stopAt == 2);
    }

    method OnPollTimer(p: nat)
      requires p < |loops| && loops[p].timer
      modifies this`loops
      ensures Contents() == Step(old(Contents()), PollTimerFires(p), 0)
    {
      loops := loops[p := loops[p].(timer := false, loading := true)];
    }

    method OnLoadSettled(p: nat, result: Option<Snapshot>, stopAt: nat)
      requires p < |loops| && loops[p].loading
      modifies this
      ensures Contents() == Step(old(Contents()), LoadSettles(p, result), stopAt)
    {
      loops := loops[p := loops[p].(loading := false)];
      if !loops[p].active {
        return;
      }
      if result.Some? {
        ApplyIfChanged(result.value, Polling, stopAt == 1);
      }
      if loops[p].active {
        loops := loops[p := loops[p].(timer := true)];
      }
    }

    method StopUpdates()
      modifies this
      ensures Contents() == Step(old(Contents()), Stop, 0)
    {
      stopped := true;
      reconnect := false;
      EndStream();
      if polling.Some? && polling.value < |loops| {
        loops := loops[polling.value := loops[polling.value].(active := false, timer := false)];
      }
    }
  }
}
