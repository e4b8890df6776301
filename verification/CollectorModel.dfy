/**
  * The collector's latest state (ingestion/collector_state.py): four tables keyed by
  * collector, contract, session and contract, a revision counted up by every event and an
  * epoch drawn afresh by every clear. Times are integers in the order of their texts.
  */
module CollectorModel {
  import opened Maybe
  import opened OrderedTable
  import opened Lists
  import opened OptionRights
  import opened ImpliedVolatility

  type SessionId = string
  type ContractId = string

  datatype Health = Health(collectorId: string, status: string, eventTime: int, receivedTime: int)

  datatype Contract = Contract(
    contractId: ContractId, sessionId: SessionId, expiry: int, right: Right, strike: real, eventTime: int)

  datatype UnderlyingTick = UnderlyingTick(
    sessionId: SessionId, symbol: string, eventTime: int,
    spot: Option<real>, mark: Option<real>, last: Option<real>)

  /** Tick fields that a row only repeats. */
  datatype Carried = Carried(
    last: Option<real>, bidSize: Option<real>, askSize: Option<real>, volume: Option<real>,
    openInterest: Option<int>, ibkrDelta: Option<real>, ibkrVega: Option<real>, ibkrTheta: Option<real>)

  datatype OptionTick = OptionTick(
    contractId: ContractId, sessionId: SessionId, eventTime: int,
    bid: Option<real>, ask: Option<real>, ibkrIv: Option<real>, ibkrGamma: Option<real>, carried: Carried)

  datatype CollectorEvent =
    | HealthEvent(health: Health)
    | ContractEvent(contract: Contract)
    | UnderlyingEvent(underlying: UnderlyingTick)
    | OptionEvent(tick: OptionTick)
  {
    function EventTime(): int {
      match this
      case HealthEvent(h) => h.eventTime
      case ContractEvent(c) => c.eventTime
      case UnderlyingEvent(u) => u.eventTime
      case OptionEvent(o) => o.eventTime
    }
  }

  datatype State = State(
    epoch: nat,
    revision: nat,
    health: Table<string, Health>,
    contracts: Table<ContractId, Contract>,
    underlying: Table<SessionId, UnderlyingTick>,
    ticks: Table<ContractId, OptionTick>,
    lastEventTime: Option<int>)

  function Cleared(epoch: nat): State { State(epoch, 0, [], [], [], [], None) }

  function Ingested(s: State, e: CollectorEvent): State {
    var next := s.(revision := s.revision + 1, lastEventTime := Some(e.EventTime()));
    match e
    case HealthEvent(h) => next.(health := SetEntry(s.health, h.collectorId, h))
    case ContractEvent(c) => next.(contracts := SetEntry(s.contracts, c.contractId, c))
    case UnderlyingEvent(u) => next.(underlying := SetEntry(s.underlying, u.sessionId, u))
    case OptionEvent(o) => next.(ticks := SetEntry(s.ticks, o.contractId, o))
  }

  /** Every table has one entry per key, filed under the key its value names. */
  ghost predicate WellKeyed(s: State) {
    && DistinctKeys(s.health) && DistinctKeys(s.contracts) && DistinctKeys(s.underlying) && DistinctKeys(s.ticks)
    && (forall e :: e in s.contracts ==> e.key == e.value.contractId)
    && (forall e :: e in s.underlying ==> e.key == e.value.sessionId)
    && (forall e :: e in s.ticks ==> e.key == e.value.contractId)
  }

  lemma IngestKeepsWellKeyed(s: State, e: CollectorEvent)
    requires WellKeyed(s)
    ensures WellKeyed(Ingested(s, e))
  {
    match e
    case HealthEvent(h) => SetEntryMembers(s.health, h.collectorId, h);
    case ContractEvent(c) => SetEntryMembers(s.contracts, c.contractId, c);
    case UnderlyingEvent(u) => SetEntryMembers(s.underlying, u.sessionId, u);
    case OptionEvent(o) => SetEntryMembers(s.ticks, o.contractId, o);
  }

  // -------------------------------------------------------------- runs of events

  function Folded(epoch: nat, events: seq<CollectorEvent>): State {
    if |events| == 0 then Cleared(epoch) else Ingested(Folded(epoch, events[..|events| - 1]), events[|events| - 1])
  }

  /** What kind of event it is, and of which collector, contract or session. */
  datatype Subject = OfCollector(id: string) | OfContract(id: ContractId) | OfUnderlying(id: SessionId) | OfTick(id: ContractId)

  function About(e: CollectorEvent): Subject {
    match e
    case HealthEvent(h) => OfCollector(h.collectorId)
    case ContractEvent(c) => OfContract(c.contractId)
    case UnderlyingEvent(u) => OfUnderlying(u.sessionId)
    case OptionEvent(o) => OfTick(o.contractId)
  }

  /** The event a state holds on a subject. */
  function Stored(s: State, x: Subject): Option<CollectorEvent> {
    match x
    case OfCollector(id) => (match Find(s.health, id) case Some(h) => Some(HealthEvent(h)) case None => None)
    case OfContract(id) => (match Find(s.contracts, id) case Some(c) => Some(ContractEvent(c)) case None => None)
    case OfUnderlying(id) => (match Find(s.underlying, id) case Some(u) => Some(UnderlyingEvent(u)) case None => None)
    case OfTick(id) => (match Find(s.ticks, id) case Some(o) => Some(OptionEvent(o)) case None => None)
  }

  ghost predicate LastAbout(events: seq<CollectorEvent>, x: Subject, i: int) {
    0 <= i < |events| && About(events[i]) == x && forall j :: i < j < |events| ==> About(events[j]) != x
  }

  lemma StoredAfter(s: State, e: CollectorEvent, x: Subject)
    ensures Stored(Ingested(s, e), x) == if About(e) == x then Some(e) else Stored(s, x)
  {
    match e
    case HealthEvent(h) => if x.OfCollector? { FindSetEntry(s.health, h.collectorId, h, x.id); }
    case ContractEvent(c) => if x.OfContract? { FindSetEntry(s.contracts, c.contractId, c, x.id); }
    case UnderlyingEvent(u) => if x.OfUnderlying? { FindSetEntry(s.underlying, u.sessionId, u, x.id); }
    case OptionEvent(o) => if x.OfTick? { FindSetEntry(s.ticks, o.contractId, o, x.id); }
  }

  predicate HappenedAt(e: CollectorEvent, time: Option<int>) {
    match e
    case HealthEvent(h) => time == Some(h.eventTime)
    case ContractEvent(c) => time == Some(c.eventTime)
    case UnderlyingEvent(u) => time == Some(u.eventTime)
    case OptionEvent(o) => time == Some(o.eventTime)
  }

  /** `stored` is the last event about a subject, if there is any. */
  ghost predicate HoldsLast(events: seq<CollectorEvent>, x: Subject, stored: Option<CollectorEvent>) {
    match stored
    case Some(e) => exists i :: LastAbout(events, x, i) && events[i] == e
    case None => forall i :: 0 <= i < |events| ==> About(events[i]) != x
  }

  lemma OneMoreEvent(front: seq<CollectorEvent>, last: CollectorEvent, events: seq<CollectorEvent>, x: Subject, stored: Option<CollectorEvent>)
    requires events == front + [last] && HoldsLast(front, x, stored)
    ensures HoldsLast(events, x, if About(last) == x then Some(last) else stored)
  {
    if About(last) == x {
      assert LastAbout(events, x, |front|);
    } else if stored.Some? {
      var i :| LastAbout(front, x, i) && front[i] == stored.value;
      assert LastAbout(events, x, i) && events[i] == front[i];
    }
  }

  /** Since a clear, a state holds the last event on every subject and none on others, and counts them all. */
  lemma {:induction false} StateHoldsLastEvents(epoch: nat, events: seq<CollectorEvent>, x: Subject)
    ensures var s := Folded(epoch, events);
      && s.epoch == epoch && s.revision == |events|
      && (if |events| == 0 then s.lastEventTime == None else HappenedAt(events[|events| - 1], s.lastEventTime))
      && HoldsLast(events, x, Stored(s, x))
  {
    if |events| > 0 {
      var front, last := events[..|events| - 1], events[|events| - 1];
      var before := Folded(epoch, front);
      StateHoldsLastEvents(epoch, front, x);
      StoredAfter(before, last, x);
      OneMoreEvent(front, last, events, x, Stored(before, x));
    }
  }

  function Values<K, V>(t: Table<K, V>): (r: seq<V>)
    ensures |r| == |t| && forall i :: 0 <= i < |t| ==> r[i] == t[i].value
  {
    Map((e: Entry<K, V>) => e.value, t)
  }

  function LatestHealth(s: State): Option<Health> {
    if |s.health| == 0 then None
    else Some(FirstMax((a: Health, b: Health) => a.receivedTime <= b.receivedTime, Values(s.health)))
  }

  function LatestUnderlying(s: State, sid: Option<SessionId>): Option<UnderlyingTick> {
    if sid.Some? then Find(s.underlying, sid.value)
    else if |s.underlying| == 0 then None
    else Some(FirstMax((a: UnderlyingTick, b: UnderlyingTick) => a.eventTime <= b.eventTime, Values(s.underlying)))
  }

  /** The latest tick over all sessions is the tick stored for its own session. */
  lemma LatestIsItsSessionsTick(s: State)
    requires WellKeyed(s) && LatestUnderlying(s, None).Some?
    ensures var u := LatestUnderlying(s, None).value; LatestUnderlying(s, Some(u.sessionId)) == Some(u)
  {
    var u := LatestUnderlying(s, None).value;
    var i :| 0 <= i < |s.underlying| && Values(s.underlying)[i] == u;
    assert s.underlying[i] in s.underlying;
    FindMember(s.underlying, u.sessionId);
  }

  class CollectorState {
    var epoch: nat
    var revision: nat
    var health: Table<string, Health>
    var contracts: Table<ContractId, Contract>
    var underlying: Table<SessionId, UnderlyingTick>
    var ticks: Table<ContractId, OptionTick>
    var lastEventTime: Option<int>

    ghost function Contents(): State
      reads this
    {
      State(epoch, revision, health, contracts, underlying, ticks, lastEventTime)
    }

    constructor (freshEpoch: nat)
      ensures Contents() == Cleared(freshEpoch)
    {
      epoch, revision, lastEventTime := freshEpoch, 0, None;
      health, contracts, underlying, ticks := [], [], [], [];
    }

    method Clear(freshEpoch: nat)
      modifies this
      ensures Contents() == Cleared(freshEpoch)
    {
      epoch := freshEpoch;
      revision := 0;
      health, contracts, underlying, ticks := [], [], [], [];
      lastEventTime := None;
    }

    method Ingest(e: CollectorEvent)
      modifies this
      ensures Contents() == Ingested(old(Contents()), e)
    {
      lastEventTime := Some(e.EventTime());
      match e {
        case HealthEvent(h) => health := SetEntry(health, h.collectorId, h);
        case ContractEvent(c) => contracts := SetEntry(contracts, c.contractId, c);
        case UnderlyingEvent(u) => underlying := SetEntry(underlying, u.sessionId, u);
        case OptionEvent(o) => ticks := SetEntry(ticks, o.contractId, o);
      }
      revision := revision + 1;
    }

    method Snapshot() returns (s: State)
      ensures s == Contents()
    {
      s := State(epoch, revision, health, contracts, underlying, ticks, lastEventTime);
    }
  }
}
