/**
  * Building a live snapshot (ingestion/live_snapshot.py). A build is split into a frame,
  * which depends on the collector state alone, and a pass that fills the frame's rows from
  * the carry-forward memory and writes the memory back.
  */
module LiveSnapshot {
  import opened Maybe
  import opened OrderedTable
  import opened Lists
  import opened Sorting
  import opened Uniqueness
  import opened OptionRights
  import opened ImpliedVolatility
  import opened CollectorModel

  const RISK_FREE_RATE: real := 0.05
  const DIVIDEND_YIELD: real := 0.01
  const SPX_DASHBOARD_SESSION_ID: SessionId := "moomoo-spx-0dte-live"
  const SECOND: int := 1_000_000
  const DAY: int := 86_400 * SECOND
  const CUTOFF_IN_DAY: int := 72_000 * SECOND
  const YEAR: int := 365 * DAY

  /** The three remembered fields, each present or absent on its own. */
  datatype Fields = Fields(iv: Option<real>, gamma: Option<real>, vanna: Option<real>) {
    predicate Any() { iv.Some? || gamma.Some? || vanna.Some? }

    /** Fields of `this` where present, else those of `other`. */
    function Over(other: Fields): Fields {
      Fields(OrElse(iv, other.iv), OrElse(gamma, other.gamma), OrElse(vanna, other.vanna))
    }
  }

  const NO_FIELDS := Fields(None, None, None)

  datatype Row = Row(
    contractId: ContractId, right: Right, strike: real,
    bid: Option<real>, ask: Option<real>, mid: Option<real>,
    custom: Fields, ibkrIv: Option<real>, ibkrGamma: Option<real>,
    ivDiff: Option<real>, gammaDiff: Option<real>, status: CalcStatus, carried: Carried)

  /** A row before the memory is applied, with its raw-volatility fallback. */
  datatype RawRow = RawRow(row: Row, fallback: Fields)

  datatype Frame = Frame(
    sessionId: SessionId, symbol: string, expiry: int, snapshotTime: int,
    spot: real, forward: real, discount: real, sourceStatus: string, raws: seq<RawRow>)

  datatype Snapshot = Snapshot(
    sessionId: SessionId, symbol: string, expiry: int, snapshotTime: int,
    spot: real, forward: real, discount: real, sourceStatus: string, rows: seq<Row>)

  type MemoryKey = (SessionId, ContractId)
  type Memory = map<MemoryKey, Fields>

  // ------------------------------------------------------------------ one row

  function TimeToExpiry(time: int, expiry: int): real {
    var left := expiry * DAY + CUTOFF_IN_DAY - time;
    (if left < SECOND then SECOND else left) as real / YEAR as real
  }

  function RowInputs(spot: real, strike: real, tau: real): Inputs {
    Inputs(spot, strike, tau, RISK_FREE_RATE, DIVIDEND_YIELD, SIGMA_MIN)
  }

  /** Greeks at the broker's volatility; inputs outside the model give none. */
  function RawIvFallback(k: Kernel, inputs: Inputs, ibkrIv: Option<real>): Fields {
    if ibkrIv.None? || ibkrIv.value <= 0.0 || !ModelInputValid(inputs.(sigma := ibkrIv.value)) then NO_FIELDS
    else
      var g := GreeksAt(k, inputs.(sigma := ibkrIv.value));
      Fields(Some(g.iv), Some(g.gamma), Some(g.vanna))
  }

  function AnalyticsRow(k: Kernel, c: Contract, t: OptionTick, spot: real, tau: real): RawRow {
    var inputs := RowInputs(spot, c.strike, tau);
    var a := CalculateRowAnalytics(k, c.right, inputs, t.bid, t.ask, t.ibkrIv, t.ibkrGamma);
    var custom := Fields(a.customIv, a.customGamma, a.customVanna);
    var fallback :=
      if a.customIv.None? || a.customGamma.None? || a.customVanna.None? then RawIvFallback(k, inputs, t.ibkrIv)
      else NO_FIELDS;
    RawRow(Row(c.contractId, c.right, c.strike, t.bid, t.ask, MidPrice(t.bid, t.ask).sigma, custom,
               t.ibkrIv, t.ibkrGamma, a.ivDiff, a.gammaDiff, a.status, t.carried), fallback)
  }

  function Diff(a: Option<real>, b: Option<real>): Option<real> {
    if a.Some? && b.Some? then Some(a.value - b.value) else None
  }

  /** The row's own fields, then the remembered ones, then the fallback; the diffs follow. */
  function Merge(raw: RawRow, previous: Option<Fields>): Row {
    var remembered := if previous.Some? then raw.row.custom.Over(previous.value) else raw.row.custom;
    var custom := remembered.Over(raw.fallback);
    raw.row.(custom := custom, ivDiff := Diff(custom.iv, raw.row.ibkrIv), gammaDiff := Diff(custom.gamma, raw.row.ibkrGamma))
  }

  function Store(m: Memory, key: MemoryKey, fields: Fields): Memory {
    if fields.Any() then m[key := fields] else m
  }

  function Kept(previous: Option<Fields>, fields: Fields): Option<Fields> {
    if fields.Any() then Some(fields) else previous
  }

  // ---------------------------------------------------------------- the frame

  function Truthy(x: Option<real>): bool { x.Some? && x.value != 0.0 }

  function SpotOf(u: UnderlyingTick): Option<real> {
    if Truthy(u.spot) then u.spot else if Truthy(u.mark) then u.mark else u.last
  }

  /** Lexicographic order on (tick time, contract time, expiry). */
  predicate NoLaterThan(ticks: Table<ContractId, OptionTick>, a: Contract, b: Contract) {
    var ta, tb := TickTime(ticks, a.contractId), TickTime(ticks, b.contractId);
    ta < tb || (ta == tb && (a.eventTime < b.eventTime || (a.eventTime == b.eventTime && a.expiry <= b.expiry)))
  }

  function TickTime(ticks: Table<ContractId, OptionTick>, id: ContractId): int {
    var t := Find(ticks, id);
    if t.Some? then t.value.eventTime else 0
  }

  function ActiveExpiry(contracts: seq<Contract>, ticks: Table<ContractId, OptionTick>): Option<int> {
    var ticked := Filter((c: Contract) => Find(ticks, c.contractId).Some?, contracts);
    if |ticked| == 0 then None
    else Some(FirstMax((a: Contract, b: Contract) => NoLaterThan(ticks, a, b), ticked).expiry)
  }

  /** (strike, right) order, calls first. */
  predicate StrikeRightOrder(a: Contract, b: Contract) {
    a.strike < b.strike || (a.strike == b.strike && (a.right.Call? || b.right.Put?))
  }

  function SessionContracts(st: State, sid: SessionId): seq<Contract> {
    Filter((c: Contract) => c.sessionId == sid, Values(st.contracts))
  }

  function SessionTicks(st: State, sid: SessionId): Table<ContractId, OptionTick> {
    Filter((e: Entry<ContractId, OptionTick>) => e.value.sessionId == sid, st.ticks)
  }

  function ExpiryContracts(contracts: seq<Contract>, expiry: int): seq<Contract> {
    Filter((c: Contract) => c.expiry == expiry, contracts)
  }

  function RowsFor(k: Kernel, contracts: seq<Contract>, ticks: Table<ContractId, OptionTick>, spot: real, tau: real): seq<RawRow> {
    if |contracts| == 0 then []
    else
      var c := contracts[|contracts| - 1];
      var t := Find(ticks, c.contractId);
      RowsFor(k, contracts[..|contracts| - 1], ticks, spot, tau)
      + (if t.Some? then [AnalyticsRow(k, c, t.value, spot, tau)] else [])
  }

  function BuildFrame(k: Kernel, st: State, requested: Option<SessionId>): Option<Frame> {
    var health := LatestHealth(st);
    var underlying := LatestUnderlying(st, requested);
    if health.None? || underlying.None? then None
    else
      var u := underlying.value;
      var contracts := SessionContracts(st, u.sessionId);
      var ticks := SessionTicks(st, u.sessionId);
      var expiry := ActiveExpiry(contracts, ticks);
      var spot := SpotOf(u);
      if expiry.None? || spot.None? || spot.value <= 0.0 then None
      else
        var time := if st.lastEventTime.Some? then st.lastEventTime.value else u.eventTime;
        SessionFrame(k, health.value.status, u, contracts, ticks, expiry.value, spot.value, time)
  }

  /** The frame of one session and expiry, if any of its contracts has a tick. */
  function SessionFrame(k: Kernel, status: string, u: UnderlyingTick, contracts: seq<Contract>,
                        ticks: Table<ContractId, OptionTick>, expiry: int, spot: real, time: int): Option<Frame> {
    var tau := TimeToExpiry(time, expiry);
    var raws := RowsFor(k, Sort(StrikeRightOrder, ExpiryContracts(contracts, expiry)), ticks, spot, tau);
    if |raws| == 0 then None
    else Some(Frame(u.sessionId, u.symbol, expiry, time, spot,
                    ForwardOf(k, spot, tau), DiscountOf(k, tau), status, raws))
  }

  function ForwardOf(k: Kernel, spot: real, tau: real): real { spot * k.exp((RISK_FREE_RATE - DIVIDEND_YIELD) * tau) }

  function DiscountOf(k: Kernel, tau: real): real { k.exp(-(RISK_FREE_RATE * tau)) }

  // ------------------------------------------------------- the pass over the rows

  datatype Pass = Pass(rows: seq<Row>, memory: Memory)

  function RunPass(m: Memory, sid: SessionId, raws: seq<RawRow>): Pass {
    if |raws| == 0 then Pass([], m)
    else
      var before := RunPass(m, sid, raws[..|raws| - 1]);
      var raw := raws[|raws| - 1];
      var key := (sid, raw.row.contractId);
      var row := Merge(raw, Lookup(before.memory, key));
      Pass(before.rows + [row], Store(before.memory, key, row.custom))
  }

  function RawIds(raws: seq<RawRow>): set<ContractId> {
    set i | 0 <= i < |raws| :: raws[i].row.contractId
  }

  function Prune(m: Memory, sid: SessionId, active: set<ContractId>): Memory {
    map key | key in m && !(key.0 == sid && key.1 !in active) :: m[key]
  }

  datatype Built = Built(snapshot: Option<Snapshot>, memory: Memory)

  function Finish(f: Frame, m: Memory): (Snapshot, Memory) {
    var pass := RunPass(m, f.sessionId, f.raws);
    (Snapshot(f.sessionId, f.symbol, f.expiry, f.snapshotTime, f.spot, f.forward, f.discount, f.sourceStatus, pass.rows),
     Prune(pass.memory, f.sessionId, RawIds(f.raws)))
  }

  function FinishAny(frame: Option<Frame>, m: Memory): Built {
    if frame.None? then Built(None, m)
    else var (snapshot, memory) := Finish(frame.value, m); Built(Some(snapshot), memory)
  }

  function Build(k: Kernel, st: State, requested: Option<SessionId>, m: Memory): Built {
    FinishAny(BuildFrame(k, st, requested), m)
  }

  function DashboardBuild(k: Kernel, st: State, m: Memory): Built {
    var first := Build(k, st, Some(SPX_DASHBOARD_SESSION_ID), m);
    if first.snapshot.Some? then first else Build(k, st, None, first.memory)
  }

  // ------------------------------------------------- what a pass does, key by key

  ghost predicate DistinctRows(raws: seq<RawRow>) {
    forall i, j :: 0 <= i < j < |raws| ==> raws[i].row.contractId != raws[j].row.contractId
  }

  lemma {:induction false} PassLeavesOthers(m: Memory, sid: SessionId, raws: seq<RawRow>, key: MemoryKey)
    requires key.0 != sid || key.1 !in RawIds(raws)
    ensures Lookup(RunPass(m, sid, raws).memory, key) == Lookup(m, key)
  {
    if |raws| > 0 {
      var init, last := raws[..|raws| - 1], raws[|raws| - 1];
      assert raws == init + [last];
      RawIdsAppend(init, last);
      PassLeavesOthers(m, sid, init, key);
    }
  }

  lemma {:induction false} PassLength(m: Memory, sid: SessionId, raws: seq<RawRow>)
    ensures |RunPass(m, sid, raws).rows| == |raws|
  {
    if |raws| > 0 { PassLength(m, sid, raws[..|raws| - 1]); }
  }

  lemma {:induction false} PassAt(m: Memory, sid: SessionId, raws: seq<RawRow>, i: nat)
    requires DistinctRows(raws) && i < |raws|
    ensures var p := RunPass(m, sid, raws); var key := (sid, raws[i].row.contractId);
      && |p.rows| == |raws|
      && p.rows[i] == Merge(raws[i], Lookup(m, key))
      && Lookup(p.memory, key) == Kept(Lookup(m, key), p.rows[i].custom)
  {
    var init, last := raws[..|raws| - 1], raws[|raws| - 1];
    var key := (sid, raws[i].row.contractId);
    assert forall j :: 0 <= j < |init| ==> init[j] == raws[j];
    PassLength(m, sid, init);
    PassLeavesOthers(m, sid, init, (sid, last.row.contractId));
    if i < |init| {
      PassAt(m, sid, init, i);
    }
  }

  /** Each row is merged with what the memory held before the pass; no other key changes. */
  lemma PassPointwise(m: Memory, sid: SessionId, raws: seq<RawRow>)
    requires DistinctRows(raws)
    ensures var p := RunPass(m, sid, raws);
      && |p.rows| == |raws|
      && (forall i :: 0 <= i < |raws| ==> p.rows[i] == Merge(raws[i], Lookup(m, (sid, raws[i].row.contractId))))
      && (forall i :: 0 <= i < |raws| ==>
            Lookup(p.memory, (sid, raws[i].row.contractId))
            == Kept(Lookup(m, (sid, raws[i].row.contractId)), p.rows[i].custom))
      && (forall key: MemoryKey :: key.0 != sid || key.1 !in RawIds(raws) ==> Lookup(p.memory, key) == Lookup(m, key))
  {
    var p := RunPass(m, sid, raws);
    PassLength(m, sid, raws);
    forall i | 0 <= i < |raws|
      ensures p.rows[i] == Merge(raws[i], Lookup(m, (sid, raws[i].row.contractId)))
      ensures Lookup(p.memory, (sid, raws[i].row.contractId)) == Kept(Lookup(m, (sid, raws[i].row.contractId)), p.rows[i].custom)
    {
      PassAt(m, sid, raws, i);
    }
    forall key: MemoryKey | key.0 != sid || key.1 !in RawIds(raws) ensures Lookup(p.memory, key) == Lookup(m, key) {
      PassLeavesOthers(m, sid, raws, key);
    }
  }

  lemma SameLookupsSameMemory(a: Memory, b: Memory)
    requires forall key :: Lookup(a, key) == Lookup(b, key)
    ensures a == b
  {
    forall key ensures key in a <==> key in b { assert Lookup(a, key) == Lookup(b, key); }
    forall key | key in a ensures a[key] == b[key] { assert Lookup(a, key) == Lookup(b, key); }
  }

  lemma PruneLookup(m: Memory, sid: SessionId, active: set<ContractId>, key: MemoryKey)
    ensures Lookup(Prune(m, sid, active), key) == if key.0 == sid && key.1 !in active then None else Lookup(m, key)
  {}

  /** The memory after a build: merged fields for its rows, nothing else of its session, others as before. */
  lemma FinishMemory(f: Frame, m: Memory, key: MemoryKey)
    requires DistinctRows(f.raws)
    ensures var (s, m') := Finish(f, m);
      && (key.0 != f.sessionId ==> Lookup(m', key) == Lookup(m, key))
      && (key.0 == f.sessionId && key.1 !in RawIds(f.raws) ==> Lookup(m', key) == None)
      && (forall i :: 0 <= i < |f.raws| && key == (f.sessionId, f.raws[i].row.contractId) ==>
            Lookup(m', key) == Kept(Lookup(m, key), Merge(f.raws[i], Lookup(m, key)).custom))
  {
    PassPointwise(m, f.sessionId, f.raws);
    PruneLookup(RunPass(m, f.sessionId, f.raws).memory, f.sessionId, RawIds(f.raws), key);
  }

  /** Merging a row again with what the first merge remembered gives the same row. */
  lemma MergeIsStable(raw: RawRow, previous: Option<Fields>)
    ensures var row := Merge(raw, previous);
      && Merge(raw, Kept(previous, row.custom)) == row
      && Kept(Kept(previous, row.custom), row.custom) == Kept(previous, row.custom)
  {}

  /** A build is a fixed point: building the same frame again gives the same snapshot and memory. */
  lemma FinishIsFixedPoint(f: Frame, m: Memory)
    requires DistinctRows(f.raws)
    ensures Finish(f, Finish(f, m).1) == Finish(f, m)
  {
    var m1 := Finish(f, m).1;
    var m2 := Finish(f, m1).1;
    RebuiltRows(f, m, m1);
    forall key: MemoryKey ensures Lookup(m2, key) == Lookup(m1, key) {
      RebuiltMemory(f, m, m1, m2, key);
    }
    SameLookupsSameMemory(m2, m1);
  }

  lemma RebuiltRows(f: Frame, m: Memory, m1: Memory)
    requires DistinctRows(f.raws) && m1 == Finish(f, m).1
    ensures RunPass(m1, f.sessionId, f.raws).rows == RunPass(m, f.sessionId, f.raws).rows
  {
    PassPointwise(m, f.sessionId, f.raws);
    PassPointwise(m1, f.sessionId, f.raws);
    forall i | 0 <= i < |f.raws|
      ensures RunPass(m1, f.sessionId, f.raws).rows[i] == RunPass(m, f.sessionId, f.raws).rows[i]
    {
      FinishMemory(f, m, (f.sessionId, f.raws[i].row.contractId));
      MergeIsStable(f.raws[i], Lookup(m, (f.sessionId, f.raws[i].row.contractId)));
    }
  }

  lemma RebuiltMemory(f: Frame, m: Memory, m1: Memory, m2: Memory, key: MemoryKey)
    requires DistinctRows(f.raws) && m1 == Finish(f, m).1 && m2 == Finish(f, m1).1
    ensures Lookup(m2, key) == Lookup(m1, key)
  {
    FinishMemory(f, m, key);
    FinishMemory(f, m1, key);
    if key.0 == f.sessionId && key.1 in RawIds(f.raws) {
      var i :| 0 <= i < |f.raws| && f.raws[i].row.contractId == key.1;
      assert key == (f.sessionId, f.raws[i].row.contractId);
      MergeIsStable(f.raws[i], Lookup(m, key));
    }
  }

  ghost predicate SameOnSession(a: Memory, b: Memory, sid: SessionId) {
    forall id: ContractId :: Lookup(a, (sid, id)) == Lookup(b, (sid, id))
  }

  /** A snapshot reads its own session's part of the memory only. */
  lemma FinishReadsOwnSession(f: Frame, a: Memory, b: Memory)
    requires DistinctRows(f.raws) && SameOnSession(a, b, f.sessionId)
    ensures Finish(f, a).0 == Finish(f, b).0
    ensures SameOnSession(Finish(f, a).1, Finish(f, b).1, f.sessionId)
  {
    PassPointwise(a, f.sessionId, f.raws);
    PassPointwise(b, f.sessionId, f.raws);
    assert Finish(f, a).0.rows == Finish(f, b).0.rows;
    forall id: ContractId ensures Lookup(Finish(f, a).1, (f.sessionId, id)) == Lookup(Finish(f, b).1, (f.sessionId, id)) {
      var key := (f.sessionId, id);
      FinishMemory(f, a, key);
      FinishMemory(f, b, key);
      if id in RawIds(f.raws) {
        var i :| 0 <= i < |f.raws| && f.raws[i].row.contractId == id;
        assert key == (f.sessionId, f.raws[i].row.contractId);
        assert Lookup(a, key) == Lookup(b, key);
      }
    }
  }

  // --------------------------------------------- rows of a frame have distinct contracts

  ghost predicate UniqueIds(cs: seq<Contract>) {
    && (forall a, b :: a in cs && b in cs && a.contractId == b.contractId ==> a == b)
    && (forall a :: multiset(cs)[a] <= 1)
  }

  lemma FilterKeepsUniqueIds(keep: Contract -> bool, cs: seq<Contract>)
    requires UniqueIds(cs)
    ensures UniqueIds(Filter(keep, cs))
  {
    FilterMembers(keep, cs);
    FilterMultiset(keep, cs);
  }

  lemma SortKeepsUniqueIds(cs: seq<Contract>)
    requires UniqueIds(cs)
    ensures UniqueIds(Sort(StrikeRightOrder, cs))
  {
    SortKeeps(StrikeRightOrder, cs);
    SortMembers(StrikeRightOrder, cs);
  }

  lemma StateContractsUnique(st: State)
    requires WellKeyed(st)
    ensures UniqueIds(Values(st.contracts))
  {
    var cs := Values(st.contracts);
    forall i, j | 0 <= i < j < |cs| ensures cs[i].contractId != cs[j].contractId {
      assert st.contracts[i] in st.contracts && st.contracts[j] in st.contracts;
    }
    DistinctMeansOnce(cs);
  }

  lemma {:induction false} RowsForDistinct(k: Kernel, cs: seq<Contract>, ticks: Table<ContractId, OptionTick>, spot: real, tau: real)
    requires forall i, j :: 0 <= i < j < |cs| ==> cs[i].contractId != cs[j].contractId
    ensures DistinctRows(RowsFor(k, cs, ticks, spot, tau))
    ensures RawIds(RowsFor(k, cs, ticks, spot, tau)) <= set i | 0 <= i < |cs| :: cs[i].contractId
  {
    if |cs| > 0 {
      var init := cs[..|cs| - 1];
      assert forall i :: 0 <= i < |init| ==> init[i] == cs[i];
      RowsForDistinct(k, init, ticks, spot, tau);
      var before := RowsFor(k, init, ticks, spot, tau);
      assert forall i :: 0 <= i < |before| ==> before[i].row.contractId in RawIds(before);
    }
  }

  lemma FrameRowsDistinct(k: Kernel, st: State, requested: Option<SessionId>)
    requires WellKeyed(st) && BuildFrame(k, st, requested).Some?
    ensures DistinctRows(BuildFrame(k, st, requested).value.raws)
  {
    var f := BuildFrame(k, st, requested).value;
    var u := LatestUnderlying(st, requested).value;
    var contracts := SessionContracts(st, u.sessionId);
    StateContractsUnique(st);
    FilterKeepsUniqueIds((c: Contract) => c.sessionId == u.sessionId, Values(st.contracts));
    FilterKeepsUniqueIds((c: Contract) => c.expiry == f.expiry, contracts);
    var sorted := Sort(StrikeRightOrder, ExpiryContracts(contracts, f.expiry));
    SortKeepsUniqueIds(ExpiryContracts(contracts, f.expiry));
    OnceMeansDistinct(sorted);
    RowsForDistinct(k, sorted, SessionTicks(st, u.sessionId), f.spot, TimeToExpiry(f.snapshotTime, f.expiry));
  }

  // ---------------------------------------------------------------- the shared memory

  /** The process-wide carry-forward memory, changed by every build. */
  class AnalyticsMemory {
    var values: Memory

    constructor ()
      ensures values == map[]
    {
      values := map[];
    }

    method Apply(sid: SessionId, raw: RawRow) returns (row: Row)
      modifies this
      ensures row == Merge(raw, Lookup(old(values), (sid, raw.row.contractId)))
      ensures values == Store(old(values), (sid, raw.row.contractId), row.custom)
    {
      var key := (sid, raw.row.contractId);
      var custom := raw.row.custom;
      if key in values {
        custom := custom.Over(values[key]);
      }
      custom := custom.Over(raw.fallback);
      if custom.Any() {
        values := values[key := custom];
      }
      row := raw.row.(custom := custom);
      row := row.(ivDiff := Diff(row.custom.iv, row.ibkrIv), gammaDiff := Diff(row.custom.gamma, row.ibkrGamma));
    }

    method PruneSession(sid: SessionId, active: set<ContractId>)
      modifies this
      ensures values == Prune(old(values), sid, active)
    {
      var keys := values.Keys;
      ghost var before := values;
      while keys != {}
        invariant keys <= before.Keys
        invariant forall key :: key in values <==> key in before && (key in keys || !(key.0 == sid && key.1 !in active))
        invariant forall key :: key in values ==> values[key] == before[key]
        decreases |keys|
      {
        var key :| key in keys;
        if key.0 == sid && key.1 !in active {
          values := values - {key};
        }
        keys := keys - {key};
      }
    }

    /** The loop over the sorted contracts of one expiry. */
    method FillRows(k: Kernel, sid: SessionId, sorted: seq<Contract>, ticks: Table<ContractId, OptionTick>, spot: real, tau: real)
      returns (rows: seq<Row>, active: set<ContractId>)
      modifies this
      ensures Pass(rows, values) == RunPass(old(values), sid, RowsFor(k, sorted, ticks, spot, tau))
      ensures active == RawIds(RowsFor(k, sorted, ticks, spot, tau))
    {
      rows, active := [], {};
      ghost var raws: seq<RawRow> := [];
      var i := 0;
      while i < |sorted|
        invariant 0 <= i <= |sorted|
        invariant raws == RowsFor(k, sorted[..i], ticks, spot, tau)
        invariant Pass(rows, values) == RunPass(old(values), sid, raws)
        invariant active == RawIds(raws)
      {
        var c := sorted[i];
        assert sorted[..i + 1][..i] == sorted[..i];
        var t := Find(ticks, c.contractId);
        if t.Some? {
          var raw := AnalyticsRow(k, c, t.value, spot, tau);
          assert (raws + [raw])[..|raws|] == raws;
          RawIdsAppend(raws, raw);
          var row := Apply(sid, raw);
          rows := rows + [row];
          active := active + {c.contractId};
          raws := raws + [raw];
        }
        i := i + 1;
      }
      assert sorted[..i] == sorted;
    }

    method BuildLiveSnapshot(k: Kernel, st: State, requested: Option<SessionId>) returns (snapshot: Option<Snapshot>)
      modifies this
      ensures Built(snapshot, values) == Build(k, st, requested, old(values))
    {
      var health := LatestHealth(st);
      var underlying := LatestUnderlying(st, requested);
      if health.None? || underlying.None? || |st.contracts| == 0 || |st.ticks| == 0 {
        NoInputsNoFrame(k, st, requested);
        return None;
      }
      var u := underlying.value;
      var contracts := SessionContracts(st, u.sessionId);
      var ticks := SessionTicks(st, u.sessionId);
      if |contracts| == 0 || |ticks| == 0 {
        NoTicksNoExpiry(contracts, ticks);
        return None;
      }
      var time := if st.lastEventTime.Some? then st.lastEventTime.value else u.eventTime;
      var expiry := ActiveExpiry(contracts, ticks);
      if expiry.None? {
        return None;
      }
      var spot := SpotOf(u);
      if spot.None? || spot.value <= 0.0 {
        return None;
      }
      snapshot := BuildSession(k, health.value.status, u, contracts, ticks, expiry.value, spot.value, time);
    }

    method BuildSession(k: Kernel, status: string, u: UnderlyingTick, contracts: seq<Contract>,
                        ticks: Table<ContractId, OptionTick>, expiry: int, spot: real, time: int)
      returns (snapshot: Option<Snapshot>)
      modifies this
      ensures Built(snapshot, values) == FinishAny(SessionFrame(k, status, u, contracts, ticks, expiry, spot, time), old(values))
    {
      var tau := TimeToExpiry(time, expiry);
      var forward, discount := ForwardOf(k, spot, tau), DiscountOf(k, tau);
      var sorted := Sort(StrikeRightOrder, ExpiryContracts(contracts, expiry));
      ghost var raws := RowsFor(k, sorted, ticks, spot, tau);
      PassLength(values, u.sessionId, raws);
      var rows, active := FillRows(k, u.sessionId, sorted, ticks, spot, tau);
      if |rows| == 0 {
        return None;
      }
      PruneSession(u.sessionId, active);
      snapshot := Some(Snapshot(u.sessionId, u.symbol, expiry, time, spot, forward, discount, status, rows));
    }

    method BuildDashboardSnapshot(k: Kernel, st: State) returns (snapshot: Option<Snapshot>)
      modifies this
      ensures Built(snapshot, values) == DashboardBuild(k, st, old(values))
    {
      snapshot := BuildLiveSnapshot(k, st, Some(SPX_DASHBOARD_SESSION_ID));
      if snapshot.None? {
        snapshot := BuildLiveSnapshot(k, st, None);
      }
    }
  }

  lemma RawIdsAppend(raws: seq<RawRow>, raw: RawRow)
    ensures RawIds(raws + [raw]) == RawIds(raws) + {raw.row.contractId}
  {
    var next := raws + [raw];
    assert next[|raws|] == raw;
    forall id | id in RawIds(raws) ensures id in RawIds(next) {
      var i :| 0 <= i < |raws| && raws[i].row.contractId == id;
      assert next[i].row.contractId == id;
    }
  }

  lemma NoInputsNoFrame(k: Kernel, st: State, requested: Option<SessionId>)
    requires LatestHealth(st).None? || LatestUnderlying(st, requested).None? || |st.contracts| == 0 || |st.ticks| == 0
    ensures BuildFrame(k, st, requested) == None
  {
    if LatestUnderlying(st, requested).Some? {
      var sid := LatestUnderlying(st, requested).value.sessionId;
      if |st.contracts| == 0 || |st.ticks| == 0 {
        assert |st.contracts| == 0 ==> Values(st.contracts) == [];
        NoTicksNoExpiry(SessionContracts(st, sid), SessionTicks(st, sid));
      }
    }
  }

  lemma NoTicksNoExpiry(contracts: seq<Contract>, ticks: Table<ContractId, OptionTick>)
    requires |contracts| == 0 || |ticks| == 0
    ensures ActiveExpiry(contracts, ticks) == None
  {
    FilterMembers((c: Contract) => Find(ticks, c.contractId).Some?, contracts);
    var ticked := Filter((c: Contract) => Find(ticks, c.contractId).Some?, contracts);
    if |ticked| > 0 { assert ticked[0] in ticked; }
  }
}
