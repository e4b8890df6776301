/**
  * What the carry-forward memory means over a run of builds (ingestion/live_snapshot.py:
  * `_apply_analytics_memory`, `_prune_analytics_memory`). The builder merges implied
  * volatility, gamma and vanna one field at a time; over any run they still always come from
  * one and the same computation, which is named here without mentioning the memory.
  */
module CarryForward {
  import opened Maybe
  import opened ImpliedVolatility
  import opened CollectorModel
  import opened LiveSnapshot

  datatype BuildCall = BuildCall(state: State, requested: Option<SessionId>)

  function RunBuilds(k: Kernel, calls: seq<BuildCall>): Memory {
    if |calls| == 0 then map[]
    else
      var last := calls[|calls| - 1];
      Build(k, last.state, last.requested, RunBuilds(k, calls[..|calls| - 1])).memory
  }

  /** What one build shows about a contract of a session: nothing, that it is gone, or its own results. */
  datatype Sighting = Silent | Absent | Seen(solved: Option<Greeks>, fallback: Option<Greeks>)

  function Together(f: Fields): Option<Greeks> {
    if f.iv.Some? && f.gamma.Some? && f.vanna.Some? then Some(Greeks(f.iv.value, f.gamma.value, f.vanna.value)) else None
  }

  function Apart(g: Option<Greeks>): Fields {
    if g.Some? then Fields(Some(g.value.iv), Some(g.value.gamma), Some(g.value.vanna)) else NO_FIELDS
  }

  function RawOf(raws: seq<RawRow>, id: ContractId): Option<RawRow> {
    if |raws| == 0 then None
    else if raws[|raws| - 1].row.contractId == id then Some(raws[|raws| - 1])
    else RawOf(raws[..|raws| - 1], id)
  }

  function Sight(k: Kernel, call: BuildCall, sid: SessionId, id: ContractId): Sighting {
    var frame := BuildFrame(k, call.state, call.requested);
    if frame.None? || frame.value.sessionId != sid then Silent
    else
      var raw := RawOf(frame.value.raws, id);
      if raw.None? then Absent else Seen(Together(raw.value.row.custom), Together(raw.value.fallback))
  }

  function Sightings(k: Kernel, calls: seq<BuildCall>, sid: SessionId, id: ContractId): (r: seq<Sighting>)
    ensures |r| == |calls|
  {
    seq(|calls|, i requires 0 <= i < |calls| => Sight(k, calls[i], sid, id))
  }

  /** The results seen since the contract was last absent. */
  function Streak(xs: seq<Sighting>): (r: seq<Sighting>)
    ensures forall x :: x in r ==> x.Seen?
  {
    if |xs| == 0 then []
    else
      var last := xs[|xs| - 1];
      if last.Absent? then []
      else if last.Silent? then Streak(xs[..|xs| - 1])
      else Streak(xs[..|xs| - 1]) + [last]
  }

  function LastSolved(streak: seq<Sighting>): Option<Greeks>
    requires forall x :: x in streak ==> x.Seen?
  {
    if |streak| == 0 then None
    else if streak[|streak| - 1].solved.Some? then streak[|streak| - 1].solved
    else LastSolved(streak[..|streak| - 1])
  }

  function FirstFallback(streak: seq<Sighting>): Option<Greeks>
    requires forall x :: x in streak ==> x.Seen?
  {
    if |streak| == 0 then None
    else if streak[0].fallback.Some? then streak[0].fallback
    else FirstFallback(streak[1..])
  }

  /** The last solved result of the current streak, else the streak's first fallback. */
  function CarriedResult(xs: seq<Sighting>): Option<Greeks> {
    OrElse(LastSolved(Streak(xs)), FirstFallback(Streak(xs)))
  }

  lemma {:induction false} FirstFallbackAppend(streak: seq<Sighting>, last: Sighting)
    requires last.Seen? && forall x :: x in streak ==> x.Seen?
    ensures FirstFallback(streak + [last]) == OrElse(FirstFallback(streak), last.fallback)
  {
    if |streak| > 0 {
      assert (streak + [last])[1..] == streak[1..] + [last];
      FirstFallbackAppend(streak[1..], last);
    }
  }

  lemma CarriedAppend(xs: seq<Sighting>, last: Sighting)
    ensures CarriedResult(xs + [last]) ==
      match last
      case Silent => CarriedResult(xs)
      case Absent => None
      case Seen(solved, fallback) => OrElse(OrElse(solved, CarriedResult(xs)), fallback)
  {
    assert (xs + [last])[..|xs|] == xs;
    if last.Seen? {
      var streak := Streak(xs);
      FirstFallbackAppend(streak, last);
      assert (streak + [last])[..|streak|] == streak;
    }
  }

  // ----------------------------------------------- rows carry whole results

  ghost predicate Whole(f: Fields) { f == Apart(Together(f)) }

  lemma {:induction false} FrameRowsWhole(k: Kernel, cs: seq<Contract>, ticks: OrderedTable.Table<ContractId, OptionTick>,
                                          spot: real, tau: real, i: nat)
    requires i < |RowsFor(k, cs, ticks, spot, tau)|
    ensures Whole(RowsFor(k, cs, ticks, spot, tau)[i].row.custom) && Whole(RowsFor(k, cs, ticks, spot, tau)[i].fallback)
  {
    var init := cs[..|cs| - 1];
    var c := cs[|cs| - 1];
    var t := OrderedTable.Find(ticks, c.contractId);
    if i < |RowsFor(k, init, ticks, spot, tau)| {
      FrameRowsWhole(k, init, ticks, spot, tau, i);
    } else {
      RowAnalyticsAllOrNothing(k, c.right, RowInputs(spot, c.strike, tau), t.value.bid, t.value.ask,
                               t.value.ibkrIv, t.value.ibkrGamma);
    }
  }

  lemma {:induction false} RawOfFinds(raws: seq<RawRow>, id: ContractId)
    ensures RawOf(raws, id).None? <==> id !in RawIds(raws)
    ensures RawOf(raws, id).Some? ==> exists i :: 0 <= i < |raws| && raws[i] == RawOf(raws, id).value && raws[i].row.contractId == id
  {
    if |raws| > 0 {
      var init, last := raws[..|raws| - 1], raws[|raws| - 1];
      RawOfFinds(init, id);
      RawIdsAppend(init, last);
      assert raws == init + [last];
      assert forall i :: 0 <= i < |init| ==> init[i] == raws[i];
    }
  }

  /** Merging whole results field by field picks one of them. */
  lemma MergePicksOne(raw: RawRow, previous: Option<Greeks>)
    requires Whole(raw.row.custom) && Whole(raw.fallback)
    ensures Merge(raw, if previous.Some? then Some(Apart(previous)) else None).custom
         == Apart(OrElse(OrElse(Together(raw.row.custom), previous), Together(raw.fallback)))
  {}

  function Remembered(g: Option<Greeks>): Option<Fields> { if g.Some? then Some(Apart(g)) else None }

  /**
    * Over any run of builds, whatever sessions they are for, the memory of a contract is its
    * carried result: last solved of the unbroken streak, else the streak's first fallback,
    * else nothing.
    */
  lemma {:induction false} CarryForwardMeaning(k: Kernel, calls: seq<BuildCall>, sid: SessionId, id: ContractId)
    requires forall c :: c in calls ==> WellKeyed(c.state)
    ensures Lookup(RunBuilds(k, calls), (sid, id)) == Remembered(CarriedResult(Sightings(k, calls, sid, id)))
  {
    if |calls| > 0 {
      var init, last := calls[..|calls| - 1], calls[|calls| - 1];
      CarryForwardMeaning(k, init, sid, id);
      assert Sightings(k, calls, sid, id) == Sightings(k, init, sid, id) + [Sight(k, last, sid, id)];
      CarriedAppend(Sightings(k, init, sid, id), Sight(k, last, sid, id));
      var frame := BuildFrame(k, last.state, last.requested);
      if frame.Some? {
        FrameRowsDistinct(k, last.state, last.requested);
        FinishMemory(frame.value, RunBuilds(k, init), (sid, id));
        if frame.value.sessionId == sid {
          RawOfFinds(frame.value.raws, id);
          if RawOf(frame.value.raws, id).Some? {
            var i :| 0 <= i < |frame.value.raws| && frame.value.raws[i] == RawOf(frame.value.raws, id).value
                     && frame.value.raws[i].row.contractId == id;
            FrameRawWhole(k, last, i);
            MergePicksOne(frame.value.raws[i], CarriedResult(Sightings(k, init, sid, id)));
          }
        }
      }
    }
  }

  lemma FrameRawWhole(k: Kernel, call: BuildCall, i: nat)
    requires var f := BuildFrame(k, call.state, call.requested); f.Some? && i < |f.value.raws|
    ensures var raw := BuildFrame(k, call.state, call.requested).value.raws[i]; Whole(raw.row.custom) && Whole(raw.fallback)
  {
    var f := BuildFrame(k, call.state, call.requested).value;
    var u := LatestUnderlying(call.state, call.requested).value;
    FrameRowsWhole(k, Sorting.Sort(StrikeRightOrder, ExpiryContracts(SessionContracts(call.state, u.sessionId), f.expiry)),
                   SessionTicks(call.state, u.sessionId), f.spot, TimeToExpiry(f.snapshotTime, f.expiry), i);
  }

  /**
    * Every row of a snapshot shows its contract's carried result, this build included: all
    * three custom fields of one computation, or none of them.
    */
  lemma SnapshotRowsShowCarried(k: Kernel, calls: seq<BuildCall>, call: BuildCall, i: nat)
    requires WellKeyed(call.state) && forall c :: c in calls ==> WellKeyed(c.state)
    requires var b := Build(k, call.state, call.requested, RunBuilds(k, calls)); b.snapshot.Some? && i < |b.snapshot.value.rows|
    ensures var s := Build(k, call.state, call.requested, RunBuilds(k, calls)).snapshot.value;
      s.rows[i].custom == Apart(CarriedResult(Sightings(k, calls + [call], s.sessionId, s.rows[i].contractId)))
  {
    var m := RunBuilds(k, calls);
    var f := BuildFrame(k, call.state, call.requested).value;
    FrameRowsDistinct(k, call.state, call.requested);
    PassLength(m, f.sessionId, f.raws);
    PassAt(m, f.sessionId, f.raws, i);
    MergedRowIsCarried(k, calls, call, f, i);
  }

  lemma MergedRowIsCarried(k: Kernel, calls: seq<BuildCall>, call: BuildCall, f: Frame, i: nat)
    requires forall c :: c in calls ==> WellKeyed(c.state)
    requires BuildFrame(k, call.state, call.requested) == Some(f) && DistinctRows(f.raws) && i < |f.raws|
    ensures var key := (f.sessionId, f.raws[i].row.contractId);
      Merge(f.raws[i], Lookup(RunBuilds(k, calls), key)).custom
      == Apart(CarriedResult(Sightings(k, calls + [call], key.0, key.1)))
  {
    var raw := f.raws[i];
    var sid, id := f.sessionId, raw.row.contractId;
    CarryForwardMeaning(k, calls, sid, id);
    FrameRawWhole(k, call, i);
    MergePicksOne(raw, CarriedResult(Sightings(k, calls, sid, id)));
    SightOfRow(k, call, i);
    assert Sightings(k, calls + [call], sid, id) == Sightings(k, calls, sid, id) + [Sight(k, call, sid, id)];
    CarriedAppend(Sightings(k, calls, sid, id), Sight(k, call, sid, id));
  }

  lemma SightOfRow(k: Kernel, call: BuildCall, i: nat)
    requires var f := BuildFrame(k, call.state, call.requested);
      f.Some? && DistinctRows(f.value.raws) && i < |f.value.raws|
    ensures var f := BuildFrame(k, call.state, call.requested).value;
      Sight(k, call, f.sessionId, f.raws[i].row.contractId)
      == Seen(Together(f.raws[i].row.custom), Together(f.raws[i].fallback))
  {
    RawOfFinds(BuildFrame(k, call.state, call.requested).value.raws,
               BuildFrame(k, call.state, call.requested).value.raws[i].row.contractId);
  }
}
