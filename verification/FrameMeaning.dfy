/**
  * What a live frame shows (ingestion/live_snapshot.py), told of the collector's tables alone:
  * which underlying and which expiry, which rows in which order, and when there is none.
  */
module FrameMeaning {
  import opened Maybe
  import opened OrderedTable
  import opened Lists
  import opened Sorting
  import opened OptionRights
  import opened ImpliedVolatility
  import opened CollectorModel
  import opened LiveSnapshot

  /** A contract of a session with a tick of that session. */
  ghost predicate Ticked(st: State, sid: SessionId, c: Contract, t: OptionTick) {
    && Entry(c.contractId, c) in st.contracts && c.sessionId == sid
    && Entry(c.contractId, t) in st.ticks && t.sessionId == sid
  }

  /** (tick time, contract time, expiry) is no greater. */
  predicate NoNewer(c: Contract, t: OptionTick, c': Contract, t': OptionTick) {
    if t.eventTime != t'.eventTime then t.eventTime < t'.eventTime
    else if c.eventTime != c'.eventTime then c.eventTime < c'.eventTime
    else c.expiry <= c'.expiry
  }

  /** The underlying a request is about: the named session's tick, or the first of the newest ones. */
  ghost predicate UnderlyingFor(st: State, requested: Option<SessionId>, u: UnderlyingTick) {
    match requested
    case Some(sid) => Entry(sid, u) in st.underlying
    case None =>
      exists i :: 0 <= i < |st.underlying| && st.underlying[i].value == u
        && (forall j :: 0 <= j < |st.underlying| ==> st.underlying[j].value.eventTime <= u.eventTime)
        && (forall j :: 0 <= j < i ==> st.underlying[j].value.eventTime < u.eventTime)
  }

  /** The first health report of those received last. */
  ghost predicate HealthOf(st: State, h: Health) {
    exists i :: 0 <= i < |st.health| && st.health[i].value == h
      && (forall j :: 0 <= j < |st.health| ==> st.health[j].value.receivedTime <= h.receivedTime)
      && (forall j :: 0 <= j < i ==> st.health[j].value.receivedTime < h.receivedTime)
  }

  /** A positive spot, or without a spot the mark, or without either the last price; zero counts as missing. */
  predicate SpotIs(u: UnderlyingTick, spot: real) {
    spot > 0.0 &&
    (u.spot == Some(spot)
     || ((u.spot == None || u.spot == Some(0.0))
         && (u.mark == Some(spot) || ((u.mark == None || u.mark == Some(0.0)) && u.last == Some(spot)))))
  }

  /** Microseconds from the snapshot to 20:00 of the expiry day, at least a second, in years of 365 days. */
  predicate YearsLeft(time: int, expiry: int, tau: real) {
    var left := (expiry * 24 + 20) * 3_600_000_000 - time;
    tau * 31_536_000_000_000.0 == if left > 1_000_000 then left as real else 1_000_000.0
  }

  /** The model inputs of a row: five percent rate, one percent dividend yield. */
  predicate InputsOf(inputs: Inputs, spot: real, strike: real, tau: real) {
    inputs.spot == spot && inputs.strike == strike && inputs.tau == tau && inputs.rate == 0.05 && inputs.dividendYield == 0.01
  }

  /** A raw row shows its contract, its tick and the analytics of both. */
  ghost predicate ShowsTick(k: Kernel, raw: RawRow, c: Contract, t: OptionTick, spot: real, tau: real) {
    var r := raw.row;
    && r.contractId == c.contractId && r.right == c.right && r.strike == c.strike
    && r.bid == t.bid && r.ask == t.ask && r.ibkrIv == t.ibkrIv && r.ibkrGamma == t.ibkrGamma && r.carried == t.carried
    && r.mid == (if QuoteUsable(t.bid, t.ask) then Some(MidOf(t.bid.value, t.ask.value)) else None)
    && (exists inputs :: InputsOf(inputs, spot, c.strike, tau)
          && Shows(raw, CalculateRowAnalytics(k, c.right, inputs, t.bid, t.ask, t.ibkrIv, t.ibkrGamma))
          && FallsBack(k, raw, inputs, t.ibkrIv))
  }

  predicate Shows(raw: RawRow, a: RowAnalytics) {
    raw.row.custom == Fields(a.customIv, a.customGamma, a.customVanna) && raw.row.status == a.status
    && raw.row.ivDiff == a.ivDiff && raw.row.gammaDiff == a.gammaDiff
  }

  /** An unsolved row falls back on the greeks at a positive broker's volatility, if the model allows them. */
  ghost predicate FallsBack(k: Kernel, raw: RawRow, inputs: Inputs, ibkrIv: Option<real>) {
    if raw.row.status != Ok && ibkrIv.Some? && ibkrIv.value > 0.0 && InModelScope(inputs)
    then
      var at := inputs.(sigma := ibkrIv.value);
      raw.fallback == Fields(ibkrIv, Some(k.gamma(at)), Some(k.rawVanna(at) * 0.01))
    else raw.fallback == Fields(None, None, None)
  }

  // ---------------------------------------------------------------- the underlying

  ghost predicate FirstGreatest<T>(le: (T, T) -> bool, xs: seq<T>, i: int) {
    && 0 <= i < |xs|
    && (forall j :: 0 <= j < |xs| ==> le(xs[j], xs[i]))
    && (forall j :: 0 <= j < i ==> !le(xs[i], xs[j]))
  }

  lemma {:induction false} FirstMaxIsFirst<T(!new)>(le: (T, T) -> bool, xs: seq<T>) returns (i: nat)
    requires |xs| > 0 && (forall a, b :: le(a, b) || le(b, a)) && (forall a, b, c :: le(a, b) && le(b, c) ==> le(a, c))
    ensures FirstGreatest(le, xs, i) && xs[i] == FirstMax(le, xs)
  {
    var n := |xs| - 1;
    if n == 0 {
      i := 0;
    } else {
      var front := xs[..n];
      i := FirstMaxIsFirst(le, front);
      LongerGreatest(le, front, xs[n], i);
      assert xs == front + [xs[n]];
      if !le(xs[n], front[i]) { i := n; }
    }
  }

  lemma LongerGreatest<T(!new)>(le: (T, T) -> bool, front: seq<T>, last: T, i: nat)
    requires FirstGreatest(le, front, i)
    requires (forall a, b :: le(a, b) || le(b, a)) && (forall a, b, c :: le(a, b) && le(b, c) ==> le(a, c))
    ensures FirstGreatest(le, front + [last], if le(last, front[i]) then i else |front|)
  {
    var xs := front + [last];
    if !le(last, front[i]) {
      forall j | 0 <= j < |front| ensures le(xs[j], last) && !le(last, xs[j]) {
        assert le(front[j], front[i]) && le(front[i], last);
      }
    }
  }

  lemma UnderlyingIsFor(st: State, requested: Option<SessionId>)
    requires WellKeyed(st)
    ensures LatestUnderlying(st, requested).Some? ==> UnderlyingFor(st, requested, LatestUnderlying(st, requested).value)
    ensures LatestUnderlying(st, requested).None? ==> forall u :: !UnderlyingFor(st, requested, u)
  {
    match requested
    case Some(sid) => FindMember(st.underlying, sid);
    case None =>
      if |st.underlying| > 0 {
        var le := (a: UnderlyingTick, b: UnderlyingTick) => a.eventTime <= b.eventTime;
        var i := FirstMaxIsFirst(le, Values(st.underlying));
        forall j | 0 <= j < |st.underlying|
          ensures st.underlying[j].value.eventTime <= st.underlying[i].value.eventTime
          ensures j < i ==> st.underlying[j].value.eventTime < st.underlying[i].value.eventTime
        {
          assert le(Values(st.underlying)[j], Values(st.underlying)[i]);
          assert j < i ==> !le(Values(st.underlying)[i], Values(st.underlying)[j]);
        }
      }
  }

  lemma HealthIsOf(st: State)
    ensures LatestHealth(st).Some? ==> HealthOf(st, LatestHealth(st).value)
    ensures LatestHealth(st).None? <==> |st.health| == 0
  {
    if |st.health| > 0 {
      var le := (a: Health, b: Health) => a.receivedTime <= b.receivedTime;
      var i := FirstMaxIsFirst(le, Values(st.health));
      forall j | 0 <= j < |st.health|
        ensures st.health[j].value.receivedTime <= st.health[i].value.receivedTime
        ensures j < i ==> st.health[j].value.receivedTime < st.health[i].value.receivedTime
      {
        assert le(Values(st.health)[j], Values(st.health)[i]);
        assert j < i ==> !le(Values(st.health)[i], Values(st.health)[j]);
      }
    }
  }

  lemma SpotIsSpot(u: UnderlyingTick, spot: real)
    ensures SpotIs(u, spot) <==> SpotOf(u) == Some(spot) && spot > 0.0
  {}

  // ------------------------------------------------------------------- the expiry

  lemma SessionTables(st: State, sid: SessionId)
    requires WellKeyed(st)
    ensures forall c :: c in SessionContracts(st, sid) <==> Entry(c.contractId, c) in st.contracts && c.sessionId == sid
    ensures forall id, t :: Find(SessionTicks(st, sid), id) == Some(t) <==> Entry(id, t) in st.ticks && t.sessionId == sid
  {
    var cs := Values(st.contracts);
    FilterMembers((c: Contract) => c.sessionId == sid, cs);
    forall c ensures c in cs <==> Entry(c.contractId, c) in st.contracts {
      if c in cs { var i :| 0 <= i < |cs| && cs[i] == c; assert st.contracts[i] in st.contracts; }
      if Entry(c.contractId, c) in st.contracts {
        var i :| 0 <= i < |st.contracts| && st.contracts[i] == Entry(c.contractId, c);
        assert cs[i] == c;
      }
    }
    var own := (e: Entry<ContractId, OptionTick>) => e.value.sessionId == sid;
    FilterMembers(own, st.ticks);
    FilterKeepsDistinctKeys(own, st.ticks);
    forall id, t ensures Find(SessionTicks(st, sid), id) == Some(t) <==> Entry(id, t) in st.ticks && t.sessionId == sid {
      FindMember(SessionTicks(st, sid), id);
    }
  }

  lemma {:induction false} FilterKeepsDistinctKeys(keep: Entry<ContractId, OptionTick> -> bool, t: Table<ContractId, OptionTick>)
    requires DistinctKeys(t)
    ensures DistinctKeys(Filter(keep, t))
  {
    if |t| > 0 {
      TailDistinct(t);
      FilterKeepsDistinctKeys(keep, t[1..]);
      FilterMembers(keep, t[1..]);
      var rest := Filter(keep, t[1..]);
      forall i | 0 <= i < |rest| ensures rest[i].key != t[0].key {
        assert rest[i] in rest;
        var n :| 0 <= n < |t[1..]| && t[1..][n] == rest[i];
      }
    }
  }

  lemma TickedIff(st: State, sid: SessionId, c: Contract, t: OptionTick)
    requires WellKeyed(st)
    ensures Ticked(st, sid, c, t) <==> c in SessionContracts(st, sid) && Find(SessionTicks(st, sid), c.contractId) == Some(t)
  {
    SessionTables(st, sid);
  }

  /** The most recently ticked contract of a session, by (tick time, contract time, expiry). */
  ghost predicate NewestTicked(st: State, sid: SessionId, c: Contract, t: OptionTick) {
    Ticked(st, sid, c, t) && forall c', t' :: Ticked(st, sid, c', t') ==> NoNewer(c', t', c, t)
  }

  lemma NewestTickedExpiry(st: State, sid: SessionId)
    requires WellKeyed(st)
    ensures var expiry := ActiveExpiry(SessionContracts(st, sid), SessionTicks(st, sid));
      if expiry.None? then forall c, t :: !Ticked(st, sid, c, t)
      else exists c, t :: NewestTicked(st, sid, c, t) && c.expiry == expiry.value
  {
    var contracts, ticks := SessionContracts(st, sid), SessionTicks(st, sid);
    var ticked := Filter((c: Contract) => Find(ticks, c.contractId).Some?, contracts);
    FilterMembers((c: Contract) => Find(ticks, c.contractId).Some?, contracts);
    forall c, t ensures Ticked(st, sid, c, t) <==> c in ticked && Find(ticks, c.contractId) == Some(t) { TickedIff(st, sid, c, t); }
    if |ticked| > 0 {
      var le := (a: Contract, b: Contract) => NoLaterThan(ticks, a, b);
      FirstMaxIsGreatest(le, ticked);
      var c := FirstMax(le, ticked);
      var t := Find(ticks, c.contractId).value;
      assert Ticked(st, sid, c, t);
      forall c', t' | Ticked(st, sid, c', t') ensures NoNewer(c', t', c, t) { assert le(c', c); }
      assert NewestTicked(st, sid, c, t);
    }
  }

  // --------------------------------------------------------------------- the rows

  lemma AnalyticsRowShows(k: Kernel, c: Contract, t: OptionTick, spot: real, tau: real)
    ensures ShowsTick(k, AnalyticsRow(k, c, t, spot, tau), c, t, spot, tau)
  {
    var inputs := RowInputs(spot, c.strike, tau);
    assert InputsOf(inputs, spot, c.strike, tau);
    RowAnalyticsAllOrNothing(k, c.right, inputs, t.bid, t.ask, t.ibkrIv, t.ibkrGamma);
    assert Shows(AnalyticsRow(k, c, t, spot, tau), CalculateRowAnalytics(k, c.right, inputs, t.bid, t.ask, t.ibkrIv, t.ibkrGamma));
    assert FallsBack(k, AnalyticsRow(k, c, t, spot, tau), inputs, t.ibkrIv);
  }

  ghost predicate InStrikeOrder(raws: seq<RawRow>) {
    forall i, j :: 0 <= i < j < |raws| ==> StrikeOrdered(raws[i].row, raws[j].row)
  }

  /** A row shows some ticked contract of the list. */
  ghost predicate ShowsOneOf(k: Kernel, raw: RawRow, cs: seq<Contract>, ticks: Table<ContractId, OptionTick>, spot: real, tau: real) {
    exists c, t :: c in cs && Find(ticks, c.contractId) == Some(t) && ShowsTick(k, raw, c, t, spot, tau)
  }

  ghost predicate AllShowOneOf(k: Kernel, raws: seq<RawRow>, cs: seq<Contract>, ticks: Table<ContractId, OptionTick>, spot: real, tau: real) {
    forall i {:trigger raws[i]} :: 0 <= i < |raws| ==> ShowsOneOf(k, raws[i], cs, ticks, spot, tau)
  }

  ghost predicate Shown(k: Kernel, raws: seq<RawRow>, c: Contract, t: OptionTick, spot: real, tau: real) {
    exists i :: 0 <= i < |raws| && ShowsTick(k, raws[i], c, t, spot, tau)
  }

  lemma {:induction false} EachRowShows(k: Kernel, cs: seq<Contract>, ticks: Table<ContractId, OptionTick>, spot: real, tau: real)
    ensures AllShowOneOf(k, RowsFor(k, cs, ticks, spot, tau), cs, ticks, spot, tau)
  {
    if |cs| > 0 {
      var front, c := cs[..|cs| - 1], cs[|cs| - 1];
      EachRowShows(k, front, ticks, spot, tau);
      var before, raws := RowsFor(k, front, ticks, spot, tau), RowsFor(k, cs, ticks, spot, tau);
      assert cs == front + [c];
      forall i | 0 <= i < |raws| ensures ShowsOneOf(k, raws[i], cs, ticks, spot, tau) {
        if i < |before| {
          assert ShowsOneOf(k, before[i], front, ticks, spot, tau);
        } else {
          AnalyticsRowShows(k, c, Find(ticks, c.contractId).value, spot, tau);
        }
      }
    }
  }

  lemma {:induction false} EachTickShown(k: Kernel, cs: seq<Contract>, ticks: Table<ContractId, OptionTick>, spot: real, tau: real,
                                         c: Contract, t: OptionTick)
    requires c in cs && Find(ticks, c.contractId) == Some(t)
    ensures Shown(k, RowsFor(k, cs, ticks, spot, tau), c, t, spot, tau)
  {
    var front := cs[..|cs| - 1];
    var before, raws := RowsFor(k, front, ticks, spot, tau), RowsFor(k, cs, ticks, spot, tau);
    if c in front {
      EachTickShown(k, front, ticks, spot, tau, c, t);
      var i :| 0 <= i < |before| && ShowsTick(k, before[i], c, t, spot, tau);
      assert raws[i] == before[i];
    } else {
      assert c == cs[|cs| - 1];
      AnalyticsRowShows(k, c, t, spot, tau);
      assert raws[|before|] == AnalyticsRow(k, c, t, spot, tau);
    }
  }

  predicate StrikeOrdered(a: Row, b: Row) { a.strike < b.strike || (a.strike == b.strike && (a.right == Call || b.right == Put)) }

  lemma {:induction false} RowsInOrder(k: Kernel, cs: seq<Contract>, ticks: Table<ContractId, OptionTick>, spot: real, tau: real)
    requires Ordered(StrikeRightOrder, cs)
    ensures InStrikeOrder(RowsFor(k, cs, ticks, spot, tau))
  {
    if |cs| > 0 {
      var front, c := cs[..|cs| - 1], cs[|cs| - 1];
      RowsInOrder(k, front, ticks, spot, tau);
      EachRowShows(k, front, ticks, spot, tau);
      var before := RowsFor(k, front, ticks, spot, tau);
      if Find(ticks, c.contractId).Some? {
        var raw := AnalyticsRow(k, c, Find(ticks, c.contractId).value, spot, tau);
        forall i | 0 <= i < |before| ensures StrikeOrdered(before[i].row, raw.row) {
          assert ShowsOneOf(k, before[i], front, ticks, spot, tau);
          var c', t' :| c' in front && Find(ticks, c'.contractId) == Some(t') && ShowsTick(k, before[i], c', t', spot, tau);
          var n :| 0 <= n < |front| && front[n] == c';
          assert StrikeRightOrder(cs[n], cs[|cs| - 1]);
        }
      }
    }
  }

  /** A row shows some ticked contract of the session and expiry. */
  ghost predicate ShowsOwn(k: Kernel, st: State, sid: SessionId, expiry: int, raw: RawRow, spot: real, tau: real) {
    exists c, t :: Ticked(st, sid, c, t) && c.expiry == expiry && ShowsTick(k, raw, c, t, spot, tau)
  }

  /** The rows are exactly the session's ticked contracts of the expiry, in ascending strike with calls first. */
  ghost predicate RowsShow(k: Kernel, st: State, sid: SessionId, expiry: int, raws: seq<RawRow>, spot: real, tau: real) {
    && InStrikeOrder(raws)
    && (forall i :: 0 <= i < |raws| ==> ShowsOwn(k, st, sid, expiry, raws[i], spot, tau))
    && (forall c, t :: Ticked(st, sid, c, t) && c.expiry == expiry ==> Shown(k, raws, c, t, spot, tau))
  }

  lemma ExpiryRowsShow(k: Kernel, st: State, sid: SessionId, expiry: int, spot: real, tau: real)
    requires WellKeyed(st)
    ensures var raws := RowsFor(k, Sort(StrikeRightOrder, ExpiryContracts(SessionContracts(st, sid), expiry)), SessionTicks(st, sid), spot, tau);
      RowsShow(k, st, sid, expiry, raws, spot, tau)
  {
    var contracts, ticks := SessionContracts(st, sid), SessionTicks(st, sid);
    var own := ExpiryContracts(contracts, expiry);
    var sorted := Sort(StrikeRightOrder, own);
    var raws := RowsFor(k, sorted, ticks, spot, tau);
    FilterMembers((c: Contract) => c.expiry == expiry, contracts);
    SortOrdered(StrikeRightOrder, own);
    SortMembers(StrikeRightOrder, own);
    RowsInOrder(k, sorted, ticks, spot, tau);
    EachRowShows(k, sorted, ticks, spot, tau);
    forall i | 0 <= i < |raws| ensures ShowsOwn(k, st, sid, expiry, raws[i], spot, tau) {
      assert ShowsOneOf(k, raws[i], sorted, ticks, spot, tau);
      var c, t :| c in sorted && Find(ticks, c.contractId) == Some(t) && ShowsTick(k, raws[i], c, t, spot, tau);
      TickedIff(st, sid, c, t);
    }
    forall c, t | Ticked(st, sid, c, t) && c.expiry == expiry ensures Shown(k, raws, c, t, spot, tau) {
      TickedIff(st, sid, c, t);
      EachTickShown(k, sorted, ticks, spot, tau, c, t);
    }
  }

  // ------------------------------------------------------------------ the theorems

  /** There is something to show: a health report, an underlying with a spot, and a ticked contract of its session. */
  ghost predicate Showable(st: State, requested: Option<SessionId>) {
    |st.health| > 0 && exists u, spot :: UnderlyingFor(st, requested, u) && SpotIs(u, spot) && AnyTicked(st, u.sessionId)
  }

  ghost predicate AnyTicked(st: State, sid: SessionId) { exists c, t :: Ticked(st, sid, c, t) }

  lemma OneUnderlying(st: State, requested: Option<SessionId>, u: UnderlyingTick)
    requires WellKeyed(st) && UnderlyingFor(st, requested, u)
    ensures LatestUnderlying(st, requested) == Some(u)
  {
    UnderlyingIsFor(st, requested);
    match requested
    case Some(sid) => FindMember(st.underlying, sid);
    case None =>
  }

  lemma SessionShowable(k: Kernel, st: State, u: UnderlyingTick)
    requires WellKeyed(st)
    ensures AnyTicked(st, u.sessionId) <==> ActiveExpiry(SessionContracts(st, u.sessionId), SessionTicks(st, u.sessionId)).Some?
    ensures forall status, spot, time :: AnyTicked(st, u.sessionId) ==>
      SessionFrame(k, status, u, SessionContracts(st, u.sessionId), SessionTicks(st, u.sessionId),
                   ActiveExpiry(SessionContracts(st, u.sessionId), SessionTicks(st, u.sessionId)).value, spot, time).Some?
  {
    var sid := u.sessionId;
    NewestTickedExpiry(st, sid);
    var expiry := ActiveExpiry(SessionContracts(st, sid), SessionTicks(st, sid));
    if expiry.Some? {
      var c, t :| NewestTicked(st, sid, c, t) && c.expiry == expiry.value;
      assert Ticked(st, sid, c, t);
      forall status, spot, time
        ensures SessionFrame(k, status, u, SessionContracts(st, sid), SessionTicks(st, sid), expiry.value, spot, time).Some?
      {
        var tau := TimeToExpiry(time, expiry.value);
        var raws := RowsFor(k, Sort(StrikeRightOrder, ExpiryContracts(SessionContracts(st, sid), expiry.value)), SessionTicks(st, sid), spot, tau);
        ExpiryRowsShow(k, st, sid, expiry.value, spot, tau);
        assert Shown(k, raws, c, t, spot, tau);
      }
    }
  }

  /** There is a frame exactly when there is something to show. */
  lemma FrameExistsIff(k: Kernel, st: State, requested: Option<SessionId>)
    requires WellKeyed(st)
    ensures BuildFrame(k, st, requested).Some? <==> Showable(st, requested)
  {
    UnderlyingIsFor(st, requested);
    HealthIsOf(st);
    var latest := LatestUnderlying(st, requested);
    if latest.Some? {
      SessionShowable(k, st, latest.value);
      if SpotOf(latest.value).Some? { SpotIsSpot(latest.value, SpotOf(latest.value).value); }
      if Showable(st, requested) { ShowableLatest(st, requested, latest.value); }
    }
  }

  /** What is there to show is the latest underlying's. */
  lemma ShowableLatest(st: State, requested: Option<SessionId>, u: UnderlyingTick)
    requires WellKeyed(st) && Showable(st, requested) && LatestUnderlying(st, requested) == Some(u)
    ensures AnyTicked(st, u.sessionId) && SpotOf(u).Some? && SpotOf(u).value > 0.0
  {
    var u', spot :| UnderlyingFor(st, requested, u') && SpotIs(u', spot) && AnyTicked(st, u'.sessionId);
    OneUnderlying(st, requested, u');
    SpotIsSpot(u', spot);
  }

  /** The frame's header: session, symbol, spot, time and status. */
  ghost predicate HeaderOf(st: State, requested: Option<SessionId>, f: Frame) {
    && (exists u :: UnderlyingFor(st, requested, u) && SpotIs(u, f.spot) && f.sessionId == u.sessionId && f.symbol == u.symbol
          && f.snapshotTime == (if st.lastEventTime == None then u.eventTime else st.lastEventTime.value))
    && (exists h :: HealthOf(st, h) && f.sourceStatus == h.status)
  }

  /** Forward and discount at five percent rate and one percent yield. */
  predicate PricesOf(k: Kernel, f: Frame, tau: real) {
    f.forward == f.spot * k.exp(0.04 * tau) && f.discount == k.exp(-(0.05 * tau))
  }

  /**
    * A frame shows the expiry of the session's most recently ticked contract, by tick time, then
    * contract time, then expiry; its rows are exactly the session's ticked contracts of that
    * expiry, in ascending strike with calls first, each with its own tick.
    */
  lemma FrameShows(k: Kernel, st: State, requested: Option<SessionId>, f: Frame, tau: real)
    requires WellKeyed(st) && BuildFrame(k, st, requested) == Some(f) && YearsLeft(f.snapshotTime, f.expiry, tau)
    ensures HeaderOf(st, requested, f) && PricesOf(k, f, tau)
    ensures exists c, t :: NewestTicked(st, f.sessionId, c, t) && c.expiry == f.expiry
    ensures RowsShow(k, st, f.sessionId, f.expiry, f.raws, f.spot, tau)
  {
    var u := LatestUnderlying(st, requested).value;
    YearsAreLeft(f.snapshotTime, f.expiry, tau);
    HeaderIsOf(k, st, requested, f);
    FramePrices(k, st, requested, f, tau);
    NewestTickedExpiry(st, u.sessionId);
    ExpiryRowsShow(k, st, u.sessionId, f.expiry, f.spot, tau);
  }

  lemma HeaderIsOf(k: Kernel, st: State, requested: Option<SessionId>, f: Frame)
    requires WellKeyed(st) && BuildFrame(k, st, requested) == Some(f)
    ensures HeaderOf(st, requested, f)
  {
    UnderlyingIsFor(st, requested);
    HealthIsOf(st);
    SpotIsSpot(LatestUnderlying(st, requested).value, f.spot);
  }

  lemma FramePrices(k: Kernel, st: State, requested: Option<SessionId>, f: Frame, tau: real)
    requires BuildFrame(k, st, requested) == Some(f) && tau == TimeToExpiry(f.snapshotTime, f.expiry)
    ensures PricesOf(k, f, tau)
  {
    var u := LatestUnderlying(st, requested).value;
    SessionPrices(k, f.sourceStatus, u, SessionContracts(st, u.sessionId), SessionTicks(st, u.sessionId), f, tau);
  }

  lemma SessionPrices(k: Kernel, status: string, u: UnderlyingTick, contracts: seq<Contract>,
                      ticks: Table<ContractId, OptionTick>, f: Frame, tau: real)
    requires SessionFrame(k, status, u, contracts, ticks, f.expiry, f.spot, f.snapshotTime) == Some(f)
    requires tau == TimeToExpiry(f.snapshotTime, f.expiry)
    ensures PricesOf(k, f, tau)
  {
    var spot, forward, discount := f.spot, f.forward, f.discount;
    assert forward == ForwardOf(k, spot, tau) && discount == DiscountOf(k, tau);
  }

  // ----------------------------------------------------------------- the snapshot

  /** Present exactly when both are, and then the first less the second. */
  predicate DifferenceOf(d: Option<real>, a: Option<real>, b: Option<real>) {
    (d.Some? <==> a.Some? && b.Some?) && (d.Some? ==> d.value + b.value == a.value)
  }

  /** A finished row is its raw row, but for custom fields out of memory and the differences that follow from them. */
  predicate RowFinished(row: Row, raw: RawRow) {
    && row == raw.row.(custom := row.custom, ivDiff := row.ivDiff, gammaDiff := row.gammaDiff)
    && DifferenceOf(row.ivDiff, row.custom.iv, row.ibkrIv)
    && DifferenceOf(row.gammaDiff, row.custom.gamma, row.ibkrGamma)
  }

  ghost predicate FrameFinished(s: Snapshot, f: Frame) {
    && s == Snapshot(f.sessionId, f.symbol, f.expiry, f.snapshotTime, f.spot, f.forward, f.discount, f.sourceStatus, s.rows)
    && |s.rows| == |f.raws| && forall i :: 0 <= i < |s.rows| ==> RowFinished(s.rows[i], f.raws[i])
  }

  /** A build shows its frame, every row with its own fields and with differences of what it shows; without a frame it changes nothing. */
  lemma SnapshotShows(k: Kernel, st: State, requested: Option<SessionId>, m: Memory, b: Built)
    requires WellKeyed(st) && b == Build(k, st, requested, m)
    ensures b.snapshot.Some? <==> Showable(st, requested)
    ensures b.snapshot.None? ==> b.memory == m
    ensures b.snapshot.Some? ==> FrameFinished(b.snapshot.value, BuildFrame(k, st, requested).value)
  {
    FrameExistsIff(k, st, requested);
    if b.snapshot.Some? {
      var f := BuildFrame(k, st, requested).value;
      FrameRowsDistinct(k, st, requested);
      PassLength(m, f.sessionId, f.raws);
      forall i | 0 <= i < |f.raws| ensures RowFinished(b.snapshot.value.rows[i], f.raws[i]) { PassAt(m, f.sessionId, f.raws, i); }
    }
  }

  /** The dashboard shows its fixed session whenever that has something to show, and else the latest one. */
  lemma DashboardShows(k: Kernel, st: State, m: Memory)
    requires WellKeyed(st)
    ensures DashboardBuild(k, st, m) ==
      Build(k, st, if Showable(st, Some(SPX_DASHBOARD_SESSION_ID)) then Some(SPX_DASHBOARD_SESSION_ID) else None, m)
  {
    SnapshotShows(k, st, Some(SPX_DASHBOARD_SESSION_ID), m, Build(k, st, Some(SPX_DASHBOARD_SESSION_ID), m));
  }

  /** The description of the time left names one number, the one the build uses. */
  lemma YearsAreLeft(time: int, expiry: int, tau: real)
    ensures YearsLeft(time, expiry, tau) <==> tau == TimeToExpiry(time, expiry)
  {}
}
