/**
  * Flow estimation (experimental_flow/estimator.py): the flow of each contract between two
  * snapshots, and its grouping by strike. Quantities are reals; a field that is missing or
  * not a finite number is None.
  */
module FlowEstimator {
  import opened Maybe
  import opened OptionRights
  import opened Lists
  import opened OrderedTable
  import opened AscendingKeys
  import opened Grouping

  const MULTIPLIER: real := 100.0
  const ONE_PERCENT: real := 0.01

  datatype Aggressor = Buy | WeakBuy | Sell | WeakSell | Unknown

  datatype SourceRow = SourceRow(
    contractId: string, right: Option<Right>, strike: Option<real>,
    volume: Option<real>, bid: Option<real>, ask: Option<real>, mid: Option<real>, last: Option<real>,
    delta: Option<real>, gamma: Option<real>, vanna: Option<real>, theta: Option<real>)

  datatype ContractFlow = ContractFlow(
    contractId: string, right: Right, strike: real, volumeDelta: real, aggressor: Aggressor, signed: real,
    premium: real, delta: Option<real>, gamma: Option<real>, vanna: Option<real>, theta: Option<real>)

  datatype StrikeFlow = StrikeFlow(
    strike: real, callBuy: real, callSell: real, putBuy: real, putSell: real,
    premium: real, delta: Option<real>, gamma: Option<real>, dealerPressure: Option<real>)

  datatype Summary = Summary(
    buy: real, sell: real, net: real, premium: real, delta: Option<real>, gamma: Option<real>, dealerPressure: Option<real>)

  datatype Flow = Flow(summary: Summary, strikes: seq<StrikeFlow>, contracts: seq<ContractFlow>)

  // ------------------------------------------------------------------ one contract

  predicate Valid(row: SourceRow) {
    row.contractId != "" && row.right.Some? && row.strike.Some? && row.strike.value > 0.0
  }

  function Weight(a: Aggressor): real {
    match a
    case Buy => 1.0
    case WeakBuy => 0.5
    case Sell => -1.0
    case WeakSell => -0.5
    case Unknown => 0.0
  }

  /** A trade at or through the ask of a quote buys, at or through its bid sells. */
  function AgainstQuote(last: real, quote: SourceRow): Option<Aggressor> {
    if quote.ask.Some? && last >= quote.ask.value then Some(Buy)
    else if quote.bid.Some? && last <= quote.bid.value then Some(Sell)
    else None
  }

  function AgainstMark(current: SourceRow, previous: SourceRow): Aggressor {
    var now, before := OrElse(current.mid, current.last), OrElse(previous.mid, previous.last);
    if now.Some? && before.Some? && now.value > before.value then WeakBuy
    else if now.Some? && before.Some? && now.value < before.value then WeakSell
    else Unknown
  }

  function ClassifyAggressor(current: SourceRow, previous: Option<SourceRow>): Aggressor {
    var byPrevious := if current.last.Some? && previous.Some? then AgainstQuote(current.last.value, previous.value) else None;
    var byCurrent := if current.last.Some? then AgainstQuote(current.last.value, current) else None;
    if byPrevious.Some? then byPrevious.value
    else if byCurrent.Some? then byCurrent.value
    else if previous.Some? then AgainstMark(current, previous.value)
    else Unknown
  }

  function VolumeDelta(current: SourceRow, previous: Option<SourceRow>): real {
    if previous.None? || previous.value.volume.None? then 0.0
    else
      var raw := OrElse(current.volume, Some(0.0)).value - previous.value.volume.value;
      if raw > 0.0 then raw else 0.0
  }

  /** The first positive one of mid, last, bid and ask. */
  function Price(row: SourceRow): Option<real> {
    if row.mid.Some? && row.mid.value > 0.0 then row.mid
    else if row.last.Some? && row.last.value > 0.0 then row.last
    else if row.bid.Some? && row.bid.value > 0.0 then row.bid
    else if row.ask.Some? && row.ask.value > 0.0 then row.ask
    else None
  }

  function EstimateContractFlow(current: SourceRow, previous: Option<SourceRow>, spot: real): ContractFlow
    requires Valid(current)
  {
    var volumeDelta := VolumeDelta(current, previous);
    var aggressor := ClassifyAggressor(current, previous);
    var signed := volumeDelta * Weight(aggressor);
    ContractFlow(
      current.contractId, current.right.value, current.strike.value, volumeDelta, aggressor, signed,
      PremiumFlow(signed, Price(current)),
      SpotFlow(signed, current.delta, spot), GammaFlow(signed, current.gamma, spot), SpotFlow(signed, current.vanna, spot),
      if current.theta.Some? then Some(ThetaFlow(signed, current.theta.value)) else None)
  }

  function PremiumFlow(signed: real, price: Option<real>): real { signed * OrElse(price, Some(0.0)).value * MULTIPLIER }

  function DollarFlow(signed: real, greek: real, spot: real): real { signed * greek * spot * MULTIPLIER }

  /** For a move of the spot by one percent. */
  function PercentFlow(signed: real, greek: real, spot: real): real { signed * greek * spot * spot * ONE_PERCENT * MULTIPLIER }

  function ThetaFlow(signed: real, theta: real): real { signed * theta * MULTIPLIER }

  /** Delta and vanna flow; a spot that is missing or not positive gives none. */
  function SpotFlow(signed: real, greek: Option<real>, spot: real): Option<real> {
    if greek.Some? && spot > 0.0 then Some(DollarFlow(signed, greek.value, spot)) else None
  }

  function GammaFlow(signed: real, greek: Option<real>, spot: real): Option<real> {
    if greek.Some? && spot > 0.0 then Some(PercentFlow(signed, greek.value, spot)) else None
  }

  /** The row of a contract in the previous snapshot: of several, the last. */
  function PreviousRow(rows: seq<SourceRow>, id: string): Option<SourceRow> {
    if |rows| == 0 then None
    else
      var row := rows[|rows| - 1];
      if Valid(row) && row.contractId == id then Some(row) else PreviousRow(rows[..|rows| - 1], id)
  }

  function ContractFlows(current: seq<SourceRow>, previous: seq<SourceRow>, spot: real): seq<ContractFlow> {
    if |current| == 0 then []
    else if Valid(current[0])
    then [EstimateContractFlow(current[0], PreviousRow(previous, current[0].contractId), spot)] + ContractFlows(current[1..], previous, spot)
    else ContractFlows(current[1..], previous, spot)
  }

  // -------------------------------------------------------------- sums of contracts

  function StrikeOf(): ContractFlow -> real { (c: ContractFlow) => c.strike }

  function Bought(): ContractFlow -> real { (c: ContractFlow) => if c.signed > 0.0 then c.signed else 0.0 }

  function Sold(): ContractFlow -> real { (c: ContractFlow) => if c.signed < 0.0 then -c.signed else 0.0 }

  function BoughtRight(right: Right): ContractFlow -> real {
    (c: ContractFlow) => if c.right == right && c.signed > 0.0 then c.signed else 0.0
  }

  function SoldRight(right: Right): ContractFlow -> real {
    (c: ContractFlow) => if c.right == right && c.signed < 0.0 then -c.signed else 0.0
  }

  function Premium(): ContractFlow -> real { (c: ContractFlow) => c.premium }

  function Delta(): ContractFlow -> Option<real> { (c: ContractFlow) => c.delta }

  function Gamma(): ContractFlow -> Option<real> { (c: ContractFlow) => c.gamma }

  function Negated(x: Option<real>): Option<real> { if x.None? then None else Some(-x.value) }

  function Summarized(rows: seq<ContractFlow>): Summary {
    var buy, sell := Total(RealSum(), Bought(), rows), Total(RealSum(), Sold(), rows);
    var gamma := Total(NullableSum(), Gamma(), rows);
    Summary(buy, sell, buy - sell, Total(RealSum(), Premium(), rows), Total(NullableSum(), Delta(), rows), gamma, Negated(gamma))
  }

  function StrikeTotals(strike: real, rows: seq<ContractFlow>): StrikeFlow {
    var gamma := Total(NullableSum(), Gamma(), rows);
    StrikeFlow(
      strike,
      Total(RealSum(), BoughtRight(Call), rows), Total(RealSum(), SoldRight(Call), rows),
      Total(RealSum(), BoughtRight(Put), rows), Total(RealSum(), SoldRight(Put), rows),
      Total(RealSum(), Premium(), rows), Total(NullableSum(), Delta(), rows), gamma, Negated(gamma))
  }

  /** Strictly ascending strikes, one for each strike that has contracts, each the totals of its contracts. */
  ghost predicate GroupedByStrike(rows: seq<ContractFlow>, strikes: seq<StrikeFlow>) {
    && (forall i, j :: 0 <= i < j < |strikes| ==> strikes[i].strike < strikes[j].strike)
    && (forall c :: c in rows ==> exists i :: 0 <= i < |strikes| && strikes[i].strike == c.strike)
    && (forall i :: 0 <= i < |strikes| ==>
      AtKey(StrikeOf(), rows, strikes[i].strike) != [] && strikes[i] == StrikeTotals(strikes[i].strike, AtKey(StrikeOf(), rows, strikes[i].strike)))
  }

  // ------------------------------------------------------------------ conservation

  function BuyAt(): StrikeFlow -> real { (s: StrikeFlow) => s.callBuy + s.putBuy }

  function SellAt(): StrikeFlow -> real { (s: StrikeFlow) => s.callSell + s.putSell }

  function PremiumAt(): StrikeFlow -> real { (s: StrikeFlow) => s.premium }

  function DeltaAt(): StrikeFlow -> Option<real> { (s: StrikeFlow) => s.delta }

  function GammaAt(): StrikeFlow -> Option<real> { (s: StrikeFlow) => s.gamma }

  function StrikeKey(): StrikeFlow -> real { (s: StrikeFlow) => s.strike }

  lemma {:induction false} CallsAndPuts(rows: seq<ContractFlow>)
    ensures Total(RealSum(), Bought(), rows) == Total(RealSum(), BoughtRight(Call), rows) + Total(RealSum(), BoughtRight(Put), rows)
    ensures Total(RealSum(), Sold(), rows) == Total(RealSum(), SoldRight(Call), rows) + Total(RealSum(), SoldRight(Put), rows)
  {
    if |rows| > 0 { CallsAndPuts(rows[1..]); }
  }

  lemma {:induction false} ColumnConserved<T(!new)>(m: Monoid<T>, f: ContractFlow -> T, g: StrikeFlow -> T, rows: seq<ContractFlow>, strikes: seq<StrikeFlow>)
    requires Commutative(m) && GroupedByStrike(rows, strikes)
    requires forall i :: 0 <= i < |strikes| ==> g(strikes[i]) == Total(m, f, AtKey(StrikeOf(), rows, strikes[i].strike))
    ensures Total(m, g, strikes) == Total(m, f, rows)
  {
    forall c | c in rows ensures exists i :: 0 <= i < |strikes| && StrikeKey()(strikes[i]) == StrikeOf()(c) {
      var i :| 0 <= i < |strikes| && strikes[i].strike == c.strike;
      assert StrikeKey()(strikes[i]) == StrikeOf()(c);
    }
    GroupsConserve(m, StrikeOf(), f, rows, StrikeKey(), g, strikes);
  }

  lemma ContractsConserved(rows: seq<ContractFlow>, strikes: seq<StrikeFlow>)
    requires GroupedByStrike(rows, strikes)
    ensures Total(RealSum(), BuyAt(), strikes) == Summarized(rows).buy
    ensures Total(RealSum(), SellAt(), strikes) == Summarized(rows).sell
  {
    RealSumCommutes();
    forall i | 0 <= i < |strikes|
      ensures BuyAt()(strikes[i]) == Total(RealSum(), Bought(), AtKey(StrikeOf(), rows, strikes[i].strike))
      ensures SellAt()(strikes[i]) == Total(RealSum(), Sold(), AtKey(StrikeOf(), rows, strikes[i].strike))
    {
      CallsAndPuts(AtKey(StrikeOf(), rows, strikes[i].strike));
    }
    ColumnConserved(RealSum(), Bought(), BuyAt(), rows, strikes);
    ColumnConserved(RealSum(), Sold(), SellAt(), rows, strikes);
  }

  lemma FlowsConserved(rows: seq<ContractFlow>, strikes: seq<StrikeFlow>)
    requires GroupedByStrike(rows, strikes)
    ensures Total(RealSum(), PremiumAt(), strikes) == Summarized(rows).premium
    ensures Total(NullableSum(), DeltaAt(), strikes) == Summarized(rows).delta
    ensures Total(NullableSum(), GammaAt(), strikes) == Summarized(rows).gamma
  {
    RealSumCommutes();
    NullableSumCommutes();
    ColumnConserved(RealSum(), Premium(), PremiumAt(), rows, strikes);
    ColumnConserved(NullableSum(), Delta(), DeltaAt(), rows, strikes);
    ColumnConserved(NullableSum(), Gamma(), GammaAt(), rows, strikes);
  }

  /** Grouping by strike loses and doubles nothing: every column adds up to the summary. */
  lemma StrikeRowsConserveTotals(rows: seq<ContractFlow>, strikes: seq<StrikeFlow>)
    requires GroupedByStrike(rows, strikes)
    ensures var s := Summarized(rows);
      && Total(RealSum(), BuyAt(), strikes) == s.buy
      && Total(RealSum(), SellAt(), strikes) == s.sell
      && Total(RealSum(), PremiumAt(), strikes) == s.premium
      && Total(NullableSum(), DeltaAt(), strikes) == s.delta
      && Total(NullableSum(), GammaAt(), strikes) == s.gamma
      && s.net == Total(RealSum(), BuyAt(), strikes) - Total(RealSum(), SellAt(), strikes)
  {
    ContractsConserved(rows, strikes);
    FlowsConserved(rows, strikes);
  }

  /** The summed delta and gamma are absent exactly when no contract has one. */
  lemma AbsentTotalsIff(rows: seq<ContractFlow>)
    ensures Summarized(rows).delta.None? <==> forall c :: c in rows ==> c.delta.None?
    ensures Summarized(rows).gamma.None? <==> forall c :: c in rows ==> c.gamma.None?
    ensures Summarized(rows).dealerPressure.None? <==> Summarized(rows).gamma.None?
  {
    NullableTotalNone(Delta(), rows);
    NullableTotalNone(Gamma(), rows);
    assert forall c :: c in rows ==> Delta()(c) == c.delta && Gamma()(c) == c.gamma;
  }

  // --------------------------------------------------------------------- the loops

  function Itself(): Option<real> -> Option<real> { (v: Option<real>) => v }

  lemma OneMoreValue(values: seq<Option<real>>, v: Option<real>)
    ensures Total(NullableSum(), Itself(), values + [v]) == AddNullable(Total(NullableSum(), Itself(), values), v)
  {
    NullableSumCommutes();
    TotalAppend(NullableSum(), Itself(), values, v);
  }

  method SumNullable(values: seq<Option<real>>) returns (total: Option<real>)
    ensures total == Total(NullableSum(), Itself(), values)
  {
    total := None;
    for i := 0 to |values|
      invariant total == Total(NullableSum(), Itself(), values[..i])
    {
      assert values[..i + 1] == values[..i] + [values[i]];
      OneMoreValue(values[..i], values[i]);
      total := AddNullable(total, values[i]);
    }
    assert values[..|values|] == values;
  }

  ghost predicate GroupsRows(grouped: Table<real, seq<ContractFlow>>, rows: seq<ContractFlow>) {
    && DistinctKeys(grouped)
    && (forall k: real :: Find(grouped, k) == if AtKey(StrikeOf(), rows, k) == [] then None else Some(AtKey(StrikeOf(), rows, k)))
  }

  method GroupContracts(rows: seq<ContractFlow>) returns (grouped: Table<real, seq<ContractFlow>>)
    ensures GroupsRows(grouped, rows)
  {
    grouped := [];
    for i := 0 to |rows|
      invariant GroupsRows(grouped, rows[..i])
    {
      var c := rows[i];
      assert rows[..i + 1] == rows[..i] + [c];
      var group := OrElse(Find(grouped, c.strike), Some([])).value + [c];
      forall k: real
        ensures Find(SetEntry(grouped, c.strike, group), k) ==
          if AtKey(StrikeOf(), rows[..i + 1], k) == [] then None else Some(AtKey(StrikeOf(), rows[..i + 1], k))
      {
        FindSetEntry(grouped, c.strike, group, k);
        AtKeyAppend(StrikeOf(), rows[..i], c, k);
      }
      SetEntryMembers(grouped, c.strike, group);
      grouped := SetEntry(grouped, c.strike, group);
    }
    assert rows[..|rows|] == rows;
  }

  method StrikeRows(rows: seq<ContractFlow>) returns (strikes: seq<StrikeFlow>)
    ensures GroupedByStrike(rows, strikes)
  {
    var grouped := GroupContracts(rows);
    var keys := SortedKeys(grouped);
    SortedKeysAscend(grouped);
    strikes := [];
    while |strikes| < |keys|
      invariant |strikes| <= |keys|
      invariant forall i :: 0 <= i < |strikes| ==>
        strikes[i] == StrikeTotals(keys[i], AtKey(StrikeOf(), rows, keys[i]))
    {
      var k := keys[|strikes|];
      assert k in keys;
      strikes := strikes + [StrikeTotals(k, Find(grouped, k).value)];
    }
    KeysGroupRows(rows, keys, strikes);
  }

  lemma KeysGroupRows(rows: seq<ContractFlow>, keys: seq<real>, strikes: seq<StrikeFlow>)
    requires |strikes| == |keys| && forall i, j :: 0 <= i < j < |keys| ==> keys[i] < keys[j]
    requires forall k: real :: k in keys <==> AtKey(StrikeOf(), rows, k) != []
    requires forall i :: 0 <= i < |strikes| ==> strikes[i] == StrikeTotals(keys[i], AtKey(StrikeOf(), rows, keys[i]))
    ensures GroupedByStrike(rows, strikes)
  {
    forall i | 0 <= i < |strikes| ensures AtKey(StrikeOf(), rows, strikes[i].strike) != [] {
      assert keys[i] in keys;
    }
    forall c | c in rows ensures exists i :: 0 <= i < |strikes| && strikes[i].strike == c.strike {
      FilterMembers(HasKey(StrikeOf(), c.strike), rows);
      assert c in AtKey(StrikeOf(), rows, c.strike);
      assert c.strike in keys;
      var i :| 0 <= i < |keys| && keys[i] == c.strike;
      assert strikes[i].strike == c.strike;
    }
  }

  method EstimateFlow(current: seq<SourceRow>, previous: seq<SourceRow>, spot: Option<real>) returns (flow: Flow)
    ensures flow.contracts == ContractFlows(current, previous, OrElse(spot, Some(0.0)).value)
    ensures flow.summary == Summarized(flow.contracts)
    ensures GroupedByStrike(flow.contracts, flow.strikes)
  {
    var contracts := ContractFlows(current, previous, OrElse(spot, Some(0.0)).value);
    var strikes := StrikeRows(contracts);
    flow := Flow(Summarized(contracts), strikes, contracts);
  }

  /** A contract's signed flow is bounded by its volume and points the way its aggressor does. */
  lemma SignedFlowBounded(current: SourceRow, previous: Option<SourceRow>, spot: real)
    requires Valid(current)
    ensures var f := EstimateContractFlow(current, previous, spot);
      && f.volumeDelta >= 0.0 && -f.volumeDelta <= f.signed <= f.volumeDelta
      && (f.signed > 0.0 <==> f.volumeDelta > 0.0 && f.aggressor in {Buy, WeakBuy})
      && (f.signed < 0.0 <==> f.volumeDelta > 0.0 && f.aggressor in {Sell, WeakSell})
      && (f.premium > 0.0 <==> f.signed > 0.0 && Price(current).Some?)
  {
    var f := EstimateContractFlow(current, previous, spot);
    match f.aggressor
    case Buy => assert f.signed == f.volumeDelta;
    case WeakBuy => assert f.signed == f.volumeDelta / 2.0;
    case Sell => assert f.signed == -f.volumeDelta;
    case WeakSell => assert f.signed == -f.volumeDelta / 2.0;
    case Unknown => assert f.signed == 0.0;
    PremiumSign(f.signed, Price(current));
  }

  /** A higher last price never makes a trade look less like a buy, crossed quotes included. */
  lemma AggressorMonotone(current: SourceRow, previous: Option<SourceRow>, low: real, high: real)
    requires low <= high
    ensures Weight(ClassifyAggressor(current.(last := Some(low)), previous))
         <= Weight(ClassifyAggressor(current.(last := Some(high)), previous))
  {}

  /** A quote without a bid above its ask. */
  predicate Uncrossed(quote: SourceRow) { quote.bid.Some? && quote.ask.Some? ==> quote.bid.value < quote.ask.value }

  predicate AtAsk(last: Option<real>, quote: SourceRow) { last.Some? && quote.ask.Some? && quote.ask.value <= last.value }

  predicate AtBid(last: Option<real>, quote: SourceRow) { last.Some? && quote.bid.Some? && last.value <= quote.bid.value }

  /** The mark of a row: its mid, or its last without one. */
  predicate MarkIs(row: SourceRow, mark: real) {
    row.mid == Some(mark) || (row.mid == None && row.last == Some(mark))
  }

  /**
    * Which trades buy and which sell. A trade at or above the ask of the previous quote buys and
    * one at or below its bid sells; a trade that quote leaves open is judged by the current one.
    */
  lemma TradesAgainstQuotes(current: SourceRow, previous: Option<SourceRow>)
    ensures previous.Some? && Uncrossed(previous.value) ==>
      && (AtAsk(current.last, previous.value) ==> ClassifyAggressor(current, previous) == Buy)
      && (AtBid(current.last, previous.value) ==> ClassifyAggressor(current, previous) == Sell)
    ensures Uncrossed(current) && (previous.None? || (!AtAsk(current.last, previous.value) && !AtBid(current.last, previous.value))) ==>
      && (ClassifyAggressor(current, previous) == Buy <==> AtAsk(current.last, current))
      && (ClassifyAggressor(current, previous) == Sell <==> AtBid(current.last, current))
    ensures previous.Some? && AtAsk(current.last, previous.value) ==> ClassifyAggressor(current, previous) == Buy
    ensures previous.None? && AtAsk(current.last, current) ==> ClassifyAggressor(current, previous) == Buy
  {}

  /**
    * A trade inside both quotes, or no trade, never counts in full: it is weak in the direction
    * in which the mark moved, and nothing without two marks or a move.
    */
  lemma TradesInsideQuotes(current: SourceRow, previous: Option<SourceRow>)
    requires !AtAsk(current.last, current) && !AtBid(current.last, current)
    requires previous.Some? ==> !AtAsk(current.last, previous.value) && !AtBid(current.last, previous.value)
    ensures ClassifyAggressor(current, previous) == WeakBuy <==>
      previous.Some? && exists now, before :: MarkIs(current, now) && MarkIs(previous.value, before) && before < now
    ensures ClassifyAggressor(current, previous) == WeakSell <==>
      previous.Some? && exists now, before :: MarkIs(current, now) && MarkIs(previous.value, before) && now < before
    ensures ClassifyAggressor(current, previous) !in {Buy, Sell}
  {
    if previous.Some? {
      forall m | MarkIs(current, m) ensures OrElse(current.mid, current.last) == Some(m) {}
      forall m | MarkIs(previous.value, m) ensures OrElse(previous.value.mid, previous.value.last) == Some(m) {}
      var now, before := OrElse(current.mid, current.last), OrElse(previous.value.mid, previous.value.last);
      if now.Some? && before.Some? { assert MarkIs(current, now.value) && MarkIs(previous.value, before.value); }
    }
  }

  function Sign(x: real): int { if x > 0.0 then 1 else if x < 0.0 then -1 else 0 }

  lemma SpotFlowSign(signed: real, greek: Option<real>, spot: real)
    ensures SpotFlow(signed, greek, spot).Some? <==> greek.Some? && spot > 0.0
    ensures SpotFlow(signed, greek, spot).Some? ==> Sign(SpotFlow(signed, greek, spot).value) == Sign(signed) * Sign(greek.value)
  {
    if greek.Some? && spot > 0.0 { ScaledSign(signed, greek.value, spot); }
  }

  lemma GammaFlowSign(signed: real, greek: Option<real>, spot: real)
    ensures GammaFlow(signed, greek, spot).Some? <==> greek.Some? && spot > 0.0
    ensures GammaFlow(signed, greek, spot).Some? ==> Sign(GammaFlow(signed, greek, spot).value) == Sign(signed) * Sign(greek.value)
  {
    if greek.Some? && spot > 0.0 { SquareScaledSign(signed, greek.value, spot); }
  }

  /**
    * Delta, gamma and vanna flows exist exactly when their greek and a positive spot do, and
    * each has the sign of the signed volume times the greek.
    */
  lemma GreekFlowsDefinedIff(current: SourceRow, previous: Option<SourceRow>, spot: real)
    requires Valid(current)
    ensures var f := EstimateContractFlow(current, previous, spot);
      && SignsLike(f.delta, f.signed, current.delta, spot)
      && SignsLike(f.gamma, f.signed, current.gamma, spot)
      && SignsLike(f.vanna, f.signed, current.vanna, spot)
  {
    var f := EstimateContractFlow(current, previous, spot);
    SpotFlowSign(f.signed, current.delta, spot);
    GammaFlowSign(f.signed, current.gamma, spot);
    SpotFlowSign(f.signed, current.vanna, spot);
  }

  predicate SignsLike(flow: Option<real>, signed: real, greek: Option<real>, spot: real) {
    && (flow.Some? <==> greek.Some? && spot > 0.0)
    && (flow.Some? && greek.Some? ==> Sign(flow.value) == Sign(signed) * Sign(greek.value))
  }

  lemma PremiumSign(signed: real, price: Option<real>)
    requires price.Some? ==> price.value > 0.0
    ensures PremiumFlow(signed, price) > 0.0 <==> signed > 0.0 && price.Some?
  {
    if price.Some? {
      PositiveFactor(signed, price.value);
      PositiveFactor(signed * price.value, MULTIPLIER);
    }
  }

  lemma ProductSign(a: real, b: real)
    ensures Sign(a * b) == Sign(a) * Sign(b)
  {
    if a > 0.0 && b > 0.0 { assert a * b > 0.0; }
    if a > 0.0 && b < 0.0 { assert a * -b > 0.0; }
    if a < 0.0 && b > 0.0 { assert -a * b > 0.0; }
    if a < 0.0 && b < 0.0 { assert -a * -b > 0.0; }
  }

  lemma PositiveFactor(a: real, factor: real)
    requires factor > 0.0
    ensures Sign(a * factor) == Sign(a)
  {
    ProductSign(a, factor);
  }

  lemma ScaledSign(signed: real, greek: real, spot: real)
    requires spot > 0.0
    ensures Sign(DollarFlow(signed, greek, spot)) == Sign(signed) * Sign(greek)
  {
    ProductSign(signed, greek);
    PositiveFactor(signed * greek, spot);
    PositiveFactor(signed * greek * spot, MULTIPLIER);
  }

  lemma SquareScaledSign(signed: real, greek: real, spot: real)
    requires spot > 0.0
    ensures Sign(PercentFlow(signed, greek, spot)) == Sign(signed) * Sign(greek)
  {
    ProductSign(signed, greek);
    PositiveFactor(signed * greek, spot);
    PositiveFactor(signed * greek * spot, spot);
    PositiveFactor(signed * greek * spot * spot, ONE_PERCENT);
    PositiveFactor(signed * greek * spot * spot * ONE_PERCENT, MULTIPLIER);
  }
}

