/**
  * What an estimated flow says (experimental_flow/estimator.py): each contract's amounts out of
  * its two rows, and each total out of the contracts, in formulas of the rows' own fields.
  */
module FlowMeaning {
  import opened Maybe
  import opened OptionRights
  import opened Lists
  import opened Grouping
  import opened FlowEstimator

  // ---------------------------------------------------------------- one contract

  predicate Usable(row: SourceRow) {
    |row.contractId| > 0 && row.right != None && row.strike != None && row.strike.value > 0.0
  }

  /** The volume gained since the previous row, which must have one; a lower volume gains nothing. */
  predicate VolumeGained(row: SourceRow, previous: Option<SourceRow>, gained: real) {
    if previous == None || previous.value.volume == None then gained == 0.0
    else
      var now, before := if row.volume == None then 0.0 else row.volume.value, previous.value.volume.value;
      if now > before then before + gained == now else gained == 0.0
  }

  /** The previous quote decides if it can, then the current one, the ask before the bid; then the marks do. */
  ghost predicate TradedAs(row: SourceRow, previous: Option<SourceRow>, a: Aggressor) {
    if previous.Some? && AtAsk(row.last, previous.value) then a == Buy
    else if previous.Some? && AtBid(row.last, previous.value) then a == Sell
    else if AtAsk(row.last, row) then a == Buy
    else if AtBid(row.last, row) then a == Sell
    else
      && (a == WeakBuy <==> previous.Some? && exists now, before :: MarkIs(row, now) && MarkIs(previous.value, before) && before < now)
      && (a == WeakSell <==> previous.Some? && exists now, before :: MarkIs(row, now) && MarkIs(previous.value, before) && now < before)
      && a in {WeakBuy, WeakSell, Unknown}
  }

  /** A trade counts in full or in half, for or against. */
  predicate SignedBy(a: Aggressor, volume: real, signed: real) {
    match a
    case Buy => signed == volume
    case WeakBuy => signed + signed == volume
    case Sell => signed == -volume
    case WeakSell => signed + signed == -volume
    case Unknown => signed == 0.0
  }

  predicate Positive(price: Option<real>) { price.Some? && price.value > 0.0 }

  /** The first of these prices that is there and positive, if any. */
  ghost predicate FirstPositive(prices: seq<Option<real>>, price: Option<real>) {
    if price.None? then forall i :: 0 <= i < |prices| ==> !Positive(prices[i])
    else exists i :: 0 <= i < |prices| && prices[i] == price && Positive(price) && forall j :: 0 <= j < i ==> !Positive(prices[j])
  }

  /** Each contract is for a hundred. */
  function InDollars(signed: real, greek: real, spot: real): real { 100.0 * (signed * greek * spot) }

  /** A hundredth of the spot, times a hundred. */
  function PerPercent(signed: real, greek: real, spot: real): real { signed * greek * spot * spot }

  /** A flow in dollars, of a greek there is and a positive spot. */
  predicate DollarsOf(flow: Option<real>, signed: real, greek: Option<real>, spot: real) {
    if greek.Some? && spot > 0.0 then flow == Some(InDollars(signed, greek.value, spot)) else flow == None
  }

  /** The same for one percent of the spot. */
  predicate PercentDollarsOf(flow: Option<real>, signed: real, greek: Option<real>, spot: real) {
    if greek.Some? && spot > 0.0 then flow == Some(PerPercent(signed, greek.value, spot)) else flow == None
  }

  predicate ThetaOf(flow: Option<real>, signed: real, theta: Option<real>) {
    if theta.Some? then flow == Some(InDollars(signed, theta.value, 1.0)) else flow == None
  }

  predicate PremiumOf(premium: real, signed: real, price: Option<real>) {
    premium == if price.Some? then 100.0 * (signed * price.value) else 0.0
  }

  ghost predicate AmountsAre(row: SourceRow, previous: Option<SourceRow>, spot: real, c: ContractFlow) {
    && c.contractId == row.contractId && Some(c.right) == row.right && Some(c.strike) == row.strike
    && VolumeGained(row, previous, c.volumeDelta)
    && TradedAs(row, previous, c.aggressor)
    && SignedBy(c.aggressor, c.volumeDelta, c.signed)
    && (exists price :: FirstPositive([row.mid, row.last, row.bid, row.ask], price) && PremiumOf(c.premium, c.signed, price))
    && DollarsOf(c.delta, c.signed, row.delta, spot)
    && PercentDollarsOf(c.gamma, c.signed, row.gamma, spot)
    && DollarsOf(c.vanna, c.signed, row.vanna, spot)
    && ThetaOf(c.theta, c.signed, row.theta)
  }

  lemma PriceIsFirstPositive(row: SourceRow)
    ensures FirstPositive([row.mid, row.last, row.bid, row.ask], Price(row))
  {
    var prices := [row.mid, row.last, row.bid, row.ask];
    if Price(row).Some? {
      var i := if Positive(row.mid) then 0 else if Positive(row.last) then 1 else if Positive(row.bid) then 2 else 3;
      assert prices[i] == Price(row) && Positive(Price(row));
    }
  }

  lemma TradeIsTraded(row: SourceRow, previous: Option<SourceRow>)
    ensures TradedAs(row, previous, ClassifyAggressor(row, previous))
  {
    if !AtAsk(row.last, row) && !AtBid(row.last, row)
      && (previous.Some? ==> !AtAsk(row.last, previous.value) && !AtBid(row.last, previous.value)) {
      TradesInsideQuotes(row, previous);
    }
  }

  lemma Times(x: real, factor: real, n: real)
    requires factor == n
    ensures x * factor == n * x
  {}

  lemma DollarsAre(signed: real, greek: real, spot: real)
    ensures DollarFlow(signed, greek, spot) == InDollars(signed, greek, spot)
  {
    Times(signed * greek * spot, MULTIPLIER, 100.0);
  }

  lemma PercentDollarsAre(signed: real, greek: real, spot: real)
    ensures PercentFlow(signed, greek, spot) == PerPercent(signed, greek, spot)
  {
    var moved := signed * greek * spot * spot;
    Times(moved, ONE_PERCENT, 0.01);
    Times(moved * ONE_PERCENT, MULTIPLIER, 100.0);
  }

  lemma SpotFlowIs(signed: real, greek: Option<real>, spot: real)
    ensures DollarsOf(SpotFlow(signed, greek, spot), signed, greek, spot)
  {
    if greek.Some? && spot > 0.0 { DollarsAre(signed, greek.value, spot); }
  }

  lemma GammaFlowIs(signed: real, greek: Option<real>, spot: real)
    ensures PercentDollarsOf(GammaFlow(signed, greek, spot), signed, greek, spot)
  {
    if greek.Some? && spot > 0.0 { PercentDollarsAre(signed, greek.value, spot); }
  }

  lemma SignedIs(a: Aggressor, volume: real)
    ensures SignedBy(a, volume, volume * Weight(a))
  {
    Times(volume, Weight(a), Weight(a));
  }

  lemma PremiumIs(signed: real, price: Option<real>)
    ensures PremiumOf(PremiumFlow(signed, price), signed, price)
  {
    if price.Some? { Times(signed * price.value, MULTIPLIER, 100.0); }
  }

  lemma ThetaIs(signed: real, theta: real)
    ensures ThetaFlow(signed, theta) == InDollars(signed, theta, 1.0)
  {
    Times(signed * theta, MULTIPLIER, 100.0);
  }

  lemma ContractAmounts(row: SourceRow, previous: Option<SourceRow>, spot: real)
    requires Valid(row)
    ensures AmountsAre(row, previous, spot, EstimateContractFlow(row, previous, spot))
  {
    var c := EstimateContractFlow(row, previous, spot);
    TradeIsTraded(row, previous);
    SignedIs(c.aggressor, c.volumeDelta);
    PriceIsFirstPositive(row);
    PremiumIs(c.signed, Price(row));
    SpotFlowIs(c.signed, row.delta, spot);
    SpotFlowIs(c.signed, row.vanna, spot);
    GammaFlowIs(c.signed, row.gamma, spot);
    if row.theta.Some? { ThetaIs(c.signed, row.theta.value); }
  }

  // ------------------------------------------------------------- all contracts

  function IsUsable(): SourceRow -> bool { (row: SourceRow) => Usable(row) }

  /** The last usable row of a contract, or none. */
  ghost predicate PreviousOf(rows: seq<SourceRow>, id: string, previous: Option<SourceRow>) {
    match previous
    case None => forall n :: 0 <= n < |rows| ==> !(Usable(rows[n]) && rows[n].contractId == id)
    case Some(row) =>
      exists n :: LastRowOf(rows, id, n) && rows[n] == row
  }

  ghost predicate LastRowOf(rows: seq<SourceRow>, id: string, n: int) {
    && 0 <= n < |rows| && Usable(rows[n]) && rows[n].contractId == id
    && forall m :: n < m < |rows| ==> !(Usable(rows[m]) && rows[m].contractId == id)
  }

  ghost predicate FlowsBetween(row: SourceRow, previous: seq<SourceRow>, spot: real, c: ContractFlow) {
    exists before :: PreviousOf(previous, row.contractId, before) && AmountsAre(row, before, spot, c)
  }

  lemma {:induction false} PreviousIsLast(rows: seq<SourceRow>, id: string)
    ensures PreviousOf(rows, id, PreviousRow(rows, id))
  {
    if |rows| > 0 {
      var front, row := rows[..|rows| - 1], rows[|rows| - 1];
      PreviousIsLast(front, id);
      OneMoreRow(front, row, id, PreviousRow(front, id));
      assert front + [row] == rows;
    }
  }

  lemma OneMoreRow(front: seq<SourceRow>, row: SourceRow, id: string, previous: Option<SourceRow>)
    requires PreviousOf(front, id, previous)
    ensures PreviousOf(front + [row], id, if Usable(row) && row.contractId == id then Some(row) else previous)
  {
    var rows := front + [row];
    if Usable(row) && row.contractId == id {
      assert LastRowOf(rows, id, |front|);
    } else if previous.Some? {
      var n :| LastRowOf(front, id, n) && front[n] == previous.value;
      assert LastRowOf(rows, id, n) && rows[n] == front[n];
    }
  }

  /** One flow for each usable row, in the rows' order, with the amounts its two rows give. */
  lemma {:induction false} FlowsMeaning(current: seq<SourceRow>, previous: seq<SourceRow>, spot: real)
    ensures var flows, rows := ContractFlows(current, previous, spot), Filter(IsUsable(), current);
      |flows| == |rows| && forall i :: 0 <= i < |rows| ==> FlowsBetween(rows[i], previous, spot, flows[i])
  {
    if |current| > 0 {
      FlowsMeaning(current[1..], previous, spot);
      if Valid(current[0]) {
        var row := current[0];
        PreviousIsLast(previous, row.contractId);
        ContractAmounts(row, PreviousRow(previous, row.contractId), spot);
        assert FlowsBetween(row, previous, spot, EstimateContractFlow(row, PreviousRow(previous, row.contractId), spot));
      }
    }
  }

  // --------------------------------------------------------------------- totals

  /** Contracts of a strike, or of any, and of a right, or of either. */
  datatype Scope = Scope(strike: Option<real>, right: Option<Right>)

  predicate In(c: ContractFlow, s: Scope) { (s.strike == None || s.strike == Some(c.strike)) && (s.right == None || s.right == Some(c.right)) }

  ghost function SignedSum(rows: seq<ContractFlow>, s: Scope): real {
    if |rows| == 0 then 0.0 else (if In(rows[0], s) then rows[0].signed else 0.0) + SignedSum(rows[1..], s)
  }

  /** Without regard to direction. */
  ghost function SizeSum(rows: seq<ContractFlow>, s: Scope): real {
    if |rows| == 0 then 0.0
    else (if !In(rows[0], s) then 0.0 else if rows[0].signed < 0.0 then -rows[0].signed else rows[0].signed) + SizeSum(rows[1..], s)
  }

  ghost function PremiumSum(rows: seq<ContractFlow>, s: Scope): real {
    if |rows| == 0 then 0.0 else (if In(rows[0], s) then rows[0].premium else 0.0) + PremiumSum(rows[1..], s)
  }

  datatype GreekSum = GreekSum(any: bool, sum: real)

  /** The sum of those flows that are there, and whether there is one. */
  ghost function DeltaSum(rows: seq<ContractFlow>, s: Scope): GreekSum {
    if |rows| == 0 then GreekSum(false, 0.0)
    else
      var rest := DeltaSum(rows[1..], s);
      if In(rows[0], s) && rows[0].delta.Some? then GreekSum(true, rows[0].delta.value + rest.sum) else rest
  }

  ghost function GammaSum(rows: seq<ContractFlow>, s: Scope): GreekSum {
    if |rows| == 0 then GreekSum(false, 0.0)
    else
      var rest := GammaSum(rows[1..], s);
      if In(rows[0], s) && rows[0].gamma.Some? then GreekSum(true, rows[0].gamma.value + rest.sum) else rest
  }

  predicate IsSum(x: Option<real>, s: GreekSum) { (x.Some? <==> s.any) && s.sum == (if x.Some? then x.value else 0.0) }

  predicate Opposite(x: Option<real>, y: Option<real>) { (x.Some? <==> y.Some?) && (x.Some? && y.Some? ==> x.value + y.value == 0.0) }

  lemma {:induction false} SummarySides(rows: seq<ContractFlow>, all: Scope)
    requires all == Scope(None, None)
    ensures Summarized(rows).buy - Summarized(rows).sell == SignedSum(rows, all)
    ensures Summarized(rows).buy + Summarized(rows).sell == SizeSum(rows, all)
    ensures Summarized(rows).premium == PremiumSum(rows, all)
  {
    if |rows| > 0 { SummarySides(rows[1..], all); }
  }

  lemma {:induction false} SummaryGreeks(rows: seq<ContractFlow>, all: Scope)
    requires all == Scope(None, None)
    ensures IsSum(Summarized(rows).delta, DeltaSum(rows, all)) && IsSum(Summarized(rows).gamma, GammaSum(rows, all))
  {
    if |rows| > 0 { SummaryGreeks(rows[1..], all); }
  }

  /** Bought less sold is the signed flow, together they are all of it, and the dealers' pressure is against the gamma. */
  lemma SummaryMeaning(rows: seq<ContractFlow>)
    ensures var t, all := Summarized(rows), Scope(None, None);
      && t.buy - t.sell == SignedSum(rows, all) == t.net && t.buy + t.sell == SizeSum(rows, all)
      && t.premium == PremiumSum(rows, all)
      && IsSum(t.delta, DeltaSum(rows, all)) && IsSum(t.gamma, GammaSum(rows, all)) && Opposite(t.dealerPressure, t.gamma)
  {
    SummarySides(rows, Scope(None, None));
    SummaryGreeks(rows, Scope(None, None));
  }

  lemma {:induction false} StrikeSides(rows: seq<ContractFlow>, strike: real, right: Right, s: Scope)
    requires s == Scope(Some(strike), Some(right))
    ensures var own := AtKey(StrikeOf(), rows, strike);
      var bought, sold := Total(RealSum(), BoughtRight(right), own), Total(RealSum(), SoldRight(right), own);
      bought - sold == SignedSum(rows, s) && bought + sold == SizeSum(rows, s)
  {
    if |rows| > 0 { StrikeSides(rows[1..], strike, right, s); }
  }

  lemma {:induction false} StrikeColumns(rows: seq<ContractFlow>, strike: real, s: Scope)
    requires s == Scope(Some(strike), None)
    ensures var own := AtKey(StrikeOf(), rows, strike);
      && Total(RealSum(), Premium(), own) == PremiumSum(rows, s)
      && IsSum(Total(NullableSum(), Delta(), own), DeltaSum(rows, s))
      && IsSum(Total(NullableSum(), Gamma(), own), GammaSum(rows, s))
  {
    if |rows| > 0 { StrikeColumns(rows[1..], strike, s); }
  }

  /** The same for each strike, with calls and puts apart. */
  lemma StrikeMeaning(rows: seq<ContractFlow>, strikes: seq<StrikeFlow>, i: nat)
    requires GroupedByStrike(rows, strikes) && i < |strikes|
    ensures var t, calls, puts, both := strikes[i], Scope(Some(strikes[i].strike), Some(Call)),
                                        Scope(Some(strikes[i].strike), Some(Put)), Scope(Some(strikes[i].strike), None);
      && t.callBuy - t.callSell == SignedSum(rows, calls) && t.callBuy + t.callSell == SizeSum(rows, calls)
      && t.putBuy - t.putSell == SignedSum(rows, puts) && t.putBuy + t.putSell == SizeSum(rows, puts)
      && t.premium == PremiumSum(rows, both)
      && IsSum(t.delta, DeltaSum(rows, both)) && IsSum(t.gamma, GammaSum(rows, both)) && Opposite(t.dealerPressure, t.gamma)
  {
    var strike := strikes[i].strike;
    StrikeSides(rows, strike, Call, Scope(Some(strike), Some(Call)));
    StrikeSides(rows, strike, Put, Scope(Some(strike), Some(Put)));
    StrikeColumns(rows, strike, Scope(Some(strike), None));
  }
}
