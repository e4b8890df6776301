/**
  * Implied volatility by bisection and the all-or-nothing row analytics built on it
  * (analytics/black_scholes.py). Floats are reals; the Black-Scholes formulas are arbitrary
  * functions collected in a `Kernel`, so nothing below depends on their shape unless stated.
  */
module ImpliedVolatility {
  import opened Maybe
  import opened OptionRights
  import opened Reals

  const SIGMA_MIN: real := 0.0001
  const SIGMA_MAX: real := 8.5
  const MAX_SOLVER_ITERATIONS: nat := 100
  const WIDTH_LIMIT: real := 0.00000001

  datatype Inputs = Inputs(spot: real, strike: real, tau: real, rate: real, dividendYield: real, sigma: real)

  datatype Kernel = Kernel(
    exp: real -> real,
    price: (Inputs, Right) -> real,
    gamma: Inputs -> real,
    rawVanna: Inputs -> real)

  datatype CalcStatus = Ok | MissingQuote | InvalidQuote | BelowIntrinsic | VolOutOfBounds | SolverFailed | OutOfModelScope

  datatype Solved = Solved(sigma: Option<real>, status: CalcStatus)

  function Max(x: real, y: real): real { if x < y then y else x }

  // ---------------------------------------------------------------- bisection

  /** The last volatility tried and its price. */
  datatype Probe = Probe(sigma: real, price: real)

  /** What the loop leaves behind when at most `budget` iterations remain. */
  function Bisect(price: real -> real, target: real, low: real, high: real, budget: nat, last: Probe): Probe
    decreases budget, last.sigma
  {
    if budget == 0 then last
    else
      var mid := (low + high) / 2.0;
      var probe := Probe(mid, price(mid));
      if high - low <= WIDTH_LIMIT then probe
      else if probe.price - target > 0.0 then Bisect(price, target, low, mid, budget - 1, probe)
      else Bisect(price, target, mid, high, budget - 1, probe)
  }

  function Curve(k: Kernel, inputs: Inputs, right: Right): real -> real {
    sigma => k.price(inputs.(sigma := sigma), right)
  }

  function FinalProbe(price: real -> real, target: real): Probe {
    Bisect(price, target, SIGMA_MIN, SIGMA_MAX, MAX_SOLVER_ITERATIONS, Probe(SIGMA_MIN, price(SIGMA_MIN)))
  }

  predicate TargetAccepted(price: real -> real, target: real, tolerance: real) {
    price(SIGMA_MIN) - tolerance <= target <= price(SIGMA_MAX) + tolerance
  }

  function Solution(price: real -> real, target: real, tolerance: real): Solved {
    if !TargetAccepted(price, target, tolerance) then Solved(None, VolOutOfBounds)
    else
      var probe := FinalProbe(price, target);
      if Abs(probe.price - target) <= tolerance then Solved(Some(probe.sigma), Ok) else Solved(None, SolverFailed)
  }

  /** The solver's loop. Whatever it returns lies in the volatility range and reprices within tolerance. */
  method SolveImpliedVolatility(k: Kernel, right: Right, target: real, inputs: Inputs, tolerance: real)
    returns (r: Solved)
    ensures r == Solution(Curve(k, inputs, right), target, tolerance)
    ensures r.sigma.Some? <==> r.status == Ok
    ensures r.sigma.Some? ==>
      && SIGMA_MIN <= r.sigma.value <= SIGMA_MAX
      && Abs(k.price(inputs.(sigma := r.sigma.value), right) - target) <= tolerance
  {
    ghost var price := Curve(k, inputs, right);
    var lowPrice := k.price(inputs.(sigma := SIGMA_MIN), right);
    var highPrice := k.price(inputs.(sigma := SIGMA_MAX), right);
    if target < lowPrice - tolerance || target > highPrice + tolerance {
      return Solved(None, VolOutOfBounds);
    }
    var low, high := SIGMA_MIN, SIGMA_MAX;
    var candidate := lowPrice;
    var midSigma := low;
    var i := 0;
    while i < MAX_SOLVER_ITERATIONS
      invariant 0 <= i <= MAX_SOLVER_ITERATIONS
      invariant SIGMA_MIN <= low <= high <= SIGMA_MAX
      invariant SIGMA_MIN <= midSigma <= SIGMA_MAX
      invariant candidate == price(midSigma)
      invariant FinalProbe(price, target)
             == Bisect(price, target, low, high, MAX_SOLVER_ITERATIONS - i, Probe(midSigma, candidate))
    {
      midSigma := (low + high) / 2.0;
      candidate := k.price(inputs.(sigma := midSigma), right);
      var error := candidate - target;
      if high - low <= WIDTH_LIMIT {
        break;
      }
      if error > 0.0 {
        high := midSigma;
      } else {
        low := midSigma;
      }
      i := i + 1;
    }
    assert FinalProbe(price, target) == Probe(midSigma, candidate);
    if Abs(candidate - target) <= tolerance {
      return Solved(Some(midSigma), Ok);
    }
    return Solved(None, SolverFailed);
  }

  function Pow2(n: nat): real { if n == 0 then 1.0 else 2.0 * Pow2(n - 1) }

  /**
    * Halving a bracket of width at most 2^n limits reaches the width test within n + 1
    * iterations, so every larger budget gives the same result.
    */
  lemma {:induction false} WidthTestEndsLoop(price: real -> real, target: real, low: real, high: real,
                                             n: nat, extra: nat, last: Probe, last': Probe)
    requires low <= high && high - low <= WIDTH_LIMIT * Pow2(n)
    ensures Bisect(price, target, low, high, n + 1 + extra, last) == Bisect(price, target, low, high, n + 1, last')
    decreases n
  {
    if n > 0 && high - low > WIDTH_LIMIT {
      var mid := (low + high) / 2.0;
      var probe := Probe(mid, price(mid));
      if probe.price - target > 0.0 {
        WidthTestEndsLoop(price, target, low, mid, n - 1, extra, probe, probe);
      } else {
        WidthTestEndsLoop(price, target, mid, high, n - 1, extra, probe, probe);
      }
    }
  }

  lemma VolatilityRangeWidth()
    ensures SIGMA_MAX - SIGMA_MIN <= WIDTH_LIMIT * Pow2(30)
    ensures SIGMA_MAX - SIGMA_MIN > WIDTH_LIMIT * Pow2(29)
  {
    assert Pow2(10) == 1024.0;
    assert Pow2(20) == 1024.0 * 1024.0 by { Pow2Add(10, 10); }
    Pow2Add(20, 10);
    Pow2Add(20, 9);
    assert Pow2(9) == 512.0;
  }

  lemma {:induction false} Pow2Add(a: nat, b: nat)
    ensures Pow2(a + b) == Pow2(a) * Pow2(b)
  {
    if b > 0 { Pow2Add(a, b - 1); }
  }

  /** Over the reals 31 of the 100 allowed iterations always suffice: a larger budget changes nothing. */
  lemma SolverUsesAtMost31Iterations(price: real -> real, target: real, budget: nat)
    requires budget >= 31
    ensures Bisect(price, target, SIGMA_MIN, SIGMA_MAX, budget, Probe(SIGMA_MIN, price(SIGMA_MIN)))
         == Bisect(price, target, SIGMA_MIN, SIGMA_MAX, 31, Probe(SIGMA_MIN, price(SIGMA_MIN)))
  {
    VolatilityRangeWidth();
    var start := Probe(SIGMA_MIN, price(SIGMA_MIN));
    WidthTestEndsLoop(price, target, SIGMA_MIN, SIGMA_MAX, 30, budget - 31, start, start);
  }

  ghost predicate Lipschitz(price: real -> real, bound: real) {
    forall x, y :: SIGMA_MIN <= x <= y <= SIGMA_MAX ==> Abs(price(y) - price(x)) <= bound * (y - x)
  }

  /** Prices at volatilities at most half the width limit apart differ by at most `slack`. */
  ghost predicate CloseWhenNear(price: real -> real, slack: real) {
    forall x, y :: SIGMA_MIN <= x <= y <= SIGMA_MAX && y - x <= WIDTH_LIMIT / 2.0 ==> Abs(price(y) - price(x)) <= slack
  }

  lemma LipschitzCloseWhenNear(price: real -> real, bound: real)
    requires bound >= 0.0 && Lipschitz(price, bound)
    ensures CloseWhenNear(price, bound * (WIDTH_LIMIT / 2.0))
  {
    var half := WIDTH_LIMIT / 2.0;
    var slack := bound * half;
    forall x, y | SIGMA_MIN <= x <= y <= SIGMA_MAX && y - x <= half ensures Abs(price(y) - price(x)) <= slack {
      var gap, change := y - x, Abs(price(y) - price(x));
      assert change <= bound * gap;
      Scaled(bound, gap, half);
    }
    assert CloseWhenNear(price, slack);
  }

  /** A bracketed target is met to within the price change over half the width limit. */
  lemma {:induction false} BracketConverges(price: real -> real, target: real, low: real, high: real,
                                            n: nat, last: Probe, slack: real)
    requires SIGMA_MIN <= low <= high <= SIGMA_MAX
    requires high - low <= WIDTH_LIMIT * Pow2(n)
    requires price(low) <= target <= price(high)
    requires CloseWhenNear(price, slack)
    ensures Abs(Bisect(price, target, low, high, n + 1, last).price - target) <= slack
    decreases n
  {
    var mid := (low + high) / 2.0;
    var probe := Probe(mid, price(mid));
    if high - low <= WIDTH_LIMIT {
      assert Abs(price(mid) - price(low)) <= slack;
      assert Abs(price(high) - price(mid)) <= slack;
    } else if probe.price - target > 0.0 {
      BracketConverges(price, target, low, mid, n - 1, probe, slack);
    } else {
      BracketConverges(price, target, mid, high, n - 1, probe, slack);
    }
  }

  /**
    * A target between the two end prices is always solved when the price is Lipschitz with
    * bound * 1e-8 <= tolerance. Monotonicity is not needed: the sign tests keep the bracket.
    */
  lemma BracketedTargetIsSolved(price: real -> real, target: real, tolerance: real, bound: real)
    requires price(SIGMA_MIN) <= target <= price(SIGMA_MAX)
    requires bound >= 0.0 && Lipschitz(price, bound) && bound * WIDTH_LIMIT <= tolerance
    ensures Solution(price, target, tolerance).status == Ok
    ensures Abs(price(Solution(price, target, tolerance).sigma.value) - target) <= tolerance / 2.0
  {
    LipschitzCloseWhenNear(price, bound);
    HalfSlack(bound, tolerance);
    BracketedWithinSlack(price, target, tolerance, bound * (WIDTH_LIMIT / 2.0));
  }

  lemma HalfSlack(bound: real, tolerance: real)
    requires bound * WIDTH_LIMIT <= tolerance
    ensures bound * (WIDTH_LIMIT / 2.0) <= tolerance / 2.0
  {
    assert bound * (WIDTH_LIMIT / 2.0) == bound * WIDTH_LIMIT / 2.0;
  }

  lemma BracketedWithinSlack(price: real -> real, target: real, tolerance: real, slack: real)
    requires price(SIGMA_MIN) <= target <= price(SIGMA_MAX)
    requires CloseWhenNear(price, slack) && slack <= tolerance / 2.0
    ensures Solution(price, target, tolerance).status == Ok
    ensures Abs(price(Solution(price, target, tolerance).sigma.value) - target) <= tolerance / 2.0
  {
    VolatilityRangeWidth();
    var start := Probe(SIGMA_MIN, price(SIGMA_MIN));
    SolverUsesAtMost31Iterations(price, target, MAX_SOLVER_ITERATIONS);
    BracketConverges(price, target, SIGMA_MIN, SIGMA_MAX, 30, start, slack);
    ProbeIsPriced(price, target, SIGMA_MIN, SIGMA_MAX, MAX_SOLVER_ITERATIONS, start);
  }

  lemma {:induction false} ProbeIsPriced(price: real -> real, target: real, low: real, high: real, n: nat, last: Probe)
    requires SIGMA_MIN <= low <= high <= SIGMA_MAX
    requires SIGMA_MIN <= last.sigma <= SIGMA_MAX && last.price == price(last.sigma)
    ensures var p := Bisect(price, target, low, high, n, last);
      p.price == price(p.sigma) && SIGMA_MIN <= p.sigma <= SIGMA_MAX
    decreases n
  {
    if n > 0 && high - low > WIDTH_LIMIT {
      var mid := (low + high) / 2.0;
      var probe := Probe(mid, price(mid));
      if probe.price - target > 0.0 {
        ProbeIsPriced(price, target, low, mid, n - 1, probe);
      } else {
        ProbeIsPriced(price, target, mid, high, n - 1, probe);
      }
    }
  }

  // ------------------------------------------- targets accepted outside the end prices

  ghost predicate Nondecreasing(price: real -> real) {
    forall x, y :: SIGMA_MIN <= x <= y <= SIGMA_MAX ==> price(x) <= price(y)
  }

  /** The width of the volatility range after `k` halvings. */
  function Halved(k: nat): real { if k == 0 then SIGMA_MAX - SIGMA_MIN else Halved(k - 1) / 2.0 }

  lemma {:induction false} HalvedTimesPow2(k: nat)
    ensures Halved(k) * Pow2(k) == SIGMA_MAX - SIGMA_MIN
  {
    if k > 0 {
      HalvedTimesPow2(k - 1);
      var h, p := Halved(k - 1), Pow2(k - 1);
      assert (h / 2.0) * (2.0 * p) == h * p;
    }
  }

  lemma HalvedAgainstLimit(k: nat)
    requires k <= 30
    ensures Halved(k) <= WIDTH_LIMIT <==> k == 30
  {
    VolatilityRangeWidth();
    HalvedTimesPow2(k);
    Pow2Positive(k);
    if k == 30 {
      Cancel(Halved(k), WIDTH_LIMIT, Pow2(30));
    } else {
      WideBefore30(k);
    }
  }

  lemma WideBefore30(k: nat)
    requires k <= 29
    ensures Halved(k) > WIDTH_LIMIT
  {
    VolatilityRangeWidth();
    HalvedTimesPow2(k);
    Pow2Positive(k);
    Pow2Monotone(k, 29);
    if Halved(k) <= WIDTH_LIMIT { ProductMonotone(Halved(k), WIDTH_LIMIT, Pow2(k), Pow2(29)); }
  }

  /** Below every price the loop only moves its upper end and stops next to `SIGMA_MIN`. */
  lemma {:induction false} AlwaysMovesDown(price: real -> real, target: real, k: nat, last: Probe)
    requires k <= 30 && Nondecreasing(price) && target < price(SIGMA_MIN)
    requires SIGMA_MIN + Halved(k) <= SIGMA_MAX
    ensures Bisect(price, target, SIGMA_MIN, SIGMA_MIN + Halved(k), 31 - k, last).sigma == SIGMA_MIN + Halved(31)
    decreases 30 - k
  {
    HalvedAgainstLimit(k);
    HalvedPositive(k);
    var high := SIGMA_MIN + Halved(k);
    var mid := (SIGMA_MIN + high) / 2.0;
    assert mid == SIGMA_MIN + Halved(k + 1);
    assert price(SIGMA_MIN) <= price(mid);
    if k < 30 { AlwaysMovesDown(price, target, k + 1, Probe(mid, price(mid))); }
  }

  /** Above every price the loop only moves its lower end and stops next to `SIGMA_MAX`. */
  lemma {:induction false} AlwaysMovesUp(price: real -> real, target: real, k: nat, last: Probe)
    requires k <= 30 && Nondecreasing(price) && target > price(SIGMA_MAX)
    requires SIGMA_MIN <= SIGMA_MAX - Halved(k)
    ensures Bisect(price, target, SIGMA_MAX - Halved(k), SIGMA_MAX, 31 - k, last).sigma == SIGMA_MAX - Halved(31)
    decreases 30 - k
  {
    HalvedAgainstLimit(k);
    HalvedPositive(k);
    var low := SIGMA_MAX - Halved(k);
    var mid := (low + SIGMA_MAX) / 2.0;
    assert mid == SIGMA_MAX - Halved(k + 1);
    assert price(mid) <= price(SIGMA_MAX);
    if k < 30 { AlwaysMovesUp(price, target, k + 1, Probe(mid, price(mid))); }
  }

  lemma {:induction false} HalvedPositive(k: nat)
    ensures 0.0 < Halved(k)
  {
    if k > 0 { HalvedPositive(k - 1); }
  }

  lemma {:induction false} Pow2Positive(n: nat)
    ensures Pow2(n) >= 1.0
  {
    if n > 0 { Pow2Positive(n - 1); }
  }

  lemma {:induction false} Pow2Monotone(a: nat, b: nat)
    requires a <= b
    ensures Pow2(a) <= Pow2(b)
  {
    Pow2Positive(b);
    if a < b { Pow2Monotone(a, b - 1); Pow2Positive(b - 1); }
  }

  lemma ProductMonotone(x: real, y: real, a: real, b: real)
    requires x <= y && 0.0 <= y && 0.0 <= a <= b
    ensures x * a <= y * b
  {
    Scaled(a, x, y);
    Scaled(y, a, b);
  }

  lemma Cancel(x: real, y: real, c: real)
    requires c > 0.0 && x * c <= y * c
    ensures x <= y
  {}

  /**
    * The solver also accepts targets up to one tolerance outside the end prices. There, for a
    * nondecreasing price, it succeeds exactly when the price one last half-step inside the
    * range is still within tolerance: accepting the target does not promise a solution.
    */
  lemma FringeTargetSolvedIff(price: real -> real, target: real, tolerance: real)
    requires Nondecreasing(price) && TargetAccepted(price, target, tolerance)
    ensures target < price(SIGMA_MIN) ==>
      (Solution(price, target, tolerance).status == Ok
       <==> price(SIGMA_MIN + Halved(31)) <= target + tolerance)
    ensures target > price(SIGMA_MAX) ==>
      (Solution(price, target, tolerance).status == Ok
       <==> price(SIGMA_MAX - Halved(31)) >= target - tolerance)
  {
    var start := Probe(SIGMA_MIN, price(SIGMA_MIN));
    SolverUsesAtMost31Iterations(price, target, MAX_SOLVER_ITERATIONS);
    ProbeIsPriced(price, target, SIGMA_MIN, SIGMA_MAX, MAX_SOLVER_ITERATIONS, start);
    var probe := FinalProbe(price, target);
    assert price(SIGMA_MIN) <= probe.price <= price(SIGMA_MAX);
    if target < price(SIGMA_MIN) {
      AlwaysMovesDown(price, target, 0, start);
    }
    if target > price(SIGMA_MAX) {
      AlwaysMovesUp(price, target, 0, start);
    }
  }

  ghost predicate StrictlyIncreasing(price: real -> real) {
    forall x, y :: SIGMA_MIN <= x < y <= SIGMA_MAX ==> price(x) < price(y)
  }

  /**
    * For every price that strictly increases on the range, as an option's does in its
    * volatility, the two outermost targets the solver accepts are never solved.
    */
  lemma AcceptedTargetCanFail(price: real -> real, tolerance: real)
    requires StrictlyIncreasing(price) && tolerance > 0.0
    ensures var lowest := price(SIGMA_MIN) - tolerance;
      TargetAccepted(price, lowest, tolerance) && Solution(price, lowest, tolerance).status == SolverFailed
    ensures var highest := price(SIGMA_MAX) + tolerance;
      TargetAccepted(price, highest, tolerance) && Solution(price, highest, tolerance).status == SolverFailed
  {
    forall x, y | SIGMA_MIN <= x <= y <= SIGMA_MAX ensures price(x) <= price(y) {
      if x < y { assert price(x) < price(y); }
    }
    assert Nondecreasing(price);
    HalvedPositive(31);
    HalvedWithinRange(31);
    FringeTargetSolvedIff(price, price(SIGMA_MIN) - tolerance, tolerance);
    FringeTargetSolvedIff(price, price(SIGMA_MAX) + tolerance, tolerance);
  }

  lemma {:induction false} HalvedWithinRange(k: nat)
    ensures Halved(k) <= SIGMA_MAX - SIGMA_MIN
  {
    if k > 0 {
      HalvedWithinRange(k - 1);
      HalvedPositive(k);
    }
  }

  // ---------------------------------------------------------------- one option row

  /** Implied volatility, gamma and display vanna of one computation. */
  datatype Greeks = Greeks(iv: real, gamma: real, vanna: real)

  datatype RowAnalytics = RowAnalytics(
    customIv: Option<real>,
    customGamma: Option<real>,
    customVanna: Option<real>,
    ivDiff: Option<real>,
    gammaDiff: Option<real>,
    status: CalcStatus)

  function DisplayVanna(raw: real): real { raw * 0.01 }

  function GreeksAt(k: Kernel, inputs: Inputs): Greeks {
    Greeks(inputs.sigma, k.gamma(inputs), DisplayVanna(k.rawVanna(inputs)))
  }

  function MidPrice(bid: Option<real>, ask: Option<real>): Solved {
    if bid.None? || ask.None? then Solved(None, MissingQuote)
    else if bid.value < 0.0 || ask.value < 0.0 || bid.value > ask.value then Solved(None, InvalidQuote)
    else Solved(Some((bid.value + ask.value) / 2.0), Ok)
  }

  predicate ModelInputValid(i: Inputs) {
    i.spot > 0.0 && i.strike > 0.0 && i.tau > 0.0 && i.sigma > 0.0
  }

  function Intrinsic(k: Kernel, i: Inputs, right: Right): real {
    DiscountedIntrinsic(k, i.spot, i.strike, i.tau, i.rate, i.dividendYield, right)
  }

  function DiscountedIntrinsic(k: Kernel, spot: real, strike: real, tau: real, rate: real, dividendYield: real, right: Right): real {
    var forward := spot * k.exp((rate - dividendYield) * tau);
    k.exp(-(rate * tau)) * Max(if right.Call? then forward - strike else strike - forward, 0.0)
  }

  function EmptyAnalytics(status: CalcStatus): RowAnalytics {
    RowAnalytics(None, None, None, None, None, status)
  }

  function CalculateRowAnalytics(k: Kernel, right: Right, inputs: Inputs, bid: Option<real>, ask: Option<real>,
                                 ibkrIv: Option<real>, ibkrGamma: Option<real>): RowAnalytics {
    var mid := MidPrice(bid, ask);
    var model := inputs.(sigma := SIGMA_MIN);
    if mid.sigma.None? then EmptyAnalytics(mid.status)
    else if !ModelInputValid(model) then EmptyAnalytics(OutOfModelScope)
    else
      var target := mid.sigma.value;
      var tolerance := Max(0.01, Abs(target) * 0.0001);
      if target + tolerance < Intrinsic(k, model, right) then EmptyAnalytics(BelowIntrinsic)
      else
        var solved := Solution(Curve(k, model, right), target, tolerance);
        if solved.sigma.None? then EmptyAnalytics(solved.status)
        else
          var g := GreeksAt(k, model.(sigma := solved.sigma.value));
          RowAnalytics(Some(g.iv), Some(g.gamma), Some(g.vanna),
                       if ibkrIv.Some? then Some(g.iv - ibkrIv.value) else None,
                       if ibkrGamma.Some? then Some(g.gamma - ibkrGamma.value) else None, Ok)
  }

  /**
    * A row's custom fields come all from one solved volatility or are all missing, and the
    * volatility reprices the mid within a hundredth or a basis point of it.
    */
  lemma RowAnalyticsAllOrNothing(k: Kernel, right: Right, inputs: Inputs, bid: Option<real>, ask: Option<real>,
                                 ibkrIv: Option<real>, ibkrGamma: Option<real>)
    ensures var r := CalculateRowAnalytics(k, right, inputs, bid, ask, ibkrIv, ibkrGamma);
      && (r.customIv.Some? <==> r.status == Ok)
      && (r.status == Ok ==>
        && bid.Some? && ask.Some?
        && 0.0001 <= r.customIv.value <= 8.5
        && r.customGamma == Some(k.gamma(inputs.(sigma := r.customIv.value)))
        && r.customVanna == Some(k.rawVanna(inputs.(sigma := r.customIv.value)) * 0.01)
        && (var mid := (bid.value + ask.value) / 2.0;
            Abs(k.price(inputs.(sigma := r.customIv.value), right) - mid) <= Max(0.01, Abs(mid) * 0.0001)))
      && (r.status == Ok && ibkrIv.Some? ==> r.ivDiff.Some? && r.ivDiff.value + ibkrIv.value == r.customIv.value)
      && (r.status == Ok && ibkrGamma.Some? ==> r.gammaDiff.Some? && r.gammaDiff.value + ibkrGamma.value == r.customGamma.value)
      && (r.ivDiff.Some? ==> r.status == Ok && ibkrIv.Some?) && (r.gammaDiff.Some? ==> r.status == Ok && ibkrGamma.Some?)
      && (r.status != Ok ==> r == RowAnalytics(None, None, None, None, None, r.status))
  {
    var mid := MidPrice(bid, ask);
    if mid.sigma.Some? {
      var model := inputs.(sigma := SIGMA_MIN);
      var price := Curve(k, model, right);
      ProbeIsPriced(price, mid.sigma.value, SIGMA_MIN, SIGMA_MAX, MAX_SOLVER_ITERATIONS, Probe(SIGMA_MIN, price(SIGMA_MIN)));
      assert forall s :: model.(sigma := s) == inputs.(sigma := s);
    }
  }

  predicate QuoteUsable(bid: Option<real>, ask: Option<real>) {
    bid.Some? && ask.Some? && 0.0 <= bid.value <= ask.value
  }

  predicate InModelScope(i: Inputs) { i.spot > 0.0 && i.strike > 0.0 && i.tau > 0.0 }

  function MidOf(bid: real, ask: real): real { (bid + ask) / 2.0 }

  /** A hundredth, or a basis point of the mid if that is more. */
  function ToleranceOf(mid: real): real {
    if mid > 100.0 then mid * 0.0001 else 0.01
  }

  /** What the option pays at the forward price, discounted; nothing out of the money. */
  function DiscountedPayoff(forward: real, discount: real, strike: real, right: Right): real {
    if right == Call && strike < forward then discount * (forward - strike)
    else if right == Put && forward < strike then discount * (strike - forward)
    else 0.0
  }

  /**
    * When a row has no volatility, and why: each refusal holds exactly under its own condition
    * on the quote, the model inputs, the discounted payoff and the two end prices.
    */
  lemma RefusedRowIff(k: Kernel, right: Right, inputs: Inputs, bid: Option<real>, ask: Option<real>,
                      ibkrIv: Option<real>, ibkrGamma: Option<real>, forward: real, discount: real)
    requires forward == inputs.spot * k.exp((inputs.rate - inputs.dividendYield) * inputs.tau)
    requires discount == k.exp(-(inputs.rate * inputs.tau))
    ensures var status := CalculateRowAnalytics(k, right, inputs, bid, ask, ibkrIv, ibkrGamma).status;
      && (status == MissingQuote <==> bid.None? || ask.None?)
      && (status == InvalidQuote <==> bid.Some? && ask.Some? && !QuoteUsable(bid, ask))
      && (status == OutOfModelScope <==> QuoteUsable(bid, ask) && !InModelScope(inputs))
    ensures QuoteUsable(bid, ask) && InModelScope(inputs) ==>
      var status := CalculateRowAnalytics(k, right, inputs, bid, ask, ibkrIv, ibkrGamma).status;
      var mid := MidOf(bid.value, ask.value);
      var lowest, highest := k.price(inputs.(sigma := 0.0001), right), k.price(inputs.(sigma := 8.5), right);
      var below := mid + ToleranceOf(mid) < DiscountedPayoff(forward, discount, inputs.strike, right);
      && (status == BelowIntrinsic <==> below)
      && (status == VolOutOfBounds <==> !below && (mid + ToleranceOf(mid) < lowest || highest < mid - ToleranceOf(mid)))
  {
    if QuoteUsable(bid, ask) && InModelScope(inputs) {
      PayoffIsIntrinsic(k, inputs, right, forward, discount);
      var mid := MidOf(bid.value, ask.value);
      assert MidPrice(bid, ask) == Solved(Some(mid), Ok);
      assert ToleranceOf(mid) == Max(0.01, Abs(mid) * 0.0001);
    }
  }

  lemma PayoffIsIntrinsic(k: Kernel, i: Inputs, right: Right, forward: real, discount: real)
    requires forward == i.spot * k.exp((i.rate - i.dividendYield) * i.tau) && discount == k.exp(-(i.rate * i.tau))
    ensures Intrinsic(k, i.(sigma := SIGMA_MIN), right) == DiscountedPayoff(forward, discount, i.strike, right)
  {
    var payoff := if right.Call? then forward - i.strike else i.strike - forward;
    NoPayoff(discount, payoff);
    assert DiscountedIntrinsic(k, i.spot, i.strike, i.tau, i.rate, i.dividendYield, right) == discount * Max(payoff, 0.0);
  }

  lemma NoPayoff(discount: real, payoff: real)
    ensures discount * Max(payoff, 0.0) == if payoff > 0.0 then discount * payoff else 0.0
  {}

  /**
    * Every usable quote within the model and not below intrinsic is solved whose mid lies
    * between the end prices of a price that is Lipschitz in volatility; the differences a row
    * has are the solved values minus the broker's.
    */
  lemma UsableRowIsSolved(k: Kernel, right: Right, inputs: Inputs, bid: Option<real>, ask: Option<real>,
                          ibkrIv: Option<real>, ibkrGamma: Option<real>, forward: real, discount: real, bound: real)
    requires QuoteUsable(bid, ask) && InModelScope(inputs)
    requires forward == inputs.spot * k.exp((inputs.rate - inputs.dividendYield) * inputs.tau)
    requires discount == k.exp(-(inputs.rate * inputs.tau))
    requires var mid := MidOf(bid.value, ask.value);
      && mid + ToleranceOf(mid) >= DiscountedPayoff(forward, discount, inputs.strike, right)
      && k.price(inputs.(sigma := 0.0001), right) <= mid <= k.price(inputs.(sigma := 8.5), right)
      && bound >= 0.0 && Lipschitz(Curve(k, inputs, right), bound) && bound * 0.00000001 <= ToleranceOf(mid)
    ensures var r := CalculateRowAnalytics(k, right, inputs, bid, ask, ibkrIv, ibkrGamma);
      && r.status == Ok && r.customIv.Some? && r.customGamma.Some? && r.customVanna.Some?
      && r.ivDiff == (if ibkrIv.Some? then Some(r.customIv.value - ibkrIv.value) else None)
      && r.gammaDiff == (if ibkrGamma.Some? then Some(r.customGamma.value - ibkrGamma.value) else None)
  {
    var mid := MidOf(bid.value, ask.value);
    var model := inputs.(sigma := SIGMA_MIN);
    PayoffIsIntrinsic(k, inputs, right, forward, discount);
    CurveIgnoresSigma(k, inputs, right, bound);
    assert MidPrice(bid, ask) == Solved(Some(mid), Ok);
    assert ToleranceOf(mid) == Max(0.01, Abs(mid) * 0.0001);
    SameLimit(bound);
    BracketedTargetIsSolved(Curve(k, model, right), mid, ToleranceOf(mid), bound);
  }

  lemma SameLimit(bound: real)
    ensures bound * WIDTH_LIMIT == bound * 0.00000001
  {}

  lemma CurveIgnoresSigma(k: Kernel, inputs: Inputs, right: Right, bound: real)
    requires Lipschitz(Curve(k, inputs, right), bound)
    ensures Lipschitz(Curve(k, inputs.(sigma := SIGMA_MIN), right), bound)
  {
    var model := inputs.(sigma := SIGMA_MIN);
    assert forall x: real :: Curve(k, model, right)(x) == Curve(k, inputs, right)(x);
  }
}
