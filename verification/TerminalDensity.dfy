/**
  * The terminal distribution of a fitted smile (experimental/distribution.py): a discrete
  * density, the second difference of call prices over strikes, never negative. Prices and the
  * growth factor exp(rate * tau) are given; arithmetic is over the reals.
  */
module TerminalDensity {
  import opened Maybe
  import opened OrderedTable
  import opened Reals
  import opened Sorting
  import opened Uniqueness
  import opened AscendingKeys

  datatype RawPoint = RawPoint(x: Option<real>, y: Option<real>)

  datatype Point = Point(strike: real, sigma: real)

  datatype Density = Density(x: real, y: real)

  // ----------------------------------------------------------------- fitted points

  predicate Usable(p: RawPoint) { p.x.Some? && p.y.Some? && p.x.value > 0.0 && p.y.value > 0.0 }

  /** The last usable volatility written for a strike. */
  function LastWritten(points: seq<RawPoint>, strike: real): Option<real> {
    if |points| == 0 then None
    else
      var p := points[|points| - 1];
      if Usable(p) && p.x.value == strike then p.y else LastWritten(points[..|points| - 1], strike)
  }

  ghost predicate StrictlyAscending(points: seq<Point>) {
    forall i, j :: 0 <= i < j < |points| ==> points[i].strike < points[j].strike
  }

  /** One point for each strike written, in strictly ascending order, the last write winning. */
  ghost predicate Cleaned(points: seq<RawPoint>, r: seq<Point>) {
    && StrictlyAscending(r)
    && (forall p :: p in r ==> p.strike > 0.0 && p.sigma > 0.0 && LastWritten(points, p.strike) == Some(p.sigma))
    && (forall k: real :: LastWritten(points, k).Some? ==> Point(k, LastWritten(points, k).value) in r)
  }

  lemma {:induction false} LastWrittenIsPositive(points: seq<RawPoint>, strike: real)
    ensures LastWritten(points, strike).Some? ==> strike > 0.0 && LastWritten(points, strike).value > 0.0
  {
    if |points| > 0 { LastWrittenIsPositive(points[..|points| - 1], strike); }
  }

  /** Points with the same written values are the same list. */
  lemma {:induction false} CleanedIsUnique(points: seq<RawPoint>, a: seq<Point>, b: seq<Point>)
    requires Cleaned(points, a) && Cleaned(points, b)
    ensures a == b
  {
    assert forall p :: p in a <==> p in b by {
      assert forall p :: p in a ==> Point(p.strike, LastWritten(points, p.strike).value) in b;
      assert forall p :: p in b ==> Point(p.strike, LastWritten(points, p.strike).value) in a;
    }
    SameMembersSameCounts(a, b);
    OrderedUnique((p: Point, q: Point) => p.strike < q.strike, a, b);
  }

  /** Row `i` writes a positive volatility for a positive strike, and no later row writes one for it. */
  ghost predicate WrittenLast(points: seq<RawPoint>, i: int, strike: real, sigma: real) {
    && 0 <= i < |points| && points[i] == RawPoint(Some(strike), Some(sigma)) && strike > 0.0 && sigma > 0.0
    && forall j :: i < j < |points| && points[j].x == Some(strike) ==> points[j].y == None || points[j].y.value <= 0.0
  }

  lemma {:induction false} LastWrittenIsLast(points: seq<RawPoint>, strike: real)
    ensures LastWritten(points, strike).Some? ==> exists i :: WrittenLast(points, i, strike, LastWritten(points, strike).value)
    ensures LastWritten(points, strike).None? ==> forall i, sigma :: !WrittenLast(points, i, strike, sigma)
  {
    if |points| > 0 {
      var front, n := points[..|points| - 1], |points| - 1;
      LastWrittenIsLast(front, strike);
      if Usable(points[n]) && points[n].x.value == strike {
        assert WrittenLast(points, n, strike, points[n].y.value);
      } else {
        forall i, sigma ensures WrittenLast(points, i, strike, sigma) <==> WrittenLast(front, i, strike, sigma) {
          OneMorePoint(front, points[n], points, i, strike, sigma);
        }
      }
    }
  }

  lemma OneMorePoint(front: seq<RawPoint>, p: RawPoint, points: seq<RawPoint>, i: int, strike: real, sigma: real)
    requires points == front + [p] && !(Usable(p) && p.x.value == strike)
    ensures WrittenLast(points, i, strike, sigma) <==> WrittenLast(front, i, strike, sigma)
  {
    assert forall j :: 0 <= j < |front| ==> front[j] == points[j];
    if WrittenLast(points, i, strike, sigma) { assert i < |front|; }
    if WrittenLast(front, i, strike, sigma) {
      assert points[|front|] == p;
    }
  }

  /** The cleaned points are exactly the last positive writes of positive strikes. */
  lemma CleanedMeaning(points: seq<RawPoint>, r: seq<Point>, p: Point)
    requires Cleaned(points, r)
    ensures p in r <==> exists i :: WrittenLast(points, i, p.strike, p.sigma)
  {
    LastWrittenIsLast(points, p.strike);
    if LastWritten(points, p.strike).Some? {
      var sigma := LastWritten(points, p.strike).value;
      var n :| WrittenLast(points, n, p.strike, sigma);
      forall i | WrittenLast(points, i, p.strike, p.sigma) ensures p.sigma == sigma { assert i == n; }
      assert Point(p.strike, sigma) in r;
    }
  }

  method CleanFitPoints(points: seq<RawPoint>) returns (r: seq<Point>)
    ensures Cleaned(points, r)
  {
    var bySigma: Table<real, real> := [];
    for i := 0 to |points|
      invariant DistinctKeys(bySigma)
      invariant forall k: real :: Find(bySigma, k) == LastWritten(points[..i], k)
    {
      var p := points[i];
      assert points[..i + 1][..i] == points[..i];
      if !Usable(p) {
        continue;
      }
      forall k: real ensures Find(SetEntry(bySigma, p.x.value, p.y.value), k) == LastWritten(points[..i + 1], k) {
        FindSetEntry(bySigma, p.x.value, p.y.value, k);
      }
      SetEntryMembers(bySigma, p.x.value, p.y.value);
      bySigma := SetEntry(bySigma, p.x.value, p.y.value);
    }
    assert points[..|points|] == points;
    var keys := SortedKeys(bySigma);
    SortedKeysAscend(bySigma);
    r := [];
    while |r| < |keys|
      invariant |r| <= |keys|
      invariant forall i :: 0 <= i < |r| ==> r[i].strike == keys[i] && LastWritten(points, keys[i]) == Some(r[i].sigma)
    {
      var k := keys[|r|];
      assert k in keys;
      r := r + [Point(k, Find(bySigma, k).value)];
    }
    forall p | p in r ensures p.strike > 0.0 && p.sigma > 0.0 && LastWritten(points, p.strike) == Some(p.sigma) {
      LastWrittenIsPositive(points, p.strike);
    }
    forall k: real | LastWritten(points, k).Some? ensures Point(k, LastWritten(points, k).value) in r {
      assert k in keys;
      var i :| 0 <= i < |keys| && keys[i] == k;
      assert r[i] == Point(k, LastWritten(points, k).value);
    }
  }

  // ------------------------------------------------------------------- the density

  function Positive(x: real): real { if x > 0.0 then x else 0.0 }

  function Width(strikes: seq<real>, i: nat): real
    requires i + 1 < |strikes|
  {
    strikes[i + 1] - strikes[i]
  }

  /** Each strike exceeds the one before. */
  predicate Increasing(strikes: seq<real>) { forall i :: 0 <= i < |strikes| - 1 ==> Width(strikes, i) > 0.0 }

  /** The slope of the call prices between a strike and the next. */
  function Slope(strikes: seq<real>, calls: seq<real>, i: nat): real
    requires |calls| == |strikes| && i + 1 < |strikes|
  {
    var width := Width(strikes, i);
    if width > 0.0 then (calls[i + 1] - calls[i]) / width else 0.0
  }

  /** How much the slope rises at an inner strike. */
  function Rise(strikes: seq<real>, calls: seq<real>, i: nat): real
    requires |calls| == |strikes| && 0 < i < |strikes| - 1
  {
    Slope(strikes, calls, i) - Slope(strikes, calls, i - 1)
  }

  function Bend(width: real, rise: real, growth: real): real { if width > 0.0 then 2.0 / width * rise * growth else 0.0 }

  /** The second difference of the prices, times growth: the density before the clamp. */
  function Curvature(strikes: seq<real>, calls: seq<real>, growth: real, i: nat): real
    requires |calls| == |strikes| && 0 < i < |strikes| - 1
  {
    Bend(Width(strikes, i - 1) + Width(strikes, i), Rise(strikes, calls, i), growth)
  }

  ghost predicate DensityOf(strikes: seq<real>, calls: seq<real>, growth: real, density: seq<Density>)
    requires |calls| == |strikes| && |strikes| >= 3
  {
    && |density| == |strikes| - 2
    && (forall k :: 0 <= k < |density| ==> density[k] == Density(strikes[k + 1], Positive(Curvature(strikes, calls, growth, k + 1))))
  }

  /** No density without three points, or when two neighbouring strikes do not increase. */
  method BuildDensity(strikes: seq<real>, calls: seq<real>, growth: real) returns (density: Option<seq<Density>>)
    requires |calls| == |strikes|
    ensures density.Some? <==> |strikes| >= 3 && Increasing(strikes)
    ensures density.Some? ==> DensityOf(strikes, calls, growth, density.value)
  {
    if |strikes| < 3 {
      return None;
    }
    var points: seq<Density> := [];
    for i := 1 to |strikes| - 1
      invariant |points| == i - 1
      invariant i > 1 ==> forall j :: 0 <= j < i ==> Width(strikes, j) > 0.0
      invariant forall k :: 0 <= k < |points| ==> points[k] == Density(strikes[k + 1], Positive(Curvature(strikes, calls, growth, k + 1)))
    {
      var left, right := strikes[i] - strikes[i - 1], strikes[i + 1] - strikes[i];
      assert left == Width(strikes, i - 1) && right == Width(strikes, i);
      if left <= 0.0 || right <= 0.0 {
        return None;
      }
      var curvature := 2.0 / (left + right) * ((calls[i + 1] - calls[i]) / right - (calls[i] - calls[i - 1]) / left);
      var y := Positive(curvature * growth);
      assert y == Positive(Curvature(strikes, calls, growth, i));
      points := points + [Density(strikes[i], y)];
    }
    return Some(points);
  }

  function Strikes(fit: seq<Point>): seq<real> { seq(|fit|, i requires 0 <= i < |fit| => fit[i].strike) }

  function Prices(fit: seq<Point>, price: (real, real) -> real): seq<real> {
    seq(|fit|, i requires 0 <= i < |fit| => price(fit[i].strike, fit[i].sigma))
  }

  lemma CleanedIncrease(fit: seq<Point>, strikes: seq<real>)
    requires StrictlyAscending(fit) && strikes == Strikes(fit)
    ensures Increasing(strikes)
  {
    forall i | 0 <= i < |strikes| - 1 ensures Width(strikes, i) > 0.0 { assert fit[i].strike < fit[i + 1].strike; }
  }

  /**
    * The whole panel: nothing without a positive forward and expiry; cleaned points always have
    * increasing strikes, so that then only their number matters.
    */
  method TerminalDistribution(points: seq<RawPoint>, forward: real, tau: real, price: (real, real) -> real, growth: real)
    returns (fit: seq<Point>, density: Option<seq<Density>>)
    ensures forward > 0.0 && tau > 0.0 ==> Cleaned(points, fit)
    ensures density.Some? <==> forward > 0.0 && tau > 0.0 && |fit| >= 3
    ensures density.Some? ==> Increasing(Strikes(fit)) && DensityOf(Strikes(fit), Prices(fit, price), growth, density.value)
  {
    if forward <= 0.0 || tau <= 0.0 {
      return [], None;
    }
    fit := CleanFitPoints(points);
    var strikes := Strikes(fit);
    CleanedIncrease(fit, strikes);
    density := BuildDensity(strikes, Prices(fit, price), growth);
  }

  // --------------------------------------------------------------- exact on parabolas

  function Parabola(a: real, b: real, c: real, x: real): real { a + b * x + c * (x * x) }

  lemma Quotient(total: real, width: real, ratio: real)
    requires width > 0.0 && total == ratio * width
    ensures total / width == ratio
  {}

  lemma ParabolaStep(a: real, b: real, c: real, x: real, y: real)
    ensures Parabola(a, b, c, y) - Parabola(a, b, c, x) == (b + c * (x + y)) * (y - x)
  {
    assert (x + y) * (y - x) == y * y - x * x;
    assert c * ((x + y) * (y - x)) == c * (y * y) - c * (x * x);
    assert (c * (x + y)) * (y - x) == c * ((x + y) * (y - x));
  }

  lemma BendOfParabola(width: real, c: real, growth: real, rise: real)
    requires width > 0.0 && rise == c * width
    ensures Bend(width, rise, growth) == 2.0 * c * growth
  {
    var scale := 2.0 / width;
    assert scale * width == 2.0;
    assert scale * (c * width) == c * (scale * width);
  }

  /** Where call prices follow a parabola the density is exact: twice its leading coefficient, times growth, at every inner strike. */
  lemma ParabolaDensity(strikes: seq<real>, calls: seq<real>, growth: real, density: seq<Density>, a: real, b: real, c: real, k: nat)
    requires |calls| == |strikes| && |strikes| >= 3 && Increasing(strikes) && DensityOf(strikes, calls, growth, density)
    requires forall i :: 0 <= i < |strikes| ==> calls[i] == Parabola(a, b, c, strikes[i])
    requires c * growth >= 0.0 && k < |density|
    ensures density[k] == Density(strikes[k + 1], 2.0 * (c * growth))
  {
    var x, y, z := strikes[k], strikes[k + 1], strikes[k + 2];
    assert Width(strikes, k) > 0.0 && Width(strikes, k + 1) > 0.0;
    var slope, next := (calls[k + 1] - calls[k]) / (y - x), (calls[k + 2] - calls[k + 1]) / (z - y);
    ParabolaRise(a, b, c, x, y, z, calls[k], calls[k + 1], calls[k + 2], next - slope);
    assert Rise(strikes, calls, k + 1) == next - slope;
    ClampedBend((y - x) + (z - y), c, growth, next - slope);
  }

  lemma ParabolaRise(a: real, b: real, c: real, x: real, y: real, z: real, p: real, q: real, r: real, rise: real)
    requires x < y < z && p == Parabola(a, b, c, x) && q == Parabola(a, b, c, y) && r == Parabola(a, b, c, z)
    requires rise == (r - q) / (z - y) - (q - p) / (y - x)
    ensures rise == c * ((y - x) + (z - y))
  {
    ParabolaStep(a, b, c, x, y);
    ParabolaStep(a, b, c, y, z);
    Quotient(q - p, y - x, b + c * (x + y));
    Quotient(r - q, z - y, b + c * (y + z));
    RiseOfParabola(b, c, x, y, z);
  }

  lemma ClampedBend(width: real, c: real, growth: real, rise: real)
    requires width > 0.0 && rise == c * width && c * growth >= 0.0
    ensures Positive(Bend(width, rise, growth)) == 2.0 * (c * growth)
  {
    BendOfParabola(width, c, growth, rise);
    Twice(c, growth);
  }

  lemma RiseOfParabola(b: real, c: real, x: real, y: real, z: real)
    ensures (b + c * (y + z)) - (b + c * (x + y)) == c * ((y - x) + (z - y))
  {}

  lemma Twice(c: real, growth: real)
    ensures 2.0 * c * growth == 2.0 * (c * growth)
  {}

  // ---------------------------------------------------------------------- its mass

  /** Each density counts for half the distance between its neighbours; of the first `n`. */
  function Mass(strikes: seq<real>, density: seq<Density>, n: nat): real
    requires n <= |density| && |strikes| == |density| + 2
  {
    if n == 0 then 0.0
    else Mass(strikes, density, n - 1) + density[n - 1].y * ((strikes[n + 1] - strikes[n - 1]) / 2.0)
  }

  /** The slope never falls: the prices are convex in the strike. */
  ghost predicate Convex(slopes: seq<real>) { forall i :: 0 < i < |slopes| ==> slopes[i - 1] <= slopes[i] }

  lemma Signs(scale: real, rise: real, growth: real)
    requires scale > 0.0 && growth > 0.0
    ensures scale * rise * growth > 0.0 <==> rise > 0.0
    ensures scale * rise * growth == 0.0 <==> rise == 0.0
  {
    if rise > 0.0 {
      assert scale * rise > 0.0;
    } else if rise < 0.0 {
      assert scale * rise < 0.0;
    }
  }

  lemma WidthCancels(width: real, rise: real, growth: real)
    requires width > 0.0 && growth > 0.0
    ensures Positive(Bend(width, rise, growth)) * (width / 2.0) == growth * Positive(rise)
    ensures Positive(Bend(width, rise, growth)) == Bend(width, rise, growth) <==> rise >= 0.0
  {
    var scale := 2.0 / width;
    assert scale > 0.0 && scale * (width / 2.0) == 1.0;
    Signs(scale, rise, growth);
    if rise > 0.0 {
      assert scale * rise * growth * (width / 2.0) == scale * (width / 2.0) * (rise * growth);
    }
  }

  /** The clamp leaves the density as it is exactly where the slope does not fall. */
  lemma ClampIdleIff(strikes: seq<real>, calls: seq<real>, growth: real, i: nat)
    requires |calls| == |strikes| && 0 < i < |strikes| - 1 && Increasing(strikes) && growth > 0.0
    ensures Positive(Curvature(strikes, calls, growth, i)) == Curvature(strikes, calls, growth, i) <==> Rise(strikes, calls, i) >= 0.0
  {
    assert Width(strikes, i - 1) > 0.0 && Width(strikes, i) > 0.0;
    WidthCancels(Width(strikes, i - 1) + Width(strikes, i), Rise(strikes, calls, i), growth);
  }

  function Slopes(strikes: seq<real>, calls: seq<real>): seq<real>
    requires |calls| == |strikes| && |strikes| > 0
  {
    seq(|strikes| - 1, i requires 0 <= i < |strikes| - 1 => Slope(strikes, calls, i))
  }

  /** The rises of the slope over the first `n` inner strikes, falls left out. */
  function Climb(slopes: seq<real>, n: nat): (r: real)
    requires n < |slopes|
    ensures r >= 0.0
  {
    if n == 0 then 0.0 else Climb(slopes, n - 1) + Positive(slopes[n] - slopes[n - 1])
  }

  ghost predicate BendsBy(strikes: seq<real>, slopes: seq<real>, growth: real, density: seq<Density>, k: nat)
    requires |strikes| == |slopes| + 1 == |density| + 2 && k < |density|
  {
    && strikes[k + 2] - strikes[k] > 0.0
    && density[k].y == Positive(Bend(strikes[k + 2] - strikes[k], slopes[k + 1] - slopes[k], growth))
  }

  lemma MassStep(mass: real, growth: real, climb: real, width: real, rise: real)
    requires mass == growth * climb && width > 0.0 && growth > 0.0
    ensures mass + Positive(Bend(width, rise, growth)) * (width / 2.0) == growth * (climb + Positive(rise))
  {
    WidthCancels(width, rise, growth);
  }

  lemma {:induction false} MassIsClimb(strikes: seq<real>, slopes: seq<real>, growth: real, density: seq<Density>, n: nat)
    requires growth > 0.0 && |strikes| == |slopes| + 1 == |density| + 2 && n <= |density|
    requires forall k :: 0 <= k < |density| ==> BendsBy(strikes, slopes, growth, density, k)
    ensures Mass(strikes, density, n) == growth * Climb(slopes, n)
  {
    if n > 0 {
      MassIsClimb(strikes, slopes, growth, density, n - 1);
      var width, rise := strikes[n + 1] - strikes[n - 1], slopes[n] - slopes[n - 1];
      assert width > 0.0 && density[n - 1].y == Positive(Bend(width, rise, growth)) by {
        assert BendsBy(strikes, slopes, growth, density, n - 1);
      }
      MassStep(Mass(strikes, density, n - 1), growth, Climb(slopes, n - 1), width, rise);
    }
  }

  lemma DensityBends(strikes: seq<real>, calls: seq<real>, growth: real, density: seq<Density>, k: nat)
    requires |calls| == |strikes| && |strikes| >= 3 && Increasing(strikes)
    requires DensityOf(strikes, calls, growth, density) && k < |density|
    ensures BendsBy(strikes, Slopes(strikes, calls), growth, density, k)
  {}

  lemma {:induction false} ClimbTelescopes(slopes: seq<real>, n: nat)
    requires n < |slopes|
    ensures Climb(slopes, n) >= slopes[n] - slopes[0]
    ensures Climb(slopes, n) == slopes[n] - slopes[0] <==> forall i :: 0 < i <= n ==> slopes[i] - slopes[i - 1] >= 0.0
  {
    if n > 0 { ClimbTelescopes(slopes, n - 1); }
  }

  lemma DensitiesBend(strikes: seq<real>, calls: seq<real>, growth: real, density: seq<Density>, slopes: seq<real>)
    requires |calls| == |strikes| && |strikes| >= 3 && Increasing(strikes)
    requires DensityOf(strikes, calls, growth, density) && slopes == Slopes(strikes, calls)
    ensures |strikes| == |slopes| + 1 == |density| + 2 && forall k :: 0 <= k < |density| ==> BendsBy(strikes, slopes, growth, density, k)
  {
    forall k | 0 <= k < |density| ensures BendsBy(strikes, slopes, growth, density, k) {
      DensityBends(strikes, calls, growth, density, k);
    }
  }

  /** What a mass of `growth * Climb` is in terms of the first and the last slope. */
  lemma ClimbLaw(mass: real, growth: real, slopes: seq<real>)
    requires |slopes| > 0 && growth > 0.0 && mass == growth * Climb(slopes, |slopes| - 1)
    ensures mass >= growth * (slopes[|slopes| - 1] - slopes[0]) && mass >= 0.0
    ensures mass == growth * (slopes[|slopes| - 1] - slopes[0]) <==> Convex(slopes)
  {
    var n := |slopes| - 1;
    var rise, climb := slopes[n] - slopes[0], Climb(slopes, n);
    ClimbTelescopes(slopes, n);
    assert climb == rise <==> Convex(slopes);
    ScaledStrictly(growth, rise, climb);
    ScaledStrictly(growth, 0.0, climb);
  }

  lemma BendingMass(strikes: seq<real>, slopes: seq<real>, growth: real, density: seq<Density>)
    requires growth > 0.0 && |strikes| == |slopes| + 1 == |density| + 2
    requires forall k :: 0 <= k < |density| ==> BendsBy(strikes, slopes, growth, density, k)
    ensures var mass := Mass(strikes, density, |density|);
      && mass >= growth * (slopes[|slopes| - 1] - slopes[0]) && mass >= 0.0
      && (mass == growth * (slopes[|slopes| - 1] - slopes[0]) <==> Convex(slopes))
  {
    MassIsClimb(strikes, slopes, growth, density, |density|);
    ClimbLaw(Mass(strikes, density, |density|), growth, slopes);
  }

  /**
    * The mass is growth times (last slope - first slope) exactly when the call prices are
    * convex in the strike; otherwise it is more.
    */
  lemma MassTelescopesIff(strikes: seq<real>, calls: seq<real>, growth: real, density: seq<Density>, slopes: seq<real>)
    requires |calls| == |strikes| && |strikes| >= 3 && Increasing(strikes) && growth > 0.0
    requires DensityOf(strikes, calls, growth, density) && slopes == Slopes(strikes, calls)
    ensures var mass := Mass(strikes, density, |density|);
      && mass >= growth * (slopes[|slopes| - 1] - slopes[0]) && mass >= 0.0
      && (mass == growth * (slopes[|slopes| - 1] - slopes[0]) <==> Convex(slopes))
  {
    DensitiesBend(strikes, calls, growth, density, slopes);
    BendingMass(strikes, slopes, growth, density);
  }

  /** With convex prices whose slopes lie between -discount and zero, the mass is at most one. */
  lemma MassIsAtMostOne(strikes: seq<real>, calls: seq<real>, growth: real, discount: real, density: seq<Density>)
    requires |calls| == |strikes| && |strikes| >= 3 && Increasing(strikes) && growth > 0.0 && growth * discount == 1.0
    requires DensityOf(strikes, calls, growth, density) && Convex(Slopes(strikes, calls))
    requires var slopes := Slopes(strikes, calls); forall i :: 0 <= i < |slopes| ==> -discount <= slopes[i] <= 0.0
    ensures 0.0 <= Mass(strikes, density, |density|) <= 1.0
  {
    var slopes := Slopes(strikes, calls);
    MassTelescopesIff(strikes, calls, growth, density, slopes);
    assert slopes[|slopes| - 1] <= 0.0 && -discount <= slopes[0];
    ScaledStrictly(growth, slopes[|slopes| - 1] - slopes[0], discount);
  }
}
