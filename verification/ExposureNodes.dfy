/**
  * The key strikes of an exposure heatmap, derived twice: on the server (heatmap/nodes.py and
  * heatmap/normalization.py) and in the browser (ExposureHeatmap.tsx). The two derivations
  * interpolate and break ties in different words; the theorem says they name the same nodes.
  */
module ExposureNodes {
  import opened Maybe
  import opened Lists
  import opened Reals
  import opened Sorting
  import opened AscendingKeys

  datatype Metric = GexMetric | VexMetric

  datatype Row = Row(strike: real, gex: real, vex: real)

  /** A ranked row, and the node shown for it. */
  datatype Node = Node(strike: real, value: real)

  datatype Nodes = Nodes(
    king: Option<Node>, positiveKing: Option<Node>, negativeKing: Option<Node>, aboveWall: Option<Node>, belowWall: Option<Node>)

  const NO_NODES: Nodes := Nodes(None, None, None, None, None)

  function ValueOf(row: Row, metric: Metric): real { if metric == GexMetric then row.gex else row.vex }

  function NodeOf(metric: Metric): Row -> Node { (r: Row) => Node(r.strike, ValueOf(r, metric)) }

  function NonZero(): Node -> bool { (n: Node) => n.value != 0.0 }

  function Ranked(rows: seq<Row>, metric: Metric): seq<Node> { Filter(NonZero(), Map(NodeOf(metric), rows)) }

  /** The server's loop over the rows. */
  method RankedRows(rows: seq<Row>, metric: Metric) returns (ranked: seq<Node>)
    ensures ranked == Ranked(rows, metric)
  {
    ranked := [];
    for i := 0 to |rows|
      invariant ranked == Ranked(rows[..i], metric)
    {
      var value := ValueOf(rows[i], metric);
      assert rows[..i + 1] == rows[..i] + [rows[i]];
      RankedAppend(rows[..i], rows[i], metric);
      if value == 0.0 {
        continue;
      }
      ranked := ranked + [Node(rows[i].strike, value)];
    }
    assert rows[..|rows|] == rows;
  }

  lemma RankedAppend(rows: seq<Row>, r: Row, metric: Metric)
    ensures var n := Node(r.strike, ValueOf(r, metric));
      Ranked(rows + [r], metric) == if n.value == 0.0 then Ranked(rows, metric) else Ranked(rows, metric) + [n]
  {
    var node := NodeOf(metric);
    assert Map(node, rows + [r]) == Map(node, rows) + [node(r)];
    FilterAppend(NonZero(), Map(node, rows), [node(r)]);
  }

  // ---------------------------------------------------------------- percentiles

  function Clamped(pct: real): real { if pct < 0.0 then 0.0 else if pct > 100.0 then 100.0 else pct }

  function Rank(n: nat, pct: real): (rank: real)
    requires n > 0
    ensures 0.0 <= rank <= (n - 1) as real
  {
    Scaled(Clamped(pct), 0.0, (n - 1) as real);
    Scaled((n - 1) as real, Clamped(pct), 100.0);
    (n - 1) as real * Clamped(pct) / 100.0
  }

  /** A share of the way from one value to another. */
  function Lerp(a: real, b: real, share: real): real { a + (b - a) * share }

  lemma LerpBetween(a: real, b: real, share: real)
    requires a <= b && 0.0 <= share <= 1.0
    ensures a <= Lerp(a, b, share) <= b
  {
    Scaled(b - a, 0.0, share);
    Scaled(b - a, share, 1.0);
  }

  lemma LerpMonotone(a: real, b: real, share: real, more: real)
    requires a <= b && share <= more
    ensures Lerp(a, b, share) <= Lerp(a, b, more)
  {
    Scaled(b - a, share, more);
  }

  function Ordered(values: seq<real>): (r: seq<real>)
    ensures |r| == |values|
  {
    SortKeeps(Ascending(), values);
    Sort(Ascending(), values)
  }

  /** The server's value at a fractional place: the place below, and the next or the last. */
  function AtRank(ordered: seq<real>, rank: real): real
    requires 0.0 <= rank <= (|ordered| - 1) as real
  {
    if |ordered| == 1 then ordered[0]
    else
      var lower := rank.Floor;
      var upper := if lower + 1 <= |ordered| - 1 then lower + 1 else |ordered| - 1;
      Lerp(ordered[lower], ordered[upper], rank - lower as real)
  }

  function Ceiling(x: real): int { if x.Floor as real == x then x.Floor else x.Floor + 1 }

  /** The browser's: the places below and above. */
  function AtRankBelowAbove(ordered: seq<real>, rank: real): real
    requires 0.0 <= rank <= (|ordered| - 1) as real
  {
    var lower, upper := rank.Floor, Ceiling(rank);
    if lower == upper then ordered[lower] else Lerp(ordered[lower], ordered[upper], rank - lower as real)
  }

  /** The server's percentile, of finite values. */
  function Percentile(values: seq<real>, pct: real): real {
    if |values| == 0 then 0.0 else AtRank(Ordered(values), Rank(|values|, pct))
  }

  /** The browser's 80th percentile: infinite, here None, when there is no value. */
  function Percentile80(values: seq<real>): Option<real> {
    if |values| == 0 then None else Some(AtRankBelowAbove(Ordered(values), (|values| - 1) as real * 0.8))
  }

  lemma RanksCoincide(ordered: seq<real>, rank: real)
    requires 0.0 <= rank <= (|ordered| - 1) as real
    ensures AtRank(ordered, rank) == AtRankBelowAbove(ordered, rank)
  {
    var lower := rank.Floor;
    if rank == lower as real && |ordered| > 1 {
      assert AtRank(ordered, rank) == ordered[lower];
    }
  }

  lemma PercentilesCoincide(values: seq<real>)
    requires |values| > 0
    ensures Percentile80(values) == Some(Percentile(values, 80.0))
  {
    assert Rank(|values|, 80.0) == (|values| - 1) as real * 0.8;
    RanksCoincide(Ordered(values), Rank(|values|, 80.0));
  }

  ghost predicate Ascends(xs: seq<real>) { forall i, j :: 0 <= i < j < |xs| ==> xs[i] <= xs[j] }

  lemma AtRankNeighbours(xs: seq<real>, rank: real)
    requires Ascends(xs) && 0.0 <= rank <= (|xs| - 1) as real
    ensures xs[rank.Floor] <= AtRank(xs, rank)
    ensures if rank.Floor < |xs| - 1 then AtRank(xs, rank) <= xs[rank.Floor + 1] else AtRank(xs, rank) == xs[rank.Floor]
  {
    var lower := rank.Floor;
    if lower < |xs| - 1 {
      LerpBetween(xs[lower], xs[lower + 1], rank - lower as real);
    }
  }

  lemma AtRankMonotone(xs: seq<real>, a: real, b: real)
    requires Ascends(xs) && 0.0 <= a <= b <= (|xs| - 1) as real
    ensures AtRank(xs, a) <= AtRank(xs, b)
  {
    var i, j := a.Floor, b.Floor;
    if i < j {
      AtRankNeighbours(xs, a);
      AtRankNeighbours(xs, b);
      assert i + 1 < j ==> xs[i + 1] <= xs[j];
    } else if i < |xs| - 1 {
      LerpMonotone(xs[i], xs[i + 1], a - i as real, b - i as real);
    }
  }

  lemma OrderedAscends(values: seq<real>)
    ensures Ascends(Ordered(values)) && forall v :: v in Ordered(values) <==> v in values
  {
    SortOrdered(Ascending(), values);
    SortMembers(Ascending(), values);
    var xs := Ordered(values);
    forall i, j | 0 <= i < j < |xs| ensures xs[i] <= xs[j] { assert Ascending()(xs[i], xs[j]); }
  }

  /** A percentile lies between the least and the greatest value. */
  lemma PercentileInRange(values: seq<real>, pct: real, low: real, high: real)
    requires |values| > 0 && forall v :: v in values ==> low <= v <= high
    ensures low <= Percentile(values, pct) <= high
  {
    OrderedAscends(values);
    var xs, rank := Ordered(values), Rank(|values|, pct);
    AtRankNeighbours(xs, rank);
    assert xs[rank.Floor] in values;
    if rank.Floor < |xs| - 1 { assert xs[rank.Floor + 1] in values; }
  }

  lemma RankMonotone(n: nat, a: real, b: real)
    requires n > 0 && a <= b
    ensures Rank(n, a) <= Rank(n, b)
  {
    var d, x, y := (n - 1) as real, Clamped(a), Clamped(b);
    assert d >= 0.0;
    assert x <= y;
    HundredthsOf(d, x, y);
    assert Rank(n, a) == d * x / 100.0;
    assert Rank(n, b) == d * y / 100.0;
  }

  lemma HundredthsOf(d: real, a: real, b: real)
    requires d >= 0.0 && a <= b
    ensures d * a / 100.0 <= d * b / 100.0
  {
    Scaled(d, a, b);
  }

  lemma PercentileMonotone(values: seq<real>, a: real, b: real)
    requires a <= b
    ensures Percentile(values, a) <= Percentile(values, b)
  {
    if |values| > 0 {
      OrderedAscends(values);
      RankMonotone(|values|, a, b);
      AtRankMonotone(Ordered(values), Rank(|values|, a), Rank(|values|, b));
    }
  }

  lemma SameLength(a: seq<real>, b: seq<real>)
    requires multiset(a) == multiset(b)
    ensures |a| == |b|
  {
    assert |a| == |multiset(a)| && |b| == |multiset(b)|;
  }

  /** The order of the values does not matter. */
  lemma PercentileIgnoresOrder(a: seq<real>, b: seq<real>, pct: real)
    requires multiset(a) == multiset(b)
    ensures Percentile(a, pct) == Percentile(b, pct)
  {
    SameLength(a, b);
    SortKeeps(Ascending(), a);
    SortKeeps(Ascending(), b);
    SortOrdered(Ascending(), a);
    SortOrdered(Ascending(), b);
    OrderedUnique(Ascending(), Ordered(a), Ordered(b));
  }

  // ------------------------------------------------------------- choosing a node

  /** Keeps the first entry until a better one comes: max, min and reduce. */
  function Best(better: (Node, Node) -> bool, xs: seq<Node>): Option<Node> {
    if |xs| == 0 then None
    else
      var best := Best(better, xs[..|xs| - 1]);
      if best.None? || better(xs[|xs| - 1], best.value) then Some(xs[|xs| - 1]) else best
  }

  lemma {:induction false} BestIsMember(better: (Node, Node) -> bool, xs: seq<Node>)
    ensures |xs| > 0 ==> Best(better, xs).Some? && Best(better, xs).value in xs
  {
    if |xs| > 0 { BestIsMember(better, xs[..|xs| - 1]); }
  }

  /** Two rules that compare the entries alike choose the same entry, ties included. */
  lemma {:induction false} SameRuleSameChoice(a: (Node, Node) -> bool, b: (Node, Node) -> bool, xs: seq<Node>)
    requires forall m, n :: m in xs && n in xs ==> a(m, n) == b(m, n)
    ensures Best(a, xs) == Best(b, xs)
  {
    if |xs| > 0 {
      SameRuleSameChoice(a, b, xs[..|xs| - 1]);
      BestIsMember(a, xs[..|xs| - 1]);
    }
  }

  /** Under a rule that compares scores, the choice is the first of the best. */
  lemma {:induction false} BestIsFirst(score: Node -> real, xs: seq<Node>)
    requires |xs| > 0
    ensures exists i :: FirstBest(score, xs, i) && Best(Higher(score), xs) == Some(xs[i])
  {
    var front, last := xs[..|xs| - 1], xs[|xs| - 1];
    if |xs| == 1 {
      assert Best(Higher(score), front) == None;
      assert FirstBest(score, xs, 0) && Best(Higher(score), xs) == Some(xs[0]);
    } else {
      BestIsFirst(score, front);
      var i :| FirstBest(score, front, i) && Best(Higher(score), front) == Some(front[i]);
      assert forall j :: 0 <= j < |front| ==> xs[j] == front[j];
      var k := if score(last) > score(front[i]) then |xs| - 1 else i;
      assert FirstBest(score, xs, k) && Best(Higher(score), xs) == Some(xs[k]);
    }
  }

  ghost predicate FirstBest(score: Node -> real, xs: seq<Node>, i: int) {
    && 0 <= i < |xs|
    && (forall j :: 0 <= j < |xs| ==> score(xs[j]) <= score(xs[i]))
    && (forall j :: 0 <= j < i ==> score(xs[j]) < score(xs[i]))
  }

  function Higher(score: Node -> real): (Node, Node) -> bool { (n: Node, best: Node) => score(n) > score(best) }

  function Lower(score: Node -> real): (Node, Node) -> bool { (n: Node, best: Node) => score(n) < score(best) }

  function Size(): Node -> real { (n: Node) => Abs(n.value) }

  function Value(): Node -> real { (n: Node) => n.value }

  function Strike(): Node -> real { (n: Node) => n.strike }

  function Distance(spot: real): Node -> real { (n: Node) => Abs(n.strike - spot) }

  function Positive(): Node -> bool { (n: Node) => n.value > 0.0 }

  function Negative(): Node -> bool { (n: Node) => n.value < 0.0 }

  /** `threshold` is None for the browser's infinite one. */
  function Above(spot: real, threshold: Option<real>): Node -> bool {
    (n: Node) => n.strike > spot && threshold.Some? && Abs(n.value) >= threshold.value
  }

  function Below(spot: real, threshold: Option<real>): Node -> bool {
    (n: Node) => n.strike < spot && threshold.Some? && Abs(n.value) >= threshold.value
  }

  function DeriveNodes(rows: seq<Row>, spot: real, metric: Metric): Nodes {
    if |rows| == 0 then NO_NODES
    else
      var ranked := Ranked(rows, metric);
      if |ranked| == 0 then NO_NODES
      else
        var threshold := Some(Percentile(Map(Size(), ranked), 80.0));
        Nodes(
          Best(Higher(Size()), ranked),
          Best(Higher(Value()), Filter(Positive(), ranked)),
          Best(Lower(Value()), Filter(Negative(), ranked)),
          Best(Lower(Strike()), Filter(Above(spot, threshold), ranked)),
          Best(Higher(Strike()), Filter(Below(spot, threshold), ranked)))
  }

  function DeriveMetricNodes(rows: seq<Row>, spot: real, metric: Metric): Nodes {
    var ranked := Ranked(rows, metric);
    var threshold := Percentile80(Map(Size(), ranked));
    Nodes(
      Best(Higher(Size()), ranked),
      Best(Higher(Value()), Filter(Positive(), ranked)),
      Best(Lower(Value()), Filter(Negative(), ranked)),
      Best(Lower(Distance(spot)), Filter(Above(spot, threshold), ranked)),
      Best(Lower(Distance(spot)), Filter(Below(spot, threshold), ranked)))
  }

  /** Server and browser name the same nodes for the same rows, ties included. */
  lemma DerivationsAgree(rows: seq<Row>, spot: real, metric: Metric)
    ensures DeriveNodes(rows, spot, metric) == DeriveMetricNodes(rows, spot, metric)
  {
    var ranked := Ranked(rows, metric);
    if |ranked| > 0 {
      PercentilesCoincide(Map(Size(), ranked));
      var threshold := Some(Percentile(Map(Size(), ranked), 80.0));
      WallsAgree(ranked, spot, threshold);
    }
  }

  /** The nearest strike above the spot is the least one, the nearest below it the greatest. */
  lemma WallsAgree(ranked: seq<Node>, spot: real, threshold: Option<real>)
    ensures var above := Filter(Above(spot, threshold), ranked);
      Best(Lower(Strike()), above) == Best(Lower(Distance(spot)), above)
    ensures var below := Filter(Below(spot, threshold), ranked);
      Best(Higher(Strike()), below) == Best(Lower(Distance(spot)), below)
  {
    FilterMembers(Above(spot, threshold), ranked);
    FilterMembers(Below(spot, threshold), ranked);
    SameRuleSameChoice(Lower(Strike()), Lower(Distance(spot)), Filter(Above(spot, threshold), ranked));
    SameRuleSameChoice(Higher(Strike()), Lower(Distance(spot)), Filter(Below(spot, threshold), ranked));
  }

  lemma KingIsGreatest(ranked: seq<Node>)
    requires |ranked| > 0
    ensures var king := Best(Higher(Size()), ranked);
      king.Some? && king.value in ranked && forall n :: n in ranked ==> Abs(n.value) <= Abs(king.value.value)
  {}

  lemma ThresholdInReach(ranked: seq<Node>, king: Node)
    requires |ranked| > 0 && forall n :: n in ranked ==> Abs(n.value) <= Abs(king.value)
    ensures Percentile(Map(Size(), ranked), 80.0) <= Abs(king.value)
  {
    var sizes := Map(Size(), ranked);
    forall v | v in sizes ensures 0.0 <= v <= Abs(king.value) {
      var i :| 0 <= i < |sizes| && sizes[i] == v;
      assert ranked[i] in ranked;
    }
    PercentileInRange(sizes, 80.0, 0.0, Abs(king.value));
  }

  /** A node that reaches the threshold has a wall on its side of the spot, no farther than itself. */
  lemma WallNoFarther(ranked: seq<Node>, spot: real, threshold: real, n: Node)
    requires n in ranked && Abs(n.value) >= threshold
    ensures var wall := Best(Lower(Strike()), Filter(Above(spot, Some(threshold)), ranked));
      n.strike > spot ==> wall.Some? && spot < wall.value.strike <= n.strike
    ensures var wall := Best(Higher(Strike()), Filter(Below(spot, Some(threshold)), ranked));
      n.strike < spot ==> wall.Some? && n.strike <= wall.value.strike < spot
  {
    var above, below := Filter(Above(spot, Some(threshold)), ranked), Filter(Below(spot, Some(threshold)), ranked);
    FilterMembers(Above(spot, Some(threshold)), ranked);
    FilterMembers(Below(spot, Some(threshold)), ranked);
    if n.strike > spot { NearestWall(above, n); }
    if n.strike < spot { FarthestWall(below, n); }
  }

  /** The greatest exposure reaches the wall threshold: off the spot, it has a wall on its side. */
  lemma KingReachesThreshold(rows: seq<Row>, spot: real, metric: Metric)
    requires |Ranked(rows, metric)| > 0
    ensures var nodes, ranked := DeriveNodes(rows, spot, metric), Ranked(rows, metric);
      && nodes.king.Some? && nodes.king.value in ranked
      && (forall n :: n in ranked ==> Abs(n.value) <= Abs(nodes.king.value.value))
      && Percentile(Map(Size(), ranked), 80.0) <= Abs(nodes.king.value.value)
      && (nodes.king.value.strike > spot ==> nodes.aboveWall.Some? && spot < nodes.aboveWall.value.strike <= nodes.king.value.strike)
      && (nodes.king.value.strike < spot ==> nodes.belowWall.Some? && nodes.king.value.strike <= nodes.belowWall.value.strike < spot)
  {
    var ranked := Ranked(rows, metric);
    KingIsGreatest(ranked);
    var king := Best(Higher(Size()), ranked).value;
    ThresholdInReach(ranked, king);
    WallNoFarther(ranked, spot, Percentile(Map(Size(), ranked), 80.0), king);
  }

  lemma {:induction false} FarthestWall(xs: seq<Node>, n: Node)
    requires n in xs
    ensures Best(Higher(Strike()), xs).Some? && Best(Higher(Strike()), xs).value in xs && n.strike <= Best(Higher(Strike()), xs).value.strike
  {
    BestIsMember(Higher(Strike()), xs);
    var front := xs[..|xs| - 1];
    BestIsMember(Higher(Strike()), front);
    if n in front { FarthestWall(front, n); }
  }

  lemma {:induction false} NearestWall(xs: seq<Node>, n: Node)
    requires n in xs
    ensures Best(Lower(Strike()), xs).Some? && Best(Lower(Strike()), xs).value in xs && Best(Lower(Strike()), xs).value.strike <= n.strike
  {
    BestIsMember(Lower(Strike()), xs);
    var front, last := xs[..|xs| - 1], xs[|xs| - 1];
    if n in front {
      NearestWall(front, n);
    } else {
      assert n == last;
      BestIsMember(Lower(Strike()), front);
    }
  }
}
