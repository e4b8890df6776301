/**
  * What the key strikes of a heatmap are (heatmap/nodes.py, heatmap/normalization.py), told of
  * the rows alone: which row each node is, and what the threshold of the walls is.
  */
module NodeMeaning {
  import opened Maybe
  import opened Lists
  import opened Reals
  import opened Sorting
  import opened AscendingKeys
  import opened ExposureNodes

  /** The node of a row with a non-zero value. */
  predicate NodeAt(rows: seq<Row>, metric: Metric, i: int, n: Node) {
    && 0 <= i < |rows| && n.strike == rows[i].strike && n.value != 0.0
    && n.value == match metric case GexMetric => rows[i].gex case VexMetric => rows[i].vex
  }

  datatype Role = King | PositiveKing | NegativeKing | AboveWall | BelowWall

  function Magnitude(x: real): real { if x < 0.0 then -x else x }

  predicate Eligible(role: Role, spot: real, threshold: real, n: Node) {
    match role
    case King => true
    case PositiveKing => n.value > 0.0
    case NegativeKing => n.value < 0.0
    case AboveWall => n.strike > spot && Magnitude(n.value) >= threshold
    case BelowWall => n.strike < spot && Magnitude(n.value) >= threshold
  }

  /** The king is greatest in size, the positive one in value, the negative one least; walls are next to the spot. */
  predicate Beats(role: Role, m: Node, n: Node) {
    match role
    case King => Magnitude(m.value) > Magnitude(n.value)
    case PositiveKing => m.value > n.value
    case NegativeKing => m.value < n.value
    case AboveWall => m.strike < n.strike
    case BelowWall => m.strike > n.strike
  }

  /** The first of the eligible rows that none beats; none only without an eligible row. */
  ghost predicate Holds(rows: seq<Row>, metric: Metric, spot: real, threshold: real, role: Role, choice: Option<Node>) {
    match choice
    case None => forall i, n :: NodeAt(rows, metric, i, n) ==> !Eligible(role, spot, threshold, n)
    case Some(n) => exists i :: NodeAt(rows, metric, i, n) && FirstUnbeaten(rows, metric, spot, threshold, role, i, n)
  }

  ghost predicate FirstUnbeaten(rows: seq<Row>, metric: Metric, spot: real, threshold: real, role: Role, i: int, n: Node) {
    && Eligible(role, spot, threshold, n)
    && (forall j, m :: NodeAt(rows, metric, j, m) && Eligible(role, spot, threshold, m) ==> !Beats(role, m, n))
    && (forall j, m :: NodeAt(rows, metric, j, m) && Eligible(role, spot, threshold, m) && j < i ==> Beats(role, n, m))
  }

  ghost predicate NodesAre(rows: seq<Row>, spot: real, metric: Metric, threshold: real, nodes: Nodes) {
    && Holds(rows, metric, spot, threshold, King, nodes.king)
    && Holds(rows, metric, spot, threshold, PositiveKing, nodes.positiveKing)
    && Holds(rows, metric, spot, threshold, NegativeKing, nodes.negativeKing)
    && Holds(rows, metric, spot, threshold, AboveWall, nodes.aboveWall)
    && Holds(rows, metric, spot, threshold, BelowWall, nodes.belowWall)
  }

  /** The sizes of the non-zero values. */
  ghost function Sizes(rows: seq<Row>, metric: Metric): seq<real> {
    if |rows| == 0 then []
    else
      var v := match metric case GexMetric => rows[0].gex case VexMetric => rows[0].vex;
      (if v == 0.0 then [] else [Magnitude(v)]) + Sizes(rows[1..], metric)
  }

  /** Place `rank`, counted from zero, between the `k`-th value in ascending order and the next. */
  ghost predicate Interpolates(sorted: seq<real>, rank: real, k: int, v: real) {
    && 0 <= k < |sorted| && k as real <= rank < (k + 1) as real
    && (k == |sorted| - 1 ==> v == sorted[k])
    && (k < |sorted| - 1 ==> v == sorted[k] + (sorted[k + 1] - sorted[k]) * (rank - k as real))
  }

  /** `v` stands `percent` of the way from the least to the greatest value, by rank; zero without values. */
  ghost predicate PercentileIs(values: seq<real>, percent: real, v: real)
    requires 0.0 <= percent <= 100.0
  {
    if |values| == 0 then v == 0.0
    else StandsAt(values, Share(|values| - 1, percent), v)
  }

  ghost function Share(n: int, percent: real): real { n as real * percent / 100.0 }

  ghost predicate StandsAt(values: seq<real>, rank: real, v: real) {
    exists sorted, k :: SortedOf(values, sorted) && Interpolates(sorted, rank, k, v)
  }

  ghost predicate SortedOf(values: seq<real>, sorted: seq<real>) { multiset(sorted) == multiset(values) && Ascends(sorted) }

  // ---------------------------------------------------------------- percentiles

  lemma PercentileIsPercentile(values: seq<real>, percent: real)
    requires 0.0 <= percent <= 100.0
    ensures PercentileIs(values, percent, Percentile(values, percent))
  {
    if |values| > 0 {
      RankIsShare(|values|, percent);
      PercentileStands(values, percent, Rank(|values|, percent));
    }
  }

  lemma RankIsShare(n: nat, percent: real)
    requires n > 0 && 0.0 <= percent <= 100.0
    ensures Rank(n, percent) == Share(n - 1, percent)
  {}

  lemma PercentileStands(values: seq<real>, percent: real, rank: real)
    requires |values| > 0 && rank == Rank(|values|, percent)
    ensures StandsAt(values, rank, Percentile(values, percent))
  {
    var sorted := ExposureNodes.Ordered(values);
    OrderedAscends(values);
    SortKeeps(Ascending(), values);
    RankInterpolates(sorted, rank);
    assert SortedOf(values, sorted) && Interpolates(sorted, rank, rank.Floor, AtRank(sorted, rank));
  }

  lemma RankInterpolates(sorted: seq<real>, rank: real)
    requires 0.0 <= rank <= (|sorted| - 1) as real
    ensures Interpolates(sorted, rank, rank.Floor, AtRank(sorted, rank))
  {}

  /** Beyond its range a percentage counts as the end it passed. */
  lemma PercentIsClamped(values: seq<real>, percent: real)
    ensures percent < 0.0 ==> Percentile(values, percent) == Percentile(values, 0.0)
    ensures percent > 100.0 ==> Percentile(values, percent) == Percentile(values, 100.0)
  {
    if |values| > 0 {
      if percent < 0.0 { SameRank(|values|, percent, 0.0); }
      if percent > 100.0 { SameRank(|values|, percent, 100.0); }
    }
  }

  lemma SameRank(n: nat, a: real, b: real)
    requires n > 0 && Clamped(a) == Clamped(b)
    ensures Rank(n, a) == Rank(n, b)
  {}

  // ---------------------------------------------------------------------- nodes

  lemma {:induction false} SizesAreSizes(rows: seq<Row>, metric: Metric)
    ensures Map(Size(), Ranked(rows, metric)) == Sizes(rows, metric)
  {
    if |rows| > 0 {
      SizesAreSizes(rows[1..], metric);
      assert Map(NodeOf(metric), rows) == [NodeOf(metric)(rows[0])] + Map(NodeOf(metric), rows[1..]);
    }
  }

  ghost predicate IsRule(role: Role, spot: real, threshold: real, keep: Node -> bool, better: (Node, Node) -> bool) {
    && (forall n :: keep(n) == Eligible(role, spot, threshold, n))
    && (forall m, n :: better(m, n) == Beats(role, m, n))
  }

  lemma BestAppend(better: (Node, Node) -> bool, xs: seq<Node>, n: Node)
    ensures var best := Best(better, xs); Best(better, xs + [n]) == if best.None? || better(n, best.value) then Some(n) else best
  {
    assert (xs + [n])[..|xs|] == xs;
  }

  lemma KeptAppend(keep: Node -> bool, xs: seq<Node>, n: Node)
    ensures Filter(keep, xs + [n]) == if keep(n) then Filter(keep, xs) + [n] else Filter(keep, xs)
  {
    FilterAppend(keep, xs, [n]);
  }

  /** The choice among the kept nodes, under any rule that follows the role. */
  lemma {:induction false} ChoiceHolds(rows: seq<Row>, metric: Metric, spot: real, threshold: real, role: Role,
                                       keep: Node -> bool, better: (Node, Node) -> bool)
    requires IsRule(role, spot, threshold, keep, better)
    ensures Holds(rows, metric, spot, threshold, role, Best(better, Filter(keep, Ranked(rows, metric))))
  {
    if |rows| > 0 {
      var front, r := rows[..|rows| - 1], rows[|rows| - 1];
      var n := Node(r.strike, ValueOf(r, metric));
      ChoiceHolds(front, metric, spot, threshold, role, keep, better);
      RankedAppend(front, r, metric);
      KeptAppend(keep, Ranked(front, metric), n);
      assert front + [r] == rows;
      var before, now := Best(better, Filter(keep, Ranked(front, metric))), Best(better, Filter(keep, Ranked(rows, metric)));
      if n.value == 0.0 || !keep(n) {
        assert now == before;
        IneligibleLater(front, r, rows, metric, spot, threshold, role, n, before);
      } else {
        BestAppend(better, Filter(keep, Ranked(front, metric)), n);
        assert now == if before.None? || better(n, before.value) then Some(n) else before;
        EligibleLater(front, r, rows, metric, spot, threshold, role, n, before);
      }
    }
  }

  lemma IneligibleLater(front: seq<Row>, r: Row, rows: seq<Row>, metric: Metric, spot: real, threshold: real, role: Role,
                        n: Node, choice: Option<Node>)
    requires rows == front + [r] && n == Node(r.strike, ValueOf(r, metric)) && Holds(front, metric, spot, threshold, role, choice)
    requires n.value == 0.0 || !Eligible(role, spot, threshold, n)
    ensures Holds(rows, metric, spot, threshold, role, choice)
  {
    forall j, m | NodeAt(rows, metric, j, m) ensures NodeAt(front, metric, j, m) || m == n {}
    if choice.Some? {
      var i :| NodeAt(front, metric, i, choice.value) && FirstUnbeaten(front, metric, spot, threshold, role, i, choice.value);
      assert NodeAt(rows, metric, i, choice.value);
      assert FirstUnbeaten(rows, metric, spot, threshold, role, i, choice.value);
    }
  }

  lemma EligibleLater(front: seq<Row>, r: Row, rows: seq<Row>, metric: Metric, spot: real, threshold: real, role: Role,
                      n: Node, before: Option<Node>)
    requires rows == front + [r] && n == Node(r.strike, ValueOf(r, metric)) && Holds(front, metric, spot, threshold, role, before)
    requires n.value != 0.0 && Eligible(role, spot, threshold, n)
    ensures Holds(rows, metric, spot, threshold, role, if before.None? || Beats(role, n, before.value) then Some(n) else before)
  {
    forall j, m | NodeAt(rows, metric, j, m) && j < |front| ensures NodeAt(front, metric, j, m) {}
    if before.Some? && !Beats(role, n, before.value) {
      var i :| NodeAt(front, metric, i, before.value) && FirstUnbeaten(front, metric, spot, threshold, role, i, before.value);
      assert NodeAt(rows, metric, i, before.value);
      assert FirstUnbeaten(rows, metric, spot, threshold, role, i, before.value);
    } else {
      assert NodeAt(rows, metric, |front|, n);
      assert FirstUnbeaten(rows, metric, spot, threshold, role, |front|, n);
    }
  }

  lemma {:induction false} FilterAll(keep: Node -> bool, xs: seq<Node>)
    requires forall n :: keep(n)
    ensures Filter(keep, xs) == xs
  {
    if |xs| > 0 { FilterAll(keep, xs[1..]); }
  }

  /**
    * The king is the first row of greatest size, the signed kings the first of greatest and of
    * least value, and the walls the rows next to the spot whose size reaches the 80th percentile.
    */
  lemma NodesMeaning(rows: seq<Row>, spot: real, metric: Metric)
    ensures exists threshold :: PercentileIs(Sizes(rows, metric), 80.0, threshold)
              && NodesAre(rows, spot, metric, threshold, DeriveNodes(rows, spot, metric))
  {
    var ranked := Ranked(rows, metric);
    var threshold := Percentile(Map(Size(), ranked), 80.0);
    SizesAreSizes(rows, metric);
    PercentileIsPercentile(Sizes(rows, metric), 80.0);
    var all := (n: Node) => true;
    FilterAll(all, ranked);
    assert IsRule(King, spot, threshold, all, Higher(Size()));
    ChoiceHolds(rows, metric, spot, threshold, King, all, Higher(Size()));
    KingsHold(rows, metric, spot, threshold);
    WallsHold(rows, metric, spot, threshold);
    if |ranked| > 0 { assert NodesAre(rows, spot, metric, threshold, DeriveNodes(rows, spot, metric)); }
    else { assert NodesAre(rows, spot, metric, threshold, NO_NODES); }
  }

  lemma KingsHold(rows: seq<Row>, metric: Metric, spot: real, threshold: real)
    ensures Holds(rows, metric, spot, threshold, PositiveKing, Best(Higher(Value()), Filter(Positive(), Ranked(rows, metric))))
    ensures Holds(rows, metric, spot, threshold, NegativeKing, Best(Lower(Value()), Filter(Negative(), Ranked(rows, metric))))
  {
    ChoiceHolds(rows, metric, spot, threshold, PositiveKing, Positive(), Higher(Value()));
    ChoiceHolds(rows, metric, spot, threshold, NegativeKing, Negative(), Lower(Value()));
  }

  lemma WallsHold(rows: seq<Row>, metric: Metric, spot: real, threshold: real)
    ensures var at := Some(threshold);
      && Holds(rows, metric, spot, threshold, AboveWall, Best(Lower(Strike()), Filter(Above(spot, at), Ranked(rows, metric))))
      && Holds(rows, metric, spot, threshold, BelowWall, Best(Higher(Strike()), Filter(Below(spot, at), Ranked(rows, metric))))
  {
    ChoiceHolds(rows, metric, spot, threshold, AboveWall, Above(spot, Some(threshold)), Lower(Strike()));
    ChoiceHolds(rows, metric, spot, threshold, BelowWall, Below(spot, Some(threshold)), Higher(Strike()));
  }
}
