/**
  * Dealer exposure by strike (heatmap/exposure.py): a dict of strike rows, filled in one pass.
  * Each row holds the totals of its strike, and the rows together the totals of all contracts.
  */
module HeatmapExposure {
  import opened Maybe
  import opened OptionRights
  import opened Lists
  import opened OrderedTable
  import opened AscendingKeys
  import opened Grouping

  /** An optional float: None, a NaN or infinity, or a finite number. */
  datatype Input = Absent | NotFinite | Number(value: real)

  datatype Contract = Contract(right: Right, strike: real, openInterest: Input, gamma: Input, vanna: Input)

  datatype Tag = MissingBaseline | InvalidBaseline | MissingGreek | InvalidGreek

  datatype Exposure = Exposure(
    strike: real, gex: real, vex: real, callGex: real, putGex: real, callVex: real, putVex: real, tags: seq<Tag>)

  predicate Deserves(c: Contract, tag: Tag) {
    match tag
    case MissingBaseline => c.openInterest.Absent?
    case InvalidBaseline => c.openInterest.NotFinite?
    case MissingGreek => c.gamma.Absent? || c.vanna.Absent?
    case InvalidGreek => !c.gamma.Absent? && !c.vanna.Absent? && (c.gamma.NotFinite? || c.vanna.NotFinite?)
  }

  predicate Complete(c: Contract) { c.openInterest.Number? && c.gamma.Number? && c.vanna.Number? }

  function SignedInterest(c: Contract): real
    requires Complete(c)
  {
    if c.right == Call then c.openInterest.value else -c.openInterest.value
  }

  function GexScale(spot: real): real { 100.0 * spot * spot * 0.01 }

  function VexScale(spot: real): real { 100.0 * spot }

  // ------------------------------------------------------ what each contract adds

  function StrikeOf(): Contract -> real { (c: Contract) => c.strike }

  function Gex(spot: real): Contract -> real {
    (c: Contract) => if Complete(c) then SignedInterest(c) * c.gamma.value * GexScale(spot) else 0.0
  }

  function Vex(spot: real): Contract -> real {
    (c: Contract) => if Complete(c) then SignedInterest(c) * c.vanna.value * VexScale(spot) else 0.0
  }

  function SideGex(spot: real, side: Right): Contract -> real {
    (c: Contract) => if c.right == side then Gex(spot)(c) else 0.0
  }

  function SideVex(spot: real, side: Right): Contract -> real {
    (c: Contract) => if c.right == side then Vex(spot)(c) else 0.0
  }

  ghost predicate Tagged(tags: seq<Tag>, group: seq<Contract>) {
    && (forall i, j :: 0 <= i < j < |tags| ==> tags[i] != tags[j])
    && (forall t :: t in tags <==> exists i :: 0 <= i < |group| && Deserves(group[i], t))
  }

  /** A row holds the totals of a group of contracts of its strike. */
  ghost predicate Sums(row: Exposure, group: seq<Contract>, spot: real) {
    && row.gex == Total(RealSum(), Gex(spot), group)
    && row.vex == Total(RealSum(), Vex(spot), group)
    && row.callGex == Total(RealSum(), SideGex(spot, Call), group)
    && row.putGex == Total(RealSum(), SideGex(spot, Put), group)
    && row.callVex == Total(RealSum(), SideVex(spot, Call), group)
    && row.putVex == Total(RealSum(), SideVex(spot, Put), group)
  }

  ghost predicate RowOf(row: Exposure, strike: real, contracts: seq<Contract>, spot: real) {
    var group := AtKey(StrikeOf(), contracts, strike);
    row.strike == strike && group != [] && Sums(row, group, spot) && Tagged(row.tags, group)
  }

  /** One row for each strike of the contracts, in strictly ascending order. */
  ghost predicate AggregatedByStrike(rows: seq<Exposure>, contracts: seq<Contract>, spot: real) {
    && (forall i, j :: 0 <= i < j < |rows| ==> rows[i].strike < rows[j].strike)
    && (forall i :: 0 <= i < |rows| ==> RowOf(rows[i], rows[i].strike, contracts, spot))
    && (forall c :: c in contracts ==> exists i :: 0 <= i < |rows| && rows[i].strike == c.strike)
  }

  // --------------------------------------------------------------- conservation

  lemma {:induction false} SidesAddUp(group: seq<Contract>, spot: real)
    ensures Total(RealSum(), Gex(spot), group) ==
      Total(RealSum(), SideGex(spot, Call), group) + Total(RealSum(), SideGex(spot, Put), group)
    ensures Total(RealSum(), Vex(spot), group) ==
      Total(RealSum(), SideVex(spot, Call), group) + Total(RealSum(), SideVex(spot, Put), group)
  {
    if |group| > 0 { SidesAddUp(group[1..], spot); }
  }

  lemma {:induction false} OnlyCompleteCount(contracts: seq<Contract>, spot: real)
    ensures Total(RealSum(), Gex(spot), Filter((c: Contract) => Complete(c), contracts)) == Total(RealSum(), Gex(spot), contracts)
    ensures Total(RealSum(), Vex(spot), Filter((c: Contract) => Complete(c), contracts)) == Total(RealSum(), Vex(spot), contracts)
  {
    if |contracts| > 0 { OnlyCompleteCount(contracts[1..], spot); }
  }

  function GexAt(): Exposure -> real { (e: Exposure) => e.gex }

  function VexAt(): Exposure -> real { (e: Exposure) => e.vex }

  function StrikeKey(): Exposure -> real { (e: Exposure) => e.strike }

  lemma {:induction false} ColumnTotal(rows: seq<Exposure>, contracts: seq<Contract>, spot: real, f: Contract -> real, g: Exposure -> real)
    requires AggregatedByStrike(rows, contracts, spot)
    requires forall i :: 0 <= i < |rows| ==> g(rows[i]) == Total(RealSum(), f, AtKey(StrikeOf(), contracts, rows[i].strike))
    ensures Total(RealSum(), g, rows) == Total(RealSum(), f, contracts)
  {
    RealSumCommutes();
    forall c | c in contracts ensures exists i :: 0 <= i < |rows| && StrikeKey()(rows[i]) == StrikeOf()(c) {
      var i :| 0 <= i < |rows| && rows[i].strike == c.strike;
      assert StrikeKey()(rows[i]) == StrikeOf()(c);
    }
    GroupsConserve(RealSum(), StrikeOf(), f, contracts, StrikeKey(), g, rows);
  }

  /**
    * Each row's gamma and vanna exposure is its calls' plus its puts', and the rows' sum is the
    * sum over the contracts whose inputs are complete.
    */
  lemma ExposureConserved(rows: seq<Exposure>, contracts: seq<Contract>, spot: real)
    requires AggregatedByStrike(rows, contracts, spot)
    ensures forall i :: 0 <= i < |rows| ==>
      rows[i].gex == rows[i].callGex + rows[i].putGex && rows[i].vex == rows[i].callVex + rows[i].putVex
    ensures var complete := Filter((c: Contract) => Complete(c), contracts);
      && Total(RealSum(), GexAt(), rows) == Total(RealSum(), Gex(spot), complete)
      && Total(RealSum(), VexAt(), rows) == Total(RealSum(), Vex(spot), complete)
  {
    forall i | 0 <= i < |rows|
      ensures rows[i].gex == rows[i].callGex + rows[i].putGex && rows[i].vex == rows[i].callVex + rows[i].putVex
      ensures GexAt()(rows[i]) == Total(RealSum(), Gex(spot), AtKey(StrikeOf(), contracts, rows[i].strike))
      ensures VexAt()(rows[i]) == Total(RealSum(), Vex(spot), AtKey(StrikeOf(), contracts, rows[i].strike))
    {
      assert RowOf(rows[i], rows[i].strike, contracts, spot);
      SidesAddUp(AtKey(StrikeOf(), contracts, rows[i].strike), spot);
    }
    ColumnTotal(rows, contracts, spot, Gex(spot), GexAt());
    ColumnTotal(rows, contracts, spot, Vex(spot), VexAt());
    OnlyCompleteCount(contracts, spot);
  }

  // ------------------------------------------------------------ a single contract

  /** Of one contract: dollars per one percent move from gamma, and per whole move of volatility from vanna; a put counts negative. */
  lemma OneContractRow(rows: seq<Exposure>, i: nat, c: Contract, spot: real)
    requires AggregatedByStrike(rows, [c], spot) && i < |rows|
    ensures rows[i].strike == c.strike
    ensures match (c.openInterest, c.gamma, c.vanna)
      case (Number(interest), Number(gamma), Number(vanna)) =>
        var size := if c.right == Put then -interest else interest;
        && rows[i].tags == []
        && rows[i].gex == size * gamma * (spot * spot) && rows[i].vex == size * vanna * (100.0 * spot)
        && (if c.right == Call then rows[i].callGex == rows[i].gex && rows[i].callVex == rows[i].vex
            else rows[i].putGex == rows[i].gex && rows[i].putVex == rows[i].vex)
      case _ => rows[i] == Exposure(c.strike, 0.0, 0.0, 0.0, 0.0, 0.0, 0.0, rows[i].tags) && rows[i].tags != []
  {
    var row := rows[i];
    assert RowOf(row, row.strike, [c], spot);
    OneKey(c, row.strike);
    OneSum(row, c, spot);
    forall t ensures t in row.tags <==> Deserves(c, t) { assert Tagged(row.tags, [c]) && [c][0] == c; }
    if Complete(c) {
      OneContractGex(c.right, c.openInterest.value, c.gamma.value, spot);
      NothingInside(row.tags);
    } else {
      assert Deserves(c, MissingBaseline) || Deserves(c, InvalidBaseline) || Deserves(c, MissingGreek) || Deserves(c, InvalidGreek);
    }
  }

  lemma NothingInside(tags: seq<Tag>)
    ensures (forall t :: t !in tags) ==> tags == []
  {
    if |tags| > 0 { assert tags[0] in tags; }
  }

  lemma OneKey(c: Contract, strike: real)
    ensures AtKey(StrikeOf(), [c], strike) == if c.strike == strike then [c] else []
  {
    AtKeyAppend(StrikeOf(), [], c, strike);
    assert [] + [c] == [c];
  }

  lemma OneSum(row: Exposure, c: Contract, spot: real)
    requires Sums(row, [c], spot)
    ensures row == Plus(Exposure(row.strike, 0.0, 0.0, 0.0, 0.0, 0.0, 0.0, row.tags), AddedBy(c, spot))
  {
    SumsAppend(Exposure(row.strike, 0.0, 0.0, 0.0, 0.0, 0.0, 0.0, row.tags), [], c, spot, AddedBy(c, spot));
    assert [] + [c] == [c];
  }

  lemma OneContractGex(right: Right, interest: real, gamma: real, spot: real)
    ensures var signed := if right == Call then interest else -interest;
      signed * gamma * GexScale(spot) == signed * gamma * (spot * spot)
  {
    assert GexScale(spot) == spot * spot;
  }

  // --------------------------------------------------------------------- the pass

  method AppendTag(tags: seq<Tag>, tag: Tag) returns (r: seq<Tag>)
    requires forall i, j :: 0 <= i < j < |tags| ==> tags[i] != tags[j]
    ensures forall i, j :: 0 <= i < j < |r| ==> r[i] != r[j]
    ensures forall t :: t in r <==> t in tags || t == tag
  {
    r := if tag in tags then tags else tags + [tag];
  }

  lemma {:induction false} ColumnAppend(f: Contract -> real, group: seq<Contract>, c: Contract)
    ensures Total(RealSum(), f, group + [c]) == Total(RealSum(), f, group) + f(c)
  {
    RealSumCommutes();
    TotalAppend(RealSum(), f, group, c);
  }

  /** What one contract adds to each column. */
  datatype Added = Added(gex: real, vex: real, callGex: real, putGex: real, callVex: real, putVex: real)

  function AddedBy(c: Contract, spot: real): Added {
    Added(Gex(spot)(c), Vex(spot)(c), SideGex(spot, Call)(c), SideGex(spot, Put)(c), SideVex(spot, Call)(c), SideVex(spot, Put)(c))
  }

  function Plus(row: Exposure, a: Added): Exposure {
    row.(gex := row.gex + a.gex, vex := row.vex + a.vex, callGex := row.callGex + a.callGex, putGex := row.putGex + a.putGex,
         callVex := row.callVex + a.callVex, putVex := row.putVex + a.putVex)
  }

  lemma SumsAppend(row: Exposure, group: seq<Contract>, c: Contract, spot: real, a: Added)
    requires Sums(row, group, spot) && a == AddedBy(c, spot)
    ensures Sums(Plus(row, a), group + [c], spot)
  {
    ColumnAppend(Gex(spot), group, c);
    ColumnAppend(Vex(spot), group, c);
    ColumnAppend(SideGex(spot, Call), group, c);
    ColumnAppend(SideGex(spot, Put), group, c);
    ColumnAppend(SideVex(spot, Call), group, c);
    ColumnAppend(SideVex(spot, Put), group, c);
  }

  lemma TaggedAppend(tags: seq<Tag>, group: seq<Contract>, c: Contract, after: seq<Tag>)
    requires Tagged(tags, group) && forall i, j :: 0 <= i < j < |after| ==> after[i] != after[j]
    requires forall t :: t in after <==> t in tags || Deserves(c, t)
    ensures Tagged(after, group + [c])
  {
    var grown := group + [c];
    forall t ensures t in after <==> exists i :: 0 <= i < |grown| && Deserves(grown[i], t) {
      if t in tags {
        var i :| 0 <= i < |group| && Deserves(group[i], t);
        assert Deserves(grown[i], t);
      }
      if Deserves(c, t) { assert Deserves(grown[|group|], t); }
      if i :| 0 <= i < |grown| && Deserves(grown[i], t) {
        assert i < |group| ==> Deserves(group[i], t);
      }
    }
  }

  method TagInputs(tags: seq<Tag>, c: Contract) returns (r: seq<Tag>, missing: bool)
    requires forall i, j :: 0 <= i < j < |tags| ==> tags[i] != tags[j]
    ensures forall i, j :: 0 <= i < j < |r| ==> r[i] != r[j]
    ensures forall t :: t in r <==> t in tags || Deserves(c, t)
    ensures missing <==> !Complete(c)
  {
    r, missing := tags, false;
    if c.openInterest.Absent? {
      r := AppendTag(r, MissingBaseline);
      missing := true;
    } else if c.openInterest.NotFinite? {
      r := AppendTag(r, InvalidBaseline);
      missing := true;
    }
    if c.gamma.Absent? || c.vanna.Absent? {
      r := AppendTag(r, MissingGreek);
      missing := true;
    } else if c.gamma.NotFinite? || c.vanna.NotFinite? {
      r := AppendTag(r, InvalidGreek);
      missing := true;
    }
  }

  method AddExposure(start: Exposure, c: Contract, spot: real) returns (row: Exposure)
    requires Complete(c)
    ensures row == Plus(start, AddedBy(c, spot))
  {
    var signed := if c.right == Call then c.openInterest.value else -c.openInterest.value;
    var gex := signed * c.gamma.value * GexScale(spot);
    var vex := signed * c.vanna.value * VexScale(spot);
    assert gex == Gex(spot)(c) && vex == Vex(spot)(c);
    row := start;
    if c.right == Call {
      row := row.(callGex := row.callGex + gex, callVex := row.callVex + vex);
    } else {
      row := row.(putGex := row.putGex + gex, putVex := row.putVex + vex);
    }
    row := row.(gex := row.gex + gex, vex := row.vex + vex);
  }

  /** Adds one contract to the row of its strike. */
  method AddContract(start: Exposure, c: Contract, ghost group: seq<Contract>, spot: real) returns (row: Exposure)
    requires Sums(start, group, spot) && Tagged(start.tags, group)
    ensures row.strike == start.strike && Sums(row, group + [c], spot) && Tagged(row.tags, group + [c])
  {
    var tags, missing := TagInputs(start.tags, c);
    TaggedAppend(start.tags, group, c, tags);
    SumsAppend(start, group, c, spot, AddedBy(c, spot));
    row := start;
    if !missing {
      row := AddExposure(start, c, spot);
    }
    row := row.(tags := tags);
  }

  ghost predicate TableOf(table: Table<real, Exposure>, contracts: seq<Contract>, spot: real) {
    && DistinctKeys(table)
    && (forall k: real :: Find(table, k).None? <==> AtKey(StrikeOf(), contracts, k) == [])
    && (forall k: real :: Find(table, k).Some? ==> RowOf(Find(table, k).value, k, contracts, spot))
  }

  lemma TableGrows(table: Table<real, Exposure>, contracts: seq<Contract>, c: Contract, row: Exposure, spot: real)
    requires TableOf(table, contracts, spot) && RowOf(row, c.strike, contracts + [c], spot)
    ensures TableOf(SetEntry(table, c.strike, row), contracts + [c], spot)
  {
    SetEntryMembers(table, c.strike, row);
    forall k: real
      ensures Find(SetEntry(table, c.strike, row), k) == if k == c.strike then Some(row) else Find(table, k)
      ensures k != c.strike ==> AtKey(StrikeOf(), contracts + [c], k) == AtKey(StrikeOf(), contracts, k)
    {
      FindSetEntry(table, c.strike, row, k);
      AtKeyAppend(StrikeOf(), contracts, c, k);
    }
  }

  method FillRows(contracts: seq<Contract>, spot: real) returns (table: Table<real, Exposure>)
    ensures TableOf(table, contracts, spot)
  {
    table := [];
    for i := 0 to |contracts|
      invariant TableOf(table, contracts[..i], spot)
    {
      var c := contracts[i];
      assert contracts[..i + 1] == contracts[..i] + [c];
      AtKeyAppend(StrikeOf(), contracts[..i], c, c.strike);
      var start := OrElse(Find(table, c.strike), Some(Exposure(c.strike, 0.0, 0.0, 0.0, 0.0, 0.0, 0.0, []))).value;
      var row := AddContract(start, c, AtKey(StrikeOf(), contracts[..i], c.strike), spot);
      TableGrows(table, contracts[..i], c, row, spot);
      table := SetEntry(table, c.strike, row);
    }
    assert contracts[..|contracts|] == contracts;
  }

  method AggregateExposureByStrike(contracts: seq<Contract>, spot: real) returns (rows: seq<Exposure>)
    ensures AggregatedByStrike(rows, contracts, spot)
  {
    var table := FillRows(contracts, spot);
    var keys := SortedKeys(table);
    SortedKeysAscend(table);
    rows := [];
    while |rows| < |keys|
      invariant |rows| <= |keys|
      invariant forall i :: 0 <= i < |rows| ==> rows[i].strike == keys[i] && RowOf(rows[i], keys[i], contracts, spot)
    {
      var k := keys[|rows|];
      assert k in keys;
      rows := rows + [Find(table, k).value];
    }
    forall c | c in contracts ensures exists i :: 0 <= i < |rows| && rows[i].strike == c.strike {
      FilterMembers(HasKey(StrikeOf(), c.strike), contracts);
      assert c in AtKey(StrikeOf(), contracts, c.strike);
      assert c.strike in keys;
      var i :| 0 <= i < |keys| && keys[i] == c.strike;
      assert rows[i].strike == c.strike;
    }
  }
}
