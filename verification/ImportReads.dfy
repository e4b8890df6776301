/**
  * Reading imported replays (replay/import_repository.py). The nearest snapshot is found by
  * two one-sided index lookups, and the quotes of many snapshots by one query that is grouped
  * afterwards. Query results are given by what SQL promises of them, so ties SQL leaves open
  * stay open. Identifiers are numbered in the order of their texts; times are integers.
  */
module ImportReads {
  import opened Maybe
  import opened Lists
  import opened Sorting
  import opened Uniqueness

  datatype SnapshotRecord = SnapshotRecord(sourceId: nat, order: int, time: int)

  // ------------------------------------------------------------ nearest snapshot

  /** ORDER BY snapshot_time DESC, source_order ASC LIMIT 1, at or before the target. */
  ghost predicate BeforeResult(rows: seq<SnapshotRecord>, target: int, r: Option<SnapshotRecord>) {
    match r
    case None => forall y :: y in rows ==> y.time > target
    case Some(x) =>
      && x in rows && x.time <= target
      && forall y :: y in rows && y.time <= target ==> y.time < x.time || (y.time == x.time && x.order <= y.order)
  }

  /** ORDER BY snapshot_time ASC, source_order ASC LIMIT 1, at or after the target. */
  ghost predicate AfterResult(rows: seq<SnapshotRecord>, target: int, r: Option<SnapshotRecord>) {
    match r
    case None => forall y :: y in rows ==> y.time < target
    case Some(x) =>
      && x in rows && x.time >= target
      && forall y :: y in rows && y.time >= target ==> y.time > x.time || (y.time == x.time && x.order <= y.order)
  }

  function Distance(x: SnapshotRecord, target: int): int {
    if x.time <= target then target - x.time else x.time - target
  }

  /** (distance, source_order) is no greater. */
  predicate NoFurther(target: int, a: SnapshotRecord, b: SnapshotRecord) {
    Distance(a, target) < Distance(b, target) || (Distance(a, target) == Distance(b, target) && a.order <= b.order)
  }

  /** Python's `min` over the candidates present, the first of equals. */
  function NearestOfTwo(before: Option<SnapshotRecord>, after: Option<SnapshotRecord>, target: int): Option<SnapshotRecord> {
    if before.None? then after
    else if after.None? then before
    else if NoFurther(target, before.value, after.value) then before
    else after
  }

  /** The least row by (distance, source_order), by scanning every row of the session. */
  function NaiveNearest(rows: seq<SnapshotRecord>, target: int): Option<SnapshotRecord> {
    if |rows| == 0 then None
    else
      var rest := NaiveNearest(rows[1..], target);
      if rest.None? || NoFurther(target, rows[0], rest.value) then Some(rows[0]) else rest
  }

  lemma {:induction false} NaiveNearestIsLeast(rows: seq<SnapshotRecord>, target: int)
    ensures NaiveNearest(rows, target).None? <==> |rows| == 0
    ensures |rows| > 0 ==>
      var x := NaiveNearest(rows, target).value;
      x in rows && forall y :: y in rows ==> NoFurther(target, x, y)
  {
    if |rows| > 0 {
      NaiveNearestIsLeast(rows[1..], target);
      assert rows == [rows[0]] + rows[1..];
    }
  }

  /**
    * Two one-sided lookups find a row no other row of the session beats, whatever ties SQL
    * broke; with distinct source orders it is the very row a scan of all rows finds.
    */
  lemma NearestLookupRefinesScan(rows: seq<SnapshotRecord>, target: int,
                                 before: Option<SnapshotRecord>, after: Option<SnapshotRecord>)
    requires BeforeResult(rows, target, before) && AfterResult(rows, target, after)
    ensures var r := NearestOfTwo(before, after, target);
      && (r.None? <==> |rows| == 0)
      && (r.Some? ==> r.value in rows && forall y :: y in rows ==> NoFurther(target, r.value, y))
      && ((forall x, y :: x in rows && y in rows && x.order == y.order ==> x == y) ==> r == NaiveNearest(rows, target))
  {
    NaiveNearestIsLeast(rows, target);
    var r := NearestOfTwo(before, after, target);
    if |rows| > 0 {
      assert rows[0] in rows;
      assert r.Some?;
      forall y | y in rows ensures NoFurther(target, r.value, y) {
        if y.time <= target {
          assert NoFurther(target, before.value, y);
        } else {
          assert NoFurther(target, after.value, y);
        }
      }
    }
  }

  // ------------------------------------------------------------------ bulk quotes

  datatype Quote = Quote(sourceId: nat, contractId: nat, order: int, bid: Option<real>, ask: Option<real>, iv: Option<real>)

  /** The primary key within a session. */
  ghost predicate KeyedQuotes(table: set<Quote>) {
    forall a, b :: a in table && b in table && a.sourceId == b.sourceId && a.contractId == b.contractId ==> a == b
  }

  /** ORDER BY source_order, contract_id. */
  predicate QuoteOrder(a: Quote, b: Quote) {
    a.order < b.order || (a.order == b.order && a.contractId <= b.contractId)
  }

  /** An ordered, duplicate-free listing of the rows a WHERE clause keeps. */
  ghost predicate Listing(table: set<Quote>, keep: Quote -> bool, r: seq<Quote>) {
    && (forall q :: q in r <==> q in table && keep(q))
    && Listed(r)
  }

  ghost predicate Listed(r: seq<Quote>) {
    forall i, j :: 0 <= i < j < |r| ==> r[i] != r[j] && QuoteOrder(r[i], r[j])
  }

  function SourceIs(id: nat): Quote -> bool { (q: Quote) => q.sourceId == id }

  /** `_quotes_for_snapshot`. */
  ghost predicate SingleFetch(table: set<Quote>, id: nat, r: seq<Quote>) { Listing(table, SourceIs(id), r) }

  /** The one query of `_quotes_for_snapshots`. */
  ghost predicate BulkFetch(table: set<Quote>, ids: seq<nat>, r: seq<Quote>) { Listing(table, (q: Quote) => q.sourceId in ids, r) }

  function QuotesOf(id: nat, rows: seq<Quote>): seq<Quote> { Filter(SourceIs(id), rows) }

  /** The grouping loop: every requested snapshot gets a group, possibly empty, in query order. */
  method GroupQuotes(ids: seq<nat>, rows: seq<Quote>) returns (groups: map<nat, seq<Quote>>)
    requires forall q :: q in rows ==> q.sourceId in ids
    ensures forall id :: id in groups <==> id in ids
    ensures forall id :: id in ids ==> groups[id] == QuotesOf(id, rows)
  {
    groups := map id | id in ids :: [];
    var i := 0;
    while i < |rows|
      invariant 0 <= i <= |rows|
      invariant forall id :: id in groups <==> id in ids
      invariant forall id :: id in ids ==> groups[id] == QuotesOf(id, rows[..i])
    {
      var q := rows[i];
      forall id ensures QuotesOf(id, rows[..i + 1]) == QuotesOf(id, rows[..i]) + (if q.sourceId == id then [q] else []) {
        FilterAppend(SourceIs(id), rows[..i], [q]);
        assert rows[..i + 1] == rows[..i] + [q];
      }
      groups := groups[q.sourceId := groups[q.sourceId] + [q]];
      i := i + 1;
    }
    assert rows[..i] == rows;
  }

  ghost predicate StrictlyOrdered(r: seq<Quote>) {
    forall i, j :: 0 <= i < j < |r| ==> QuoteOrder(r[i], r[j]) && !QuoteOrder(r[j], r[i])
  }

  lemma {:induction false} FilterKeepsOrder(keep: Quote -> bool, r: seq<Quote>)
    requires Listed(r)
    ensures Listed(Filter(keep, r))
  {
    if |r| > 0 {
      var tail := r[1..];
      assert Listed(tail) by { assert forall i :: 0 <= i < |tail| ==> tail[i] == r[i + 1]; }
      FilterKeepsOrder(keep, tail);
      FilterMembers(keep, tail);
      var rest := Filter(keep, tail);
      forall q | q in rest ensures r[0] != q && QuoteOrder(r[0], q) {
        var n :| 0 <= n < |tail| && tail[n] == q;
        assert r[n + 1] == q;
      }
      assert forall i :: 0 <= i < |rest| ==> rest[i] in rest;
    }
  }

  /** One strict order and one set of elements leave one listing. */
  lemma OrderedListingUnique(a: seq<Quote>, b: seq<Quote>)
    requires StrictlyOrdered(a) && StrictlyOrdered(b)
    requires forall q :: q in a <==> q in b
    ensures a == b
  {
    SameMembersSameCounts(a, b);
    OrderedUnique((x: Quote, y: Quote) => QuoteOrder(x, y) && !QuoteOrder(y, x), a, b);
  }

  lemma OneSnapshotListingStrict(table: set<Quote>, id: nat, r: seq<Quote>)
    requires KeyedQuotes(table) && forall q :: q in r ==> q in table && q.sourceId == id
    requires Listed(r)
    ensures StrictlyOrdered(r)
  {}

  /** The group of a snapshot in any bulk result is what fetching that snapshot alone returns. */
  lemma BulkGroupEqualsSingleFetch(table: set<Quote>, ids: seq<nat>, bulk: seq<Quote>, id: nat, single: seq<Quote>)
    requires KeyedQuotes(table) && id in ids
    requires BulkFetch(table, ids, bulk) && SingleFetch(table, id, single)
    ensures QuotesOf(id, bulk) == single
  {
    FilterMembers(SourceIs(id), bulk);
    FilterKeepsOrder(SourceIs(id), bulk);
    OneSnapshotListingStrict(table, id, QuotesOf(id, bulk));
    OneSnapshotListingStrict(table, id, single);
    OrderedListingUnique(QuotesOf(id, bulk), single);
  }

  datatype SnapshotData = SnapshotData(header: SnapshotRecord, quotes: seq<Quote>)

  /** Where a stream begins: at a named snapshot, at a time, or with the session. */
  ghost predicate Streams(rows: seq<SnapshotRecord>, at: Option<int>, source: Option<nat>, x: SnapshotRecord) {
    && x in rows
    && (source.Some? ==> exists y :: y in rows && y.sourceId == source.value && x.order >= y.order)
    && (source.None? && at.Some? ==> x.time >= at.value)
  }

  /** The query of `stream_snapshots`: the selected rows in source order. */
  ghost predicate Selection(rows: seq<SnapshotRecord>, at: Option<int>, source: Option<nat>, r: seq<SnapshotRecord>) {
    && (forall x :: x in r <==> Streams(rows, at, source, x))
    && (forall i, j :: 0 <= i < j < |r| ==> r[i].order <= r[j].order)
  }

  /** A stream has exactly the selected snapshots, in source order, each with the quotes it has when fetched alone. */
  method StreamSnapshots(ghost table: set<Quote>, ghost rows: seq<SnapshotRecord>, ghost at: Option<int>, ghost source: Option<nat>,
                         records: seq<SnapshotRecord>, bulk: seq<Quote>)
    returns (r: seq<SnapshotData>)
    requires KeyedQuotes(table) && Selection(rows, at, source, records)
    requires BulkFetch(table, Map((x: SnapshotRecord) => x.sourceId, records), bulk)
    ensures forall x :: Streams(rows, at, source, x) <==> exists i :: 0 <= i < |r| && r[i].header == x
    ensures forall i, j :: 0 <= i < j < |r| ==> r[i].header.order <= r[j].header.order
    ensures forall i, single :: 0 <= i < |r| && SingleFetch(table, r[i].header.sourceId, single) ==> r[i].quotes == single
  {
    var ids := Map((x: SnapshotRecord) => x.sourceId, records);
    var groups := GroupQuotes(ids, bulk);
    r := [];
    var i := 0;
    while i < |records|
      invariant 0 <= i <= |records| && |r| == i
      invariant forall j :: 0 <= j < i ==> r[j].header == records[j] && r[j].quotes == QuotesOf(records[j].sourceId, bulk)
    {
      assert ids[i] in ids;
      r := r + [SnapshotData(records[i], groups[records[i].sourceId])];
      i := i + 1;
    }
    forall j, single | 0 <= j < |r| && SingleFetch(table, records[j].sourceId, single) ensures r[j].quotes == single {
      assert ids[j] in ids;
      BulkGroupEqualsSingleFetch(table, ids, bulk, records[j].sourceId, single);
    }
    forall x | Streams(rows, at, source, x) ensures exists i :: 0 <= i < |r| && r[i].header == x {
      var i :| 0 <= i < |records| && records[i] == x;
      assert r[i].header == x;
    }
  }
}
