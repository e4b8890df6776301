/** Values shared by the models: optional values, insertion-ordered tables, sorting. */
module Maybe {
  datatype Option<+T> = None | Some(value: T)

  /** The first present value of the two. */
  function OrElse<T>(first: Option<T>, second: Option<T>): Option<T> {
    if first.Some? then first else second
  }

  function Lookup<K, V>(m: map<K, V>, key: K): Option<V> { if key in m then Some(m[key]) else None }
}

/**
  * A Python dict or a JavaScript Map: entries in insertion order. Writing a key that is
  * already there keeps its place; a new key goes to the end.
  */
module OrderedTable {
  import opened Maybe

  datatype Entry<K, V> = Entry(key: K, value: V)

  type Table<K, V> = seq<Entry<K, V>>

  ghost predicate DistinctKeys<K, V>(t: Table<K, V>) {
    forall i, j :: 0 <= i < j < |t| ==> t[i].key != t[j].key
  }

  function KeySet<K(==), V>(t: Table<K, V>): set<K> {
    set i | 0 <= i < |t| :: t[i].key
  }

  function Find<K(==), V>(t: Table<K, V>, k: K): Option<V> {
    if |t| == 0 then None else if t[0].key == k then Some(t[0].value) else Find(t[1..], k)
  }

  function SetEntry<K(==), V>(t: Table<K, V>, k: K, v: V): Table<K, V> {
    if |t| == 0 then [Entry(k, v)]
    else if t[0].key == k then [Entry(k, v)] + t[1..]
    else [t[0]] + SetEntry(t[1..], k, v)
  }

  /** Writing a key keeps keys distinct, adds only that key, and brings in no other entry. */
  lemma {:induction false} SetEntryMembers<K, V>(t: Table<K, V>, k: K, v: V)
    requires DistinctKeys(t)
    ensures DistinctKeys(SetEntry(t, k, v))
    ensures KeySet(SetEntry(t, k, v)) == KeySet(t) + {k}
    ensures forall e :: e in SetEntry(t, k, v) ==> e == Entry(k, v) || (e in t && e.key != k)
  {
    if |t| == 0 {
      assert SetEntry(t, k, v)[0].key == k;
    } else {
      var tail := t[1..];
      assert t == [t[0]] + tail;
      KeySetCons(t[0], tail);
      TailDistinct(t);
      if t[0].key == k {
        KeySetCons(Entry(k, v), tail);
        ConsDistinct(Entry(k, v), tail);
      } else {
        SetEntryMembers(tail, k, v);
        KeySetCons(t[0], SetEntry(tail, k, v));
        ConsDistinct(t[0], SetEntry(tail, k, v));
      }
    }
  }

  lemma TailDistinct<K, V>(t: Table<K, V>)
    requires |t| > 0 && DistinctKeys(t)
    ensures DistinctKeys(t[1..]) && t[0].key !in KeySet(t[1..])
  {}

  lemma ConsDistinct<K, V>(e: Entry<K, V>, t: Table<K, V>)
    requires DistinctKeys(t) && e.key !in KeySet(t)
    ensures DistinctKeys([e] + t)
    ensures forall x :: x in t ==> x.key != e.key
  {}

  lemma KeySetCons<K, V>(e: Entry<K, V>, t: Table<K, V>)
    ensures KeySet([e] + t) == {e.key} + KeySet(t)
  {
    var r := [e] + t;
    assert r[0] == e;
    assert forall i :: 0 <= i < |t| ==> r[i + 1] == t[i];
    forall k ensures k in KeySet(r) <==> k in {e.key} + KeySet(t) {
      if k in KeySet(t) {
        var i :| 0 <= i < |t| && t[i].key == k;
        assert r[i + 1].key == k;
      }
      if k in KeySet(r) {
        var i :| 0 <= i < |r| && r[i].key == k;
        assert i == 0 || t[i - 1].key == k;
      }
    }
  }

  lemma {:induction false} FindMember<K, V>(t: Table<K, V>, k: K)
    ensures Find(t, k).Some? <==> k in KeySet(t)
    ensures Find(t, k).Some? ==> Entry(k, Find(t, k).value) in t
    ensures DistinctKeys(t) ==> forall e :: e in t && e.key == k ==> Find(t, k) == Some(e.value)
  {
    if |t| == 0 {
    } else {
      FindMember(t[1..], k);
      assert t == [t[0]] + t[1..];
      KeySetCons(t[0], t[1..]);
    }
  }

  lemma {:induction false} FindSetEntry<K, V>(t: Table<K, V>, k: K, v: V, other: K)
    ensures Find(SetEntry(t, k, v), other) == if other == k then Some(v) else Find(t, other)
  {
    if |t| == 0 {
      assert SetEntry(t, k, v)[1..] == [];
    } else if t[0].key == k {
      assert ([Entry(k, v)] + t[1..])[1..] == t[1..];
    } else {
      FindSetEntry(t[1..], k, v, other);
      assert ([t[0]] + SetEntry(t[1..], k, v))[1..] == SetEntry(t[1..], k, v);
    }
  }
}

/** The right an option gives. */
module OptionRights {
  datatype Right = Call | Put
}

/** Absolute values, and products of reals with a common factor. */
module Reals {
  function Abs(x: real): real { if x < 0.0 then -x else x }

  lemma Scaled(factor: real, a: real, b: real)
    requires factor >= 0.0 && a <= b
    ensures factor * a <= factor * b
  {
    assert factor * (b - a) >= 0.0;
  }

  lemma ScaledStrictly(factor: real, a: real, b: real)
    requires factor > 0.0 && a <= b
    ensures factor * a <= factor * b
    ensures factor * a == factor * b <==> a == b
  {
    Scaled(factor, a, b);
    if a < b { assert factor * (b - a) > 0.0; }
  }
}

/** A stable sort by a total preorder, as Python's `sorted` and SQL's ORDER BY give it. */
module Sorting {

  ghost predicate TotalPreorder<T(!new)>(le: (T, T) -> bool) {
    && (forall a, b :: le(a, b) || le(b, a))
    && (forall a, b, c :: le(a, b) && le(b, c) ==> le(a, c))
  }

  ghost predicate Ordered<T>(le: (T, T) -> bool, xs: seq<T>) {
    forall i, j :: 0 <= i < j < |xs| ==> le(xs[i], xs[j])
  }

  function Insert<T>(le: (T, T) -> bool, x: T, xs: seq<T>): seq<T> {
    if |xs| == 0 || le(x, xs[0]) then [x] + xs else [xs[0]] + Insert(le, x, xs[1..])
  }

  function Sort<T>(le: (T, T) -> bool, xs: seq<T>): seq<T> {
    if |xs| == 0 then [] else Insert(le, xs[0], Sort(le, xs[1..]))
  }

  lemma {:induction false} InsertKeeps<T>(le: (T, T) -> bool, x: T, xs: seq<T>)
    ensures multiset(Insert(le, x, xs)) == multiset(xs) + multiset{x}
    ensures |Insert(le, x, xs)| == |xs| + 1
  {
    if |xs| == 0 || le(x, xs[0]) {
    } else {
      InsertKeeps(le, x, xs[1..]);
      assert xs == [xs[0]] + xs[1..];
    }
  }

  lemma {:induction false} SortKeeps<T>(le: (T, T) -> bool, xs: seq<T>)
    ensures multiset(Sort(le, xs)) == multiset(xs)
    ensures |Sort(le, xs)| == |xs|
  {
    if |xs| != 0 {
      SortKeeps(le, xs[1..]);
      InsertKeeps(le, xs[0], Sort(le, xs[1..]));
      assert xs == [xs[0]] + xs[1..];
    }
  }

  lemma {:induction false} InsertOrdered<T(!new)>(le: (T, T) -> bool, x: T, xs: seq<T>)
    requires TotalPreorder(le) && Ordered(le, xs)
    ensures Ordered(le, Insert(le, x, xs))
  {
    if |xs| == 0 {
    } else if le(x, xs[0]) {
      var r := [x] + xs;
      forall i, j | 0 <= i < j < |r| ensures le(r[i], r[j]) {
        if i == 0 { assert le(xs[0], xs[j - 1]) || j == 1; }
      }
    } else {
      var rest := Insert(le, x, xs[1..]);
      InsertOrdered(le, x, xs[1..]);
      InsertKeeps(le, x, xs[1..]);
      var r := [xs[0]] + rest;
      forall i, j | 0 <= i < j < |r| ensures le(r[i], r[j]) {
        if i == 0 {
          assert rest[j - 1] in multiset(rest);
          assert rest[j - 1] == x || rest[j - 1] in xs[1..];
        }
      }
    }
  }

  lemma {:induction false} SortOrdered<T(!new)>(le: (T, T) -> bool, xs: seq<T>)
    requires TotalPreorder(le)
    ensures Ordered(le, Sort(le, xs))
  {
    if |xs| != 0 {
      SortOrdered(le, xs[1..]);
      InsertOrdered(le, xs[0], Sort(le, xs[1..]));
    }
  }

  lemma OrderedTail<T>(le: (T, T) -> bool, xs: seq<T>)
    requires |xs| > 0 && Ordered(le, xs)
    ensures Ordered(le, xs[1..]) && multiset(xs[1..]) == multiset(xs) - multiset{xs[0]}
    ensures forall x :: x in multiset(xs) ==> x == xs[0] || le(xs[0], x)
  {
    assert xs == [xs[0]] + xs[1..];
    assert multiset(xs) == multiset{xs[0]} + multiset(xs[1..]);
    forall x | x in multiset(xs) ensures x == xs[0] || le(xs[0], x) {
      var i :| 0 <= i < |xs| && xs[i] == x;
    }
  }

  lemma SameHead<T(!new)>(le: (T, T) -> bool, a: seq<T>, b: seq<T>)
    requires |a| > 0 && |b| > 0 && Ordered(le, a) && Ordered(le, b) && multiset(a) == multiset(b)
    requires forall x, y :: le(x, y) && le(y, x) ==> x == y
    ensures a[0] == b[0] && multiset(a[1..]) == multiset(b[1..]) && Ordered(le, a[1..]) && Ordered(le, b[1..])
  {
    assert a[0] in multiset(a) && b[0] in multiset(b);
    OrderedTail(le, a);
    OrderedTail(le, b);
  }

  /** An antisymmetric order lists given elements, each as often as given, in one way. */
  lemma {:induction false} OrderedUnique<T(!new)>(le: (T, T) -> bool, a: seq<T>, b: seq<T>)
    requires Ordered(le, a) && Ordered(le, b) && multiset(a) == multiset(b)
    requires forall x, y :: le(x, y) && le(y, x) ==> x == y
    ensures a == b
  {
    assert |a| == |multiset(a)| && |b| == |multiset(b)|;
    if |a| > 0 {
      SameHead(le, a, b);
      OrderedUnique(le, a[1..], b[1..]);
      assert a == [a[0]] + a[1..] && b == [b[0]] + b[1..];
    }
  }

  lemma SortMembers<T(!new)>(le: (T, T) -> bool, xs: seq<T>)
    ensures forall x :: x in Sort(le, xs) <==> x in xs
  {
    SortKeeps(le, xs);
    assert forall x :: x in Sort(le, xs) <==> x in multiset(Sort(le, xs));
    assert forall x :: x in xs <==> x in multiset(xs);
  }
}

/** Sequence comprehensions. */
module Lists {
  function Filter<T>(keep: T -> bool, xs: seq<T>): seq<T> {
    if |xs| == 0 then []
    else if keep(xs[0]) then [xs[0]] + Filter(keep, xs[1..])
    else Filter(keep, xs[1..])
  }

  lemma {:induction false} FilterMembers<T>(keep: T -> bool, xs: seq<T>)
    ensures forall x :: x in Filter(keep, xs) <==> x in xs && keep(x)
  {
    if |xs| != 0 {
      FilterMembers(keep, xs[1..]);
      assert xs == [xs[0]] + xs[1..];
    }
  }

  lemma {:induction false} FilterAppend<T>(keep: T -> bool, xs: seq<T>, ys: seq<T>)
    ensures Filter(keep, xs + ys) == Filter(keep, xs) + Filter(keep, ys)
  {
    if |xs| == 0 {
      assert xs + ys == ys;
    } else {
      FilterAppend(keep, xs[1..], ys);
      assert (xs + ys)[1..] == xs[1..] + ys;
    }
  }

  lemma {:induction false} FilterMultiset<T>(keep: T -> bool, xs: seq<T>)
    ensures forall x :: multiset(Filter(keep, xs))[x] == if keep(x) then multiset(xs)[x] else 0
  {
    if |xs| != 0 {
      FilterMultiset(keep, xs[1..]);
      assert xs == [xs[0]] + xs[1..];
    }
  }

  function Map<S, T>(f: S -> T, xs: seq<S>): (r: seq<T>)
    ensures |r| == |xs| && forall i :: 0 <= i < |xs| ==> r[i] == f(xs[i])
  {
    seq(|xs|, i requires 0 <= i < |xs| => f(xs[i]))
  }

  /** The first element with the greatest score, as Python's `max` picks it. */
  function FirstMax<T>(le: (T, T) -> bool, xs: seq<T>): (r: T)
    requires |xs| > 0
    ensures r in xs
  {
    if |xs| == 1 then xs[0]
    else
      var best := FirstMax(le, xs[..|xs| - 1]);
      if le(xs[|xs| - 1], best) then best else xs[|xs| - 1]
  }

  lemma {:induction false} FirstMaxIsGreatest<T(!new)>(le: (T, T) -> bool, xs: seq<T>)
    requires |xs| > 0
    requires forall a, b :: le(a, b) || le(b, a)
    requires forall a, b, c :: le(a, b) && le(b, c) ==> le(a, c)
    ensures forall x :: x in xs ==> le(x, FirstMax(le, xs))
  {
    if |xs| > 1 {
      FirstMaxIsGreatest(le, xs[..|xs| - 1]);
      assert xs == xs[..|xs| - 1] + [xs[|xs| - 1]];
    }
  }
}

/** Duplicate-free sequences, by position and by count. */
module Uniqueness {
  lemma {:induction false} DistinctMeansOnce<T>(xs: seq<T>)
    requires forall i, j :: 0 <= i < j < |xs| ==> xs[i] != xs[j]
    ensures forall x :: multiset(xs)[x] <= 1
  {
    if |xs| != 0 {
      var tail := xs[1..];
      assert forall i :: 0 <= i < |tail| ==> tail[i] == xs[i + 1];
      DistinctMeansOnce(tail);
      assert xs == [xs[0]] + tail;
      assert xs[0] !in tail;
      assert xs[0] !in multiset(tail);
    }
  }

  lemma {:induction false} SameMembersSameCounts<T>(a: seq<T>, b: seq<T>)
    requires forall i, j :: 0 <= i < j < |a| ==> a[i] != a[j]
    requires forall i, j :: 0 <= i < j < |b| ==> b[i] != b[j]
    requires forall x :: x in a <==> x in b
    ensures multiset(a) == multiset(b)
  {
    DistinctMeansOnce(a);
    DistinctMeansOnce(b);
    forall x ensures multiset(a)[x] == multiset(b)[x] {
      assert multiset(a)[x] <= 1 && multiset(b)[x] <= 1;
      assert x in multiset(a) <==> x in a;
      assert x in multiset(b) <==> x in b;
    }
  }

  lemma OnceMeansDistinct<T>(xs: seq<T>)
    requires forall x :: multiset(xs)[x] <= 1
    ensures forall i, j :: 0 <= i < j < |xs| ==> xs[i] != xs[j]
  {
    forall i, j | 0 <= i < j < |xs| ensures xs[i] != xs[j] {
      assert xs == xs[..j] + xs[j..];
      assert xs[i] == xs[..j][i] && xs[j] == xs[j..][0];
      assert xs[i] in multiset(xs[..j]) && xs[j] in multiset(xs[j..]);
      assert multiset(xs)[xs[i]] == multiset(xs[..j])[xs[i]] + multiset(xs[j..])[xs[i]];
    }
  }
}

/** Sums over a commutative monoid, and their independence of grouping. */
module Grouping {
  import opened Lists
  import opened Maybe

  datatype Monoid<!T> = Monoid(zero: T, add: (T, T) -> T)

  ghost predicate Commutative<T(!new)>(m: Monoid<T>) {
    && (forall a :: m.add(a, m.zero) == a)
    && (forall a, b :: m.add(a, b) == m.add(b, a))
    && (forall a, b, c :: m.add(m.add(a, b), c) == m.add(a, m.add(b, c)))
  }

  function RealSum(): Monoid<real> { Monoid(0.0, (a: real, b: real) => a + b) }

  function AddNullable(a: Option<real>, b: Option<real>): Option<real> {
    if b.None? then a else if a.None? then b else Some(a.value + b.value)
  }

  function NullableSum(): Monoid<Option<real>> { Monoid(None, AddNullable) }

  lemma RealSumCommutes() ensures Commutative(RealSum()) {}

  lemma NullableSumCommutes() ensures Commutative(NullableSum()) {}

  function Total<S, T>(m: Monoid<T>, f: S -> T, xs: seq<S>): T {
    if |xs| == 0 then m.zero else m.add(f(xs[0]), Total(m, f, xs[1..]))
  }

  lemma {:induction false} TotalAppend<S, T(!new)>(m: Monoid<T>, f: S -> T, xs: seq<S>, x: S)
    requires Commutative(m)
    ensures Total(m, f, xs + [x]) == m.add(Total(m, f, xs), f(x))
  {
    if |xs| == 0 {
      assert (xs + [x])[1..] == [];
      assert m.add(f(x), m.zero) == f(x) && m.add(m.zero, f(x)) == m.add(f(x), m.zero);
    } else {
      assert (xs + [x])[1..] == xs[1..] + [x];
      TotalAppend(m, f, xs[1..], x);
    }
  }

  function HasKey<S, K(==)>(key: S -> K, k: K): S -> bool { (x: S) => key(x) == k }

  function AtKey<S, K(==)>(key: S -> K, rows: seq<S>, k: K): seq<S> { Filter(HasKey(key, k), rows) }

  lemma AtKeyAppend<S, K>(key: S -> K, rows: seq<S>, x: S, k: K)
    ensures AtKey(key, rows + [x], k) == if key(x) == k then AtKey(key, rows, k) + [x] else AtKey(key, rows, k)
  {
    FilterAppend(HasKey(key, k), rows, [x]);
  }

  function KeyTotals<S, K(==), T>(m: Monoid<T>, key: S -> K, f: S -> T, rows: seq<S>, keys: seq<K>): T {
    if |keys| == 0 then m.zero
    else m.add(Total(m, f, AtKey(key, rows, keys[0])), KeyTotals(m, key, f, rows, keys[1..]))
  }

  lemma {:induction false} KeyTotalsCons<S, K, T(!new)>(m: Monoid<T>, key: S -> K, f: S -> T, rows: seq<S>, keys: seq<K>)
    requires Commutative(m) && |rows| > 0 && forall i, j :: 0 <= i < j < |keys| ==> keys[i] != keys[j]
    ensures KeyTotals(m, key, f, rows, keys) ==
      if key(rows[0]) in keys then m.add(f(rows[0]), KeyTotals(m, key, f, rows[1..], keys))
      else KeyTotals(m, key, f, rows[1..], keys)
  {
    if |keys| > 0 {
      var rest := keys[1..];
      assert forall i :: 0 <= i < |rest| ==> rest[i] == keys[i + 1];
      KeyTotalsCons(m, key, f, rows, rest);
      var x, tail := f(rows[0]), rows[1..];
      var a, b := Total(m, f, AtKey(key, tail, keys[0])), KeyTotals(m, key, f, tail, rest);
      if key(rows[0]) == keys[0] {
        assert AtKey(key, rows, keys[0]) == [rows[0]] + AtKey(key, tail, keys[0]);
        assert m.add(m.add(x, a), b) == m.add(x, m.add(a, b));
      } else {
        assert m.add(a, m.add(x, b)) == m.add(m.add(a, x), b) == m.add(m.add(x, a), b) == m.add(x, m.add(a, b));
        assert key(rows[0]) in keys <==> key(rows[0]) in rest;
      }
    }
  }

  lemma {:induction false} NoRowsNoTotals<S, K, T(!new)>(m: Monoid<T>, key: S -> K, f: S -> T, keys: seq<K>)
    requires Commutative(m)
    ensures KeyTotals(m, key, f, [], keys) == m.zero
  {
    if |keys| > 0 { NoRowsNoTotals(m, key, f, keys[1..]); }
  }

  lemma {:induction false} KeyTotalsConserve<S, K, T(!new)>(m: Monoid<T>, key: S -> K, f: S -> T, rows: seq<S>, keys: seq<K>)
    requires Commutative(m) && forall i, j :: 0 <= i < j < |keys| ==> keys[i] != keys[j]
    requires forall x :: x in rows ==> key(x) in keys
    ensures KeyTotals(m, key, f, rows, keys) == Total(m, f, rows)
  {
    if |rows| == 0 {
      NoRowsNoTotals(m, key, f, keys);
    } else {
      assert rows[0] in rows;
      KeyTotalsCons(m, key, f, rows, keys);
      KeyTotalsConserve(m, key, f, rows[1..], keys);
    }
  }

  /** Totals of groups, one group for each key, add up to the total of everything. */
  lemma {:induction false} GroupsConserve<S, R, K, T(!new)>(m: Monoid<T>, key: S -> K, f: S -> T, rows: seq<S>, groupKey: R -> K, g: R -> T, groups: seq<R>)
    requires Commutative(m) && forall i, j :: 0 <= i < j < |groups| ==> groupKey(groups[i]) != groupKey(groups[j])
    requires forall x :: x in rows ==> exists i :: 0 <= i < |groups| && groupKey(groups[i]) == key(x)
    requires forall i :: 0 <= i < |groups| ==> g(groups[i]) == Total(m, f, AtKey(key, rows, groupKey(groups[i])))
    ensures Total(m, g, groups) == Total(m, f, rows)
  {
    var keys := Map(groupKey, groups);
    forall x | x in rows ensures key(x) in keys {
      var i :| 0 <= i < |groups| && groupKey(groups[i]) == key(x);
      assert keys[i] == key(x);
    }
    GroupTotalsAreKeyTotals(m, key, f, rows, groupKey, g, groups);
    KeyTotalsConserve(m, key, f, rows, keys);
  }

  lemma {:induction false} GroupTotalsAreKeyTotals<S, R, K, T>(m: Monoid<T>, key: S -> K, f: S -> T, rows: seq<S>, groupKey: R -> K, g: R -> T, groups: seq<R>)
    requires forall i :: 0 <= i < |groups| ==> g(groups[i]) == Total(m, f, AtKey(key, rows, groupKey(groups[i])))
    ensures Total(m, g, groups) == KeyTotals(m, key, f, rows, Map(groupKey, groups))
  {
    if |groups| > 0 {
      var rest := groups[1..];
      assert forall i :: 0 <= i < |rest| ==> rest[i] == groups[i + 1];
      GroupTotalsAreKeyTotals(m, key, f, rows, groupKey, g, rest);
      assert Map(groupKey, groups)[1..] == Map(groupKey, rest);
    }
  }

  /** A nullable sum is absent exactly when every contributor is. */
  lemma {:induction false} NullableTotalNone<S>(f: S -> Option<real>, xs: seq<S>)
    ensures Total(NullableSum(), f, xs).None? <==> forall x :: x in xs ==> f(x).None?
  {
    if |xs| > 0 {
      NullableTotalNone(f, xs[1..]);
      assert xs == [xs[0]] + xs[1..];
    }
  }
}

/** The keys of a table keyed by numbers, in ascending order: Python's `sorted(dict)`. */
module AscendingKeys {
  import opened Maybe
  import opened OrderedTable
  import opened Sorting
  import Lists
  import Uniqueness

  function Ascending(): (real, real) -> bool { (a: real, b: real) => a <= b }

  function KeyOf<V>(): Entry<real, V> -> real { (e: Entry<real, V>) => e.key }

  function SortedKeys<V>(table: Table<real, V>): seq<real> { Sort(Ascending(), Lists.Map(KeyOf(), table)) }

  lemma SortedKeysAscend<V>(table: Table<real, V>)
    requires DistinctKeys(table)
    ensures var keys := SortedKeys(table); forall i, j :: 0 <= i < j < |keys| ==> keys[i] < keys[j]
    ensures forall k: real :: k in SortedKeys(table) <==> Find(table, k).Some?
  {
    var raw := Lists.Map(KeyOf(), table);
    var keys := SortedKeys(table);
    SortKeeps(Ascending(), raw);
    SortOrdered(Ascending(), raw);
    SortMembers(Ascending(), raw);
    Uniqueness.DistinctMeansOnce(raw);
    Uniqueness.OnceMeansDistinct(keys);
    forall k: real ensures k in keys <==> Find(table, k).Some? {
      FindMember(table, k);
      if k in raw { var i :| 0 <= i < |raw| && raw[i] == k; assert table[i].key == k; }
      if k in KeySet(table) { var i :| 0 <= i < |table| && table[i].key == k; assert raw[i] == k; }
    }
    forall i, j | 0 <= i < j < |keys| ensures keys[i] < keys[j] {
      assert Ascending()(keys[i], keys[j]) && keys[i] != keys[j];
    }
  }
}
