/** Shared vocabulary: optional values, clamping, and the ids in ascending order. */
module Prelude {
  datatype Option<+T> = None | Some(value: T)

  function Min(a: int, b: int): int { if a <= b then a else b }

  function Max(a: int, b: int): int { if a >= b then a else b }

  function Clamp(v: int, lo: int, hi: int): int { if v < lo then lo else if hi < v then hi else v }

  const NANOS_PER_SECOND := 1000000000

  function Seconds(nanos: int): real { nanos as real / 1000000000.0 }

  lemma MulMono(a: int, b: int, k: int)
    requires a <= b && k >= 0
    ensures a * k <= b * k
  {
    assert (b - a) * k >= 0;
  }

  lemma MulCancels(a: int, b: int, k: int)
    requires k > 0 && a * k < b * k
    ensures a < b
  {
    if b <= a { MulMono(b, a, k); }
  }

  function Lower(c: char): char { if 'A' <= c <= 'Z' then c - 'A' + 'a' else c }

  function Lowercase(s: string): string { seq(|s|, i requires 0 <= i < |s| => Lower(s[i])) }

  function Get<K, V>(m: map<K, V>, k: K, default: V): V { if k in m then m[k] else default }
}

/**
 * std::sort as its callers may rely on it: some arrangement of the input in which no element
 * is less than an earlier one. Nothing is promised about the order of equivalent elements.
 */
module Sorting {
  ghost predicate SortedBy<T>(less: (T, T) -> bool, s: seq<T>) {
    forall i, j :: 0 <= i < j < |s| ==> !less(s[j], s[i])
  }

  /** What std::sort asks of its comparator. */
  ghost predicate StrictWeakOrder<T(!new)>(less: (T, T) -> bool) {
    && (forall x, y :: less(x, y) ==> !less(y, x))
    && (forall x, y, z {:trigger less(x, y), less(y, z)} :: !less(x, y) && !less(y, z) ==> !less(x, z))
  }

  method StdSort<T(!new)>(less: (T, T) -> bool, s: seq<T>) returns (r: seq<T>)
    requires StrictWeakOrder(less)
    ensures multiset(r) == multiset(s)
    ensures SortedBy(less, r)
  {
    r := [];
    for i := 0 to |s|
      invariant multiset(r) == multiset(s[..i])
      invariant SortedBy(less, r)
    {
      assert s[..i + 1] == s[..i] + [s[i]];
      r := Insert(less, r, s[i]);
    }
    assert s[..|s|] == s;
  }

  method Insert<T(!new)>(less: (T, T) -> bool, s: seq<T>, x: T) returns (r: seq<T>)
    requires StrictWeakOrder(less) && SortedBy(less, s)
    ensures multiset(r) == multiset(s) + multiset{x}
    ensures SortedBy(less, r)
  {
    var k := |s|;
    while k > 0 && less(x, s[k - 1])
      invariant 0 <= k <= |s|
      invariant forall j :: k <= j < |s| ==> less(x, s[j])
    {
      k := k - 1;
    }
    r := s[..k] + [x] + s[k..];
    InsertedSorted(less, s, x, k);
  }

  lemma NotLessTransitive<T(!new)>(less: (T, T) -> bool, x: T, y: T, z: T)
    requires StrictWeakOrder(less)
    requires !less(x, y) && !less(y, z)
    ensures !less(x, z)
  {
  }

  lemma InsertedSorted<T(!new)>(less: (T, T) -> bool, s: seq<T>, x: T, k: nat)
    requires StrictWeakOrder(less) && SortedBy(less, s) && k <= |s|
    requires forall j :: k <= j < |s| ==> less(x, s[j])
    requires k > 0 ==> !less(x, s[k - 1])
    ensures multiset(s[..k] + [x] + s[k..]) == multiset(s) + multiset{x}
    ensures SortedBy(less, s[..k] + [x] + s[k..])
  {
    assert s == s[..k] + s[k..];
    var r := s[..k] + [x] + s[k..];
    forall i, j | 0 <= i < j < |r| ensures !less(r[j], r[i]) {
      if j == k && i < k - 1 {
        NotLessTransitive(less, x, s[k - 1], s[i]);
      } else if i == k {
        assert less(x, s[j - 1]);
      }
    }
  }

  /** Some sorted arrangement, as a value. */
  function Arranged<T>(less: (T, T) -> bool, s: seq<T>): seq<T> {
    if s == [] then []
    else
      var rest := Arranged(less, s[..|s| - 1]);
      var k := Slot(less, rest, s[|s| - 1]);
      rest[..k] + [s[|s| - 1]] + rest[k..]
  }

  function Slot<T>(less: (T, T) -> bool, s: seq<T>, x: T): (k: nat)
    ensures k <= |s| && (forall j :: k <= j < |s| ==> less(x, s[j])) && (k > 0 ==> !less(x, s[k - 1]))
  {
    if s == [] || !less(x, s[|s| - 1]) then |s| else Slot(less, s[..|s| - 1], x)
  }

  lemma {:induction false} ArrangedIsSorted<T(!new)>(less: (T, T) -> bool, s: seq<T>)
    requires StrictWeakOrder(less)
    ensures multiset(Arranged(less, s)) == multiset(s) && SortedBy(less, Arranged(less, s))
  {
    if s != [] {
      var n := |s| - 1;
      ArrangedIsSorted(less, s[..n]);
      var rest := Arranged(less, s[..n]);
      InsertedSorted(less, rest, s[n], Slot(less, rest, s[n]));
      assert s == s[..n] + [s[n]];
    }
  }

  lemma MultisetMembers<T>(a: seq<T>, b: seq<T>)
    requires multiset(a) == multiset(b)
    ensures |a| == |b|
    ensures forall x :: x in a <==> x in b
  {
    assert |a| == |multiset(a)| && |b| == |multiset(b)|;
    forall x ensures x in a <==> x in b {
      assert x in a <==> x in multiset(a);
      assert x in b <==> x in multiset(b);
    }
  }

  lemma {:induction false} NoRepeats<T>(s: seq<T>)
    requires forall i, j :: 0 <= i < j < |s| ==> s[i] != s[j]
    ensures forall x :: x in s ==> multiset(s)[x] == 1
  {
    if s != [] {
      var last := |s| - 1;
      assert s == s[..last] + [s[last]];
      NoRepeats(s[..last]);
      assert s[last] !in s[..last];
    }
  }

  lemma SortKeepsDistinct<T>(a: seq<T>, b: seq<T>, i: nat, j: nat)
    requires multiset(a) == multiset(b)
    requires forall x, y :: 0 <= x < y < |a| ==> a[x] != a[y]
    requires i < j < |b|
    ensures b[i] != b[j]
  {
    NoRepeats(a);
    assert b[i] in multiset(a);
    assert b == b[..i] + [b[i]] + b[i + 1..j] + [b[j]] + b[j + 1..];
  }

  lemma RestOf<T>(s: seq<T>)
    requires s != []
    ensures multiset(s[1..]) == multiset(s) - multiset{s[0]}
  {
    assert s == [s[0]] + s[1..];
  }

  lemma SameFirst<T(!new)>(less: (T, T) -> bool, a: seq<T>, b: seq<T>)
    requires multiset(a) == multiset(b) && a != []
    requires SortedBy(less, a) && SortedBy(less, b)
    requires forall x, y :: x in a && y in a && x != y ==> less(x, y) || less(y, x)
    ensures |a| == |b| && a[0] == b[0] && multiset(a[1..]) == multiset(b[1..])
  {
    MultisetMembers(a, b);
    assert a[0] in b && b[0] in a;
    assert a[0] == b[0] by {
      var i :| 0 <= i < |b| && b[i] == a[0];
      var j :| 0 <= j < |a| && a[j] == b[0];
    }
    RestOf(a);
    RestOf(b);
  }

  /** When distinct elements are always comparable, sorting has one answer. */
  lemma {:induction false} SortedUnique<T(!new)>(less: (T, T) -> bool, a: seq<T>, b: seq<T>)
    requires multiset(a) == multiset(b)
    requires SortedBy(less, a) && SortedBy(less, b)
    requires forall x, y :: x in a && y in a && x != y ==> less(x, y) || less(y, x)
    ensures a == b
  {
    MultisetMembers(a, b);
    if a != [] {
      SameFirst(less, a, b);
      assert a == [a[0]] + a[1..] && b == [b[0]] + b[1..];
      SortedUnique(less, a[1..], b[1..]);
    }
  }
}

/** A hash map's keys put in ascending order before they are visited. */
module Ids {
  import opened Sorting

  predicate IdLess(a: nat, b: nat) { a < b }

  ghost predicate Ascending(s: seq<nat>) {
    forall i, j :: 0 <= i < j < |s| ==> s[i] < s[j]
  }

  ghost predicate IsLeast(ids: set<nat>, m: nat) { m in ids && forall k :: k in ids ==> m <= k }

  lemma {:induction false} LeastExists(ids: set<nat>)
    requires ids != {}
    ensures exists m :: IsLeast(ids, m)
  {
    var k :| k in ids;
    var rest := ids - {k};
    assert forall l :: l in ids ==> l == k || l in rest;
    if rest == {} {
      assert IsLeast(ids, k);
    } else {
      LeastExists(rest);
      var m :| IsLeast(rest, m);
      assert IsLeast(ids, if m < k then m else k);
    }
  }

  ghost function Least(ids: set<nat>): (m: nat)
    requires ids != {}
    ensures IsLeast(ids, m)
  {
    LeastExists(ids);
    var m :| IsLeast(ids, m);
    m
  }

  ghost predicate Lists(s: seq<nat>, ids: set<nat>) {
    Ascending(s) && (forall k :: k in s <==> k in ids) && |s| == |ids|
  }

  lemma {:induction false} ListExists(ids: set<nat>)
    ensures exists s :: Lists(s, ids)
  {
    if ids == {} {
      assert Lists([], ids);
    } else {
      var m := Least(ids);
      ListExists(ids - {m});
      var rest :| Lists(rest, ids - {m});
      assert forall i :: 0 <= i < |rest| ==> rest[i] in rest;
      assert Lists([m] + rest, ids);
    }
  }

  /** The ids of a set, ascending. */
  ghost function InOrder(ids: set<nat>): (s: seq<nat>)
    ensures Lists(s, ids)
  {
    ListExists(ids);
    var s :| Lists(s, ids);
    s
  }

  lemma {:induction false} AscendingUnique(a: seq<nat>, b: seq<nat>)
    requires Ascending(a) && Ascending(b)
    requires forall k :: k in a <==> k in b
    ensures a == b
  {
    assert a == [] <==> b == [] by {
      assert forall k :: k in a ==> k in b;
      assert |a| > 0 ==> a[0] in b;
      assert |b| > 0 ==> b[0] in a;
    }
    if a != [] {
      assert a[0] in b && b[0] in a;
      assert a[0] == b[0];
      forall k ensures k in a[1..] <==> k in b[1..] {
        assert k in a[1..] <==> k in a && k != a[0] by {
          if k in a && k != a[0] { var i :| 0 <= i < |a| && a[i] == k; assert a[1..][i - 1] == k; }
        }
        assert k in b[1..] <==> k in b && k != b[0] by {
          if k in b && k != b[0] { var i :| 0 <= i < |b| && b[i] == k; assert b[1..][i - 1] == k; }
        }
      }
      AscendingUnique(a[1..], b[1..]);
    }
  }

  lemma GreatestIsLast(ids: seq<nat>, v: nat)
    requires Ascending(ids) && v in ids && forall u :: u in ids ==> u <= v
    ensures ids == ids[..|ids| - 1] + [v]
  {
    var k :| 0 <= k < |ids| && ids[k] == v;
    assert ids[|ids| - 1] in ids;
  }

  lemma AppendGreatest(s: seq<nat>, t: seq<nat>, v: nat)
    requires Ascending(s) && Ascending(t) && forall u :: u in s ==> u < v
    requires forall u :: u in t <==> u in s || u == v
    ensures t == s + [v]
  {
    assert forall k :: 0 <= k < |s| ==> s[k] in s;
    AscendingUnique(t, s + [v]);
  }

  /** Collect the keys in whatever order the container yields them, then sort. */
  method SortIds(ids: set<nat>) returns (r: seq<nat>)
    ensures r == InOrder(ids)
  {
    var visited: seq<nat> := [];
    var todo := ids;
    while todo != {}
      invariant todo <= ids
      invariant forall k :: k in visited <==> k in ids - todo
      invariant forall i, j :: 0 <= i < j < |visited| ==> visited[i] != visited[j]
      decreases todo
    {
      var k :| k in todo;
      assert k !in visited;
      visited := visited + [k];
      todo := todo - {k};
    }
    r := StdSort(IdLess, visited);
    MultisetMembers(visited, r);
    DistinctIsAscending(visited, r);
    AscendingUnique(r, InOrder(ids));
  }

  lemma DistinctIsAscending(visited: seq<nat>, r: seq<nat>)
    requires multiset(r) == multiset(visited)
    requires SortedBy(IdLess, r)
    requires forall i, j :: 0 <= i < j < |visited| ==> visited[i] != visited[j]
    ensures Ascending(r)
  {
    forall i, j | 0 <= i < j < |r| ensures r[i] < r[j] {
      SortKeepsDistinct(visited, r, i, j);
      assert !IdLess(r[j], r[i]);
    }
  }
}
