/** Ascending key order of integer-keyed maps.

    The source keeps several registries in a `java.util.TreeMap<Integer, _>` and hands
    out `new ArrayList(map.values())`: the values ordered by ascending key. A Dafny
    `map` has no order, so this module computes that order. */
module SortedMaps {

  /** Element `i` of `s` is below element `j`. Stated through this predicate, the
      ordering of a sequence is used only at the pairs a proof names. */
  predicate Below(s: seq<int>, i: int, j: int)
    requires 0 <= i < |s| && 0 <= j < |s|
  {
    s[i] < s[j]
  }

  predicate StrictlyIncreasing(s: seq<int>) {
    forall i, j :: 0 <= i < j < |s| ==> Below(s, i, j)
  }

  /** Putting an element below all others in front of an increasing sequence keeps
      it increasing. */
  lemma PrependIncreasing(m: int, rest: seq<int>)
    requires StrictlyIncreasing(rest)
    requires forall x :: x in rest ==> m < x
    ensures StrictlyIncreasing([m] + rest)
  {
    var r := [m] + rest;
    forall i, j | 0 <= i < j < |r|
      ensures Below(r, i, j)
    {
      if i == 0 {
        assert r[j] == rest[j - 1] && r[j] in rest;
      } else {
        assert Below(rest, i - 1, j - 1);
      }
    }
  }

  lemma {:induction false} MinExists(s: set<int>)
    requires s != {}
    ensures exists m :: m in s && forall x :: x in s ==> m <= x
    decreases |s|
  {
    if forall y :: y !in s {
      assert false;
    }
    var y :| y in s;
    var rest := s - {y};
    if rest == {} {
      MinOfSingleton(s, y);
    } else {
      MinExists(rest);
      var m :| m in rest && forall x :: x in rest ==> m <= x;
      MinOfAdded(s, y, m);
    }
  }

  lemma MinOfSingleton(s: set<int>, y: int)
    requires y in s && s - {y} == {}
    ensures forall x :: x in s ==> y <= x
  {
    forall x | x in s ensures y <= x {
      assert x !in s - {y};
    }
  }

  lemma MinOfAdded(s: set<int>, y: int, m: int)
    requires y in s && m in s - {y}
    requires forall x :: x in s - {y} ==> m <= x
    ensures exists least :: least in s && forall x :: x in s ==> least <= x
  {
    var least := if y < m then y else m;
    forall x | x in s ensures least <= x {
      if x != y {
        assert x in s - {y};
      }
    }
    assert least in s;
  }

  /** The least element of a non-empty set of integers. */
  function Least(s: set<int>): (m: int)
    requires s != {}
    ensures m in s
    ensures forall x :: x in s ==> m <= x
  {
    MinExists(s);
    var m :| m in s && forall x :: x in s ==> m <= x;
    m
  }

  /** The elements of `s` in ascending order (the iteration order of a TreeMap's keys). */
  function SortedKeys(s: set<int>): (r: seq<int>)
    ensures |r| == |s|
    ensures forall k :: k in r <==> k in s
    ensures StrictlyIncreasing(r)
    decreases s
  {
    if s == {} then []
    else
      var m := Least(s);
      var rest := SortedKeys(s - {m});
      PrependIncreasing(m, rest);
      [m] + rest
  }

  /** The values of `m` ordered by ascending key (`new ArrayList(treeMap.values())`). */
  function ValuesInKeyOrder<V>(m: map<int, V>): (r: seq<V>)
    ensures |r| == |SortedKeys(m.Keys)|
  {
    var ks := SortedKeys(m.Keys);
    seq(|ks|, i requires 0 <= i < |ks| => m[ks[i]])
  }

  /** Position `i` of the ordered values holds the entry of the `i`-th smallest key;
      every value of the map appears, and the list is as long as the map. */
  lemma ValuesInKeyOrderAt<V>(m: map<int, V>, i: int)
    requires 0 <= i < |m.Keys|
    ensures |ValuesInKeyOrder(m)| == |m.Keys|
    ensures SortedKeys(m.Keys)[i] in m
    ensures ValuesInKeyOrder(m)[i] == m[SortedKeys(m.Keys)[i]]
  {
  }

  /** The integers `lo..hi-1`. */
  function Range(lo: int, hi: int): (r: set<int>)
    ensures forall k :: k in r <==> lo <= k < hi
    ensures lo <= hi ==> |r| == hi - lo
    decreases hi - lo
  {
    if hi <= lo then {} else Range(lo, hi - 1) + {hi - 1}
  }

  lemma {:induction false} IncreasingAtLeast(s: seq<int>, lo: int, i: int)
    requires StrictlyIncreasing(s)
    requires forall j :: 0 <= j < |s| ==> lo <= s[j]
    requires 0 <= i < |s|
    ensures lo + i <= s[i]
    decreases i
  {
    if i > 0 {
      IncreasingAtLeast(s, lo, i - 1);
      assert Below(s, i - 1, i);
    }
  }

  lemma {:induction false} IncreasingAtMost(s: seq<int>, hi: int, i: int)
    requires StrictlyIncreasing(s)
    requires forall j :: 0 <= j < |s| ==> s[j] < hi
    requires 0 <= i < |s|
    ensures s[i] <= hi - (|s| - i)
    decreases |s| - i
  {
    if i < |s| - 1 {
      IncreasingAtMost(s, hi, i + 1);
      assert Below(s, i, i + 1);
    }
  }

  /** The keys `0..n-1` in ascending order are `0, 1, ..., n-1`: the `i`-th key is `i`. */
  lemma SortedRange(n: nat, i: int)
    requires 0 <= i < n
    ensures |SortedKeys(Range(0, n))| == n
    ensures SortedKeys(Range(0, n))[i] == i
  {
    var ks := SortedKeys(Range(0, n));
    assert forall j :: 0 <= j < |ks| ==> ks[j] in Range(0, n);
    IncreasingAtLeast(ks, 0, i);
    IncreasingAtMost(ks, n, i);
  }

  /** A map keyed by exactly `0..n-1` lists its entry for key `i` at position `i`. */
  lemma ValuesOfRange<V>(m: map<int, V>, n: nat, i: int)
    requires m.Keys == Range(0, n) && 0 <= i < n
    ensures |ValuesInKeyOrder(m)| == n
    ensures i in m && ValuesInKeyOrder(m)[i] == m[i]
  {
    SortedRange(n, i);
    ValuesInKeyOrderAt(m, i);
  }

  /** For a map keyed by exactly `0..n-1`, element `v` of the window of its ordered
      values that starts at `from` is the entry of key `from + v`. */
  lemma WindowOfRange<V>(m: map<int, V>, n: nat, from: int, width: int, v: int)
    requires m.Keys == Range(0, n)
    requires 0 <= from && from + width <= n && 0 <= v < width
    ensures |ValuesInKeyOrder(m)| == n
    ensures from + v in m
    ensures ValuesInKeyOrder(m)[from..from + width][v] == m[from + v]
  {
    ValuesOfRange(m, n, from + v);
    SliceAt(ValuesInKeyOrder(m), from, width, v);
  }

  /** Element `v` of the slice of `s` that starts at `from` is element `from + v`. */
  lemma SliceAt<T>(s: seq<T>, from: int, width: int, v: int)
    requires 0 <= from && from + width <= |s| && 0 <= v < width
    ensures s[from..from + width][v] == s[from + v]
  {
  }

  /** A non-empty set has a member (what an iteration over a collection picks next). */
  lemma HasMember<T>(s: set<T>)
    requires s != {}
    ensures exists x :: x in s
  {
    if forall x :: x !in s {
      assert false;
    }
  }
}
