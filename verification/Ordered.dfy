/** Sets of ids visited in the order std::set and std::map keep them. */
module Ordered {
  predicate NoDup<T(==)>(v: seq<T>) {
    forall i, j :: 0 <= i < j < |v| ==> v[i] != v[j]
  }

  ghost predicate IsLeast(k: nat, s: set<nat>) { k in s && forall j :: j in s ==> k <= j }

  lemma LeastExists(s: set<nat>)
    requires s != {}
    ensures exists k :: IsLeast(k, s)
  {
    var x :| x in s;
    var below := set j | j in s && j < x;
    if below == {} {
      assert forall j :: j in s && j < x ==> j in below;
      assert IsLeast(x, s);
    } else {
      assert below < s by { assert x !in below; }
      LeastExists(below);
      var k: nat :| IsLeast(k, below);
      forall j | j in s
        ensures k <= j
      {
        assert j < x ==> j in below;
      }
      assert k in s && IsLeast(k, s);
    }
  }

  // The smallest key: what begin() points at.
  function Least(s: set<nat>): (k: nat)
    requires s != {}
    ensures k in s && forall j :: j in s ==> k <= j
  {
    LeastExists(s);
    assert exists k: nat :: k in s && forall j :: j in s ==> k <= j by { var k :| IsLeast(k, s); }
    var k: nat :| k in s && forall j :: j in s ==> k <= j;
    k
  }

  function Ascending(s: set<nat>): (v: seq<nat>)
    ensures forall m :: m in v <==> m in s
    ensures NoDup(v)
  {
    if s == {} then []
    else
      var k := Least(s);
      [k] + Ascending(s - {k})
  }

  lemma {:induction false} AscendingIsSorted(s: set<nat>)
    ensures forall i, j :: 0 <= i < j < |Ascending(s)| ==> Ascending(s)[i] < Ascending(s)[j]
  {
    if s != {} {
      var k := Least(s);
      AscendingIsSorted(s - {k});
      var v := Ascending(s - {k});
      assert Ascending(s) == [k] + v;
      forall j | 0 <= j < |v|
        ensures k < v[j]
      {
        assert v[j] in v;
      }
    }
  }

  // rbegin()->first, or 0 for an empty map.
  function Greatest(s: set<nat>): (k: nat)
    ensures forall j :: j in s ==> j <= k
    ensures s != {} ==> k in s
    ensures s == {} ==> k == 0
  {
    if s == {} then 0
    else
      var x := Least(s);
      var y := Greatest(s - {x});
      assert forall j :: j in s ==> j == x || j in s - {x};
      if s == {x} then x else y
  }

  // Some element of a collection that is walked in an order that does not matter.
  method AnyOf<T>(s: set<T>) returns (k: T)
    requires s != {}
    ensures k in s
  {
    k :| k in s;
  }

  // The entries whose keys were kept.
  function KeepOnly<K, V>(m: map<K, V>, s: set<K>): map<K, V> {
    map k | k in m && k in s :: m[k]
  }

  // One key less to look at: it stays if it is in kept.
  lemma KeepOnlyStep<K, V>(m: map<K, V>, todo: set<K>, kept: set<K>, k: K)
    ensures KeepOnly(m, (todo - {k}) + kept) ==
      if k in kept then KeepOnly(m, todo + {k} + kept) else KeepOnly(m, todo + {k} + kept) - {k}
  {
  }

  lemma KeepOnlyAll<K, V>(m: map<K, V>, kept: set<K>)
    ensures KeepOnly(m, m.Keys + kept) == m && KeepOnly(m, {} + kept) == KeepOnly(m, kept)
  {
    assert {} + kept == kept;
  }
}
