/** std::string::find, and where it stops. */
module Search {
  import opened Options

  predicate OccursAt<T(==)>(s: seq<T>, d: seq<T>, i: nat) {
    i + |d| <= |s| && forall j :: 0 <= j < |d| ==> s[i + j] == d[j]
  }

  // The first occurrence from i on.
  function FindFrom<T(==)>(s: seq<T>, d: seq<T>, i: nat): (pos: Option<nat>)
    ensures pos.Some? ==> pos.value + |d| <= |s|
    decreases |s| - i
  {
    if OccursAt(s, d, i) then Some(i) else if i >= |s| then None else FindFrom(s, d, i + 1)
  }

  function Find<T(==)>(s: seq<T>, d: seq<T>): (pos: Option<nat>)
    ensures pos.Some? ==> pos.value + |d| <= |s|
  {
    FindFrom(s, d, 0)
  }

  lemma {:induction false} FindFromSpec<T>(s: seq<T>, d: seq<T>, i: nat)
    ensures match FindFrom(s, d, i)
      case Some(k) => i <= k && OccursAt(s, d, k) && forall j: nat :: i <= j < k ==> !OccursAt(s, d, j)
      case None => forall j: nat :: i <= j ==> !OccursAt(s, d, j)
    decreases |s| - i
  {
    if !OccursAt(s, d, i) && i < |s| { FindFromSpec(s, d, i + 1); }
  }

  // find() is right: an occurrence, and none before it; or none at all.
  lemma FindSpec<T>(s: seq<T>, d: seq<T>)
    ensures match Find(s, d)
      case Some(k) => OccursAt(s, d, k) && forall j: nat :: j < k ==> !OccursAt(s, d, j)
      case None => forall j: nat :: !OccursAt(s, d, j)
  {
    FindFromSpec(s, d, 0);
  }

  lemma FindIs<T>(s: seq<T>, d: seq<T>, i: nat)
    requires OccursAt(s, d, i) && forall j: nat :: j < i ==> !OccursAt(s, d, j)
    ensures Find(s, d) == Some(i)
  {
    FindSpec(s, d);
  }

  lemma OccursInFront<T>(a: seq<T>, s: seq<T>, d: seq<T>, i: nat)
    requires i + |d| <= |a|
    ensures OccursAt(a + s, d, i) == OccursAt(a, d, i)
  {
    assert forall k :: 0 <= k < |a| ==> (a + s)[k] == a[k];
    if OccursAt(a + s, d, i) {
      forall j | 0 <= j < |d|
        ensures a[i + j] == d[j]
      {
        assert (a + s)[i + j] == d[j];
      }
    }
  }

  lemma FindExtends<T>(a: seq<T>, b: seq<T>, d: seq<T>)
    requires Find(a, d).Some?
    ensures Find(a + b, d) == Find(a, d)
  {
    var k := Find(a, d).value;
    FindSpec(a, d);
    FindSpec(a + b, d);
    forall j: nat | j <= k
      ensures OccursAt(a + b, d, j) == OccursAt(a, d, j)
    {
      OccursInFront(a, b, d, j);
    }
  }

  lemma OccursShifted<T>(a: seq<T>, s: seq<T>, d: seq<T>, i: nat)
    ensures OccursAt(a + s, d, |a| + i) == OccursAt(s, d, i)
  {
    assert forall k :: 0 <= k < |s| ==> (a + s)[|a| + k] == s[k];
    if OccursAt(a + s, d, |a| + i) {
      forall j | 0 <= j < |d|
        ensures s[i + j] == d[j]
      {
        assert (a + s)[|a| + i + j] == d[j];
      }
    }
  }

  // What lies before the first occurrence can be skipped.
  lemma FindSkips<T>(a: seq<T>, s: seq<T>, d: seq<T>)
    requires forall i: nat :: i < |a| ==> !OccursAt(a + s, d, i)
    ensures Find(a + s, d) == match Find(s, d) { case None => None case Some(k) => Some(|a| + k) }
  {
    forall i: nat
      ensures OccursAt(a + s, d, |a| + i) == OccursAt(s, d, i)
    {
      OccursShifted(a, s, d, i);
    }
    FindSpec(a + s, d);
    FindSpec(s, d);
    if Find(a + s, d).Some? {
      assert OccursAt(s, d, Find(a + s, d).value - |a|);
    }
    if Find(s, d).Some? {
      assert OccursAt(a + s, d, |a| + Find(s, d).value);
    }
  }

  // No occurrence lies across an element that the pattern does not have.
  lemma NoCross<T>(s: seq<T>, d: seq<T>, i: nat, j: nat)
    requires j < |s| && s[j] !in d && i <= j < i + |d|
    ensures !OccursAt(s, d, i)
  {
    assert d[j - i] in d;
    assert i + (j - i) == j;
  }

  // A text that ends in an element foreign to the pattern, and does not contain it, is skipped.
  lemma SkipText<T>(a: seq<T>, s: seq<T>, d: seq<T>)
    requires d != [] && Find(a, d) == None && (a != [] ==> a[|a| - 1] !in d)
    ensures Find(a + s, d) == match Find(s, d) { case None => None case Some(k) => Some(|a| + k) }
  {
    FindSpec(a, d);
    forall i: nat | i < |a|
      ensures !OccursAt(a + s, d, i)
    {
      if i + |d| <= |a| {
        OccursInFront(a, s, d, i);
      } else {
        NoCross(a + s, d, i, |a| - 1);
      }
    }
    FindSkips(a, s, d);
  }

  // A pattern of two different elements is found right after a text without it.
  lemma FindPair<T>(a: seq<T>, d: seq<T>, b: seq<T>)
    requires |d| == 2 && d[0] != d[1] && Find(a, d) == None
    ensures Find(a + (d + b), d) == Some(|a|)
  {
    var t := a + (d + b);
    FindSpec(a, d);
    forall i: nat | i < |a|
      ensures !OccursAt(t, d, i)
    {
      if i + 2 <= |a| {
        OccursInFront(a, d + b, d, i);
      } else {
        assert t[i + 1] == d[0] && d[0] != d[1];
      }
    }
    FindSkips(a, d + b, d);
    FindAtOnce(d, b);
  }

  lemma Around<T>(a: seq<T>, d: seq<T>, b: seq<T>)
    ensures (a + (d + b))[..|a|] == a && (a + (d + b))[|a| + |d|..] == b
  {
  }

  lemma FindAtOnce<T>(d: seq<T>, s: seq<T>)
    ensures Find(d + s, d) == Some(0)
  {
    FindIs(d + s, d, 0);
  }

  lemma FreeOf<T>(s: seq<T>, d: seq<T>)
    requires d != [] && d[0] !in s
    ensures Find(s, d) == None
  {
    FindSpec(s, d);
    if Find(s, d).Some? {
      NoCrossFirst(s, d, Find(s, d).value);
    }
  }

  lemma NoCrossFirst<T>(s: seq<T>, d: seq<T>, i: nat)
    requires d != [] && OccursAt(s, d, i)
    ensures d[0] in s
  {
    assert s[i + 0] == d[0];
  }

  // Two texts without a pair of different elements are joined without it.
  lemma JoinPair<T>(a: seq<T>, b: seq<T>, d: seq<T>)
    requires |d| == 2 && Find(a, d) == None && Find(b, d) == None
    requires a != [] && b != [] ==> a[|a| - 1] != d[0] || b[0] != d[1]
    ensures Find(a + b, d) == None
  {
    FindSpec(a, d);
    FindSpec(b, d);
    forall i: nat | i < |a|
      ensures !OccursAt(a + b, d, i)
    {
      if i + 2 <= |a| {
        OccursInFront(a, b, d, i);
      } else if i + 2 <= |a + b| {
        assert (a + b)[i + 0] == a[|a| - 1] && (a + b)[i + 1] == b[0];
      }
    }
    FindSkips(a, b, d);
  }
}
