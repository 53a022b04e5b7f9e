/**
resort(): the display order of a folder. The ids are collected in a std::set, so they reach the sort
without duplicates and in ascending order, and are then sorted by the reader's chosen key.
*/
module NoteOrder {
  import opened Ordered
  import opened NoteBox

  const SORT_DATE: nat := 1
  const SORT_SIZE: nat := 2
  const SORT_FROM: nat := 3
  const SORT_TO: nat := 4
  const SORT_SUBJ: nat := 5

  // operator< on std::string.
  predicate StringLess(a: string, b: string) {
    if a == [] then b != []
    else if b == [] then false
    else a[0] < b[0] || (a[0] == b[0] && StringLess(a[1..], b[1..]))
  }

  lemma {:induction false} StringLessCompares(a: string, b: string)
    ensures StringLess(a, b) ==> !StringLess(b, a)
    ensures !StringLess(a, b) && !StringLess(b, a) ==> a == b
  {
    if a != [] && b != [] && a[0] == b[0] {
      StringLessCompares(a[1..], b[1..]);
      assert a == [a[0]] + a[1..] && b == [b[0]] + b[1..];
    }
  }

  lemma {:induction false} StringLessTransitive(a: string, b: string, c: string)
    requires !StringLess(b, a) && !StringLess(c, b)
    ensures !StringLess(c, a)
  {
    if a != [] && b != [] && c != [] && a[0] == b[0] == c[0] {
      StringLessTransitive(a[1..], b[1..], c[1..]);
    }
  }

  // The first place where the strings differ decides, and a proper prefix comes first.
  ghost predicate DiffersAt(a: string, b: string, k: nat) {
    && k <= |a| && k < |b| && a[..k] == b[..k]
    && (k == |a| || a[k] < b[k])
  }

  lemma {:induction false} StringLessIs(a: string, b: string)
    ensures StringLess(a, b) <==> exists k: nat :: DiffersAt(a, b, k)
  {
    if a == [] || b == [] {
      if a == [] && b != [] { assert DiffersAt(a, b, 0); }
    } else {
      StringLessIs(a[1..], b[1..]);
      if StringLess(a, b) {
        if a[0] < b[0] {
          assert DiffersAt(a, b, 0);
        } else {
          var k: nat :| DiffersAt(a[1..], b[1..], k);
          assert a[..k + 1] == [a[0]] + a[1..][..k] && b[..k + 1] == [b[0]] + b[1..][..k];
          assert DiffersAt(a, b, k + 1);
        }
      }
      if k: nat :| DiffersAt(a, b, k) { LaterDiffers(a, b, k); }
    }
  }

  lemma LaterDiffers(a: string, b: string, k: nat)
    requires a != [] && b != [] && DiffersAt(a, b, k)
    ensures a[0] < b[0] || (a[0] == b[0] && k > 0 && DiffersAt(a[1..], b[1..], k - 1))
  {
    if k > 0 {
      assert a[0] == a[..k][0] == b[..k][0] == b[0];
      assert a[1..][..k - 1] == a[..k][1..] && b[1..][..k - 1] == b[..k][1..];
    }
  }

  // The ten srt_note_ comparators; any other sort value leaves the id order.
  predicate Precedes(a: Head, b: Head, sort: nat, desc: bool) {
    if sort == SORT_DATE then (if desc then a.sendDate > b.sendDate else a.sendDate < b.sendDate)
    else if sort == SORT_SIZE then (if desc then a.contentLength > b.contentLength else a.contentLength < b.contentLength)
    else if sort == SORT_FROM then (if desc then StringLess(b.fromNick, a.fromNick) else StringLess(a.fromNick, b.fromNick))
    else if sort == SORT_TO then (if desc then StringLess(b.toNick, a.toNick) else StringLess(a.toNick, b.toNick))
    else if sort == SORT_SUBJ then (if desc then StringLess(b.subject, a.subject) else StringLess(a.subject, b.subject))
    else false
  }

  lemma PrecedesIsWeakOrder(a: Head, b: Head, c: Head, sort: nat, desc: bool)
    ensures Precedes(a, b, sort, desc) ==> !Precedes(b, a, sort, desc)
    ensures !Precedes(b, a, sort, desc) && !Precedes(c, b, sort, desc) ==> !Precedes(c, a, sort, desc)
  {
    StringLessCompares(a.fromNick, b.fromNick);
    StringLessCompares(a.toNick, b.toNick);
    StringLessCompares(a.subject, b.subject);
    if !Precedes(b, a, sort, desc) && !Precedes(c, b, sort, desc) {
      if sort == SORT_FROM {
        if desc { StringLessTransitive(c.fromNick, b.fromNick, a.fromNick); }
        else { StringLessTransitive(a.fromNick, b.fromNick, c.fromNick); }
      } else if sort == SORT_TO {
        if desc { StringLessTransitive(c.toNick, b.toNick, a.toNick); }
        else { StringLessTransitive(a.toNick, b.toNick, c.toNick); }
      } else if sort == SORT_SUBJ {
        if desc { StringLessTransitive(c.subject, b.subject, a.subject); }
        else { StringLessTransitive(a.subject, b.subject, c.subject); }
      }
    }
  }

  function HeadOf(heads: map<MsgId, Head>, m: MsgId): Head {
    if m in heads then heads[m] else DEFAULT_HEAD
  }

  function Insert(m: MsgId, v: seq<MsgId>, heads: map<MsgId, Head>, sort: nat, desc: bool): (w: seq<MsgId>)
    ensures multiset(w) == multiset(v) + multiset{m}
  {
    if v == [] then [m]
    else if Precedes(HeadOf(heads, v[0]), HeadOf(heads, m), sort, desc) then
      assert v == [v[0]] + v[1..];
      [v[0]] + Insert(m, v[1..], heads, sort, desc)
    else [m] + v
  }

  // ::sort on the collected heads. Among equal keys std::sort promises no order; here the smaller id stays first.
  function SortIds(v: seq<MsgId>, heads: map<MsgId, Head>, sort: nat, desc: bool): (w: seq<MsgId>)
    ensures multiset(w) == multiset(v)
  {
    if v == [] then []
    else
      assert v == [v[0]] + v[1..];
      Insert(v[0], SortIds(v[1..], heads, sort, desc), heads, sort, desc)
  }

  ghost predicate InOrder(v: seq<MsgId>, heads: map<MsgId, Head>, sort: nat, desc: bool) {
    forall i, j :: 0 <= i < j < |v| ==> !Precedes(HeadOf(heads, v[j]), HeadOf(heads, v[i]), sort, desc)
  }

  lemma {:induction false} InsertInOrder(m: MsgId, v: seq<MsgId>, heads: map<MsgId, Head>, sort: nat, desc: bool)
    requires InOrder(v, heads, sort, desc)
    ensures InOrder(Insert(m, v, heads, sort, desc), heads, sort, desc)
  {
    var w := Insert(m, v, heads, sort, desc);
    var h := HeadOf(heads, m);
    if v != [] {
      if Precedes(HeadOf(heads, v[0]), h, sort, desc) {
        InsertInOrder(m, v[1..], heads, sort, desc);
        forall j | 1 <= j < |w|
          ensures !Precedes(HeadOf(heads, w[j]), HeadOf(heads, v[0]), sort, desc)
        {
          assert w[j] in multiset(w[1..]);
          if w[j] == m {
            PrecedesIsWeakOrder(HeadOf(heads, v[0]), h, h, sort, desc);
          } else {
            assert w[j] in v[1..];
          }
        }
      } else {
        forall j | 1 <= j < |w|
          ensures !Precedes(HeadOf(heads, w[j]), h, sort, desc)
        {
          if j > 1 {
            PrecedesIsWeakOrder(h, HeadOf(heads, v[0]), HeadOf(heads, w[j]), sort, desc);
          }
        }
      }
    }
  }

  lemma {:induction false} SortInOrder(v: seq<MsgId>, heads: map<MsgId, Head>, sort: nat, desc: bool)
    ensures InOrder(SortIds(v, heads, sort, desc), heads, sort, desc)
  {
    if v != [] {
      SortInOrder(v[1..], heads, sort, desc);
      InsertInOrder(v[0], SortIds(v[1..], heads, sort, desc), heads, sort, desc);
    }
  }

  function Ids(v: seq<MsgId>): set<MsgId> { set m | m in v }

  // The vector that resort() stores for a folder.
  function Arrange(v: seq<MsgId>, heads: map<MsgId, Head>, sort: nat, desc: bool): seq<MsgId> {
    SortIds(Ascending(Ids(v)), heads, sort, desc)
  }

  lemma SameMembers<T>(v: seq<T>, w: seq<T>)
    requires multiset(v) == multiset(w)
    ensures forall x :: x in v <==> x in w
  {
    forall x
      ensures x in v <==> x in w
    {
      assert x in v <==> x in multiset(v);
      assert x in w <==> x in multiset(w);
    }
  }

  lemma NoDupIsMultisetOnes<T>(v: seq<T>)
    ensures NoDup(v) <==> forall x :: multiset(v)[x] <= 1
  {
    if v != [] {
      assert v == [v[0]] + v[1..];
      NoDupIsMultisetOnes(v[1..]);
      assert v[0] in v[1..] <==> v[0] in multiset(v[1..]);
      if NoDup(v) {
        assert v[0] !in v[1..];
      } else if NoDup(v[1..]) {
        var i, j :| 0 <= i < j < |v| && v[i] == v[j];
        assert i == 0;
        assert v[0] in v[1..];
        assert multiset(v)[v[0]] > 1;
      } else {
        var x :| multiset(v[1..])[x] > 1;
        assert multiset(v)[x] > 1;
      }
    }
  }

  // A sorted folder holds the same messages, each once, in the chosen order; sorting it again changes nothing.
  lemma ArrangeSorts(v: seq<MsgId>, heads: map<MsgId, Head>, sort: nat, desc: bool)
    ensures var w := Arrange(v, heads, sort, desc);
      && (forall m :: m in w <==> m in v) && NoDup(w) && InOrder(w, heads, sort, desc)
      && Arrange(w, heads, sort, desc) == w
  {
    var s := Ids(v);
    var w := Arrange(v, heads, sort, desc);
    SortInOrder(Ascending(s), heads, sort, desc);
    SameMembers(w, Ascending(s));
    NoDupIsMultisetOnes(w);
    NoDupIsMultisetOnes(Ascending(s));
    assert Ids(w) == s;
  }

  lemma {:induction false} InsertLocal(m: MsgId, v: seq<MsgId>, h: map<MsgId, Head>, k: map<MsgId, Head>, sort: nat, desc: bool)
    requires HeadOf(h, m) == HeadOf(k, m) && forall n :: n in v ==> HeadOf(h, n) == HeadOf(k, n)
    ensures Insert(m, v, h, sort, desc) == Insert(m, v, k, sort, desc)
  {
    if v != [] {
      InsertLocal(m, v[1..], h, k, sort, desc);
    }
  }

  lemma {:induction false} SortLocal(v: seq<MsgId>, h: map<MsgId, Head>, k: map<MsgId, Head>, sort: nat, desc: bool)
    requires forall n :: n in v ==> HeadOf(h, n) == HeadOf(k, n)
    ensures SortIds(v, h, sort, desc) == SortIds(v, k, sort, desc)
  {
    if v != [] {
      SortLocal(v[1..], h, k, sort, desc);
      SameMembers(SortIds(v[1..], h, sort, desc), v[1..]);
      InsertLocal(v[0], SortIds(v[1..], h, sort, desc), h, k, sort, desc);
    }
  }

  lemma UnsortedFirst(m: MsgId, v: seq<MsgId>, heads: map<MsgId, Head>, sort: nat, desc: bool)
    requires sort == 0 || sort > SORT_SUBJ
    ensures Insert(m, v, heads, sort, desc) == [m] + v
  {
    if v != [] { assert !Precedes(HeadOf(heads, v[0]), HeadOf(heads, m), sort, desc); }
  }

  lemma {:induction false} UnsortedStays(v: seq<MsgId>, heads: map<MsgId, Head>, sort: nat, desc: bool)
    requires sort == 0 || sort > SORT_SUBJ
    ensures SortIds(v, heads, sort, desc) == v
  {
    if v != [] {
      UnsortedStays(v[1..], heads, sort, desc);
      UnsortedFirst(v[0], v[1..], heads, sort, desc);
      assert v == [v[0]] + v[1..];
    }
  }

  predicate NoLater(a: string, b: string) { a == b || StringLess(a, b) }

  // The five sort keys by the field they name, up or down; without one the ids ascend.
  lemma ArrangeOrdersBy(v: seq<MsgId>, heads: map<MsgId, Head>, sort: nat, desc: bool, i: nat, j: nat)
    requires i < j < |Arrange(v, heads, sort, desc)|
    ensures var w := Arrange(v, heads, sort, desc);
      var x, y := if desc then HeadOf(heads, w[j]) else HeadOf(heads, w[i]), if desc then HeadOf(heads, w[i]) else HeadOf(heads, w[j]);
      && (sort == 1 ==> x.sendDate <= y.sendDate)
      && (sort == 2 ==> x.contentLength <= y.contentLength)
      && (sort == 3 ==> NoLater(x.fromNick, y.fromNick))
      && (sort == 4 ==> NoLater(x.toNick, y.toNick))
      && (sort == 5 ==> NoLater(x.subject, y.subject))
      && (sort == 0 || sort > 5 ==> w[i] < w[j])
  {
    var w := Arrange(v, heads, sort, desc);
    ArrangeSorts(v, heads, sort, desc);
    var a, b := HeadOf(heads, w[i]), HeadOf(heads, w[j]);
    StringLessCompares(a.fromNick, b.fromNick);
    StringLessCompares(a.toNick, b.toNick);
    StringLessCompares(a.subject, b.subject);
    if sort == 0 || sort > 5 {
      UnsortedStays(Ascending(Ids(v)), heads, sort, desc);
      AscendingIsSorted(Ids(v));
    }
  }
}
