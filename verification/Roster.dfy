/**
What a client is shown of a channel: the visible users with their nick and status, brought up to date for the
users in a batch, and the messages that carry the changes to the client's own screen.
*/
module Roster {
  import opened Options
  import opened Ordered
  import opened Memberships

  type Uid = nat

  const ST_OFFINVISIBLE := 1
  const ST_INVISIBLE := 2

  datatype Item = Item(status: int, nick: string)

  datatype Person = Person(
    uid: Uid, nick: string, status: int, invisibility: int, gender: int,
    contactsOnly: bool, hideMale: bool, hideFemale: bool, contacts: set<Uid>, channels: Membership)

  type View = map<Uid, Item>     // visible_users of one channel

  function ItemOf(z: Person): Item { Item(z.status, z.nick) }

  predicate CanSee(i: Person, z: Person) {
    if i.uid == z.uid then true
    else if z.status in {ST_OFFINVISIBLE, ST_INVISIBLE} && z.invisibility > i.invisibility then false
    else if i.contactsOnly && z.uid in i.contacts then true
    else if i.hideMale && z.gender != 2 then false
    else !(i.hideFemale && z.gender != 1)
  }

  // ---------------------------------------------------------------- one observer, one user

  datatype Needs = Needs(add: bool, remove: bool, cnick: bool, cstatus: bool)

  function NeedsOf(i: Person, u: Person, inChan: bool, view: View): Needs {
    var sees := u.uid in view;
    var canSee := inChan && CanSee(i, u);
    var cnick := inChan && sees && view[u.uid].nick != u.nick;
    Needs(canSee && !sees, !canSee && sees, cnick, inChan && sees && !cnick && view[u.uid].status != u.status)
  }

  function Refreshed(i: Person, u: Person, inChan: bool, view: View): View {
    var n := NeedsOf(i, u, inChan, view);
    var v := if n.cnick || n.cstatus then view[u.uid := ItemOf(u)] else view;
    if n.add then v[u.uid := ItemOf(u)] else if n.remove then v - {u.uid} else v
  }

  datatype Delta = AddUser(uid: Uid, item: Item) | DeleteUser(uid: Uid) | SetStatus(uid: Uid, status: int)

  datatype Line = JoinLine(nick: string) | PartLine(nick: string) | NickLine(from: string, to: string)

  // What a web client is sent, in order.
  function Deltas(i: Person, u: Person, inChan: bool, view: View): seq<Delta> {
    var n := NeedsOf(i, u, inChan, view);
    (if n.add then [AddUser(u.uid, ItemOf(u))] else [])
    + (if n.remove then [DeleteUser(u.uid)] else [])
    + (if n.cstatus then [SetStatus(u.uid, u.status)] else [])
    + (if n.cnick then [DeleteUser(u.uid), AddUser(u.uid, ItemOf(u))] else [])
  }

  // What an IRC client is sent.
  function Lines(i: Person, u: Person, inChan: bool, view: View): seq<Line> {
    var n := NeedsOf(i, u, inChan, view);
    (if n.add then [JoinLine(u.nick)] else [])
    + (if n.remove then [PartLine(u.nick)] else [])
    + (if n.cnick then [NickLine(view[u.uid].nick, u.nick)] else [])
  }

  // ---------------------------------------------------------------- one observer, the batch

  type Batch = map<Uid, Person>

  ghost predicate Keyed(batch: Batch) { forall u: Uid :: u in batch ==> batch[u].uid == u }

  predicate AllIn(us: seq<Uid>, batch: Batch) { forall j :: 0 <= j < |us| ==> us[j] in batch }

  function RefreshAll(us: seq<Uid>, i: Person, batch: Batch, present: set<Uid>, view: View): View
    requires AllIn(us, batch)
  {
    if us == [] then view
    else RefreshAll(us[1..], i, batch, present, Refreshed(i, batch[us[0]], us[0] in present, view))
  }

  function DeltasAll(us: seq<Uid>, i: Person, batch: Batch, present: set<Uid>, view: View): seq<Delta>
    requires AllIn(us, batch)
  {
    if us == [] then []
    else Deltas(i, batch[us[0]], us[0] in present, view)
         + DeltasAll(us[1..], i, batch, present, Refreshed(i, batch[us[0]], us[0] in present, view))
  }

  function LinesAll(us: seq<Uid>, i: Person, batch: Batch, present: set<Uid>, view: View): seq<Line>
    requires AllIn(us, batch)
  {
    if us == [] then []
    else Lines(i, batch[us[0]], us[0] in present, view)
         + LinesAll(us[1..], i, batch, present, Refreshed(i, batch[us[0]], us[0] in present, view))
  }

  lemma RefreshedLooks(i: Person, u: Person, inChan: bool, view: View, k: Uid)
    ensures Lookup(Refreshed(i, u, inChan, view), k) ==
      if k != u.uid then Lookup(view, k)
      else if inChan && CanSee(i, u) then Some(ItemOf(u))
      else None
  {
  }

  // After the update a batched user is in the view if and only if in the channel and visible to the
  // observer, with the nick and status of the moment; other entries are as they were.
  lemma {:induction false} ViewIsExact(us: seq<Uid>, i: Person, batch: Batch, present: set<Uid>, view: View, k: Uid)
    requires AllIn(us, batch) && Keyed(batch) && NoDup(us)
    ensures Lookup(RefreshAll(us, i, batch, present, view), k) ==
      if k !in us then Lookup(view, k)
      else if k in present && CanSee(i, batch[k]) then Some(ItemOf(batch[k]))
      else None
  {
    if us != [] {
      assert us == [us[0]] + us[1..];
      assert us[0] !in us[1..];
      ViewIsExact(us[1..], i, batch, present, Refreshed(i, batch[us[0]], us[0] in present, view), k);
      RefreshedLooks(i, batch[us[0]], us[0] in present, view, k);
    }
  }

  // In plain words, for anybody but the observer: who hides (status 1 or 2) with more invisibility than the
  // observer has is not shown, and neither is who is not in the channel; of the others contacts are shown under
  // "contacts only", and those whom neither hiding setting excludes: men are gender 2, women gender 1. The
  // observer is shown whenever in the channel.
  lemma WhoIsShown(us: seq<Uid>, i: Person, batch: Batch, present: set<Uid>, view: View, k: Uid)
    requires AllIn(us, batch) && Keyed(batch) && NoDup(us) && k in us
    ensures var z, v := batch[k], RefreshAll(us, i, batch, present, view);
      && (k !in present ==> k !in v)
      && (k in present && k == i.uid ==> k in v)
      && (k != i.uid && (z.status == 1 || z.status == 2) && z.invisibility > i.invisibility ==> k !in v)
      && (k != i.uid && k in present && !((z.status == 1 || z.status == 2) && z.invisibility > i.invisibility) ==>
            (k in v <==> (i.contactsOnly && k in i.contacts) || ((!i.hideMale || z.gender == 2) && (!i.hideFemale || z.gender == 1))))
      && (k in v ==> v[k] == Item(z.status, z.nick))
  {
    ViewIsExact(us, i, batch, present, view, k);
  }

  // ---------------------------------------------------------------- the screen of a web client

  function ShowOne(d: Delta, screen: View): View {
    match d
    case AddUser(u, item) => screen[u := item]
    case DeleteUser(u) => screen - {u}
    case SetStatus(u, s) => if u in screen then screen[u := screen[u].(status := s)] else screen
  }

  function Show(ds: seq<Delta>, screen: View): View {
    if ds == [] then screen else Show(ds[1..], ShowOne(ds[0], screen))
  }

  lemma {:induction false} ShowAppend(a: seq<Delta>, b: seq<Delta>, screen: View)
    ensures Show(a + b, screen) == Show(b, Show(a, screen))
  {
    if a == [] {
      assert a + b == b;
    } else {
      assert (a + b)[0] == a[0] && (a + b)[1..] == a[1..] + b;
      ShowAppend(a[1..], b, ShowOne(a[0], screen));
    }
  }

  // Seen so far, still in the channel, no longer visible, and under another nick.
  predicate Lingers(i: Person, u: Person, inChan: bool, view: View) {
    u.uid in view && inChan && !CanSee(i, u) && view[u.uid].nick != u.nick
  }

  lemma ShowDeltas(i: Person, u: Person, inChan: bool, view: View, screen: View, k: Uid)
    requires Lookup(screen, u.uid) == Lookup(view, u.uid)
    ensures Lookup(Show(Deltas(i, u, inChan, view), screen), k) ==
      if k != u.uid then Lookup(screen, k)
      else if Lingers(i, u, inChan, view) then Some(ItemOf(u))
      else Lookup(Refreshed(i, u, inChan, view), k)
  {
    var n := NeedsOf(i, u, inChan, view);
    var ds := Deltas(i, u, inChan, view);
    var x := u.uid;
    if n.add {
      assert ds == [AddUser(x, ItemOf(u))];
      assert Show(ds[1..], ShowOne(ds[0], screen)) == ShowOne(ds[0], screen);
    } else if n.remove && n.cnick {
      assert ds == [DeleteUser(x), DeleteUser(x), AddUser(x, ItemOf(u))];
      ShowThree(ds, screen);
    } else if n.remove && n.cstatus {
      assert ds == [DeleteUser(x), SetStatus(x, u.status)];
      ShowTwo(ds, screen);
    } else if n.remove {
      assert ds == [DeleteUser(x)];
      assert Show(ds[1..], ShowOne(ds[0], screen)) == ShowOne(ds[0], screen);
    } else if n.cnick {
      assert ds == [DeleteUser(x), AddUser(x, ItemOf(u))];
      ShowTwo(ds, screen);
    } else if n.cstatus {
      assert ds == [SetStatus(x, u.status)];
      assert Show(ds[1..], ShowOne(ds[0], screen)) == ShowOne(ds[0], screen);
    } else {
      assert ds == [];
    }
  }

  lemma ShowTwo(ds: seq<Delta>, screen: View)
    requires |ds| == 2
    ensures Show(ds, screen) == ShowOne(ds[1], ShowOne(ds[0], screen))
  {
    var next := ShowOne(ds[0], screen);
    assert ds[1..][1..] == [] && Show(ds[1..], next) == Show(ds[1..][1..], ShowOne(ds[1], next));
  }

  lemma ShowThree(ds: seq<Delta>, screen: View)
    requires |ds| == 3
    ensures Show(ds, screen) == ShowOne(ds[2], ShowOne(ds[1], ShowOne(ds[0], screen)))
  {
    ShowTwo(ds[1..], ShowOne(ds[0], screen));
  }

  // Replaying what was sent gives the new view, plus the lingering users.
  lemma {:induction false} ScreenIs(us: seq<Uid>, i: Person, batch: Batch, present: set<Uid>, view: View, screen: View, k: Uid)
    requires AllIn(us, batch) && Keyed(batch) && NoDup(us)
    requires forall u: Uid :: u in us ==> Lookup(screen, u) == Lookup(view, u)
    ensures Lookup(Show(DeltasAll(us, i, batch, present, view), screen), k) ==
      if k !in us then Lookup(screen, k)
      else if Lingers(i, batch[k], k in present, view) then Some(ItemOf(batch[k]))
      else Lookup(RefreshAll(us, i, batch, present, view), k)
  {
    if us != [] {
      var u := us[0];
      var b, inChan := batch[u], u in present;
      var ds := Deltas(i, b, inChan, view);
      var view1, screen1 := Refreshed(i, b, inChan, view), Show(ds, screen);
      assert us == [u] + us[1..];
      assert u !in us[1..];
      ShowAppend(ds, DeltasAll(us[1..], i, batch, present, view1), screen);
      forall v: Uid
        ensures Lookup(screen1, v) == if v != u then Lookup(screen, v)
          else if Lingers(i, b, inChan, view) then Some(ItemOf(b)) else Lookup(view1, v)
        ensures v != u ==> Lookup(view1, v) == Lookup(view, v)
      {
        ShowDeltas(i, b, inChan, view, screen, v);
        RefreshedLooks(i, b, inChan, view, v);
      }
      assert k in us[1..] ==> Lookup(view1, k) == Lookup(view, k);
      ScreenIs(us[1..], i, batch, present, view1, screen1, k);
      ViewIsExact(us[1..], i, batch, present, view1, k);
    }
  }

  // So the screen agrees with the view exactly when nobody lingers.
  lemma ScreenExact(us: seq<Uid>, i: Person, batch: Batch, present: set<Uid>, view: View)
    requires AllIn(us, batch) && Keyed(batch) && NoDup(us)
    ensures Show(DeltasAll(us, i, batch, present, view), view) == RefreshAll(us, i, batch, present, view)
      <==> forall u: Uid :: u in us ==> !Lingers(i, batch[u], u in present, view)
  {
    var s, v := Show(DeltasAll(us, i, batch, present, view), view), RefreshAll(us, i, batch, present, view);
    forall k: Uid
      ensures Lookup(s, k) == if k in us && Lingers(i, batch[k], k in present, view) then Some(ItemOf(batch[k])) else Lookup(v, k)
      ensures k in us && Lingers(i, batch[k], k in present, view) ==> Lookup(v, k) == None
    {
      ScreenIs(us, i, batch, present, view, view, k);
      ViewIsExact(us, i, batch, present, view, k);
    }
    if forall u: Uid :: u in us ==> !Lingers(i, batch[u], u in present, view) {
      MapExtensional(s, v);
    }
  }

  // ---------------------------------------------------------------- the nick list of an IRC client

  function Nicks(view: View): multiset<string> {
    if view == map[] then multiset{}
    else
      var k := Least(view.Keys);
      multiset{view[k].nick} + Nicks(view - {k})
  }

  lemma {:induction false} NicksWithout(view: View, k: Uid)
    requires k in view
    ensures Nicks(view) == multiset{view[k].nick} + Nicks(view - {k})
  {
    var l: Uid := Least(view.Keys);
    if l != k {
      NicksWithout(view - {l}, k);
      assert view - {l} - {k} == view - {k} - {l} && (view - {k})[l] == view[l] && (view - {l})[k] == view[k];
      assert Least((view - {k}).Keys) == l;
      var x: multiset<string> := multiset{view[l].nick};
      var y: multiset<string> := multiset{view[k].nick};
      var rest := Nicks(view - {k} - {l});
      assert Nicks(view - {k}) == x + rest && Nicks(view - {l}) == y + rest;
      assert x + (y + rest) == y + (x + rest);
    }
  }

  function ListenOne(l: Line, nicks: multiset<string>): multiset<string> {
    match l
    case JoinLine(n) => nicks + multiset{n}
    case PartLine(n) => nicks - multiset{n}
    case NickLine(f, t) => if f in nicks then nicks - multiset{f} + multiset{t} else nicks
  }

  function Listen(ls: seq<Line>, nicks: multiset<string>): multiset<string> {
    if ls == [] then nicks else Listen(ls[1..], ListenOne(ls[0], nicks))
  }

  lemma {:induction false} ListenAppend(a: seq<Line>, b: seq<Line>, nicks: multiset<string>)
    ensures Listen(a + b, nicks) == Listen(b, Listen(a, nicks))
  {
    if a == [] {
      assert a + b == b;
    } else {
      assert (a + b)[0] == a[0] && (a + b)[1..] == a[1..] + b;
      ListenAppend(a[1..], b, ListenOne(a[0], nicks));
    }
  }

  // Removed from the view under another nick than the one shown.
  predicate Misnamed(i: Person, u: Person, inChan: bool, view: View) {
    u.uid in view && !(inChan && CanSee(i, u)) && view[u.uid].nick != u.nick
  }

  lemma NicksChanged(view: View, k: Uid, item: Item)
    ensures Nicks(view[k := item]) == multiset{item.nick} + Nicks(view - {k})
  {
    NicksWithout(view[k := item], k);
    assert view[k := item] - {k} == view - {k};
  }

  lemma PartExact(nicks: multiset<string>, rest: multiset<string>, was: string, nick: string)
    requires nicks == multiset{was} + rest
    ensures ListenOne(PartLine(nick), nicks) == rest <==> nick == was
  {
    if nick != was { assert ListenOne(PartLine(nick), nicks)[was] == rest[was] + 1; }
  }

  lemma PartAndNickExact(nicks: multiset<string>, rest: multiset<string>, was: string, nick: string)
    requires nicks == multiset{was} + rest && nick != was
    ensures ListenOne(NickLine(was, nick), ListenOne(PartLine(nick), nicks)) == rest <==> nick in nicks
  {
    var r := ListenOne(NickLine(was, nick), ListenOne(PartLine(nick), nicks));
    if nick in rest {
      assert r == rest;
    } else {
      assert r[nick] == 1 && rest[nick] == 0;
    }
  }

  lemma AwayExact(nicks: multiset<string>, rest: multiset<string>, was: string, nick: string, inChan: bool)
    requires nicks == multiset{was} + rest
    ensures Away(nicks, was, nick, inChan) == rest <==> (was != nick ==> inChan && nick in nicks)
  {
    if inChan && was != nick { PartAndNickExact(nicks, rest, was, nick); } else { PartExact(nicks, rest, was, nick); }
  }

  // What a client makes of a removal.
  function Away(nicks: multiset<string>, was: string, nick: string, inChan: bool): multiset<string> {
    var a := ListenOne(PartLine(nick), nicks);
    if inChan && was != nick then ListenOne(NickLine(was, nick), a) else a
  }

  lemma NickExact(rest: multiset<string>, was: string, nick: string)
    ensures ListenOne(NickLine(was, nick), multiset{was} + rest) == multiset{nick} + rest
  {
  }

  // The lines of one user, one after the other.
  lemma Heard(i: Person, u: Person, inChan: bool, view: View, nicks: multiset<string>)
    ensures var n := NeedsOf(i, u, inChan, view);
      var a := if n.add then ListenOne(JoinLine(u.nick), nicks) else nicks;
      var b := if n.remove then ListenOne(PartLine(u.nick), a) else a;
      Listen(Lines(i, u, inChan, view), nicks) == if n.cnick then ListenOne(NickLine(view[u.uid].nick, u.nick), b) else b
  {
    var n := NeedsOf(i, u, inChan, view);
    var x := if n.add then [JoinLine(u.nick)] else [];
    var y := if n.remove then [PartLine(u.nick)] else [];
    var z := if n.cnick then [NickLine(view[u.uid].nick, u.nick)] else [];
    ListenAppend(x + y, z, nicks);
    ListenAppend(x, y, nicks);
    ListenAtMostOne(x, nicks);
    ListenAtMostOne(y, Listen(x, nicks));
    ListenAtMostOne(z, Listen(y, Listen(x, nicks)));
  }

  lemma ListenAtMostOne(ls: seq<Line>, nicks: multiset<string>)
    requires |ls| <= 1
    ensures Listen(ls, nicks) == if ls == [] then nicks else ListenOne(ls[0], nicks)
  {
    if ls != [] { assert ls[1..] == []; }
  }

  lemma HeardRemoved(i: Person, u: Person, inChan: bool, view: View, nicks: multiset<string>)
    requires NeedsOf(i, u, inChan, view).remove
    ensures Listen(Lines(i, u, inChan, view), nicks) == Away(nicks, view[u.uid].nick, u.nick, inChan)
    ensures Refreshed(i, u, inChan, view) == view - {u.uid}
  {
    Heard(i, u, inChan, view, nicks);
  }

  // A user who goes out of view.
  lemma ListenRemoved(i: Person, u: Person, inChan: bool, view: View)
    requires NeedsOf(i, u, inChan, view).remove
    ensures Listen(Lines(i, u, inChan, view), Nicks(view)) == Nicks(Refreshed(i, u, inChan, view))
      <==> (view[u.uid].nick != u.nick ==> inChan && u.nick in Nicks(view))
  {
    var nicks, rest := Nicks(view), Nicks(view - {u.uid});
    HeardRemoved(i, u, inChan, view, nicks);
    NicksWithout(view, u.uid);
    AwayExact(nicks, rest, view[u.uid].nick, u.nick, inChan);
  }

  lemma HeardKept(i: Person, u: Person, inChan: bool, view: View, nicks: multiset<string>)
    requires !NeedsOf(i, u, inChan, view).remove
    ensures var n := NeedsOf(i, u, inChan, view);
      && Listen(Lines(i, u, inChan, view), nicks) ==
        (if n.add then ListenOne(JoinLine(u.nick), nicks)
         else if n.cnick then ListenOne(NickLine(view[u.uid].nick, u.nick), nicks) else nicks)
      && Refreshed(i, u, inChan, view) == (if n.add || n.cnick || n.cstatus then view[u.uid := ItemOf(u)] else view)
  {
    Heard(i, u, inChan, view, nicks);
  }

  lemma NicksAdded(view: View, k: Uid, item: Item)
    requires k !in view
    ensures Nicks(view[k := item]) == ListenOne(JoinLine(item.nick), Nicks(view))
  {
    NicksWithout(view[k := item], k);
    assert view[k := item] - {k} == view;
    JoinExact(Nicks(view), item.nick);
  }

  lemma JoinExact(nicks: multiset<string>, nick: string)
    ensures ListenOne(JoinLine(nick), nicks) == multiset{nick} + nicks
  {
  }

  lemma NicksRenamed(view: View, k: Uid, item: Item)
    requires k in view
    ensures Nicks(view[k := item]) == ListenOne(NickLine(view[k].nick, item.nick), Nicks(view))
  {
    NicksChanged(view, k, item);
    NicksWithout(view, k);
    NickExact(Nicks(view - {k}), view[k].nick, item.nick);
  }

  lemma SameNick(view: View, k: Uid, item: Item)
    requires k in view && view[k].nick == item.nick
    ensures Nicks(view[k := item]) == Nicks(view)
  {
    NicksChanged(view, k, item);
    NicksWithout(view, k);
  }

  lemma ListenKept(i: Person, u: Person, inChan: bool, view: View)
    requires !NeedsOf(i, u, inChan, view).remove
    ensures Listen(Lines(i, u, inChan, view), Nicks(view)) == Nicks(Refreshed(i, u, inChan, view))
  {
    var n := NeedsOf(i, u, inChan, view);
    HeardKept(i, u, inChan, view, Nicks(view));
    if n.add {
      NicksAdded(view, u.uid, ItemOf(u));
    } else if n.cnick {
      NicksRenamed(view, u.uid, ItemOf(u));
    } else if n.cstatus {
      SameNick(view, u.uid, ItemOf(u));
    }
  }

  // One user: the list stays right unless that user is removed under a new nick; and not even that harms
  // when the user is still in the channel and somebody else is listed under the new nick.
  lemma ListenExact(i: Person, u: Person, inChan: bool, view: View)
    ensures Listen(Lines(i, u, inChan, view), Nicks(view)) == Nicks(Refreshed(i, u, inChan, view))
      <==> (Misnamed(i, u, inChan, view) ==> inChan && u.nick in Nicks(view))
  {
    if NeedsOf(i, u, inChan, view).remove { ListenRemoved(i, u, inChan, view); } else { ListenKept(i, u, inChan, view); }
  }

  // What the lines of one user do to a list that is right before them: nothing bad.
  predicate Harmless(i: Person, u: Person, inChan: bool, view: View) {
    Misnamed(i, u, inChan, view) ==> inChan && u.nick in Nicks(view)
  }

  // So for every user of the batch, in the view as it has become.
  predicate AllHarmless(us: seq<Uid>, i: Person, batch: Batch, present: set<Uid>, view: View)
    requires AllIn(us, batch)
  {
    us == [] ||
    (Harmless(i, batch[us[0]], us[0] in present, view)
     && AllHarmless(us[1..], i, batch, present, Refreshed(i, batch[us[0]], us[0] in present, view)))
  }

  // The list is right after the lines of every user of the batch.
  predicate StaysRight(us: seq<Uid>, i: Person, batch: Batch, present: set<Uid>, view: View, nicks: multiset<string>)
    requires AllIn(us, batch)
  {
    nicks == Nicks(view) &&
    (us == [] ||
     StaysRight(us[1..], i, batch, present, Refreshed(i, batch[us[0]], us[0] in present, view),
                Listen(Lines(i, batch[us[0]], us[0] in present, view), nicks)))
  }

  // Over the batch the list stays right, user by user, if and only if nobody's lines do harm.
  lemma {:induction false} NickListExact(us: seq<Uid>, i: Person, batch: Batch, present: set<Uid>, view: View)
    requires AllIn(us, batch)
    ensures StaysRight(us, i, batch, present, view, Nicks(view)) <==> AllHarmless(us, i, batch, present, view)
    ensures AllHarmless(us, i, batch, present, view) ==>
      Listen(LinesAll(us, i, batch, present, view), Nicks(view)) == Nicks(RefreshAll(us, i, batch, present, view))
  {
    if us != [] {
      var b, inChan := batch[us[0]], us[0] in present;
      var view1 := Refreshed(i, b, inChan, view);
      ListenExact(i, b, inChan, view);
      ListenAppend(Lines(i, b, inChan, view), LinesAll(us[1..], i, batch, present, view1), Nicks(view));
      if Harmless(i, b, inChan, view) {
        NickListExact(us[1..], i, batch, present, view1);
      } else {
        NotRight(us[1..], i, batch, present, view1, Listen(Lines(i, b, inChan, view), Nicks(view)));
      }
    }
  }

  lemma NotRight(us: seq<Uid>, i: Person, batch: Batch, present: set<Uid>, view: View, nicks: multiset<string>)
    requires AllIn(us, batch) && nicks != Nicks(view)
    ensures !StaysRight(us, i, batch, present, view, nicks)
  {
  }

  // In particular if the removed users kept the nick last shown.
  lemma {:induction false} NickListIsRight(us: seq<Uid>, i: Person, batch: Batch, present: set<Uid>, view: View)
    requires AllIn(us, batch) && Keyed(batch) && NoDup(us)
    requires forall u: Uid :: u in us ==> !Misnamed(i, batch[u], u in present, view)
    ensures AllHarmless(us, i, batch, present, view)
    ensures Listen(LinesAll(us, i, batch, present, view), Nicks(view)) == Nicks(RefreshAll(us, i, batch, present, view))
  {
    if us != [] {
      var u := us[0];
      var b, inChan := batch[u], u in present;
      var view1 := Refreshed(i, b, inChan, view);
      assert us == [u] + us[1..];
      forall v: Uid | v in us[1..]
        ensures !Misnamed(i, batch[v], v in present, view1)
      {
        RefreshedLooks(i, b, inChan, view, v);
        assert v != u && Lookup(view1, v) == Lookup(view, v);
        assert !Misnamed(i, batch[v], v in present, view);
      }
      NickListIsRight(us[1..], i, batch, present, view1);
    }
    NickListExact(us, i, batch, present, view);
  }

  // ---------------------------------------------------------------- repair and rebuild

  predicate Occupies(z: Person, c: Chan) { c in z.channels && z.channels[c] != {} }

  predicate Shows(i: Person, z: Person, c: Chan) { Occupies(z, c) && CanSee(i, z) }

  // update_my_contact_list_nofix_www_list: from scratch, the observer included in any case.
  function Rebuilt(i: Person, users: Batch, c: Chan): View {
    (map u | u in users && Shows(i, users[u], c) :: ItemOf(users[u])) + map[i.uid := ItemOf(i)]
  }

  // update_my_contact_list_fix_www_list: entries appear and disappear, those that stay are not looked at.
  function Repaired(i: Person, users: Batch, c: Chan, view: View): View {
    map u | u in view.Keys + users.Keys && (if u in users then Shows(i, users[u], c) else true)
      :: if u in view then view[u] else ItemOf(users[u])
  }

  // The old view has only loaded users, or the observer; and the observer is in the channel, or is not
  // loaded and was there already.
  predicate Fit(i: Person, users: Batch, c: Chan, view: View) {
    && (forall u :: u in view ==> u in users || u == i.uid)
    && (if i.uid in users then Occupies(users[i.uid], c) else i.uid in view)
  }

  lemma RepairExact(i: Person, users: Batch, c: Chan, view: View)
    requires Keyed(users)
    ensures Repaired(i, users, c, view).Keys == Rebuilt(i, users, c).Keys <==> Fit(i, users, c, view)
  {
    var a, b := Repaired(i, users, c, view), Rebuilt(i, users, c);
    assert i.uid in b.Keys;
    forall u: Uid
      ensures u in a.Keys <==> (u in users && Shows(i, users[u], c)) || (u !in users && u in view)
      ensures u in b.Keys <==> (u in users && Shows(i, users[u], c)) || u == i.uid
    {
    }
    if Fit(i, users, c, view) {
      assert i.uid in a.Keys;
    }
    if a.Keys == b.Keys {
      forall u | u in view
        ensures u in users || u == i.uid
      {
        assert u in users || u in a.Keys;
      }
    }
  }

  // And the maps are the same when, besides, what the repair keeps or takes is up to date. The observer is shown
  // as the record of the client has it, which may be an older one than the loaded one.
  lemma RepairIsRebuild(i: Person, users: Batch, c: Chan, view: View)
    requires Keyed(users) && Fit(i, users, c, view)
    ensures Repaired(i, users, c, view) == Rebuilt(i, users, c) <==>
      forall u: Uid :: u in Rebuilt(i, users, c) ==>
        (if u in view then view[u] else ItemOf(users[u])) == (if u == i.uid then ItemOf(i) else ItemOf(users[u]))
  {
    RepairExact(i, users, c, view);
    var a, b := Repaired(i, users, c, view), Rebuilt(i, users, c);
    forall u: Uid | u in b
      ensures b[u] == (if u == i.uid then ItemOf(i) else ItemOf(users[u]))
      ensures u in a && a[u] == (if u in view then view[u] else ItemOf(users[u]))
    {
      assert u in b.Keys && u in a.Keys;
    }
    assert forall u: Uid :: u in a <==> u in a.Keys;
  }

  // Who is shown after a rebuild, said without the predicates above.
  lemma WhoIsRebuilt(i: Person, users: Batch, c: Chan, k: Uid)
    requires Keyed(users)
    ensures i.uid in Rebuilt(i, users, c)
    ensures k != i.uid ==> (k in Rebuilt(i, users, c) <==>
      k in users && c in users[k].channels && users[k].channels[c] != {}
      && !((users[k].status == 1 || users[k].status == 2) && users[k].invisibility > i.invisibility)
      && ((i.contactsOnly && k in i.contacts)
          || ((!i.hideMale || users[k].gender == 2) && (!i.hideFemale || users[k].gender == 1))))
  {
    assert k in users ==> users[k].uid == k;
  }

  // And after a repair: the same of the loaded users; an entry of a user who is not loaded stays.
  lemma WhoIsRepaired(i: Person, users: Batch, c: Chan, view: View, k: Uid)
    requires Keyed(users)
    ensures k !in users ==> (k in Repaired(i, users, c, view) <==> k in view)
    ensures k in users && k == i.uid ==>
      (k in Repaired(i, users, c, view) <==> c in users[k].channels && users[k].channels[c] != {})
    ensures k in users && k != i.uid ==> (k in Repaired(i, users, c, view) <==>
      c in users[k].channels && users[k].channels[c] != {}
      && !((users[k].status == 1 || users[k].status == 2) && users[k].invisibility > i.invisibility)
      && ((i.contactsOnly && k in i.contacts)
          || ((!i.hideMale || users[k].gender == 2) && (!i.hideFemale || users[k].gender == 1))))
    ensures k in view && k in Repaired(i, users, c, view) ==> Repaired(i, users, c, view)[k] == view[k]
  {
    assert k in users ==> users[k].uid == k;
    if k in users || k in view { assert k in view.Keys + users.Keys; }
  }
}
