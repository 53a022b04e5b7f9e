/**
The loops that keep every local client's view and send the changes, proved against module Roster. A window is
what one client has of one channel: its view, and what it was sent.
*/
module RosterBoard {
  import opened Options
  import opened Sequences
  import opened Ordered
  import opened Memberships
  import opened Roster
  import ChatIndex

  type Key = ChatIndex.Key

  datatype Window = Window(view: View, www: seq<Delta>, irc: seq<Line>)

  function WindowOf(ws: map<(Key, Chan), Window>, x: (Key, Chan)): Window {
    if x in ws then ws[x] else Window(map[], [], [])
  }

  // ---------------------------------------------------------------- the batch, in one window

  function RefreshedWindow(us: seq<Uid>, t: Client, i: Person, batch: Batch, present: set<Uid>, w: Window): Window
    requires AllIn(us, batch)
  {
    Window(RefreshAll(us, i, batch, present, w.view),
           if t == Www then w.www + DeltasAll(us, i, batch, present, w.view) else w.www,
           if t == Irc then w.irc + LinesAll(us, i, batch, present, w.view) else w.irc)
  }

  function RefreshedFor(t: Client, i: Person, u: Person, inChan: bool, w: Window): Window {
    Window(Refreshed(i, u, inChan, w.view),
           if t == Www then w.www + Deltas(i, u, inChan, w.view) else w.www,
           if t == Irc then w.irc + Lines(i, u, inChan, w.view) else w.irc)
  }

  lemma RefreshedStep(us: seq<Uid>, t: Client, i: Person, batch: Batch, present: set<Uid>, w: Window)
    requires AllIn(us, batch) && us != []
    ensures RefreshedWindow(us, t, i, batch, present, w)
      == RefreshedWindow(us[1..], t, i, batch, present, RefreshedFor(t, i, batch[us[0]], us[0] in present, w))
  {
    var u, inChan := batch[us[0]], us[0] in present;
    var view := Refreshed(i, u, inChan, w.view);
    Assoc(w.www, Deltas(i, u, inChan, w.view), DeltasAll(us[1..], i, batch, present, view));
    Assoc(w.irc, Lines(i, u, inChan, w.view), LinesAll(us[1..], i, batch, present, view));
  }

  // ---------------------------------------------------------------- the repair, in one window

  function RepairedFor(t: Client, i: Person, z: Person, c: Chan, w: Window): Window {
    var add, remove := Shows(i, z, c) && z.uid !in w.view, !Shows(i, z, c) && z.uid in w.view;
    Window(if add then w.view[z.uid := ItemOf(z)] else if remove then w.view - {z.uid} else w.view,
           if t == Www then w.www + RepairDelta(add, remove, z) else w.www,
           if t == Irc then w.irc + RepairLine(add, remove, z) else w.irc)
  }

  function RepairDelta(add: bool, remove: bool, z: Person): seq<Delta> {
    if add then [AddUser(z.uid, ItemOf(z))] else if remove then [DeleteUser(z.uid)] else []
  }

  function RepairLine(add: bool, remove: bool, z: Person): seq<Line> {
    if add then [JoinLine(z.nick)] else if remove then [PartLine(z.nick)] else []
  }

  function RepairedWindow(us: seq<Uid>, t: Client, i: Person, users: Batch, c: Chan, w: Window): Window
    requires AllIn(us, users)
  {
    if us == [] then w else RepairedWindow(us[1..], t, i, users, c, RepairedFor(t, i, users[us[0]], c, w))
  }

  lemma {:induction false} RepairedLooks(us: seq<Uid>, t: Client, i: Person, users: Batch, c: Chan, w: Window, k: Uid)
    requires AllIn(us, users) && Keyed(users) && NoDup(us)
    ensures Lookup(RepairedWindow(us, t, i, users, c, w).view, k) ==
      if k !in us then Lookup(w.view, k)
      else if !Shows(i, users[k], c) then None
      else if k in w.view then Some(w.view[k]) else Some(ItemOf(users[k]))
  {
    if us != [] {
      assert us == [us[0]] + us[1..];
      assert us[0] !in us[1..];
      RepairedLooks(us[1..], t, i, users, c, RepairedFor(t, i, users[us[0]], c, w), k);
    }
  }

  // The loop over all loaded users arrives at the repaired view.
  lemma RepairedWindowIs(t: Client, i: Person, users: Batch, c: Chan, w: Window)
    requires Keyed(users)
    ensures AllIn(Ascending(users.Keys), users)
    ensures RepairedWindow(Ascending(users.Keys), t, i, users, c, w).view == Repaired(i, users, c, w.view)
  {
    var us := Ascending(users.Keys);
    AllKeys(users);
    forall k: Uid
      ensures Lookup(RepairedWindow(us, t, i, users, c, w).view, k) == Lookup(Repaired(i, users, c, w.view), k)
    {
      RepairedLooks(us, t, i, users, c, w, k);
    }
    MapExtensional(RepairedWindow(us, t, i, users, c, w).view, Repaired(i, users, c, w.view));
  }

  lemma AllKeys(users: Batch)
    ensures AllIn(Ascending(users.Keys), users)
  {
    var us := Ascending(users.Keys);
    forall j | 0 <= j < |us|
      ensures us[j] in users
    {
      assert us[j] in us;
    }
  }

  // What a web client is sent during a repair brings its screen to the new view, whatever nicks changed.
  lemma {:induction false} RepairShows(us: seq<Uid>, i: Person, users: Batch, c: Chan, w: Window, screen: View)
    requires AllIn(us, users) && Show(w.www, screen) == w.view
    ensures var r := RepairedWindow(us, Www, i, users, c, w); Show(r.www, screen) == r.view && r.irc == w.irc
  {
    if us != [] {
      var z := users[us[0]];
      var r := RepairedFor(Www, i, z, c, w);
      var ds := r.www[|w.www|..];
      assert r.www == w.www + ds;
      ShowAppend(w.www, ds, screen);
      if ds != [] { assert ds[1..] == [] && Show(ds, w.view) == Show(ds[1..], ShowOne(ds[0], w.view)); }
      RepairShows(us[1..], i, users, c, r, screen);
    }
  }

  // What an IRC client hears of one user during a repair keeps its nick list right if and only if a user who is
  // removed has the nick that was shown.
  lemma RepairHeard(i: Person, z: Person, c: Chan, w: Window)
    ensures var r := RepairedFor(Irc, i, z, c, w);
      && |r.irc| >= |w.irc|
      && (Listen(r.irc[|w.irc|..], Nicks(w.view)) == Nicks(r.view) <==>
            (z.uid in w.view && !Shows(i, z, c) ==> w.view[z.uid].nick == z.nick))
  {
    var r := RepairedFor(Irc, i, z, c, w);
    var add, remove := Shows(i, z, c) && z.uid !in w.view, !Shows(i, z, c) && z.uid in w.view;
    var ls := RepairLine(add, remove, z);
    assert r.irc[|w.irc|..] == ls;
    ListenAtMostOne(ls, Nicks(w.view));
    if add {
      NicksAdded(w.view, z.uid, ItemOf(z));
    } else if remove {
      NicksWithout(w.view, z.uid);
      PartExact(Nicks(w.view), Nicks(w.view - {z.uid}), w.view[z.uid].nick, z.nick);
    }
  }

  lemma RepairedStepHeard(i: Person, z: Person, c: Chan, w: Window, nicks: multiset<string>)
    requires Listen(w.irc, nicks) == Nicks(w.view) && (z.uid in w.view ==> w.view[z.uid].nick == z.nick)
    ensures var r := RepairedFor(Irc, i, z, c, w); Listen(r.irc, nicks) == Nicks(r.view)
  {
    var r := RepairedFor(Irc, i, z, c, w);
    RepairHeard(i, z, c, w);
    assert r.irc == w.irc + r.irc[|w.irc|..];
    ListenAppend(w.irc, r.irc[|w.irc|..], nicks);
  }

  // The window shows these users under the nicks they have.
  predicate NicksAgree(us: seq<Uid>, users: Batch, view: View)
    requires AllIn(us, users)
  {
    forall j :: 0 <= j < |us| && us[j] in view ==> view[us[j]].nick == users[us[j]].nick
  }

  lemma NicksStillAgree(us: seq<Uid>, i: Person, users: Batch, c: Chan, w: Window)
    requires us != [] && AllIn(us, users) && Keyed(users) && NoDup(us) && NicksAgree(us, users, w.view)
    ensures NicksAgree(us[1..], users, RepairedFor(Irc, i, users[us[0]], c, w).view)
  {
    var v := RepairedFor(Irc, i, users[us[0]], c, w).view;
    forall j | 0 <= j < |us[1..]| && us[1..][j] in v
      ensures v[us[1..][j]].nick == users[us[1..][j]].nick
    {
      assert us[1..][j] == us[j + 1] != us[0];
    }
  }

  // Over the whole repair, if every loaded user that the window shows has the nick it is shown under.
  lemma {:induction false} RepairNicksAreRight(us: seq<Uid>, i: Person, users: Batch, c: Chan, w: Window, nicks: multiset<string>)
    requires AllIn(us, users) && Keyed(users) && NoDup(us) && Listen(w.irc, nicks) == Nicks(w.view)
    requires NicksAgree(us, users, w.view)
    ensures var r := RepairedWindow(us, Irc, i, users, c, w); Listen(r.irc, nicks) == Nicks(r.view) && r.www == w.www
  {
    if us != [] {
      NicksStillAgree(us, i, users, c, w);
      FirstAgrees(us, i, users, c, w, nicks);
      RepairNicksAreRight(us[1..], i, users, c, RepairedFor(Irc, i, users[us[0]], c, w), nicks);
    }
  }

  lemma FirstAgrees(us: seq<Uid>, i: Person, users: Batch, c: Chan, w: Window, nicks: multiset<string>)
    requires us != [] && AllIn(us, users) && Keyed(users) && NicksAgree(us, users, w.view) && Listen(w.irc, nicks) == Nicks(w.view)
    ensures var r := RepairedFor(Irc, i, users[us[0]], c, w); Listen(r.irc, nicks) == Nicks(r.view) && r.www == w.www
  {
    RepairedStepHeard(i, users[us[0]], c, w, nicks);
  }

  // ---------------------------------------------------------------- what each kind of client has been sent

  // A web client's messages bring its screen from view to view, exactly if nobody lingers; an IRC client's lines
  // bring its nick list along, if nobody's do harm; and neither is sent what is meant for the other.
  lemma WindowKeepsUp(us: seq<Uid>, t: Client, i: Person, batch: Batch, present: set<Uid>, w: Window, screen: View, nicks: multiset<string>)
    requires AllIn(us, batch) && Keyed(batch) && NoDup(us)
    ensures var r := RefreshedWindow(us, t, i, batch, present, w);
      && (t != Www ==> r.www == w.www) && (t != Irc ==> r.irc == w.irc)
      && (t == Www && Show(w.www, screen) == w.view ==>
            (Show(r.www, screen) == r.view <==> forall u: Uid :: u in us ==> !Lingers(i, batch[u], u in present, w.view)))
      && (t == Irc && Listen(w.irc, nicks) == Nicks(w.view) && AllHarmless(us, i, batch, present, w.view) ==>
            Listen(r.irc, nicks) == Nicks(r.view))
  {
    if t == Www {
      ShowAppend(w.www, DeltasAll(us, i, batch, present, w.view), screen);
      ScreenExact(us, i, batch, present, w.view);
    } else if t == Irc {
      ListenAppend(w.irc, LinesAll(us, i, batch, present, w.view), nicks);
      NickListExact(us, i, batch, present, w.view);
    }
  }

  // ---------------------------------------------------------------- the thread

  // The entry of u when the users in done have been looked at.
  function Scanned(i: Person, users: Batch, done: set<Uid>, c: Chan, u: Uid): Option<Item> {
    if u == i.uid then Some(ItemOf(i))
    else if u in users && u in done && Shows(i, users[u], c) then Some(ItemOf(users[u]))
    else None
  }

  lemma RebuiltIs(vu: View, i: Person, users: Batch, c: Chan)
    requires forall u: Uid :: Lookup(vu, u) == Scanned(i, users, users.Keys, c, u)
    ensures vu == Rebuilt(i, users, c)
  {
    forall u: Uid
      ensures Lookup(vu, u) == Lookup(Rebuilt(i, users, c), u)
    {
    }
    MapExtensional(vu, Rebuilt(i, users, c));
  }

  function PresentIn(users: Batch, c: Chan): set<Uid> {
    set u | u in users && Occupies(users[u], c)
  }

  // A window after its batch, with the channel as the loaded users have it: who is shown, said without the
  // predicates of module Roster.
  lemma WindowShows(t: Client, i: Person, users: Batch, batch: Batch, c: Chan, w: Window, k: Uid)
    requires Keyed(batch) && k in batch
    ensures AllIn(Ascending(batch.Keys), batch)
    ensures k == i.uid ==>
      (k in RefreshedWindow(Ascending(batch.Keys), t, i, batch, PresentIn(users, c), w).view <==>
         k in users && c in users[k].channels && users[k].channels[c] != {})
    ensures k != i.uid ==> (k in RefreshedWindow(Ascending(batch.Keys), t, i, batch, PresentIn(users, c), w).view <==>
      k in users && c in users[k].channels && users[k].channels[c] != {}
      && !((batch[k].status == 1 || batch[k].status == 2) && batch[k].invisibility > i.invisibility)
      && ((i.contactsOnly && k in i.contacts)
          || ((!i.hideMale || batch[k].gender == 2) && (!i.hideFemale || batch[k].gender == 1))))
  {
    AllKeys(batch);
    WhoIsShown(Ascending(batch.Keys), i, batch, PresentIn(users, c), w.view, k);
  }

  method WwwMessages(u: Person, add: bool, remove: bool, cnick: bool, cstatus: bool) returns (ds: seq<Delta>)
    ensures ds == (if add then [AddUser(u.uid, ItemOf(u))] else [])
      + (if remove then [DeleteUser(u.uid)] else [])
      + (if cstatus then [SetStatus(u.uid, u.status)] else [])
      + (if cnick then [DeleteUser(u.uid), AddUser(u.uid, ItemOf(u))] else [])
  {
    ds := [];
    if add { ds := ds + [AddUser(u.uid, ItemOf(u))]; }
    if remove { ds := ds + [DeleteUser(u.uid)]; }
    if cstatus { ds := ds + [SetStatus(u.uid, u.status)]; }
    if cnick { ds := ds + [DeleteUser(u.uid), AddUser(u.uid, ItemOf(u))]; }
  }

  method IrcMessages(u: Person, add: bool, remove: bool, cnick: bool, from: string) returns (ls: seq<Line>)
    ensures ls == (if add then [JoinLine(u.nick)] else [])
      + (if remove then [PartLine(u.nick)] else [])
      + (if cnick then [NickLine(from, u.nick)] else [])
  {
    ls := [];
    if add { ls := ls + [JoinLine(u.nick)]; }
    if remove { ls := ls + [PartLine(u.nick)]; }
    if cnick { ls := ls + [NickLine(from, u.nick)]; }
  }

  // The windows of these clients are those before, with the batch gone through.
  ghost predicate AllRefreshed(c: Chan, batch: Batch, present: set<Uid>, keys: set<Key>, records: map<Key, Person>,
                               was: map<(Key, Chan), Window>, now: map<(Key, Chan), Window>)
    requires AllIn(Ascending(batch.Keys), batch)
  {
    forall k: Key :: k in keys ==>
      k in records
      && WindowOf(now, (k, c)) == RefreshedWindow(Ascending(batch.Keys), k.1, records[k], batch, present, WindowOf(was, (k, c)))
  }

  class Board {
    var users: Batch
    var local: map<Chan, set<Key>>
    var records: map<Key, Person>      // what each client points at: its user's record, or an older one
    var windows: map<(Key, Chan), Window>

    ghost predicate Valid()
      reads this
    {
      Keyed(users) && forall c: Chan, k: Key :: k in ChatIndex.At(local, c) ==> k in records
    }

    // One client, one channel, one user of the batch.
    method RefreshUser(k: Key, i: Person, c: Chan, u: Person, inChan: bool)
      modifies this`windows
      ensures windows == old(windows)[(k, c) := RefreshedFor(k.1, i, u, inChan, WindowOf(old(windows), (k, c)))]
    {
      var w := WindowOf(windows, (k, c));
      var vu := w.view;
      var sees := u.uid in vu;
      var add, remove, cnick, cstatus, from := false, false, false, false, "";
      if inChan {
        var canSee := CanSee(i, u);
        if canSee && !sees { add := true; }
        if !canSee && sees { remove := true; }
      }
      if !inChan && sees { remove := true; }
      if inChan && sees {
        var item := vu[u.uid];
        if u.nick != item.nick {
          from := item.nick;
          vu := vu[u.uid := Item(u.status, u.nick)];
          cnick := true;
        } else if u.status != item.status {
          vu := vu[u.uid := item.(status := u.status)];
          cstatus := true;
        }
      }
      assert NeedsOf(i, u, inChan, w.view) == Needs(add, remove, cnick, cstatus);
      assert cnick ==> from == w.view[u.uid].nick;
      var www, irc := w.www, w.irc;
      if k.1 == Www {
        var ds := WwwMessages(u, add, remove, cnick, cstatus);
        www := www + ds;
      } else if k.1 == Irc {
        var ls := IrcMessages(u, add, remove, cnick, from);
        irc := irc + ls;
      }
      if add { vu := vu[u.uid := ItemOf(u)]; }
      if remove { vu := vu - {u.uid}; }
      windows := windows[(k, c) := Window(vu, www, irc)];
    }

    method RefreshClient(k: Key, i: Person, c: Chan, batch: Batch, present: set<Uid>)
      modifies this`windows
      ensures AllIn(Ascending(batch.Keys), batch)
      ensures WindowOf(windows, (k, c))
        == RefreshedWindow(Ascending(batch.Keys), k.1, i, batch, present, WindowOf(old(windows), (k, c)))
      ensures forall x :: x != (k, c) ==> WindowOf(windows, x) == WindowOf(old(windows), x)
    {
      AllKeys(batch);
      ghost var all := Ascending(batch.Keys);
      var us := Ascending(batch.Keys);
      while us != []
        invariant AllIn(us, batch) && AllIn(all, batch)
        invariant RefreshedWindow(us, k.1, i, batch, present, WindowOf(windows, (k, c)))
          == RefreshedWindow(all, k.1, i, batch, present, WindowOf(old(windows), (k, c)))
        invariant forall x :: x != (k, c) ==> WindowOf(windows, x) == WindowOf(old(windows), x)
      {
        var u := us[0];
        RefreshedStep(us, k.1, i, batch, present, WindowOf(windows, (k, c)));
        RefreshUser(k, i, c, batch[u], u in present);
        us := us[1..];
      }
      assert WindowOf(windows, (k, c)).www + [] == WindowOf(windows, (k, c)).www;
      assert WindowOf(windows, (k, c)).irc + [] == WindowOf(windows, (k, c)).irc;
    }

    // One channel of __update_contact_list_all.
    method RefreshChannel(c: Chan, batch: Batch)
      requires Valid()
      modifies this`windows
      ensures AllIn(Ascending(batch.Keys), batch)
      ensures AllRefreshed(c, batch, PresentIn(users, c), ChatIndex.At(local, c), records, old(windows), windows)
      ensures forall k: Key :: k !in ChatIndex.At(local, c) ==> WindowOf(windows, (k, c)) == WindowOf(old(windows), (k, c))
      ensures forall k: Key, d: Chan :: d != c ==> WindowOf(windows, (k, d)) == WindowOf(old(windows), (k, d))
    {
      AllKeys(batch);
      var present := PresentIn(users, c);
      var keys := ChatIndex.At(local, c);
      var todo := keys;
      while todo != {}
        invariant todo <= keys
        invariant AllRefreshed(c, batch, present, keys - todo, records, old(windows), windows)
        invariant forall k: Key :: k !in keys - todo ==> WindowOf(windows, (k, c)) == WindowOf(old(windows), (k, c))
        invariant forall k: Key, d: Chan :: d != c ==> WindowOf(windows, (k, d)) == WindowOf(old(windows), (k, d))
        decreases todo
      {
        var k := AnyOf(todo);
        todo := todo - {k};
        RefreshClient(k, records[k], c, batch, present);
      }
    }

    // update_my_contact_list_fix_www_list
    method RepairClient(k: Key, i: Person, c: Chan)
      requires Valid()
      modifies this`windows
      ensures AllIn(Ascending(users.Keys), users)
      ensures WindowOf(windows, (k, c)) ==
        RepairedWindow(Ascending(users.Keys), k.1, i, users, c, WindowOf(old(windows), (k, c)))
      ensures WindowOf(windows, (k, c)).view == Repaired(i, users, c, WindowOf(old(windows), (k, c)).view)
    {
      AllKeys(users);
      ghost var all := Ascending(users.Keys);
      var us := Ascending(users.Keys);
      while us != []
        invariant AllIn(us, users) && AllIn(all, users)
        invariant RepairedWindow(us, k.1, i, users, c, WindowOf(windows, (k, c)))
          == RepairedWindow(all, k.1, i, users, c, WindowOf(old(windows), (k, c)))
      {
        var z := users[us[0]];
        var w := WindowOf(windows, (k, c));
        var canSee := Occupies(z, c) && CanSee(i, z);
        var add, remove := canSee && z.uid !in w.view, !canSee && z.uid in w.view;
        if add { w := w.(view := w.view[z.uid := ItemOf(z)]); }
        if remove { w := w.(view := w.view - {z.uid}); }
        if k.1 == Www { w := w.(www := w.www + RepairDelta(add, remove, z)); }
        if k.1 == Irc { w := w.(irc := w.irc + RepairLine(add, remove, z)); }
        windows := windows[(k, c) := w];
        us := us[1..];
      }
      RepairedWindowIs(k.1, i, users, c, WindowOf(old(windows), (k, c)));
    }

    // update_my_contact_list_nofix_www_list
    method RebuildClient(k: Key, i: Person, c: Chan)
      requires Valid()
      modifies this`windows
      ensures WindowOf(windows, (k, c)) == WindowOf(old(windows), (k, c)).(view := Rebuilt(i, users, c))
    {
      var vu: View := map[i.uid := ItemOf(i)];
      var todo := users.Keys;
      while todo != {}
        invariant todo <= users.Keys && windows == old(windows)
        invariant forall u: Uid :: Lookup(vu, u) == Scanned(i, users, users.Keys - todo, c, u)
        decreases todo
      {
        var u := AnyOf(todo);
        ghost var done, was := users.Keys - todo, vu;
        assert Lookup(vu, u) == Scanned(i, users, done, c, u);
        todo := todo - {u};
        assert users.Keys - todo == done + {u};
        if Occupies(users[u], c) && CanSee(i, users[u]) && u !in vu { vu := vu[u := ItemOf(users[u])]; }
        forall v: Uid
          ensures Lookup(vu, v) == Scanned(i, users, done + {u}, c, v)
        {
          assert Lookup(was, v) == Scanned(i, users, done, c, v);
        }
      }
      RebuiltIs(vu, i, users, c);
      windows := windows[(k, c) := WindowOf(windows, (k, c)).(view := vu)];
    }
  }
}
