/**
What the handlers of NoteRuns mean for one note: the folder it goes to, the id it takes, what becomes of it
when it is moved, marked or deleted, and how much of that is still so when the log has been replayed.
*/
module NoteDelivery {
  import opened Options
  import opened Ordered
  import opened NoteBox
  import opened NoteReplay
  import opened NoteMailbox
  import opened NoteRouting
  import opened NoteRuns
  import opened NoteLog
  import NoteWorld

  // ---------------------------------------------------------------- where a note goes

  // y is x with one more message, filed in folder f under id m; everything else is as it was.
  ghost predicate OneMore(x: Box, y: Box, f: FolderId, m: MsgId, note: Head) {
    && m != 0 && m !in x.heads && m in y.heads && y.heads[m] == note.(id := m)
    && (forall n :: n in x.heads ==> n in y.heads && y.heads[n] == x.heads[n])
    && f in x.folders && y.folders == x.folders[f := x.folders[f].(msgs := x.folders[f].msgs + {m})]
  }

  lemma FiledAsOneMore(b: Box, f: FolderId, note: Head)
    requires f in b.folders
    ensures OneMore(b, Added(b, f, note), f, Numbered(b, note).id, note)
  {
    var m := Numbered(b, note).id;
    var b1 := b.(heads := b.heads[m := Numbered(b, note)]);
    assert m !in b.heads;
    assert Get(b1, f) == b.folders[f];
  }

  ghost predicate IsLast(f: FolderId, s: set<FolderId>) { f in s && forall g :: g in s ==> g <= f }

  // f is where a note of user k goes in mailbox b.
  ghost predicate GoesTo(b: Box, way: Way, k: Uid, f: FolderId) {
    f != 0 && IsLast(f, if exists g :: g in Naming(b, way, k) && g != 0 then Naming(b, way, k) else Naming(b, way, 0))
  }

  lemma RouteIsLast(b: Box, way: Way, z: Uid)
    ensures Route(b, way, z) != 0 <==> exists g :: g in Naming(b, way, z) && g != 0
    ensures Route(b, way, z) != 0 ==> IsLast(Route(b, way, z), Naming(b, way, z))
  {
  }

  lemma ReceiveFiles(way: Way, k: Uid, note: Head, b: Box)
    requires Route(b, way, 0) != 0
    ensures GoesTo(b, way, k, FolderFor(b, way, k))
    ensures OneMore(b, Added(b, FolderFor(b, way, k), note), FolderFor(b, way, k), Numbered(b, note).id, note)
  {
    RouteIsLast(b, way, k);
    RouteIsLast(b, way, 0);
    FiledAsOneMore(b, FolderFor(b, way, k), note);
  }

  // A note is refused exactly when no folder other than 0 holds the default key. Otherwise it goes, under an
  // unused id, to the last folder whose filter names the correspondent, and to the last default if none does.
  lemma ReceiveExact(way: Way, k: Uid, note: Head, b: Box) returns (f: FolderId, m: MsgId)
    ensures (forall d :: d in Naming(b, way, 0) ==> d == 0) ==>
      Act(Receive(way, k, note), b) == b && Logs(Receive(way, k, note), b) == []
    ensures (exists d :: d in Naming(b, way, 0) && d != 0) ==>
      && OneMore(b, Act(Receive(way, k, note), b), f, m, note) && Logs(Receive(way, k, note), b) == [SetHead(f, note.(id := m))]
      && GoesTo(b, way, k, f)
  {
    RouteIsLast(b, way, 0);
    f, m := FolderFor(b, way, k), Numbered(b, note).id;
    if Route(b, way, 0) != 0 { ReceiveFiles(way, k, note, b); }
  }

  // The one folder that names the correspondent gets the note.
  lemma NoteGoesToItsFolder(way: Way, k: Uid, note: Head, b: Box, f: FolderId, d: FolderId) returns (m: MsgId)
    requires OneNames(b, way, k) && f in Naming(b, way, k) && f != 0
    requires d in Naming(b, way, 0) && d != 0
    ensures OneMore(b, Act(Receive(way, k, note), b), f, m, note)
  {
    var last;
    last, m := ReceiveExact(way, k, note, b);
    assert last == f;
  }

  // A note of somebody no folder names goes to the one default folder.
  lemma NoteGoesToDefault(way: Way, k: Uid, note: Head, b: Box, d: FolderId) returns (m: MsgId)
    requires OneNames(b, way, 0) && d in Naming(b, way, 0) && d != 0
    requires forall g :: g in Naming(b, way, k) ==> g == 0
    ensures OneMore(b, Act(Receive(way, k, note), b), d, m, note)
  {
    var last;
    last, m := ReceiveExact(way, k, note, b);
    assert last == d;
  }

  // Sending a note on the two mailbox objects, by the people in it: it is refused unless both have a default
  // folder other than 0; otherwise it is one more message of the recipient, in the folder for the sender, and
  // the copy is one more message of the sender, in the folder for the recipient and marked as read.
  method SendAndFile(sender: Mailbox, recipient: Mailbox, from: Uid, to: Uid, note: Head, copy: bool, sort: nat, desc: bool)
    returns (ok: bool, ghost f: FolderId, ghost m: MsgId, ghost g: FolderId, ghost n: MsgId)
    requires sender.Tidy() && recipient.Tidy() && sender != recipient
    modifies sender, recipient
    ensures ok <==> (exists d :: d != 0 && d in Naming(old(sender.View()), Outgoing, 0))
                    && (exists d :: d != 0 && d in Naming(old(recipient.View()), Incoming, 0))
    ensures !ok ==> sender.View() == old(sender.View()) && recipient.View() == old(recipient.View())
    ensures ok ==> GoesTo(old(recipient.View()), Incoming, from, f)
                   && OneMore(old(recipient.View()), recipient.View(), f, m, note)
    ensures ok && copy ==> GoesTo(old(sender.View()), Outgoing, to, g)
                           && OneMore(old(sender.View()), sender.View(), g, n, note.(unread := false))
    ensures ok && !copy ==> sender.View() == old(sender.View())
  {
    ghost var b, v := sender.View(), recipient.View();
    RouteIsLast(b, Outgoing, 0);
    RouteIsLast(v, Incoming, 0);
    if Route(b, Outgoing, 0) != 0 { ReceiveFiles(Outgoing, to, note.(unread := false), b); }
    if Route(v, Incoming, 0) != 0 { ReceiveFiles(Incoming, from, note, v); }
    f, g := FolderFor(v, Incoming, from), FolderFor(b, Outgoing, to);
    m, n := Numbered(v, note).id, Numbered(b, note).id;
    var toCmds, fromCmds;
    ok, toCmds, fromCmds := SendNote(sender, recipient, from, to, note, copy, sort, desc);
  }

  // ---------------------------------------------------------------- "save filter"

  // Handlers that leave alone which folders receive the notes of user k: no filter is saved for him again, his
  // folder is not removed, and for the default key neither the settings page nor config repair is used.
  predicate LeavesAlone(h: Handler, b: Box, k: Uid, to: FolderId) {
    match h
    case MoveTo(uid, _, _, m, save) => save && m in b.heads ==> b.heads[m].toUid != uid || b.heads[m].fromUid != k
    case Discard(f) => f != to
    case Choose(way, _) => way == Outgoing || k != 0
    case Check(_, _) => k != 0
    case _ => true
  }

  function ActAll(hs: seq<Handler>, b: Box): Box { if hs == [] then b else ActAll(hs[1..], Act(hs[0], b)) }

  predicate LeaveAlone(hs: seq<Handler>, b: Box, k: Uid, to: FolderId) {
    hs == [] || (LeavesAlone(hs[0], b, k, to) && LeaveAlone(hs[1..], Act(hs[0], b), k, to))
  }

  lemma {:induction false} FilterStays(hs: seq<Handler>, b: Box, k: Uid, to: FolderId)
    requires Naming(b, Incoming, k) == {to} && LeaveAlone(hs, b, k, to)
    ensures Naming(ActAll(hs, b), Incoming, k) == {to}
  {
    if hs != [] {
      ActNaming(hs[0], b, Incoming, k);
      FilterStays(hs[1..], Act(hs[0], b), k, to);
    }
  }

  // A received note of user k is moved with "save filter": after any handlers that leave his filter alone his
  // next note is filed in the folder it was moved to, wherever his notes went before.
  lemma SavedFilterIsUsed(b: Box, uid: Uid, fold: FolderId, to: FolderId, m0: MsgId, hs: seq<Handler>, note: Head, d: FolderId)
    returns (m: MsgId)
    requires m0 in b.heads && b.heads[m0].toUid == uid && to != 0
    requires LeaveAlone(hs, Act(MoveTo(uid, fold, to, m0, true), b), b.heads[m0].fromUid, to)
    requires d != 0 && d in Naming(ActAll(hs, Act(MoveTo(uid, fold, to, m0, true), b)), Incoming, 0)
    ensures var x := ActAll(hs, Act(MoveTo(uid, fold, to, m0, true), b));
      OneMore(x, Act(Receive(Incoming, b.heads[m0].fromUid, note), x), to, m, note)
  {
    var k, b1 := b.heads[m0].fromUid, Act(MoveTo(uid, fold, to, m0, true), b);
    ActNaming(MoveTo(uid, fold, to, m0, true), b, Incoming, k);
    FilterStays(hs, b1, k, to);
    m := NoteGoesToItsFolder(Incoming, k, note, ActAll(hs, b1), to, d);
  }

  // Two handlers in a row on the mailbox object: what is moved with "save filter" decides where the next note
  // of the same user goes.
  method MoveThenReceive(mb: Mailbox, uid: Uid, fold: FolderId, to: FolderId, m0: MsgId, note: Head, sort: nat, desc: bool)
    returns (ghost m: MsgId)
    requires mb.Tidy() && m0 in mb.heads && mb.heads[m0].toUid == uid && to != 0
    modifies mb
    ensures mb.Tidy()
    ensures old(mb.heads)[m0].fromUid != 0 && (exists d :: d in old(mb.folders) && d != 0 && 0 in old(mb.folders)[d].filterIn) ==>
      to in mb.folders && m in mb.folders[to].msgs && m !in old(mb.heads) && m in mb.heads && mb.heads[m] == note.(id := m)
  {
    ghost var b := mb.View();
    assert b.heads == mb.heads;
    var k := mb.heads[m0].fromUid;
    ghost var d := SomeDefault(mb.folders, mb.heads);
    m := MoveReceiveFiles(b, uid, fold, to, m0, note, d);
    var _ := Handle(mb, MoveTo(uid, fold, to, m0, true), sort, desc);
    var _ := Handle(mb, Receive(Incoming, k, note), sort, desc);
    assert mb.View().heads == mb.heads;
    mb.ViewAt(to);
  }

  lemma SomeDefault(folders: map<FolderId, Shelf>, heads: map<MsgId, Head>) returns (d: FolderId)
    ensures (exists f :: f in folders && f != 0 && 0 in folders[f].filterIn) ==> d != 0 && d in Naming(BoxOf(folders, heads), Incoming, 0)
  {
    d := 0;
    if f :| f in folders && f != 0 && 0 in folders[f].filterIn { d := f; }
  }

  lemma MoveReceiveFiles(b: Box, uid: Uid, fold: FolderId, to: FolderId, m0: MsgId, note: Head, d: FolderId) returns (m: MsgId)
    requires m0 in b.heads && b.heads[m0].toUid == uid && to != 0
    ensures b.heads[m0].fromUid != 0 && d != 0 && d in Naming(b, Incoming, 0) ==>
      var x := Act(MoveTo(uid, fold, to, m0, true), b);
      x.heads == b.heads && OneMore(x, Act(Receive(Incoming, b.heads[m0].fromUid, note), x), to, m, note)
  {
    m := 0;
    if b.heads[m0].fromUid != 0 && d != 0 && d in Naming(b, Incoming, 0) {
      ActNaming(MoveTo(uid, fold, to, m0, true), b, Incoming, 0);
      MoveKeepsHeads(uid, fold, to, m0, true, b);
      assert ActAll([], Act(MoveTo(uid, fold, to, m0, true), b)) == Act(MoveTo(uid, fold, to, m0, true), b);
      m := SavedFilterIsUsed(b, uid, fold, to, m0, [], note, d);
    }
  }

  lemma MoveKeepsHeads(uid: Uid, fold: FolderId, to: FolderId, m: MsgId, save: bool, b: Box)
    ensures Act(MoveTo(uid, fold, to, m, save), b).heads == b.heads
  {
  }

  // Which filters a move saves, for every folder and key: the recipient's for the sender's notes, the sender's
  // for notes to a recipient who is not 0, and otherwise none.
  lemma MoveSaves(uid: Uid, fold: FolderId, to: FolderId, m: MsgId, save: bool, b: Box, way: Way, k: Uid)
    requires m in b.heads
    ensures var h := b.heads[m];
      Naming(Act(MoveTo(uid, fold, to, m, save), b), way, k) ==
        if save && way == Incoming && h.toUid == uid && k == h.fromUid then {to}
        else if save && way == Outgoing && h.fromUid == uid && h.toUid != 0 && k == h.toUid then {to}
        else Naming(b, way, k)
  {
    ActNaming(MoveTo(uid, fold, to, m, save), b, way, k);
  }

  // ---------------------------------------------------------------- the default folder

  // Where there is one default, the settings page makes the chosen folder the only one and touches no other
  // key; from then on it gets the notes of everybody whom no folder names.
  lemma ChosenGetsTheRest(way: Way, dest: FolderId, b: Box, k: Uid, note: Head) returns (m: MsgId)
    requires OneNames(b, way, 0) && Naming(b, way, 0) != {} && dest in b.folders && dest != 0
    ensures var x := Act(Choose(way, dest), b);
      && (forall w: Way, z: Uid :: Naming(x, w, z) == if w == way && z == 0 then {dest} else Naming(b, w, z))
      && (k == 0 || (forall g :: g in Naming(b, way, k) ==> g == 0) ==> OneMore(x, Act(Receive(way, k, note), x), dest, m, note))
  {
    var x := Act(Choose(way, dest), b);
    forall w: Way, z: Uid
      ensures Naming(x, w, z) == if w == way && z == 0 then {dest} else Naming(b, w, z)
    {
      ActNaming(Choose(way, dest), b, w, z);
      var d :| d in Naming(b, way, 0);
      assert Naming(b, way, 0) == {d};
      if d == dest { assert OtherDefaults(b, way, dest) == {}; } else { assert OtherDefaults(b, way, dest) == {d}; }
    }
    var last;
    last, m := ReceiveExact(way, k, note, x);
    assert dest in Naming(x, way, 0);
  }

  // ---------------------------------------------------------------- marks, folders, repair

  // Who is not the recipient marks nothing. Otherwise the message is no longer unread, and its status moves on
  // only from the one it should have; no other message changes, and the replay does the same.
  lemma MarkExact(r: Option<Uid>, m: MsgId, was: nat, becomes: nat, b: Box)
    ensures var h, y := Mark(r, m, was, becomes), Act(Mark(r, m, was, becomes), b);
      && ApplyAll(Logs(h, b), b) == y && ApplyAll(Logs(h, b), y) == y
      && y.folders == b.folders && y.heads.Keys == b.heads.Keys
      && (forall n :: n in b.heads && n != m ==> y.heads[n] == b.heads[n])
      && (m !in b.heads || (r.Some? && b.heads[m].toUid != r.value) ==> y == b && Logs(h, b) == [])
      && (m in b.heads && (r == None || b.heads[m].toUid == r.value) ==>
            y.heads[m] == b.heads[m].(unread := false, status := if b.heads[m].status == was then becomes else b.heads[m].status))
  {
    MarkRepeated(r, m, was, becomes, b);
    MarkedStays(r, m, was, becomes, b);
  }

  lemma MarkedStays(r: Option<Uid>, m: MsgId, was: nat, becomes: nat, b: Box)
    ensures var y := Act(Mark(r, m, was, becomes), b); ApplyAll(Logs(Mark(r, m, was, becomes), b), y) == y
  {
    var h, y := Mark(r, m, was, becomes), Act(Mark(r, m, was, becomes), b);
    if Logs(h, b) == [SetUnread(m), SetStatus(m, becomes)] {
      ApplyTwo(SetUnread(m), SetStatus(m, becomes), y);
      assert y.heads[m := y.heads[m]] == y.heads;
    } else if Logs(h, b) == [SetUnread(m)] {
      ApplyOne(SetUnread(m), y);
      assert y.heads[m := y.heads[m]] == y.heads;
    }
  }

  // A new folder takes an unused number and the first thirty characters of its name.
  lemma NewFolderIsNew(name: string, b: Box) returns (f: FolderId)
    ensures f != 0 && f !in b.folders
    ensures Act(NewFolder(name), b) == b.(folders := b.folders[f := Folder(if |name| <= 30 then name else name[..30], {}, {}, {})])
    ensures ApplyAll(Logs(NewFolder(name), b), b) == Act(NewFolder(name), b)
  {
    f := NextId(b.folders.Keys);
    FolderRepeated(NewFolder(name), b);
  }

  // A folder that is there gets the first thirty characters as its name, now and in the replay; nothing else changes.
  lemma RenameExact(f: FolderId, name: string, b: Box)
    ensures var y, h := Act(Retitle(f, name), b), Retitle(f, name);
      && (f !in b.folders ==> y == b)
      && (f in b.folders ==>
            var x := b.folders[f];
            && y == b.(folders := b.folders[f := Folder(if |name| <= 30 then name else name[..30], x.filterIn, x.filterOut, x.msgs)])
            && ApplyAll(Logs(h, b), b) == y)
  {
    if f in b.folders { FolderRepeated(Retitle(f, name), b); }
  }

  // A folder with messages stays, and nothing is logged; any other is gone, and nothing else.
  lemma OnlyEmptyFoldersGo(f: FolderId, b: Box)
    ensures (exists m :: f in b.folders && m in b.folders[f].msgs) ==> Act(Discard(f), b) == b && Logs(Discard(f), b) == []
    ensures (f in b.folders ==> b.folders[f].msgs == {}) ==>
      Act(Discard(f), b) == b.(folders := b.folders - {f}) && ApplyAll(Logs(Discard(f), b), b) == Act(Discard(f), b)
  {
    FolderRepeated(Discard(f), b);
  }

  // Config repair drops the heads of messages no folder lists, and only those; the folders stay as they are,
  // joined by at most an empty one for each default that is not there.
  lemma RepairExact(i: string, o: string, b: Box)
    ensures var y := Act(Check(i, o), b);
      && (forall m :: m in y.heads <==> m in b.heads && exists f :: f in b.folders && m in b.folders[f].msgs)
      && (forall m :: m in y.heads ==> y.heads[m] == b.heads[m])
      && (forall f :: f in b.folders ==> f in y.folders && y.folders[f] == b.folders[f])
      && (forall f :: f in y.folders && f !in b.folders ==> y.folders[f] == Folder(i, {0}, {}, {}) || y.folders[f] == Folder(o, {}, {0}, {}))
      && ((exists f, g :: f in b.folders && g in b.folders && f != 0 && g != 0 && 0 in b.folders[f].filterIn && 0 in b.folders[g].filterOut) ==>
            y.folders == b.folders)
  {
    var b1 := WithDefault(b, Incoming, i);
    var b2 := WithDefault(b1, Outgoing, o);
    DefaultAdds(b, Incoming, i);
    DefaultAdds(b1, Outgoing, o);
    OtherWayUnchanged(b, i);
    RouteIsLast(b, Incoming, 0);
    RouteIsLast(b, Outgoing, 0);
    if f, g :| f in b.folders && g in b.folders && f != 0 && g != 0 && 0 in b.folders[f].filterIn && 0 in b.folders[g].filterOut {
      assert f in Naming(b, Incoming, 0) && g in Naming(b, Outgoing, 0);
    }
    forall m: MsgId
      ensures m in Filed(b2) <==> exists f :: f in b.folders && m in b.folders[f].msgs
    {
      NoteWorld.FiledSomewhere(b, m);
    }
  }

  lemma DefaultAdds(b: Box, way: Way, name: string)
    ensures var y := WithDefault(b, way, name);
      && y.heads == b.heads && Filed(y) == Filed(b)
      && (forall f :: f in b.folders ==> f in y.folders && y.folders[f] == b.folders[f])
      && (forall f :: f in y.folders && f !in b.folders ==>
            y.folders[f] == if way.Incoming? then Folder(name, {0}, {}, {}) else Folder(name, {}, {0}, {}))
      && (Route(b, way, 0) != 0 ==> y == b)
  {
    var y, f := WithDefault(b, way, name), NextId(b.folders.Keys);
    assert f !in b.folders;
    forall m
      ensures m in Filed(y) <==> m in Filed(b)
    {
      if m in Filed(b) {
        var g :| g in b.folders && m in b.folders[g].msgs;
        assert g in y.folders && m in y.folders[g].msgs;
      }
    }
  }
}
