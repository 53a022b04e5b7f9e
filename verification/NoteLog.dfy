/**
What the replayed log makes of one handler: the same as the handler made of the cache, except that only the
log files a moved message again and only the log drops the head of a deleted one.
*/
module NoteLog {
  import opened Options
  import opened Ordered
  import opened NoteBox
  import opened NoteReplay
  import opened NoteMailbox
  import opened NoteOrder
  import opened NoteRouting
  import opened NoteRuns
  import NoteWorld

  lemma {:induction false} ApplyJoined(cs: seq<Cmd>, ds: seq<Cmd>, b: Box)
    ensures ApplyAll(cs + ds, b) == ApplyAll(ds, ApplyAll(cs, b))
  {
    if cs == [] {
      assert cs + ds == ds;
    } else {
      assert (cs + ds)[1..] == cs[1..] + ds;
      ApplyJoined(cs[1..], ds, Apply(cs[0], b));
    }
  }

  lemma ApplyOne(c: Cmd, b: Box)
    ensures ApplyAll([c], b) == Apply(c, b)
  {
    assert [c][1..] == [];
  }

  lemma ApplyTwo(c: Cmd, d: Cmd, b: Box)
    ensures ApplyAll([c, d], b) == Apply(d, Apply(c, b))
  {
    assert [c, d][1..] == [d];
    ApplyOne(d, Apply(c, b));
  }

  // ---------------------------------------------------------------- handlers the log repeats

  lemma MarkRepeated(r: Option<Uid>, m: MsgId, was: nat, becomes: nat, b: Box)
    ensures ApplyAll(Logs(Mark(r, m, was, becomes), b), b) == Act(Mark(r, m, was, becomes), b)
  {
    if NoteMailbox.Mine(b.heads, r, m) {
      MarkedInSteps(b.heads, r, m, was, becomes);
      if b.heads[m].status == was {
        assert Logs(Mark(r, m, was, becomes), b) == [SetUnread(m), SetStatus(m, becomes)];
        ApplyTwo(SetUnread(m), SetStatus(m, becomes), b);
      } else {
        assert Logs(Mark(r, m, was, becomes), b) == [SetUnread(m)];
        ApplyOne(SetUnread(m), b);
      }
    }
  }

  lemma ChooseRepeated(way: Way, dest: FolderId, b: Box)
    ensures ApplyAll(Logs(Choose(way, dest), b), b) == Act(Choose(way, dest), b)
  {
    var others := OtherDefaults(b, way, dest);
    if others != {} { ApplyTwo(Log(DropEdit(way, Least(others), 0)), Log(PutEdit(way, dest, 0)), b); }
  }

  lemma DefaultRepeated(b: Box, way: Way, name: string)
    ensures ApplyAll(DefaultCmds(b, way, name), b) == WithDefault(b, way, name)
    ensures Closed(b) ==> Closed(WithDefault(b, way, name))
  {
    if Route(b, way, 0) == 0 {
      var f := NextId(b.folders.Keys);
      PutInNewFolder(b, way, f, name);
      ApplyTwo(FolderCreate(f, name), Log(PutEdit(way, f, 0)), b);
    }
  }

  lemma OrphanDropped(b: Box, m: MsgId)
    requires Closed(b) && m !in Filed(b)
    ensures Apply(Remove(m), b) == b.(heads := b.heads - {m}) && Closed(b.(heads := b.heads - {m}))
    ensures Filed(b.(heads := b.heads - {m})) == Filed(b)
  {
    RemoveHeads(m, b);
    NoteWorld.UnfileNothing(b, m);
  }

  lemma {:induction false} OrphansDropped(ms: seq<MsgId>, b: Box)
    requires Closed(b) && forall m :: m in ms ==> m !in Filed(b)
    ensures ApplyAll(OrphanCmds(ms), b) == b.(heads := b.heads - Ids(ms))
  {
    if ms == [] {
      assert b.heads - Ids(ms) == b.heads;
    } else {
      OrphanDropped(b, ms[0]);
      OrphansDropped(ms[1..], b.(heads := b.heads - {ms[0]}));
      assert b.heads - {ms[0]} - Ids(ms[1..]) == b.heads - Ids(ms);
      assert OrphanCmds(ms)[1..] == OrphanCmds(ms[1..]);
    }
  }

  lemma OrphansRepeated(b: Box)
    requires Closed(b)
    ensures ApplyAll(OrphanCmds(Orphans(b)), b) == DropOrphans(b)
  {
    OrphansDropped(Orphans(b), b);
    assert Ids(Orphans(b)) == b.heads.Keys - Filed(b);
    assert b.heads - Ids(Orphans(b)) == DropOrphans(b).heads;
  }

  lemma JoinedTo(cs: seq<Cmd>, ds: seq<Cmd>, b: Box, x: Box, y: Box)
    requires ApplyAll(cs, b) == x && ApplyAll(ds, x) == y
    ensures ApplyAll(cs + ds, b) == y
  {
    ApplyJoined(cs, ds, b);
  }

  lemma CheckRepeated(i: string, o: string, b: Box)
    requires Closed(b)
    ensures ApplyAll(CheckCmds(b, i, o), b) == CheckEffect(b, i, o)
  {
    var b1 := WithDefault(b, Incoming, i);
    var b2 := WithDefault(b1, Outgoing, o);
    var cs, ds, os := DefaultCmds(b, Incoming, i), DefaultCmds(b1, Outgoing, o), OrphanCmds(Orphans(b2));
    DefaultRepeated(b, Incoming, i);
    DefaultRepeated(b1, Outgoing, o);
    OrphansRepeated(b2);
    JoinedTo(cs, ds, b, b1, b2);
    JoinedTo(cs + ds, os, b, b2, DropOrphans(b2));
  }

  lemma FolderRepeated(h: Handler, b: Box)
    requires h.NewFolder? || h.Discard? || (h.Retitle? && h.fid in b.folders)
    ensures ApplyAll(Logs(h, b), b) == Act(h, b)
  {
    if h.NewFolder? { assert NextId(b.folders.Keys) !in b.folders; }
    if Logs(h, b) != [] { ApplyOne(Logs(h, b)[0], b); }
  }

  // Replaying what these handlers logged gives what they did.
  lemma LogRepeatsHandler(h: Handler, b: Box)
    requires Closed(b) && !h.MoveTo? && !h.Delete? && (h.Retitle? ==> h.fid in b.folders)
    ensures ApplyAll(Logs(h, b), b) == Act(h, b)
  {
    match h
    case Mark(r, m, was, becomes) => MarkRepeated(r, m, was, becomes, b);
    case Choose(way, dest) => ChooseRepeated(way, dest, b);
    case Check(i, o) => CheckRepeated(i, o, b);
    case Receive(way, other, note) =>
      if Route(b, way, 0) != 0 {
        var f := FolderFor(b, way, other);
        EagerClosed(Deliver(f, Numbered(b, note)), b);
        ApplyOne(SetHead(f, Numbered(b, note)), b);
      }
    case _ => FolderRepeated(h, b);
  }

  // Renaming a folder that is not there changes no folder now and creates one in the replay.
  lemma LostRename(f: FolderId, name: string, b: Box)
    requires f !in b.folders
    ensures Act(Retitle(f, name), b) == b && f in ApplyAll(Logs(Retitle(f, name), b), b).folders
  {
    ApplyOne(FolderRename(f, Cut(name)), b);
  }

  // ---------------------------------------------------------------- a moved message

  // y is x, or x without key z in the filter of folder f.
  ghost predicate AtMostDropped(x: Box, y: Box, way: Way, f: FolderId, z: Uid) { y == x || y == DropFilter(x, way, f, z) }

  lemma DropReplayed(g: FolderId, x: Box, y: Box, way: Way, f: FolderId, z: Uid)
    requires Naming(x, way, z) == {f} && g in x.folders && AtMostDropped(x, y, way, f, z)
    ensures AtMostDropped(x, Apply(Log(DropEdit(way, g, z)), y), way, f, z)
  {
    var v := Apply(Log(DropEdit(way, g, z)), y);
    assert v == DropFilter(y, way, g, z) && g in y.folders;
    assert Filter(DropFilter(x, way, f, z).folders[f], way) - {z} == Filter(x.folders[f], way) - {z};
    if g == f {
      assert v.folders == DropFilter(x, way, f, z).folders;
    } else {
      assert g !in Naming(x, way, z);
      assert Filter(y.folders[g], way) - {z} == Filter(y.folders[g], way);
      assert WithFilter(y.folders[g], way, Filter(y.folders[g], way) - {z}) == y.folders[g];
      assert v.folders == y.folders;
    }
  }

  lemma {:induction false} DropsReplayed(b: Box, fs: seq<FolderId>, x: Box, y: Box, way: Way, f: FolderId, z: Uid)
    requires Naming(x, way, z) == {f} && (forall g :: g in fs ==> g in x.folders) && AtMostDropped(x, y, way, f, z)
    ensures AtMostDropped(x, ApplyAll(DropCmds(b, way, z, fs), y), way, f, z)
  {
    if fs != [] {
      var c := Log(DropEdit(way, fs[0], z));
      if Names(b, way, z, fs[0]) {
        DropReplayed(fs[0], x, y, way, f, z);
        DropsReplayed(b, fs[1..], x, Apply(c, y), way, f, z);
        ApplyJoined([c], DropCmds(b, way, z, fs[1..]), y);
        ApplyOne(c, y);
      } else {
        assert DropCmds(b, way, z, fs) == DropCmds(b, way, z, fs[1..]);
        DropsReplayed(b, fs[1..], x, y, way, f, z);
      }
    }
  }

  lemma PutReplayed(x: Box, y: Box, way: Way, f: FolderId, z: Uid)
    requires Naming(x, way, z) == {f} && AtMostDropped(x, y, way, f, z)
    ensures Apply(Log(PutEdit(way, f, z)), y) == x
  {
    assert f in Naming(x, way, z);
    assert Apply(Log(PutEdit(way, f, z)), y) == PutFilter(y, way, f, z);
    assert Filter(y.folders[f], way) + {z} == Filter(x.folders[f], way);
    assert WithFilter(y.folders[f], way, Filter(x.folders[f], way)) == x.folders[f];
    assert PutFilter(y, way, f, z).folders == x.folders;
  }

  // Where a filter already names z in f alone, replaying that it should changes nothing.
  lemma RedirectReplayed(b: Box, x: Box, way: Way, f: FolderId, z: Uid)
    requires Naming(x, way, z) == {f} && b.folders.Keys <= x.folders.Keys
    ensures ApplyAll(RedirectCmds(b, way, f, z), x) == x
  {
    var fs, put := Ascending(b.folders.Keys), Log(PutEdit(way, f, z));
    DropsReplayed(b, fs, x, x, way, f, z);
    var y := ApplyAll(DropCmds(b, way, z, fs), x);
    ApplyJoined(DropCmds(b, way, z, fs), [put], x);
    ApplyOne(put, y);
    PutReplayed(x, y, way, f, z);
  }

  lemma SaveKeepsKeys(b: Box, uid: Uid, f: FolderId, h: Head)
    ensures b.folders.Keys <= SaveOut(b, uid, f, h).folders.Keys <= SaveEffect(b, uid, f, h).folders.Keys
  {
  }

  lemma SaveReplayed(b: Box, x: Box, uid: Uid, f: FolderId, h: Head)
    requires SaveEffect(b, uid, f, h).folders.Keys <= x.folders.Keys
    requires SavesOut(uid, h) ==> Naming(x, Outgoing, h.toUid) == {f}
    requires h.toUid == uid ==> Naming(x, Incoming, h.fromUid) == {f}
    ensures ApplyAll(SaveCmds(b, uid, f, h), x) == x
  {
    var b1 := SaveOut(b, uid, f, h);
    SaveKeepsKeys(b, uid, f, h);
    if SavesOut(uid, h) { RedirectReplayed(b, x, Outgoing, f, h.toUid); }
    if h.toUid == uid { RedirectReplayed(b1, x, Incoming, f, h.fromUid); }
    ApplyJoined(SaveOutCmds(b, uid, f, h), SaveInCmds(b1, uid, f, h), x);
  }

  lemma FileInNaming(b: Box, f: FolderId, m: MsgId, w: Way, k: Uid)
    ensures Naming(FileIn(b, f, m), w, k) == Naming(b, w, k)
  {
  }

  lemma MoveReplayed(b: Box, y: Box, m: MsgId, fold: FolderId, to: FolderId)
    requires Closed(b) && m in b.heads && y.heads == b.heads
    requires forall f :: Get(y, f).msgs == Get(b, f).msgs - (if f == fold then {m} else {})
    requires fold in y.folders
    ensures Apply(Move(m, fold, to), y) == FileIn(y, to, m)
  {
    assert forall f :: f in y.folders ==> Get(y, f) == y.folders[f];
    assert forall f :: f in b.folders ==> Get(b, f) == b.folders[f];
    assert Get(y, fold).msgs - {m} == Get(y, fold).msgs;
    assert TakeFrom(y, fold, m).folders == y.folders;
    var z := FileIn(y, to, m);
    forall f, n | f in z.folders && n in z.folders[f].msgs
      ensures n in z.heads
    {
      if n != m { assert n in Get(y, f).msgs; }
    }
    ResortClosed(z);
  }

  lemma MoveMsgs(b: Box, uid: Uid, fold: FolderId, to: FolderId, m: MsgId, save: bool)
    requires m in b.heads
    ensures var y := MoveEffect(b, uid, fold, to, m, save);
      y.heads == b.heads && fold in y.folders && forall f :: Get(y, f).msgs == Get(b, f).msgs - (if f == fold then {m} else {})
  {
  }

  // What move_message leaves, with its own log replayed: the message is in the folder it was moved to, and
  // nothing else has changed since, whatever the filters were and whether they were saved.
  lemma MovedMessageArrives(b: Box, uid: Uid, fold: FolderId, to: FolderId, m: MsgId, save: bool)
    requires Closed(b) && m in b.heads
    ensures var h := MoveTo(uid, fold, to, m, save);
      ApplyAll(Logs(h, b), Act(h, b)) == FileIn(Act(h, b), to, m)
  {
    var h, b1, head := MoveTo(uid, fold, to, m, save), TakeFrom(b, fold, m), b.heads[m];
    var y := Act(h, b);
    var x := FileIn(y, to, m);
    MoveMsgs(b, uid, fold, to, m, save);
    MoveReplayed(b, y, m, fold, to);
    var cmds := if save then SaveCmds(b1, uid, to, head) else [];
    ApplyJoined([Move(m, fold, to)], cmds, y);
    ApplyOne(Move(m, fold, to), y);
    if save {
      ActNaming(h, b, Outgoing, head.toUid);
      ActNaming(h, b, Incoming, head.fromUid);
      FileInNaming(y, to, m, Outgoing, head.toUid);
      FileInNaming(y, to, m, Incoming, head.fromUid);
      SaveReplayed(b1, x, uid, to, head);
    }
  }

  // In plain words: the handler takes the message out of the one folder at once; after the replay it is listed by
  // the target, by no folder it was taken from, and by whoever else listed it before. No other message moves.
  lemma MovedMessageIsThere(b: Box, uid: Uid, fold: FolderId, to: FolderId, m: MsgId, save: bool, f: FolderId, n: MsgId)
    requires Closed(b) && m in b.heads
    ensures var h := MoveTo(uid, fold, to, m, save);
      var y, x := Act(h, b), ApplyAll(Logs(h, b), Act(h, b));
      && y.heads == b.heads && x.heads == b.heads
      && ((f in y.folders && n in y.folders[f].msgs) <==> !(n == m && f == fold) && f in b.folders && n in b.folders[f].msgs)
      && ((f in x.folders && n in x.folders[f].msgs) <==>
            (n == m && f == to) || (!(n == m && f == fold) && f in b.folders && n in b.folders[f].msgs))
  {
    MovedMessageArrives(b, uid, fold, to, m, save);
    MoveMsgs(b, uid, fold, to, m, save);
    var y := Act(MoveTo(uid, fold, to, m, save), b);
    assert Get(y, f).msgs == Get(b, f).msgs - (if f == fold then {m} else {});
  }

  // ---------------------------------------------------------------- a deleted message

  // Deleting takes the message out of every folder at once; its head goes with the replay, if there is a
  // command to replay, and nothing else ever changes.
  lemma DeletedMessageIsGone(b: Box, m: MsgId, f: FolderId, n: MsgId)
    requires Closed(b) && m in b.heads
    ensures var y := Act(Delete(m), b);
      var x := ApplyAll(Logs(Delete(m), b), y);
      && y.heads == b.heads && x.folders == y.folders
      && x.heads == (if m != 0 && exists g :: g in b.folders && g != 0 && m in b.folders[g].msgs then b.heads - {m} else b.heads)
      && ((f in x.folders && n in x.folders[f].msgs) <==> n != m && f in b.folders && n in b.folders[f].msgs)
  {
    var u := Unfile(b, m);
    ResortClosed(u);
    assert Act(Delete(m), b) == u;
    if DeletionLogged(b, m) {
      ApplyOne(Remove(m), u);
      RemoveHeads(m, u);
      NoteWorld.UnfileNothing(u, m);
    }
  }
}
