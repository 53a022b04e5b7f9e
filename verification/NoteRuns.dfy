/**
Runs of a mailbox's handlers, with and without the update thread, and what they make of the filters: every
correspondent, and the default key 0, in at most one folder's filter.
*/
module NoteRuns {
  import opened Options
  import opened Ordered
  import opened NoteBox
  import opened NoteReplay
  import opened NoteMailbox
  import opened NoteRouting

  datatype Handler =
    | NewFolder(name: string)
    | Retitle(fid: FolderId, name: string)
    | Discard(fid: FolderId)
    | Mark(recipient: Option<Uid>, msg: MsgId, was: nat, becomes: nat)
    | Receive(way: Way, other: Uid, note: Head)
    | Delete(msg: MsgId)
    | MoveTo(uid: Uid, fold: FolderId, to: FolderId, msg: MsgId, save: bool)
    | Choose(way: Way, dest: FolderId)
    | Check(inName: string, outName: string)

  // ---------------------------------------------------------------- what a handler does

  predicate Chooses(b: Box, dest: FolderId) { dest != 0 && dest in b.folders }

  function Act(h: Handler, b: Box): Box {
    match h
    case NewFolder(n) => WithFolder(b, NextId(b.folders.Keys), NEW_FOLDER.(name := Cut(n)))
    case Retitle(f, n) => Eager(RenameFolder(f, Cut(n)), b)
    case Discard(f) => if Get(b, f).msgs != {} then b else b.(folders := b.folders - {f})
    case Mark(r, m, was, becomes) => b.(heads := Marked(b.heads, r, m, was, becomes))
    case Receive(way, other, note) =>
      if Route(b, way, 0) == 0 then b else Added(b, FolderFor(b, way, other), note)
    case Delete(m) => if m in b.heads then Resort(Unfile(b, m)) else b
    case MoveTo(uid, fold, to, m, save) => if m in b.heads then MoveEffect(b, uid, fold, to, m, save) else b
    case Choose(way, dest) => if Chooses(b, dest) then SettingsEffect(b, way, dest) else b
    case Check(i, o) => CheckEffect(b, i, o)
  }

  function Logs(h: Handler, b: Box): seq<Cmd> {
    match h
    case NewFolder(n) => [FolderCreate(NextId(b.folders.Keys), Cut(n))]
    case Retitle(f, n) => [FolderRename(f, Cut(n))]
    case Discard(f) => if Get(b, f).msgs != {} then [] else [FolderRemove(f)]
    case Mark(r, m, was, becomes) =>
      (if Mine(b.heads, r, m) then [SetUnread(m)] else [])
      + (if Mine(b.heads, r, m) && b.heads[m].status == was then [SetStatus(m, becomes)] else [])
    case Receive(way, other, note) =>
      if Route(b, way, 0) == 0 then [] else AddedCmds(b, FolderFor(b, way, other), note)
    case Delete(m) => if m in b.heads && DeletionLogged(b, m) then [Remove(m)] else []
    case MoveTo(uid, fold, to, m, save) => if m in b.heads then MoveCmds(b, uid, fold, to, m, save) else []
    case Choose(way, dest) => if Chooses(b, dest) then SettingsCmds(b, way, dest) else []
    case Check(i, o) => CheckCmds(b, i, o)
  }

  // The code of the handlers does and logs that.
  method Handle(mb: Mailbox, h: Handler, sort: nat, desc: bool) returns (cmds: seq<Cmd>)
    requires mb.Tidy()
    modifies mb
    ensures mb.Tidy() && mb.View() == Act(h, old(mb.View())) && cmds == Logs(h, old(mb.View()))
  {
    if h.Receive? || h.Delete? || h.Mark? {
      cmds := HandleNote(mb, h, sort, desc);
    } else {
      cmds := HandleFolders(mb, h);
    }
  }

  method HandleNote(mb: Mailbox, h: Handler, sort: nat, desc: bool) returns (cmds: seq<Cmd>)
    requires mb.Tidy() && (h.Receive? || h.Delete? || h.Mark?)
    modifies mb
    ensures mb.Tidy() && mb.View() == Act(h, old(mb.View())) && cmds == Logs(h, old(mb.View()))
  {
    assert mb.View().heads == mb.heads;
    match h
    case Receive(way, other, note) =>
      var ok, cs := mb.DeliverNote(way, other, note, sort, desc);
      cmds := cs;
    case Delete(m) =>
      cmds := mb.DeleteMessage(m, sort, desc);
    case Mark(r, m, was, becomes) =>
      var cs, es := mb.MarkMessage(r, m, was, becomes);
      cmds := cs;
  }

  method HandleFolders(mb: Mailbox, h: Handler) returns (cmds: seq<Cmd>)
    requires mb.Tidy() && !h.Receive? && !h.Delete? && !h.Mark?
    modifies mb
    ensures mb.Tidy() && mb.View() == Act(h, old(mb.View())) && cmds == Logs(h, old(mb.View()))
  {
    assert mb.View().folders.Keys == mb.folders.Keys && mb.View().heads == mb.heads;
    match h
    case NewFolder(n) =>
      var f, cs, es := mb.MakeFolder(n);
      cmds := cs;
    case Retitle(f, n) =>
      var cs, es := mb.RenameShelf(f, n);
      cmds := cs;
    case Discard(f) =>
      var refused, cs, es := mb.RemoveShelf(f);
      cmds := cs;
    case MoveTo(uid, fold, to, m, save) =>
      var cs, es := mb.MoveMessage(uid, fold, to, m, save);
      cmds := cs;
    case Choose(way, dest) =>
      var ok, cs, es := mb.ChooseDefault(way, dest);
      cmds := cs;
    case Check(i, o) =>
      var cs, es := mb.CheckConfig(i, o);
      cmds := cs;
  }

  // ---------------------------------------------------------------- what becomes of the filters

  // "Save filter" makes folder to the only one for this key.
  predicate Saves(h: Handler, b: Box, w: Way, k: Uid) {
    && h.MoveTo? && h.save && h.msg in b.heads
    && (if w == Outgoing then SavesOut(h.uid, b.heads[h.msg]) && k == b.heads[h.msg].toUid
        else b.heads[h.msg].toUid == h.uid && k == b.heads[h.msg].fromUid)
  }

  predicate Moves(h: Handler, b: Box, w: Way, k: Uid) {
    h.Choose? && h.way == w && k == 0 && Chooses(b, h.dest) && OtherDefaults(b, w, h.dest) != {}
  }

  predicate Makes(h: Handler, b: Box, w: Way, k: Uid) { h.Check? && k == 0 && Route(b, w, 0) == 0 }

  // The folder config repair makes for the default: the second one comes after the first.
  function MadeFor(b: Box, w: Way): FolderId {
    if w == Outgoing && Route(b, Incoming, 0) == 0 then NextId(b.folders.Keys) + 1 else NextId(b.folders.Keys)
  }

  function NamingAfter(h: Handler, b: Box, w: Way, k: Uid): set<FolderId> {
    var s := Naming(b, w, k);
    if Saves(h, b, w, k) then {h.to}
    else if Moves(h, b, w, k) then s - {Least(OtherDefaults(b, w, h.dest))} + {h.dest}
    else if Makes(h, b, w, k) then s + {MadeFor(b, w)}
    else if h.Discard? && Get(b, h.fid).msgs == {} then s - {h.fid}
    else s
  }

  lemma MoveNaming(h: Handler, b: Box, w: Way, k: Uid)
    requires h.MoveTo? && h.msg in b.heads
    ensures Naming(Act(h, b), w, k) == NamingAfter(h, b, w, k)
  {
    var b1, head := TakeFrom(b, h.fold, h.msg), b.heads[h.msg];
    TakeFromNaming(b, h.fold, h.msg, w, k);
    RedirectNaming(b1, Outgoing, h.to, head.toUid, w, k);
    RedirectNaming(SaveOut(b1, h.uid, h.to, head), Incoming, h.to, head.fromUid, w, k);
  }

  lemma ChooseNaming(way: Way, dest: FolderId, b: Box, w: Way, k: Uid)
    ensures Naming(Act(Choose(way, dest), b), w, k) == NamingAfter(Choose(way, dest), b, w, k)
  {
    var others := OtherDefaults(b, way, dest);
    if Chooses(b, dest) && others != {} { DropPutNaming(b, way, Least(others), dest, w, k); }
  }

  // The two ids config repair may take.
  lemma MadeIds(i: string, b: Box)
    ensures var b1 := WithDefault(b, Incoming, i);
      && NextId(b.folders.Keys) == MadeFor(b, Incoming) && NextId(b1.folders.Keys) == MadeFor(b, Outgoing)
      && Route(b1, Outgoing, 0) == Route(b, Outgoing, 0)
  {
    OtherWayUnchanged(b, i);
    if Route(b, Incoming, 0) == 0 {
      assert WithDefault(b, Incoming, i).folders.Keys == b.folders.Keys + {NextId(b.folders.Keys)};
    }
  }

  lemma CheckNaming(i: string, o: string, b: Box, w: Way, k: Uid)
    ensures Naming(Act(Check(i, o), b), w, k) == NamingAfter(Check(i, o), b, w, k)
  {
    var b1 := WithDefault(b, Incoming, i);
    var b2 := WithDefault(b1, Outgoing, o);
    WithDefaultNaming(b, Incoming, i, w, k);
    WithDefaultNaming(b1, Outgoing, o, w, k);
    MadeIds(i, b);
    DropOrphansNaming(b2, w, k);
  }

  lemma DropOrphansNaming(b: Box, w: Way, k: Uid)
    ensures Naming(DropOrphans(b), w, k) == Naming(b, w, k)
  {
  }

  lemma OtherNaming(h: Handler, b: Box, w: Way, k: Uid)
    requires !h.MoveTo? && !h.Choose? && !h.Check?
    ensures Naming(Act(h, b), w, k) == NamingAfter(h, b, w, k)
  {
    if h.NewFolder? { assert NextId(b.folders.Keys) !in b.folders; }
  }

  // Which folders' filters name a key after any handler.
  lemma ActNaming(h: Handler, b: Box, w: Way, k: Uid)
    ensures Naming(Act(h, b), w, k) == NamingAfter(h, b, w, k)
  {
    match h
    case MoveTo(_, _, _, m, _) => if m in b.heads { MoveNaming(h, b, w, k); }
    case Choose(way, dest) => ChooseNaming(way, dest, b, w, k);
    case Check(i, o) => CheckNaming(i, o, b, w, k);
    case _ => OtherNaming(h, b, w, k);
  }

  // ---------------------------------------------------------------- runs of handlers alone

  ghost predicate AllOne(b: Box) { forall w: Way, k: Uid :: OneNames(b, w, k) }

  // Config repair must not find a default in folder 0, which it would overlook.
  predicate Fit(h: Handler, b: Box) { h.Check? ==> 0 !in Naming(b, Incoming, 0) && 0 !in Naming(b, Outgoing, 0) }

  lemma FitKeepsOne(h: Handler, b: Box, w: Way, k: Uid)
    requires OneNames(b, w, k) && (h.Check? ==> 0 !in Naming(b, w, 0))
    ensures OneNames(Act(h, b), w, k)
  {
    ActNaming(h, b, w, k);
    if Moves(h, b, w, k) {
      var f := Least(OtherDefaults(b, w, h.dest));
      assert f in Naming(b, w, k) && Naming(b, w, k) - {f} == {};
    }
    if Makes(h, b, w, k) { assert Naming(b, w, k) <= {0}; }
  }

  // A handler keeps every key in at most one filter if and only if it is not config repair with a default in
  // folder 0.
  lemma ActExact(h: Handler, b: Box)
    requires AllOne(b)
    ensures AllOne(Act(h, b)) <==> Fit(h, b)
  {
    if Fit(h, b) {
      forall w: Way, k: Uid
        ensures OneNames(Act(h, b), w, k)
      {
        FitKeepsOne(h, b, w, k);
      }
    } else {
      var w := if 0 in Naming(b, Incoming, 0) then Incoming else Outgoing;
      CheckKeepsOneDefault(b, h.inName, h.outName, w);
      assert !OneNames(Act(h, b), w, 0);
    }
  }

  ghost predicate OneThroughout(hs: seq<Handler>, b: Box) {
    AllOne(b) && (hs == [] || OneThroughout(hs[1..], Act(hs[0], b)))
  }

  predicate FitRun(hs: seq<Handler>, b: Box) { hs == [] || (Fit(hs[0], b) && FitRun(hs[1..], Act(hs[0], b))) }

  // Over every run of handlers the keys stay in at most one filter each, in every state, if and only if every
  // config repair finds folder 0 without a default.
  lemma {:induction false} HandlersExact(hs: seq<Handler>, b: Box)
    requires AllOne(b)
    ensures OneThroughout(hs, b) <==> FitRun(hs, b)
  {
    if hs != [] {
      ActExact(hs[0], b);
      if Fit(hs[0], b) { HandlersExact(hs[1..], Act(hs[0], b)); }
    }
  }

  predicate ZeroFree(b: Box) { 0 !in Naming(b, Incoming, 0) && 0 !in Naming(b, Outgoing, 0) }

  // A default gets into folder 0 if and only if a note from nobody is moved there and the filter saved.
  lemma ZeroFreeExact(h: Handler, b: Box)
    requires ZeroFree(b)
    ensures ZeroFree(Act(h, b)) <==> !(Saves(h, b, Incoming, 0) && h.to == 0)
  {
    ActNaming(h, b, Incoming, 0);
    ActNaming(h, b, Outgoing, 0);
  }

  // ---------------------------------------------------------------- one replayed command

  function Inserts(c: Cmd, w: Way, k: Uid): Option<FolderId> {
    match c
    case FilterInInsert(f, z) => if w == Incoming && z == k then Some(f) else None
    case FilterOutInsert(f, z) => if w == Outgoing && z == k then Some(f) else None
    case _ => None
  }

  function Deletes(c: Cmd, w: Way, k: Uid): Option<FolderId> {
    match c
    case FilterInDelete(f, z) => if w == Incoming && z == k then Some(f) else None
    case FilterOutDelete(f, z) => if w == Outgoing && z == k then Some(f) else None
    case FolderRemove(f) => Some(f)
    case _ => None
  }

  lemma ApplyNaming(c: Cmd, b: Box, w: Way, k: Uid)
    ensures Naming(Apply(c, b), w, k) == Naming(b, w, k)
      - (if Deletes(c, w, k).Some? then {Deletes(c, w, k).value} else {})
      + (if Inserts(c, w, k).Some? then {Inserts(c, w, k).value} else {})
  {
    var t := Naming(Apply(c, b), w, k);
    forall f
      ensures f in t <==> (f in Naming(b, w, k) && Deletes(c, w, k) != Some(f)) || Inserts(c, w, k) == Some(f)
    {
      ApplyFolder(c, b, f);
      assert f in Naming(b, w, k) <==> FolderAt(b, f).Some? && k in Filter(FolderAt(b, f).value, w);
      assert f in t <==> FolderAt(Apply(c, b), f).Some? && k in Filter(FolderAt(Apply(c, b), f).value, w);
    }
  }

  // A replayed command keeps a key in at most one filter if and only if it does not insert it beside another.
  lemma DrainExact(c: Cmd, b: Box, w: Way, k: Uid)
    requires OneNames(b, w, k)
    ensures OneNames(Apply(c, b), w, k) <==>
      !(Inserts(c, w, k).Some? && exists g :: g in Naming(b, w, k) && g != Inserts(c, w, k).value)
  {
    ApplyNaming(c, b, w, k);
    var t := Naming(Apply(c, b), w, k);
    if Inserts(c, w, k).Some? {
      var f := Inserts(c, w, k).value;
      assert f in t;
      forall g | g in Naming(b, w, k) && g != f
        ensures g in t
      {
      }
    }
  }

  // ---------------------------------------------------------------- runs with replay

  datatype Shared = Shared(box: Box, unsent: multiset<Cmd>, queue: seq<Cmd>)

  datatype Move =
    | Begin(h: Handler)     // a handler, as one step
    | Pass(c: Cmd)          // one of its commands enters the queue
    | Replay                // the update thread carries one out
    | Tidying               // folders are re-sorted

  predicate Can(m: Move, s: Shared) {
    match m
    case Begin(_) => true
    case Pass(c) => c in s.unsent
    case Replay => s.queue != []
    case Tidying => true
  }

  function Do(m: Move, s: Shared): Shared
    requires Can(m, s)
  {
    match m
    case Begin(h) => s.(box := Act(h, s.box), unsent := s.unsent + multiset(Logs(h, s.box)))
    case Pass(c) => s.(unsent := s.unsent - multiset{c}, queue := s.queue + [c])
    case Replay => s.(box := Apply(s.queue[0], s.box), queue := s.queue[1..])
    case Tidying => s.(box := Resort(s.box))
  }

  predicate Waiting(c: Cmd, s: Shared) { c in s.unsent || c in s.queue }

  // Handlers that put something into a filter.
  predicate Routes(h: Handler) { (h.MoveTo? && h.save) || h.Choose? || h.Check? }

  // They start only when nothing logged for the mailbox is waiting.
  predicate Patient(m: Move, s: Shared) {
    m.Begin? ==> Fit(m.h, s.box) && (Routes(m.h) ==> s.unsent == multiset{} && s.queue == [])
  }

  // A waiting insertion goes to the one folder that may have the key already, as all others of the key do.
  ghost predicate Foreseen(s: Shared) {
    && AllOne(s.box)
    && (forall c: Cmd, w: Way, k: Uid :: Waiting(c, s) && Inserts(c, w, k).Some? ==> Naming(s.box, w, k) <= {Inserts(c, w, k).value})
    && (forall c: Cmd, d: Cmd, w: Way, k: Uid :: Waiting(c, s) && Waiting(d, s) && Inserts(c, w, k).Some? && Inserts(d, w, k).Some? ==>
          Inserts(c, w, k) == Inserts(d, w, k))
  }

  lemma {:induction false} DropsInsertNothing(b: Box, way: Way, z: Uid, fs: seq<FolderId>, c: Cmd, w: Way, k: Uid)
    requires c in DropCmds(b, way, z, fs)
    ensures Inserts(c, w, k) == None
  {
    if !(Names(b, way, z, fs[0]) && c == Log(DropEdit(way, fs[0], z))) { DropsInsertNothing(b, way, z, fs[1..], c, w, k); }
  }

  lemma {:induction false} OrphansInsertNothing(ms: seq<MsgId>, c: Cmd, w: Way, k: Uid)
    requires c in OrphanCmds(ms)
    ensures Inserts(c, w, k) == None
  {
    if c != Remove(ms[0]) { OrphansInsertNothing(ms[1..], c, w, k); }
  }

  // Only routing handlers log insertions, each for the folder they leave as the only one.
  lemma LogsForesee(h: Handler, b: Box, c: Cmd, w: Way, k: Uid)
    requires AllOne(b) && Fit(h, b) && c in Logs(h, b) && Inserts(c, w, k).Some?
    ensures Routes(h) && Naming(Act(h, b), w, k) == {Inserts(c, w, k).value}
  {
    ActNaming(h, b, w, k);
    match h
    case MoveTo(uid, fold, to, m, save) => MoveForesees(h, b, c, w, k);
    case Choose(way, dest) =>
      var f := Least(OtherDefaults(b, w, dest));
      assert OneNames(b, w, k) && f in Naming(b, w, k) && Naming(b, w, k) - {f} == {};
    case Check(i, o) => CheckForesees(i, o, b, c, w, k);
    case _ =>
  }

  lemma RedirectForesees(b: Box, way: Way, to: FolderId, z: Uid, c: Cmd, w: Way, k: Uid)
    requires c in RedirectCmds(b, way, to, z) && Inserts(c, w, k).Some?
    ensures w == way && k == z && Inserts(c, w, k) == Some(to)
  {
    if c in DropCmds(b, way, z, Ascending(b.folders.Keys)) {
      DropsInsertNothing(b, way, z, Ascending(b.folders.Keys), c, w, k);
    }
  }

  lemma MoveForesees(h: Handler, b: Box, c: Cmd, w: Way, k: Uid)
    requires h.MoveTo? && c in Logs(h, b) && Inserts(c, w, k).Some?
    ensures h.save && Saves(h, b, w, k) && Inserts(c, w, k) == Some(h.to)
  {
    var b1, head := TakeFrom(b, h.fold, h.msg), b.heads[h.msg];
    var b2 := SaveOut(b1, h.uid, h.to, head);
    assert c != Move(h.msg, h.fold, h.to);
    if c in SaveOutCmds(b1, h.uid, h.to, head) {
      RedirectForesees(b1, Outgoing, h.to, head.toUid, c, w, k);
    } else {
      RedirectForesees(b2, Incoming, h.to, head.fromUid, c, w, k);
    }
  }

  lemma DefaultForesees(b: Box, way: Way, name: string, c: Cmd, w: Way, k: Uid)
    requires c in DefaultCmds(b, way, name) && Inserts(c, w, k).Some?
    ensures w == way && k == 0 && Route(b, way, 0) == 0 && Inserts(c, w, k) == Some(NextId(b.folders.Keys))
  {
    assert c == FolderCreate(NextId(b.folders.Keys), name) || c == Log(PutEdit(way, NextId(b.folders.Keys), 0));
  }

  // Config repair inserts the default keys alone, into the folders it makes.
  lemma CheckInserts(i: string, o: string, b: Box, c: Cmd, w: Way, k: Uid)
    requires c in CheckCmds(b, i, o) && Inserts(c, w, k).Some?
    ensures Makes(Check(i, o), b, w, k) && Inserts(c, w, k) == Some(MadeFor(b, w))
  {
    var b1 := WithDefault(b, Incoming, i);
    var orphans := Orphans(WithDefault(b1, Outgoing, o));
    MadeIds(i, b);
    if c in OrphanCmds(orphans) {
      OrphansInsertNothing(orphans, c, w, k);
    } else if c in DefaultCmds(b, Incoming, i) {
      DefaultForesees(b, Incoming, i, c, w, k);
    } else {
      DefaultForesees(b1, Outgoing, o, c, w, k);
    }
  }

  lemma CheckForesees(i: string, o: string, b: Box, c: Cmd, w: Way, k: Uid)
    requires Fit(Check(i, o), b) && c in CheckCmds(b, i, o) && Inserts(c, w, k).Some?
    ensures Naming(Act(Check(i, o), b), w, k) == {Inserts(c, w, k).value}
  {
    CheckInserts(i, o, b, c, w, k);
    CheckNaming(i, o, b, w, k);
    assert Naming(b, w, 0) <= {0};
  }

  lemma BeginForesees(h: Handler, s: Shared)
    requires Foreseen(s) && Patient(Begin(h), s)
    ensures Foreseen(Do(Begin(h), s))
  {
    var t := Do(Begin(h), s);
    ActExact(h, s.box);
    forall c: Cmd, w: Way, k: Uid | Waiting(c, t) && Inserts(c, w, k).Some?
      ensures Naming(t.box, w, k) <= {Inserts(c, w, k).value}
      ensures c in Logs(h, s.box) ==> Routes(h) && Naming(t.box, w, k) == {Inserts(c, w, k).value}
    {
      if c in Logs(h, s.box) {
        LogsForesee(h, s.box, c, w, k);
      } else {
        assert Waiting(c, s);
        ActNaming(h, s.box, w, k);
      }
    }
    forall c: Cmd | Waiting(c, t)
      ensures Waiting(c, s) || c in Logs(h, s.box)
    {
    }
  }

  lemma ReplayForesees(s: Shared)
    requires Foreseen(s) && s.queue != []
    ensures Foreseen(Do(Replay, s))
  {
    var t, d := Do(Replay, s), s.queue[0];
    assert Waiting(d, s);
    forall c: Cmd | Waiting(c, t)
      ensures Waiting(c, s)
    {
    }
    forall w: Way, k: Uid
      ensures OneNames(t.box, w, k)
      ensures forall c: Cmd :: Waiting(c, t) && Inserts(c, w, k).Some? ==> Naming(t.box, w, k) <= {Inserts(c, w, k).value}
    {
      ApplyNaming(d, s.box, w, k);
      DrainExact(d, s.box, w, k);
      assert OneNames(s.box, w, k);
    }
  }

  lemma StepForesees(m: Move, s: Shared)
    requires Foreseen(s) && Can(m, s) && Patient(m, s)
    ensures Foreseen(Do(m, s))
  {
    match m
    case Begin(h) => BeginForesees(h, s);
    case Replay => ReplayForesees(s);
    case Pass(c) =>
      assert forall d: Cmd :: Waiting(d, Do(m, s)) ==> Waiting(d, s);
    case Tidying =>
      forall w: Way, k: Uid
        ensures Naming(Resort(s.box), w, k) == Naming(s.box, w, k) && OneNames(Resort(s.box), w, k)
      {
        assert OneNames(s.box, w, k);
      }
  }

  ghost predicate PatientRun(ms: seq<Move>, s: Shared) {
    ms == [] || (Can(ms[0], s) && Patient(ms[0], s) && PatientRun(ms[1..], Do(ms[0], s)))
  }

  ghost predicate AllOneThroughout(ms: seq<Move>, s: Shared) {
    AllOne(s.box) && (ms == [] || (Can(ms[0], s) && AllOneThroughout(ms[1..], Do(ms[0], s))))
  }

  lemma {:induction false} ForeseenKeepsOne(ms: seq<Move>, s: Shared)
    requires Foreseen(s) && PatientRun(ms, s)
    ensures AllOneThroughout(ms, s)
  {
    if ms != [] {
      StepForesees(ms[0], s);
      ForeseenKeepsOne(ms[1..], Do(ms[0], s));
    }
  }

  // With the update thread replaying at any time: if handlers that change filters start only when nothing
  // logged for the mailbox is waiting, every key is in at most one filter in every state.
  lemma PatientHandlersKeepOne(ms: seq<Move>, b: Box)
    requires AllOne(b) && PatientRun(ms, Shared(b, multiset{}, []))
    ensures AllOneThroughout(ms, Shared(b, multiset{}, []))
  {
    ForeseenKeepsOne(ms, Shared(b, multiset{}, []));
  }
}
