/**
All mailboxes together. Handlers of every user share one queue and one update thread (update_processor);
a handler may write two mailboxes, as sending a note does. Also here: exactly where the replay argument ends.
*/
module NoteWorld {
  import opened Options
  import opened Ordered
  import opened NoteBox
  import opened NoteReplay
  import opened NoteMailbox
  import NoteRuns

  // What is one user's own.
  datatype Part = Part(box: Box, unsent: multiset<Cmd>, twice: Twice, lost: set<MsgId>)

  // half: the user whose note_resort the update thread has still to call.
  datatype World = World(parts: map<Uid, Part>, queue: seq<(Uid, Cmd)>, logged: seq<(Uid, Cmd)>, half: Option<Uid>)

  datatype Event =
    | Edits(u: Uid, e: Edit)
    | Vanishes(u: Uid, m: MsgId)
    | Sorts(u: Uid)
    | Sends(u: Uid, c: Cmd)
    | Drains
    | Settles

  ghost predicate Proper(w: World) {
    && (forall i :: 0 <= i < |w.queue| ==> w.queue[i].0 in w.parts)
    && (w.half.Some? ==> w.half.value in w.parts)
  }

  predicate Possible(v: Event, w: World) {
    match v
    case Edits(u, e) => u in w.parts && Allowed(e, w.parts[u].box)
    case Vanishes(u, m) => u in w.parts && m in w.parts[u].box.heads
    case Sorts(u) => u in w.parts
    case Sends(u, c) => u in w.parts && c in w.parts[u].unsent
    case Drains => w.queue != [] && w.half == None && w.queue[0].0 in w.parts
    case Settles => w.half.Some? && w.half.value in w.parts
  }

  function Happens(v: Event, w: World): World
    requires Possible(v, w)
  {
    match v
    case Edits(u, e) =>
      var p := w.parts[u];
      w.(parts := w.parts[u := p.(box := EagerTwice(e, p.box, p.twice), twice := TwiceNext(e, p.twice),
                                  unsent := p.unsent + multiset{Log(e)})])
    case Vanishes(u, m) =>
      var p := w.parts[u];
      w.(parts := w.parts[u := p.(box := EagerTwice(Unlink(m), p.box, p.twice), twice := None, lost := p.lost + {m})])
    case Sorts(u) =>
      w.(parts := w.parts[u := w.parts[u].(box := Resort(w.parts[u].box), twice := None)])
    case Sends(u, c) =>
      w.(parts := w.parts[u := w.parts[u].(unsent := w.parts[u].unsent - multiset{c})],
         queue := w.queue + [(u, c)], logged := w.logged + [(u, c)])
    case Drains =>
      var (u, c) := w.queue[0];
      var p := w.parts[u];
      w.(parts := w.parts[u := p.(box := Raw(c, p.box), twice := Doubled(c, p.box))],
         queue := w.queue[1..], half := if Resorts(c) then Some(u) else None)
    case Settles =>
      var u := w.half.value;
      w.(parts := w.parts[u := w.parts[u].(box := Resort(w.parts[u].box), twice := None)], half := None)
  }

  // The commands of one user, in queue order.
  function Mine(q: seq<(Uid, Cmd)>, u: Uid): seq<Cmd> {
    if q == [] then []
    else (if q[0].0 == u then [q[0].1] else []) + Mine(q[1..], u)
  }

  lemma {:induction false} MineAppend(q: seq<(Uid, Cmd)>, x: (Uid, Cmd), u: Uid)
    ensures Mine(q + [x], u) == Mine(q, u) + if x.0 == u then [x.1] else []
  {
    if q == [] {
      assert q + [x] == [x];
      assert Mine([x][1..], u) == [];
    } else {
      assert (q + [x])[1..] == q[1..] + [x];
      MineAppend(q[1..], x, u);
    }
  }

  function For(w: World, u: Uid): State
    requires u in w.parts
  {
    var p := w.parts[u];
    State(p.box, p.unsent, Mine(w.queue, u), Mine(w.logged, u), w.half == Some(u), p.twice, p.lost)
  }

  function StepFor(v: Event): Step
    requires !v.Drains? && !v.Settles?
  {
    match v
    case Edits(_, e) => Write(e)
    case Vanishes(_, m) => Vanish(m)
    case Sorts(_) => Sort
    case Sends(_, c) => Send(c)
  }

  function StepOf(v: Event): Step { if v.Drains? then Drain else if v.Settles? then Settle else StepFor(v) }

  function Owner(v: Event, w: World): Uid
    requires Possible(v, w)
  {
    if v.Drains? then w.queue[0].0 else if v.Settles? then w.half.value else v.u
  }

  lemma OwnerSteps(v: Event, w: World)
    requires Proper(w) && Possible(v, w)
    ensures var u := Owner(v, w);
      Enabled(StepOf(v), For(w, u)) && For(Happens(v, w), u) == Next(StepOf(v), For(w, u))
  {
    if v.Sends? {
      MineAppend(w.queue, (v.u, v.c), v.u);
      MineAppend(w.logged, (v.u, v.c), v.u);
    }
  }

  lemma OthersKeep(v: Event, w: World, u: Uid)
    requires Proper(w) && Possible(v, w) && u in w.parts && u != Owner(v, w)
    ensures For(Happens(v, w), u) == For(w, u)
  {
    if v.Sends? {
      MineAppend(w.queue, (v.u, v.c), u);
      MineAppend(w.logged, (v.u, v.c), u);
    }
  }

  lemma StaysProper(v: Event, w: World)
    requires Proper(w) && Possible(v, w)
    ensures Proper(Happens(v, w)) && Happens(v, w).parts.Keys == w.parts.Keys
  {
  }

  // What happens to the world is one step for one user and nothing for everybody else.
  lemma OneUserSteps(v: Event, w: World, u: Uid)
    requires Proper(w) && Possible(v, w) && u in w.parts
    ensures Proper(Happens(v, w)) && Happens(v, w).parts.Keys == w.parts.Keys
    ensures u == Owner(v, w) ==> Enabled(StepOf(v), For(w, u)) && For(Happens(v, w), u) == Next(StepOf(v), For(w, u))
    ensures u != Owner(v, w) ==> For(Happens(v, w), u) == For(w, u)
  {
    StaysProper(v, w);
    if u == Owner(v, w) { OwnerSteps(v, w); } else { OthersKeep(v, w, u); }
  }

  ghost predicate WorldRun(vs: seq<Event>, w: World, x: World) {
    if vs == [] then w == x else Possible(vs[0], w) && WorldRun(vs[1..], Happens(vs[0], w), x)
  }

  lemma {:induction false} WorldRunProjects(vs: seq<Event>, w: World, x: World, u: Uid) returns (ps: seq<Step>)
    requires Proper(w) && WorldRun(vs, w, x) && u in w.parts
    ensures Proper(x) && u in x.parts && Run(ps, For(w, u), For(x, u))
  {
    if vs == [] {
      ps := [];
    } else {
      OneUserSteps(vs[0], w, u);
      var rest := WorldRunProjects(vs[1..], Happens(vs[0], w), x, u);
      if u == Owner(vs[0], w) {
        ps := [StepOf(vs[0])] + rest;
        assert ps[1..] == rest;
      } else {
        ps := rest;
      }
    }
  }

  function Begin(init: map<Uid, Box>): World {
    World(map u | u in init :: Part(init[u], multiset{}, None, {}), [], [], None)
  }

  // Whenever no handler of a user is running and the update thread has nothing to do, that user's mailbox is
  // what replaying the commands logged for it from its initial contents gives, but for what folders hold of
  // messages deleted without a log entry.
  lemma EveryMailboxIsReplayed(init: map<Uid, Box>, vs: seq<Event>, x: World, u: Uid)
    requires forall k :: k in init ==> Closed(init[k])
    requires WorldRun(vs, Begin(init), x)
    requires x.queue == [] && x.half == None && u in init && (u in x.parts ==> x.parts[u].unsent == multiset{})
    ensures u in x.parts
    ensures var p := x.parts[u]; Without(p.lost, p.box) == Without(p.lost, ApplyAll(Mine(x.logged, u), init[u]))
    ensures x.parts[u].lost == {} ==> x.parts[u].box == ApplyAll(Mine(x.logged, u), init[u])
  {
    var ps := WorldRunProjects(vs, Begin(init), x, u);
    var t := For(x, u);
    UnloggedDeletionsOnlyHide(init[u], ps, t);
    if t.lost == {} { EagerPlusReplayIsReplay(init[u], ps, t); }
  }

  // ---------------------------------------------------------------- where it ends

  // Eagerly storing a fresh folder is harmless exactly when the id carried no filters and no messages yet.
  // Computing the id under one lock and storing the folder under another relies on that.
  lemma CreateFolderExact(b: Box, f: FolderId, name: string)
    ensures SameBut(FolderCreate(f, name), Eager(CreateFolder(f, name), b), b)
       <==> Get(b, f).(name := "") == NEW_FOLDER
  {
    var x := Eager(CreateFolder(f, name), b);
    var p, q := Apply(FolderCreate(f, name), x), Apply(FolderCreate(f, name), b);
    assert p.folders[f] == NEW_FOLDER.(name := name);
    assert q.folders[f] == Get(b, f).(name := name);
    if Get(b, f).(name := "") == NEW_FOLDER {
      assert p.folders[f] == q.folders[f];
      assert p.folders == q.folders;
    } else {
      assert p.folders[f] != q.folders[f];
    }
  }

  lemma OneCommandOverwrites(c: Cmd, x: Box, y: Box)
    requires SameBut(c, x, y)
    ensures ApplyAll([c], x) == ApplyAll([c], y)
  {
    assert [c][1..] == [];
  }

  // A logged edit is overwritten by its command.
  lemma LoggedEdit(e: Edit, b: Box)
    requires Closed(b) && Allowed(e, b)
    ensures ApplyAll([Log(e)], Eager(e, b)) == ApplyAll([Log(e)], b)
  {
    EagerOverwritten(e, b);
    OneCommandOverwrites(Log(e), Eager(e, b), b);
  }

  // A handler that left mailbox x and logged cmds agrees with the replay of cmds from b.
  ghost predicate Agrees(cmds: seq<Cmd>, x: Box, b: Box) { ApplyAll(cmds, x) == ApplyAll(cmds, b) }

  lemma NothingDeleted(b: Box, m: MsgId, cmds: seq<Cmd>)
    requires Closed(b) && m !in Filed(b)
    ensures Agrees(cmds, Resort(Unfile(b, m)), b)
  {
    UnfileNothing(b, m);
    ResortClosed(b);
  }

  lemma LoggedDeletion(b: Box, m: MsgId)
    requires Closed(b) && m in Filed(b)
    ensures Agrees([Remove(m)], Resort(Unfile(b, m)), b)
  {
    LoggedEdit(Unlink(m), b);
  }

  lemma UnloggedDeletion(b: Box, m: MsgId)
    requires m in Filed(b)
    ensures !Agrees([], Resort(Unfile(b, m)), b)
  {
    var f :| f in b.folders && m in b.folders[f].msgs;
    assert m !in Resort(Unfile(b, m)).folders[f].msgs;
  }

  // delete_message, run on the cache with nothing else pending: what it logged makes the replay follow the
  // cache if and only if the message was in no folder at all, or has an id other than 0 and was in a folder
  // other than 0. A message filed only in folder 0 is lost from the cache alone.
  method DeleteAndCompare(mb: Mailbox, m: MsgId, sort: nat, desc: bool) returns (cmds: seq<Cmd>)
    requires mb.Tidy() && Closed(mb.View())
    modifies mb
    ensures mb.Tidy()
    ensures var b := old(mb.View());
      Agrees(cmds, mb.View(), b) <==>
        || (forall f :: f in b.folders ==> m !in b.folders[f].msgs)
        || (m != 0 && exists f :: f in b.folders && f != 0 && m in b.folders[f].msgs)
  {
    ghost var b := mb.View();
    assert b.heads == mb.heads;
    FiledSomewhere(b, m);
    cmds := mb.DeleteMessage(m, sort, desc);
    if m !in b.heads {
      assert cmds == [];
    } else if m !in Filed(b) {
      NothingDeleted(b, m, cmds);
    } else if cmds == [Remove(m)] {
      LoggedDeletion(b, m);
    } else {
      UnloggedDeletion(b, m);
    }
  }

  lemma FiledSomewhere(b: Box, m: MsgId)
    ensures m !in Filed(b) <==> forall f :: f in b.folders ==> m !in b.folders[f].msgs
  {
  }

  // The same of any closed mailbox: handler and log of NoteRuns.
  lemma DeletionExact(b: Box, m: MsgId)
    requires Closed(b)
    ensures Agrees(NoteRuns.Logs(NoteRuns.Delete(m), b), NoteRuns.Act(NoteRuns.Delete(m), b), b) <==>
      || (forall f :: f in b.folders ==> m !in b.folders[f].msgs)
      || (m != 0 && exists f :: f in b.folders && f != 0 && m in b.folders[f].msgs)
  {
    FiledSomewhere(b, m);
    if m !in b.heads {
      assert NoteRuns.Logs(NoteRuns.Delete(m), b) == [];
    } else if m !in Filed(b) {
      NothingDeleted(b, m, NoteRuns.Logs(NoteRuns.Delete(m), b));
    } else if DeletionLogged(b, m) {
      LoggedDeletion(b, m);
    } else {
      UnloggedDeletion(b, m);
    }
  }

  lemma UnfileNothing(b: Box, m: MsgId)
    requires m !in Filed(b)
    ensures Unfile(b, m) == b
  {
    forall f | f in b.folders
      ensures b.folders[f].msgs - {m} == b.folders[f].msgs
    {
      assert m in b.folders[f].msgs ==> m in Filed(b);
    }
    assert Unfile(b, m).folders == b.folders;
  }
}
