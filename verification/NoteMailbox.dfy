/**
The cached mailbox object (u_notes) as the page handlers and the update thread change it. Each handler is
proved to be a sequence of eager edits that logged exactly its own commands, so NoteReplay speaks about it;
but for delete_message where it logs nothing, which NoteReplay knows as a step of its own.
*/
module NoteMailbox {
  import opened Options
  import opened Sequences
  import opened Ordered
  import opened NoteBox
  import opened NoteReplay
  import opened NoteOrder

  // A folder as it is stored: message ids in display order.
  datatype Shelf = Shelf(name: string, filterIn: set<Uid>, filterOut: set<Uid>, msgs: seq<MsgId>)

  const NEW_SHELF := Shelf("", {}, {}, [])

  // Which of a folder's two filters: the one for received or the one for sent messages.
  datatype Way = Incoming | Outgoing

  function FolderOf(s: Shelf): Folder { Folder(s.name, s.filterIn, s.filterOut, Ids(s.msgs)) }

  function BoxOf(folders: map<FolderId, Shelf>, heads: map<MsgId, Head>): Box {
    Box(map f | f in folders :: FolderOf(folders[f]), heads)
  }

  function ShelfAt(folders: map<FolderId, Shelf>, f: FolderId): Shelf { Lookup(folders, f).GetOr(NEW_SHELF) }

  lemma SetShelf(folders: map<FolderId, Shelf>, heads: map<MsgId, Head>, f: FolderId, s: Shelf)
    ensures BoxOf(folders[f := s], heads) == WithFolder(BoxOf(folders, heads), f, FolderOf(s))
    ensures Get(BoxOf(folders, heads), f) == FolderOf(ShelfAt(folders, f))
  {
    assert Ids([]) == {};
  }

  lemma SetHeads(folders: map<FolderId, Shelf>, h: map<MsgId, Head>, h': map<MsgId, Head>)
    ensures BoxOf(folders, h') == BoxOf(folders, h).(heads := h')
  {
  }

  // ---------------------------------------------------------------- filters, for both ways at once

  function Filter(x: Folder, way: Way): set<Uid> { if way.Incoming? then x.filterIn else x.filterOut }

  function WithFilter(x: Folder, way: Way, s: set<Uid>): Folder {
    if way.Incoming? then x.(filterIn := s) else x.(filterOut := s)
  }

  function DropEdit(way: Way, f: FolderId, z: Uid): Edit { if way.Incoming? then DropIn(f, z) else DropOut(f, z) }

  function PutEdit(way: Way, f: FolderId, z: Uid): Edit { if way.Incoming? then PutIn(f, z) else PutOut(f, z) }

  function ShelfFilter(x: Shelf, way: Way): set<Uid> { if way.Incoming? then x.filterIn else x.filterOut }

  function ShelfWithFilter(x: Shelf, way: Way, s: set<Uid>): Shelf {
    if way.Incoming? then x.(filterIn := s) else x.(filterOut := s)
  }

  // The folders whose filter names z, and where a message of z goes: the last of them, or 0 for none.
  predicate Names(b: Box, way: Way, z: Uid, f: FolderId) { f in b.folders && z in Filter(b.folders[f], way) }

  function Naming(b: Box, way: Way, z: Uid): set<FolderId> {
    set f | f in b.folders && z in Filter(b.folders[f], way)
  }

  function Route(b: Box, way: Way, z: Uid): FolderId { Greatest(Naming(b, way, z)) }

  function PutFilter(b: Box, way: Way, f: FolderId, z: Uid): Box {
    WithFolder(b, f, WithFilter(Get(b, f), way, Filter(Get(b, f), way) + {z}))
  }

  function DropFilter(b: Box, way: Way, f: FolderId, z: Uid): Box {
    WithFolder(b, f, WithFilter(Get(b, f), way, Filter(Get(b, f), way) - {z}))
  }

  function ClearFilters(b: Box, way: Way, fs: set<FolderId>, z: Uid): Box {
    b.(folders := map f | f in b.folders ::
      if f in fs then WithFilter(b.folders[f], way, Filter(b.folders[f], way) - {z}) else b.folders[f])
  }

  // ---------------------------------------------------------------- handlers as sequences of edits

  function EagerAll(es: seq<Edit>, b: Box): Box {
    if es == [] then b else Eager(es[|es| - 1], EagerAll(es[..|es| - 1], b))
  }

  // From mailbox b a handler made edits es, each allowed where it was made, reached b', and logged cmds.
  ghost predicate Faithful(es: seq<Edit>, b: Box, b': Box, cmds: seq<Cmd>) {
    if es == [] then b' == b && cmds == []
    else
      var n := |es| - 1;
      && |cmds| == n + 1 && cmds[n] == Log(es[n])
      && Allowed(es[n], EagerAll(es[..n], b)) && b' == Eager(es[n], EagerAll(es[..n], b))
      && Faithful(es[..n], b, EagerAll(es[..n], b), cmds[..n])
  }

  lemma {:induction false} FaithfulReaches(es: seq<Edit>, b: Box, b': Box, cmds: seq<Cmd>)
    requires Faithful(es, b, b', cmds)
    ensures b' == EagerAll(es, b)
  {
  }

  lemma FaithfulExtended(es: seq<Edit>, b: Box, b': Box, cmds: seq<Cmd>, e: Edit)
    requires Faithful(es, b, b', cmds) && Allowed(e, b')
    ensures Faithful(es + [e], b, Eager(e, b'), cmds + [Log(e)])
  {
    FaithfulReaches(es, b, b', cmds);
    assert (es + [e])[..|es|] == es && (cmds + [Log(e)])[..|es|] == cmds;
  }

  function After(s: State, b': Box, cmds: seq<Cmd>): State {
    s.(box := b', unsent := s.unsent + multiset(cmds))
  }

  // A faithful handler is a run of eager writes, so the replay theorem applies to it wherever it ends.
  lemma WriteIsAfter(e: Edit, s: State, cmds: seq<Cmd>, b: Box, init: Box)
    requires Inv(init, After(s, b, cmds)) && Allowed(e, b) && s.twice == None
    ensures Inv(init, After(s, Eager(e, b), cmds + [Log(e)]))
  {
    var t := After(s, b, cmds);
    WriteKeepsInv(init, e, t);
    assert Next(Write(e), t) == After(s, Eager(e, b), cmds + [Log(e)]).(twice := TwiceNext(e, None)) by {
      assert EagerTwice(e, b, None) == Eager(e, b);
      assert s.unsent + multiset(cmds) + multiset{Log(e)} == s.unsent + multiset(cmds + [Log(e)]);
    }
  }

  lemma {:induction false} HandlerKeepsInv(es: seq<Edit>, s: State, b': Box, cmds: seq<Cmd>, init: Box)
    requires Faithful(es, s.box, b', cmds) && Inv(init, s) && s.twice == None
    ensures Inv(init, After(s, b', cmds))
  {
    if es == [] {
      assert After(s, b', cmds) == s;
    } else {
      var n := |es| - 1;
      var b := EagerAll(es[..n], s.box);
      HandlerKeepsInv(es[..n], s, b, cmds[..n], init);
      WriteIsAfter(es[n], s, cmds[..n], b, init);
      assert cmds == cmds[..n] + [Log(es[n])];
    }
  }

  // Every folder with its messages arranged for display.
  function Arranged(was: map<FolderId, Shelf>, heads: map<MsgId, Head>, sort: nat, desc: bool): map<FolderId, Shelf> {
    map f | f in was :: was[f].(msgs := Arrange(was[f].msgs, heads, sort, desc))
  }

  lemma ArrangedSame(was: map<FolderId, Shelf>, heads: map<MsgId, Head>, sort: nat, desc: bool, f: FolderId)
    requires f in was
    ensures FolderOf(Arranged(was, heads, sort, desc)[f]) == FolderOf(was[f])
    ensures NoDup(Arranged(was, heads, sort, desc)[f].msgs)
  {
    ArrangeSorts(was[f].msgs, heads, sort, desc);
    assert Ids(Arranged(was, heads, sort, desc)[f].msgs) == Ids(was[f].msgs);
  }

  lemma SameFoldersSameBox(was: map<FolderId, Shelf>, now: map<FolderId, Shelf>, heads: map<MsgId, Head>)
    requires now.Keys == was.Keys
    requires forall f :: f in was ==> FolderOf(now[f]) == FolderOf(was[f])
    ensures BoxOf(now, heads) == BoxOf(was, heads)
  {
    assert BoxOf(now, heads).folders == BoxOf(was, heads).folders;
  }

  lemma ArrangedView(was: map<FolderId, Shelf>, h: map<MsgId, Head>, heads: map<MsgId, Head>, sort: nat, desc: bool)
    ensures BoxOf(Arranged(was, h, sort, desc), heads) == BoxOf(was, heads)
  {
    forall f | f in was
      ensures FolderOf(Arranged(was, h, sort, desc)[f]) == FolderOf(was[f])
    {
      ArrangedSame(was, h, sort, desc, f);
    }
    SameFoldersSameBox(was, Arranged(was, h, sort, desc), heads);
  }

  ghost predicate AllNoDup(folders: map<FolderId, Shelf>) {
    forall f :: f in folders ==> NoDup(folders[f].msgs)
  }

  lemma ArrangedNoDup(was: map<FolderId, Shelf>, h: map<MsgId, Head>, sort: nat, desc: bool)
    ensures AllNoDup(Arranged(was, h, sort, desc))
  {
    forall f | f in was
      ensures NoDup(Arranged(was, h, sort, desc)[f].msgs)
    {
      ArrangedSame(was, h, sort, desc, f);
    }
  }

  ghost predicate AllInOrder(folders: map<FolderId, Shelf>, heads: map<MsgId, Head>, sort: nat, desc: bool) {
    forall f :: f in folders ==> InOrder(folders[f].msgs, heads, sort, desc)
  }

  lemma ArrangedInOrder(was: map<FolderId, Shelf>, h: map<MsgId, Head>, sort: nat, desc: bool)
    ensures AllInOrder(Arranged(was, h, sort, desc), h, sort, desc)
  {
    forall f | f in was
      ensures InOrder(Arranged(was, h, sort, desc)[f].msgs, h, sort, desc)
    {
      ArrangeSorts(was[f].msgs, h, sort, desc);
    }
  }

  function Defaulted(ids: set<MsgId>, h: map<MsgId, Head>): map<MsgId, Head> {
    (map m | m in ids :: DEFAULT_HEAD) + h
  }

  lemma DefaultedStep(ids: seq<MsgId>, k: nat, h: map<MsgId, Head>)
    requires k < |ids|
    ensures var d := Defaulted(Ids(ids[..k]), h);
      Defaulted(Ids(ids[..k + 1]), h) == if ids[k] in d then d else d[ids[k] := DEFAULT_HEAD]
  {
    assert Ids(ids[..k + 1]) == Ids(ids[..k]) + {ids[k]};
  }

  // The messages filed in folders outside todo.
  function FiledOutside(was: map<FolderId, Shelf>, todo: set<FolderId>): set<MsgId> {
    set f, m | f in was && f !in todo && m in Ids(was[f].msgs) :: m
  }

  // The state of resort() when only the folders in todo are still to be visited.
  function SortedSoFar(was: map<FolderId, Shelf>, goal: map<FolderId, Shelf>, todo: set<FolderId>): map<FolderId, Shelf>
    requires was.Keys == goal.Keys
  {
    map f | f in was :: if f in todo then was[f] else goal[f]
  }

  lemma SortStart(was: map<FolderId, Shelf>, goal: map<FolderId, Shelf>, h0: map<MsgId, Head>)
    requires was.Keys == goal.Keys
    ensures SortedSoFar(was, goal, was.Keys) == was && SortedSoFar(was, goal, {}) == goal
    ensures Defaulted(FiledOutside(was, was.Keys), h0) == h0
  {
    assert FiledOutside(was, was.Keys) == {};
  }

  lemma SortFoldersStep(was: map<FolderId, Shelf>, goal: map<FolderId, Shelf>, todo: set<FolderId>, f: FolderId)
    requires was.Keys == goal.Keys && f in todo && f in was
    ensures SortedSoFar(was, goal, todo)[f := goal[f]] == SortedSoFar(was, goal, todo - {f})
    ensures SortedSoFar(was, goal, todo)[f] == was[f]
  {
  }

  lemma SortHeadsStep(was: map<FolderId, Shelf>, h0: map<MsgId, Head>, todo: set<FolderId>, f: FolderId)
    requires f in todo && f in was
    ensures Defaulted(Ids(was[f].msgs), Defaulted(FiledOutside(was, todo), h0)) == Defaulted(FiledOutside(was, todo - {f}), h0)
  {
    assert FiledOutside(was, todo - {f}) == FiledOutside(was, todo) + Ids(was[f].msgs);
  }

  lemma SortHeadsEnd(was: map<FolderId, Shelf>, h0: map<MsgId, Head>)
    ensures Defaulted(FiledOutside(was, {}), h0) == Resort(BoxOf(was, h0)).heads
  {
    var b := BoxOf(was, h0);
    forall m
      ensures m in FiledOutside(was, {}) <==> m in Filed(b)
    {
      if m in FiledOutside(was, {}) {
        var f :| f in was && m in Ids(was[f].msgs);
        assert m in b.folders[f].msgs;
      }
    }
  }

  lemma SortFolderStep(was: map<FolderId, Shelf>, h0: map<MsgId, Head>, todo: set<FolderId>, f: FolderId,
                       heads: map<MsgId, Head>, target: map<MsgId, Head>, sort: nat, desc: bool)
    requires f in todo && f in was
    requires heads == Defaulted(FiledOutside(was, todo - {f}), h0) && target == Defaulted(FiledOutside(was, {}), h0)
    ensures Arranged(was, target, sort, desc)[f]
         == was[f].(msgs := Arrange(was[f].msgs, heads, sort, desc))
  {
    assert forall m :: m in Ids(was[f].msgs) ==> m in FiledOutside(was, todo - {f}) && m in FiledOutside(was, {});
    SortLocal(Ascending(Ids(was[f].msgs)), heads, target, sort, desc);
  }

  // ---------------------------------------------------------------- what the handlers make of a mailbox

  lemma ClearStep(b: Box, way: Way, done: set<FolderId>, f: FolderId, z: Uid)
    requires f in b.folders && f !in done
    ensures ClearFilters(b, way, done, z).folders[f] == b.folders[f]
    ensures z in Filter(b.folders[f], way) ==>
      DropFilter(ClearFilters(b, way, done, z), way, f, z) == ClearFilters(b, way, done + {f}, z)
    ensures z !in Filter(b.folders[f], way) ==>
      ClearFilters(b, way, done, z) == ClearFilters(b, way, done + {f}, z)
  {
    var x, y := ClearFilters(b, way, done, z), ClearFilters(b, way, done + {f}, z);
    if z in Filter(b.folders[f], way) {
      assert DropFilter(x, way, f, z).folders == y.folders;
    } else {
      assert WithFilter(b.folders[f], way, Filter(b.folders[f], way) - {z}) == b.folders[f] by {
        assert Filter(b.folders[f], way) - {z} == Filter(b.folders[f], way);
      }
      assert x.folders == y.folders;
    }
  }

  lemma ClearNone(b: Box, way: Way, z: Uid)
    ensures ClearFilters(b, way, {}, z) == b
  {
    assert ClearFilters(b, way, {}, z).folders == b.folders;
  }

  // Makes folder f the only one whose filter names z.
  function RedirectEffect(b: Box, way: Way, f: FolderId, z: Uid): Box {
    PutFilter(ClearFilters(b, way, b.folders.Keys, z), way, f, z)
  }

  predicate SavesOut(uid: Uid, h: Head) { h.fromUid == uid && h.toUid != 0 }

  // "Save filter": the correspondent's notes go to folder f from now on.
  function SaveOut(b: Box, uid: Uid, f: FolderId, h: Head): Box {
    if SavesOut(uid, h) then RedirectEffect(b, Outgoing, f, h.toUid) else b
  }

  function SaveIn(b: Box, uid: Uid, f: FolderId, h: Head): Box {
    if h.toUid == uid then RedirectEffect(b, Incoming, f, h.fromUid) else b
  }

  function SaveEffect(b: Box, uid: Uid, f: FolderId, h: Head): Box { SaveIn(SaveOut(b, uid, f, h), uid, f, h) }

  function MoveEffect(b: Box, uid: Uid, fold: FolderId, to: FolderId, m: MsgId, save: bool): Box
    requires m in b.heads
  {
    var b1 := TakeFrom(b, fold, m);
    if save then SaveEffect(b1, uid, to, b.heads[m]) else b1
  }

  // One deletion for every folder of fs whose filter names z.
  function DropCmds(b: Box, way: Way, z: Uid, fs: seq<FolderId>): seq<Cmd> {
    if fs == [] then []
    else (if Names(b, way, z, fs[0]) then [Log(DropEdit(way, fs[0], z))] else []) + DropCmds(b, way, z, fs[1..])
  }

  function RedirectCmds(b: Box, way: Way, to: FolderId, z: Uid): seq<Cmd> {
    DropCmds(b, way, z, Ascending(b.folders.Keys)) + [Log(PutEdit(way, to, z))]
  }

  function SaveOutCmds(b: Box, uid: Uid, f: FolderId, h: Head): seq<Cmd> {
    if SavesOut(uid, h) then RedirectCmds(b, Outgoing, f, h.toUid) else []
  }

  function SaveInCmds(b: Box, uid: Uid, f: FolderId, h: Head): seq<Cmd> {
    if h.toUid == uid then RedirectCmds(b, Incoming, f, h.fromUid) else []
  }

  function SaveCmds(b: Box, uid: Uid, f: FolderId, h: Head): seq<Cmd> {
    SaveOutCmds(b, uid, f, h) + SaveInCmds(SaveOut(b, uid, f, h), uid, f, h)
  }

  function MoveCmds(b: Box, uid: Uid, fold: FolderId, to: FolderId, m: MsgId, save: bool): seq<Cmd>
    requires m in b.heads
  {
    [Move(m, fold, to)] + if save then SaveCmds(TakeFrom(b, fold, m), uid, to, b.heads[m]) else []
  }

  // Folders still to be visited, in order, and those done: together all, each once.
  ghost predicate Visiting(keys: set<FolderId>, todo: seq<FolderId>, done: set<FolderId>) {
    && NoDup(todo)
    && (forall f :: f in todo ==> f in keys && f !in done)
    && (forall f :: f in keys ==> f in todo || f in done)
    && done <= keys
  }

  lemma VisitFirst(keys: set<FolderId>)
    ensures Visiting(keys, Ascending(keys), {})
  {
  }

  lemma VisitNext(keys: set<FolderId>, todo: seq<FolderId>, done: set<FolderId>)
    requires Visiting(keys, todo, done)
    ensures todo == [] ==> done == keys
    ensures todo != [] ==> Visiting(keys, todo[1..], done + {todo[0]}) && todo[0] in keys && todo[0] !in done
  {
    if todo != [] {
      assert todo == [todo[0]] + todo[1..];
      assert todo[0] !in todo[1..];
    }
  }

  // The folders other than dest whose filter holds the default key 0.
  function OtherDefaults(b: Box, way: Way, dest: FolderId): set<FolderId> { Naming(b, way, 0) - {dest} }

  function SettingsEffect(b: Box, way: Way, dest: FolderId): Box {
    var others := OtherDefaults(b, way, dest);
    if others == {} then b else PutFilter(DropFilter(b, way, Least(others), 0), way, dest, 0)
  }

  function SettingsCmds(b: Box, way: Way, dest: FolderId): seq<Cmd> {
    var others := OtherDefaults(b, way, dest);
    if others == {} then [] else [Log(DropEdit(way, Least(others), 0)), Log(PutEdit(way, dest, 0))]
  }

  function NextId(ids: set<nat>): nat { Greatest(ids) + 1 }

  // check_notes_config gives a mailbox without a default folder (numbered other than 0) a new one.
  function WithDefault(b: Box, way: Way, name: string): Box {
    if Route(b, way, 0) != 0 then b
    else WithFolder(b, NextId(b.folders.Keys), WithFilter(NEW_FOLDER.(name := name), way, {0}))
  }

  function DropOrphans(b: Box): Box { b.(heads := map m | m in b.heads && m in Filed(b) :: b.heads[m]) }

  function CheckEffect(b: Box, inName: string, outName: string): Box {
    DropOrphans(WithDefault(WithDefault(b, Incoming, inName), Outgoing, outName))
  }

  lemma FaithfulOne(e: Edit, b: Box)
    requires Allowed(e, b)
    ensures Faithful([e], b, Eager(e, b), [Log(e)])
  {
    FaithfulExtended([], b, b, [], e);
    assert [] + [e] == [e] && [] + [Log(e)] == [Log(e)];
  }

  lemma FaithfulTwo(d: Edit, e: Edit, b: Box)
    requires Allowed(d, b) && Allowed(e, Eager(d, b))
    ensures Faithful([d, e], b, Eager(e, Eager(d, b)), [Log(d), Log(e)])
  {
    FaithfulOne(d, b);
    FaithfulExtended([d], b, Eager(d, b), [Log(d)], e);
    assert [d] + [e] == [d, e] && [Log(d)] + [Log(e)] == [Log(d), Log(e)];
  }

  lemma {:induction false} FaithfulJoined(es: seq<Edit>, fs: seq<Edit>, b: Box, v: Box, w: Box, cs: seq<Cmd>, ds: seq<Cmd>)
    requires Faithful(es, b, v, cs) && Faithful(fs, v, w, ds)
    ensures Faithful(es + fs, b, w, cs + ds)
  {
    if fs == [] {
      assert es + fs == es && cs + ds == cs;
    } else {
      var n := |fs| - 1;
      var mid := EagerAll(fs[..n], v);
      FaithfulJoined(es, fs[..n], b, v, mid, cs, ds[..n]);
      FaithfulExtended(es + fs[..n], b, mid, cs + ds[..n], fs[n]);
      assert w == Eager(fs[n], mid) && ds[n] == Log(fs[n]);
      SplitLast(es, fs);
      SplitLast(cs, ds);
    }
  }

  lemma PutContinues(way: Way, to: FolderId, z: Uid, es: seq<Edit>, fs: seq<Edit>, b: Box, v: Box, w: Box, cs: seq<Cmd>, ds: seq<Cmd>)
    requires Faithful(es, b, v, cs) && Faithful(fs, v, w, ds)
    ensures Faithful(es + (fs + [PutEdit(way, to, z)]), b, PutFilter(w, way, to, z), cs + (ds + [Log(PutEdit(way, to, z))]))
  {
    FaithfulExtended(fs, v, w, ds, PutEdit(way, to, z));
    FaithfulJoined(es, fs + [PutEdit(way, to, z)], b, v, PutFilter(w, way, to, z), cs, ds + [Log(PutEdit(way, to, z))]);
  }

  // vec.erase() of the first occurrence; in a vector without duplicates that is all of them.
  method EraseFirst(v: seq<MsgId>, m: MsgId) returns (w: seq<MsgId>, found: bool)
    requires NoDup(v)
    ensures NoDup(w) && Ids(w) == Ids(v) - {m} && (found <==> m in v)
  {
    var i := 0;
    while i < |v|
      invariant 0 <= i <= |v| && m !in v[..i]
    {
      if v[i] == m {
        w, found := v[..i] + v[i + 1..], true;
        forall x
          ensures x in Ids(w) <==> x in Ids(v) - {m}
        {
          assert v == v[..i] + [m] + v[i + 1..];
          assert m !in v[i + 1..];
        }
        return;
      }
      i := i + 1;
    }
    assert v[..i] == v;
    w, found := v, false;
    assert Ids(w) == Ids(v) - {m};
  }

  lemma GreatestExtended(s: set<nat>, done: set<nat>, f: nat)
    requires forall x :: x in done ==> x < f
    ensures Greatest(s * (done + {f})) == if f in s then f else Greatest(s * done)
  {
    if f in s {
      assert f in s * (done + {f});
    } else {
      assert s * (done + {f}) == s * done;
    }
  }

  // When push_back doubles a message in a folder that lists none twice: when the folder has it already. A move
  // within one folder doubles none.
  lemma DoubledExact(folders: map<FolderId, Shelf>, heads: map<MsgId, Head>, h: Head, m: MsgId, f: FolderId, t: FolderId)
    requires AllNoDup(folders)
    ensures var b := BoxOf(folders, heads);
      && Doubled(SetHead(f, h), b) == (if NoDup(ShelfAt(folders, f).msgs + [h.id]) then None else Some((f, h.id)))
      && Doubled(Move(m, f, t), b) == (if f == t || NoDup(ShelfAt(folders, t).msgs + [m]) then None else Some((t, m)))
  {
    SetShelf(folders, heads, f, NEW_SHELF);
    SetShelf(folders, heads, t, NEW_SHELF);
    PushDoubles(ShelfAt(folders, f).msgs, h.id);
    PushDoubles(ShelfAt(folders, t).msgs, m);
  }

  lemma PushDoubles(v: seq<MsgId>, m: MsgId)
    requires NoDup(v)
    ensures NoDup(v + [m]) <==> m !in v
  {
    if m in v {
      var i :| 0 <= i < |v| && v[i] == m;
      assert (v + [m])[i] == (v + [m])[|v|];
    }
  }

  lemma ErasedShelf(folders: map<FolderId, Shelf>, heads: map<MsgId, Head>, f: FolderId)
    ensures BoxOf(folders - {f}, heads) == BoxOf(folders, heads).(folders := BoxOf(folders, heads).folders - {f})
  {
  }

  // Folder names are cut to thirty characters.
  function Cut(name: string): string { if |name| > 30 then name[..30] else name }

  // Unfile when only the folders in done have been visited.
  function UnfileIn(b: Box, done: set<FolderId>, m: MsgId): Box {
    b.(folders := map f | f in b.folders ::
      if f in done then b.folders[f].(msgs := b.folders[f].msgs - {m}) else b.folders[f])
  }

  lemma UnfileStep(b: Box, done: set<FolderId>, f: FolderId, m: MsgId)
    requires f in b.folders && f !in done
    ensures Get(UnfileIn(b, done, m), f) == b.folders[f]
    ensures TakeFrom(UnfileIn(b, done, m), f, m) == UnfileIn(b, done + {f}, m)
  {
    assert TakeFrom(UnfileIn(b, done, m), f, m).folders == UnfileIn(b, done + {f}, m).folders;
  }

  lemma UnfileEnds(b: Box, m: MsgId)
    ensures UnfileIn(b, {}, m) == b && UnfileIn(b, b.folders.Keys, m) == Unfile(b, m)
  {
    assert UnfileIn(b, {}, m).folders == b.folders;
    assert UnfileIn(b, b.folders.Keys, m).folders == Unfile(b, m).folders;
  }

  predicate Before(done: set<FolderId>, todo: set<FolderId>) { forall f, g :: f in done && g in todo ==> f < g }

  lemma NextLeast(done: set<FolderId>, todo: set<FolderId>)
    requires Before(done, todo) && todo != {}
    ensures Before(done + {Least(todo)}, todo - {Least(todo)})
    ensures (todo - {Least(todo)}) + (done + {Least(todo)}) == todo + done
    ensures forall g :: g in done ==> g < Least(todo)
  {
  }

  lemma HoldingAll(b: Box, m: MsgId)
    ensures Holding(b, m) * b.folders.Keys == Holding(b, m) && Greatest(Holding(b, m) * {}) == 0
  {
    assert Holding(b, m) * {} == {};
  }

  // The folders that list m; delete_message ends with the last of them in its variable fld, or with 0.
  function Holding(b: Box, m: MsgId): set<FolderId> { set f | f in b.folders && m in b.folders[f].msgs }

  // What delete_message's test of fld and of the message id comes to.
  predicate DeletionLogged(b: Box, m: MsgId) { m != 0 && exists f :: f in b.folders && f != 0 && m in b.folders[f].msgs }

  lemma LastHolderTells(b: Box, m: MsgId)
    ensures Greatest(Holding(b, m)) != 0 <==> exists f :: f in b.folders && f != 0 && m in b.folders[f].msgs
  {
    forall f | f in b.folders && m in b.folders[f].msgs
      ensures f <= Greatest(Holding(b, m))
    {
      assert f in Holding(b, m);
    }
    if Greatest(Holding(b, m)) != 0 { assert Greatest(Holding(b, m)) in Holding(b, m); }
  }

  // The edits and the commands that create a default folder.
  function DefaultEdits(b: Box, way: Way, name: string): seq<Edit> {
    if Route(b, way, 0) != 0 then []
    else [CreateFolder(NextId(b.folders.Keys), name), PutEdit(way, NextId(b.folders.Keys), 0)]
  }

  function DefaultCmds(b: Box, way: Way, name: string): seq<Cmd> {
    if Route(b, way, 0) != 0 then []
    else [FolderCreate(NextId(b.folders.Keys), name), Log(PutEdit(way, NextId(b.folders.Keys), 0))]
  }

  function OrphanCmds(ms: seq<MsgId>): seq<Cmd> { if ms == [] then [] else [Remove(ms[0])] + OrphanCmds(ms[1..]) }

  function Orphans(b: Box): seq<MsgId> { Ascending(b.heads.Keys - Filed(b)) }

  function CheckCmds(b: Box, inName: string, outName: string): seq<Cmd> {
    var b1 := WithDefault(b, Incoming, inName);
    DefaultCmds(b, Incoming, inName) + DefaultCmds(b1, Outgoing, outName) + OrphanCmds(Orphans(WithDefault(b1, Outgoing, outName)))
  }

  lemma NextOrphan(todel: seq<MsgId>, cmds: seq<Cmd>)
    requires todel != []
    ensures cmds + OrphanCmds(todel) == cmds + [Remove(todel[0])] + OrphanCmds(todel[1..])
  {
  }

  // Routing of one note: the folder for the correspondent, or the default one.
  function FolderFor(b: Box, way: Way, other: Uid): FolderId {
    if Route(b, way, other) != 0 then Route(b, way, other) else Route(b, way, 0)
  }

  lemma MarkedInSteps(h: map<MsgId, Head>, recipient: Option<Uid>, m: MsgId, was: nat, becomes: nat)
    requires Mine(h, recipient, m)
    ensures var r := h[m := h[m].(unread := false)];
      Marked(h, recipient, m, was, becomes) == if h[m].status == was then r[m := r[m].(status := becomes)] else r
  {
  }

  lemma DeliveryFaithful(f: FolderId, h: Head, b: Box)
    ensures Faithful([Deliver(f, h)], b, Eager(Deliver(f, h), b), [SetHead(f, h)])
  {
    FaithfulOne(Deliver(f, h), b);
  }

  lemma RouteFound(b: Box, way: Way, other: Uid)
    ensures Route(b, way, 0) != 0 ==> FolderFor(b, way, other) != 0
  {
  }

  function Numbered(b: Box, note: Head): Head { note.(id := NextId(b.heads.Keys)) }

  function Added(b: Box, f: FolderId, note: Head): Box { Eager(Deliver(f, Numbered(b, note)), b) }

  function AddedCmds(b: Box, f: FolderId, note: Head): seq<Cmd> { [SetHead(f, Numbered(b, note))] }

  // The reader's own message, or the sender's copy.
  predicate Mine(heads: map<MsgId, Head>, recipient: Option<Uid>, m: MsgId) {
    m in heads && (recipient.Some? ==> heads[m].toUid == recipient.value)
  }

  function Marked(heads: map<MsgId, Head>, recipient: Option<Uid>, m: MsgId, was: nat, becomes: nat): map<MsgId, Head> {
    if !Mine(heads, recipient, m) then heads
    else heads[m := heads[m].(unread := false, status := if heads[m].status == was then becomes else heads[m].status)]
  }

  lemma PutInNewFolder(b: Box, way: Way, f: FolderId, name: string)
    ensures Eager(PutEdit(way, f, 0), Eager(CreateFolder(f, name), b))
         == WithFolder(b, f, WithFilter(NEW_FOLDER.(name := name), way, {0}))
  {
    var x, s: set<Uid> := NEW_FOLDER.(name := name), {};
    assert s + {0} == {0};
    assert Get(Eager(CreateFolder(f, name), b), f) == x;
    assert b.folders[f := x][f := WithFilter(x, way, {0})] == b.folders[f := WithFilter(x, way, {0})];
  }

  lemma DefaultFaithful(b: Box, way: Way, name: string)
    ensures Faithful(DefaultEdits(b, way, name), b, WithDefault(b, way, name), DefaultCmds(b, way, name))
  {
    if Route(b, way, 0) == 0 {
      var f := NextId(b.folders.Keys);
      PutInNewFolder(b, way, f, name);
      FaithfulTwo(CreateFolder(f, name), PutEdit(way, f, 0), b);
    }
  }

  // A logged deletion is one faithful edit.
  lemma DeletionFaithful(b: Box, m: MsgId)
    requires m in b.heads
    ensures Faithful([Unlink(m)], b, Resort(Unfile(b, m)), [Remove(m)])
  {
    FaithfulOne(Unlink(m), b);
  }

  lemma OtherWayUnchanged(b: Box, name: string)
    ensures Route(WithDefault(b, Incoming, name), Outgoing, 0) == Route(b, Outgoing, 0)
  {
    assert Naming(WithDefault(b, Incoming, name), Outgoing, 0) == Naming(b, Outgoing, 0);
  }

  lemma FiledIs(folders: map<FolderId, Shelf>, heads: map<MsgId, Head>, s: set<MsgId>)
    requires forall m :: m in s <==> exists f :: f in folders && m in Ids(folders[f].msgs)
    ensures s == Filed(BoxOf(folders, heads))
  {
    var b := BoxOf(folders, heads);
    forall m
      ensures m in s <==> m in Filed(b)
    {
      if m in s {
        var f :| f in folders && m in Ids(folders[f].msgs);
        assert m in b.folders[f].msgs;
      }
    }
  }

  lemma OrphanStep(b: Box, done: set<MsgId>, m: MsgId)
    ensures Eager(DropOrphan(m), b.(heads := b.heads - done)) == b.(heads := b.heads - (done + {m}))
    ensures Filed(b.(heads := b.heads - done)) == Filed(b)
    ensures done == {} ==> b.(heads := b.heads - done) == b
    ensures done == b.heads.Keys - Filed(b) ==> b.(heads := b.heads - done) == DropOrphans(b)
  {
    assert b.heads - done - {m} == b.heads - (done + {m});
  }

  class Mailbox {
    var folders: map<FolderId, Shelf>
    var heads: map<MsgId, Head>

    constructor (folders: map<FolderId, Shelf>, heads: map<MsgId, Head>)
      ensures this.folders == folders && this.heads == heads
    {
      this.folders, this.heads := folders, heads;
    }

    ghost function View(): Box
      reads this
    {
      BoxOf(folders, heads)
    }

    lemma ViewAt(f: FolderId)
      ensures f in folders <==> f in View().folders
      ensures f in folders ==> View().folders[f] == FolderOf(folders[f])
    {
    }

    // No folder lists a message twice.
    ghost predicate Tidy()
      reads this
    {
      AllNoDup(folders)
    }

    // Every folder lists its messages in the chosen order.
    ghost predicate Shown(sort: nat, desc: bool)
      reads this
    {
      AllInOrder(folders, heads, sort, desc)
    }

    // operator[] over the ids of one folder: each gets a head, if only a default one.
    method NeedHeads(ids: seq<MsgId>)
      modifies this`heads
      ensures heads == Defaulted(Ids(ids), old(heads))
    {
      var k := 0;
      assert Defaulted(Ids(ids[..0]), heads) == heads;
      while k < |ids|
        invariant 0 <= k <= |ids|
        invariant heads == Defaulted(Ids(ids[..k]), old(heads))
      {
        DefaultedStep(ids, k, old(heads));
        if ids[k] !in heads { heads := heads[ids[k] := DEFAULT_HEAD]; }
        k := k + 1;
      }
      assert ids[..k] == ids;
    }

    // One turn of the loop in resort().
    method ArrangeFolder(f: FolderId, sort: nat, desc: bool)
      requires f in folders
      modifies this
      ensures heads == Defaulted(Ids(old(folders)[f].msgs), old(heads))
      ensures folders == old(folders)[f := old(folders)[f].(msgs := Arrange(old(folders)[f].msgs, heads, sort, desc))]
    {
      var ids := Ascending(Ids(folders[f].msgs));
      assert Ids(ids) == Ids(folders[f].msgs);
      NeedHeads(ids);
      folders := folders[f := folders[f].(msgs := SortIds(ids, heads, sort, desc))];
    }

    // resort()
    method Resort(sort: nat, desc: bool)
      modifies this
      ensures Tidy() && Shown(sort, desc)
      ensures View() == NoteBox.Resort(old(View()))
      ensures folders.Keys == old(folders.Keys)
      ensures forall f :: f in folders ==> folders[f] == old(folders)[f].(msgs := Arrange(old(folders)[f].msgs, heads, sort, desc))
    {
      ghost var was, h0 := folders, heads;
      ghost var target := Defaulted(FiledOutside(was, {}), h0);
      ghost var goal := Arranged(was, target, sort, desc);
      SortStart(was, goal, h0);
      var todo := folders.Keys;
      while todo != {}
        invariant todo <= was.Keys
        invariant folders == SortedSoFar(was, goal, todo)
        invariant heads == Defaulted(FiledOutside(was, todo), h0)
        decreases todo
      {
        var f := Least(todo);
        ArrangeFolder(f, sort, desc);
        SortHeadsStep(was, h0, todo, f);
        SortFolderStep(was, h0, todo, f, heads, target, sort, desc);
        SortFoldersStep(was, goal, todo, f);
        todo := todo - {f};
      }
      SortHeadsEnd(was, h0);
      ArrangedView(was, heads, heads, sort, desc);
      ArrangedNoDup(was, heads, sort, desc);
      ArrangedInOrder(was, heads, sort, desc);
    }

    // One erase from one folder's filter, and one insert, with the command each logs.
    method DropFromFilter(way: Way, f: FolderId, z: Uid) returns (cmd: Cmd)
      requires Tidy()
      modifies this`folders
      ensures Tidy() && View() == DropFilter(old(View()), way, f, z) && cmd == Log(DropEdit(way, f, z))
    {
      var x := ShelfWithFilter(ShelfAt(folders, f), way, ShelfFilter(ShelfAt(folders, f), way) - {z});
      SetShelf(folders, heads, f, x);
      folders := folders[f := x];
      cmd := Log(DropEdit(way, f, z));
    }

    method PutInFilter(way: Way, f: FolderId, z: Uid) returns (cmd: Cmd)
      requires Tidy()
      modifies this`folders
      ensures Tidy() && View() == PutFilter(old(View()), way, f, z) && cmd == Log(PutEdit(way, f, z))
    {
      var x := ShelfWithFilter(ShelfAt(folders, f), way, ShelfFilter(ShelfAt(folders, f), way) + {z});
      SetShelf(folders, heads, f, x);
      folders := folders[f := x];
      cmd := Log(PutEdit(way, f, z));
    }

    method DropOneFilter(way: Way, f: FolderId, z: Uid, ghost b: Box, ghost done: set<FolderId>,
                         cmds0: seq<Cmd>, ghost es0: seq<Edit>)
      returns (cmds: seq<Cmd>, ghost es: seq<Edit>)
      requires Tidy() && f in b.folders && f !in done
      requires View() == ClearFilters(b, way, done, z) && Faithful(es0, b, View(), cmds0)
      modifies this`folders
      ensures Tidy() && View() == ClearFilters(b, way, done + {f}, z) && Faithful(es, b, View(), cmds)
      ensures cmds == cmds0 + if Names(b, way, z, f) then [Log(DropEdit(way, f, z))] else []
    {
      cmds, es := cmds0, es0;
      ClearStep(b, way, done, f, z);
      ViewAt(f);
      if z in ShelfFilter(folders[f], way) {
        FaithfulExtended(es, b, View(), cmds, DropEdit(way, f, z));
        var cmd := DropFromFilter(way, f, z);
        cmds, es := cmds + [cmd], es + [DropEdit(way, f, z)];
      }
    }

    // The loop of move_message that takes a correspondent out of every folder's filter.
    method DropFilters(way: Way, z: Uid) returns (cmds: seq<Cmd>, ghost es: seq<Edit>)
      requires Tidy()
      modifies this`folders
      ensures Tidy()
      ensures View() == ClearFilters(old(View()), way, old(View()).folders.Keys, z)
      ensures Faithful(es, old(View()), View(), cmds)
      ensures cmds == DropCmds(old(View()), way, z, Ascending(old(View()).folders.Keys))
    {
      ghost var b, done: set<FolderId> := View(), {};
      cmds, es := [], [];
      ClearNone(b, way, z);
      VisitFirst(folders.Keys);
      var todo := Ascending(folders.Keys);
      assert folders.Keys == b.folders.Keys;
      ghost var all := DropCmds(b, way, z, todo);
      while todo != []
        invariant Tidy() && Visiting(b.folders.Keys, todo, done)
        invariant View() == ClearFilters(b, way, done, z)
        invariant Faithful(es, b, View(), cmds)
        invariant cmds + DropCmds(b, way, z, todo) == all
      {
        VisitNext(b.folders.Keys, todo, done);
        cmds, es := DropNextFilter(way, z, b, done, todo, cmds, es);
        done, todo := done + {todo[0]}, todo[1..];
      }
      VisitNext(b.folders.Keys, todo, done);
    }

    method DropNextFilter(way: Way, z: Uid, ghost b: Box, ghost done: set<FolderId>, todo: seq<FolderId>, cmds0: seq<Cmd>, ghost es0: seq<Edit>)
      returns (cmds: seq<Cmd>, ghost es: seq<Edit>)
      requires Tidy() && todo != [] && todo[0] in b.folders && todo[0] !in done
      requires View() == ClearFilters(b, way, done, z) && Faithful(es0, b, View(), cmds0)
      modifies this`folders
      ensures Tidy() && View() == ClearFilters(b, way, done + {todo[0]}, z) && Faithful(es, b, View(), cmds)
      ensures cmds + DropCmds(b, way, z, todo[1..]) == cmds0 + DropCmds(b, way, z, todo)
    {
      cmds, es := DropOneFilter(way, todo[0], z, b, done, cmds0, es0);
      Assoc(cmds0, if Names(b, way, z, todo[0]) then [Log(DropEdit(way, todo[0], z))] else [], DropCmds(b, way, z, todo[1..]));
    }

    // move_message: the message leaves its folder now; only the replayed command files it again.
    method MoveMessage(uid: Uid, fold: FolderId, to: FolderId, m: MsgId, save: bool)
      returns (cmds: seq<Cmd>, ghost es: seq<Edit>)
      requires Tidy()
      modifies this`folders
      ensures Tidy()
      ensures Faithful(es, old(View()), View(), cmds)
      ensures m !in heads ==> cmds == [] && View() == old(View())
      ensures m in heads ==> View() == MoveEffect(old(View()), uid, fold, to, m, save)
      ensures m in heads ==> cmds == MoveCmds(old(View()), uid, fold, to, m, save)
    {
      ghost var b := View();
      cmds, es := [], [];
      if m !in heads { return; }
      cmds, es := DetachNote(fold, to, m);
      if save { cmds, es := SaveFilters(uid, to, heads[m], b, cmds, es); }
    }

    method DetachNote(fold: FolderId, to: FolderId, m: MsgId) returns (cmds: seq<Cmd>, ghost es: seq<Edit>)
      requires Tidy() && m in heads
      modifies this`folders
      ensures Tidy() && View() == TakeFrom(old(View()), fold, m) && cmds == [Move(m, fold, to)]
      ensures Faithful(es, old(View()), View(), cmds)
    {
      FaithfulOne(Detach(m, fold, to), View());
      var _ := TakeOut(fold, m);
      cmds, es := [Move(m, fold, to)], [Detach(m, fold, to)];
    }

    method SaveFilters(uid: Uid, to: FolderId, h: Head, ghost b: Box, cmds0: seq<Cmd>, ghost es0: seq<Edit>)
      returns (cmds: seq<Cmd>, ghost es: seq<Edit>)
      requires Tidy() && Faithful(es0, b, View(), cmds0)
      modifies this`folders
      ensures Tidy()
      ensures View() == SaveEffect(old(View()), uid, to, h)
      ensures Faithful(es, b, View(), cmds) && cmds == cmds0 + SaveCmds(old(View()), uid, to, h)
    {
      ghost var v := View();
      cmds, es := SaveOutFilter(uid, to, h, b, cmds0, es0);
      cmds, es := SaveInFilter(uid, to, h, b, cmds, es);
      Assoc(cmds0, SaveOutCmds(v, uid, to, h), SaveInCmds(SaveOut(v, uid, to, h), uid, to, h));
    }

    method SaveOutFilter(uid: Uid, to: FolderId, h: Head, ghost b: Box, cmds0: seq<Cmd>, ghost es0: seq<Edit>)
      returns (cmds: seq<Cmd>, ghost es: seq<Edit>)
      requires Tidy() && Faithful(es0, b, View(), cmds0)
      modifies this`folders
      ensures Tidy() && View() == SaveOut(old(View()), uid, to, h)
      ensures Faithful(es, b, View(), cmds) && cmds == cmds0 + SaveOutCmds(old(View()), uid, to, h)
    {
      cmds, es := cmds0, es0;
      if h.fromUid == uid && h.toUid != 0 {
        cmds, es := Redirect(Outgoing, to, h.toUid, b, cmds, es);
      }
    }

    method SaveInFilter(uid: Uid, to: FolderId, h: Head, ghost b: Box, cmds0: seq<Cmd>, ghost es0: seq<Edit>)
      returns (cmds: seq<Cmd>, ghost es: seq<Edit>)
      requires Tidy() && Faithful(es0, b, View(), cmds0)
      modifies this`folders
      ensures Tidy() && View() == SaveIn(old(View()), uid, to, h)
      ensures Faithful(es, b, View(), cmds) && cmds == cmds0 + SaveInCmds(old(View()), uid, to, h)
    {
      cmds, es := cmds0, es0;
      if h.toUid == uid {
        cmds, es := Redirect(Incoming, to, h.fromUid, b, cmds, es);
      }
    }

    // Makes one folder the only one naming z, continuing a handler that has done es and logged cmds0.
    method Redirect(way: Way, to: FolderId, z: Uid, ghost b: Box, cmds0: seq<Cmd>, ghost es0: seq<Edit>)
      returns (cmds: seq<Cmd>, ghost es: seq<Edit>)
      requires Tidy() && Faithful(es0, b, View(), cmds0)
      modifies this`folders
      ensures Tidy()
      ensures View() == RedirectEffect(old(View()), way, to, z)
      ensures Faithful(es, b, View(), cmds) && cmds == cmds0 + RedirectCmds(old(View()), way, to, z)
    {
      ghost var v := View();
      var cmds1, es1 := DropFilters(way, z);
      PutContinues(way, to, z, es0, es1, b, v, View(), cmds0, cmds1);
      var cmd := PutInFilter(way, to, z);
      cmds, es := cmds0 + (cmds1 + [cmd]), es0 + (es1 + [PutEdit(way, to, z)]);
    }

    // Erases the first occurrence of m from the vector of one folder, which operator[] may create.
    method TakeOut(f: FolderId, m: MsgId) returns (found: bool)
      requires Tidy()
      modifies this`folders
      ensures Tidy()
      ensures View() == TakeFrom(old(View()), f, m)
      ensures found <==> m in Get(old(View()), f).msgs
    {
      var x := ShelfAt(folders, f);
      SetShelf(folders, heads, f, x);
      var v;
      v, found := EraseFirst(x.msgs, m);
      SetShelf(folders, heads, f, x.(msgs := v));
      folders := folders[f := x.(msgs := v)];
    }

    // The loop that looks for the folder naming z: the last one found stays.
    method FindFolder(way: Way, z: Uid) returns (r: FolderId)
      ensures r == Route(View(), way, z)
    {
      ghost var b := View();
      r := 0;
      ghost var done: set<FolderId> := {};
      var todo := folders.Keys;
      while todo != {}
        invariant todo + done == b.folders.Keys
        invariant forall f, g :: f in done && g in todo ==> f < g
        invariant r == Greatest(Naming(b, way, z) * done)
        decreases todo
      {
        var f := Least(todo);
        ViewAt(f);
        GreatestExtended(Naming(b, way, z), done, f);
        if z in ShelfFilter(folders[f], way) { r := f; }
        todo, done := todo - {f}, done + {f};
      }
      assert Naming(b, way, z) * done == Naming(b, way, z);
    }

    // The first folder other than dest whose filter holds the default key.
    method FirstOtherDefault(way: Way, dest: FolderId) returns (r: Option<FolderId>)
      ensures var others := OtherDefaults(View(), way, dest);
        r == if others == {} then None else Some(Least(others))
    {
      ghost var b := View();
      var todo := folders.Keys;
      while todo != {}
        invariant todo <= folders.Keys
        invariant forall f :: f in OtherDefaults(b, way, dest) ==> f in todo
        decreases todo
      {
        var f := Least(todo);
        ViewAt(f);
        if 0 in ShelfFilter(folders[f], way) && f != dest {
          assert f in OtherDefaults(b, way, dest);
          return Some(f);
        }
        todo := todo - {f};
      }
      return None;
    }

    // The settings page moves the default key 0 of one filter to the chosen folder.
    method ChooseDefault(way: Way, dest: FolderId) returns (ok: bool, cmds: seq<Cmd>, ghost es: seq<Edit>)
      requires Tidy()
      modifies this`folders
      ensures Tidy()
      ensures ok <==> dest == 0 || dest in old(folders)
      ensures Faithful(es, old(View()), View(), cmds)
      ensures View() == if dest != 0 && dest in old(folders) then SettingsEffect(old(View()), way, dest) else old(View())
      ensures cmds == if dest != 0 && dest in old(folders) then SettingsCmds(old(View()), way, dest) else []
    {
      cmds, es := [], [];
      ok := dest == 0 || dest in folders;
      if dest != 0 && ok {
        var first := FirstOtherDefault(way, dest);
        if first.Some? {
          var f := first.value;
          FaithfulTwo(DropEdit(way, f, 0), PutEdit(way, dest, 0), View());
          var drop := DropFromFilter(way, f, 0);
          var put := PutInFilter(way, dest, 0);
          cmds, es := [drop, put], [DropEdit(way, f, 0), PutEdit(way, dest, 0)];
        }
      }
    }

    method MakeFolder(name: string) returns (fid: FolderId, cmds: seq<Cmd>, ghost es: seq<Edit>)
      requires Tidy()
      modifies this`folders
      ensures Tidy()
      ensures fid == NextId(old(folders.Keys)) && cmds == [FolderCreate(fid, Cut(name))]
      ensures View() == WithFolder(old(View()), fid, NEW_FOLDER.(name := Cut(name)))
      ensures Faithful(es, old(View()), View(), cmds)
    {
      fid := NextId(folders.Keys);
      FaithfulOne(CreateFolder(fid, Cut(name)), View());
      SetShelf(folders, heads, fid, NEW_SHELF.(name := Cut(name)));
      folders := folders[fid := NEW_SHELF.(name := Cut(name))];
      cmds, es := [FolderCreate(fid, Cut(name))], [CreateFolder(fid, Cut(name))];
    }

    method RenameShelf(fid: FolderId, name: string) returns (cmds: seq<Cmd>, ghost es: seq<Edit>)
      requires Tidy()
      modifies this`folders
      ensures Tidy() && cmds == [FolderRename(fid, Cut(name))]
      ensures View() == Eager(RenameFolder(fid, Cut(name)), old(View()))
      ensures Faithful(es, old(View()), View(), cmds)
    {
      FaithfulOne(RenameFolder(fid, Cut(name)), View());
      ViewAt(fid);
      if fid in folders {
        SetShelf(folders, heads, fid, folders[fid].(name := Cut(name)));
        folders := folders[fid := folders[fid].(name := Cut(name))];
      }
      cmds, es := [FolderRename(fid, Cut(name))], [RenameFolder(fid, Cut(name))];
    }

    // Only an empty folder is removed; removing one that is not there is still logged.
    method RemoveShelf(fid: FolderId) returns (refused: bool, cmds: seq<Cmd>, ghost es: seq<Edit>)
      requires Tidy()
      modifies this`folders
      ensures Tidy()
      ensures refused <==> Get(old(View()), fid).msgs != {}
      ensures refused ==> View() == old(View()) && cmds == []
      ensures !refused ==> View() == old(View()).(folders := old(View()).folders - {fid}) && cmds == [FolderRemove(fid)]
      ensures Faithful(es, old(View()), View(), cmds)
    {
      cmds, es := [], [];
      SetShelf(folders, heads, fid, NEW_SHELF);
      if fid in folders && |folders[fid].msgs| > 0 {
        assert folders[fid].msgs[0] in Get(View(), fid).msgs;
        return true, cmds, es;
      }
      refused := false;
      FaithfulOne(EraseFolder(fid), View());
      ErasedShelf(folders, heads, fid);
      folders := folders - {fid};
      cmds, es := [FolderRemove(fid)], [EraseFolder(fid)];
    }

    // The folders of one mailbox are searched for the correspondent and for the default.
    method PickFolder(way: Way, other: Uid) returns (f: FolderId)
      ensures f == if Route(View(), way, 0) == 0 then 0 else FolderFor(View(), way, other)
    {
      var f0 := FindFolder(way, 0);
      f := FindFolder(way, other);
      if f0 == 0 { f := 0; } else if f == 0 { f := f0; }
    }

    // One mailbox gets the note, under its next id.
    method AddNote(f: FolderId, note: Head, sort: nat, desc: bool) returns (cmds: seq<Cmd>)
      requires Tidy()
      modifies this
      ensures Tidy() && Shown(sort, desc) && View() == Added(old(View()), f, note) && cmds == AddedCmds(old(View()), f, note)
      ensures Faithful([Deliver(f, Numbered(old(View()), note))], old(View()), View(), cmds)
    {
      var h := note.(id := NextId(heads.Keys));
      assert h == Numbered(View(), note);
      DeliveryFaithful(f, h, View());
      FileNote(f, h, sort, desc);
      cmds := [SetHead(f, h)];
    }

    // One mailbox's part of url_notes_send: choose the folder, take the next id, file the message.
    method DeliverNote(way: Way, other: Uid, note: Head, sort: nat, desc: bool) returns (ok: bool, cmds: seq<Cmd>)
      requires Tidy()
      modifies this
      ensures Tidy()
      ensures ok <==> Route(old(View()), way, 0) != 0
      ensures !ok ==> View() == old(View()) && cmds == []
      ensures ok ==> Shown(sort, desc)
      ensures ok ==> var b := old(View()); var f := FolderFor(b, way, other);
        && View() == Added(b, f, note) && cmds == AddedCmds(b, f, note)
        && Faithful([Deliver(f, Numbered(b, note))], b, View(), cmds)
    {
      var f := PickFolder(way, other);
      RouteFound(View(), way, other);
      ok := f != 0;
      cmds := [];
      if ok { cmds := AddNote(f, note, sort, desc); }
    }

    method FileNote(f: FolderId, h: Head, sort: nat, desc: bool)
      modifies this
      ensures Tidy() && Shown(sort, desc)
      ensures View() == NoteBox.Resort(FileIn(old(View()).(heads := old(View()).heads[h.id := h]), f, h.id))
    {
      SetHeads(folders, heads, heads[h.id := h]);
      heads := heads[h.id := h];
      PushBack(f, h.id);
      Resort(sort, desc);
    }

    method PushBack(f: FolderId, m: MsgId)
      modifies this`folders
      ensures View() == FileIn(old(View()), f, m)
    {
      var x := ShelfAt(folders, f);
      assert Ids(x.msgs + [m]) == Ids(x.msgs) + {m};
      SetShelf(folders, heads, f, x.(msgs := x.msgs + [m]));
      folders := folders[f := x.(msgs := x.msgs + [m])];
    }

    // mark_msg_read and mark_msg_answered, on one mailbox: the reader's own message, or the sender's copy.
    method MarkMessage(recipient: Option<Uid>, m: MsgId, was: nat, becomes: nat)
      returns (cmds: seq<Cmd>, ghost es: seq<Edit>)
      requires Tidy()
      modifies this`heads
      ensures Tidy()
      ensures Faithful(es, old(View()), View(), cmds)
      ensures heads == Marked(old(heads), recipient, m, was, becomes)
      ensures var mine := Mine(old(heads), recipient, m);
        cmds == (if mine then [SetUnread(m)] else []) + (if mine && old(heads)[m].status == was then [SetStatus(m, becomes)] else [])
      ensures View() == old(View()).(heads := heads)
    {
      ghost var b, h0 := View(), heads;
      cmds, es := [], [];
      if m !in heads || (recipient.Some? && heads[m].toUid != recipient.value) { return; }
      MarkedInSteps(h0, recipient, m, was, becomes);
      cmds, es := TurnRead(m, b);
      if heads[m].status == was { cmds, es := TurnStatus(m, becomes, b, cmds, es); }
    }

    method TurnRead(m: MsgId, ghost b: Box) returns (cmds: seq<Cmd>, ghost es: seq<Edit>)
      requires Tidy() && m in heads && View() == b
      modifies this`heads
      ensures Tidy() && cmds == [SetUnread(m)] && Faithful(es, b, View(), cmds)
      ensures heads == old(heads)[m := old(heads)[m].(unread := false)]
      ensures View() == old(View()).(heads := heads)
    {
      FaithfulExtended([], b, b, [], MarkRead(m));
      SetHeads(folders, heads, heads[m := heads[m].(unread := false)]);
      heads := heads[m := heads[m].(unread := false)];
      cmds, es := [] + [SetUnread(m)], [] + [MarkRead(m)];
    }

    method TurnStatus(m: MsgId, becomes: nat, ghost b: Box, cmds0: seq<Cmd>, ghost es0: seq<Edit>)
      returns (cmds: seq<Cmd>, ghost es: seq<Edit>)
      requires Tidy() && m in heads && Faithful(es0, b, View(), cmds0)
      modifies this`heads
      ensures Tidy() && cmds == cmds0 + [SetStatus(m, becomes)] && Faithful(es, b, View(), cmds)
      ensures heads == old(heads)[m := old(heads)[m].(status := becomes)]
      ensures View() == old(View()).(heads := heads)
    {
      FaithfulExtended(es0, b, View(), cmds0, MarkStatus(m, becomes));
      SetHeads(folders, heads, heads[m := heads[m].(status := becomes)]);
      heads := heads[m := heads[m].(status := becomes)];
      cmds, es := cmds0 + [SetStatus(m, becomes)], es0 + [MarkStatus(m, becomes)];
    }

    // delete_message: the message leaves every folder now; its head goes when the command is replayed.
    method DeleteMessage(m: MsgId, sort: nat, desc: bool) returns (cmds: seq<Cmd>)
      requires Tidy()
      modifies this
      ensures Tidy()
      ensures m !in old(heads) ==> View() == old(View()) && cmds == []
      ensures m in old(heads) ==> View() == NoteBox.Resort(Unfile(old(View()), m)) && Shown(sort, desc)
      ensures var b := old(View());
        m in old(heads) ==> (cmds == [Remove(m)] <==> m != 0 && exists f :: f in b.folders && f != 0 && m in b.folders[f].msgs)
      ensures cmds != [] ==> cmds == [Remove(m)] && Faithful([Unlink(m)], old(View()), View(), cmds)
    {
      if m !in heads { return []; }
      DeletionFaithful(View(), m);
      LastHolderTells(View(), m);
      var fld := UnfileAll(m);
      Resort(sort, desc);
      cmds := if fld != 0 && m != 0 then [Remove(m)] else [];
    }

    method UnfileOne(f: FolderId, m: MsgId, ghost b: Box, ghost done: set<FolderId>, fld0: FolderId) returns (fld: FolderId)
      requires Tidy() && f in b.folders && (forall g :: g in done ==> g < f)
      requires View() == UnfileIn(b, done, m) && fld0 == Greatest(Holding(b, m) * done)
      modifies this`folders
      ensures Tidy() && View() == UnfileIn(b, done + {f}, m) && fld == Greatest(Holding(b, m) * (done + {f}))
    {
      UnfileStep(b, done, f, m);
      GreatestExtended(Holding(b, m), done, f);
      var found := TakeOut(f, m);
      fld := if found then f else fld0;
    }

    method UnfileAll(m: MsgId) returns (fld: FolderId)
      requires Tidy()
      modifies this`folders
      ensures Tidy() && View() == Unfile(old(View()), m) && fld == Greatest(Holding(old(View()), m))
    {
      ghost var b, done: set<FolderId> := View(), {};
      fld := 0;
      UnfileEnds(b, m);
      HoldingAll(b, m);
      var todo := folders.Keys;
      while todo != {}
        invariant Tidy()
        invariant todo + done == b.folders.Keys && todo !! done
        invariant Before(done, todo)
        invariant View() == UnfileIn(b, done, m)
        invariant fld == Greatest(Holding(b, m) * done)
        decreases todo
      {
        var f := Least(todo);
        NextLeast(done, todo);
        fld := UnfileOne(f, m, b, done, fld);
        todo, done := todo - {f}, done + {f};
      }
      assert done == b.folders.Keys;
      HoldingAll(b, m);
    }

    // check_notes_config
    method CheckConfig(inName: string, outName: string) returns (cmds: seq<Cmd>, ghost es: seq<Edit>)
      requires Tidy()
      modifies this
      ensures Tidy()
      ensures View() == CheckEffect(old(View()), inName, outName)
      ensures Faithful(es, old(View()), View(), cmds) && cmds == CheckCmds(old(View()), inName, outName)
    {
      ghost var b := View();
      var outDefault := FindFolder(Outgoing, 0);
      var inDefault := FindFolder(Incoming, 0);
      DefaultFaithful(b, Incoming, inName);
      cmds, es := [], DefaultEdits(b, Incoming, inName);
      if inDefault == 0 { cmds := AddDefault(Incoming, inName); }
      OtherWayUnchanged(b, inName);
      ghost var b1, cs := View(), cmds;
      DefaultFaithful(b1, Outgoing, outName);
      var more: seq<Cmd> := [];
      if outDefault == 0 { more := AddDefault(Outgoing, outName); }
      FaithfulJoined(es, DefaultEdits(b1, Outgoing, outName), b, b1, View(), cs, more);
      cmds, es := RemoveOrphans(b, cmds + more, es + DefaultEdits(b1, Outgoing, outName));
    }

    method AddDefault(way: Way, name: string) returns (cmds: seq<Cmd>)
      requires Tidy() && Route(View(), way, 0) == 0
      modifies this`folders
      ensures Tidy() && View() == WithDefault(old(View()), way, name) && cmds == DefaultCmds(old(View()), way, name)
    {
      var fid := NextId(folders.Keys);
      var x := ShelfWithFilter(NEW_SHELF.(name := name), way, {0});
      assert View().folders.Keys == folders.Keys && Ids([]) == {};
      SetShelf(folders, heads, fid, x);
      folders := folders[fid := x];
      cmds := [FolderCreate(fid, name), Log(PutEdit(way, fid, 0))];
    }

    method CollectFiled() returns (s: set<MsgId>)
      ensures s == Filed(View())
    {
      s := {};
      ghost var done: set<FolderId> := {};
      var todo := folders.Keys;
      while todo != {}
        invariant todo + done == folders.Keys
        invariant forall m :: m in s <==> exists f :: f in done && m in Ids(folders[f].msgs)
        decreases todo
      {
        var f := Least(todo);
        s := s + Ids(folders[f].msgs);
        todo, done := todo - {f}, done + {f};
      }
      FiledIs(folders, heads, s);
    }

    method RemoveOrphan(m: MsgId, ghost b: Box, ghost done: set<MsgId>, ghost b0: Box, cmds0: seq<Cmd>, ghost es0: seq<Edit>)
      returns (cmds: seq<Cmd>, ghost es: seq<Edit>)
      requires View() == b.(heads := b.heads - done) && Faithful(es0, b0, View(), cmds0) && m !in Filed(b)
      modifies this`heads
      ensures View() == b.(heads := b.heads - (done + {m})) && Faithful(es, b0, View(), cmds)
      ensures cmds == cmds0 + [Remove(m)]
    {
      OrphanStep(b, done, m);
      FaithfulExtended(es0, b0, View(), cmds0, DropOrphan(m));
      SetHeads(folders, heads, heads - {m});
      heads := heads - {m};
      cmds, es := cmds0 + [Remove(m)], es0 + [DropOrphan(m)];
    }

    method RemoveOrphans(ghost b0: Box, cmds0: seq<Cmd>, ghost es0: seq<Edit>) returns (cmds: seq<Cmd>, ghost es: seq<Edit>)
      requires Tidy() && Faithful(es0, b0, View(), cmds0)
      modifies this`heads
      ensures Tidy() && View() == DropOrphans(old(View())) && Faithful(es, b0, View(), cmds)
      ensures cmds == cmds0 + OrphanCmds(Orphans(old(View())))
    {
      ghost var b, done: set<MsgId> := View(), {};
      var filed := CollectFiled();
      cmds, es := cmds0, es0;
      var todel := Ascending(heads.Keys - filed);
      assert todel == Orphans(b);
      VisitFirst(b.heads.Keys - Filed(b));
      OrphanStep(b, {}, 0);
      while todel != []
        invariant Visiting(b.heads.Keys - Filed(b), todel, done)
        invariant folders == old(folders) && View() == b.(heads := b.heads - done)
        invariant Faithful(es, b0, View(), cmds)
        invariant cmds + OrphanCmds(todel) == cmds0 + OrphanCmds(Orphans(b))
      {
        VisitNext(b.heads.Keys - Filed(b), todel, done);
        NextOrphan(todel, cmds);
        cmds, es := RemoveOrphan(todel[0], b, done, b0, cmds, es);
        done, todel := done + {todel[0]}, todel[1..];
      }
      VisitNext(b.heads.Keys - Filed(b), todel, done);
      OrphanStep(b, done, 0);
    }

    // update_datum, for the note commands.
    method ApplyCommand(c: Cmd, sort: nat, desc: bool)
      requires Tidy()
      modifies this
      ensures Tidy() && View() == Apply(c, old(View()))
      ensures c.SetHead? || c.Remove? || c.Move? ==> Shown(sort, desc)
    {
      match c
      case FolderCreate(f, n) => NameShelf(f, n);
      case FolderRename(f, n) => NameShelf(f, n);
      case FolderRemove(f) =>
        ErasedShelf(folders, heads, f);
        folders := folders - {f};
      case SetStatus(m, s) => ChangeHead(m, c);
      case SetUnread(m) => ChangeHead(m, c);
      case FilterOutDelete(f, z) => var _ := DropFromFilter(Outgoing, f, z);
      case FilterOutInsert(f, z) => var _ := PutInFilter(Outgoing, f, z);
      case FilterInDelete(f, z) => var _ := DropFromFilter(Incoming, f, z);
      case FilterInInsert(f, z) => var _ := PutInFilter(Incoming, f, z);
      case SetHead(f, h) => FileNote(f, h, sort, desc);
      case Remove(m) => RemoveNote(m, sort, desc);
      case Move(m, f, t) => MoveNote(m, f, t, sort, desc);
    }

    method ChangeHead(m: MsgId, c: Cmd)
      requires Tidy() && ((c.SetStatus? && c.msg == m) || c == SetUnread(m))
      modifies this`heads
      ensures Tidy() && View() == Apply(c, old(View()))
    {
      if m in heads {
        var h := if c.SetStatus? then heads[m].(status := c.status) else heads[m].(unread := false);
        SetHeads(folders, heads, heads[m := h]);
        heads := heads[m := h];
      }
    }

    // The value of the mailbox, and not the order in its folders.
    method ResortView(sort: nat, desc: bool)
      modifies this
      ensures Tidy() && Shown(sort, desc) && View() == NoteBox.Resort(old(View()))
    {
      Resort(sort, desc);
    }

    method RemoveNote(m: MsgId, sort: nat, desc: bool)
      requires Tidy()
      modifies this
      ensures Tidy() && Shown(sort, desc) && View() == Apply(Remove(m), old(View()))
    {
      var _ := UnfileAll(m);
      EraseHead(m);
      ResortView(sort, desc);
    }

    method EraseHead(m: MsgId)
      requires Tidy()
      modifies this`heads
      ensures Tidy() && View() == old(View()).(heads := old(View()).heads - {m})
    {
      SetHeads(folders, heads, heads - {m});
      heads := heads - {m};
    }

    method MoveNote(m: MsgId, f: FolderId, t: FolderId, sort: nat, desc: bool)
      requires Tidy()
      modifies this
      ensures Tidy() && Shown(sort, desc) && View() == Apply(Move(m, f, t), old(View()))
    {
      Relocate(m, f, t);
      ResortView(sort, desc);
    }

    method Relocate(m: MsgId, f: FolderId, t: FolderId)
      requires Tidy()
      modifies this`folders
      ensures View() == FileIn(TakeFrom(old(View()), f, m), t, m)
    {
      var _ := TakeOut(f, m);
      PushBack(t, m);
    }

    method NameShelf(f: FolderId, n: string)
      requires Tidy()
      modifies this`folders
      ensures Tidy() && View() == WithFolder(old(View()), f, Get(old(View()), f).(name := n))
    {
      SetShelf(folders, heads, f, ShelfAt(folders, f).(name := n));
      folders := folders[f := ShelfAt(folders, f).(name := n)];
    }
  }

  // url_notes_send: a note from one user to another, and a copy for the sender. Both default folders must
  // exist before either mailbox is written.
  method SendNote(sender: Mailbox, recipient: Mailbox, from: Uid, to: Uid, note: Head, copy: bool, sort: nat, desc: bool)
    returns (ok: bool, toCmds: seq<Cmd>, fromCmds: seq<Cmd>)
    requires sender.Tidy() && recipient.Tidy()
    modifies sender, recipient
    ensures sender.Tidy() && recipient.Tidy()
    ensures ok <==> Route(old(sender.View()), Outgoing, 0) != 0 && Route(old(recipient.View()), Incoming, 0) != 0
    ensures !ok ==> sender.View() == old(sender.View()) && recipient.View() == old(recipient.View()) && toCmds == [] && fromCmds == []
    ensures ok ==> toCmds == AddedCmds(old(recipient.View()), FolderFor(old(recipient.View()), Incoming, from), note)
    ensures ok && sender != recipient ==>
      var b, v := old(sender.View()), old(recipient.View()); var f, seen := FolderFor(b, Outgoing, to), note.(unread := false);
      && recipient.View() == Added(v, FolderFor(v, Incoming, from), note)
      && sender.View() == (if copy then Added(b, f, seen) else b) && fromCmds == (if copy then AddedCmds(b, f, seen) else [])
    // a note to oneself: the copy comes second, in the folder found first
    ensures ok && sender == recipient ==>
      var b := old(sender.View()); var f, seen, v := FolderFor(b, Outgoing, to), note.(unread := false), Added(b, FolderFor(b, Incoming, from), note);
      sender.View() == (if copy then Added(v, f, seen) else v) && fromCmds == (if copy then AddedCmds(v, f, seen) else [])
  {
    toCmds, fromCmds := [], [];
    ok := false;
    RouteFound(sender.View(), Outgoing, to);
    RouteFound(recipient.View(), Incoming, from);
    var fromFolder := sender.PickFolder(Outgoing, to);
    if fromFolder == 0 { return; }
    var toFolder := recipient.PickFolder(Incoming, from);
    if toFolder == 0 { return; }
    ok := true;
    toCmds := recipient.AddNote(toFolder, note, sort, desc);
    if copy { fromCmds := sender.AddNote(fromFolder, note.(unread := false), sort, desc); }
  }
}
