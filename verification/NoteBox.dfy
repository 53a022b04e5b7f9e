/**
The mailbox of one user (u_notes): folders with filters and message ids, and message heads. A mailbox is
changed in two places: at once by the page handlers, and later again by the update thread, which replays
the command each handler logged. This module is the meaning of a mailbox and of a logged command; message
order inside a folder is display order and is left to module NoteOrder.
*/
module NoteBox {
  import opened Options

  type Uid = nat
  type FolderId = nat
  type MsgId = nat

  datatype Head = Head(
    id: MsgId, subject: string, fromNick: string, toNick: string, fromNickId: nat, toNickId: nat,
    fromUid: Uid, toUid: Uid, unread: bool, important: bool, system: bool, contentLength: nat, sendDate: int,
    status: nat, hasAttachment: bool, attachmentName: string, attachmentLength: nat, notifyRead: MsgId)

  const STATUS_READ: nat := 0
  const STATUS_UNREAD_SENT: nat := 1
  const STATUS_READ_ANSWERED: nat := 3

  // What operator[] creates for a message id that has no head yet.
  const DEFAULT_HEAD := Head(0, "", "", "", 0, 0, 0, 0, true, false, false, 0, 0, 0, false, "", 0, 0)

  datatype Folder = Folder(name: string, filterIn: set<Uid>, filterOut: set<Uid>, msgs: set<MsgId>)

  // What operator[] creates for a folder id that is not there yet.
  const NEW_FOLDER := Folder("", {}, {}, {})

  datatype Box = Box(folders: map<FolderId, Folder>, heads: map<MsgId, Head>)

  // The note commands of the update log.
  datatype Cmd =
    | FolderCreate(fid: FolderId, name: string)
    | FolderRename(fid: FolderId, name: string)
    | FolderRemove(fid: FolderId)
    | SetStatus(msg: MsgId, status: nat)
    | SetUnread(msg: MsgId)
    | FilterOutDelete(fid: FolderId, who: Uid)
    | FilterOutInsert(fid: FolderId, who: Uid)
    | FilterInDelete(fid: FolderId, who: Uid)
    | FilterInInsert(fid: FolderId, who: Uid)
    | SetHead(fid: FolderId, head: Head)
    | Remove(msg: MsgId)
    | Move(msg: MsgId, from: FolderId, to: FolderId)

  function FolderAt(b: Box, f: FolderId): Option<Folder> { Lookup(b.folders, f) }

  function HeadAt(b: Box, m: MsgId): Option<Head> { Lookup(b.heads, m) }

  // map_folders[f] as an expression: the folder, or the one operator[] would create.
  function Get(b: Box, f: FolderId): Folder { FolderAt(b, f).GetOr(NEW_FOLDER) }

  function Filed(b: Box): set<MsgId> {
    set f, m | f in b.folders && m in b.folders[f].msgs :: m
  }

  // Every filed message has a head; resort() makes this true by creating default heads.
  ghost predicate Closed(b: Box) {
    forall f, m :: f in b.folders && m in b.folders[f].msgs ==> m in b.heads
  }

  function Resort(b: Box): Box {
    b.(heads := (map m | m in Filed(b) :: DEFAULT_HEAD) + b.heads)
  }

  function WithFolder(b: Box, f: FolderId, x: Folder): Box { b.(folders := b.folders[f := x]) }

  // push_back, and erase, of m in one folder, which operator[] creates if it is not there.
  function FileIn(b: Box, f: FolderId, m: MsgId): Box {
    WithFolder(b, f, Get(b, f).(msgs := Get(b, f).msgs + {m}))
  }

  function TakeFrom(b: Box, f: FolderId, m: MsgId): Box {
    WithFolder(b, f, Get(b, f).(msgs := Get(b, f).msgs - {m}))
  }

  // Takes m out of every folder that exists.
  function Unfile(b: Box, m: MsgId): Box {
    b.(folders := map f | f in b.folders :: b.folders[f].(msgs := b.folders[f].msgs - {m}))
  }

  // update_datum: what one logged command does under the mailbox lock.
  function Raw(c: Cmd, b: Box): Box {
    match c
    case FolderCreate(f, n) => WithFolder(b, f, Get(b, f).(name := n))
    case FolderRename(f, n) => WithFolder(b, f, Get(b, f).(name := n))
    case FolderRemove(f) => b.(folders := b.folders - {f})
    case SetStatus(m, s) => if m in b.heads then b.(heads := b.heads[m := b.heads[m].(status := s)]) else b
    case SetUnread(m) => if m in b.heads then b.(heads := b.heads[m := b.heads[m].(unread := false)]) else b
    case FilterOutDelete(f, z) => WithFolder(b, f, Get(b, f).(filterOut := Get(b, f).filterOut - {z}))
    case FilterOutInsert(f, z) => WithFolder(b, f, Get(b, f).(filterOut := Get(b, f).filterOut + {z}))
    case FilterInDelete(f, z) => WithFolder(b, f, Get(b, f).(filterIn := Get(b, f).filterIn - {z}))
    case FilterInInsert(f, z) => WithFolder(b, f, Get(b, f).(filterIn := Get(b, f).filterIn + {z}))
    case SetHead(f, h) => FileIn(b.(heads := b.heads[h.id := h]), f, h.id)
    case Remove(m) => Unfile(b, m).(heads := b.heads - {m})
    case Move(m, f, t) => FileIn(TakeFrom(b, f, m), t, m)
  }

  // Afterwards three of them call note_resort, which takes the lock again.
  predicate Resorts(c: Cmd) { c.SetHead? || c.Remove? || c.Move? }

  // The command as a whole.
  function Apply(c: Cmd, b: Box): Box { if Resorts(c) then Resort(Raw(c, b)) else Raw(c, b) }

  function ApplyAll(cs: seq<Cmd>, b: Box): Box {
    if cs == [] then b else ApplyAll(cs[1..], Apply(cs[0], b))
  }

  // A command acts on each folder and on each head separately. These two functions say how.
  function FolderAct(c: Cmd, f: FolderId, x: Option<Folder>): Option<Folder> {
    var y := x.GetOr(NEW_FOLDER);
    match c
    case FolderCreate(g, n) => if f == g then Some(y.(name := n)) else x
    case FolderRename(g, n) => if f == g then Some(y.(name := n)) else x
    case FolderRemove(g) => if f == g then None else x
    case SetStatus(_, _) => x
    case SetUnread(_) => x
    case FilterOutDelete(g, z) => if f == g then Some(y.(filterOut := y.filterOut - {z})) else x
    case FilterOutInsert(g, z) => if f == g then Some(y.(filterOut := y.filterOut + {z})) else x
    case FilterInDelete(g, z) => if f == g then Some(y.(filterIn := y.filterIn - {z})) else x
    case FilterInInsert(g, z) => if f == g then Some(y.(filterIn := y.filterIn + {z})) else x
    case SetHead(g, h) => if f == g then Some(y.(msgs := y.msgs + {h.id})) else x
    case Remove(m) => if x.Some? then Some(y.(msgs := y.msgs - {m})) else None
    case Move(m, g, t) =>
      var x1 := if f == g then Some(y.(msgs := y.msgs - {m})) else x;
      var y1 := x1.GetOr(NEW_FOLDER);
      if f == t then Some(y1.(msgs := y1.msgs + {m})) else x1
  }

  function HeadAct(c: Cmd, m: MsgId, x: Option<Head>): Option<Head> {
    match c
    case SetStatus(n, s) => if m == n && x.Some? then Some(x.value.(status := s)) else x
    case SetUnread(n) => if m == n && x.Some? then Some(x.value.(unread := false)) else x
    case SetHead(_, h) => if m == h.id then Some(h) else x
    case Remove(n) => if m == n then None else x
    case Move(n, _, _) => if m == n then Some(x.GetOr(DEFAULT_HEAD)) else x
    case _ => x
  }

  // Sorting a closed mailbox creates no head.
  lemma ResortClosed(b: Box)
    requires Closed(b)
    ensures Resort(b) == b
  {
    assert Filed(b) <= b.heads.Keys;
    assert Resort(b).heads == b.heads;
  }

  lemma ResortHeads(b: Box, m: MsgId)
    ensures HeadAt(Resort(b), m) == if m in b.heads || m !in Filed(b) then HeadAt(b, m) else Some(DEFAULT_HEAD)
    ensures Closed(Resort(b))
  {
    forall f, n | f in b.folders && n in b.folders[f].msgs
      ensures n in Resort(b).heads
    {
      assert n in Filed(b);
    }
  }

  lemma ApplyFolder(c: Cmd, b: Box, f: FolderId)
    ensures FolderAt(Apply(c, b), f) == FolderAct(c, f, FolderAt(b, f))
  {
  }

  lemma SetHeadHeads(f: FolderId, h: Head, b: Box)
    requires Closed(b)
    ensures Closed(Apply(SetHead(f, h), b)) && Apply(SetHead(f, h), b).heads == b.heads[h.id := h]
  {
    ResortClosed(Raw(SetHead(f, h), b));
  }

  lemma RemoveHeads(m: MsgId, b: Box)
    requires Closed(b)
    ensures Closed(Apply(Remove(m), b)) && Apply(Remove(m), b).heads == b.heads - {m}
  {
    ResortClosed(Raw(Remove(m), b));
  }

  lemma MoveHeads(m: MsgId, f: FolderId, t: FolderId, b: Box, n: MsgId)
    requires Closed(b)
    ensures Closed(Apply(Move(m, f, t), b))
    ensures HeadAt(Apply(Move(m, f, t), b), n) == HeadAct(Move(m, f, t), n, HeadAt(b, n))
  {
    var u := Raw(Move(m, f, t), b);
    assert m in u.folders[t].msgs;
    assert m in Filed(u);
    assert forall k :: k in Filed(u) ==> k == m || k in b.heads;
    ResortHeads(u, n);
  }

  lemma ApplyHeads(c: Cmd, b: Box)
    requires Closed(b)
    ensures Closed(Apply(c, b))
    ensures forall m :: HeadAt(Apply(c, b), m) == HeadAct(c, m, HeadAt(b, m))
  {
    match c
    case SetHead(f, h) => SetHeadHeads(f, h, b);
    case Remove(m) => RemoveHeads(m, b);
    case Move(m, f, t) =>
      MoveHeads(m, f, t, b, m);
      forall n
        ensures HeadAt(Apply(c, b), n) == HeadAct(c, n, HeadAt(b, n))
      {
        MoveHeads(m, f, t, b, n);
      }
    case _ =>
  }

  lemma BoxExtensional(x: Box, y: Box)
    requires forall f :: FolderAt(x, f) == FolderAt(y, f)
    requires forall m :: HeadAt(x, m) == HeadAt(y, m)
    ensures x == y
  {
    assert forall f :: Lookup(x.folders, f) == FolderAt(x, f) == FolderAt(y, f) == Lookup(y.folders, f);
    assert forall m :: Lookup(x.heads, m) == HeadAt(x, m) == HeadAt(y, m) == Lookup(y.heads, m);
    MapExtensional(x.folders, y.folders);
    MapExtensional(x.heads, y.heads);
  }

  lemma {:induction false} ApplyAllClosed(cs: seq<Cmd>, b: Box)
    requires Closed(b)
    ensures Closed(ApplyAll(cs, b))
  {
    if cs != [] {
      ApplyHeads(cs[0], b);
      ApplyAllClosed(cs[1..], Apply(cs[0], b));
    }
  }
}
