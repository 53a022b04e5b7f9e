/**
Why changing the cached mailbox at once and replaying the logged command later is harmless.
An Edit is one eager write of a page handler, done under the mailbox lock, with the command it logs.
Commands wait in the handler's own list until the handler ends, then enter the shared queue one by one,
and the update thread takes them from there in order. Handlers of one mailbox may overlap.
*/
module NoteReplay {
  import opened Options
  import opened NoteBox

  datatype Edit =
    | CreateFolder(fid: FolderId, name: string)
    | RenameFolder(fid: FolderId, name: string)
    | EraseFolder(fid: FolderId)
    | DropOut(fid: FolderId, who: Uid)
    | PutOut(fid: FolderId, who: Uid)
    | DropIn(fid: FolderId, who: Uid)
    | PutIn(fid: FolderId, who: Uid)
    | MarkStatus(msg: MsgId, status: nat)
    | MarkRead(msg: MsgId)
    | Deliver(fid: FolderId, head: Head)
    | Announce(fid: FolderId, head: Head)          // a system note: logged, never written eagerly
    | Unlink(msg: MsgId)                            // delete_message: out of its folders, the head stays
    | DropOrphan(msg: MsgId)                        // check_notes_config: the head of an unfiled message goes
    | Detach(msg: MsgId, from: FolderId, to: FolderId)  // move_message: out of one folder, into none yet

  function Log(e: Edit): Cmd {
    match e
    case CreateFolder(f, n) => Cmd.FolderCreate(f, n)
    case RenameFolder(f, n) => Cmd.FolderRename(f, n)
    case EraseFolder(f) => Cmd.FolderRemove(f)
    case DropOut(f, z) => FilterOutDelete(f, z)
    case PutOut(f, z) => FilterOutInsert(f, z)
    case DropIn(f, z) => FilterInDelete(f, z)
    case PutIn(f, z) => FilterInInsert(f, z)
    case MarkStatus(m, s) => SetStatus(m, s)
    case MarkRead(m) => SetUnread(m)
    case Deliver(f, h) => SetHead(f, h)
    case Announce(f, h) => SetHead(f, h)
    case Unlink(m) => Remove(m)
    case DropOrphan(m) => Remove(m)
    case Detach(m, f, t) => Move(m, f, t)
  }

  function Eager(e: Edit, b: Box): Box {
    match e
    case CreateFolder(f, n) => WithFolder(b, f, NEW_FOLDER.(name := n))
    case RenameFolder(f, n) => if f in b.folders then WithFolder(b, f, b.folders[f].(name := n)) else b
    case EraseFolder(f) => b.(folders := b.folders - {f})
    case DropOut(f, z) => WithFolder(b, f, Get(b, f).(filterOut := Get(b, f).filterOut - {z}))
    case PutOut(f, z) => WithFolder(b, f, Get(b, f).(filterOut := Get(b, f).filterOut + {z}))
    case DropIn(f, z) => WithFolder(b, f, Get(b, f).(filterIn := Get(b, f).filterIn - {z}))
    case PutIn(f, z) => WithFolder(b, f, Get(b, f).(filterIn := Get(b, f).filterIn + {z}))
    case MarkStatus(m, s) => if m in b.heads then b.(heads := b.heads[m := b.heads[m].(status := s)]) else b
    case MarkRead(m) => if m in b.heads then b.(heads := b.heads[m := b.heads[m].(unread := false)]) else b
    case Deliver(f, h) => Resort(FileIn(b.(heads := b.heads[h.id := h]), f, h.id))
    case Announce(_, _) => b
    case Unlink(m) => Resort(Unfile(b, m))
    case DropOrphan(m) => b.(heads := b.heads - {m})
    case Detach(m, f, _) => TakeFrom(b, f, m)
  }

  // What the handlers check, or compute, under the lock of the write: a new folder takes an unused id, only an
  // empty folder is erased, only a message with a head is moved or deleted, and only one that is in no folder
  // is an orphan.
  predicate Allowed(e: Edit, b: Box) {
    && (e.CreateFolder? ==> e.fid !in b.folders)
    && (e.EraseFolder? ==> Get(b, e.fid).msgs == {})
    && ((e.Unlink? || e.Detach?) ==> e.msg in b.heads)
    && (e.DropOrphan? ==> e.msg !in Filed(b))
  }

  // x and y differ at most in what command c is about to overwrite.
  ghost predicate SameBut(c: Cmd, x: Box, y: Box) {
    Apply(c, x) == Apply(c, y) && (c.Move? ==> x.heads == y.heads)
  }

  lemma HeadCongruence(c: Cmd, d: Cmd, m: MsgId, x: Option<Head>, y: Option<Head>)
    requires HeadAct(c, m, x) == HeadAct(c, m, y)
    requires c.Move? ==> x == y
    ensures HeadAct(c, m, HeadAct(d, m, x)) == HeadAct(c, m, HeadAct(d, m, y))
  {
  }

  // One yes-or-no fact about a folder that may be absent.
  datatype Fact = Here | Msg(m: MsgId) | In(z: Uid) | Out(z: Uid)

  predicate Holds(k: Fact, x: Option<Folder>) {
    var y := x.GetOr(NEW_FOLDER);
    match k
    case Here => x.Some?
    case Msg(m) => m in y.msgs
    case In(z) => z in y.filterIn
    case Out(z) => z in y.filterOut
  }

  // What a command makes of a fact depends on that fact alone.
  lemma FactLocal(c: Cmd, f: FolderId, k: Fact, x: Option<Folder>, y: Option<Folder>)
    requires Holds(k, x) == Holds(k, y)
    ensures Holds(k, FolderAct(c, f, x)) == Holds(k, FolderAct(c, f, y))
  {
  }

  // A map on truth values that sends p and q alike also sends their images under any other map alike.
  lemma FactCongruence(c: Cmd, d: Cmd, f: FolderId, k: Fact, x: Option<Folder>, y: Option<Folder>)
    requires FolderAct(c, f, x) == FolderAct(c, f, y)
    ensures Holds(k, FolderAct(c, f, FolderAct(d, f, x))) == Holds(k, FolderAct(c, f, FolderAct(d, f, y)))
  {
    var x1, y1 := FolderAct(d, f, x), FolderAct(d, f, y);
    if Holds(k, x1) == Holds(k, y1) {
      FactLocal(c, f, k, x1, y1);
    } else {
      if Holds(k, x) == Holds(k, y) {
        FactLocal(d, f, k, x, y);
      } else if Holds(k, x1) == Holds(k, x) {
        FactLocal(c, f, k, x1, x);
        FactLocal(c, f, k, y1, y);
      } else {
        FactLocal(c, f, k, x1, y);
        FactLocal(c, f, k, y1, x);
      }
    }
  }

  // What a command makes of a folder's name; an absent folder has the name of a new one.
  function NameAct(c: Cmd, f: FolderId, n: string): string {
    match c
    case FolderCreate(g, name) => if f == g then name else n
    case FolderRename(g, name) => if f == g then name else n
    case FolderRemove(g) => if f == g then NEW_FOLDER.name else n
    case _ => n
  }

  lemma NameLocal(c: Cmd, f: FolderId, x: Option<Folder>)
    ensures FolderAct(c, f, x).GetOr(NEW_FOLDER).name == NameAct(c, f, x.GetOr(NEW_FOLDER).name)
  {
  }

  lemma NameCongruence(c: Cmd, d: Cmd, f: FolderId, x: Option<Folder>, y: Option<Folder>)
    requires FolderAct(c, f, x) == FolderAct(c, f, y)
    ensures FolderAct(c, f, FolderAct(d, f, x)).GetOr(NEW_FOLDER).name
         == FolderAct(c, f, FolderAct(d, f, y)).GetOr(NEW_FOLDER).name
  {
    NameLocal(c, f, x);
    NameLocal(c, f, y);
    NameLocal(d, f, x);
    NameLocal(d, f, y);
    NameLocal(c, f, FolderAct(d, f, x));
    NameLocal(c, f, FolderAct(d, f, y));
  }

  lemma SameFacts(x: Option<Folder>, y: Option<Folder>)
    requires forall k :: Holds(k, x) == Holds(k, y)
    requires x.GetOr(NEW_FOLDER).name == y.GetOr(NEW_FOLDER).name
    ensures x == y
  {
    var u, v := x.GetOr(NEW_FOLDER), y.GetOr(NEW_FOLDER);
    assert Holds(Here, x) == Holds(Here, y);
    assert forall m :: m in u.msgs <==> Holds(Msg(m), x);
    assert forall z :: z in u.filterIn <==> Holds(In(z), x);
    assert forall z :: z in u.filterOut <==> Holds(Out(z), x);
    assert u.msgs == v.msgs && u.filterIn == v.filterIn && u.filterOut == v.filterOut;
  }

  lemma FolderCongruence(c: Cmd, d: Cmd, f: FolderId, x: Option<Folder>, y: Option<Folder>)
    requires FolderAct(c, f, x) == FolderAct(c, f, y)
    ensures FolderAct(c, f, FolderAct(d, f, x)) == FolderAct(c, f, FolderAct(d, f, y))
  {
    forall k
      ensures Holds(k, FolderAct(c, f, FolderAct(d, f, x))) == Holds(k, FolderAct(c, f, FolderAct(d, f, y)))
    {
      FactCongruence(c, d, f, k, x, y);
    }
    NameCongruence(c, d, f, x, y);
    SameFacts(FolderAct(c, f, FolderAct(d, f, x)), FolderAct(c, f, FolderAct(d, f, y)));
  }

  lemma HeadsCongruence(c: Cmd, d: Cmd, x: Box, y: Box)
    requires Closed(x) && Closed(y) && SameBut(c, x, y)
    ensures forall m :: HeadAt(Apply(c, Apply(d, x)), m) == HeadAt(Apply(c, Apply(d, y)), m)
    ensures c.Move? ==> forall m :: HeadAt(Apply(d, x), m) == HeadAt(Apply(d, y), m)
  {
    ApplyHeads(c, x); ApplyHeads(c, y);
    ApplyHeads(d, x); ApplyHeads(d, y);
    ApplyHeads(c, Apply(d, x)); ApplyHeads(c, Apply(d, y));
    forall m
      ensures HeadAt(Apply(c, Apply(d, x)), m) == HeadAt(Apply(c, Apply(d, y)), m)
      ensures c.Move? ==> HeadAt(Apply(d, x), m) == HeadAt(Apply(d, y), m)
    {
      assert HeadAct(c, m, HeadAt(x, m)) == HeadAt(Apply(c, x), m);
      assert HeadAct(c, m, HeadAt(y, m)) == HeadAt(Apply(c, y), m);
      HeadCongruence(c, d, m, HeadAt(x, m), HeadAt(y, m));
    }
  }

  // A difference that c will overwrite stays one while any other command d runs.
  lemma SameButKept(c: Cmd, d: Cmd, x: Box, y: Box)
    requires Closed(x) && Closed(y) && SameBut(c, x, y)
    ensures SameBut(c, Apply(d, x), Apply(d, y))
  {
    var x1, y1 := Apply(d, x), Apply(d, y);
    forall f
      ensures FolderAt(Apply(c, x1), f) == FolderAt(Apply(c, y1), f)
    {
      ApplyFolder(c, x, f); ApplyFolder(c, y, f);
      ApplyFolder(d, x, f); ApplyFolder(d, y, f);
      ApplyFolder(c, x1, f); ApplyFolder(c, y1, f);
      FolderCongruence(c, d, f, FolderAt(x, f), FolderAt(y, f));
    }
    HeadsCongruence(c, d, x, y);
    BoxExtensional(Apply(c, x1), Apply(c, y1));
    if c.Move? {
      assert forall m :: Lookup(x1.heads, m) == HeadAt(x1, m) == HeadAt(y1, m) == Lookup(y1.heads, m);
      MapExtensional(x1.heads, y1.heads);
    }
  }

  // Two mailboxes that differ in what c overwrites agree once c has run, whatever runs before and after it.
  lemma {:induction false} OverwrittenLater(cs: seq<Cmd>, c: Cmd, x: Box, y: Box)
    requires Closed(x) && Closed(y) && SameBut(c, x, y)
    requires c in cs
    ensures ApplyAll(cs, x) == ApplyAll(cs, y)
  {
    if cs[0] != c {
      assert c in cs[1..];
      SameButKept(c, cs[0], x, y);
      ApplyHeads(cs[0], x);
      ApplyHeads(cs[0], y);
      OverwrittenLater(cs[1..], c, Apply(cs[0], x), Apply(cs[0], y));
    }
  }

  lemma EagerClosed(e: Edit, b: Box)
    requires Closed(b) && Allowed(e, b)
    ensures Closed(Eager(e, b))
    ensures e.Deliver? ==> Eager(e, b) == Apply(Log(e), b)
    ensures e.Unlink? ==> Eager(e, b) == Unfile(b, e.msg)
  {
    match e
    case Deliver(f, h) =>
      ApplyHeads(Log(e), b);
    case Unlink(m) =>
      ResortClosed(Unfile(b, m));
    case DropOrphan(m) =>
      assert forall f :: f in b.folders && m in b.folders[f].msgs ==> m in Filed(b);
    case _ =>
  }

  lemma EagerFolder(e: Edit, b: Box, f: FolderId)
    requires Closed(b) && Allowed(e, b)
    ensures FolderAct(Log(e), f, FolderAt(Eager(e, b), f)) == FolderAct(Log(e), f, FolderAt(b, f))
  {
    EagerClosed(e, b);
    var x, y := FolderAct(Log(e), f, FolderAt(Eager(e, b), f)), FolderAct(Log(e), f, FolderAt(b, f));
    forall k
      ensures Holds(k, x) == Holds(k, y)
    {
    }
    SameFacts(x, y);
  }

  lemma EagerHead(e: Edit, b: Box, m: MsgId)
    requires Closed(b) && Allowed(e, b)
    ensures HeadAct(Log(e), m, HeadAt(Eager(e, b), m)) == HeadAct(Log(e), m, HeadAt(b, m))
  {
    EagerClosed(e, b);
    if e.Deliver? { ApplyHeads(Log(e), b); }
  }

  lemma EagerHeads(e: Edit, b: Box)
    requires Closed(b) && Allowed(e, b)
    ensures forall m :: HeadAt(Apply(Log(e), Eager(e, b)), m) == HeadAt(Apply(Log(e), b), m)
  {
    EagerClosed(e, b);
    ApplyHeads(Log(e), b);
    ApplyHeads(Log(e), Eager(e, b));
    forall m
      ensures HeadAt(Apply(Log(e), Eager(e, b)), m) == HeadAt(Apply(Log(e), b), m)
    {
      EagerHead(e, b, m);
    }
  }

  // The eager effect of an edit is exactly something its own command overwrites.
  lemma EagerOverwritten(e: Edit, b: Box)
    requires Closed(b) && Allowed(e, b)
    ensures Closed(Eager(e, b))
    ensures SameBut(Log(e), Eager(e, b), b)
  {
    EagerClosed(e, b);
    forall f
      ensures FolderAt(Apply(Log(e), Eager(e, b)), f) == FolderAt(Apply(Log(e), b), f)
    {
      ApplyFolder(Log(e), Eager(e, b), f);
      ApplyFolder(Log(e), b, f);
      EagerFolder(e, b, f);
    }
    EagerHeads(e, b);
    BoxExtensional(Apply(Log(e), Eager(e, b)), Apply(Log(e), b));
  }

  // ---------------------------------------------------------------- before note_resort

  // Between a command and its note_resort a message may be without a head, and a folder may list one twice.
  type Twice = Option<(FolderId, MsgId)>

  ghost predicate TwiceIn(tw: Twice, b: Box) {
    tw.Some? ==> tw.value.0 in b.folders && tw.value.1 in b.folders[tw.value.0].msgs
  }

  // push_back of a message that is there already.
  function Doubled(c: Cmd, b: Box): Twice {
    match c
    case SetHead(f, h) => if h.id in Get(b, f).msgs then Some((f, h.id)) else None
    case Move(m, f, t) => if m in Get(TakeFrom(b, f, m), t).msgs then Some((t, m)) else None
    case _ => None
  }

  // delete_message erases the first occurrence in each folder.
  function Unlinked(m: MsgId, b: Box, tw: Twice): Box {
    if tw.Some? && tw.value.1 == m then FileIn(Unfile(b, m), tw.value.0, m) else Unfile(b, m)
  }

  // Handlers erase the first occurrence, so one of two stays.
  function EagerTwice(e: Edit, b: Box, tw: Twice): Box {
    match e
    case Unlink(m) => Resort(Unlinked(m, b, tw))
    case Detach(m, f, _) => if tw == Some((f, m)) then b else Eager(e, b)
    case _ => Eager(e, b)
  }

  // Sorting makes one of two.
  function TwiceNext(e: Edit, tw: Twice): Twice {
    if e.Deliver? || e.Unlink? || (e.Detach? && tw == Some((e.from, e.msg))) then None else tw
  }

  lemma ResortTwice(b: Box)
    ensures Closed(Resort(b)) && Resort(Resort(b)) == Resort(b)
  {
    ResortHeads(b, 0);
    ResortClosed(Resort(b));
  }

  lemma ResortAbsorbs(x: Box, y: Box, more: set<MsgId>)
    requires x.folders == y.folders && y.heads == (map n | n in more :: DEFAULT_HEAD) + x.heads
    requires forall n :: n in more ==> n in Filed(x) || n in x.heads
    ensures Resort(x) == Resort(y)
  {
    assert Filed(x) == Filed(y);
    assert Resort(x).heads == Resort(y).heads;
  }

  lemma DeliverResorted(f: FolderId, h: Head, b: Box)
    ensures Resort(Eager(Deliver(f, h), b)) == Eager(Deliver(f, h), Resort(b))
  {
    var r := Resort(b);
    var x, y := FileIn(b.(heads := b.heads[h.id := h]), f, h.id), FileIn(r.(heads := r.heads[h.id := h]), f, h.id);
    forall n | n in Filed(b)
      ensures n in Filed(x)
    {
      FiledAfter(Deliver(f, h), b, n);
    }
    ResortAbsorbs(x, y, Filed(b));
    ResortTwice(x);
  }

  lemma UnlinkResorted(m: MsgId, b: Box)
    requires m in b.heads
    ensures Resort(Eager(Unlink(m), b)) == Eager(Unlink(m), Resort(b))
  {
    forall n | n in Filed(b)
      ensures n in Filed(Unfile(b, m)) || n in b.heads
    {
      FiledAfter(Unlink(m), b, n);
    }
    ResortAbsorbs(Unfile(b, m), Unfile(Resort(b), m), Filed(b));
    ResortTwice(Unfile(b, m));
  }

  // Sorting commutes with an edit, unless the edit did nothing for want of a head.
  lemma EagerResorted(e: Edit, b: Box)
    requires Allowed(e, b)
    ensures Eager(e, b) == b || Resort(Eager(e, b)) == Eager(e, Resort(b))
  {
    match e
    case Deliver(f, h) => DeliverResorted(f, h, b);
    case Unlink(m) => UnlinkResorted(m, b);
    case _ => if Eager(e, b) != b { OtherResorted(e, b); }
  }

  lemma OtherResorted(e: Edit, b: Box)
    requires Allowed(e, b) && Eager(e, b) != b && !e.Deliver? && !e.Unlink?
    ensures Resort(Eager(e, b)) == Eager(e, Resort(b))
  {
    var x, y := Resort(Eager(e, b)), Eager(e, Resort(b));
    forall n
      ensures HeadAt(x, n) == HeadAt(y, n)
    {
      FiledAfter(e, b, n);
      ResortHeads(Eager(e, b), n);
      ResortHeads(b, n);
    }
    assert forall f :: FolderAt(x, f) == FolderAt(y, f);
    BoxExtensional(x, y);
  }

  // What an edit does to the set of filed messages: only those it names come or go.
  lemma FiledAfter(e: Edit, b: Box, n: MsgId)
    requires Allowed(e, b)
    ensures e.Deliver? ==> (n in Filed(Eager(e, b)) <==> n in Filed(b) || n == e.head.id)
    ensures e.Unlink? ==> (n in Filed(Eager(e, b)) <==> n in Filed(b) && n != e.msg)
    ensures e.Detach? && n != e.msg ==> (n in Filed(Eager(e, b)) <==> n in Filed(b))
    ensures !e.Deliver? && !e.Unlink? && !e.Detach? ==> (n in Filed(Eager(e, b)) <==> n in Filed(b))
  {
    var x := Eager(e, b);
    if n in Filed(x) { var f :| f in x.folders && n in x.folders[f].msgs; assert f in b.folders ==> n in b.folders[f].msgs ==> n in Filed(b); }
    if n in Filed(b) {
      var f :| f in b.folders && n in b.folders[f].msgs;
      assert !e.EraseFolder? || e.fid != f;
      assert f in x.folders;
      if !(e.Unlink? || e.Detach?) || n != e.msg { assert n in x.folders[f].msgs; }
    }
    if e.Deliver? { assert e.head.id in x.folders[e.fid].msgs; }
  }

  // The eager effect of an edit, whenever it falls, is something its own command overwrites.
  lemma EagerOverwrittenLate(e: Edit, b: Box, tw: Twice)
    requires Allowed(e, b) && TwiceIn(tw, b)
    ensures SameBut(Log(e), Resort(EagerTwice(e, b, tw)), Resort(b))
  {
    ResortTwice(b);
    if e.Unlink? {
      UnlinkOverwritten(e.msg, b, tw);
    } else if EagerTwice(e, b, tw) != b {
      EagerResorted(e, b);
      assert Filed(Resort(b)) == Filed(b);
      EagerOverwritten(e, Resort(b));
    }
  }

  lemma UnlinkedFolder(m: MsgId, b: Box, tw: Twice, f: FolderId)
    requires TwiceIn(tw, b)
    ensures f in Unlinked(m, b, tw).folders <==> f in b.folders
    ensures f in b.folders ==>
      var x, y := Unlinked(m, b, tw).folders[f], b.folders[f];
      x.(msgs := x.msgs - {m}) == y.(msgs := y.msgs - {m}) && forall n :: n != m ==> (n in x.msgs <==> n in y.msgs)
    ensures Unlinked(m, b, tw).heads == b.heads
  {
    if f in b.folders {
      var s := b.folders[f].msgs;
      assert s - {m} - {m} == s - {m} && s - {m} + {m} - {m} == s - {m};
    }
  }

  lemma UnlinkHeads(m: MsgId, b: Box, tw: Twice, n: MsgId)
    requires m in b.heads && TwiceIn(tw, b)
    ensures HeadAt(Resort(Unlinked(m, b, tw)), n) == HeadAt(Resort(b), n)
  {
    var u := Unlinked(m, b, tw);
    UnlinkedFolder(m, b, tw, 0);
    ResortHeads(u, n);
    ResortHeads(b, n);
    if n in Filed(u) && n != m {
      var g :| g in u.folders && n in u.folders[g].msgs;
      UnlinkedFolder(m, b, tw, g);
      assert n in b.folders[g].msgs;
    }
    if n in Filed(b) && n != m {
      var g :| g in b.folders && n in b.folders[g].msgs;
      UnlinkedFolder(m, b, tw, g);
      assert n in u.folders[g].msgs;
    }
  }

  lemma UnlinkFolders(m: MsgId, b: Box, tw: Twice, g: FolderId)
    requires TwiceIn(tw, b)
    ensures FolderAct(Remove(m), g, FolderAt(Resort(Unlinked(m, b, tw)), g)) == FolderAct(Remove(m), g, FolderAt(Resort(b), g))
  {
    UnlinkedFolder(m, b, tw, g);
  }

  // Mailboxes with the same heads that differ only in what c does to folders.
  lemma SameBySteps(c: Cmd, x: Box, y: Box)
    requires Closed(x) && Closed(y)
    requires forall g :: FolderAct(c, g, FolderAt(x, g)) == FolderAct(c, g, FolderAt(y, g))
    requires forall n :: HeadAt(x, n) == HeadAt(y, n)
    ensures Apply(c, x) == Apply(c, y)
  {
    forall g
      ensures FolderAt(Apply(c, x), g) == FolderAt(Apply(c, y), g)
    {
      ApplyFolder(c, x, g);
      ApplyFolder(c, y, g);
    }
    ApplyHeads(c, x);
    ApplyHeads(c, y);
    BoxExtensional(Apply(c, x), Apply(c, y));
  }

  lemma UnlinkOverwritten(m: MsgId, b: Box, tw: Twice)
    requires m in b.heads && TwiceIn(tw, b)
    ensures SameBut(Remove(m), Resort(EagerTwice(Unlink(m), b, tw)), Resort(b))
  {
    var x, y := Resort(Unlinked(m, b, tw)), Resort(b);
    ResortTwice(Unlinked(m, b, tw));
    ResortTwice(b);
    forall g
      ensures FolderAct(Remove(m), g, FolderAt(x, g)) == FolderAct(Remove(m), g, FolderAt(y, g))
    {
      UnlinkFolders(m, b, tw, g);
    }
    forall n
      ensures HeadAt(x, n) == HeadAt(y, n)
    {
      UnlinkHeads(m, b, tw, n);
    }
    SameBySteps(Remove(m), x, y);
  }

  // ---------------------------------------------------------------- messages deleted without a log entry

  // The mailbox apart from what folders hold of some messages.
  function Without(lost: set<MsgId>, b: Box): Box {
    b.(folders := map f | f in b.folders :: b.folders[f].(msgs := b.folders[f].msgs - lost))
  }

  lemma WithoutFolder(lost: set<MsgId>, b: Box, f: FolderId)
    ensures FolderAt(Without(lost, b), f) ==
      match FolderAt(b, f) { case None => None case Some(x) => Some(x.(msgs := x.msgs - lost)) }
    ensures Closed(b) ==> Closed(Without(lost, b))
  {
  }

  lemma WithoutMore(lost: set<MsgId>, more: set<MsgId>, b: Box)
    ensures Without(lost + more, b) == Without(more, Without(lost, b))
    ensures Without({}, b) == b
  {
    assert forall f :: f in b.folders ==> b.folders[f].msgs - (lost + more) == b.folders[f].msgs - lost - more;
    assert Without(lost + more, b).folders == Without(more, Without(lost, b)).folders;
    assert forall f :: f in b.folders ==> b.folders[f].msgs - {} == b.folders[f].msgs;
    assert Without({}, b).folders == b.folders;
  }

  lemma FolderActWithout(lost: set<MsgId>, c: Cmd, f: FolderId, x: Option<Folder>, y: Option<Folder>)
    requires x.Some? == y.Some? && (x.Some? ==> x.value.(msgs := x.value.msgs - lost) == y.value.(msgs := y.value.msgs - lost))
    ensures var u, v := FolderAct(c, f, x), FolderAct(c, f, y);
      u.Some? == v.Some? && (u.Some? ==> u.value.(msgs := u.value.msgs - lost) == v.value.(msgs := v.value.msgs - lost))
  {
    var u, v := FolderAct(c, f, x), FolderAct(c, f, y);
    if x.Some? { assert forall m :: m in x.value.msgs - lost <==> m in y.value.msgs - lost; }
    if u.Some? {
      forall m
        ensures m in u.value.msgs - lost <==> m in v.value.msgs - lost
      {
        if x.Some? { assert m in x.value.msgs - lost <==> m in y.value.msgs - lost; }
      }
    }
  }

  // Commands carry a difference in lost messages along, and make no other.
  lemma ApplyWithout(lost: set<MsgId>, c: Cmd, x: Box, y: Box)
    requires Closed(x) && Closed(y) && Without(lost, x) == Without(lost, y)
    ensures Without(lost, Apply(c, x)) == Without(lost, Apply(c, y))
  {
    var u, v := Without(lost, Apply(c, x)), Without(lost, Apply(c, y));
    assert x.heads == Without(lost, x).heads == y.heads;
    forall f
      ensures FolderAt(u, f) == FolderAt(v, f)
    {
      WithoutFolder(lost, x, f);
      WithoutFolder(lost, y, f);
      ApplyFolder(c, x, f);
      ApplyFolder(c, y, f);
      FolderActWithout(lost, c, f, FolderAt(x, f), FolderAt(y, f));
      WithoutFolder(lost, Apply(c, x), f);
      WithoutFolder(lost, Apply(c, y), f);
    }
    ApplyHeads(c, x);
    ApplyHeads(c, y);
    forall m
      ensures HeadAt(u, m) == HeadAt(v, m)
    {
      assert HeadAt(Apply(c, x), m) == HeadAct(c, m, HeadAt(x, m)) == HeadAct(c, m, HeadAt(y, m)) == HeadAt(Apply(c, y), m);
    }
    BoxExtensional(u, v);
  }

  lemma {:induction false} ApplyAllWithout(lost: set<MsgId>, cs: seq<Cmd>, x: Box, y: Box)
    requires Closed(x) && Closed(y) && Without(lost, x) == Without(lost, y)
    ensures Without(lost, ApplyAll(cs, x)) == Without(lost, ApplyAll(cs, y))
  {
    if cs != [] {
      ApplyWithout(lost, cs[0], x, y);
      ApplyHeads(cs[0], x);
      ApplyHeads(cs[0], y);
      ApplyAllWithout(lost, cs[1..], Apply(cs[0], x), Apply(cs[0], y));
    }
  }

  // A deletion changes only what folders hold of its message.
  lemma UnlinkHides(m: MsgId, b: Box, tw: Twice)
    requires m in b.heads && TwiceIn(tw, b)
    ensures Without({m}, Resort(EagerTwice(Unlink(m), b, tw))) == Without({m}, Resort(b))
  {
    var x, y := Resort(Unlinked(m, b, tw)), Resort(b);
    ResortTwice(Unlinked(m, b, tw));
    forall n
      ensures HeadAt(Without({m}, x), n) == HeadAt(Without({m}, y), n)
    {
      UnlinkHeads(m, b, tw, n);
    }
    forall f
      ensures FolderAt(Without({m}, x), f) == FolderAt(Without({m}, y), f)
    {
      WithoutFolder({m}, x, f);
      WithoutFolder({m}, y, f);
      UnlinkedFolder(m, b, tw, f);
    }
    BoxExtensional(Without({m}, x), Without({m}, y));
  }

  // ---------------------------------------------------------------- runs

  // logged: every command that ever entered the queue; unsent: logged by handlers that have not ended; half:
  // the update thread is between a command and its note_resort; lost: deleted without a log entry.
  datatype State = State(
    box: Box, unsent: multiset<Cmd>, queue: seq<Cmd>, logged: seq<Cmd>, half: bool, twice: Twice, lost: set<MsgId>)

  function Initial(init: Box): State { State(init, multiset{}, [], [], false, None, {}) }

  datatype Step =
    | Write(e: Edit)   // one eager write of some handler
    | Vanish(m: MsgId) // delete_message, where it logs nothing
    | Sort             // a handler only re-sorts the folders
    | Send(c: Cmd)     // a handler that has ended passes a command to the queue
    | Drain            // the update thread carries out the oldest queued command
    | Settle           // its note_resort

  predicate Enabled(p: Step, s: State) {
    match p
    case Write(e) => Allowed(e, s.box)
    case Vanish(m) => m in s.box.heads
    case Sort => true
    case Send(c) => c in s.unsent
    case Drain => s.queue != [] && !s.half
    case Settle => s.half
  }

  function Next(p: Step, s: State): State
    requires Enabled(p, s)
  {
    match p
    case Write(e) =>
      s.(box := EagerTwice(e, s.box, s.twice), twice := TwiceNext(e, s.twice), unsent := s.unsent + multiset{Log(e)})
    case Vanish(m) => s.(box := EagerTwice(Unlink(m), s.box, s.twice), twice := None, lost := s.lost + {m})
    case Sort => s.(box := Resort(s.box), twice := None)
    case Send(c) => s.(unsent := s.unsent - multiset{c}, queue := s.queue + [c], logged := s.logged + [c])
    case Drain =>
      var c := s.queue[0];
      s.(box := Raw(c, s.box), queue := s.queue[1..], half := Resorts(c), twice := Doubled(c, s.box))
    case Settle => s.(box := Resort(s.box), half := false, twice := None)
  }

  ghost predicate Run(ps: seq<Step>, s: State, t: State) {
    if ps == [] then s == t else Enabled(ps[0], s) && Run(ps[1..], Next(ps[0], s), t)
  }

  // Every filed message has a head, and none is listed twice, unless a note_resort is due.
  ghost predicate Shape(s: State) {
    && TwiceIn(s.twice, s.box)
    && (!s.half ==> Closed(s.box) && s.twice == None)
  }

  // Whatever the future holds, as long as it contains the unsent commands, finishing the queue from the
  // cached mailbox ends where replaying the whole log from the initial mailbox ends.
  ghost predicate Inv(init: Box, s: State) {
    && Shape(s)
    && forall cs: seq<Cmd> :: s.unsent <= multiset(cs) ==>
         Without(s.lost, ApplyAll(s.queue + cs, Resort(s.box))) == Without(s.lost, ApplyAll(s.logged + cs, init))
  }

  lemma WriteKeepsShape(e: Edit, s: State)
    requires Shape(s) && Allowed(e, s.box)
    ensures Shape(Next(Write(e), s))
  {
    if !s.half { EagerClosed(e, s.box); }
  }

  lemma WriteKeepsInv(init: Box, e: Edit, s: State)
    requires Inv(init, s) && Allowed(e, s.box)
    ensures Inv(init, Next(Write(e), s))
  {
    var t := Next(Write(e), s);
    WriteKeepsShape(e, s);
    EagerOverwrittenLate(e, s.box, s.twice);
    ResortTwice(t.box);
    ResortTwice(s.box);
    forall cs: seq<Cmd> | t.unsent <= multiset(cs)
      ensures Without(t.lost, ApplyAll(t.queue + cs, Resort(t.box))) == Without(t.lost, ApplyAll(t.logged + cs, init))
    {
      assert s.unsent <= multiset(cs);
      assert Log(e) in t.unsent;
      assert Log(e) in multiset(cs);
      OverwrittenLater(s.queue + cs, Log(e), Resort(t.box), Resort(s.box));
    }
  }

  lemma VanishKeepsShape(m: MsgId, s: State)
    requires Shape(s) && m in s.box.heads
    ensures Shape(Next(Vanish(m), s))
  {
    ResortTwice(Unfile(s.box, m));
  }

  lemma VanishKeepsInv(init: Box, m: MsgId, s: State)
    requires Inv(init, s) && m in s.box.heads
    ensures Inv(init, Next(Vanish(m), s))
  {
    var t := Next(Vanish(m), s);
    VanishKeepsShape(m, s);
    UnlinkHides(m, s.box, s.twice);
    ResortTwice(t.box);
    ResortTwice(s.box);
    forall cs: seq<Cmd> | t.unsent <= multiset(cs)
      ensures Without(t.lost, ApplyAll(t.queue + cs, Resort(t.box))) == Without(t.lost, ApplyAll(t.logged + cs, init))
    {
      var q := s.queue + cs;
      ApplyAllWithout({m}, q, Resort(t.box), Resort(s.box));
      WithoutMore({m}, s.lost, ApplyAll(q, Resort(t.box)));
      WithoutMore({m}, s.lost, ApplyAll(q, Resort(s.box)));
      WithoutMore(s.lost, {m}, ApplyAll(q, Resort(s.box)));
      WithoutMore(s.lost, {m}, ApplyAll(s.logged + cs, init));
      assert {m} + s.lost == s.lost + {m};
    }
  }

  lemma SendOne(q: seq<Cmd>, c: Cmd, cs: seq<Cmd>, unsent: multiset<Cmd>)
    requires c in unsent && unsent - multiset{c} <= multiset(cs)
    ensures unsent <= multiset([c] + cs) && (q + [c]) + cs == q + ([c] + cs)
  {
    assert multiset([c] + cs) == multiset{c} + multiset(cs);
  }

  lemma SendKeepsInv(init: Box, c: Cmd, s: State)
    requires Inv(init, s) && c in s.unsent
    ensures Inv(init, Next(Send(c), s))
  {
    var t := Next(Send(c), s);
    forall cs: seq<Cmd> | t.unsent <= multiset(cs)
      ensures Without(t.lost, ApplyAll(t.queue + cs, Resort(t.box))) == Without(t.lost, ApplyAll(t.logged + cs, init))
    {
      SendOne(s.queue, c, cs, s.unsent);
      SendOne(s.logged, c, cs, s.unsent);
    }
  }

  lemma DrainKeepsShape(s: State)
    requires Shape(s) && Enabled(Drain, s)
    ensures Shape(Next(Drain, s)) && Resort(Next(Drain, s).box) == Apply(s.queue[0], Resort(s.box))
  {
    var c := s.queue[0];
    ResortClosed(s.box);
    ApplyHeads(c, s.box);
    if !Resorts(c) { ResortClosed(Raw(c, s.box)); }
  }

  // One command, its note_resort still due.
  lemma DrainKeepsInv(init: Box, s: State)
    requires Inv(init, s) && Enabled(Drain, s)
    ensures Inv(init, Next(Drain, s))
  {
    var t := Next(Drain, s);
    DrainKeepsShape(s);
    forall cs: seq<Cmd> | t.unsent <= multiset(cs)
      ensures Without(t.lost, ApplyAll(t.queue + cs, Resort(t.box))) == Without(t.lost, ApplyAll(t.logged + cs, init))
    {
      assert (s.queue + cs)[1..] == t.queue + cs;
    }
  }

  lemma SortKeepsInv(init: Box, s: State)
    requires Inv(init, s)
    ensures Inv(init, Next(Sort, s))
    ensures s.half ==> Inv(init, Next(Settle, s))
  {
    ResortTwice(s.box);
  }

  lemma {:induction false} RunKeepsInv(init: Box, ps: seq<Step>, s: State, t: State)
    requires Inv(init, s) && Run(ps, s, t)
    ensures Inv(init, t)
  {
    if ps != [] {
      match ps[0] {
        case Write(e) => WriteKeepsInv(init, e, s);
        case Vanish(m) => VanishKeepsInv(init, m, s);
        case Sort => SortKeepsInv(init, s);
        case Send(c) => SendKeepsInv(init, c, s);
        case Drain => DrainKeepsInv(init, s);
        case Settle => SortKeepsInv(init, s);
      }
      RunKeepsInv(init, ps[1..], Next(ps[0], s), t);
    }
  }

  lemma StartIsInv(init: Box)
    requires Closed(init)
    ensures Inv(init, Initial(init))
  {
    ResortClosed(init);
  }

  ghost predicate Quiet(t: State) { t.unsent == multiset{} && t.queue == [] && !t.half }

  // Eager updates plus replay give what replay alone gives, but for what folders hold of the messages that
  // were deleted without a log entry.
  lemma UnloggedDeletionsOnlyHide(init: Box, ps: seq<Step>, t: State)
    requires Closed(init) && Run(ps, Initial(init), t) && Quiet(t)
    ensures Without(t.lost, t.box) == Without(t.lost, ApplyAll(t.logged, init))
  {
    StartIsInv(init);
    RunKeepsInv(init, ps, Initial(init), t);
    ResortClosed(t.box);
    var none: seq<Cmd> := [];
    assert t.queue + none == [] && t.logged + none == t.logged;
    assert t.unsent <= multiset(none);
  }

  // The main theorem: where every deletion was logged, they give exactly that.
  lemma EagerPlusReplayIsReplay(init: Box, ps: seq<Step>, t: State)
    requires Closed(init) && Run(ps, Initial(init), t) && Quiet(t) && t.lost == {}
    ensures t.box == ApplyAll(t.logged, init)
  {
    UnloggedDeletionsOnlyHide(init, ps, t);
    WithoutMore({}, {}, t.box);
    WithoutMore({}, {}, ApplyAll(t.logged, init));
  }
}
