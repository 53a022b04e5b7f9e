/**
The outbound sender: any thread appends to a socket's buffer and queues an event; one sender thread keeps
a table from file descriptors to sockets and writes to the kernel. Descriptors are reused by the kernel as
soon as they are closed. The model interleaves every lock-protected action of every thread.
*/
module Sender {
  import opened Options

  type Byte = nat
  type SockId = nat   // the identity of a c_socket object; never reused
  type Fd = int       // a descriptor, or -1

  const CLOSED: Fd := -1

  // kernel: bytes handed to send() for this socket. written: bytes passed to write_data for it.
  datatype Sock = Sock(fd: Fd, sendBuf: seq<Byte>, kernel: seq<Byte>, written: seq<Byte>)

  datatype Event = AddData(s: SockId) | RemoveSock(fd: Fd)

  datatype State = State(
    socks: map<SockId, Sock>,
    accepted: set<Fd>,              // returned by accept(), on_socket_create not called yet
    announced: set<Fd>,             // REMOVE_SOCK queued, no c_socket object yet
    writers: multiset<SockId>,      // threads between appending and queueing the event
    events: seq<Event>,             // the shared queue
    batch: seq<Event>,              // what the sender took with extract_all and has not handled
    reading: Option<(SockId, Fd)>,  // an ADD_DATA whose descriptor was read but not inserted yet
    ccc: map<Fd, SockId>)           // the sender's table

  const START := State(map[], {}, {}, multiset{}, [], [], None, map[])

  datatype Step =
    | Accept(fd: Fd)
    | Announce(fd: Fd)
    | Construct(fd: Fd, s: SockId)
    | Connect(fd: Fd, s: SockId)    // an outbound connection: no REMOVE_SOCK precedes the object
    | Append(s: SockId, data: seq<Byte>)
    | Enqueue(s: SockId)
    | Disconnect(s: SockId)
    | Extract
    | HandleRemove
    | ReadFd
    | Insert
    | SendSome(fd: Fd, n: nat)      // send() took n bytes
    | SendAgain(fd: Fd)             // EAGAIN
    | SendFails(fd: Fd)
    | PollFails(fd: Fd)             // POLLERR, POLLHUP or POLLNVAL
    | Cleanup(fd: Fd)

  // Descriptors the kernel considers open.
  function OpenFds(st: State): set<Fd> {
    st.accepted + st.announced + set s | s in st.socks && st.socks[s].fd != CLOSED :: st.socks[s].fd
  }

  function Close(st: State, s: SockId): State
    requires s in st.socks
  {
    st.(socks := st.socks[s := st.socks[s].(fd := CLOSED)])
  }

  predicate Polling(st: State, fd: Fd) { st.batch == [] && st.reading == None && fd in st.ccc && st.ccc[fd] in st.socks }

  predicate Enabled(p: Step, st: State) {
    match p
    case Accept(fd) => fd >= 0 && fd !in OpenFds(st)
    case Announce(fd) => fd in st.accepted
    case Construct(fd, s) => fd in st.announced && s !in st.socks
    case Connect(fd, s) => fd >= 0 && fd !in OpenFds(st) && s !in st.socks
    case Append(s, _) => s in st.socks
    case Enqueue(s) => s in st.writers
    case Disconnect(s) => s in st.socks
    case Extract => st.batch == [] && st.reading == None
    case HandleRemove => st.batch != [] && st.reading == None && st.batch[0].RemoveSock?
    case ReadFd => st.batch != [] && st.reading == None && st.batch[0].AddData? && st.batch[0].s in st.socks
    case Insert => st.reading.Some?
    case SendSome(fd, n) => Polling(st, fd) && n <= |st.socks[st.ccc[fd]].sendBuf|
    case SendAgain(fd) => Polling(st, fd)
    case SendFails(fd) => Polling(st, fd)
    case PollFails(fd) => Polling(st, fd)
    case Cleanup(fd) => Polling(st, fd)
  }

  function Next(p: Step, st: State): State
    requires Enabled(p, st)
  {
    match p
    case Accept(fd) => st.(accepted := st.accepted + {fd})
    case Announce(fd) =>
      st.(accepted := st.accepted - {fd}, announced := st.announced + {fd}, events := st.events + [RemoveSock(fd)])
    case Construct(fd, s) => st.(announced := st.announced - {fd}, socks := st.socks[s := Sock(fd, [], [], [])])
    case Connect(fd, s) => st.(socks := st.socks[s := Sock(fd, [], [], [])])
    case Append(s, data) =>
      var x := st.socks[s];
      st.(socks := st.socks[s := x.(sendBuf := x.sendBuf + data, written := x.written + data)],
          writers := st.writers + multiset{s})
    case Enqueue(s) => st.(writers := st.writers - multiset{s}, events := st.events + [AddData(s)])
    case Disconnect(s) => Close(st, s)
    case Extract => st.(batch := st.events, events := [])
    case HandleRemove => st.(batch := st.batch[1..], ccc := st.ccc - {st.batch[0].fd})
    case ReadFd => st.(batch := st.batch[1..], reading := Some((st.batch[0].s, st.socks[st.batch[0].s].fd)))
    case Insert =>
      // std::map::insert keeps an entry that is already there
      var (s, fd) := st.reading.value;
      st.(reading := None, ccc := if fd in st.ccc then st.ccc else st.ccc[fd := s])
    case SendSome(fd, n) =>
      var s := st.ccc[fd];
      var x := st.socks[s];
      if x.fd != fd then st.(ccc := st.ccc - {fd})
      else
        var st1 := st.(socks := st.socks[s := x.(sendBuf := x.sendBuf[n..], kernel := x.kernel + x.sendBuf[..n])]);
        if n == |x.sendBuf| then st1.(ccc := st.ccc - {fd}) else st1
    case SendAgain(fd) =>
      if st.socks[st.ccc[fd]].fd != fd then st.(ccc := st.ccc - {fd}) else st
    case SendFails(fd) =>
      if st.socks[st.ccc[fd]].fd != fd then st.(ccc := st.ccc - {fd})
      else Close(st, st.ccc[fd]).(ccc := st.ccc - {fd})
    case PollFails(fd) => Close(st, st.ccc[fd]).(ccc := st.ccc - {fd})
    case Cleanup(fd) =>
      if fd == CLOSED || fd != st.socks[st.ccc[fd]].fd then Close(st, st.ccc[fd]).(ccc := st.ccc - {fd}) else st
  }

  ghost predicate Run(ps: seq<Step>, st: State, t: State) {
    if ps == [] then st == t else Enabled(ps[0], st) && Run(ps[1..], Next(ps[0], st), t)
  }

  // ---------------------------------------------------------------- nothing is stranded

  function Pending(st: State): seq<Event> { st.batch + st.events }

  // Someone will still attend to socket s on descriptor fd: the sender's table, a queued event, the thread
  // that wrote last, or the sender about to enter it in its table.
  ghost predicate Attended(q: seq<Event>, st: State, s: SockId, fd: Fd) {
    || (fd in st.ccc && st.ccc[fd] == s)
    || AddData(s) in q
    || s in st.writers
    || st.reading == Some((s, fd))
  }

  predicate Live(st: State, s: SockId) { s in st.socks && st.socks[s].fd != CLOSED }

  ghost predicate NoneStranded(st: State) {
    forall s :: Live(st, s) && st.socks[s].sendBuf != [] ==> Attended(Pending(st), st, s, st.socks[s].fd)
  }

  // Objects mentioned anywhere exist; a table key is the descriptor its socket has, or had before closing.
  ghost predicate Sane(q: seq<Event>, st: State) {
    && (forall k :: k in st.ccc ==> st.ccc[k] in st.socks && st.socks[st.ccc[k]].fd in {k, CLOSED})
    && (forall s :: AddData(s) in q ==> s in st.socks)
    && (forall s :: s in st.writers ==> s in st.socks)
    && (st.reading.Some? ==> st.reading.value.0 in st.socks && st.socks[st.reading.value.0].fd in {st.reading.value.1, CLOSED})
  }

  // One open connection per descriptor.
  ghost predicate FdsUnique(st: State) {
    && st.accepted !! st.announced && CLOSED !in st.accepted + st.announced
    && (forall s :: Live(st, s) ==> st.socks[s].fd !in st.accepted + st.announced)
    && (forall s, t :: Live(st, s) && Live(st, t) && s != t ==> st.socks[s].fd != st.socks[t].fd)
  }

  // A registration of fd for anything but s is going to be removed.
  ghost predicate Clearing(q: seq<Event>, ccc: map<Fd, SockId>, reading: Option<(SockId, Fd)>, fd: Fd, s: Option<SockId>) {
    && (fd in ccc && Some(ccc[fd]) != s ==> RemoveSock(fd) in q)
    && (reading.Some? && reading.value.1 == fd && Some(reading.value.0) != s ==> RemoveSock(fd) in q)
  }

  // The removal of fd that was queued before s existed comes before everything queued for s.
  ghost predicate RemovalFirst(q: seq<Event>, s: SockId, fd: Fd) {
    forall i, j :: 0 <= i < j < |q| && q[i] == AddData(s) ==> q[j] != RemoveSock(fd)
  }

  ghost predicate Settled(q: seq<Event>, ccc: map<Fd, SockId>, reading: Option<(SockId, Fd)>, fd: Fd, s: SockId) {
    && Clearing(q, ccc, reading, fd, Some(s))
    && RemovalFirst(q, s, fd)
    && (fd in ccc && ccc[fd] == s ==> RemoveSock(fd) !in q)
    && (reading.Some? && reading.value.0 == s ==> RemoveSock(fd) !in q)
  }

  // Announced descriptors, and those of open sockets, belong to nobody else.
  ghost predicate AllSettled(st: State) {
    var q := Pending(st);
    && (forall fd :: fd in st.announced ==> Clearing(q, st.ccc, st.reading, fd, None))
    && (forall s :: Live(st, s) ==> Settled(q, st.ccc, st.reading, st.socks[s].fd, s))
  }

  ghost predicate Inv(st: State) {
    Sane(Pending(st), st) && FdsUnique(st) && AllSettled(st) && NoneStranded(st)
  }

  // Taking the head of the queue away.
  lemma SettledTail(e: Event, q: seq<Event>, ccc: map<Fd, SockId>, reading: Option<(SockId, Fd)>, fd: Fd, s: SockId)
    requires Settled([e] + q, ccc, reading, fd, s) && e != RemoveSock(fd)
    ensures Settled(q, ccc, reading, fd, s)
    ensures e == AddData(s) ==> RemoveSock(fd) !in q
  {
    var p := [e] + q;
    assert p[1..] == q;
    forall i, j | 0 <= i < j < |q| && q[i] == AddData(s)
      ensures q[j] != RemoveSock(fd)
    {
      assert p[i + 1] == q[i] && p[j + 1] == q[j];
    }
    forall j | 0 <= j < |q| && e == AddData(s)
      ensures q[j] != RemoveSock(fd)
    {
      assert p[0] == e && p[j + 1] == q[j];
    }
  }

  lemma SettledTailRemoved(q: seq<Event>, ccc: map<Fd, SockId>, fd: Fd, s: SockId)
    requires Settled([RemoveSock(fd)] + q, ccc, None, fd, s)
    ensures Settled(q, ccc - {fd}, None, fd, s) && (fd in ccc ==> ccc[fd] != s)
  {
    var p := [RemoveSock(fd)] + q;
    assert RemoveSock(fd) == p[0];
    forall i, j | 0 <= i < j < |q| && q[i] == AddData(s)
      ensures q[j] != RemoveSock(fd)
    {
      assert p[i + 1] == q[i] && p[j + 1] == q[j];
    }
  }

  lemma SettledAppend(q: seq<Event>, e: Event, ccc: map<Fd, SockId>, reading: Option<(SockId, Fd)>, fd: Fd, s: SockId)
    requires Settled(q, ccc, reading, fd, s) && e != RemoveSock(fd)
    ensures Settled(q + [e], ccc, reading, fd, s)
  {
  }

  lemma AcceptKeepsInv(fd: Fd, st: State)
    requires Inv(st) && Enabled(Accept(fd), st)
    ensures Inv(Next(Accept(fd), st))
  {
    assert Pending(Next(Accept(fd), st)) == Pending(st);
  }

  lemma AnnounceKeepsSane(fd: Fd, st: State)
    requires Sane(Pending(st), st) && FdsUnique(st) && NoneStranded(st) && Enabled(Announce(fd), st)
    ensures var t := Next(Announce(fd), st); Sane(Pending(t), t) && FdsUnique(t) && NoneStranded(t)
  {
    assert Pending(Next(Announce(fd), st)) == Pending(st) + [RemoveSock(fd)];
  }

  lemma AnnounceKeepsInv(fd: Fd, st: State)
    requires Inv(st) && Enabled(Announce(fd), st)
    ensures Inv(Next(Announce(fd), st))
  {
    var t, q := Next(Announce(fd), st), Pending(st);
    assert Pending(t) == q + [RemoveSock(fd)];
    AnnounceKeepsSane(fd, st);
    forall s | Live(t, s)
      ensures Settled(Pending(t), t.ccc, t.reading, t.socks[s].fd, s)
    {
      assert Live(st, s) && st.socks[s].fd != fd;
      SettledAppend(q, RemoveSock(fd), t.ccc, t.reading, t.socks[s].fd, s);
    }
  }

  // A new object for descriptor fd; of what else there was, only the announcement of fd may go.
  ghost predicate Adds(fd: Fd, s: SockId, st: State, t: State) {
    && s !in st.socks
    && t == st.(announced := t.announced, socks := st.socks[s := Sock(fd, [], [], [])])
    && t.announced <= st.announced
  }

  lemma AddedKeepsUnique(fd: Fd, s: SockId, st: State, t: State)
    requires FdsUnique(st) && Adds(fd, s, st, t)
    requires fd != CLOSED && fd !in t.accepted + t.announced && forall x :: Live(st, x) ==> st.socks[x].fd != fd
    ensures FdsUnique(t)
  {
    assert forall x :: Live(t, x) <==> x == s || Live(st, x);
  }

  lemma AddedStrandsNothing(fd: Fd, s: SockId, st: State, t: State)
    requires NoneStranded(st) && Adds(fd, s, st, t)
    ensures NoneStranded(t)
  {
    assert Pending(t) == Pending(st);
    forall x | Live(t, x) && t.socks[x].sendBuf != []
      ensures Attended(Pending(t), t, x, t.socks[x].fd)
    {
      assert x != s && Live(st, x);
    }
  }

  lemma AddedKeepsSane(fd: Fd, s: SockId, st: State, t: State)
    requires Sane(Pending(st), st) && FdsUnique(st) && NoneStranded(st) && Adds(fd, s, st, t)
    requires fd != CLOSED && fd !in t.accepted + t.announced && forall x :: Live(st, x) ==> st.socks[x].fd != fd
    ensures Sane(Pending(t), t) && FdsUnique(t) && NoneStranded(t)
  {
    assert Pending(t) == Pending(st);
    AddedKeepsUnique(fd, s, st, t);
    AddedStrandsNothing(fd, s, st, t);
  }

  lemma AddedKeepsInv(fd: Fd, s: SockId, st: State, t: State)
    requires Inv(st) && Adds(fd, s, st, t) && Clearing(Pending(st), st.ccc, st.reading, fd, None)
    requires fd != CLOSED && fd !in t.accepted + t.announced && forall x :: Live(st, x) ==> st.socks[x].fd != fd
    ensures Inv(t)
  {
    AddedKeepsSane(fd, s, st, t);
    assert Pending(t) == Pending(st);
    assert Settled(Pending(t), t.ccc, t.reading, fd, s);
    forall x | Live(t, x)
      ensures Settled(Pending(t), t.ccc, t.reading, t.socks[x].fd, x)
    {
      assert x != s ==> Live(st, x);
    }
  }

  lemma ConstructKeepsInv(fd: Fd, s: SockId, st: State)
    requires Inv(st) && Enabled(Construct(fd, s), st)
    ensures Inv(Next(Construct(fd, s), st))
  {
    AddedKeepsInv(fd, s, st, Next(Construct(fd, s), st));
  }

  lemma AppendKeepsInv(s: SockId, data: seq<Byte>, st: State)
    requires Inv(st) && Enabled(Append(s, data), st)
    ensures Inv(Next(Append(s, data), st))
  {
    var t := Next(Append(s, data), st);
    assert Pending(t) == Pending(st);
    assert forall x :: Live(t, x) <==> Live(st, x);
  }

  lemma EnqueueKeepsInv(s: SockId, st: State)
    requires Inv(st) && Enabled(Enqueue(s), st)
    ensures Inv(Next(Enqueue(s), st))
  {
    var t, q := Next(Enqueue(s), st), Pending(st);
    assert Pending(t) == q + [AddData(s)];
    forall x | Live(t, x)
      ensures Settled(Pending(t), t.ccc, t.reading, t.socks[x].fd, x)
    {
      SettledAppend(q, AddData(s), t.ccc, t.reading, t.socks[x].fd, x);
    }
  }

  lemma DisconnectKeepsInv(s: SockId, st: State)
    requires Inv(st) && Enabled(Disconnect(s), st)
    ensures Inv(Next(Disconnect(s), st))
  {
    var t := Next(Disconnect(s), st);
    assert Pending(t) == Pending(st);
    assert forall x :: Live(t, x) <==> Live(st, x) && x != s;
  }

  lemma ExtractKeepsInv(st: State)
    requires Inv(st) && Enabled(Extract, st)
    ensures Inv(Next(Extract, st))
  {
    assert Pending(Next(Extract, st)) == Pending(st);
  }

  lemma HandleRemoveKeepsSane(st: State)
    requires Sane(Pending(st), st) && FdsUnique(st) && Enabled(HandleRemove, st)
    ensures var t := Next(HandleRemove, st); Sane(Pending(t), t) && FdsUnique(t)
  {
    var t := Next(HandleRemove, st);
    assert Pending(st) == [st.batch[0]] + Pending(t);
    assert forall s :: AddData(s) in Pending(t) ==> AddData(s) in Pending(st);
  }

  lemma HandleRemoveKeepsInv(st: State)
    requires Inv(st) && Enabled(HandleRemove, st)
    ensures Inv(Next(HandleRemove, st))
  {
    var t, fd := Next(HandleRemove, st), st.batch[0].fd;
    var q := Pending(t);
    assert Pending(st) == [RemoveSock(fd)] + q;
    HandleRemoveKeepsSane(st);
    forall s | Live(t, s)
      ensures Settled(q, t.ccc, t.reading, t.socks[s].fd, s)
      ensures t.socks[s].sendBuf != [] ==> Attended(q, t, s, t.socks[s].fd)
    {
      assert Live(st, s);
      if t.socks[s].fd == fd {
        SettledTailRemoved(q, st.ccc, fd, s);
      } else {
        SettledTail(RemoveSock(fd), q, st.ccc, None, t.socks[s].fd, s);
      }
      assert st.socks[s].sendBuf != [] ==> Attended(Pending(st), st, s, st.socks[s].fd);
    }
  }

  lemma ReadFdKeepsInv(st: State)
    requires Inv(st) && Enabled(ReadFd, st)
    ensures Inv(Next(ReadFd, st))
  {
    var t, s := Next(ReadFd, st), st.batch[0].s;
    var q := Pending(t);
    assert Pending(st) == [AddData(s)] + q;
    forall x | Live(t, x)
      ensures Settled(q, t.ccc, t.reading, t.socks[x].fd, x)
    {
      SettledTail(AddData(s), q, st.ccc, None, t.socks[x].fd, x);
    }
  }

  lemma InsertKeepsInv(st: State)
    requires Inv(st) && Enabled(Insert, st)
    ensures Inv(Next(Insert, st))
  {
    var t := Next(Insert, st);
    var q := Pending(st);
    assert Pending(t) == q;
    assert forall x :: Live(t, x) <==> Live(st, x);
    forall x | Live(t, x)
      ensures Settled(q, t.ccc, None, t.socks[x].fd, x)
      ensures t.socks[x].sendBuf != [] ==> Attended(q, t, x, t.socks[x].fd)
    {
      assert Settled(q, st.ccc, st.reading, st.socks[x].fd, x);
      assert st.socks[x].sendBuf != [] ==> Attended(q, st, x, st.socks[x].fd);
    }
  }

  // Removing fd from the table, after its socket was closed, or served, or found to be another one.
  lemma EraseKeepsInv(fd: Fd, st: State, t: State)
    requires Inv(st) && t == st.(ccc := st.ccc - {fd})
    requires fd in st.ccc ==> !Live(st, st.ccc[fd]) || st.socks[st.ccc[fd]].sendBuf == []
    ensures Inv(t)
  {
    assert Pending(t) == Pending(st);
    assert forall x :: Live(t, x) <==> Live(st, x);
  }

  lemma SendSomeKeepsInv(fd: Fd, n: nat, st: State)
    requires Inv(st) && Enabled(SendSome(fd, n), st)
    ensures Inv(Next(SendSome(fd, n), st))
  {
    var s := st.ccc[fd];
    var x := st.socks[s];
    if x.fd != fd {
      EraseKeepsInv(fd, st, Next(SendSome(fd, n), st));
    } else {
      var st1 := st.(socks := st.socks[s := x.(sendBuf := x.sendBuf[n..], kernel := x.kernel + x.sendBuf[..n])]);
      assert Pending(st1) == Pending(st);
      assert forall y :: Live(st1, y) <==> Live(st, y);
      assert Inv(st1);
      if n == |x.sendBuf| {
        EraseKeepsInv(fd, st1, Next(SendSome(fd, n), st));
      }
    }
  }

  lemma SendAgainKeepsInv(fd: Fd, st: State)
    requires Inv(st) && Enabled(SendAgain(fd), st)
    ensures Inv(Next(SendAgain(fd), st))
  {
    if st.socks[st.ccc[fd]].fd != fd {
      EraseKeepsInv(fd, st, Next(SendAgain(fd), st));
    }
  }

  lemma CloseAndEraseKeepsInv(fd: Fd, st: State)
    requires Inv(st) && fd in st.ccc && st.ccc[fd] in st.socks
    ensures Inv(Close(st, st.ccc[fd]).(ccc := st.ccc - {fd}))
  {
    DisconnectKeepsInv(st.ccc[fd], st);
    EraseKeepsInv(fd, Close(st, st.ccc[fd]), Close(st, st.ccc[fd]).(ccc := st.ccc - {fd}));
  }

  // An outbound connection gets a descriptor of which no older registration is left but such as are about
  // to be cleared. Accepted sockets are announced first, and need no such thing.
  ghost predicate Cleared(p: Step, st: State) { p.Connect? ==> Clearing(Pending(st), st.ccc, st.reading, p.fd, None) }

  lemma StepKeepsInv(p: Step, st: State)
    requires Inv(st) && Enabled(p, st) && Cleared(p, st)
    ensures Inv(Next(p, st))
  {
    match p
    case Accept(fd) => AcceptKeepsInv(fd, st);
    case Announce(fd) => AnnounceKeepsInv(fd, st);
    case Construct(fd, s) => ConstructKeepsInv(fd, s, st);
    case Connect(fd, s) => ConnectKeepsInv(fd, s, st);
    case Append(s, data) => AppendKeepsInv(s, data, st);
    case Enqueue(s) => EnqueueKeepsInv(s, st);
    case Disconnect(s) => DisconnectKeepsInv(s, st);
    case Extract => ExtractKeepsInv(st);
    case HandleRemove => HandleRemoveKeepsInv(st);
    case ReadFd => ReadFdKeepsInv(st);
    case Insert => InsertKeepsInv(st);
    case SendSome(fd, n) => SendSomeKeepsInv(fd, n, st);
    case SendAgain(fd) => SendAgainKeepsInv(fd, st);
    case SendFails(fd) =>
      if st.socks[st.ccc[fd]].fd != fd { EraseKeepsInv(fd, st, Next(p, st)); } else { CloseAndEraseKeepsInv(fd, st); }
    case PollFails(fd) => CloseAndEraseKeepsInv(fd, st);
    case Cleanup(fd) => CloseAndEraseKeepsInv(fd, st);
  }

  ghost predicate NoConnect(ps: seq<Step>) { forall i :: 0 <= i < |ps| ==> !ps[i].Connect? }

  ghost predicate ClearedRun(ps: seq<Step>, st: State) {
    ps == [] || (Enabled(ps[0], st) && Cleared(ps[0], st) && ClearedRun(ps[1..], Next(ps[0], st)))
  }

  lemma {:induction false} NoConnectIsCleared(ps: seq<Step>, st: State, t: State)
    requires Run(ps, st, t) && NoConnect(ps)
    ensures ClearedRun(ps, st)
  {
    if ps != [] { NoConnectIsCleared(ps[1..], Next(ps[0], st), t); }
  }

  lemma {:induction false} RunKeepsInv(ps: seq<Step>, st: State, t: State)
    requires Inv(st) && Run(ps, st, t) && ClearedRun(ps, st)
    ensures Inv(t)
  {
    if ps != [] {
      StepKeepsInv(ps[0], st);
      RunKeepsInv(ps[1..], Next(ps[0], st), t);
    }
  }

  // Whatever the interleaving: a connected socket with unsent bytes is in the sender's table under its own
  // descriptor, or something that will put it there is on its way.
  lemma NoOutputIsStranded(ps: seq<Step>, t: State)
    requires Run(ps, START, t) && ClearedRun(ps, START)
    ensures NoneStranded(t)
  {
    assert Inv(START);
    RunKeepsInv(ps, START, t);
  }

  // For accepted connections that is without a condition.
  lemma AcceptedOutputIsNotStranded(ps: seq<Step>, t: State)
    requires Run(ps, START, t) && NoConnect(ps)
    ensures NoneStranded(t)
  {
    NoConnectIsCleared(ps, START, t);
    NoOutputIsStranded(ps, t);
  }

  lemma ConnectKeepsInv(fd: Fd, s: SockId, st: State)
    requires Inv(st) && Enabled(Connect(fd, s), st) && Clearing(Pending(st), st.ccc, st.reading, fd, None)
    ensures Inv(Next(Connect(fd, s), st))
  {
    AddedKeepsInv(fd, s, st, Next(Connect(fd, s), st));
  }

  lemma RunOn(p: Step, ps: seq<Step>, st: State, t: State)
    requires Enabled(p, st) && Run(ps, Next(p, st), t)
    ensures Run([p] + ps, st, t)
  {
    assert ([p] + ps)[1..] == ps;
  }

  // One write through socket s, seen to by the sender.
  function Written(st: State, s: SockId): State
    requires s in st.socks && st.events == [] && st.batch == [] && st.reading == None
  {
    var x := st.socks[s];
    st.(socks := st.socks[s := x.(sendBuf := x.sendBuf + [1], written := x.written + [1])],
        ccc := if x.fd in st.ccc then st.ccc else st.ccc[x.fd := s])
  }

  const REGISTER := [Extract, ReadFd, Insert]

  lemma WriteRun(st: State, s: SockId)
    requires s in st.socks && st.events == [] && st.batch == [] && st.reading == None
    ensures Run([Append(s, [1]), Enqueue(s)] + REGISTER, st, Written(st, s))
  {
    var a := Next(Append(s, [1]), st);
    var b := Next(Enqueue(s), a);
    assert st.writers + multiset{s} - multiset{s} == st.writers;
    assert b == a.(writers := st.writers, events := [AddData(s)]);
    assert Run([], b, b);
    RunOn(Enqueue(s), [], a, b);
    RunOn(Append(s, [1]), [Enqueue(s)], st, b);
    assert [Append(s, [1])] + [Enqueue(s)] == [Append(s, [1]), Enqueue(s)];
    RegisterRun(b, s);
    RunsJoin([Append(s, [1]), Enqueue(s)], REGISTER, st, b, Written(st, s));
  }

  lemma RegisterRun(st: State, s: SockId)
    requires s in st.socks && st.events == [AddData(s)] && st.batch == [] && st.reading == None
    ensures var fd := st.socks[s].fd;
      Run([Extract, ReadFd, Insert], st, st.(events := [], ccc := if fd in st.ccc then st.ccc else st.ccc[fd := s]))
  {
    var c := Next(Extract, st);
    var d := Next(ReadFd, c);
    var e := Next(Insert, d);
    assert d.batch == [];
    assert Run([], e, e);
    RunOn(Insert, [], d, e);
    RunOn(ReadFd, [Insert], c, e);
    RunOn(Extract, [ReadFd, Insert], st, e);
    assert [ReadFd] + [Insert] == [ReadFd, Insert] && [Extract] + [ReadFd, Insert] == [Extract, ReadFd, Insert];
  }

  lemma {:induction false} RunsJoin(ps: seq<Step>, qs: seq<Step>, st: State, t: State, u: State)
    requires Run(ps, st, t) && Run(qs, t, u)
    ensures Run(ps + qs, st, u)
  {
    if ps == [] {
      assert ps + qs == qs;
    } else {
      RunsJoin(ps[1..], qs, Next(ps[0], st), t, u);
      assert (ps + qs)[0] == ps[0] && (ps + qs)[1..] == ps[1..] + qs;
    }
  }

  // ---------------------------------------------------------------- and when it is stranded

  // Another socket has the place of s in the table, nothing that is queued will clear it, and nobody is
  // about to attend to s.
  ghost predicate Shadowed(st: State, fd: Fd, s: SockId) {
    && s in st.socks && st.socks[s].fd == fd && fd != CLOSED
    && fd in st.ccc && st.ccc[fd] != s
    && RemoveSock(fd) !in Pending(st) && AddData(s) !in Pending(st) && s !in st.writers
    && forall x :: AddData(x) in Pending(st) ==> x in st.socks
  }

  // The sender works through what it has taken, and s stays in the shadow.
  lemma {:induction false} DrainBatch(st: State, fd: Fd, s: SockId) returns (ps: seq<Step>, t: State)
    requires Shadowed(st, fd, s) && st.reading == None
    ensures Run(ps, st, t) && NoConnect(ps)
    ensures Shadowed(t, fd, s) && t.reading == None && t.batch == [] && t.events == st.events
    decreases |st.batch|
  {
    if st.batch == [] {
      return [], st;
    }
    assert Pending(st) == [st.batch[0]] + (st.batch[1..] + st.events);
    match st.batch[0]
    case RemoveSock(g) =>
      assert st.batch[0] in Pending(st);
      var u := Next(HandleRemove, st);
      var qs, v := DrainBatch(u, fd, s);
      RunOn(HandleRemove, qs, st, v);
      ps, t := [HandleRemove] + qs, v;
    case AddData(x) =>
      assert st.batch[0] in Pending(st);
      var u := Next(ReadFd, st);
      var w := Next(Insert, u);
      var qs, v := DrainBatch(w, fd, s);
      RunOn(Insert, qs, u, v);
      RunOn(ReadFd, [Insert] + qs, st, v);
      ps, t := [ReadFd] + ([Insert] + qs), v;
  }

  lemma DrainAll(st: State, fd: Fd, s: SockId) returns (ps: seq<Step>, t: State)
    requires Shadowed(st, fd, s) && st.reading == None
    ensures Run(ps, st, t) && NoConnect(ps)
    ensures Shadowed(t, fd, s) && t.reading == None && t.batch == [] && t.events == []
  {
    var qs, u := DrainBatch(st, fd, s);
    var v := Next(Extract, u);
    assert Pending(v) == Pending(u);
    var rs, w := DrainBatch(v, fd, s);
    RunOn(Extract, rs, u, w);
    RunsJoin(qs, [Extract] + rs, st, u, w);
    ps, t := qs + ([Extract] + rs), w;
  }

  // From there one write is lost sight of.
  lemma ShadowedStrands(st: State, fd: Fd, s: SockId) returns (ps: seq<Step>, t: State)
    requires Shadowed(st, fd, s) && st.reading == None
    ensures Run(ps, st, t) && NoConnect(ps) && !NoneStranded(t)
  {
    var qs, u := DrainAll(st, fd, s);
    t := Written(u, s);
    WriteRun(u, s);
    RunsJoin(qs, [Append(s, [1]), Enqueue(s)] + REGISTER, st, u, t);
    ps := qs + ([Append(s, [1]), Enqueue(s)] + REGISTER);
    assert Live(t, s) && t.socks[s].sendBuf != [] && !Attended(Pending(t), t, s, t.socks[s].fd);
  }

  // An older registration of the descriptor that nothing is going to clear.
  lemma UnclearedStrands(fd: Fd, s: SockId, st: State) returns (ps: seq<Step>, t: State)
    requires Inv(st) && Enabled(Connect(fd, s), st) && !Clearing(Pending(st), st.ccc, st.reading, fd, None)
    ensures Run(ps, Next(Connect(fd, s), st), t) && NoConnect(ps) && !NoneStranded(t)
  {
    var u := Next(Connect(fd, s), st);
    assert Pending(u) == Pending(st);
    if st.reading.Some? {
      var v := Next(Insert, u);
      assert Pending(v) == Pending(st);
      var qs, w := ShadowedStrands(v, fd, s);
      RunOn(Insert, qs, u, w);
      ps, t := [Insert] + qs, w;
    } else {
      ps, t := ShadowedStrands(u, fd, s);
    }
  }

  lemma ClearedNeverStrands(fd: Fd, s: SockId, st: State, ps: seq<Step>, t: State)
    requires Inv(st) && Enabled(Connect(fd, s), st) && Clearing(Pending(st), st.ccc, st.reading, fd, None)
    requires NoConnect(ps) && Run(ps, Next(Connect(fd, s), st), t)
    ensures NoneStranded(t)
  {
    ConnectKeepsInv(fd, s, st);
    NoConnectIsCleared(ps, Next(Connect(fd, s), st), t);
    RunKeepsInv(ps, Next(Connect(fd, s), st), t);
  }

  // Whatever accepted connections, writers, disconnects and the sender do from here, no output is stranded.
  ghost predicate NeverStrands(u: State) {
    forall ps, t :: NoConnect(ps) && Run(ps, u, t) ==> NoneStranded(t)
  }

  lemma ClearedIsSafe(fd: Fd, s: SockId, st: State)
    requires Inv(st) && Enabled(Connect(fd, s), st) && Clearing(Pending(st), st.ccc, st.reading, fd, None)
    ensures NeverStrands(Next(Connect(fd, s), st))
  {
    forall ps, t | NoConnect(ps) && Run(ps, Next(Connect(fd, s), st), t)
      ensures NoneStranded(t)
    {
      ClearedNeverStrands(fd, s, st, ps, t);
    }
  }

  lemma UnclearedIsNotSafe(fd: Fd, s: SockId, st: State)
    requires Inv(st) && Enabled(Connect(fd, s), st) && !Clearing(Pending(st), st.ccc, st.reading, fd, None)
    ensures !NeverStrands(Next(Connect(fd, s), st))
  {
    var ps, t := UnclearedStrands(fd, s, st);
  }

  // So it is after an outbound connection if and only if no older registration of its descriptor is left that
  // is not about to be cleared.
  lemma ConnectExact(fd: Fd, s: SockId, st: State)
    requires Inv(st) && Enabled(Connect(fd, s), st)
    ensures NeverStrands(Next(Connect(fd, s), st)) <==> Clearing(Pending(st), st.ccc, st.reading, fd, None)
  {
    if Clearing(Pending(st), st.ccc, st.reading, fd, None) {
      ClearedIsSafe(fd, s, st);
    } else {
      UnclearedIsNotSafe(fd, s, st);
    }
  }

  // A connection on descriptor 5 was opened, written to and closed; another one reuses the descriptor.
  const REUSED := State(map[0 := Sock(CLOSED, [1], [], [1]), 1 := Sock(5, [], [], [])], {}, {}, multiset{}, [], [], None, map[5 := 0])

  lemma ReusedIsReached() returns (ps: seq<Step>)
    ensures Run(ps, START, REUSED)
  {
    var a := Next(Connect(5, 0), START);
    var b := Written(a, 0);
    var c := Next(Disconnect(0), b);
    assert a.socks == map[0 := Sock(5, [], [], [])];
    assert a.socks[0].sendBuf + [1] == [1] && a.socks[0].written + [1] == [1];
    assert b.socks == map[0 := Sock(5, [1], [], [1])];
    assert c.socks == map[0 := Sock(CLOSED, [1], [], [1])] && c.ccc == map[5 := 0];
    assert c.socks[1 := Sock(5, [], [], [])] == REUSED.socks;
    assert Next(Connect(5, 1), c) == REUSED;
    assert Run([], REUSED, REUSED);
    RunOn(Connect(5, 1), [], c, REUSED);
    RunOn(Disconnect(0), [Connect(5, 1)], b, REUSED);
    WriteRun(a, 0);
    var w := [Append(0, [1]), Enqueue(0)] + REGISTER;
    RunsJoin(w, [Disconnect(0)] + [Connect(5, 1)], a, b, REUSED);
    ps := [Connect(5, 0)] + (w + ([Disconnect(0)] + [Connect(5, 1)]));
    RunOn(Connect(5, 0), w + ([Disconnect(0)] + [Connect(5, 1)]), START, REUSED);
  }

  // Without the announcement output can be stranded: the second connection on descriptor 5 is never
  // entered in the table, because the closed first one still has the place.
  lemma UnannouncedOutputCanStrand() returns (ps: seq<Step>, t: State)
    ensures Run(ps, START, t) && !NoneStranded(t)
  {
    var qs := ReusedIsReached();
    t := Written(REUSED, 1);
    WriteRun(REUSED, 1);
    RunsJoin(qs, [Append(1, [1]), Enqueue(1)] + REGISTER, START, REUSED, t);
    ps := qs + ([Append(1, [1]), Enqueue(1)] + REGISTER);
    assert Live(t, 1) && !Attended(Pending(t), t, 1, t.socks[1].fd);
  }

  // ---------------------------------------------------------------- nothing is lost or reordered

  ghost predicate Conserved(st: State) {
    forall s :: s in st.socks ==> st.socks[s].kernel + st.socks[s].sendBuf == st.socks[s].written
  }

  // What a step does to one socket: nothing, or it is new, or closed, written to, or partly sent.
  ghost predicate Touched(x: Sock, y: Sock) {
    || y == x
    || y == x.(fd := CLOSED)
    || (exists data :: y == x.(sendBuf := x.sendBuf + data, written := x.written + data))
    || (exists n: nat :: n <= |x.sendBuf| && y == x.(sendBuf := x.sendBuf[n..], kernel := x.kernel + x.sendBuf[..n]))
  }

  lemma StepTouches(p: Step, st: State, s: SockId)
    requires Enabled(p, st)
    ensures s in st.socks ==> s in Next(p, st).socks && Touched(st.socks[s], Next(p, st).socks[s])
    ensures s !in st.socks && s in Next(p, st).socks ==> exists fd :: Next(p, st).socks[s] == Sock(fd, [], [], [])
  {
  }

  lemma TouchConserves(x: Sock, y: Sock)
    requires x.kernel + x.sendBuf == x.written && Touched(x, y)
    ensures y.kernel + y.sendBuf == y.written && x.kernel <= y.kernel
  {
    if data :| y == x.(sendBuf := x.sendBuf + data, written := x.written + data) {
      assert x.kernel + (x.sendBuf + data) == x.kernel + x.sendBuf + data;
    } else if n: nat :| n <= |x.sendBuf| && y == x.(sendBuf := x.sendBuf[n..], kernel := x.kernel + x.sendBuf[..n]) {
      assert (x.kernel + x.sendBuf[..n]) + x.sendBuf[n..] == x.kernel + x.sendBuf;
    }
  }

  lemma StepConserves(p: Step, st: State, s: SockId)
    requires Conserved(st) && Enabled(p, st) && s in Next(p, st).socks
    ensures var x := Next(p, st).socks[s];
      && x.kernel + x.sendBuf == x.written
      && (s in st.socks ==> st.socks[s].kernel <= x.kernel)
  {
    StepTouches(p, st, s);
    if s in st.socks { TouchConserves(st.socks[s], Next(p, st).socks[s]); }
  }

  lemma StepsConserve(p: Step, st: State)
    requires Conserved(st) && Enabled(p, st)
    ensures Conserved(Next(p, st))
    ensures forall s :: s in st.socks ==> s in Next(p, st).socks && st.socks[s].kernel <= Next(p, st).socks[s].kernel
  {
    forall s | s in Next(p, st).socks
      ensures var x := Next(p, st).socks[s]; x.kernel + x.sendBuf == x.written
    {
      StepConserves(p, st, s);
    }
    forall s | s in st.socks
      ensures s in Next(p, st).socks && st.socks[s].kernel <= Next(p, st).socks[s].kernel
    {
      StepTouches(p, st, s);
      StepConserves(p, st, s);
    }
  }

  // In every run, outbound connections included, the bytes handed to the kernel followed by the buffer are
  // the bytes written; so they are at all times, and after a disconnect for good, a prefix of them.
  lemma {:induction false} BytesAreConserved(ps: seq<Step>, st: State, t: State)
    requires Conserved(st) && Run(ps, st, t)
    ensures Conserved(t)
    ensures forall s :: s in t.socks ==> t.socks[s].kernel <= t.socks[s].written
    ensures forall s :: s in st.socks ==> s in t.socks && st.socks[s].kernel <= t.socks[s].kernel
  {
    if ps != [] {
      StepsConserve(ps[0], st);
      BytesAreConserved(ps[1..], Next(ps[0], st), t);
    }
  }

  // The periodic clean-up closes only sockets that are closed already.
  lemma CleanupClosesNothingLive(fd: Fd, st: State)
    requires Inv(st) && Enabled(Cleanup(fd), st)
    ensures Next(Cleanup(fd), st).socks == st.socks
    ensures Next(Cleanup(fd), st).ccc == if Live(st, st.ccc[fd]) then st.ccc else st.ccc - {fd}
  {
    var s := st.ccc[fd];
    assert st.socks[s].fd in {fd, CLOSED};
    if !Live(st, s) {
      assert st.socks[s].(fd := CLOSED) == st.socks[s];
      assert st.socks[s := st.socks[s]] == st.socks;
    }
  }

  // ---------------------------------------------------------------- who closes, who sends

  // A step that ends the connection of s: a disconnect, or an error on the descriptor it is registered under.
  predicate Ends(p: Step, st: State, s: SockId)
    requires Enabled(p, st)
  {
    p == Disconnect(s) || ((p.SendFails? || p.PollFails?) && st.ccc[p.fd] == s)
  }

  lemma ServingCloses(p: Step, st: State, s: SockId)
    requires Enabled(p, st) && Live(st, s) && (p.SendSome? || p.SendAgain? || p.SendFails? || p.PollFails? || p.Cleanup?)
    requires st.socks[st.ccc[p.fd]].fd in {p.fd, CLOSED}
    ensures s in Next(p, st).socks
    ensures Next(p, st).socks[s].fd == if (p.SendFails? || p.PollFails?) && st.ccc[p.fd] == s then CLOSED else st.socks[s].fd
  {
  }

  // An open connection is closed by these steps and by no other; it never changes its descriptor. In
  // particular a kernel that is not ready closes nothing.
  lemma WhoCloses(p: Step, st: State, s: SockId)
    requires Inv(st) && Enabled(p, st) && Live(st, s)
    ensures s in Next(p, st).socks
    ensures Next(p, st).socks[s].fd == if p == Disconnect(s) || ((p.SendFails? || p.PollFails?) && st.ccc[p.fd] == s)
      then CLOSED else st.socks[s].fd
  {
    if p.SendSome? || p.SendAgain? || p.SendFails? || p.PollFails? || p.Cleanup? { ServingCloses(p, st, s); }
  }

  ghost predicate Spared(ps: seq<Step>, st: State, s: SockId) {
    ps == [] || (Enabled(ps[0], st) && !Ends(ps[0], st, s) && Spared(ps[1..], Next(ps[0], st), s))
  }

  // So a connection lasts, on its descriptor, through every run without such a step.
  lemma {:induction false} ConnectionLasts(ps: seq<Step>, st: State, t: State, s: SockId)
    requires Inv(st) && Run(ps, st, t) && ClearedRun(ps, st) && Spared(ps, st, s) && Live(st, s)
    ensures Live(t, s) && t.socks[s].fd == st.socks[s].fd
  {
    if ps != [] {
      WhoCloses(ps[0], st, s);
      StepKeepsInv(ps[0], st);
      ConnectionLasts(ps[1..], Next(ps[0], st), t, s);
    }
  }

  // Bytes enter the buffer of s by a write and leave it, in order, for the kernel; the table entry goes when
  // the buffer is empty, and only then. No other step moves a byte.
  lemma WhoSends(p: Step, st: State, s: SockId)
    requires Enabled(p, st) && s in st.socks
    ensures s in Next(p, st).socks
    ensures var x, y := st.socks[s], Next(p, st).socks[s];
      if p.Append? && p.s == s then y == x.(sendBuf := x.sendBuf + p.data, written := x.written + p.data)
      else if p.SendSome? && st.ccc[p.fd] == s && x.fd == p.fd then
        && y == x.(sendBuf := x.sendBuf[p.n..], kernel := x.kernel + x.sendBuf[..p.n])
        && Next(p, st).ccc == if y.sendBuf == [] then st.ccc - {p.fd} else st.ccc
      else y == x || y == x.(fd := CLOSED)
  {
  }

  lemma NotReadyChangesNothing(fd: Fd, st: State)
    requires Enabled(SendAgain(fd), st) && st.socks[st.ccc[fd]].fd == fd
    ensures Next(SendAgain(fd), st) == st
  {
  }

  // ---------------------------------------------------------------- what is attended to can be sent

  // The steps by which a writer ends and the sender works off the queue.
  predicate Queueing(p: Step) { p.Enqueue? || p.Extract? || p.HandleRemove? || p.ReadFd? || p.Insert? }

  ghost predicate AllQueueing(ps: seq<Step>) { forall i :: 0 <= i < |ps| ==> Queueing(ps[i]) }

  lemma QueueingKeeps(p: Step, st: State)
    requires Inv(st) && Enabled(p, st) && Queueing(p)
    ensures Inv(Next(p, st)) && Next(p, st).socks == st.socks
    ensures !p.Enqueue? ==> Next(p, st).writers == st.writers
  {
    StepKeepsInv(p, st);
  }

  lemma WorkAdd(st: State) returns (ps: seq<Step>, t: State)
    requires Inv(st) && st.reading == None && st.batch != [] && st.batch[0].AddData?
    ensures Run(ps, st, t) && AllQueueing(ps) && Inv(t)
    ensures t.socks == st.socks && t.writers == st.writers && t.events == st.events && t.batch == st.batch[1..] && t.reading == None
  {
    assert Pending(st)[0] == st.batch[0];
    assert st.batch[0] in Pending(st);
    var u := Next(ReadFd, st);
    QueueingKeeps(ReadFd, st);
    t := Next(Insert, u);
    QueueingKeeps(Insert, u);
    RunOn(Insert, [], u, t);
    RunOn(ReadFd, [Insert] + [], st, t);
    ps := [ReadFd] + ([Insert] + []);
  }

  lemma WorkOne(st: State) returns (ps: seq<Step>, t: State)
    requires Inv(st) && st.reading == None && st.batch != []
    ensures Run(ps, st, t) && AllQueueing(ps) && Inv(t)
    ensures t.socks == st.socks && t.writers == st.writers && t.events == st.events && t.batch == st.batch[1..] && t.reading == None
  {
    if st.batch[0].AddData? {
      ps, t := WorkAdd(st);
    } else {
      t := Next(HandleRemove, st);
      QueueingKeeps(HandleRemove, st);
      RunOn(HandleRemove, [], st, t);
      ps := [HandleRemove] + [];
    }
  }

  lemma {:induction false} WorkOff(st: State) returns (ps: seq<Step>, t: State)
    requires Inv(st) && st.reading == None
    ensures Run(ps, st, t) && AllQueueing(ps) && Inv(t)
    ensures t.socks == st.socks && t.writers == st.writers && t.events == st.events && t.batch == [] && t.reading == None
    decreases |st.batch|
  {
    if st.batch == [] {
      return [], st;
    }
    var qs, u := WorkOne(st);
    var rs, v := WorkOff(u);
    RunsJoin(qs, rs, st, u, v);
    ps, t := qs + rs, v;
  }

  // Every thread that has written to s queues its event.
  lemma {:induction false} WritersEnd(st: State, s: SockId) returns (ps: seq<Step>, t: State)
    requires Inv(st)
    ensures Run(ps, st, t) && AllQueueing(ps) && Inv(t)
    ensures t.socks == st.socks && s !in t.writers && t.batch == st.batch && t.reading == st.reading
    decreases st.writers[s]
  {
    if s !in st.writers {
      return [], st;
    }
    var u := Next(Enqueue(s), st);
    QueueingKeeps(Enqueue(s), st);
    var qs, v := WritersEnd(u, s);
    RunOn(Enqueue(s), qs, st, v);
    ps, t := [Enqueue(s)] + qs, v;
  }

  lemma TakenAndWorkedOff(st: State) returns (ps: seq<Step>, t: State)
    requires Inv(st) && st.reading == None && st.batch == []
    ensures Run(ps, st, t) && AllQueueing(ps) && Inv(t)
    ensures t.socks == st.socks && t.writers == st.writers && t.batch == [] && t.events == [] && t.reading == None
  {
    var c := Next(Extract, st);
    QueueingKeeps(Extract, st);
    var qs, d := WorkOff(c);
    RunOn(Extract, qs, st, d);
    ps, t := [Extract] + qs, d;
  }

  // The sender ends what it is at, the writers of s end, and the sender takes and works off the queue.
  lemma QueueWorkedOff(st: State, s: SockId) returns (ps: seq<Step>, t: State)
    requires Inv(st) && st.reading == None
    ensures Run(ps, st, t) && AllQueueing(ps) && Inv(t)
    ensures t.socks == st.socks && s !in t.writers && t.batch == [] && t.events == [] && t.reading == None
  {
    var es, a := WorkOff(st);
    var bs, b := WritersEnd(a, s);
    RunsJoin(es, bs, st, a, b);
    var ds, d := TakenAndWorkedOff(b);
    RunsJoin(es + bs, ds, st, b, d);
    ps, t := es + bs + ds, d;
  }

  lemma Registered(st: State, s: SockId) returns (ps: seq<Step>, t: State)
    requires Inv(st) && Live(st, s) && st.socks[s].sendBuf != []
    ensures Run(ps, st, t) && AllQueueing(ps) && t.socks == st.socks && t.batch == [] && t.reading == None
    ensures st.socks[s].fd in t.ccc && t.ccc[st.socks[s].fd] == s
  {
    if st.reading.Some? {
      var u := Next(Insert, st);
      QueueingKeeps(Insert, st);
      var qs, v := QueueWorkedOff(u, s);
      RunOn(Insert, qs, st, v);
      ps, t := [Insert] + qs, v;
    } else {
      ps, t := QueueWorkedOff(st, s);
    }
    assert Live(t, s) && Pending(t) == [];
    assert Attended(Pending(t), t, s, t.socks[s].fd);
  }

  // From every reachable state, the unsent bytes of an open connection reach the kernel when the writers and
  // the sender go on: there is a run of their steps alone after which all bytes of that connection are handed
  // over, in order, and nothing has changed for any other.
  lemma OutputCanBeSent(ps: seq<Step>, st: State, s: SockId) returns (qs: seq<Step>, t: State)
    requires Run(ps, START, st) && ClearedRun(ps, START) && Live(st, s)
    ensures Run(qs, st, t) && forall i :: 0 <= i < |qs| ==> Queueing(qs[i]) || (qs[i].SendSome? && qs[i].fd == st.socks[s].fd)
    ensures t.socks == st.socks[s := st.socks[s].(sendBuf := [], kernel := st.socks[s].written)]
  {
    assert Inv(START) && Conserved(START);
    RunKeepsInv(ps, START, st);
    BytesAreConserved(ps, START, st);
    var x := st.socks[s];
    assert x.kernel + x.sendBuf == x.written;
    if x.sendBuf == [] {
      assert x.kernel == x.kernel + x.sendBuf;
      assert st.socks[s := x] == st.socks;
      return [], st;
    }
    var rs, u := Registered(st, s);
    var p := SendSome(x.fd, |x.sendBuf|);
    t := Next(p, u);
    assert x.sendBuf[|x.sendBuf|..] == [] && x.sendBuf[..|x.sendBuf|] == x.sendBuf;
    assert Run([], t, t);
    RunOn(p, [], u, t);
    RunsJoin(rs, [p] + [], st, u, t);
    qs := rs + ([p] + []);
  }
}
