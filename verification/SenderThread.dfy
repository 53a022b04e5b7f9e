/**
The functions of the sender thread as they are written, each proved to be a run of the machine in module
Sender, from any state of the other threads. The other threads stand still during one call: that their steps
may also fall between those of a loop is a matter of the machine.
*/
module SenderThread {
  import opened Options
  import opened Ordered
  import opened Sender

  // What poll() says about one descriptor, and then send(): how many bytes it takes at most, or an error.
  datatype Answer = PollError | NotReady | Takes(n: nat) | TryAgain | SendError

  lemma {:induction false} RunThen(ps: seq<Step>, p: Step, st: State, t: State)
    requires Run(ps, st, t) && Enabled(p, t)
    ensures Run(ps + [p], st, Next(p, t))
  {
    assert Run([], Next(p, t), Next(p, t));
    RunOn(p, [], t, Next(p, t));
    assert [p] + [] == [p];
    RunsJoin(ps, [p], st, t, Next(p, t));
  }

  // The table after a queue of events: an ADD_DATA takes a free place, a REMOVE_SOCK frees one.
  function Table(ccc: map<Fd, SockId>, q: seq<Event>, socks: map<SockId, Sock>): map<Fd, SockId>
    requires forall s :: AddData(s) in q ==> s in socks
    decreases |q|
  {
    if q == [] then ccc
    else
      var c := match q[0]
        case AddData(s) => if socks[s].fd in ccc then ccc else ccc[socks[s].fd := s]
        case RemoveSock(fd) => ccc - {fd};
      assert forall s :: AddData(s) in q[1..] ==> AddData(s) in q;
      Table(c, q[1..], socks)
  }

  // The table entries whose socket is open.
  function Opened(ccc: map<Fd, SockId>, socks: map<SockId, Sock>): set<Fd> {
    set k | k in ccc && ccc[k] in socks && socks[ccc[k]].fd != CLOSED
  }

  lemma CleanupRun(fd: Fd, ps: seq<Step>, st: State, t: State)
    requires Inv(st) && Run(ps, st, t) && NoConnect(ps) && Enabled(Cleanup(fd), t)
    ensures Run(ps + [Cleanup(fd)], st, Next(Cleanup(fd), t))
    ensures Next(Cleanup(fd), t).socks == t.socks
    ensures Next(Cleanup(fd), t).ccc == if Live(t, t.ccc[fd]) then t.ccc else t.ccc - {fd}
    ensures t.socks[t.ccc[fd]].fd in {fd, CLOSED}
    ensures Enabled(PollFails(fd), t)
    ensures Next(Cleanup(fd), t) == if fd == CLOSED || fd != t.socks[t.ccc[fd]].fd then Next(PollFails(fd), t) else t
  {
    NoConnectIsCleared(ps, st, t);
    RunKeepsInv(ps, st, t);
    CleanupClosesNothingLive(fd, t);
    RunThen(ps, Cleanup(fd), st, t);
  }

  // One descriptor polled: what becomes of the connection registered under it, if that is open, and whether the
  // registration stays.
  function Served(x: Sock, a: Answer): Sock {
    match a
    case NotReady => x
    case TryAgain => x
    case Takes(n) => if n < |x.sendBuf| then x.(sendBuf := x.sendBuf[n..], kernel := x.kernel + x.sendBuf[..n])
                     else x.(sendBuf := [], kernel := x.kernel + x.sendBuf)
    case PollError => x.(fd := CLOSED)
    case SendError => x.(fd := CLOSED)
  }

  predicate Stays(x: Sock, fd: Fd, a: Answer) {
    match a
    case NotReady => true
    case TryAgain => x.fd == fd
    case Takes(n) => x.fd == fd && n < |x.sendBuf|
    case PollError => false
    case SendError => false
  }

  // Connections and table when the descriptors in done have been polled. Closed connections stay closed.
  ghost predicate PolledSoFar(done: set<Fd>, answers: map<Fd, Answer>, socks: map<SockId, Sock>, ccc: map<Fd, SockId>,
                              socks': map<SockId, Sock>, ccc': map<Fd, SockId>)
  {
    && socks'.Keys == socks.Keys
    && (forall k :: k in ccc' ==> k in ccc && ccc'[k] == ccc[k] && ccc[k] in socks)
    && (forall k :: k in ccc && k !in ccc' ==> k in done)
    && (forall s :: s in socks ==>
         var fd := socks[s].fd;
         if fd == CLOSED then socks'[s].fd == CLOSED
         else if fd in done && fd in answers && fd in ccc && ccc[fd] == s then socks'[s] == Served(socks[s], answers[fd])
         else socks'[s] == socks[s])
    && (forall k :: k in done && k != CLOSED && k in ccc && ccc[k] in socks ==>
         (k in ccc' <==> (k in answers ==> Stays(socks[ccc[k]], k, answers[k]))))
  }

  // What one answer does to the connection s registered under fd, open there or closed, and to the table.
  ghost predicate OnePolled(fd: Fd, a: Answer, socks: map<SockId, Sock>, ccc: map<Fd, SockId>,
                            socks': map<SockId, Sock>, ccc': map<Fd, SockId>)
    requires fd in ccc && ccc[fd] in socks
  {
    var s := ccc[fd];
    && socks'.Keys == socks.Keys && (forall t :: t in socks && t != s ==> socks'[t] == socks[t])
    && (socks[s].fd == CLOSED ==> socks'[s].fd == CLOSED)
    && (socks[s].fd == fd && fd != CLOSED ==> socks'[s] == Served(socks[s], a))
    && ccc' == if Stays(socks[s], fd, a) then ccc else ccc - {fd}
  }

  lemma PolledStep(fd: Fd, done: set<Fd>, answers: map<Fd, Answer>, socks: map<SockId, Sock>, ccc: map<Fd, SockId>,
                   socks1: map<SockId, Sock>, ccc1: map<Fd, SockId>, socks2: map<SockId, Sock>, ccc2: map<Fd, SockId>)
    requires fd in ccc && fd !in done && ccc[fd] in socks && socks[ccc[fd]].fd in {fd, CLOSED}
    requires PolledSoFar(done, answers, socks, ccc, socks1, ccc1)
    requires if fd in ccc1 && fd in answers then OnePolled(fd, answers[fd], socks1, ccc1, socks2, ccc2) else socks2 == socks1 && ccc2 == ccc1
    ensures PolledSoFar(done + {fd}, answers, socks, ccc, socks2, ccc2)
  {
    var s := ccc[fd];
    assert fd in ccc1;
    if fd != CLOSED && fd in answers { PolledEntry(fd, answers, socks, socks1, ccc1, s, done, ccc); }
  }

  // A closed connection may have been given what others were: it stays closed, and no entry of it stays.
  lemma PolledEntry(fd: Fd, answers: map<Fd, Answer>, socks: map<SockId, Sock>, socks1: map<SockId, Sock>, ccc1: map<Fd, SockId>,
                    s: SockId, done: set<Fd>, ccc: map<Fd, SockId>)
    requires fd in ccc && fd !in done && ccc[fd] == s && s in socks && socks[s].fd in {fd, CLOSED} && fd != CLOSED && fd in answers
    requires PolledSoFar(done, answers, socks, ccc, socks1, ccc1)
    ensures socks1[s].fd == socks[s].fd && Stays(socks1[s], fd, answers[fd]) == Stays(socks[s], fd, answers[fd])
  {
  }

  class Thread {
    var socks: map<SockId, Sock>
    var events: seq<Event>
    var ccc: map<Fd, SockId>
    // where the other threads are
    ghost var accepted: set<Fd>
    ghost var announced: set<Fd>
    ghost var writers: multiset<SockId>

    constructor ()
      ensures With([]) == START
    {
      socks, events, ccc := map[], [], map[];
      accepted, announced, writers := {}, {}, multiset{};
    }

    // The machine state when the thread has taken batch from the queue.
    ghost function With(batch: seq<Event>): State
      reads this
    {
      State(socks, accepted, announced, writers, events, batch, None, ccc)
    }

    ghost predicate Known(q: seq<Event>)
      reads this
    {
      (forall s :: AddData(s) in q ==> s in socks) && forall k :: k in ccc ==> ccc[k] in socks
    }

    method WriteData(s: SockId, data: seq<Byte>)
      requires s in socks
      modifies this
      ensures Run([Append(s, data), Enqueue(s)], old(With([])), With([]))
    {
      ghost var a := Next(Append(s, data), With([]));
      socks := socks[s := socks[s].(sendBuf := socks[s].sendBuf + data, written := socks[s].written + data)];
      events := events + [AddData(s)];
      assert Next(Enqueue(s), a) == With([]) by {
        assert writers + multiset{s} - multiset{s} == writers;
      }
      assert Run([], With([]), With([]));
      RunOn(Enqueue(s), [], a, With([]));
      RunOn(Append(s, data), [Enqueue(s)], old(With([])), With([]));
      assert [Append(s, data)] + [Enqueue(s)] == [Append(s, data), Enqueue(s)];
    }

    method HandleEvents() returns (ghost ps: seq<Step>)
      requires Known(events)
      modifies this`events, this`ccc
      ensures events == [] && ccc == Table(old(ccc), old(events), socks)
      ensures Run(ps, old(With([])), With([])) && NoConnect(ps)
      ensures Known([])
    {
      ghost var st := With([]);
      var d := events;
      events := [];
      assert Run([], st, st);
      RunThen([], Extract, st, st);
      ps := [] + [Extract];
      while d != []
        invariant Known(d) && events == []
        invariant Table(ccc, d, socks) == Table(old(ccc), old(events), socks)
        invariant Run(ps, st, With(d)) && NoConnect(ps)
      {
        ghost var more := HandleOne(d, ps, st);
        ps := more;
        d := d[1..];
      }
    }

    // One event of the batch d, in a run ps that started from st.
    method HandleOne(d: seq<Event>, ghost ps: seq<Step>, ghost st: State) returns (ghost more: seq<Step>)
      requires d != [] && Known(d) && Run(ps, st, With(d)) && NoConnect(ps)
      modifies this`ccc
      ensures Known(d[1..]) && Run(more, st, With(d[1..])) && NoConnect(more)
      ensures forall s :: AddData(s) in d ==> s in socks
      ensures Table(ccc, d[1..], socks) == Table(old(ccc), d, socks)
    {
      var e := d[0];
      assert forall s :: AddData(s) in d[1..] ==> AddData(s) in d;
      match e {
        case AddData(s) =>
          assert e in d;
          var fd := socks[s].fd;
          RunThen(ps, ReadFd, st, With(d));
          RunThen(ps + [ReadFd], Insert, st, Next(ReadFd, With(d)));
          more := ps + [ReadFd] + [Insert];
          if fd !in ccc { ccc := ccc[fd := s]; }
        case RemoveSock(fd) =>
          RunThen(ps, HandleRemove, st, With(d));
          more := ps + [HandleRemove];
          ccc := ccc - {fd};
      }
    }

    method SendToSocket(fd: Fd, answer: Answer) returns (ghost p: Step)
      requires fd in ccc && ccc[fd] in socks && !answer.PollError? && !answer.NotReady?
      modifies this`socks, this`ccc
      ensures Enabled(p, old(With([]))) && With([]) == Next(p, old(With([]))) && !p.Connect?
      ensures socks.Keys == old(socks.Keys) && forall k :: k in ccc ==> k in old(ccc) && ccc[k] == old(ccc)[k]
      // a descriptor that is another connection by now only goes from the table
      ensures var s := old(ccc)[fd]; old(socks)[s].fd != fd ==> socks == old(socks) && ccc == old(ccc) - {fd}
      // EAGAIN waits
      ensures var s := old(ccc)[fd]; old(socks)[s].fd == fd && answer.TryAgain? ==> socks == old(socks) && ccc == old(ccc)
      // what the kernel takes leaves the buffer; the entry goes with the last byte
      ensures var s := old(ccc)[fd]; var x := old(socks)[s];
        x.fd == fd && answer.Takes? ==>
          var n := if answer.n < |x.sendBuf| then answer.n else |x.sendBuf|;
          && socks == old(socks)[s := x.(sendBuf := x.sendBuf[n..], kernel := x.kernel + x.sendBuf[..n])]
          && ccc == if n == |x.sendBuf| then old(ccc) - {fd} else old(ccc)
      // any other error closes
      ensures var s := old(ccc)[fd]; var x := old(socks)[s];
        x.fd == fd && answer.SendError? ==> socks == old(socks)[s := x.(fd := CLOSED)] && ccc == old(ccc) - {fd}
      ensures OnePolled(fd, answer, old(socks), old(ccc), socks, ccc)
    {
      var s := ccc[fd];
      var x := socks[s];
      var res := if answer.Takes? && answer.n < |x.sendBuf| then answer.n else |x.sendBuf|;
      p := if answer.Takes? then SendSome(fd, res) else if answer.TryAgain? then SendAgain(fd) else SendFails(fd);
      if x.fd != fd {
        ccc := ccc - {fd};
      } else if answer.Takes? {
        socks := socks[s := x.(sendBuf := x.sendBuf[res..], kernel := x.kernel + x.sendBuf[..res])];
        if res == |x.sendBuf| { ccc := ccc - {fd}; }
      } else if answer.SendError? {
        socks := socks[s := x.(fd := CLOSED)];
        ccc := ccc - {fd};
      }
    }

    // disconnect__sk, and erase from the table.
    method CloseAndErase(fd: Fd)
      requires fd in ccc && ccc[fd] in socks
      modifies this`socks, this`ccc
      ensures With([]) == Next(PollFails(fd), old(With([])))
      ensures socks.Keys == old(socks.Keys) && forall k :: k in ccc ==> k in old(ccc) && ccc[k] == old(ccc)[k]
      ensures OnePolled(fd, PollError, old(socks), old(ccc), socks, ccc)
    {
      var s := ccc[fd];
      socks := socks[s := socks[s].(fd := CLOSED)];
      ccc := ccc - {fd};
    }

    // poll() and send() answered for one descriptor.
    method AnswerOne(fd: Fd, a: Answer, ghost ps: seq<Step>, ghost st: State) returns (ghost more: seq<Step>)
      requires Known([]) && Run(ps, st, With([])) && NoConnect(ps) && fd in ccc
      modifies this`socks, this`ccc
      ensures Known([]) && Run(more, st, With([])) && NoConnect(more)
      ensures OnePolled(fd, a, old(socks), old(ccc), socks, ccc)
    {
      ghost var t := With([]);
      if a.PollError? {
        CloseAndErase(fd);
        RunThen(ps, PollFails(fd), st, t);
        more := ps + [PollFails(fd)];
      } else if !a.NotReady? {
        ghost var p := SendToSocket(fd, a);
        RunThen(ps, p, st, t);
        more := ps + [p];
      } else {
        more := ps;
      }
    }

    // One turn of the loop below.
    method ServeOne(fd: Fd, answers: map<Fd, Answer>, ghost ps: seq<Step>, ghost st: State, ghost done: set<Fd>)
      returns (ghost more: seq<Step>)
      requires Known([]) && Run(ps, st, With([])) && NoConnect(ps) && fd !in done && fd in st.ccc
      requires st.ccc[fd] in st.socks && st.socks[st.ccc[fd]].fd in {fd, CLOSED}
      requires PolledSoFar(done, answers, st.socks, st.ccc, socks, ccc)
      modifies this`socks, this`ccc
      ensures Known([]) && Run(more, st, With([])) && NoConnect(more)
      ensures PolledSoFar(done + {fd}, answers, st.socks, st.ccc, socks, ccc)
    {
      ghost var socks1, ccc1 := socks, ccc;
      more := ps;
      if fd in ccc && fd in answers { more := AnswerOne(fd, answers[fd], ps, st); }
      PolledStep(fd, done, answers, st.socks, st.ccc, socks1, ccc1, socks, ccc);
    }

    // One pass over a snapshot of the table; entries disappear on the way. Every open connection that was
    // polled has been served as the kernel answered, and no other has changed.
    method PollAndSend(answers: map<Fd, Answer>) returns (ghost ps: seq<Step>)
      requires Known([]) && forall k :: k in ccc ==> socks[ccc[k]].fd in {k, CLOSED}
      modifies this`socks, this`ccc
      ensures Run(ps, old(With([])), With([])) && NoConnect(ps)
      ensures PolledSoFar(old(ccc).Keys, answers, old(socks), old(ccc), socks, ccc)
    {
      ghost var st, done: set<Fd> := With([]), {};
      ps := [];
      var todo := ccc.Keys;
      while todo != {}
        invariant Known([]) && Run(ps, st, With([])) && NoConnect(ps)
        invariant todo + done == st.ccc.Keys && todo !! done
        invariant PolledSoFar(done, answers, st.socks, st.ccc, socks, ccc)
        decreases todo
      {
        var fd := AnyOf(todo);
        ghost var more := ServeOne(fd, answers, ps, st, done);
        ps := more;
        todo, done := todo - {fd}, done + {fd};
      }
      assert done == st.ccc.Keys;
    }

    method CleanupOne(fd: Fd, ghost ps: seq<Step>, ghost st: State) returns (ghost p: Step)
      requires Inv(st) && Run(ps, st, With([])) && NoConnect(ps) && fd in ccc && ccc[fd] in socks
      modifies this`socks, this`ccc
      ensures p == Cleanup(fd) && Run(ps + [p], st, With([])) && socks == old(socks)
      ensures ccc == if Live(old(With([])), old(ccc)[fd]) then old(ccc) else old(ccc) - {fd}
    {
      p := Cleanup(fd);
      ghost var t := With([]);
      CleanupRun(fd, ps, st, t);
      if fd == CLOSED || fd != socks[ccc[fd]].fd {
        CloseAndErase(fd);
      }
    }

    // One turn of the loop below.
    method CleanupTurn(fd: Fd, ghost todo: set<Fd>, ghost ps: seq<Step>, ghost st: State) returns (ghost p: Step)
      requires Inv(st) && Run(ps, st, With([])) && NoConnect(ps) && socks == st.socks
      requires fd in todo && todo <= st.ccc.Keys && ccc == KeepOnly(st.ccc, todo + Opened(st.ccc, socks))
      modifies this`socks, this`ccc
      ensures p == Cleanup(fd) && Run(ps + [p], st, With([])) && socks == old(socks)
      ensures ccc == KeepOnly(st.ccc, (todo - {fd}) + Opened(st.ccc, socks))
    {
      KeepOnlyStep(st.ccc, todo, Opened(st.ccc, socks), fd);
      assert todo + {fd} == todo;
      assert fd in ccc && ccc[fd] == st.ccc[fd];
      p := CleanupOne(fd, ps, st);
    }

    // cleanup_sockets: drops the entries whose socket is closed, and disturbs no open one.
    method CleanupSockets() returns (ghost ps: seq<Step>)
      requires Inv(With([]))
      modifies this`socks, this`ccc
      ensures Run(ps, old(With([])), With([])) && NoConnect(ps)
      ensures socks == old(socks) && ccc == KeepOnly(old(ccc), Opened(old(ccc), socks))
    {
      ghost var st, open := With([]), Opened(ccc, socks);
      ps := [];
      var todo := ccc.Keys;
      KeepOnlyAll(ccc, open);
      while todo != {}
        invariant Run(ps, st, With([])) && NoConnect(ps)
        invariant socks == st.socks && todo <= st.ccc.Keys
        invariant ccc == KeepOnly(st.ccc, todo + open)
        decreases todo
      {
        var fd := AnyOf(todo);
        ghost var p := CleanupTurn(fd, todo, ps, st);
        ps := ps + [p];
        todo := todo - {fd};
      }
      KeepOnlyAll(st.ccc, open);
    }
  }
}
