/**
Reading from a socket: S_recv takes what there is, __gets waits for a delimiter. Both keep what they do not
return in rd_buf. What readable_abs, recv and the clock say is an input: one answer for each time round a loop.
*/
module Inbound {
  import opened Options
  import opened Sequences
  import opened Search

  datatype Answer =
    | NotReady            // readable_abs said no
    | Data(bytes: string)    // recv returned these
    | Eof                 // recv returned 0
    | Again               // EAGAIN
    | Failed              // any other error
    | Late                // twenty seconds without data

  datatype Socket = Socket(rdBuf: string, connected: bool, recv0: nat)

  // One call: what it returned, the delimiter it removed, the bytes it took from the kernel, unused answers.
  datatype Outcome = Outcome(st: Socket, piece: string, eaten: string, got: string, left: seq<Answer>)

  function Least(a: nat, b: nat): nat { if a <= b then a else b }

  function Take(st: Socket, len: nat, got: string, left: seq<Answer>): Outcome {
    var n := Least(len, |st.rdBuf|);
    Outcome(st.(rdBuf := st.rdBuf[n..]), st.rdBuf[..n], [], got, left)
  }

  // At most one answer is used.
  function Recv(st: Socket, len: nat, answers: seq<Answer>): Outcome {
    if st.rdBuf != [] then Take(st, len, [], answers)
    else if answers == [] then Outcome(st, [], [], [], [])
    else
      var left := answers[1..];
      match answers[0]
      case Data(b) =>
        if st.connected then Take(Socket(b, true, if b == [] then st.recv0 else 0), len, b, left) else Outcome(st, [], [], [], left)
      case Eof =>
        var n := st.recv0 + 1;
        Outcome(if st.connected then Socket([], n <= 10, n) else st, [], [], [], left)
      case Failed => Outcome(st.(connected := false), [], [], [], left)
      case _ => Outcome(st, [], [], [], left)
  }

  function CutAt(st: Socket, d: string, pos: nat, got: string, left: seq<Answer>): Outcome
    requires pos + |d| <= |st.rdBuf|
  {
    Outcome(st.(rdBuf := st.rdBuf[pos + |d|..]), st.rdBuf[..pos], d, got, left)
  }

  function Gets(st: Socket, d: string, answers: seq<Answer>): Outcome {
    match Find(st.rdBuf, d)
    case Some(pos) => CutAt(st, d, pos, [], answers)
    case None => if st.connected then Waiting(st, d, 0, [], answers) else Outcome(st, [], [], [], answers)
  }

  // The loop of __gets; recv0 counts the zero-length reads in a row.
  function Waiting(st: Socket, d: string, recv0: nat, got: string, answers: seq<Answer>): Outcome
    decreases |answers|
  {
    if answers == [] || answers[0].Late? then Outcome(st, [], [], got, answers)
    else
      var left := answers[1..];
      match answers[0]
      case Data(b) =>
        if b == [] then Waiting(st, d, recv0, got, left)
        else
          var st1 := st.(rdBuf := st.rdBuf + b);
          (match Find(st1.rdBuf, d)
           case Some(pos) => CutAt(st1, d, pos, got + b, left)
           case None => Waiting(st1, d, 0, got + b, left))
      case Eof =>
        if recv0 + 1 > 10 then Outcome(st.(connected := false), [], [], got, left) else Waiting(st, d, recv0 + 1, got, left)
      case Failed => Outcome(st.(connected := false), [], [], got, left)
      case _ => Waiting(st, d, recv0, got, left)
  }

  // ---------------------------------------------------------------- conservation

  datatype Call = CallRecv(len: nat, answers: seq<Answer>) | CallGets(delim: string, answers: seq<Answer>)

  function Do(c: Call, st: Socket): Outcome {
    match c
    case CallRecv(len, answers) => Recv(st, len, answers)
    case CallGets(d, answers) => Gets(st, d, answers)
  }

  function Final(cs: seq<Call>, st: Socket): Socket { if cs == [] then st else Final(cs[1..], Do(cs[0], st).st) }

  // Everything handed to the callers, with the delimiters in their places.
  function Returned(cs: seq<Call>, st: Socket): string {
    if cs == [] then [] else var o := Do(cs[0], st); o.piece + o.eaten + Returned(cs[1..], o.st)
  }

  function Received(cs: seq<Call>, st: Socket): string {
    if cs == [] then [] else var o := Do(cs[0], st); o.got + Received(cs[1..], o.st)
  }

  ghost predicate Conserves(o: Outcome, before: string) { o.piece + o.eaten + o.st.rdBuf == before + o.got }

  lemma CutConserves(st: Socket, d: string, pos: nat, got: string, left: seq<Answer>, before: string)
    requires Find(st.rdBuf, d) == Some(pos) && st.rdBuf == before + got
    ensures Conserves(CutAt(st, d, pos, got, left), before)
  {
    var s := st.rdBuf;
    FindSpec(s, d);
    assert s[pos..pos + |d|] == d;
    assert s[..pos] + s[pos..pos + |d|] + s[pos + |d|..] == s;
  }

  lemma {:induction false} WaitingConserves(st: Socket, d: string, recv0: nat, got: string, answers: seq<Answer>, before: string)
    requires st.rdBuf == before + got
    ensures Conserves(Waiting(st, d, recv0, got, answers), before)
    decreases |answers|
  {
    if answers != [] {
      var left := answers[1..];
      match answers[0]
      case Data(b) =>
        if b == [] {
          WaitingConserves(st, d, recv0, got, left, before);
        } else {
          var st1 := st.(rdBuf := st.rdBuf + b);
          assert st1.rdBuf == before + (got + b);
          if Find(st1.rdBuf, d) == None {
            WaitingConserves(st1, d, 0, got + b, left, before);
          } else {
            CutConserves(st1, d, Find(st1.rdBuf, d).value, got + b, left, before);
          }
        }
      case Eof => if recv0 + 1 <= 10 { WaitingConserves(st, d, recv0 + 1, got, left, before); }
      case NotReady => WaitingConserves(st, d, recv0, got, left, before);
      case Again => WaitingConserves(st, d, recv0, got, left, before);
      case _ =>
    }
  }

  lemma DoConserves(c: Call, st: Socket)
    ensures Conserves(Do(c, st), st.rdBuf)
  {
    assert st.rdBuf == st.rdBuf + [];
    match c
    case CallRecv(len, answers) =>
      if st.rdBuf == [] && answers != [] && answers[0].Data? { assert [] + answers[0].bytes == answers[0].bytes; }
    case CallGets(d, answers) =>
      match Find(st.rdBuf, d)
      case Some(pos) => CutConserves(st, d, pos, [], answers, st.rdBuf);
      case None => WaitingConserves(st, d, 0, [], answers, st.rdBuf);
  }

  // For any calls with any lengths, delimiters and answers: what was returned with its delimiters, followed
  // by rd_buf, is what rd_buf held at first and then what was received, in order.
  lemma {:induction false} NothingIsLost(cs: seq<Call>, st: Socket)
    ensures Returned(cs, st) + Final(cs, st).rdBuf == st.rdBuf + Received(cs, st)
  {
    if cs == [] {
      assert [] + st.rdBuf == st.rdBuf + [];
    } else {
      var o := Do(cs[0], st);
      DoConserves(cs[0], st);
      NothingIsLost(cs[1..], o.st);
      Assoc(o.piece + o.eaten, Returned(cs[1..], o.st), Final(cs, st).rdBuf);
      Assoc(o.piece + o.eaten, o.st.rdBuf, Received(cs[1..], o.st));
      Assoc(st.rdBuf, o.got, Received(cs[1..], o.st));
    }
  }

  // ---------------------------------------------------------------- how much S_recv gives, and when it ends

  // What is buffered is given first, without asking the kernel; fresh bytes of an open connection are given at
  // once. Either way the caller gets as many as asked for, or all there are, and the rest is kept.
  lemma RecvGives(st: Socket, len: nat, answers: seq<Answer>)
    ensures var o, n := Recv(st, len, answers), if len < |st.rdBuf| then len else |st.rdBuf|;
      st.rdBuf != [] ==> o == Outcome(st.(rdBuf := st.rdBuf[n..]), st.rdBuf[..n], [], [], answers)
    ensures st.rdBuf == [] && st.connected && answers != [] && answers[0].Data? && answers[0].bytes != [] ==>
      var o, b := Recv(st, len, answers), answers[0].bytes;
      var n := if len < |b| then len else |b|;
      o == Outcome(Socket(b[n..], true, 0), b[..n], [], b, answers[1..])
  {
  }

  // n times the end of the stream, for S_recv and for __gets.
  function Ends(n: nat): seq<Answer> { seq(n, i => Eof) }

  function EndCalls(n: nat, len: nat): seq<Call> { seq(n, i => CallRecv(len, [Eof])) }

  // The eleventh zero-length read in a row ends the connection and the tenth does not.
  lemma {:induction false} ZeroReads(n: nat, len: nat, st: Socket)
    requires st.rdBuf == [] && st.connected && st.recv0 <= 10
    ensures Final(EndCalls(n, len), st).connected <==> st.recv0 + n <= 10
  {
    if n > 0 {
      var st1 := Recv(st, len, [Eof]).st;
      assert EndCalls(n, len)[0] == CallRecv(len, [Eof]);
      assert EndCalls(n, len)[1..] == EndCalls(n - 1, len);
      if st1.connected { ZeroReads(n - 1, len, st1); } else { StaysClosed(n - 1, len, st1); }
    }
  }

  lemma {:induction false} StaysClosed(n: nat, len: nat, st: Socket)
    requires st.rdBuf == [] && !st.connected
    ensures !Final(EndCalls(n, len), st).connected
  {
    if n > 0 {
      assert EndCalls(n, len)[0] == CallRecv(len, [Eof]);
      assert EndCalls(n, len)[1..] == EndCalls(n - 1, len);
      StaysClosed(n - 1, len, Recv(st, len, [Eof]).st);
    }
  }

  // __gets keeps a count of its own, which starts at nothing.
  lemma {:induction false} ZeroReadsWaiting(n: nat, st: Socket, d: string, recv0: nat, got: string)
    requires st.connected && recv0 <= 10
    ensures Waiting(st, d, recv0, got, Ends(n)).st == st.(connected := recv0 + n <= 10)
    decreases n
  {
    if n > 0 {
      assert Ends(n)[0] == Eof && Ends(n)[1..] == Ends(n - 1);
      if recv0 + 1 <= 10 { ZeroReadsWaiting(n - 1, st, d, recv0 + 1, got); }
    }
  }

  lemma ZeroReadsInLine(n: nat, st: Socket, d: string)
    requires st.connected && Find(st.rdBuf, d) == None
    ensures Gets(st, d, Ends(n)).st == st.(connected := n <= 10) && Gets(st, d, Ends(n)).piece == []
  {
    ZeroReadsWaiting(n, st, d, 0, []);
    EndsGiveNothing(n, st, d, 0);
  }

  lemma {:induction false} EndsGiveNothing(n: nat, st: Socket, d: string, recv0: nat)
    ensures Waiting(st, d, recv0, [], Ends(n)).piece == []
    decreases n
  {
    if n > 0 {
      assert Ends(n)[0] == Eof && Ends(n)[1..] == Ends(n - 1);
      if recv0 + 1 <= 10 { EndsGiveNothing(n - 1, st, d, recv0 + 1); }
    }
  }

  // Any other error ends the connection at once; what is buffered stays to be read.
  lemma ErrorCloses(st: Socket, len: nat, d: string, answers: seq<Answer>)
    requires answers != [] && answers[0].Failed?
    ensures st.rdBuf == [] ==> Recv(st, len, answers) == Outcome(st.(connected := false), [], [], [], answers[1..])
    ensures Find(st.rdBuf, d) == None && st.connected ==> Gets(st, d, answers) == Outcome(st.(connected := false), [], [], [], answers[1..])
  {
  }

  // ---------------------------------------------------------------- where __gets cuts

  // The bytes the answers hold, whether they are read or not.
  function Stream(answers: seq<Answer>): string {
    if answers == [] then [] else (if answers[0].Data? then answers[0].bytes else []) + Stream(answers[1..])
  }

  // Cut at the first delimiter of the stream s.
  ghost predicate FirstCut(o: Outcome, s: string, d: string) {
    o.eaten != [] ==> Find(s, d) == Some(|o.piece|) && |o.piece| <= |s| && o.piece == s[..|o.piece|]
  }

  lemma CutIsFirst(st: Socket, d: string, got: string, left: seq<Answer>)
    requires Find(st.rdBuf, d).Some?
    ensures FirstCut(CutAt(st, d, Find(st.rdBuf, d).value, got, left), st.rdBuf + Stream(left), d)
  {
    FindExtends(st.rdBuf, Stream(left), d);
  }

  lemma {:induction false} WaitingFinds(st: Socket, d: string, recv0: nat, got: string, answers: seq<Answer>)
    ensures FirstCut(Waiting(st, d, recv0, got, answers), st.rdBuf + Stream(answers), d)
    decreases |answers|
  {
    if answers != [] && !answers[0].Late? && !answers[0].Failed? {
      var left := answers[1..];
      if answers[0].Data? && answers[0].bytes != [] {
        var b := answers[0].bytes;
        var st1 := st.(rdBuf := st.rdBuf + b);
        Assoc(st.rdBuf, b, Stream(left));
        if Find(st1.rdBuf, d) == None {
          WaitingFinds(st1, d, 0, got + b, left);
        } else {
          CutIsFirst(st1, d, got + b, left);
        }
      } else {
        assert Stream(answers) == Stream(left);
        WaitingFinds(st, d, if answers[0].Eof? then recv0 + 1 else recv0, got, left);
      }
    }
  }

  // A line that __gets returns ends at the first delimiter of the byte stream, whatever the sizes in which
  // the bytes came; so two ways of delivering the same bytes give the same line.
  lemma GetsCutsAtFirst(st: Socket, d: string, answers: seq<Answer>)
    ensures FirstCut(Gets(st, d, answers), st.rdBuf + Stream(answers), d)
  {
    if Find(st.rdBuf, d).Some? {
      CutIsFirst(st, d, [], answers);
    } else {
      WaitingFinds(st, d, 0, [], answers);
    }
  }

  lemma GetsIgnoresChunks(st: Socket, d: string, a: seq<Answer>, b: seq<Answer>)
    requires Stream(a) == Stream(b)
    requires Gets(st, d, a).eaten != [] && Gets(st, d, b).eaten != []
    ensures Gets(st, d, a).piece == Gets(st, d, b).piece
  {
    GetsCutsAtFirst(st, d, a);
    GetsCutsAtFirst(st, d, b);
  }

  lemma {:induction false} WaitingSucceeds(st: Socket, d: string, recv0: nat, got: string, answers: seq<Answer>)
    requires Find(st.rdBuf, d) == None && Find(st.rdBuf + Stream(answers), d).Some?
    requires forall i :: 0 <= i < |answers| ==> answers[i].Data? || answers[i].NotReady? || answers[i].Again?
    ensures Waiting(st, d, recv0, got, answers).eaten == d
    decreases |answers|
  {
    assert st.rdBuf + [] == st.rdBuf;
    if answers != [] {
      var left := answers[1..];
      if answers[0].Data? && answers[0].bytes != [] {
        var b := answers[0].bytes;
        var st1 := st.(rdBuf := st.rdBuf + b);
        Assoc(st.rdBuf, b, Stream(left));
        if Find(st1.rdBuf, d) == None { WaitingSucceeds(st1, d, 0, got + b, left); }
      } else {
        assert Stream(answers) == Stream(left);
        WaitingSucceeds(st, d, recv0, got, left);
      }
    }
  }

  // On a connected socket, if no answer is an end, an error or a timeout, a delimiter in the stream is
  // found, and the line up to the first one is returned.
  lemma GetsDelivers(st: Socket, d: string, answers: seq<Answer>)
    requires st.connected && Find(st.rdBuf + Stream(answers), d).Some?
    requires forall i :: 0 <= i < |answers| ==> answers[i].Data? || answers[i].NotReady? || answers[i].Again?
    ensures var o, s := Gets(st, d, answers), st.rdBuf + Stream(answers);
      o.eaten == d && o.piece == s[..Find(s, d).value]
  {
    if Find(st.rdBuf, d).Some? {
      FindExtends(st.rdBuf, Stream(answers), d);
    } else {
      WaitingSucceeds(st, d, 0, [], answers);
      GetsCutsAtFirst(st, d, answers);
    }
  }

  // An empty delimiter is found at once: nothing is returned and nothing consumed.
  lemma EmptyDelimiter(st: Socket, answers: seq<Answer>)
    ensures Gets(st, [], answers) == Outcome(st, [], [], [], answers)
  {
    FindIs(st.rdBuf, [], 0);
  }

  // ---------------------------------------------------------------- the object

  class InSocket {
    var rdBuf: string
    var connected: bool
    var recv0: nat

    ghost function St(): Socket
      reads this
    {
      Socket(rdBuf, connected, recv0)
    }

    // None stands for -1.
    method SRecv(len: nat, answers: seq<Answer>) returns (data: Option<string>)
      modifies this
      ensures var o := Recv(old(St()), len, answers); St() == o.st && data.GetOr([]) == o.piece
      ensures data == None <==>
        old(rdBuf) == [] && answers != [] && (answers[0].Failed? || ((answers[0].Eof? || answers[0].Data?) && !connected))
    {
      if rdBuf != [] {
        var n := Least(len, |rdBuf|);
        data := Some(rdBuf[..n]);
        rdBuf := rdBuf[n..];
        return;
      }
      if answers == [] || answers[0].NotReady? || answers[0].Late? { return Some([]); }
      match answers[0]
      case Failed =>
        connected := false;
        return None;
      case Eof =>
        if !connected { return None; }
        recv0 := recv0 + 1;
        if recv0 > 10 {
          connected := false;
          return None;
        }
        return Some([]);
      case Data(b) =>
        if !connected { return None; }
        if b == [] { return Some([]); }
        recv0 := 0;
        rdBuf := rdBuf + b;
        var n := Least(len, |rdBuf|);
        data := Some(rdBuf[..n]);
        rdBuf := rdBuf[n..];
      case _ =>
        return Some([]);
    }

    method GetLine(d: string, answers: seq<Answer>) returns (piece: string)
      modifies this
      ensures var o := Gets(old(St()), d, answers); St() == o.st && piece == o.piece
    {
      match Find(rdBuf, d)
      case Some(pos) =>
        piece := rdBuf[..pos];
        rdBuf := rdBuf[pos + |d|..];
      case None =>
        if !connected { return []; }
        piece := AwaitLine(d, answers);
    }

    method AwaitLine(d: string, answers: seq<Answer>) returns (piece: string)
      modifies this
      ensures var o := Waiting(old(St()), d, 0, [], answers); St() == o.st && piece == o.piece
    {
      var todo, zeros := answers, 0;
      ghost var got: string := [];
      ghost var all := Waiting(St(), d, 0, [], answers);
      while todo != [] && !todo[0].Late?
        invariant Waiting(St(), d, zeros, got, todo) == all
      {
        var a := todo[0];
        todo := todo[1..];
        if a.Data? && a.bytes != [] {
          rdBuf := rdBuf + a.bytes;
          got := got + a.bytes;
          var pos := Find(rdBuf, d);
          if pos.Some? {
            piece := rdBuf[..pos.value];
            rdBuf := rdBuf[pos.value + |d|..];
            return;
          }
          zeros := 0;
        }
        if a.Failed? {
          connected := false;
          return [];
        }
        if a.Eof? {
          zeros := zeros + 1;
          if zeros > 10 {
            connected := false;
            return [];
          }
        }
      }
      piece := [];
    }
  }
}
