/**
FLAP2 frames: a start byte, a channel, a 32-bit little-endian length, and the payload. The client and the
server cut frames off their buffers in loops of their own.
*/
module Frames {
  import opened Options
  import opened Sequences
  import opened Chunks

  const START_BYTE: Byte := 22
  const HEADER := 6
  const CHANNEL_AT := 1
  const LENGTH_AT := 2

  datatype Packet = Packet(channel: Byte, payload: Buf)

  // b.get_32LE()
  function Word(a: nat, b: nat, c: nat, d: nat): nat { a + 0x100 * b + 0x10000 * c + 0x100_0000 * d }

  function Len(buf: Buf): (n: nat)
    requires |buf| >= HEADER
    ensures n < 0x1_0000_0000
  {
    Word(buf[LENGTH_AT], buf[LENGTH_AT + 1], buf[LENGTH_AT + 2], buf[LENGTH_AT + 3])
  }

  // int tl = header + data_len: 32 bits, signed.
  function TotalLen(len: nat): int
    requires len < 0x1_0000_0000
  {
    var s := if HEADER + len < 0x1_0000_0000 then HEADER + len else HEADER + len - 0x1_0000_0000;
    if s < 0x8000_0000 then s else s - 0x1_0000_0000
  }

  // Lengths whose total fits an int.
  const MAX_LEN := 0x8000_0000 - HEADER

  // substr(header, len)
  function Payload(buf: Buf): Buf
    requires |buf| >= HEADER
  {
    if HEADER + Len(buf) <= |buf| then buf[HEADER..HEADER + Len(buf)] else buf[HEADER..]
  }

  // A whole frame is at the front. A negative total compares as a huge unsigned number.
  predicate Whole(buf: Buf) {
    |buf| >= HEADER && buf[0] == START_BYTE && 0 <= TotalLen(Len(buf)) <= |buf|
  }

  // ---------------------------------------------------------------- the two loops

  // stuck: the loop in the source goes on for ever.
  datatype Result = Result(packets: seq<Packet>, rest: Buf, stuck: bool)

  function ParseClient(buf: Buf): Result
    decreases |buf|
  {
    if buf == [] then Result([], [], false)
    else if buf[0] != START_BYTE then Result([], [], false)
    else if !Whole(buf) then Result([], buf, false)
    else
      var p, tl := Packet(buf[CHANNEL_AT], Payload(buf)), TotalLen(Len(buf));
      if tl == 0 then Result([p], buf, true)
      else
        var r := ParseClient(buf[tl..]);
        r.(packets := [p] + r.packets)
  }

  function ParseServer(buf: Buf): Result
    decreases |buf|
  {
    if buf == [] then Result([], [], false)
    else if buf[0] != START_BYTE then Result([], [], false)
    else if !Whole(buf) then Result([], buf, false)
    else
      var p, tl := Packet(buf[CHANNEL_AT], Payload(buf)), TotalLen(Len(buf));
      if p.payload == [] then Result([], buf[tl..], false)
      else if tl == 0 then Result([p], buf, true)
      else
        var r := ParseServer(buf[tl..]);
        r.(packets := [p] + r.packets)
  }

  // ---------------------------------------------------------------- what a frame is

  function FrameCut(buf: Buf): Option<(Packet, Buf)> {
    if |buf| >= HEADER && buf[0] == START_BYTE && Len(buf) < MAX_LEN && HEADER + Len(buf) <= |buf|
    then Some((Packet(buf[CHANNEL_AT], buf[HEADER..HEADER + Len(buf)]), buf[HEADER + Len(buf)..]))
    else None
  }

  function Encode(p: Packet): Buf
    requires |p.payload| < MAX_LEN
  {
    var n := |p.payload|;
    [START_BYTE, p.channel, n % 0x100, n / 0x100 % 0x100, n / 0x10000 % 0x100, n / 0x100_0000] + p.payload
  }

  function EncodeOrNone(p: Packet): Buf { if |p.payload| < MAX_LEN then Encode(p) else [] }

  function Silent(p: Packet): bool { p.payload == [] }

  lemma FrameCutExtends(a: Buf, b: Buf)
    requires FrameCut(a).Some?
    ensures FrameCut(a + b) == Some((FrameCut(a).value.0, FrameCut(a).value.1 + b))
  {
    var n := HEADER + Len(a);
    assert Len(a + b) == Len(a);
    assert (a + b)[HEADER..n] == a[HEADER..n] && (a + b)[n..] == a[n..] + b;
  }

  lemma FrameCutStable()
    ensures Stable(FrameCut)
  {
    forall a: Buf, b: Buf | FrameCut(a).Some?
      ensures FrameCut(a + b) == Some((FrameCut(a).value.0, FrameCut(a).value.1 + b))
    {
      FrameCutExtends(a, b);
    }
  }

  lemma LengthRoundTrip(n: nat)
    requires n < 0x1_0000_0000
    ensures n % 0x100 + 0x100 * (n / 0x100 % 0x100) + 0x10000 * (n / 0x10000 % 0x100) + 0x100_0000 * (n / 0x100_0000) == n
  {
    assert n / 0x10000 == n / 0x100 / 0x100 && n / 0x100_0000 == n / 0x10000 / 0x100;
  }

  lemma EncodeRoundTrip(p: Packet)
    requires |p.payload| < MAX_LEN
    ensures FrameCut(Encode(p)) == Some((p, []))
  {
    var e, n := Encode(p), |p.payload|;
    LengthRoundTrip(n);
    assert Len(e) == n;
    assert e[HEADER..HEADER + n] == p.payload && e[HEADER + n..] == [];
  }

  // The layout on the wire, byte by byte: 22, the channel, the length with its low byte first, the payload.
  lemma FrameLayout(p: Packet)
    requires |p.payload| < 0x8000_0000 - 6
    ensures var e := Encode(p);
      && |e| == 6 + |p.payload| && e[0] == 22 && e[1] == p.channel
      && (e[2] as int) + 0x100 * (e[3] as int) + 0x10000 * (e[4] as int) + 0x100_0000 * (e[5] as int) == |p.payload|
      && (forall i :: 0 <= i < |p.payload| ==> e[6 + i] == p.payload[i])
  {
    LengthRoundTrip(|p.payload|);
  }

  // And what is taken for a frame: everything laid out so whose total fits an int, and nothing else.
  lemma FrameReads(s: Buf)
    ensures FrameCut(s).Some? <==>
      |s| >= 6 && s[0] == 22 &&
      var n := (s[2] as int) + 0x100 * (s[3] as int) + 0x10000 * (s[4] as int) + 0x100_0000 * (s[5] as int);
      n < 0x8000_0000 - 6 && 6 + n <= |s|
    ensures FrameCut(s).Some? ==>
      var n := (s[2] as int) + 0x100 * (s[3] as int) + 0x10000 * (s[4] as int) + 0x100_0000 * (s[5] as int);
      var (p, rest) := FrameCut(s).value;
      p.channel == s[1] && |p.payload| == n && s[6..] == p.payload + rest
  {
    if FrameCut(s).Some? {
      var n := Len(s);
      assert s[6..6 + n] + s[6 + n..] == s[6..];
    }
  }

  // ---------------------------------------------------------------- the client

  // Nothing but whole frames, then at most the beginning of one.
  predicate Pending(rest: Buf) { rest == [] || rest[0] == START_BYTE }

  // No length within six of 2^32 at a frame boundary: there the total wraps round to a small number.
  predicate Tame(rest: Buf) {
    |rest| >= HEADER && rest[0] == START_BYTE ==> Len(rest) < 0x1_0000_0000 - HEADER
  }

  function FramesOf(s: Buf): (p: Parsed<Packet>)
    ensures |p.rest| <= |s|
  {
    FrameCutStable();
    Greedy(FrameCut, s)
  }

  // What the loops leave of a tail: nothing, if it does not begin with a start byte.
  function Clip(rest: Buf): Buf { if Pending(rest) then rest else [] }

  // Where the total does not wrap round, what the loops take off is the frame.
  lemma WholeIsCut(s: Buf)
    requires Tame(s) || FrameCut(s).Some?
    ensures Whole(s) <==> FrameCut(s).Some?
    ensures Whole(s) ==> 0 < TotalLen(Len(s)) && FrameCut(s) == Some((Packet(s[CHANNEL_AT], Payload(s)), s[TotalLen(Len(s))..]))
  {
  }

  lemma FramesTake(s: Buf)
    ensures match FrameCut(s)
      case None => FramesOf(s) == Parsed([], s)
      case Some((m, t)) => |t| < |s| && FramesOf(s) == Parsed([m] + FramesOf(t).msgs, FramesOf(t).rest)
  {
    FrameCutStable();
  }

  lemma ClientTakes(s: Buf, m: Packet, t: Buf)
    requires FrameCut(s) == Some((m, t))
    ensures ParseClient(s) == Result([m] + ParseClient(t).packets, ParseClient(t).rest, ParseClient(t).stuck)
  {
    WholeIsCut(s);
  }

  // The client takes off the frames, and then does something with what is left.
  lemma {:induction false} ClientSkips(s: Buf)
    ensures var g := FramesOf(s); var p := ParseClient(g.rest);
      ParseClient(s) == Result(g.msgs + p.packets, p.rest, p.stuck)
    decreases |s|
  {
    FramesTake(s);
    match FrameCut(s)
    case None => assert [] + ParseClient(s).packets == ParseClient(s).packets;
    case Some((m, t)) =>
      ClientTakes(s, m, t);
      ClientSkips(t);
      Assoc([m], FramesOf(t).msgs, ParseClient(FramesOf(t).rest).packets);
  }

  lemma ClientIs(s: Buf)
    requires Tame(FramesOf(s).rest)
    ensures ParseClient(s) == Result(FramesOf(s).msgs, Clip(FramesOf(s).rest), false)
  {
    ClientSkips(s);
    FramesRest(s);
    WholeIsCut(FramesOf(s).rest);
  }

  function FeedClient(chunks: seq<Buf>, st: Result): Result {
    if chunks == [] || st.stuck then st
    else
      var r := ParseClient(st.rest + chunks[0]);
      FeedClient(chunks[1..], r.(packets := st.packets + r.packets))
  }

  // After the last whole frame there is no start byte that could be taken for one.
  predicate Steady(s: Buf) { Pending(FramesOf(s).rest) || START_BYTE !in FramesOf(s).rest }

  lemma FramesSplit(a: Buf, b: Buf)
    ensures var p := FramesOf(a); var q := FramesOf(p.rest + b); FramesOf(a + b) == Parsed(p.msgs + q.msgs, q.rest)
  {
    FrameCutStable();
    GreedySplit(FrameCut, a, b);
  }

  // What is left over holds no frame.
  lemma FramesRest(s: Buf)
    ensures FrameCut(FramesOf(s).rest) == None && FramesOf(FramesOf(s).rest) == Parsed([], FramesOf(s).rest)
  {
    FrameCutStable();
    GreedyRests(FrameCut, s);
  }

  // A buffer that cannot begin with a frame stays that way.
  lemma DeadEnd(rest: Buf, b: Buf)
    requires rest != [] && (rest[0] != START_BYTE || !Tame(rest))
    ensures FramesOf(rest + b) == Parsed([], rest + b)
    ensures !Tame(rest) ==> !Tame(rest + b)
  {
    FrameCutStable();
    if !Tame(rest) { assert Len(rest + b) == Len(rest); }
  }

  lemma PrefixIsSteady(a: Buf, b: Buf)
    requires Tame(FramesOf(a + b).rest) && Steady(a + b)
    ensures Tame(FramesOf(a).rest) && Steady(a)
    ensures !Pending(FramesOf(a).rest) ==> START_BYTE !in b && FramesOf(a + b) == Parsed(FramesOf(a).msgs, FramesOf(a).rest + b)
  {
    FramesSplit(a, b);
    var rest := FramesOf(a).rest;
    if rest != [] && (rest[0] != START_BYTE || !Tame(rest)) {
      DeadEnd(rest, b);
      assert (rest + b)[0] == rest[0];
      assert forall x :: x in rest || x in b ==> x in rest + b;
    }
  }

  lemma ClientSplit(a: Buf, b: Buf)
    requires Tame(FramesOf(a + b).rest) && Steady(a + b)
    ensures var p := ParseClient(a); var q := ParseClient(p.rest + b);
      ParseClient(a + b) == q.(packets := p.packets + q.packets) && !p.stuck && !q.stuck
  {
    PrefixIsSteady(a, b);
    ClientIs(a);
    ClientIs(a + b);
    var rest := FramesOf(a).rest;
    FramesSplit(a, b);
    if Pending(rest) {
      ClientIs(rest + b);
    } else {
      assert [] + b == b;
      assert b != [] ==> b[0] in b;
      assert (rest + b)[0] == rest[0];
    }
  }

  lemma {:induction false} SteadyFeeds(chunks: seq<Buf>, before: Buf)
    requires Tame(FramesOf(before + Concat(chunks)).rest) && Steady(before + Concat(chunks))
    ensures FeedClient(chunks, ParseClient(before)) == ParseClient(before + Concat(chunks))
  {
    if chunks == [] {
      assert before + [] == before;
    } else {
      assert before + chunks[0] + Concat(chunks[1..]) == before + Concat(chunks);
      PrefixIsSteady(before + chunks[0], Concat(chunks[1..]));
      ClientSplit(before, chunks[0]);
      SteadyFeeds(chunks[1..], before + chunks[0]);
    }
  }

  // Cut just before a byte that is not the first.
  lemma SplitBefore(s: Buf, x: Byte) returns (u: Buf, v: Buf)
    requires x in s && s[0] != x
    ensures s == u + v && u != [] && u[0] == s[0] && v != [] && v[0] == x
  {
    var k :| 0 <= k < |s| && s[k] == x;
    u, v := s[..k], s[k..];
  }

  lemma FrameCutLocal()
    ensures Local(FrameCut)
  {
    forall s: Buf | FrameCut(s).Some?
      ensures CutsFront(FrameCut, s)
    {
      var n := HEADER + Len(s);
      var h := s[..n];
      assert |s| - |FrameCut(s).value.1| == n;
      assert Len(h) == Len(s) && h[HEADER..n] == s[HEADER..n] && h[n..] == [];
    }
  }

  lemma FeedOne(b: Buf, st: Result)
    requires !st.stuck
    ensures var q := ParseClient(st.rest + b); FeedClient([b], st) == q.(packets := st.packets + q.packets)
  {
    var q := ParseClient(st.rest + b);
    assert [b][1..] == [];
    assert FeedClient([b], st) == FeedClient([], q.(packets := st.packets + q.packets));
  }

  lemma FeedTwo(a: Buf, b: Buf)
    ensures FeedClient([a, b], Result([], [], false)) == FeedClient([b], ParseClient(a))
  {
    var p := ParseClient(a);
    assert [] + a == a && [] + p.packets == p.packets;
    assert [a, b][1..] == [b];
  }

  // Frames, then a bad byte.
  lemma ClientAtBadByte(f: Buf, x: Buf)
    requires FramesOf(f).rest == [] && x != [] && x[0] != START_BYTE
    ensures FramesOf(f + x) == Parsed(FramesOf(f).msgs, x) && ParseClient(f + x) == Result(FramesOf(f).msgs, [], false)
  {
    FramesSplit(f, x);
    assert [] + x == x && x + [] == x;
    DeadEnd(x, []);
    ClientIs(f + x);
  }

  // Cut just before a start byte that comes after the bad byte, and the rest is taken for a frame.
  lemma ClientAtStray(f: Buf, x: Buf, y: Buf)
    requires FramesOf(f).rest == [] && x != [] && x[0] != START_BYTE && y != [] && y[0] == START_BYTE
    ensures FeedClient([f + x, y], Result([], [], false)) != ParseClient(f + (x + y))
  {
    ClientAtBadByte(f, x);
    ClientAtBadByte(f, x + y);
    FeedTwo(f + x, y);
    FeedOne(y, ParseClient(f + x));
    assert [] + y == y;
    FrameStaysInSight(y);
    var ms, q := FramesOf(f).msgs, ParseClient(y);
    assert |ms + q.packets| == |ms| + |q.packets|;
  }

  lemma FramesPrefix(s: Buf) returns (f: Buf)
    ensures s == f + FramesOf(s).rest && FramesOf(f).rest == []
  {
    FrameCutStable();
    FrameCutLocal();
    f := GreedyPrefix(FrameCut, s);
  }

  lemma UnsteadySplit(s: Buf) returns (a: Buf, b: Buf)
    requires !Steady(s)
    ensures a + b == s && FeedClient([a, b], Result([], [], false)) != ParseClient(s)
  {
    var f := FramesPrefix(s);
    var u, v := SplitBefore(FramesOf(s).rest, START_BYTE);
    Assoc(f, u, v);
    ClientAtStray(f, u, v);
    a, b := f + u, v;
  }

  lemma FrameStaysInSight(b: Buf)
    requires b != [] && b[0] == START_BYTE
    ensures ParseClient(b).packets != [] || ParseClient(b).rest != []
  {
  }

  // The same packets, and the same tail, for every way of splitting the stream.
  ghost predicate Indifferent(s: Buf) {
    forall chunks :: Concat(chunks) == s ==> FeedClient(chunks, Result([], [], false)) == ParseClient(s)
  }

  lemma TwoChunks(a: Buf, b: Buf)
    requires FeedClient([a, b], Result([], [], false)) != ParseClient(a + b)
    ensures !Indifferent(a + b)
  {
    assert [a, b][1..] == [b];
    assert Concat([b]) == b + [] == b;
    assert Concat([a, b]) == a + b;
  }

  lemma TameChunking(s: Buf)
    requires Tame(FramesOf(s).rest)
    ensures Indifferent(s) <==> Steady(s)
  {
    if Steady(s) {
      forall chunks | Concat(chunks) == s
        ensures FeedClient(chunks, Result([], [], false)) == ParseClient(s)
      {
        assert [] + Concat(chunks) == s;
        SteadyFeeds(chunks, []);
        assert ParseClient([]) == Result([], [], false);
      }
    } else {
      var a, b := UnsteadySplit(s);
      TwoChunks(a, b);
    }
  }

  // Whatever packets are encoded, and however the bytes arrive, the client has exactly these packets.
  lemma ClientReceivesWhatIsSent(ps: seq<Packet>, chunks: seq<Buf>)
    requires forall i :: 0 <= i < |ps| ==> |ps[i].payload| < MAX_LEN
    requires Concat(chunks) == Written(EncodeOrNone, ps)
    ensures FeedClient(chunks, Result([], [], false)) == Result(ps, [], false)
  {
    var s := Concat(chunks);
    FramesOfWritten(ps, s);
    assert [] + s == s;
    SteadyFeeds(chunks, []);
    ClientIs(s);
  }

  lemma FramesOfWritten(ps: seq<Packet>, s: Buf)
    requires forall i :: 0 <= i < |ps| ==> |ps[i].payload| < MAX_LEN
    requires s == Written(EncodeOrNone, ps)
    ensures FramesOf(s) == Parsed(ps, [])
  {
    FrameCutStable();
    forall i | 0 <= i < |ps|
      ensures FrameCut(EncodeOrNone(ps[i])) == Some((ps[i], []))
    {
      EncodeRoundTrip(ps[i]);
    }
    GreedyReadsWritten(FrameCut, EncodeOrNone, ps, []);
    assert s + [] == s;
  }

  // ---------------------------------------------------------------- the server

  function Pass(s: Buf): Parsed<Packet> { FrameCutStable(); Lazy(FrameCut, Silent, s) }

  // No empty packet.
  predicate AllLoud(ms: seq<Packet>) { forall p :: p in ms ==> !Silent(p) }

  lemma ServerTakes(s: Buf, m: Packet, t: Buf)
    requires FrameCut(s) == Some((m, t))
    ensures ParseServer(s) ==
      if Silent(m) then Result([], t, false)
      else Result([m] + ParseServer(t).packets, ParseServer(t).rest, ParseServer(t).stuck)
  {
    WholeIsCut(s);
  }

  lemma PassTakes(s: Buf, m: Packet, t: Buf)
    requires FrameCut(s) == Some((m, t))
    ensures |t| < |s| && Pass(s) == if Silent(m) then Parsed([], t) else Parsed([m] + Pass(t).msgs, Pass(t).rest)
  {
    FrameCutStable();
  }

  lemma AllLoudTakes(m: Packet, ms: seq<Packet>)
    ensures AllLoud([m] + ms) <==> !Silent(m) && AllLoud(ms)
  {
    assert forall p :: p in [m] + ms <==> p == m || p in ms;
  }

  // The server takes off the frames up to an empty one, or else does something with what is left.
  lemma {:induction false} ServerSkips(s: Buf)
    ensures var g := FramesOf(s); var p := ParseServer(g.rest);
      ParseServer(s) == if AllLoud(g.msgs) then Result(g.msgs + p.packets, p.rest, p.stuck)
                        else Result(Pass(s).msgs, Pass(s).rest, false)
    decreases |s|
  {
    FramesTake(s);
    match FrameCut(s)
    case None => assert [] + ParseServer(s).packets == ParseServer(s).packets;
    case Some((m, t)) =>
      ServerTakes(s, m, t);
      PassTakes(s, m, t);
      AllLoudTakes(m, FramesOf(t).msgs);
      if !Silent(m) {
        ServerSkips(t);
        Assoc([m], FramesOf(t).msgs, ParseServer(FramesOf(t).rest).packets);
      }
  }

  lemma ServerIs(s: Buf)
    requires Tame(FramesOf(s).rest)
    ensures var g := FramesOf(s);
      ParseServer(s) == if AllLoud(g.msgs) then Result(g.msgs, Clip(g.rest), false) else Result(Pass(s).msgs, Pass(s).rest, false)
    ensures ParseServer(s).packets == Pass(s).msgs
  {
    ServerSkips(s);
    FramesRest(s);
    WholeIsCut(FramesOf(s).rest);
    FrameCutStable();
    if AllLoud(FramesOf(s).msgs) { LoudIsGreedy(FrameCut, Silent, s); }
  }

  function FeedServer(chunks: seq<Buf>, st: Result): Result {
    if chunks == [] || st.stuck then st
    else
      var r := ParseServer(st.rest + chunks[0]);
      FeedServer(chunks[1..], r.(packets := st.packets + r.packets))
  }

  // Dispatched, and then still to be had from buf and what follows, are the non-empty packets of stream w,
  // and the incomplete tail is that of w.
  ghost predicate Owes(dispatched: seq<Packet>, w: Buf, owed: seq<Packet>, tail: Buf) {
    dispatched + Loud(Silent, FramesOf(w).msgs) == owed && Clip(FramesOf(w).rest) == tail && Tame(FramesOf(w).rest) && Steady(w)
  }

  lemma {:induction false} LoudAll(ms: seq<Packet>)
    requires AllLoud(ms)
    ensures Loud(Silent, ms) == ms
  {
    if ms != [] {
      assert ms[0] in ms && forall p :: p in ms[1..] ==> p in ms;
      LoudAll(ms[1..]);
      assert [ms[0]] + ms[1..] == ms;
    }
  }

  // A pass that throws the buffer away: whatever follows holds no frame either.
  lemma PassAtBadByte(b: Buf, tail: Buf)
    requires Tame(FramesOf(b + tail).rest) && Steady(b + tail) && AllLoud(FramesOf(b).msgs) && !Pending(FramesOf(b).rest)
    ensures ParseServer(b) == Result(FramesOf(b).msgs, [], false)
    ensures FramesOf(b + tail).msgs == FramesOf(b).msgs && Clip(FramesOf(b + tail).rest) == []
    ensures FramesOf(tail) == Parsed([], tail) && Steady(tail) && Tame(tail) && Clip(tail) == []
  {
    PrefixIsSteady(b, tail);
    ServerIs(b);
    assert (FramesOf(b).rest + tail)[0] == FramesOf(b).rest[0];
    FrameCutStable();
    assert tail != [] ==> tail[0] in tail;
  }

  lemma PassOwes(st: seq<Packet>, b: Buf, tail: Buf, owed: seq<Packet>, end: Buf)
    requires Owes(st, b + tail, owed, end)
    ensures var r := ParseServer(b); !r.stuck && Owes(st + r.packets, r.rest + tail, owed, end)
    ensures AllLoud(FramesOf(b + tail).msgs) ==>
      var r := ParseServer(b); Pending(r.rest) && FramesOf(r.rest).msgs == [] && AllLoud(FramesOf(r.rest + tail).msgs)
  {
    PrefixIsSteady(b, tail);
    ServerIs(b);
    var r, g := ParseServer(b), FramesOf(b);
    FramesSplit(b, tail);
    assert forall p :: p in g.msgs ==> p in FramesOf(b + tail).msgs;
    if AllLoud(g.msgs) && !Pending(g.rest) {
      PassAtBadByte(b, tail);
      LoudAll(g.msgs);
      assert [] + tail == tail;
      FramesRest([]);
    } else {
      FrameCutStable();
      if AllLoud(g.msgs) { LoudIsGreedy(FrameCut, Silent, b); }
      PassConserves(FrameCut, Silent, b, tail);
      Assoc(st, r.packets, Loud(Silent, FramesOf(r.rest + tail).msgs));
      FramesRest(b);
      FramesSplit(r.rest, tail);
    }
  }

  lemma {:induction false} ServerOwes(chunks: seq<Buf>, st: Result, owed: seq<Packet>, end: Buf)
    requires !st.stuck && Owes(st.packets, st.rest + Concat(chunks), owed, end)
    ensures var r := FeedServer(chunks, st); !r.stuck && Owes(r.packets, r.rest, owed, end)
    ensures AllLoud(FramesOf(st.rest + Concat(chunks)).msgs) && Pending(st.rest) && FramesOf(st.rest).msgs == [] ==>
      var r := FeedServer(chunks, st); Pending(r.rest) && FramesOf(r.rest).msgs == []
  {
    if chunks == [] {
      assert st.rest + [] == st.rest;
    } else {
      var b, tail := st.rest + chunks[0], Concat(chunks[1..]);
      Assoc(st.rest, chunks[0], tail);
      PassOwes(st.packets, b, tail, owed, end);
      var r := ParseServer(b);
      ServerOwes(chunks[1..], r.(packets := st.packets + r.packets), owed, end);
    }
  }

  // However a steady stream arrives: the packets dispatched, followed by the non-empty ones the buffer still
  // holds, are the non-empty packets of the stream, and the incomplete tail is the same.
  lemma ServerConserves(chunks: seq<Buf>)
    requires var s := Concat(chunks); Steady(s) && Tame(FramesOf(s).rest)
    ensures var r, g := FeedServer(chunks, Result([], [], false)), FramesOf(Concat(chunks));
      && !r.stuck && r.packets + Loud(Silent, FramesOf(r.rest).msgs) == Loud(Silent, g.msgs)
      && Clip(FramesOf(r.rest).rest) == Clip(g.rest)
  {
    var s := Concat(chunks);
    assert [] + s == s;
    var owed := Loud(Silent, FramesOf(s).msgs);
    assert [] + owed == owed;
    ServerOwes(chunks, Result([], [], false), owed, Clip(FramesOf(s).rest));
  }

  // With no empty packet in the stream the server has the packets and the tail that the client has.
  lemma ServerDispatchesAll(chunks: seq<Buf>)
    requires var s := Concat(chunks); Steady(s) && Tame(FramesOf(s).rest) && AllLoud(FramesOf(s).msgs)
    ensures FeedServer(chunks, Result([], [], false)) == FeedClient(chunks, Result([], [], false))
    ensures FeedServer(chunks, Result([], [], false)) == Result(FramesOf(Concat(chunks)).msgs, Clip(FramesOf(Concat(chunks)).rest), false)
  {
    var s := Concat(chunks);
    assert [] + s == s;
    LoudAll(FramesOf(s).msgs);
    assert [] + FramesOf(s).msgs == FramesOf(s).msgs;
    ServerOwes(chunks, Result([], [], false), FramesOf(s).msgs, Clip(FramesOf(s).rest));
    var r := FeedServer(chunks, Result([], [], false));
    NoFrames(r.rest);
    SteadyFeeds(chunks, []);
    ClientIs(s);
  }

  lemma NoFrames(rest: Buf)
    requires FramesOf(rest).msgs == []
    ensures FramesOf(rest).rest == rest
  {
    FrameCutStable();
  }

  // One pass dispatches all it could exactly when no packet comes after an empty one.
  lemma ServerPassExact(s: Buf)
    requires Tame(FramesOf(s).rest)
    ensures ParseServer(s).packets == Loud(Silent, FramesOf(s).msgs) <==> Trailing(Silent, FramesOf(s).msgs)
  {
    FrameCutStable();
    ServerIs(s);
    LazyCatchesUp(FrameCut, Silent, s);
  }

  // ---------------------------------------------------------------- the objects

  class FlapClient {
    var inBuffer: Buf
    var packets: seq<Packet>

    // stuck: where the source does not come back.
    method DoParseBuffer() returns (stuck: bool)
      modifies this
      ensures var r := ParseClient(old(inBuffer));
        stuck == r.stuck && inBuffer == r.rest && packets == old(packets) + r.packets
    {
      ghost var all := ParseClient(inBuffer);
      while true
        invariant var r := ParseClient(inBuffer);
          r.stuck == all.stuck && r.rest == all.rest && packets + r.packets == old(packets) + all.packets
        decreases |inBuffer|
      {
        if inBuffer == [] { return false; }
        if inBuffer[0] == START_BYTE {
          if |inBuffer| < HEADER { return false; }
          var channel, dataLen := inBuffer[CHANNEL_AT], Len(inBuffer);
          var tl := TotalLen(dataLen);
          if tl < 0 || |inBuffer| < tl { return false; }
          var command := Payload(inBuffer);
          if tl == 0 {
            packets := packets + [Packet(channel, command)];
            return true;
          }
          Assoc(packets, [Packet(channel, command)], ParseClient(inBuffer[tl..]).packets);
          inBuffer := inBuffer[tl..];
          packets := packets + [Packet(channel, command)];
        } else {
          inBuffer := [];
        }
      }
    }

    method Receive(chunk: Buf) returns (stuck: bool)
      modifies this
      ensures !stuck ==> Result(packets, inBuffer, false) == FeedClient([chunk], Result(old(packets), old(inBuffer), false))
    {
      inBuffer := inBuffer + chunk;
      stuck := DoParseBuffer();
      assert [chunk][1..] == [];
    }
  }

  class FlapServer {
    var rdBuf: Buf
    var dispatched: seq<Packet>

    method ProcessBuffer() returns (stuck: bool)
      modifies this
      ensures var r := ParseServer(old(rdBuf));
        stuck == r.stuck && rdBuf == r.rest && dispatched == old(dispatched) + r.packets
    {
      ghost var all := ParseServer(rdBuf);
      while true
        invariant var r := ParseServer(rdBuf);
          r.stuck == all.stuck && r.rest == all.rest && dispatched + r.packets == old(dispatched) + all.packets
        decreases |rdBuf|
      {
        var command: Buf := [];
        var channel, tl := 0, 0;
        ghost var was := rdBuf;
        if rdBuf != [] {
          if rdBuf[0] == START_BYTE {
            if |rdBuf| < HEADER { return false; }
            channel, tl := rdBuf[CHANNEL_AT], TotalLen(Len(rdBuf));
            if 0 <= tl <= |rdBuf| {
              command := Payload(rdBuf);
              rdBuf := rdBuf[tl..];
            }
          } else {
            rdBuf := [];
          }
        }
        if command == [] { return false; }
        if tl != 0 { Assoc(dispatched, [Packet(channel, command)], ParseServer(was[tl..]).packets); }
        dispatched := dispatched + [Packet(channel, command)];
        if tl == 0 { return true; }
      }
    }
  }
}
