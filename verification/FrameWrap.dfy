/**
Lengths within six of 2^32: header and length together wrap round, and the loops take 0 to 5 bytes for a frame
whose payload is all that was received, up to that length. Here: when the loops do not come back, and what that makes of the
client's indifference to how a stream is split.
*/
module FrameWrap {
  import opened Options
  import opened Sequences
  import opened Chunks
  import opened Frames

  const WRAP := 0x1_0000_0000 - HEADER      // the total of this length is 0

  // A header whose total is 0: nothing is taken off.
  predicate Endless(rest: Buf) { |rest| >= HEADER && rest[0] == START_BYTE && Len(rest) == WRAP }

  // A header whose total is 1, on a channel with the number of the start byte: the next byte starts a frame again.
  predicate Restarts(rest: Buf) {
    |rest| >= HEADER && rest[0] == START_BYTE && Len(rest) == WRAP + 1 && rest[CHANNEL_AT] == START_BYTE
  }

  lemma Digits(a: nat, b: nat, c: nat, d: nat, k: nat)
    requires a < 0x100 && b < 0x100 && c < 0x100 && d < 0x100 && k < HEADER && Word(a, b, c, d) == WRAP + k
    ensures a == 0xfa + k && b == 0xff && c == 0xff && d == 0xff
  {
  }

  // Whatever else the total is, the byte after it is no start byte.
  lemma AfterWrap(rest: Buf)
    requires |rest| >= HEADER && rest[0] == START_BYTE && Len(rest) >= WRAP
    ensures var k := Len(rest) - WRAP; TotalLen(Len(rest)) == k && (k > 0 ==> (rest[k] == START_BYTE <==> Restarts(rest)))
    ensures Payload(rest) == [] <==> |rest| == HEADER
  {
    Digits(rest[2], rest[3], rest[4], rest[5], Len(rest) - WRAP);
  }

  lemma ClientAtWrap(rest: Buf)
    requires !Tame(rest)
    ensures var p := Packet(rest[CHANNEL_AT], Payload(rest));
      ParseClient(rest) == if Endless(rest) then Result([p], rest, true)
        else if Restarts(rest) then ParseClient(rest[1..]).(packets := [p] + ParseClient(rest[1..]).packets)
        else Result([p], [], false)
  {
    AfterWrap(rest);
  }

  lemma ServerAtWrap(rest: Buf)
    requires !Tame(rest)
    ensures var p := Packet(rest[CHANNEL_AT], Payload(rest));
      ParseServer(rest) == if |rest| == HEADER then Result([], rest[Len(rest) - WRAP..], false)
        else if Endless(rest) then Result([p], rest, true)
        else if Restarts(rest) then ParseServer(rest[1..]).(packets := [p] + ParseServer(rest[1..]).packets)
        else Result([p], [], false)
  {
    AfterWrap(rest);
  }

  // ---------------------------------------------------------------- when the loops do not come back

  // What the client has in front of it after the frames, and after frames that begin within a header.
  function ClientEnd(s: Buf): Buf
    decreases |s|
  {
    var rest := FramesOf(s).rest;
    if Restarts(rest) then ClientEnd(rest[1..]) else rest
  }

  // The same for the server, which returns at an empty packet.
  function ServerEnd(s: Buf): Buf
    decreases |s|
  {
    var rest := FramesOf(s).rest;
    if !AllLoud(FramesOf(s).msgs) || |rest| == HEADER then []
    else if Restarts(rest) then ServerEnd(rest[1..])
    else rest
  }

  // For every buffer: the client's loop goes on for ever if and only if it comes to a length of 2^32 - 6.
  lemma {:induction false} ClientStuckExact(s: Buf)
    ensures ParseClient(s).stuck <==> Endless(ClientEnd(s))
    decreases |s|
  {
    var rest := FramesOf(s).rest;
    ClientSkips(s);
    if Tame(rest) {
      FramesRest(s);
      ClientIs(rest);
    } else {
      ClientAtWrap(rest);
      if Restarts(rest) { ClientStuckExact(rest[1..]); }
    }
  }

  // The server's if and only if it comes to one that something follows, and to no empty packet before.
  lemma {:induction false} ServerStuckExact(s: Buf)
    ensures ParseServer(s).stuck <==> Endless(ServerEnd(s))
    decreases |s|
  {
    var rest := FramesOf(s).rest;
    ServerSkips(s);
    if Tame(rest) {
      FramesRest(s);
      ServerIs(rest);
    } else {
      ServerAtWrap(rest);
      if Restarts(rest) { ServerStuckExact(rest[1..]); }
    }
  }

  // Without the one channel that restarts it is the header after the frames that decides.
  lemma OneHeaderDecides(s: Buf)
    requires !Restarts(FramesOf(s).rest)
    ensures ParseClient(s).stuck <==> Endless(FramesOf(s).rest)
  {
    ClientStuckExact(s);
  }

  // The shortest buffer that the client does not come back from.
  lemma WrappedLengthIsStuck()
    ensures ParseClient([START_BYTE, 1, 0xfa, 0xff, 0xff, 0xff]).stuck
  {
    var s: Buf := [START_BYTE, 1, 0xfa, 0xff, 0xff, 0xff];
    assert Len(s) == WRAP;
    FramesTake(s);
    ClientStuckExact(s);
  }

  // ---------------------------------------------------------------- splitting any stream

  // After the last whole frame nothing comes whose meaning depends on where it is cut: no start byte after a
  // bad byte, and nothing at all after a header that wraps.
  predicate Settled(s: Buf) { if Tame(FramesOf(s).rest) then Steady(s) else |FramesOf(s).rest| == HEADER }

  // A stream that ends in a wrapping header is tame until its last byte has come.
  lemma BeforeWrap(a: Buf, b: Buf)
    requires b != [] && !Tame(FramesOf(a + b).rest) && |FramesOf(a + b).rest| == HEADER
    ensures Tame(FramesOf(a).rest) && Pending(FramesOf(a).rest)
  {
    FramesSplit(a, b);
    var rest := FramesOf(a).rest;
    if rest != [] && (rest[0] != START_BYTE || !Tame(rest)) {
      DeadEnd(rest, b);
      assert false;
    }
  }

  // What is left by then is parsed no further.
  lemma WrapLeavesNothing(a: Buf)
    requires !Tame(FramesOf(a).rest) && |FramesOf(a).rest| == HEADER && !ParseClient(a).stuck
    ensures ParseClient(ParseClient(a).rest) == Result([], ParseClient(a).rest, false)
  {
    ClientSkips(a);
    ClientAtWrap(FramesOf(a).rest);
  }

  lemma WrapSplit(a: Buf, b: Buf)
    requires Tame(FramesOf(a).rest) && Pending(FramesOf(a).rest)
    ensures var p := ParseClient(a); var q := ParseClient(p.rest + b);
      ParseClient(a + b) == q.(packets := p.packets + q.packets) && !p.stuck
  {
    var p := FramesOf(a);
    ClientIs(a);
    FramesSplit(a, b);
    ClientSkips(a + b);
    ClientSkips(p.rest + b);
    Assoc(p.msgs, FramesOf(p.rest + b).msgs, ParseClient(FramesOf(a + b).rest).packets);
  }

  lemma {:induction false} NothingMore(chunks: seq<Buf>, st: Result)
    requires Concat(chunks) == [] && (st.stuck || ParseClient(st.rest) == Result([], st.rest, false))
    ensures FeedClient(chunks, st) == st
  {
    if chunks != [] && !st.stuck {
      assert chunks[0] == [] && st.rest + [] == st.rest && st.packets + [] == st.packets;
      NothingMore(chunks[1..], st);
    }
  }

  lemma {:induction false} WrapFeeds(chunks: seq<Buf>, before: Buf)
    requires !Tame(FramesOf(before + Concat(chunks)).rest) && |FramesOf(before + Concat(chunks)).rest| == HEADER
    ensures FeedClient(chunks, ParseClient(before)) == ParseClient(before + Concat(chunks))
  {
    var s := before + Concat(chunks);
    if Concat(chunks) == [] {
      assert s == before;
      if !ParseClient(before).stuck { WrapLeavesNothing(before); }
      NothingMore(chunks, ParseClient(before));
    } else {
      BeforeWrap(before, Concat(chunks));
      WrapSplit(before, chunks[0]);
      Assoc(before, chunks[0], Concat(chunks[1..]));
      WrapFeeds(chunks[1..], before + chunks[0]);
    }
  }

  lemma {:induction false} FeedExtends(chunks: seq<Buf>, st: Result)
    ensures st.packets <= FeedClient(chunks, st).packets
  {
    if chunks != [] && !st.stuck {
      var r := ParseClient(st.rest + chunks[0]);
      FeedExtends(chunks[1..], r.(packets := st.packets + r.packets));
    }
  }

  lemma WrapPacket(s: Buf)
    requires !Tame(FramesOf(s).rest)
    ensures var n, ps := |FramesOf(s).msgs|, ParseClient(s).packets;
      n < |ps| && ps[n] == Packet(FramesOf(s).rest[CHANNEL_AT], Payload(FramesOf(s).rest))
  {
    ClientSkips(s);
    ClientAtWrap(FramesOf(s).rest);
  }

  // Cut after the wrapping header, and its packet is empty.
  lemma CutAfterHeader(s: Buf)
    requires !Tame(FramesOf(s).rest) && |FramesOf(s).rest| > HEADER
    ensures !Indifferent(s)
  {
    var rest := FramesOf(s).rest;
    var f := FramesPrefix(s);
    var head, b := rest[..HEADER], rest[HEADER..];
    var a := f + head;
    assert head + b == rest;
    Assoc(f, head, b);
    assert Len(head) == Len(rest);
    FramesSplit(f, head);
    FramesSplit(f, rest);
    assert [] + head == head && [] + rest == rest;
    FramesTake(head);
    FramesTake(rest);
    AfterWrap(head);
    AfterWrap(rest);
    WrapPacket(a);
    WrapPacket(s);
    FeedTwo(a, b);
    FeedExtends([b], ParseClient(a));
    TwoChunks(a, b);
  }

  // For every stream: the client has the same packets and keeps the same tail however it is split, if and only
  // if the stream is settled.
  lemma ClientChunkingExact(s: Buf)
    ensures Indifferent(s) <==> Settled(s)
  {
    if Tame(FramesOf(s).rest) {
      TameChunking(s);
    } else if |FramesOf(s).rest| == HEADER {
      forall chunks | Concat(chunks) == s
        ensures FeedClient(chunks, Result([], [], false)) == ParseClient(s)
      {
        assert [] + Concat(chunks) == s;
        WrapFeeds(chunks, []);
      }
    } else {
      CutAfterHeader(s);
    }
  }
}
