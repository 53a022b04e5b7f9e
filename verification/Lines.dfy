/**
The line server: commands end in a newline. extract_command answers "" both for an incomplete line and for an
empty one, and the loop that calls it stops at either.
*/
module Lines {
  import opened Options
  import opened Sequences
  import opened Search
  import opened Chunks

  const NEWLINE: Byte := 10

  const NL: Buf := [NEWLINE]

  function LineCut(buf: Buf): Option<(Buf, Buf)> {
    match Find(buf, NL)
    case None => None
    case Some(pz) => Some((buf[..pz], buf[pz + 1..]))
  }

  function Encode(line: Buf): Buf { line + [NEWLINE] }

  function Silent(line: Buf): bool { line == [] }

  lemma NoNewline(s: Buf)
    ensures Find(s, NL) == None <==> NEWLINE !in s
  {
    FindSpec(s, NL);
    if NEWLINE in s {
      var k :| 0 <= k < |s| && s[k] == NEWLINE;
      assert OccursAt(s, NL, k);
    }
    if Find(s, NL).Some? { assert NL[0] == s[Find(s, NL).value + 0]; }
  }

  lemma LineCutStable()
    ensures Stable(LineCut)
  {
    forall a: Buf, b: Buf | LineCut(a).Some?
      ensures LineCut(a + b) == Some((LineCut(a).value.0, LineCut(a).value.1 + b))
    {
      var k := Find(a, NL).value;
      FindExtends(a, b, NL);
      assert (a + b)[..k] == a[..k] && (a + b)[k + 1..] == a[k + 1..] + b;
    }
  }

  lemma LineRoundTrip(line: Buf)
    requires NEWLINE !in line
    ensures LineCut(Encode(line)) == Some((line, []))
  {
    var e := Encode(line);
    NoNewline(line);
    SkipText(line, NL, NL);
    FindAtOnce(NL, []);
    assert NL + [] == NL && e == line + NL;
    assert e[..|line|] == line && e[|line| + 1..] == [];
  }

  // A line ends at the first byte 10, which goes with it.
  lemma LineReads(s: Buf)
    ensures LineCut(s) == None <==> 10 !in s
    ensures LineCut(s).Some? ==> var (line, rest) := LineCut(s).value; 10 !in line && s == line + [10] + rest
  {
    NoNewline(s);
    FindSpec(s, NL);
    if LineCut(s).Some? {
      var k := Find(s, NL).value;
      assert s[k..k + |NL|] == NL;
      assert s[k] == NL[0] == 10 && s == s[..k] + [10] + s[k + 1..];
      forall i | 0 <= i < k
        ensures s[i] != 10
      {
        assert !OccursAt(s, NL, i);
        assert OccursAt(s, NL, i) <==> s[i] == NL[0];
      }
    }
  }

  function LinesOf(s: Buf): Parsed<Buf> { LineCutStable(); Greedy(LineCut, s) }

  function Pass(s: Buf): Parsed<Buf> { LineCutStable(); Lazy(LineCut, Silent, s) }

  function Passes(chunks: seq<Buf>, st: Parsed<Buf>): Parsed<Buf> {
    LineCutStable();
    FeedLazy(LineCut, Silent, chunks, st)
  }

  // However the stream arrives, no command is lost, doubled or reordered.
  lemma LinesConserved(chunks: seq<Buf>)
    ensures var r, g := Passes(chunks, Parsed([], [])), LinesOf(Concat(chunks));
      && r.msgs + Loud(Silent, LinesOf(r.rest).msgs) == Loud(Silent, g.msgs)
      && LinesOf(r.rest).rest == g.rest && NEWLINE !in g.rest
  {
    LineCutStable();
    var s := Concat(chunks);
    assert [] + s == s;
    FeedLazyConserves(LineCut, Silent, chunks, Parsed([], []));
    GreedyRests(LineCut, s);
    NoNewline(LinesOf(s).rest);
    assert [] + Loud(Silent, LinesOf(s).msgs) == Loud(Silent, LinesOf(s).msgs);
  }

  // Non-empty lines are processed as soon as they are complete, and the buffer keeps the incomplete one.
  lemma LinesReceived(lines: seq<Buf>, tail: Buf, chunks: seq<Buf>)
    requires forall i :: 0 <= i < |lines| ==> lines[i] != [] && NEWLINE !in lines[i]
    requires NEWLINE !in tail && Concat(chunks) == Written(Encode, lines) + tail
    ensures Passes(chunks, Parsed([], [])) == Parsed(lines, tail)
  {
    LineCutStable();
    var s := Concat(chunks);
    forall i | 0 <= i < |lines|
      ensures LineCut(Encode(lines[i])) == Some((lines[i], []))
    {
      LineRoundTrip(lines[i]);
    }
    NoNewline(tail);
    GreedyReadsWritten(LineCut, Encode, lines, tail);
    assert [] + s == s;
    LoudStreamIsGreedy(LineCut, Silent, chunks, []);
  }

  // One pass gets to every command in the buffer exactly when none comes after an empty line.
  lemma LinePassExact(s: Buf)
    ensures Pass(s).msgs == Loud(Silent, LinesOf(s).msgs) <==> Trailing(Silent, LinesOf(s).msgs)
  {
    LineCutStable();
    LazyCatchesUp(LineCut, Silent, s);
  }

  class LineServer {
    var rdBuf: Buf
    var processed: seq<Buf>

    method ExtractCommand() returns (cmd: Buf)
      modifies this`rdBuf
      ensures match LineCut(old(rdBuf))
        case None => cmd == [] && rdBuf == old(rdBuf)
        case Some((line, rest)) => cmd == line && rdBuf == rest
    {
      if rdBuf == [] { return []; }
      match Find(rdBuf, NL)
      case None => return [];
      case Some(pz) =>
        cmd := rdBuf[..pz];
        rdBuf := rdBuf[pz + 1..];
    }

    method ProcessBuffer()
      modifies this
      ensures var r := Pass(old(rdBuf)); rdBuf == r.rest && processed == old(processed) + r.msgs
    {
      ghost var all := Pass(rdBuf);
      while true
        invariant var r := Pass(rdBuf); r.rest == all.rest && processed + r.msgs == old(processed) + all.msgs
        decreases |rdBuf|
      {
        var command: Buf := [];
        ghost var was := rdBuf;
        if rdBuf != [] { command := ExtractCommand(); }
        if command == [] { return; }
        Assoc(processed, [command], Pass(rdBuf).msgs);
        processed := processed + [command];
      }
    }
  }
}
