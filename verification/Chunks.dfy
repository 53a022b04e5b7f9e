/**
Stream parsers in general. A cutter takes one message off the front of a buffer or says that more must come;
it must give the same message whatever follows.
*/
module Chunks {
  import opened Options
  import opened Sequences

  type Byte = x: nat | x < 256
  type Buf = seq<Byte>
  type Cut<M> = Buf -> Option<(M, Buf)>

  ghost predicate Stable<M(!new)>(cut: Cut<M>) {
    && Shrinks(cut)
    && forall a: Buf, b: Buf :: cut(a).Some? ==> cut(a + b) == Some((cut(a).value.0, cut(a).value.1 + b))
  }

  ghost predicate Shrinks<M(!new)>(cut: Cut<M>) {
    forall a: Buf :: cut(a).Some? ==> |cut(a).value.1| < |a|
  }

  datatype Parsed<M> = Parsed(msgs: seq<M>, rest: Buf)

  // Take messages as long as there are any.
  function Greedy<M(!new)>(cut: Cut<M>, buf: Buf): (p: Parsed<M>)
    requires Shrinks(cut)
    ensures |p.rest| <= |buf|
    decreases |buf|
  {
    match cut(buf)
    case None => Parsed([], buf)
    case Some((m, rest)) =>
      var p := Greedy(cut, rest);
      Parsed([m] + p.msgs, p.rest)
  }

  function Concat(chunks: seq<Buf>): Buf { if chunks == [] then [] else chunks[0] + Concat(chunks[1..]) }

  // Each received piece is appended to what was left, and parsed.
  function Feed<M(!new)>(cut: Cut<M>, chunks: seq<Buf>, st: Parsed<M>): Parsed<M>
    requires Shrinks(cut)
  {
    if chunks == [] then st
    else
      var p := Greedy(cut, st.rest + chunks[0]);
      Feed(cut, chunks[1..], Parsed(st.msgs + p.msgs, p.rest))
  }

  lemma {:induction false} GreedySplit<M(!new)>(cut: Cut<M>, a: Buf, b: Buf)
    requires Stable(cut)
    ensures var p := Greedy(cut, a); var q := Greedy(cut, p.rest + b);
      Greedy(cut, a + b) == Parsed(p.msgs + q.msgs, q.rest)
    decreases |a|
  {
    match cut(a)
    case None =>
      assert [] + Greedy(cut, a + b).msgs == Greedy(cut, a + b).msgs;
    case Some((m, rest)) =>
      assert cut(a + b) == Some((m, rest + b));
      GreedySplit(cut, rest, b);
      var p := Greedy(cut, rest);
      assert [m] + (p.msgs + Greedy(cut, p.rest + b).msgs) == [m] + p.msgs + Greedy(cut, p.rest + b).msgs;
  }

  // What is left over holds no message.
  lemma {:induction false} GreedyRests<M(!new)>(cut: Cut<M>, buf: Buf)
    requires Shrinks(cut)
    ensures cut(Greedy(cut, buf).rest) == None
    decreases |buf|
  {
    if cut(buf).Some? { GreedyRests(cut, cut(buf).value.1); }
  }

  // A message is cut off the front, and would be cut off alone.
  ghost predicate CutsFront<M(!new)>(cut: Cut<M>, s: Buf)
    requires cut(s).Some?
  {
    var (m, t) := cut(s).value;
    |t| < |s| && s[|s| - |t|..] == t && cut(s[..|s| - |t|]) == Some((m, []))
  }

  ghost predicate Local<M(!new)>(cut: Cut<M>) {
    forall s: Buf {:trigger CutsFront(cut, s)} :: cut(s).Some? ==> CutsFront(cut, s)
  }

  lemma FirstMessage<M(!new)>(cut: Cut<M>, s: Buf) returns (h: Buf)
    requires Local(cut) && cut(s).Some?
    ensures s == h + cut(s).value.1 && cut(h) == Some((cut(s).value.0, []))
  {
    assert CutsFront(cut, s);
    h := s[..|s| - |cut(s).value.1|];
  }

  // The messages of a stream are a prefix of it.
  lemma {:induction false} GreedyPrefix<M(!new)>(cut: Cut<M>, s: Buf) returns (f: Buf)
    requires Stable(cut) && Local(cut) && cut([]) == None
    ensures s == f + Greedy(cut, s).rest && Greedy(cut, f) == Parsed(Greedy(cut, s).msgs, [])
    decreases |s|
  {
    match cut(s)
    case None => f := [];
    case Some((m, t)) =>
      var h := FirstMessage(cut, s);
      var g := GreedyPrefix(cut, t);
      GreedyOne(cut, h, m, g);
      Assoc(h, g, Greedy(cut, t).rest);
      f := h + g;
  }

  // However a stream is split, feeding the pieces is parsing the whole.
  lemma {:induction false} ChunkingIndependent<M(!new)>(cut: Cut<M>, chunks: seq<Buf>, before: Buf)
    requires Stable(cut)
    ensures Feed(cut, chunks, Greedy(cut, before)) == Greedy(cut, before + Concat(chunks))
  {
    if chunks == [] {
      assert before + [] == before;
    } else {
      GreedySplit(cut, before, chunks[0]);
      ChunkingIndependent(cut, chunks[1..], before + chunks[0]);
      Assoc(before, chunks[0], Concat(chunks[1..]));
    }
  }

  // ---------------------------------------------------------------- servers that stop at an empty message

  function Loud<M(!new)>(silent: M -> bool, ms: seq<M>): seq<M> {
    if ms == [] then [] else (if silent(ms[0]) then [] else [ms[0]]) + Loud(silent, ms[1..])
  }

  lemma {:induction false} LoudAppend<M(!new)>(silent: M -> bool, a: seq<M>, b: seq<M>)
    ensures Loud(silent, a + b) == Loud(silent, a) + Loud(silent, b)
  {
    if a == [] {
      assert a + b == b;
    } else {
      assert (a + b)[0] == a[0] && (a + b)[1..] == a[1..] + b;
      LoudAppend(silent, a[1..], b);
    }
  }

  // An empty message is consumed, not dispatched, and ends the pass.
  function Lazy<M(!new)>(cut: Cut<M>, silent: M -> bool, buf: Buf): Parsed<M>
    requires Shrinks(cut)
    decreases |buf|
  {
    match cut(buf)
    case None => Parsed([], buf)
    case Some((m, rest)) =>
      if silent(m) then Parsed([], rest)
      else
        var p := Lazy(cut, silent, rest);
        Parsed([m] + p.msgs, p.rest)
  }

  function FeedLazy<M(!new)>(cut: Cut<M>, silent: M -> bool, chunks: seq<Buf>, st: Parsed<M>): Parsed<M>
    requires Shrinks(cut)
  {
    if chunks == [] then st
    else
      var p := Lazy(cut, silent, st.rest + chunks[0]);
      FeedLazy(cut, silent, chunks[1..], Parsed(st.msgs + p.msgs, p.rest))
  }

  // Nothing is lost or reordered by a pass: dispatched, and then still to be had from the buffer.
  lemma {:induction false} LazyConserves<M(!new)>(cut: Cut<M>, silent: M -> bool, buf: Buf)
    requires Shrinks(cut)
    ensures var p := Lazy(cut, silent, buf);
      && p.msgs + Loud(silent, Greedy(cut, p.rest).msgs) == Loud(silent, Greedy(cut, buf).msgs)
      && Greedy(cut, p.rest).rest == Greedy(cut, buf).rest
    decreases |buf|
  {
    if cut(buf).Some? {
      var (m, rest) := cut(buf).value;
      LoudCons(silent, m, Greedy(cut, rest).msgs);
      if !silent(m) {
        LazyConserves(cut, silent, rest);
        var p := Lazy(cut, silent, rest);
        Assoc([m], p.msgs, Loud(silent, Greedy(cut, p.rest).msgs));
      }
    }
  }

  lemma LoudCons<M(!new)>(silent: M -> bool, m: M, ms: seq<M>)
    ensures Loud(silent, [m] + ms) == (if silent(m) then [] else [m]) + Loud(silent, ms)
  {
    assert ([m] + ms)[1..] == ms;
  }

  lemma PassConserves<M(!new)>(cut: Cut<M>, silent: M -> bool, b: Buf, tail: Buf)
    requires Stable(cut)
    ensures var p := Lazy(cut, silent, b);
      && p.msgs + Loud(silent, Greedy(cut, p.rest + tail).msgs) == Loud(silent, Greedy(cut, b + tail).msgs)
      && Greedy(cut, p.rest + tail).rest == Greedy(cut, b + tail).rest
  {
    LazyConserves(cut, silent, b);
    var p := Lazy(cut, silent, b);
    var gp, gb := Greedy(cut, p.rest), Greedy(cut, b);
    GreedySplit(cut, b, tail);
    GreedySplit(cut, p.rest, tail);
    var q := Greedy(cut, gb.rest + tail);
    LoudAppend(silent, gb.msgs, q.msgs);
    LoudAppend(silent, gp.msgs, q.msgs);
    Assoc(p.msgs, Loud(silent, gp.msgs), Loud(silent, q.msgs));
  }

  // The same over any number of pieces.
  lemma {:induction false} FeedLazyConserves<M(!new)>(cut: Cut<M>, silent: M -> bool, chunks: seq<Buf>, st: Parsed<M>)
    requires Stable(cut)
    ensures var p := FeedLazy(cut, silent, chunks, st); var g := Greedy(cut, st.rest + Concat(chunks));
      && p.msgs + Loud(silent, Greedy(cut, p.rest).msgs) == st.msgs + Loud(silent, g.msgs)
      && Greedy(cut, p.rest).rest == g.rest
  {
    if chunks == [] {
      assert st.rest + [] == st.rest;
    } else {
      var b, tail := st.rest + chunks[0], Concat(chunks[1..]);
      var p := Lazy(cut, silent, b);
      FeedLazyConserves(cut, silent, chunks[1..], Parsed(st.msgs + p.msgs, p.rest));
      assert b + tail == st.rest + Concat(chunks);
      PassConserves(cut, silent, b, tail);
      Assoc(st.msgs, p.msgs, Loud(silent, Greedy(cut, p.rest + tail).msgs));
    }
  }

  // Where no message is empty, the pass is the plain one.
  lemma {:induction false} LoudIsGreedy<M(!new)>(cut: Cut<M>, silent: M -> bool, buf: Buf)
    requires Shrinks(cut) && forall m :: m in Greedy(cut, buf).msgs ==> !silent(m)
    ensures Lazy(cut, silent, buf) == Greedy(cut, buf)
    decreases |buf|
  {
    if cut(buf).Some? {
      var (m, rest) := cut(buf).value;
      var ms := Greedy(cut, rest).msgs;
      assert m in [m] + ms && forall x :: x in ms ==> x in [m] + ms;
      LoudIsGreedy(cut, silent, rest);
    }
  }

  lemma {:induction false} LoudStreamIsGreedy<M(!new)>(cut: Cut<M>, silent: M -> bool, chunks: seq<Buf>, before: Buf)
    requires Stable(cut) && forall m :: m in Greedy(cut, before + Concat(chunks)).msgs ==> !silent(m)
    ensures FeedLazy(cut, silent, chunks, Greedy(cut, before)) == Greedy(cut, before + Concat(chunks))
  {
    if chunks == [] {
      assert before + [] == before;
    } else {
      var a, tail := before + chunks[0], Concat(chunks[1..]);
      assert a + tail == before + Concat(chunks);
      GreedySplit(cut, a, tail);
      GreedySplit(cut, before, chunks[0]);
      assert forall m :: m in Greedy(cut, Greedy(cut, before).rest + chunks[0]).msgs ==> m in Greedy(cut, a).msgs;
      LoudIsGreedy(cut, silent, Greedy(cut, before).rest + chunks[0]);
      LoudStreamIsGreedy(cut, silent, chunks[1..], a);
    }
  }

  // A pass dispatches all there is exactly when no message comes after an empty one.
  lemma {:induction false} LazyCatchesUp<M(!new)>(cut: Cut<M>, silent: M -> bool, buf: Buf)
    requires Shrinks(cut)
    ensures Lazy(cut, silent, buf).msgs == Loud(silent, Greedy(cut, buf).msgs) <==> Trailing(silent, Greedy(cut, buf).msgs)
    decreases |buf|
  {
    if cut(buf).Some? {
      var (m, rest) := cut(buf).value;
      var ms := Greedy(cut, rest).msgs;
      assert ([m] + ms)[0] == m && ([m] + ms)[1..] == ms;
      if silent(m) {
        LoudNone(silent, ms);
      } else {
        LazyCatchesUp(cut, silent, rest);
        var x, y := Lazy(cut, silent, rest).msgs, Loud(silent, ms);
        assert ([m] + x)[1..] == x && ([m] + y)[1..] == y;
      }
    }
  }

  // The empty messages are all at the end.
  predicate Trailing<M(!new)>(silent: M -> bool, ms: seq<M>) {
    ms == [] || if silent(ms[0]) then forall j :: 1 <= j < |ms| ==> silent(ms[j]) else Trailing(silent, ms[1..])
  }

  lemma {:induction false} LoudNone<M(!new)>(silent: M -> bool, ms: seq<M>)
    ensures Loud(silent, ms) == [] <==> forall j :: 0 <= j < |ms| ==> silent(ms[j])
  {
    if ms != [] {
      LoudNone(silent, ms[1..]);
      assert forall j :: 1 <= j < |ms| ==> ms[j] == ms[1..][j - 1];
      assert forall j :: 0 <= j < |ms[1..]| ==> ms[1..][j] == ms[j + 1];
    }
  }

  // A sender writes messages one after the other.
  function Written<M(!new)>(enc: M -> Buf, ms: seq<M>): Buf {
    if ms == [] then [] else enc(ms[0]) + Written(enc, ms[1..])
  }

  lemma GreedyOne<M(!new)>(cut: Cut<M>, a: Buf, m: M, b: Buf)
    requires Stable(cut) && cut(a) == Some((m, []))
    ensures Greedy(cut, a + b) == Parsed([m] + Greedy(cut, b).msgs, Greedy(cut, b).rest)
  {
    assert [] + b == b;
  }

  lemma {:induction false} GreedyReadsWritten<M(!new)>(cut: Cut<M>, enc: M -> Buf, ms: seq<M>, tail: Buf)
    requires Stable(cut) && cut(tail) == None
    requires forall i :: 0 <= i < |ms| ==> cut(enc(ms[i])) == Some((ms[i], []))
    ensures Greedy(cut, Written(enc, ms) + tail) == Parsed(ms, tail)
  {
    if ms == [] {
      assert [] + tail == tail;
    } else {
      var rest := Written(enc, ms[1..]) + tail;
      assert Written(enc, ms) + tail == enc(ms[0]) + rest;
      GreedyOne(cut, enc(ms[0]), ms[0], rest);
      GreedyReadsWritten(cut, enc, ms[1..], tail);
    }
  }
}
