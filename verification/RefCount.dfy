/**
Reference-counted handles. Each increment and decrement is one locked action; between them the threads that
copy, assign and destroy handles interleave in any way. The counter is a signed 16-bit number. Assignment reads
the pointer of the other handle twice, and gives up half-way when the counter comes out negative.
*/
module RefCount {
  import opened Options

  type Obj = nat      // identities, never reused
  type Hid = nat      // handles, by identity

  type Count = c: int | -0x8000 <= c < 0x8000

  // __Ref_Count++ and __Ref_Count-- on a signed short.
  function Up(c: Count): Count { if c == 0x7fff then -0x8000 else c + 1 }

  function Down(c: Count): Count { if c == -0x8000 then 0x7fff else c - 1 }

  // An assignment under way: its object was counted; then the old one was given back.
  datatype Flight = Counted(obj: Option<Obj>, from: Hid) | Released(obj: Option<Obj>, from: Hid)

  datatype State = State(
    handles: map<Hid, Option<Obj>>,   // ___ptr of every handle
    flights: map<Hid, Flight>,        // operator= of a handle, begun and not ended
    count: map<Obj, Count>,           // __Ref_Count of every object made
    unclaimed: set<Obj>,              // never given to a handle
    dying: multiset<Obj>,             // a decrement came back zero, delete is next
    deleted: multiset<Obj>)

  const START := State(map[], map[], map[], {}, multiset{}, multiset{})

  datatype Step =
    | Make(o: Obj)
    | FromRaw(h: Hid, p: Option<Obj>)
    | Copy(h: Hid, from: Hid)
    | AssignInc(h: Hid, from: Hid)
    | AssignDec(h: Hid)
    | AssignStore(h: Hid)
    | Destroy(h: Hid)
    | Delete(o: Obj)

  // A handle that has given its object back in an assignment still holds the pointer, but claims nothing.
  predicate Holds(h: Hid, o: Obj, handles: map<Hid, Option<Obj>>, flights: map<Hid, Flight>) {
    h in handles && handles[h] == Some(o) && !(h in flights && flights[h].Released?)
  }

  function Holders(handles: map<Hid, Option<Obj>>, flights: map<Hid, Flight>, o: Obj): set<Hid> {
    set h | h in handles && Holds(h, o, handles, flights)
  }

  function Coming(flights: map<Hid, Flight>, o: Obj): set<Hid> { set h | h in flights && flights[h].obj == Some(o) }

  // Handles that point at o, and assignments that have counted it.
  function Claims(st: State, o: Obj): nat { |Holders(st.handles, st.flights, o)| + |Coming(st.flights, o)| }

  predicate Idle(h: Hid, st: State) { h in st.handles && h !in st.flights }

  // A pointer may be wrapped when it is new or when somebody is holding the object. A handle outlives the
  // assignments from it, as any reference argument must, but it may be assigned to meanwhile.
  predicate Enabled(p: Step, st: State) {
    match p
    case Make(o) => o !in st.count
    case FromRaw(h, q) => h !in st.handles && h !in st.flights && (q.Some? ==> q.value in st.unclaimed || Claims(st, q.value) > 0)
    case Copy(h, from) => h !in st.handles && h !in st.flights && Idle(from, st)
    case AssignInc(h, from) => h != from && Idle(h, st) && Idle(from, st)
    case AssignDec(h) => h in st.handles && h in st.flights && st.flights[h].Counted?
    case AssignStore(h) => h in st.handles && h in st.flights && st.flights[h].Released? && st.flights[h].from in st.handles
    case Destroy(h) => Idle(h, st) && forall g :: g in st.flights ==> st.flights[g].from != h
    case Delete(o) => o in st.dying
  }

  // The object a step counts up or down.
  function Target(p: Step, st: State): Option<Obj>
    requires Enabled(p, st)
  {
    match p
    case FromRaw(_, q) => q
    case Copy(_, from) => st.handles[from]
    case AssignInc(_, from) => st.handles[from]
    case AssignDec(h) => st.handles[h]
    case Destroy(h) => st.handles[h]
    case _ => None
  }

  predicate Gives(p: Step) { p.AssignDec? || p.Destroy? }

  function CountAt(count: map<Obj, Count>, o: Obj): Count { if o in count then count[o] else 0 }

  function NewCount(p: Step, st: State): map<Obj, Count>
    requires Enabled(p, st)
  {
    if p.Make? then st.count[p.o := 0]
    else
      match Target(p, st)
      case None => st.count
      case Some(o) => st.count[o := if Gives(p) then Down(CountAt(st.count, o)) else Up(CountAt(st.count, o))]
  }

  // throw cError("refcount underflow"): the handle keeps its old pointer, and nothing is counted back.
  predicate Throws(p: Step, st: State)
    requires Enabled(p, st)
  {
    p.AssignDec? && st.handles[p.h].Some? && Down(CountAt(st.count, st.handles[p.h].value)) < 0
  }

  function NewHandles(p: Step, st: State): map<Hid, Option<Obj>>
    requires Enabled(p, st)
  {
    match p
    case FromRaw(h, q) => st.handles[h := q]
    case Copy(h, from) => st.handles[h := st.handles[from]]
    case AssignStore(h) => st.handles[h := st.handles[st.flights[h].from]]    // bcg.___ptr, read again
    case Destroy(h) => st.handles - {h}
    case _ => st.handles
  }

  function NewFlights(p: Step, st: State): map<Hid, Flight>
    requires Enabled(p, st)
  {
    match p
    case AssignInc(h, from) => st.flights[h := Counted(st.handles[from], from)]
    case AssignDec(h) =>
      if Throws(p, st) then st.flights - {h} else st.flights[h := Released(st.flights[h].obj, st.flights[h].from)]
    case AssignStore(h) => st.flights - {h}
    case _ => st.flights
  }

  function NewUnclaimed(p: Step, st: State): set<Obj> {
    if p.Make? then st.unclaimed + {p.o}
    else if p.FromRaw? && p.p.Some? then st.unclaimed - {p.p.value}
    else st.unclaimed
  }

  // Whoever sees zero deletes.
  function NewDying(p: Step, st: State): multiset<Obj>
    requires Enabled(p, st)
  {
    if p.Delete? then st.dying - multiset{p.o}
    else if Gives(p) && Target(p, st).Some? && CountAt(NewCount(p, st), Target(p, st).value) == 0
    then st.dying + multiset{Target(p, st).value}
    else st.dying
  }

  function Next(p: Step, st: State): State
    requires Enabled(p, st)
  {
    State(NewHandles(p, st), NewFlights(p, st), NewCount(p, st), NewUnclaimed(p, st), NewDying(p, st),
          if p.Delete? then st.deleted + multiset{p.o} else st.deleted)
  }

  // ---------------------------------------------------------------- claims, step by step

  function One(b: bool): int { if b then 1 else 0 }

  lemma CardSplit(a: set<Hid>, h: Hid)
    ensures |a| == |a - {h}| + One(h in a)
  {
    if h in a { assert a == a - {h} + {h}; } else { assert a == a - {h}; }
  }

  // One handle changes, its pointer or its flight; the others hold what they held.
  lemma HoldersChange(hs: map<Hid, Option<Obj>>, fs: map<Hid, Flight>, hs1: map<Hid, Option<Obj>>, fs1: map<Hid, Flight>, h: Hid, o: Obj)
    requires forall g: Hid :: g != h ==> Holds(g, o, hs, fs) == Holds(g, o, hs1, fs1)
    ensures |Holders(hs1, fs1, o)| == |Holders(hs, fs, o)| - One(Holds(h, o, hs, fs)) + One(Holds(h, o, hs1, fs1))
  {
    var a, b := Holders(hs, fs, o), Holders(hs1, fs1, o);
    forall g: Hid
      ensures g in a - {h} <==> g in b - {h}
    {
      assert g in a <==> Holds(g, o, hs, fs);
      assert g in b <==> Holds(g, o, hs1, fs1);
    }
    assert a - {h} == b - {h};
    CardSplit(a, h);
    CardSplit(b, h);
  }

  predicate Comes(h: Hid, o: Obj, flights: map<Hid, Flight>) { h in flights && flights[h].obj == Some(o) }

  lemma ComingChange(fs: map<Hid, Flight>, fs1: map<Hid, Flight>, h: Hid, o: Obj)
    requires forall g: Hid :: g != h ==> Comes(g, o, fs) == Comes(g, o, fs1)
    ensures |Coming(fs1, o)| == |Coming(fs, o)| - One(Comes(h, o, fs)) + One(Comes(h, o, fs1))
  {
    var a, b := Coming(fs, o), Coming(fs1, o);
    forall g: Hid
      ensures g in a - {h} <==> g in b - {h}
    {
      assert g in a <==> Comes(g, o, fs);
      assert g in b <==> Comes(g, o, fs1);
    }
    assert a - {h} == b - {h};
    CardSplit(a, h);
    CardSplit(b, h);
  }

  // What a step adds to the counter of o.
  function Counting(p: Step, st: State, o: Obj): int
    requires Enabled(p, st)
  {
    if Target(p, st) == Some(o) then (if Gives(p) then -1 else 1) else 0
  }

  // What it adds to the claims on o.
  function Claiming(p: Step, st: State, o: Obj): int
    requires Enabled(p, st)
  {
    if p.AssignStore? then One(st.handles[st.flights[p.h].from] == Some(o)) - One(st.flights[p.h].obj == Some(o))
    else if Throws(p, st) then -One(st.flights[p.h].obj == Some(o))
    else Counting(p, st, o)
  }

  // The handle a step is about.
  function Mover(p: Step): Hid { if p.Make? || p.Delete? then 0 else p.h }

  lemma ClaimsChange(p: Step, st: State, o: Obj)
    requires Enabled(p, st)
    ensures Claims(Next(p, st), o) == Claims(st, o) + Claiming(p, st, o)
  {
    var t, h := Next(p, st), Mover(p);
    HoldersChange(st.handles, st.flights, t.handles, t.flights, h, o);
    ComingChange(st.flights, t.flights, h, o);
  }

  // ---------------------------------------------------------------- the counter counts

  // n as a signed short.
  function Short(n: int): Count { (n + 0x8000) % 0x10000 - 0x8000 }

  lemma ShortSteps(n: int)
    ensures Short(n + 1) == Up(Short(n)) && Short(n - 1) == Down(Short(n))
  {
  }

  lemma ShortTellsApart(n: int, d: int)
    requires -2 <= d <= 2
    ensures Short(n + d) == Short(n) <==> d == 0
  {
  }

  ghost predicate Counts(st: State) {
    && (forall o: Obj :: o in st.unclaimed ==> o in st.count)
    && (forall o: Obj :: Claims(st, o) > 0 ==> o in st.count)
    && (forall o: Obj :: CountAt(st.count, o) == Short(Claims(st, o)))
  }

  // What a step needs for the counters to go on counting: no underflow is thrown, unless between handles of
  // one object, and the pointer stored is the one that was counted.
  predicate Sound(p: Step, st: State)
    requires Enabled(p, st)
  {
    && (Throws(p, st) ==> st.flights[p.h].obj == st.handles[p.h])
    && (p.AssignStore? ==> st.handles[st.flights[p.h].from] == st.flights[p.h].obj)
  }

  lemma SoundIsEven(p: Step, st: State)
    requires Enabled(p, st)
    ensures Sound(p, st) <==> forall o: Obj :: Claiming(p, st, o) == Counting(p, st, o)
  {
    if Throws(p, st) && st.flights[p.h].obj != st.handles[p.h] {
      var o := st.handles[p.h].value;
      assert Claiming(p, st, o) == 0 && Counting(p, st, o) == -1;
    }
    if p.AssignStore? && st.handles[st.flights[p.h].from] != st.flights[p.h].obj {
      var o := if st.flights[p.h].obj.Some? then st.flights[p.h].obj.value else st.handles[st.flights[p.h].from].value;
      assert Claiming(p, st, o) != 0 && Counting(p, st, o) == 0;
    }
  }

  // Only a claimed object, or an unclaimed one, is counted up or down.
  lemma TargetIsMade(p: Step, st: State, o: Obj)
    requires Counts(st) && Enabled(p, st) && Target(p, st) == Some(o)
    ensures o in st.count && (Claims(st, o) > 0 || (p.FromRaw? && o in st.unclaimed))
  {
    match p
    case Copy(_, from) => assert from in Holders(st.handles, st.flights, o);
    case AssignInc(_, from) => assert from in Holders(st.handles, st.flights, o);
    case AssignDec(h) => assert h in Holders(st.handles, st.flights, o);
    case Destroy(h) => assert h in Holders(st.handles, st.flights, o);
    case _ =>
  }

  lemma CountChange(p: Step, st: State, o: Obj)
    requires Counts(st) && Enabled(p, st)
    ensures CountAt(NewCount(p, st), o) == Short(Claims(st, o) + Counting(p, st, o))
    ensures o in NewCount(p, st) <==> o in st.count || p == Make(o)
  {
    ShortSteps(Claims(st, o));
    if Target(p, st).Some? { TargetIsMade(p, st, Target(p, st).value); }
  }

  lemma CountsAt(p: Step, st: State, o: Obj)
    requires Counts(st) && Enabled(p, st)
    ensures var t := Next(p, st);
      CountAt(t.count, o) == Short(Claims(t, o)) <==> Claiming(p, st, o) == Counting(p, st, o)
  {
    ClaimsChange(p, st, o);
    CountChange(p, st, o);
    ShortTellsApart(Claims(st, o) + Counting(p, st, o), Claiming(p, st, o) - Counting(p, st, o));
  }

  lemma SoundKeepsCounts(p: Step, st: State)
    requires Counts(st) && Enabled(p, st) && Sound(p, st)
    ensures Counts(Next(p, st))
  {
    var t := Next(p, st);
    SoundIsEven(p, st);
    forall o: Obj
      ensures Claims(t, o) > 0 ==> o in t.count
      ensures CountAt(t.count, o) == Short(Claims(t, o))
      ensures o in t.unclaimed ==> o in t.count
    {
      CountsAt(p, st, o);
      ClaimsChange(p, st, o);
      CountChange(p, st, o);
      if Target(p, st) == Some(o) { TargetIsMade(p, st, o); }
    }
  }

  // The counters are the numbers of claims, as signed shorts, after a step if and only if the step is sound.
  lemma StepCountsExact(p: Step, st: State)
    requires Counts(st) && Enabled(p, st)
    ensures Counts(Next(p, st)) <==> Sound(p, st)
  {
    if Sound(p, st) {
      SoundKeepsCounts(p, st);
    } else {
      SoundIsEven(p, st);
      var o: Obj :| Claiming(p, st, o) != Counting(p, st, o);
      CountsAt(p, st, o);
    }
  }

  ghost predicate Run(ps: seq<Step>, st: State, t: State) {
    if ps == [] then st == t else Enabled(ps[0], st) && Run(ps[1..], Next(ps[0], st), t)
  }

  predicate SoundRun(ps: seq<Step>, st: State) {
    ps == [] || (Enabled(ps[0], st) && Sound(ps[0], st) && SoundRun(ps[1..], Next(ps[0], st)))
  }

  // The counters are right in this state and in every later one.
  ghost predicate CountsThroughout(ps: seq<Step>, st: State) {
    Counts(st) && (ps == [] || (Enabled(ps[0], st) && CountsThroughout(ps[1..], Next(ps[0], st))))
  }

  // Over every run, whatever its length: the counters count throughout if and only if every step is sound.
  lemma {:induction false} RunCountsExact(ps: seq<Step>, st: State, t: State)
    requires Counts(st) && Run(ps, st, t)
    ensures CountsThroughout(ps, st) <==> SoundRun(ps, st)
    ensures SoundRun(ps, st) ==> Counts(t)
  {
    if ps != [] {
      StepCountsExact(ps[0], st);
      if Sound(ps[0], st) { RunCountsExact(ps[1..], Next(ps[0], st), t); }
    }
  }

  lemma NoClaimsAtStart()
    ensures Counts(START) && Once(START) && Fits(START)
  {
    forall o: Obj
      ensures Claims(START, o) == 0
    {
      assert Holders(START.handles, START.flights, o) == {} && Coming(START.flights, o) == {};
    }
  }

  lemma ShortSigns(n: nat)
    ensures Short(n) == 0 <==> n % 0x10000 == 0
    ensures Short(n) < 0 <==> n % 0x10000 >= 0x8000
    ensures n < 0x8000 ==> Short(n) == n
  {
  }

  // Giving one of the claims up makes the object die exactly when a multiple of 65536 others is left, none
  // included, and is taken for an underflow exactly when the number left has its sixteenth bit set; then an
  // assignment throws, and leaves the counters wrong if it was from another object.
  lemma DecrementExact(p: Step, st: State, o: Obj)
    requires Counts(st) && Enabled(p, st) && Gives(p) && Target(p, st) == Some(o)
    ensures var left := Claims(st, o) - 1;
      && left >= 0
      && (o in Next(p, st).dying - st.dying <==> left % 0x10000 == 0)
      && (CountAt(Next(p, st).count, o) < 0 <==> left % 0x10000 >= 0x8000)
      && (Throws(p, st) <==> p.AssignDec? && left % 0x10000 >= 0x8000)
      && (Counts(Next(p, st)) <==> !(p.AssignDec? && left % 0x10000 >= 0x8000 && st.flights[p.h].obj != Some(o)))
  {
    TargetIsMade(p, st, o);
    CountChange(p, st, o);
    ShortSigns(Claims(st, o) - 1);
    StepCountsExact(p, st);
  }

  // ---------------------------------------------------------------- sources that stay

  // Every assignment under way would still read what it counted.
  ghost predicate SourcesKept(st: State) {
    forall h: Hid :: h in st.flights ==> st.flights[h].from in st.handles && st.handles[st.flights[h].from] == st.flights[h].obj
  }

  // Nothing is stored to a handle while it is being assigned from, unless what it holds already.
  predicate Polite(p: Step, st: State)
    requires Enabled(p, st)
  {
    p.AssignStore? ==>
      forall g :: g in st.flights && g != p.h && st.flights[g].from == p.h ==>
        st.handles[st.flights[p.h].from] == st.flights[g].obj
  }

  // Then the second read gives what the first one gave; and only then.
  lemma PoliteKeepsSources(p: Step, st: State)
    requires SourcesKept(st) && Enabled(p, st)
    requires forall h: Hid :: h in st.flights ==> st.flights[h].from != h
    ensures SourcesKept(Next(p, st)) <==> Polite(p, st)
    ensures p.AssignStore? ==> st.handles[st.flights[p.h].from] == st.flights[p.h].obj
    ensures forall h: Hid :: h in Next(p, st).flights ==> Next(p, st).flights[h].from != h
  {
    var t := Next(p, st);
    if !Polite(p, st) {
      var g: Hid :| g in st.flights && g != p.h && st.flights[g].from == p.h && st.handles[st.flights[p.h].from] != st.flights[g].obj;
      assert g in t.flights && t.flights[g] == st.flights[g];
    }
  }

  // ---------------------------------------------------------------- deleted once

  // Fewer than 2^15 claims on anything.
  ghost predicate Fits(st: State) { forall o: Obj :: Claims(st, o) < 0x8000 }

  // With so few, no assignment throws.
  lemma FittingNeverThrows(p: Step, st: State)
    requires Counts(st) && Fits(st) && Enabled(p, st)
    ensures !Throws(p, st)
  {
    if p.AssignDec? && st.handles[p.h].Some? {
      var o := st.handles[p.h].value;
      DecrementExact(p, st, o);
    }
  }

  function Ends(st: State, o: Obj): nat { st.dying[o] + st.deleted[o] }

  predicate GivenUp(st: State, o: Obj) { o in st.count && o !in st.unclaimed && Claims(st, o) == 0 }

  // An object has been given up exactly when it is deleted, or about to be, and that once.
  ghost predicate Once(st: State) {
    && (forall o: Obj :: o in st.unclaimed ==> Claims(st, o) == 0)
    && (forall o: Obj :: Ends(st, o) == One(GivenUp(st, o)))
  }

  lemma EndsChange(p: Step, st: State, o: Obj)
    requires Counts(st) && Enabled(p, st) && Sound(p, st) && Fits(st) && Fits(Next(p, st))
    ensures Ends(Next(p, st), o) == Ends(st, o) + One(Counting(p, st, o) < 0 && Claims(Next(p, st), o) == 0)
  {
    SoundIsEven(p, st);
    CountChange(p, st, o);
    ClaimsChange(p, st, o);
    ShortSigns(Claims(Next(p, st), o));
  }

  lemma StepOnce(p: Step, st: State)
    requires Counts(st) && Once(st) && Enabled(p, st) && Sound(p, st) && Fits(st) && Fits(Next(p, st))
    ensures Once(Next(p, st))
  {
    var t := Next(p, st);
    SoundIsEven(p, st);
    forall o: Obj
      ensures o in t.unclaimed ==> Claims(t, o) == 0
      ensures Ends(t, o) == One(GivenUp(t, o))
    {
      ClaimsChange(p, st, o);
      CountChange(p, st, o);
      EndsChange(p, st, o);
      if Target(p, st) == Some(o) { TargetIsMade(p, st, o); }
    }
  }

  // Few claims, and no handle stored to while it is being assigned from.
  ghost predicate FittingRun(ps: seq<Step>, st: State) {
    ps == [] || (Enabled(ps[0], st) && Polite(ps[0], st) && Fits(Next(ps[0], st)) && FittingRun(ps[1..], Next(ps[0], st)))
  }

  ghost predicate Orderly(st: State) {
    && Counts(st) && Once(st) && Fits(st) && SourcesKept(st)
    && forall h: Hid :: h in st.flights ==> st.flights[h].from != h
  }

  lemma {:induction false} RunOnce(ps: seq<Step>, st: State, t: State)
    requires Orderly(st) && Run(ps, st, t) && FittingRun(ps, st)
    ensures Orderly(t)
  {
    if ps != [] {
      PoliteKeepsSources(ps[0], st);
      FittingNeverThrows(ps[0], st);
      SoundKeepsCounts(ps[0], st);
      StepOnce(ps[0], st);
      RunOnce(ps[1..], Next(ps[0], st), t);
    }
  }

  // Over every interleaving with at most 32767 claims on an object, and no handle stored to while it is being
  // assigned from: no object is deleted twice, or while a handle or an assignment claims it, and its counter
  // is the number of claims; and once nothing claims it, it is deleted or its delete is the one pending.
  lemma DeletedExactlyOnce(ps: seq<Step>, t: State, o: Obj)
    requires Run(ps, START, t) && FittingRun(ps, START) && o in t.count && o !in t.unclaimed
    ensures Claims(t, o) > 0 ==> Ends(t, o) == 0 && t.count[o] == Claims(t, o)
    ensures Claims(t, o) == 0 ==> Ends(t, o) == 1
  {
    NoClaimsAtStart();
    RunOnce(ps, START, t);
    assert Ends(t, o) == One(GivenUp(t, o));
    assert CountAt(t.count, o) == Short(Claims(t, o));
    ShortSigns(Claims(t, o));
  }

  // In plain words: in every such run what a handle at rest points at has not been deleted and is not about to
  // be, and its counter is at least one.
  lemma PointedAtIsAlive(ps: seq<Step>, t: State, h: Hid, o: Obj)
    requires Run(ps, START, t) && FittingRun(ps, START)
    requires h in t.handles && t.handles[h] == Some(o) && h !in t.flights
    ensures o !in t.deleted && o !in t.dying && o in t.count && t.count[o] >= 1
  {
    NoClaimsAtStart();
    RunOnce(ps, START, t);
    assert h in Holders(t.handles, t.flights, o);
    assert Claims(t, o) > 0 && Ends(t, o) == One(GivenUp(t, o));
    assert CountAt(t.count, o) == Short(Claims(t, o));
    ShortSigns(Claims(t, o));
  }

  // ---------------------------------------------------------------- whole operations

  lemma HeldCounts(st: State, h: Hid, o: Obj)
    requires Counts(st) && Fits(st) && Idle(h, st) && st.handles[h] == Some(o)
    ensures o in st.count && 1 <= st.count[o] == Claims(st, o) < 0x8000
  {
    assert h in Holders(st.handles, st.flights, o);
    assert CountAt(st.count, o) == Short(Claims(st, o));
    ShortSigns(Claims(st, o));
  }

  // A copy that is destroyed again leaves everything as it was.
  lemma CopyThenDestroy(st: State, h: Hid, from: Hid)
    requires Counts(st) && Fits(st) && Enabled(Copy(h, from), st) && forall g :: g in st.flights ==> st.flights[g].from != h
    ensures Next(Copy(h, from), st).handles[h] == st.handles[from]
    ensures Enabled(Destroy(h), Next(Copy(h, from), st)) && Next(Destroy(h), Next(Copy(h, from), st)) == st
  {
    var u := Next(Copy(h, from), st);
    assert u.handles - {h} == st.handles;
    match st.handles[from]
    case None =>
    case Some(o) =>
      HeldCounts(st, from, o);
      assert Down(Up(st.count[o])) == st.count[o];
      assert st.count[o := Up(st.count[o])][o := st.count[o]] == st.count;
  }

  // t is st after handle h was given p for q.
  ghost predicate Exchanged(st: State, t: State, h: Hid, p: Option<Obj>, q: Option<Obj>) {
    && t.handles == st.handles[h := p] && t.flights == st.flights && t.deleted == st.deleted
    && (p == q ==> t == st)
    && (p != q ==>
         && (forall o: Obj ::
               CountAt(t.count, o) as int == CountAt(st.count, o) + (if p == Some(o) then 1 else 0) - (if q == Some(o) then 1 else 0))
         && t.dying == st.dying + if q.Some? && Claims(st, q.value) == 1 then multiset{q.value} else multiset{})
  }

  lemma IncThenDec(st: State, h: Hid, from: Hid)
    requires Counts(st) && Fits(st) && Enabled(AssignInc(h, from), st)
    requires var p := st.handles[from]; p.Some? ==> Claims(st, p.value) < 0x7fff
    ensures var u := Next(AssignInc(h, from), st);
      Enabled(AssignDec(h), u) && !Throws(AssignDec(h), u) && Enabled(AssignStore(h), Next(AssignDec(h), u))
  {
    if st.handles[h].Some? { HeldCounts(st, h, st.handles[h].value); }
    if st.handles[from].Some? { HeldCounts(st, from, st.handles[from].value); }
  }

  // The three steps in a row.
  function AllThree(st: State, h: Hid, from: Hid): State
    requires Enabled(AssignInc(h, from), st) && Enabled(AssignDec(h), Next(AssignInc(h, from), st))
    requires Enabled(AssignStore(h), Next(AssignDec(h), Next(AssignInc(h, from), st)))
  {
    Next(AssignStore(h), Next(AssignDec(h), Next(AssignInc(h, from), st)))
  }

  lemma SameObject(st: State, h: Hid, from: Hid)
    requires Counts(st) && Fits(st) && Enabled(AssignInc(h, from), st) && st.handles[h] == st.handles[from]
    requires var p := st.handles[from]; p.Some? ==> Claims(st, p.value) < 0x7fff
    ensures Enabled(AssignDec(h), Next(AssignInc(h, from), st)) && Enabled(AssignStore(h), Next(AssignDec(h), Next(AssignInc(h, from), st)))
    ensures AllThree(st, h, from) == st
  {
    IncThenDec(st, h, from);
    var t := AllThree(st, h, from);
    assert t.flights == st.flights && t.handles == st.handles;
    if st.handles[h].Some? {
      var o := st.handles[h].value;
      HeldCounts(st, h, o);
      assert st.count[o := Up(st.count[o])][o := st.count[o]] == st.count;
    }
  }

  lemma OtherObject(st: State, h: Hid, from: Hid, o: Obj)
    requires Counts(st) && Fits(st) && Enabled(AssignInc(h, from), st) && st.handles[h] != st.handles[from]
    requires var p := st.handles[from]; p.Some? ==> Claims(st, p.value) < 0x7fff
    ensures Enabled(AssignDec(h), Next(AssignInc(h, from), st)) && Enabled(AssignStore(h), Next(AssignDec(h), Next(AssignInc(h, from), st)))
    ensures CountAt(AllThree(st, h, from).count, o) as int
      == CountAt(st.count, o) + (if st.handles[from] == Some(o) then 1 else 0) - (if st.handles[h] == Some(o) then 1 else 0)
  {
    IncThenDec(st, h, from);
    if st.handles[h].Some? { HeldCounts(st, h, st.handles[h].value); }
    if st.handles[from].Some? { HeldCounts(st, from, st.handles[from].value); }
  }

  lemma OtherDies(st: State, h: Hid, from: Hid)
    requires Counts(st) && Fits(st) && Enabled(AssignInc(h, from), st) && st.handles[h] != st.handles[from]
    requires Enabled(AssignDec(h), Next(AssignInc(h, from), st))
    ensures var t, q := Next(AssignDec(h), Next(AssignInc(h, from), st)), st.handles[h];
      t.dying == st.dying + if q.Some? && Claims(st, q.value) == 1 then multiset{q.value} else multiset{}
  {
    if st.handles[h].Some? { HeldCounts(st, h, st.handles[h].value); }
  }

  lemma OtherRest(st: State, h: Hid, from: Hid)
    requires Counts(st) && Fits(st) && Enabled(AssignInc(h, from), st) && st.handles[h] != st.handles[from]
    requires var p := st.handles[from]; p.Some? ==> Claims(st, p.value) < 0x7fff
    ensures Enabled(AssignDec(h), Next(AssignInc(h, from), st)) && Enabled(AssignStore(h), Next(AssignDec(h), Next(AssignInc(h, from), st)))
    ensures var t, q := AllThree(st, h, from), st.handles[h];
      && t.handles == st.handles[h := st.handles[from]] && t.flights == st.flights && t.deleted == st.deleted
      && t.dying == st.dying + if q.Some? && Claims(st, q.value) == 1 then multiset{q.value} else multiset{}
  {
    IncThenDec(st, h, from);
    OtherDies(st, h, from);
    assert AllThree(st, h, from).flights == st.flights;
  }

  // An assignment that nothing comes between: the handle has the other one's object, which is counted once more,
  // the old object is counted once less, and is to be deleted exactly if nobody else claimed it. Between handles
  // of one object nothing changes.
  lemma WholeAssignment(st: State, h: Hid, from: Hid)
    requires Counts(st) && Fits(st) && Enabled(AssignInc(h, from), st)
    requires var p := st.handles[from]; p.Some? ==> Claims(st, p.value) < 0x7fff
    ensures Enabled(AssignDec(h), Next(AssignInc(h, from), st)) && Enabled(AssignStore(h), Next(AssignDec(h), Next(AssignInc(h, from), st)))
    ensures Exchanged(st, AllThree(st, h, from), h, st.handles[from], st.handles[h])
  {
    if st.handles[h] == st.handles[from] {
      SameObject(st, h, from);
      assert st.handles[h := st.handles[from]] == st.handles;
    } else {
      OtherRest(st, h, from);
      forall o: Obj
        ensures CountAt(AllThree(st, h, from).count, o) as int
          == CountAt(st.count, o) + (if st.handles[from] == Some(o) then 1 else 0) - (if st.handles[h] == Some(o) then 1 else 0)
      {
        OtherObject(st, h, from, o);
      }
    }
  }

  // ---------------------------------------------------------------- the classes

  class Base {
    var refCount: Count
    ghost var gone: bool

    constructor ()
      ensures refCount == 0 && !gone
    {
      refCount, gone := 0, false;
    }

    method IncRefCount() returns (c: Count)
      modifies this`refCount
      ensures c == refCount == Short(old(refCount) + 1)
    {
      ShortSteps(refCount);
      refCount := Up(refCount);
      c := refCount;
    }

    method DecRefCount() returns (c: Count)
      modifies this`refCount
      ensures c == refCount == Short(old(refCount) - 1)
    {
      ShortSteps(refCount);
      refCount := Down(refCount);
      c := refCount;
    }
  }

  // One handle; "delete" marks the object gone.
  class Getter {
    var ptr: Base?

    constructor (p: Base?)
      modifies p
      ensures ptr == p
      ensures p != null ==> p.refCount == Short(old(p.refCount) + 1) && p.gone == old(p.gone)
    {
      ptr := p;
      new;
      if p != null { var _ := p.IncRefCount(); }
    }

    constructor FromGetter(other: Getter)
      modifies other.ptr
      ensures ptr == other.ptr == old(other.ptr)
      ensures ptr != null ==> ptr.refCount == Short(old(other.ptr.refCount) + 1) && ptr.gone == old(other.ptr.gone)
    {
      ptr := other.ptr;
      new;
      if ptr != null { var _ := ptr.IncRefCount(); }
    }

    // The destructor: gives the object back, and deletes it when the count comes out zero.
    method Release() returns (count: Count)
      modifies ptr
      ensures ptr == old(ptr)
      ensures ptr != null ==> count == ptr.refCount == Short(old(ptr.refCount) - 1)
      ensures ptr != null ==> ptr.gone == (old(ptr.gone) || count == 0)
    {
      count := 0;
      if ptr != null {
        count := ptr.DecRefCount();
        if count == 0 { ptr.gone := true; }
      }
    }

    // operator=: the new object is counted before the old one is given back.
    method Assign(other: Getter) returns (underflow: bool)
      modifies this, ptr, other.ptr
      ensures other.ptr == old(other.ptr)
      ensures ptr == if underflow then old(ptr) else other.ptr
      // to itself
      ensures this == other ==> !underflow && (ptr != null ==> ptr.refCount == old(ptr.refCount) && ptr.gone == old(ptr.gone))
      // between handles of one object: the count is as it was, and is looked at
      ensures this != other && other.ptr != null && other.ptr == old(ptr) ==>
        var c := old(ptr.refCount);
        ptr.refCount == c && ptr.gone == (old(ptr.gone) || c == 0) && underflow == (c < 0)
      // from another object: up with the one, down with the other
      ensures this != other && other.ptr != null && other.ptr != old(ptr) ==>
        other.ptr.refCount == Short(old(other.ptr.refCount) + 1) && other.ptr.gone == old(other.ptr.gone)
      ensures this != other && old(ptr) != null && other.ptr != old(ptr) ==>
        var c := Short(old(ptr.refCount) - 1);
        old(ptr).refCount == c && old(ptr).gone == (old(ptr.gone) || c == 0) && underflow == (c < 0)
      ensures old(ptr) == null ==> !underflow
    {
      underflow := false;
      if this != other {
        ghost var c := if ptr != null then ptr.refCount else 0;
        ShortSteps(c);
        if other.ptr != null { var _ := other.ptr.IncRefCount(); }
        if ptr != null {
          ShortSteps(ptr.refCount);
          var count := Release();
          if count < 0 { return true; }
        }
        ptr := other.ptr;
      }
    }
  }
}
