/**
The time users spend in channels, and the users no longer needed. handle_stat_t_count opens an interval when a
user is in some channel and closes it when in none; a periodic pass reports long intervals and unloads users
who have been in no channel for three hours.
*/
module ChatTime {
  import opened Ordered
  import opened Memberships
  import opened ChatIndex

  datatype Chat = Chat(
    ix: Index,
    now: nat,
    joinTime: map<Uid, nat>,
    trash: map<Uid, nat>,
    sent: seq<(Uid, nat)>)       // the add_stat_t_count reports, in order

  datatype Event =
    | Tick(d: nat)
    | Do(p: Step)
    | Mode(u: Uid)               // a command that changes no channel and is followed by the accounting
    | Sweep                      // the periodic pass

  const LONG := 100
  const TRASH_AGE := 3600 * 3

  function Start(known: set<Chan>): Chat { Chat(Index(known, map[], map[], map[], {}), 0, map[], map[], []) }

  // handle_stat_t_count
  function Handle(st: Chat, u: Uid): Chat {
    var st1 := if Inside(st.ix, u)
               then (if u in st.joinTime then st else st.(joinTime := st.joinTime[u := st.now]))
               else if u in st.joinTime
               then st.(sent := st.sent + [(u, Since(st.now, st.joinTime[u]))], joinTime := st.joinTime - {u})
               else st;
    st1.(trash := if Inside(st.ix, u) then st.trash - {u} else st.trash[u := st.now])
  }

  function Since(now: nat, t: nat): nat { if t <= now then now - t else 0 }

  function Report(us: seq<Uid>, st: Chat): Chat {
    if us == [] then st
    else
      var u := us[0];
      Report(us[1..],
        if u in st.joinTime && Since(st.now, st.joinTime[u]) > LONG
        then st.(sent := st.sent + [(u, Since(st.now, st.joinTime[u]))], joinTime := st.joinTime[u := st.now])
        else st)
  }

  function Expired(st: Chat): set<Uid> {
    set u | u in st.trash && Since(st.now, st.trash[u]) > TRASH_AGE
  }

  function Discard(st: Chat, us: set<Uid>): Chat {
    st.(trash := st.trash - us, ix := st.ix.(users := st.ix.users - us))
  }

  function Swept(st: Chat): Chat {
    var st1 := Report(Ascending(st.joinTime.Keys), st);
    Discard(st1, Expired(st1))
  }

  function NextOf(e: Event, st: Chat): Chat {
    match e
    case Tick(d) => st.(now := st.now + d)
    case Do(p) =>
      var st1 := st.(ix := Next(p, st.ix));
      (match p
       case Join(u, c, _) => if c in st.ix.known then Handle(st1, u) else st1
       case Echo(u, c, _) => if c in st.ix.known then Handle(Handle(st1, u), u) else st1
       case Part(u, _, _) => Handle(st1, u)
       case _ => st1)
    case Mode(u) => Handle(st.(ix := Loaded(st.ix, u)), u)
    case Sweep => Swept(st)
  }

  function RunOf(es: seq<Event>, st: Chat): Chat {
    if es == [] then st else RunOf(es[1..], NextOf(es[0], st))
  }

  // ---------------------------------------------------------------- what the accounts should say

  function Total(sent: seq<(Uid, nat)>, u: Uid): nat {
    if sent == [] then 0
    else Total(sent[..|sent| - 1], u) + if sent[|sent| - 1].0 == u then sent[|sent| - 1].1 else 0
  }

  function Open(st: Chat, u: Uid): nat { if u in st.joinTime then Since(st.now, st.joinTime[u]) else 0 }

  // Seconds u spends in channels during a run.
  function Presence(es: seq<Event>, st: Chat, u: Uid): nat {
    if es == [] then 0
    else (if es[0].Tick? && Inside(st.ix, u) then es[0].d else 0) + Presence(es[1..], NextOf(es[0], st), u)
  }

  // Seconds u spends in no channel while an interval is open.
  function Phantom(es: seq<Event>, st: Chat, u: Uid): nat {
    if es == [] then 0
    else (if es[0].Tick? && u in st.joinTime && !Inside(st.ix, u) then es[0].d else 0) + Phantom(es[1..], NextOf(es[0], st), u)
  }

  ghost predicate Inv(st: Chat) {
    && (forall u: Uid :: Inside(st.ix, u) ==> u in st.joinTime && u !in st.trash)
    && (forall u: Uid :: u in st.joinTime ==> st.joinTime[u] <= st.now)
  }

  ghost predicate NoPhantoms(st: Chat) { forall u: Uid :: u in st.joinTime ==> Inside(st.ix, u) }

  // Users leave channels by parting only.
  predicate Quiet(e: Event, st: Chat) {
    e.Do? && (e.p.Kick? || e.p.Unload?) ==> !Inside(st.ix, e.p.u)
  }

  predicate QuietRun(es: seq<Event>, st: Chat) {
    es == [] || (Quiet(es[0], st) && QuietRun(es[1..], NextOf(es[0], st)))
  }

  // ---------------------------------------------------------------- steps

  lemma TotalPush(sent: seq<(Uid, nat)>, v: Uid, n: nat, u: Uid)
    ensures Total(sent + [(v, n)], u) == Total(sent, u) + if v == u then n else 0
  {
    assert (sent + [(v, n)])[..|sent|] == sent;
  }

  // A step touches the channels of the user it names and of nobody else.
  lemma OthersStay(p: Step, ix: Index, v: Uid)
    requires p.DropClients? || p.Load? || p.Register? || p.u != v || ((p.Join? || p.Echo?) && p.chan !in ix.known)
    ensures Inside(Next(p, ix), v) == Inside(ix, v)
  {
    match p
    case Join(u, c, t) => EnterTouches(Loaded(ix, u).(clients := ix.clients + {(u, t)}), u, c, t);
    case Echo(u, c, t) => EnterTouches(Loaded(ix, u), u, c, t);
    case Part(u, chans, t) => LeaveTouches(Loaded(ix, u), u, chans, t);
    case _ =>
  }

  lemma HandleTotals(st: Chat, u: Uid, v: Uid)
    ensures Total(Handle(st, u).sent, v) + Open(Handle(st, u), v) == Total(st.sent, v) + Open(st, v)
  {
    if u in st.joinTime { TotalPush(st.sent, u, Since(st.now, st.joinTime[u]), v); }
  }

  lemma HandleTwice(st: Chat, u: Uid)
    ensures Handle(Handle(st, u), u) == Handle(st, u)
  {
    var r := Handle(st, u);
    assert r.trash == if Inside(st.ix, u) then r.trash - {u} else r.trash[u := r.now];
  }

  // The accounting puts u in order, whatever the channels of u have become.
  lemma HandleSettles(st: Chat, u: Uid)
    requires forall v: Uid :: v in st.joinTime ==> st.joinTime[v] <= st.now
    requires forall v: Uid :: v != u && Inside(st.ix, v) ==> v in st.joinTime && v !in st.trash
    ensures var r := Handle(st, u);
      && Inv(r) && r.ix == st.ix && r.now == st.now
      && (forall v: Uid :: v in r.joinTime <==> if v == u then Inside(st.ix, v) else v in st.joinTime)
      && (forall v: Uid :: Total(r.sent, v) + Open(r, v) == Total(st.sent, v) + Open(st, v))
      && Handle(r, u) == r
  {
    forall v: Uid
      ensures Total(Handle(st, u).sent, v) + Open(Handle(st, u), v) == Total(st.sent, v) + Open(st, v)
    {
      HandleTotals(st, u, v);
    }
    HandleTwice(st, u);
  }

  lemma {:induction false} ReportKeeps(us: seq<Uid>, st: Chat)
    requires forall v: Uid :: v in st.joinTime ==> st.joinTime[v] <= st.now
    ensures var r := Report(us, st);
      && r.ix == st.ix && r.now == st.now && r.trash == st.trash && r.joinTime.Keys == st.joinTime.Keys
      && (forall v: Uid :: v in r.joinTime ==> r.joinTime[v] <= r.now)
      && (forall v: Uid :: Total(r.sent, v) + Open(r, v) == Total(st.sent, v) + Open(st, v))
  {
    if us != [] {
      var u := us[0];
      if u in st.joinTime && Since(st.now, st.joinTime[u]) > LONG {
        var n := Since(st.now, st.joinTime[u]);
        var st1 := st.(sent := st.sent + [(u, n)], joinTime := st.joinTime[u := st.now]);
        forall v: Uid
          ensures Total(st1.sent, v) + Open(st1, v) == Total(st.sent, v) + Open(st, v)
        {
          TotalPush(st.sent, u, n, v);
        }
        ReportKeeps(us[1..], st1);
      } else {
        ReportKeeps(us[1..], st);
      }
    }
  }

  // After the pass nobody's open interval is long.
  lemma {:induction false} ReportIsComplete(us: seq<Uid>, st: Chat, u: Uid)
    requires u in us || Open(st, u) <= LONG
    requires forall v: Uid :: v in st.joinTime ==> st.joinTime[v] <= st.now
    ensures Open(Report(us, st), u) <= LONG
  {
    if us != [] {
      var v := us[0];
      ReportIsComplete(us[1..],
        if v in st.joinTime && Since(st.now, st.joinTime[v]) > LONG
        then st.(sent := st.sent + [(v, Since(st.now, st.joinTime[v]))], joinTime := st.joinTime[v := st.now])
        else st, u);
    }
  }

  // Users who are in a channel keep their record, in every state a run reaches.
  lemma SweepSparesInside(st: Chat, u: Uid)
    requires Inv(st) && Inside(st.ix, u)
    ensures u in Swept(st).ix.users && Swept(st).ix.users[u] == st.ix.users[u]
    ensures Open(Swept(st), u) <= LONG
  {
    ReportKeeps(Ascending(st.joinTime.Keys), st);
    ReportIsComplete(Ascending(st.joinTime.Keys), st, u);
  }

  lemma SweepAccounts(st: Chat)
    requires Inv(st)
    ensures var r := Swept(st);
      && Inv(r) && r.joinTime.Keys == st.joinTime.Keys
      && (forall u: Uid :: Total(r.sent, u) + Open(r, u) == Total(st.sent, u) + Open(st, u))
      && (forall u: Uid :: Inside(r.ix, u) == Inside(st.ix, u))
  {
    ReportKeeps(Ascending(st.joinTime.Keys), st);
  }

  // The state in which the accounting finds a user whose channels were changed.
  lemma ChangedThenHandled(p: Step, st: Chat)
    requires Inv(st) && (p.Join? || p.Echo? || p.Part?)
    ensures var st1 := st.(ix := Next(p, st.ix)); var r := Handle(st1, p.u);
      && Inv(r) && (forall v: Uid :: Total(r.sent, v) + Open(r, v) == Total(st.sent, v) + Open(st, v))
      && (forall v: Uid :: v in r.joinTime <==> if v == p.u then Inside(r.ix, v) else v in st.joinTime)
      && (forall v: Uid :: v != p.u ==> Inside(r.ix, v) == Inside(st.ix, v))
      && Handle(r, p.u) == r
  {
    forall v: Uid | v != p.u
      ensures Inside(Next(p, st.ix), v) == Inside(st.ix, v)
    {
      OthersStay(p, st.ix, v);
    }
    HandleSettles(st.(ix := Next(p, st.ix)), p.u);
  }

  lemma UnhandledKeeps(p: Step, st: Chat)
    requires Inv(st) && !p.Part? && ((p.Join? || p.Echo?) ==> p.chan !in st.ix.known)
    ensures var r := st.(ix := Next(p, st.ix));
      && Inv(r) && (forall v: Uid :: Inside(r.ix, v) == (Inside(st.ix, v) && !((p.Kick? || p.Unload?) && p.u == v)))
  {
    forall v: Uid
      ensures Inside(Next(p, st.ix), v) == (Inside(st.ix, v) && !((p.Kick? || p.Unload?) && p.u == v))
    {
      if !((p.Kick? || p.Unload?) && p.u == v) { OthersStay(p, st.ix, v); }
    }
  }

  predicate Handled(e: Event, st: Chat) {
    e.Do? && (e.p.Part? || ((e.p.Join? || e.p.Echo?) && e.p.chan in st.ix.known))
  }

  lemma NextAccounts(e: Event, st: Chat, u: Uid)
    requires Inv(st)
    ensures var r := NextOf(e, st);
      && Inv(r)
      && Total(r.sent, u) + Open(r, u) == Total(st.sent, u) + Open(st, u) + if e.Tick? && u in st.joinTime then e.d else 0
  {
    if e.Mode? {
      HandleSettles(st.(ix := Loaded(st.ix, e.u)), e.u);
    } else if e.Sweep? {
      SweepAccounts(st);
    } else if Handled(e, st) {
      ChangedThenHandled(e.p, st);
    } else if e.Do? {
      UnhandledKeeps(e.p, st);
    }
  }

  // Time begins to be counted for somebody in no channel exactly when a user is kicked, or flushed, out of one.
  lemma PhantomsExact(e: Event, st: Chat)
    requires Inv(st) && NoPhantoms(st)
    ensures NoPhantoms(NextOf(e, st)) <==> Quiet(e, st)
  {
    if e.Mode? {
      HandleSettles(st.(ix := Loaded(st.ix, e.u)), e.u);
    } else if e.Sweep? {
      SweepAccounts(st);
    } else if Handled(e, st) {
      ChangedThenHandled(e.p, st);
    } else if e.Do? {
      UnhandledKeeps(e.p, st);
      var r := NextOf(e, st);
      if !Quiet(e, st) { assert e.p.u in r.joinTime && !Inside(r.ix, e.p.u); }
    }
  }

  // ---------------------------------------------------------------- runs

  // Over every run: what was reported plus the open interval is the time in channels plus the phantom time.
  lemma {:induction false} TimeIsAccounted(es: seq<Event>, st: Chat, u: Uid)
    requires Inv(st)
    ensures Inv(RunOf(es, st))
    ensures Total(RunOf(es, st).sent, u) + Open(RunOf(es, st), u)
         == Total(st.sent, u) + Open(st, u) + Presence(es, st, u) + Phantom(es, st, u)
  {
    if es != [] {
      NextAccounts(es[0], st, u);
      TimeIsAccounted(es[1..], NextOf(es[0], st), u);
    }
  }

  // Where nobody is kicked out of a channel there is no phantom time.
  lemma {:induction false} QuietTimeIsExact(es: seq<Event>, st: Chat, u: Uid)
    requires Inv(st) && NoPhantoms(st) && QuietRun(es, st)
    ensures Total(RunOf(es, st).sent, u) + Open(RunOf(es, st), u) == Total(st.sent, u) + Open(st, u) + Presence(es, st, u)
    ensures NoPhantoms(RunOf(es, st))
  {
    if es != [] {
      NextAccounts(es[0], st, u);
      PhantomsExact(es[0], st);
      QuietTimeIsExact(es[1..], NextOf(es[0], st), u);
    }
  }

  // ---------------------------------------------------------------- three hours outside

  // What the pass makes of one user: a record goes when its user has been outside for more than three hours
  // (10800 seconds), and an open interval is reported and begins anew when it is longer than 100 seconds.
  lemma SweepExact(st: Chat, u: Uid)
    requires forall v: Uid :: v in st.joinTime ==> st.joinTime[v] <= st.now
    ensures var r, gone := Swept(st), u in st.trash && st.now > st.trash[u] + 10800;
      && (u in r.ix.users <==> u in st.ix.users && !gone)
      && (u in r.ix.users ==> r.ix.users[u] == st.ix.users[u])
      && (u in r.trash <==> u in st.trash && !gone)
      && (u in r.trash ==> r.trash[u] == st.trash[u])
      && (u in r.joinTime <==> u in st.joinTime)
      && (u in st.joinTime ==>
            var long := st.now > st.joinTime[u] + 100;
            && r.joinTime[u] == (if long then st.now else st.joinTime[u])
            && Total(r.sent, u) == Total(st.sent, u) + if long then st.now - st.joinTime[u] else 0)
  {
    var us := Ascending(st.joinTime.Keys);
    ReportKeeps(us, st);
    if u in st.joinTime { ReportOne(us, st, u); }
    assert Total(Swept(st).sent, u) + Open(Swept(st), u) == Total(st.sent, u) + Open(st, u);
  }

  lemma {:induction false} ReportOne(us: seq<Uid>, st: Chat, u: Uid)
    requires NoDup(us) && u in st.joinTime
    ensures u in Report(us, st).joinTime
    ensures Report(us, st).joinTime[u] == if u in us && st.now > st.joinTime[u] + 100 then st.now else st.joinTime[u]
  {
    if us != [] {
      var v := us[0];
      assert us == [v] + us[1..];
      assert v !in us[1..];
      var st1 := if v in st.joinTime && Since(st.now, st.joinTime[v]) > LONG
        then st.(sent := st.sent + [(v, Since(st.now, st.joinTime[v]))], joinTime := st.joinTime[v := st.now])
        else st;
      assert Report(us, st) == Report(us[1..], st1);
      ReportOne(us[1..], st1, u);
    }
  }

  // Events that do not name u.
  predicate Passes(e: Event, u: Uid) {
    match e
    case Tick(_) => true
    case Sweep => true
    case Mode(v) => v != u
    case Do(p) => p.DropClients? || p.u != u
  }

  predicate AllPass(es: seq<Event>, u: Uid) { forall i :: 0 <= i < |es| ==> Passes(es[i], u) }

  function Elapsed(es: seq<Event>): nat { if es == [] then 0 else (if es[0].Tick? then es[0].d else 0) + Elapsed(es[1..]) }

  lemma PassingKeepsRecord(p: Step, ix: Index, u: Uid)
    requires p.DropClients? || p.u != u
    ensures u in Next(p, ix).users <==> u in ix.users
  {
    match p
    case Join(v, c, t) => EnterTouches(Loaded(ix, v).(clients := ix.clients + {(v, t)}), v, c, t);
    case Echo(v, c, t) => EnterTouches(Loaded(ix, v), v, c, t);
    case Part(v, chans, t) => LeaveTouches(Loaded(ix, v), v, chans, t);
    case _ =>
  }

  lemma HandleOther(st: Chat, v: Uid, u: Uid)
    requires v != u
    ensures var r := Handle(st, v);
      r.ix == st.ix && r.now == st.now && (u in r.trash <==> u in st.trash) && (u in st.trash ==> r.trash[u] == st.trash[u])
  {
  }

  // Unless it is the pass, such an event leaves the record of u and the time u has been outside since.
  lemma PassingKeeps(e: Event, st: Chat, u: Uid)
    requires Passes(e, u) && !e.Sweep?
    ensures var r := NextOf(e, st);
      && r.now == st.now + (if e.Tick? then e.d else 0) && (u in r.ix.users <==> u in st.ix.users)
      && (u in r.trash <==> u in st.trash) && (u in st.trash ==> r.trash[u] == st.trash[u])
  {
    match e
    case Tick(_) =>
    case Mode(v) => HandleOther(st.(ix := Loaded(st.ix, v)), v, u);
    case Do(p) =>
      PassingKeepsRecord(p, st.ix, u);
      var st1 := st.(ix := Next(p, st.ix));
      if !p.DropClients? {
        HandleOther(st1, p.u, u);
        HandleOther(Handle(st1, p.u), p.u, u);
      }
  }

  lemma {:induction false} GoneStaysGone(es: seq<Event>, st: Chat, u: Uid)
    requires AllPass(es, u) && u !in st.ix.users && Inv(st)
    ensures u !in RunOf(es, st).ix.users && Inv(RunOf(es, st))
  {
    if es != [] {
      if es[0].Sweep? { SweepExact(st, u); } else { PassingKeeps(es[0], st, u); }
      NextAccounts(es[0], st, u);
      GoneStaysGone(es[1..], NextOf(es[0], st), u);
    }
  }

  lemma {:induction false} KeptExact(es: seq<Event>, st: Chat, u: Uid)
    requires AllPass(es, u) && u in st.ix.users && u in st.trash && st.trash[u] <= st.now && Inv(st)
    ensures u in Swept(RunOf(es, st)).ix.users <==> st.now + Elapsed(es) <= st.trash[u] + 10800
  {
    if es == [] {
      SweepExact(st, u);
    } else {
      var st1 := NextOf(es[0], st);
      NextAccounts(es[0], st, u);
      if es[0].Sweep? {
        SweepExact(st, u);
        ReportKeeps(Ascending(st.joinTime.Keys), st);
      } else {
        PassingKeeps(es[0], st, u);
      }
      if u in st1.ix.users {
        KeptExact(es[1..], st1, u);
      } else {
        GoneStaysGone(es[1..], st1, u);
        SweepExact(RunOf(es[1..], st1), u);
      }
    }
  }

  // A user found outside every channel by the accounting, and not named by any event since: a pass keeps the
  // record if and only if no more than three hours have gone by, whatever passes there were before.
  lemma UnloadedAfterThreeHours(es: seq<Event>, st: Chat, u: Uid)
    requires Inv(st) && u in st.ix.users && !Inside(st.ix, u) && AllPass(es, u)
    ensures u in Swept(RunOf(es, Handle(st, u))).ix.users <==> Elapsed(es) <= 10800
  {
    HandleSettles(st, u);
    KeptExact(es, Handle(st, u), u);
  }

  // In every state reached from the start, kicks and flushes included, the pass unloads nobody in a channel.
  lemma NobodyInAChannelIsUnloaded(es: seq<Event>, known: set<Chan>, u: Uid)
    ensures var st := RunOf(es, Start(known));
      Inside(st.ix, u) ==> u in Swept(st).ix.users && Swept(st).ix.users[u] == st.ix.users[u]
  {
    var st := RunOf(es, Start(known));
    TimeIsAccounted(es, Start(known), u);
    if Inside(st.ix, u) { SweepSparesInside(st, u); }
  }

  // A kicked user goes on being counted: ten seconds in a channel, thirty on the account.
  lemma KickedTimeRuns(u: Uid, c: Chan)
    ensures var b := NextOf(Tick(10), NextOf(Do(Join(u, c, Irc)), Start({c})));
      var f := NextOf(Tick(20), NextOf(Do(Kick(u)), b));
      Inside(b.ix, u) && !Inside(f.ix, u) && Total(b.sent, u) + Open(b, u) == 10 && Total(f.sent, u) + Open(f, u) == 30
  {
    var st := Start({c});
    var a := NextOf(Do(Join(u, c, Irc)), st);
    var b := NextOf(Tick(10), a);
    var d := NextOf(Do(Kick(u)), b);
    NextAccounts(Do(Join(u, c, Irc)), st, u);
    ChangedThenHandled(Join(u, c, Irc), st);
    JoinIsInside(st.ix, u, c);
    NextAccounts(Tick(10), a, u);
    NextAccounts(Do(Kick(u)), b, u);
    UnhandledKeeps(Kick(u), b);
    NextAccounts(Tick(20), d, u);
  }

  lemma JoinIsInside(ix: Index, u: Uid, c: Chan)
    requires c in ix.known
    ensures Inside(Next(Join(u, c, Irc), ix), u)
  {
    var jx := Loaded(ix, u).(clients := ix.clients + {(u, Irc)});
    NormalizeKeepsKnown(Ascending(ix.known), jx.(users := jx.users[u := Joined(jx.users[u], c, Irc)]), (u, Irc));
    assert c in Joined(jx.users[u], c, Irc);
  }

  // ---------------------------------------------------------------- and the indexes

  predicate SafeEvent(e: Event, st: Chat) { e.Do? ==> Safe(e.p, st.ix) }

  predicate SafeEvents(es: seq<Event>, st: Chat) {
    es == [] || (SafeEvent(es[0], st) && SafeEvents(es[1..], NextOf(es[0], st)))
  }

  lemma {:induction false} DiscardKeepsExact(ix: Index, us: set<Uid>)
    requires Exact(ix) && forall u: Uid :: u in us ==> !Inside(ix, u)
    ensures Exact(ix.(users := ix.users - us))
  {
    var jx := ix.(users := ix.users - us);
    assert forall c: Chan, v: Uid :: Occupies(jx, c, v) <==> Occupies(ix, c, v);
    assert forall c: Chan, k: Key :: Uses(jx, c, k) <==> Uses(ix, c, k);
  }

  lemma HandleKeepsIndex(st: Chat, u: Uid)
    ensures Handle(st, u).ix == st.ix
  {
  }

  lemma DoSteps(p: Step, st: Chat)
    ensures NextOf(Do(p), st).ix == Next(p, st.ix)
  {
    var st1 := st.(ix := Next(p, st.ix));
    if p.Join? || p.Echo? || p.Part? {
      HandleKeepsIndex(st1, p.u);
      HandleKeepsIndex(Handle(st1, p.u), p.u);
    }
  }

  // The periodic pass included, an event keeps the indexes exact if and only if it is safe.
  lemma EventExact(e: Event, st: Chat)
    requires Inv(st) && Exact(st.ix)
    ensures Exact(NextOf(e, st).ix) <==> SafeEvent(e, st)
  {
    match e
    case Tick(_) =>
    case Do(p) => StepExact(p, st.ix); DoSteps(p, st);
    case Mode(u) => LoadedIsExact(st.ix, u);
    case Sweep =>
      var st1 := Report(Ascending(st.joinTime.Keys), st);
      ReportKeeps(Ascending(st.joinTime.Keys), st);
      DiscardKeepsExact(st.ix, Expired(st1));
  }

  lemma {:induction false} EventsKeepExact(es: seq<Event>, st: Chat)
    requires Inv(st) && Exact(st.ix) && SafeEvents(es, st)
    ensures Exact(RunOf(es, st).ix)
  {
    if es != [] {
      EventExact(es[0], st);
      NextAccounts(es[0], st, 0);
      EventsKeepExact(es[1..], NextOf(es[0], st));
    }
  }
}
