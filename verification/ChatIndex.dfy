/**
The chat thread's two indexes of who is in which channel, kept up to date step by step, and the truth they are
to agree with: each loaded user's own map of channels. User records and client records are named by their keys.
*/
module ChatIndex {
  import opened Ordered
  import opened Memberships

  type Uid = nat
  type Key = (Uid, Client)

  datatype Index = Index(
    known: set<Chan>,                    // __channels$
    users: map<Uid, Membership>,         // __users$, and __channel_us of each
    present: map<Chan, set<Uid>>,        // __users_in_channels$
    local: map<Chan, set<Key>>,          // __local_users_in_channels$
    clients: set<Key>)                   // local_clients

  function At<T>(m: map<Chan, set<T>>, c: Chan): set<T> { if c in m then m[c] else {} }

  predicate Occupies(ix: Index, c: Chan, u: Uid) { u in ix.users && c in ix.users[u] && ix.users[u][c] != {} }

  predicate Uses(ix: Index, c: Chan, k: Key) { k.0 in ix.users && Has(ix.users[k.0], c, k.1) }

  predicate Inside(ix: Index, u: Uid) { u in ix.users && ix.users[u] != map[] }

  // The memberships every user can have.
  ghost predicate Proper(ix: Index) {
    forall u: Uid :: u in ix.users ==>
      && Clean(ix.users[u]) && OneWww(ix.users[u]) && ix.users[u].Keys <= ix.known
      && forall c: Chan :: !Has(ix.users[u], c, Unknown)
  }

  ghost predicate PresentExact(ix: Index) {
    forall c: Chan, u: Uid :: u in At(ix.present, c) <==> Occupies(ix, c, u)
  }

  ghost predicate LocalExact(ix: Index) {
    forall c: Chan, k: Key :: k in At(ix.local, c) <==> Uses(ix, c, k)
  }

  ghost predicate Exact(ix: Index) { Proper(ix) && PresentExact(ix) && LocalExact(ix) }

  // ---------------------------------------------------------------- normalize_user_channels

  function FixPresent(ix: Index, c: Chan, u: Uid): Index {
    ix.(present := ix.present[c := if Occupies(ix, c, u) then At(ix.present, c) + {u} else At(ix.present, c) - {u}])
  }

  function FixLocal(ix: Index, c: Chan, k: Key): Index {
    ix.(local := ix.local[c := if Uses(ix, c, k) then At(ix.local, c) + {k} else At(ix.local, c) - {k}])
  }

  // The client would have to be entered and there is no record of it.
  predicate Blocked(ix: Index, c: Chan, k: Key) {
    k !in At(ix.local, c) && Uses(ix, c, k) && k !in ix.clients
  }

  // The channels in order, up to the first that is blocked.
  function Normalize(cs: seq<Chan>, ix: Index, k: Key): Index {
    if cs == [] then ix
    else
      var ix1 := FixPresent(ix, cs[0], k.0);
      if Blocked(ix1, cs[0], k) then ix1 else Normalize(cs[1..], FixLocal(ix1, cs[0], k), k)
  }

  lemma {:induction false} NormalizeFixes(cs: seq<Chan>, ix: Index, k: Key)
    requires forall c: Chan :: c in cs ==> !Blocked(ix, c, k)
    ensures var r := Normalize(cs, ix, k);
      && r.users == ix.users && r.clients == ix.clients && r.known == ix.known
      && (forall c: Chan, v: Uid :: v in At(r.present, c) <==>
            if v == k.0 && c in cs then Occupies(ix, c, v) else v in At(ix.present, c))
      && (forall c: Chan, x: Key :: x in At(r.local, c) <==>
            if x == k && c in cs then Uses(ix, c, x) else x in At(ix.local, c))
  {
    if cs != [] {
      var ix1 := FixPresent(ix, cs[0], k.0);
      var ix2 := FixLocal(ix1, cs[0], k);
      assert !Blocked(ix, cs[0], k);
      assert cs == [cs[0]] + cs[1..];
      forall c: Chan | c in cs[1..]
        ensures !Blocked(ix2, c, k)
      {
        assert !Blocked(ix, c, k);
      }
      NormalizeFixes(cs[1..], ix2, k);
    }
  }

  // The present index is right up to the blocked channel, the local one is not right there.
  lemma {:induction false} NormalizeBlocked(cs: seq<Chan>, ix: Index, k: Key)
    requires exists c: Chan :: c in cs && Blocked(ix, c, k)
    ensures var r := Normalize(cs, ix, k);
      && r.users == ix.users
      && exists c: Chan :: c in cs && Uses(ix, c, k) && k !in At(r.local, c)
  {
    var c: Chan :| c in cs && Blocked(ix, c, k);
    var ix1 := FixPresent(ix, cs[0], k.0);
    if !Blocked(ix1, cs[0], k) {
      assert c in cs[1..] && Blocked(FixLocal(ix1, cs[0], k), c, k);
      NormalizeBlocked(cs[1..], FixLocal(ix1, cs[0], k), k);
    }
  }

  // ---------------------------------------------------------------- the steps

  datatype Step =
    | Load(u: Uid)                           // any handler that only fetches the user
    | Register(u: Uid, client: Client)       // a client shows up outside a JOIN
    | Join(u: Uid, chan: Chan, client: Client)  // on_common_JOIN
    | Echo(u: Uid, chan: Chan, client: Client)  // JOIN_CHANNEL queued by an earlier JOIN
    | Part(u: Uid, chans: set<Chan>, client: Client)
    | Kick(u: Uid)
    | Unload(u: Uid)                         // FLUSH_USER_DATA, and the trash sweep
    | DropClients(keys: set<Key>)            // the sweep over local_clients

  function Loaded(ix: Index, u: Uid): Index {
    if u in ix.users then ix else ix.(users := ix.users[u := map[]])
  }

  function Enter(ix: Index, u: Uid, c: Chan, t: Client): Index
    requires u in ix.users
  {
    if c !in ix.known then ix
    else Normalize(Ascending(ix.known), ix.(users := ix.users[u := Joined(ix.users[u], c, t)]), (u, t))
  }

  function Leave(ix: Index, u: Uid, chans: set<Chan>, t: Client): Index
    requires u in ix.users
  {
    Normalize(Ascending(ix.known), ix.(users := ix.users[u := Parted(ix.users[u], chans, t)]), (u, t))
  }

  // normalize_user_channels_clean: the entries of u go, in the known channels.
  function Without<T>(m: map<Chan, set<T>>, known: set<Chan>, gone: set<T>): map<Chan, set<T>> {
    map c | c in m.Keys + known :: if c in known then At(m, c) - gone else m[c]
  }

  function Cleaned(ix: Index, u: Uid): Index {
    ix.(present := Without(ix.present, ix.known, {u}), local := Without(ix.local, ix.known, {(u, Www), (u, Irc)}))
  }

  function Kicked(ix: Index, u: Uid): Index {
    Cleaned(ix, u).(users := ix.users - {u}, clients := ix.clients - {(u, Www), (u, Irc)})
  }

  function Next(p: Step, ix: Index): Index {
    match p
    case Load(u) => Loaded(ix, u)
    case Register(u, t) => Loaded(ix, u).(clients := ix.clients + {(u, t)})
    case Join(u, c, t) => Enter(Loaded(ix, u).(clients := ix.clients + {(u, t)}), u, c, t)
    case Echo(u, c, t) => Enter(Loaded(ix, u), u, c, t)
    case Part(u, chans, t) => Leave(Loaded(ix, u), u, chans, t)
    case Kick(u) => Kicked(Loaded(ix, u), u)
    case Unload(u) => ix.(users := ix.users - {u})
    case DropClients(keys) => ix.(clients := ix.clients - keys)
  }

  // What a step needs for the indexes to stay exact.
  predicate Safe(p: Step, ix: Index) {
    match p
    case Echo(u, c, t) => c in ix.known && t != Unknown ==> (u, t) in ix.clients || Uses(ix, c, (u, t))
    case Unload(u) => !Inside(ix, u)
    case _ => true
  }

  // Exact but for one user's presence and one client's.
  ghost predicate ExactBut(ix: Index, k: Key) {
    && Proper(ix)
    && (forall c: Chan, u: Uid :: u != k.0 || c !in ix.known ==> (u in At(ix.present, c) <==> Occupies(ix, c, u)))
    && (forall c: Chan, x: Key :: x != k || c !in ix.known ==> (x in At(ix.local, c) <==> Uses(ix, c, x)))
  }

  lemma NormalizedIsExact(ix: Index, k: Key)
    requires ExactBut(ix, k) && forall c: Chan :: c in ix.known ==> !Blocked(ix, c, k)
    ensures Exact(Normalize(Ascending(ix.known), ix, k))
  {
    var cs := Ascending(ix.known);
    var r := Normalize(cs, ix, k);
    NormalizeFixes(cs, ix, k);
    forall c: Chan, x: Key
      ensures x in At(r.local, c) <==> Uses(r, c, x)
    {
      assert Uses(ix, c, x) == Uses(r, c, x);
      assert c in cs <==> c in ix.known;
    }
    forall c: Chan, u: Uid
      ensures u in At(r.present, c) <==> Occupies(r, c, u)
    {
      assert Occupies(ix, c, u) == Occupies(r, c, u);
      assert c in cs <==> c in ix.known;
    }
  }

  lemma BlockedIsNotExact(ix: Index, c: Chan, k: Key)
    requires c in ix.known && Blocked(ix, c, k)
    ensures !LocalExact(Normalize(Ascending(ix.known), ix, k))
  {
    var cs := Ascending(ix.known);
    assert c in cs;
    NormalizeBlocked(cs, ix, k);
    var r := Normalize(cs, ix, k);
    var d: Chan :| d in cs && Uses(ix, d, k) && k !in At(r.local, d);
    assert Uses(r, d, k);
  }

  // The user's map replaced by one that differs for one client type only.
  lemma ReplacedIsExactBut(ix: Index, u: Uid, t: Client, m: Membership)
    requires Exact(ix) && u in ix.users
    requires Clean(m) && OneWww(m) && m.Keys <= ix.known && forall c: Chan :: !Has(m, c, Unknown)
    requires forall c: Chan, v :: v != t ==> (Has(m, c, v) <==> Has(ix.users[u], c, v))
    ensures ExactBut(ix.(users := ix.users[u := m]), (u, t))
  {
    var jx := ix.(users := ix.users[u := m]);
    forall c: Chan, x: Key | x != (u, t) || c !in ix.known
      ensures x in At(jx.local, c) <==> Uses(jx, c, x)
    {
      assert x in At(ix.local, c) <==> Uses(ix, c, x);
      if x.0 == u && x.1 != t { assert Has(m, c, x.1) <==> Has(ix.users[u], c, x.1); }
    }
    forall c: Chan, v: Uid | v != u || c !in ix.known
      ensures v in At(jx.present, c) <==> Occupies(jx, c, v)
    {
      assert v in At(ix.present, c) <==> Occupies(ix, c, v);
    }
  }

  lemma LoadedIsExact(ix: Index, u: Uid)
    requires Exact(ix)
    ensures Exact(Loaded(ix, u))
  {
    var jx := Loaded(ix, u);
    assert forall c: Chan, v: Uid :: Occupies(jx, c, v) <==> Occupies(ix, c, v);
    assert forall c: Chan, k: Key :: Uses(jx, c, k) <==> Uses(ix, c, k);
  }

  lemma JoinedIsProper(m: Membership, c: Chan, t: Client)
    requires Clean(m) && OneWww(m) && forall d: Chan :: !Has(m, d, Unknown)
    ensures var n := Joined(m, c, t);
      && Clean(n) && OneWww(n) && n.Keys <= m.Keys + {c}
      && (forall d: Chan :: !Has(n, d, Unknown))
      && (forall d: Chan, v :: v != t ==> (Has(n, d, v) <==> Has(m, d, v)))
      && (t != Unknown ==> Has(n, c, t))
      && (t != Unknown && Has(m, c, t) ==> forall d: Chan :: Has(n, d, t) <==> Has(m, d, t))
      && (forall d: Chan :: Has(n, d, t) ==> d == c || Has(m, d, t))
  {
    ActKeeps(Memberships.Act.Enter(c, t), m);
    if t == Www {
      forall d: Chan, v
        ensures Has(Joined(m, c, t), d, v) <==> if v == Www then d == c else Has(m, d, v)
      {
        ReplacedHas(m, c, d, v);
      }
    } else {
      assert forall d: Chan, v :: Has(Joined(m, c, t), d, v) <==> Has(m, d, v) || (t == Irc && d == c && v == Irc);
    }
  }

  lemma EnterExact(ix: Index, u: Uid, c: Chan, t: Client)
    requires Exact(ix) && u in ix.users
    ensures Exact(Enter(ix, u, c, t)) <==>
      (c in ix.known && t != Unknown ==> (u, t) in ix.clients || Uses(ix, c, (u, t)))
  {
    if c in ix.known {
      var k, m := (u, t), Joined(ix.users[u], c, t);
      var jx := ix.(users := ix.users[u := m]);
      JoinedIsProper(ix.users[u], c, t);
      ReplacedIsExactBut(ix, u, t, m);
      assert forall d: Chan :: k in At(ix.local, d) <==> Uses(ix, d, k);
      assert forall d: Chan :: Uses(jx, d, k) <==> Has(m, d, t);
      if t != Unknown && k !in ix.clients && !Uses(ix, c, k) {
        BlockedIsNotExact(jx, c, k);
      } else {
        NormalizedIsExact(jx, k);
      }
    }
  }

  lemma LeaveExact(ix: Index, u: Uid, chans: set<Chan>, t: Client)
    requires Exact(ix) && u in ix.users
    ensures Exact(Leave(ix, u, chans, t))
  {
    var k, m, n := (u, t), ix.users[u], Parted(ix.users[u], chans, t);
    var jx := ix.(users := ix.users[u := n]);
    ActKeeps(Memberships.Act.Leave(chans, t), m);
    forall c: Chan, v
      ensures Has(n, c, v) <==> Has(m, c, v) && !(v == t && Chosen(chans, c))
    {
      PartedHas(m, chans, t, c, v);
    }
    ReplacedIsExactBut(ix, u, t, n);
    forall c: Chan | c in jx.known
      ensures !Blocked(jx, c, k)
    {
      assert k in At(ix.local, c) <==> Uses(ix, c, k);
    }
    NormalizedIsExact(jx, k);
  }

  lemma KickedExact(ix: Index, u: Uid)
    requires Exact(ix)
    ensures Exact(Kicked(ix, u))
  {
    var r := Kicked(ix, u);
    forall c: Chan, v: Uid
      ensures v in At(r.present, c) <==> Occupies(r, c, v)
    {
      assert v in At(ix.present, c) <==> Occupies(ix, c, v);
    }
    forall c: Chan, k: Key
      ensures k in At(r.local, c) <==> Uses(r, c, k)
    {
      assert k in At(ix.local, c) <==> Uses(ix, c, k);
      assert k.0 == u && k.1 == Unknown ==> !Uses(ix, c, k);
    }
  }

  lemma UnloadExact(ix: Index, u: Uid)
    requires Exact(ix)
    ensures Exact(Next(Unload(u), ix)) <==> !Inside(ix, u)
  {
    var r := Next(Unload(u), ix);
    if Inside(ix, u) {
      var c: Chan :| c in ix.users[u];
      assert Occupies(ix, c, u) && u in At(r.present, c) && !Occupies(r, c, u);
    } else {
      assert forall c: Chan, v: Uid :: Occupies(r, c, v) <==> Occupies(ix, c, v);
      assert forall c: Chan, k: Key :: Uses(r, c, k) <==> Uses(ix, c, k);
    }
  }

  // A step keeps the indexes exact if and only if it is safe: unsafe are only the echo of a JOIN whose
  // client is gone, and flushing a user who is in a channel.
  lemma StepExact(p: Step, ix: Index)
    requires Exact(ix)
    ensures Exact(Next(p, ix)) <==> Safe(p, ix)
  {
    match p
    case Load(u) => LoadedIsExact(ix, u);
    case Register(u, t) => LoadedIsExact(ix, u); ClientsDoNotMatter(Loaded(ix, u), ix.clients + {(u, t)});
    case Join(u, c, t) =>
      var jx := Loaded(ix, u);
      LoadedIsExact(ix, u);
      ClientsDoNotMatter(jx, ix.clients + {(u, t)});
      EnterExact(jx.(clients := ix.clients + {(u, t)}), u, c, t);
    case Echo(u, c, t) =>
      LoadedIsExact(ix, u);
      EnterExact(Loaded(ix, u), u, c, t);
    case Part(u, chans, t) =>
      LoadedIsExact(ix, u);
      LeaveExact(Loaded(ix, u), u, chans, t);
    case Kick(u) =>
      LoadedIsExact(ix, u);
      KickedExact(Loaded(ix, u), u);
    case Unload(u) => UnloadExact(ix, u);
    case DropClients(keys) => ClientsDoNotMatter(ix, ix.clients - keys);
  }

  lemma ClientsDoNotMatter(ix: Index, clients: set<Key>)
    requires Exact(ix)
    ensures Exact(ix.(clients := clients))
  {
    var jx := ix.(clients := clients);
    assert forall c: Chan, v: Uid :: Occupies(jx, c, v) <==> Occupies(ix, c, v);
    assert forall c: Chan, k: Key :: Uses(jx, c, k) <==> Uses(ix, c, k);
  }

  function Run(ps: seq<Step>, ix: Index): Index {
    if ps == [] then ix else Run(ps[1..], Next(ps[0], ix))
  }

  predicate SafeRun(ps: seq<Step>, ix: Index) {
    ps == [] || (Safe(ps[0], ix) && SafeRun(ps[1..], Next(ps[0], ix)))
  }

  lemma {:induction false} RunKeepsExact(ps: seq<Step>, ix: Index)
    requires Exact(ix) && SafeRun(ps, ix)
    ensures Exact(Run(ps, ix))
  {
    if ps != [] {
      StepExact(ps[0], ix);
      RunKeepsExact(ps[1..], Next(ps[0], ix));
    }
  }

  // ---------------------------------------------------------------- from scratch

  function Held(ix: Index): set<Chan> {
    set u, c | u in ix.users && c in ix.users[u] && ix.users[u][c] != {} :: c
  }

  function Rebuilt(ix: Index): map<Chan, set<Uid>> {
    map c | c in Held(ix) :: set u | u in ix.users && Occupies(ix, c, u)
  }

  // After every safe run the rebuild finds what is there already, in every channel.
  lemma RebuildChangesNothing(ps: seq<Step>, known: set<Chan>, c: Chan)
    requires SafeRun(ps, Index(known, map[], map[], map[], {}))
    ensures var ix := Run(ps, Index(known, map[], map[], map[], {}));
      At(Rebuilt(ix), c) == At(ix.present, c)
  {
    var start := Index(known, map[], map[], map[], {});
    assert Exact(start);
    RunKeepsExact(ps, start);
    var ix := Run(ps, start);
    forall u: Uid
      ensures u in At(Rebuilt(ix), c) <==> u in At(ix.present, c)
    {
      assert u in At(ix.present, c) <==> Occupies(ix, c, u);
      if u in ix.users && c in ix.users[u] { assert ix.users[u][c] != {}; }
    }
  }

  // A JOIN, the user kicked, and then the echo of the JOIN: the client is in no list, and the channel it was
  // re-entered in does not show it.
  lemma EchoAfterKickIsLost(u: Uid, c: Chan)
    ensures var start := Index({c}, map[], map[], map[], {});
      !Exact(Next(Echo(u, c, Www), Next(Kick(u), Next(Join(u, c, Www), start))))
  {
    var start := Index({c}, map[], map[], map[], {});
    assert Exact(start);
    StepExact(Join(u, c, Www), start);
    var a := Next(Join(u, c, Www), start);
    NormalizeKeepsKnown(Ascending({c}), start.(users := map[u := Joined(map[], c, Www)], clients := {} + {(u, Www)}), (u, Www));
    assert map[u := map[]][u := Joined(map[], c, Www)] == map[u := Joined(map[], c, Www)];
    assert u in a.users && a.known == {c};
    StepExact(Kick(u), a);
    StepExact(Echo(u, c, Www), Kicked(a, u));
  }

  lemma {:induction false} NormalizeKeepsKnown(cs: seq<Chan>, ix: Index, k: Key)
    ensures Normalize(cs, ix, k).known == ix.known && Normalize(cs, ix, k).users == ix.users
  {
    if cs != [] {
      NormalizeKeepsKnown(cs[1..], FixLocal(FixPresent(ix, cs[0], k.0), cs[0], k), k);
    }
  }

  // ---------------------------------------------------------------- what the steps are for

  predicate In(ix: Index, u: Uid, c: Chan, t: Client) { u in ix.users && c in ix.users[u] && t in ix.users[u][c] }

  // Who is in which channel through which client after every step: a JOIN over IRC adds one channel, a JOIN
  // from the web replaces the web channel, a PART without channels leaves all of them, and the rest is as before.
  lemma MembershipAfter(p: Step, ix: Index, u: Uid, c: Chan, t: Client)
    ensures In(Next(p, ix), u, c, t) <==>
      match p
      case Load(_) => In(ix, u, c, t)
      case Register(_, _) => In(ix, u, c, t)
      case DropClients(_) => In(ix, u, c, t)
      case Join(v, d, s) => EnteredIn(ix, v, d, s, u, c, t)
      case Echo(v, d, s) => EnteredIn(ix, v, d, s, u, c, t)
      case Part(v, chans, s) => In(ix, u, c, t) && !(v == u && s == t && (chans == {} || c in chans))
      case Kick(v) => u != v && In(ix, u, c, t)
      case Unload(v) => u != v && In(ix, u, c, t)
  {
    match p
    case Join(v, d, s) => EnterIn(ix, ix.clients + {(v, s)}, v, d, s, u, c, t);
    case Echo(v, d, s) => EnterIn(ix, ix.clients, v, d, s, u, c, t);
    case Part(v, chans, s) => LeaveIn(ix, v, chans, s, u, c, t);
    case Kick(v) => KickedIn(Loaded(ix, v), v, u, c, t);
    case _ =>
  }

  lemma KickedIn(ix: Index, v: Uid, u: Uid, c: Chan, t: Client)
    ensures In(Kicked(ix, v), u, c, t) <==> u != v && In(ix, u, c, t)
  {
  }

  lemma EnterTouches(ix: Index, u: Uid, c: Chan, t: Client)
    requires u in ix.users
    ensures Enter(ix, u, c, t).users == if c in ix.known then ix.users[u := Joined(ix.users[u], c, t)] else ix.users
  {
    NormalizeKeepsKnown(Ascending(ix.known), ix.(users := ix.users[u := Joined(ix.users[u], c, t)]), (u, t));
  }

  lemma LeaveTouches(ix: Index, u: Uid, chans: set<Chan>, t: Client)
    requires u in ix.users
    ensures Leave(ix, u, chans, t).users == ix.users[u := Parted(ix.users[u], chans, t)]
  {
    NormalizeKeepsKnown(Ascending(ix.known), ix.(users := ix.users[u := Parted(ix.users[u], chans, t)]), (u, t));
  }

  lemma LeaveIn(ix: Index, v: Uid, chans: set<Chan>, s: Client, u: Uid, c: Chan, t: Client)
    ensures In(Leave(Loaded(ix, v), v, chans, s), u, c, t) <==>
      In(ix, u, c, t) && !(v == u && s == t && (chans == {} || c in chans))
  {
    LeaveTouches(Loaded(ix, v), v, chans, s);
    PartedHas(Loaded(ix, v).users[v], chans, s, c, t);
  }

  // User v enters channel d through client s.
  predicate EnteredIn(ix: Index, v: Uid, d: Chan, s: Client, u: Uid, c: Chan, t: Client) {
    if v != u || s != t || d !in ix.known then In(ix, u, c, t)
    else if t == Www then c == d
    else if t == Irc then c == d || In(ix, u, c, t)
    else In(ix, u, c, t)
  }

  lemma EnterIn(ix: Index, clients: set<Key>, v: Uid, d: Chan, s: Client, u: Uid, c: Chan, t: Client)
    ensures In(Enter(Loaded(ix, v).(clients := clients), v, d, s), u, c, t) <==> EnteredIn(ix, v, d, s, u, c, t)
  {
    var jx := Loaded(ix, v).(clients := clients);
    EnterTouches(jx, v, d, s);
    JoinedHas(jx.users[v], d, s, c, t);
  }

  // Whose record is loaded: every step but the sweep over clients fetches its user, a kick and an unloading drop
  // the record.
  lemma RecordsAfter(p: Step, ix: Index, u: Uid)
    ensures u in Next(p, ix).users <==>
      match p
      case Kick(v) => u in ix.users && u != v
      case Unload(v) => u in ix.users && u != v
      case DropClients(_) => u in ix.users
      case _ => u in ix.users || u == p.u
  {
    match p
    case Join(v, d, s) => EnterTouches(Loaded(ix, v).(clients := ix.clients + {(v, s)}), v, d, s);
    case Echo(v, d, s) => EnterTouches(Loaded(ix, v), v, d, s);
    case Part(v, chans, s) => LeaveTouches(Loaded(ix, v), v, chans, s);
    case _ =>
  }

  // The client records: one appears with a JOIN of its own or when it shows up, both of a user's go with a
  // kick, and the sweep drops those it names.
  lemma ClientsAfter(p: Step, ix: Index, k: Key)
    ensures k in Next(p, ix).clients <==>
      match p
      case Register(u, t) => k == (u, t) || k in ix.clients
      case Join(u, _, t) => k == (u, t) || k in ix.clients
      case Kick(u) => k in ix.clients && !(k.0 == u && (k.1 == Www || k.1 == Irc))
      case DropClients(keys) => k in ix.clients && k !in keys
      case _ => k in ix.clients
    ensures Next(p, ix).known == ix.known
  {
    match p
    case Join(u, c, t) =>
      var jx := Loaded(ix, u).(clients := ix.clients + {(u, t)});
      NormalizeKeepsClients(Ascending(ix.known), jx.(users := jx.users[u := Joined(jx.users[u], c, t)]), (u, t));
    case Echo(u, c, t) =>
      var jx := Loaded(ix, u);
      NormalizeKeepsClients(Ascending(ix.known), jx.(users := jx.users[u := Joined(jx.users[u], c, t)]), (u, t));
    case Part(u, chans, t) =>
      var jx := Loaded(ix, u);
      NormalizeKeepsClients(Ascending(ix.known), jx.(users := jx.users[u := Parted(jx.users[u], chans, t)]), (u, t));
    case _ =>
  }

  lemma {:induction false} NormalizeKeepsClients(cs: seq<Chan>, ix: Index, k: Key)
    ensures Normalize(cs, ix, k).clients == ix.clients && Normalize(cs, ix, k).known == ix.known
  {
    if cs != [] { NormalizeKeepsClients(cs[1..], FixLocal(FixPresent(ix, cs[0], k.0), cs[0], k), k); }
  }
}
