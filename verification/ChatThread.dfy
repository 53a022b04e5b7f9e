/**
The chat thread's handlers as they are written, each proved to take the step of ChatTime, and so of ChatIndex,
that its event stands for.
*/
module ChatThread {
  import opened Ordered
  import opened Memberships
  import opened ChatIndex
  import opened ChatTime

  lemma WithoutOneMore<T>(m: map<Chan, set<T>>, done: set<Chan>, c: Chan, gone: set<T>)
    requires c !in done
    ensures Without(m, done, gone)[c := At(Without(m, done, gone), c) - gone] == Without(m, done + {c}, gone)
  {
  }

  lemma RebuiltIs(now: map<Chan, set<Uid>>, ix: Index)
    requires forall c: Chan, u: Uid :: u in At(now, c) <==> Occupies(ix, c, u)
    requires forall c: Chan :: c in now ==> now[c] != {}
    ensures now == Rebuilt(ix)
  {
    var r := Rebuilt(ix);
    forall c: Chan
      ensures c in now <==> c in r
    {
      if c in now { var u: Uid :| u in now[c]; assert u in At(now, c); assert Occupies(ix, c, u); }
      if c in r {
        var u: Uid :| u in ix.users && c in ix.users[u] && ix.users[u][c] != {};
        assert Occupies(ix, c, u);
      }
    }
    forall c: Chan | c in now
      ensures now[c] == r[c]
    {
      forall u: Uid
        ensures u in now[c] <==> u in r[c]
      {
        assert u in At(now, c) <==> Occupies(ix, c, u);
      }
    }
  }

  class Thread {
    const known: set<Chan>
    var users: map<Uid, Membership>
    var present: map<Chan, set<Uid>>
    var local: map<Chan, set<Key>>
    var clients: set<Key>
    var now: nat
    var joinTime: map<Uid, nat>
    var trash: map<Uid, nat>
    var sent: seq<(Uid, nat)>

    constructor (known: set<Chan>)
      ensures Value() == Start(known)
    {
      this.known := known;
      users, present, local, clients := map[], map[], map[], {};
      now, joinTime, trash, sent := 0, map[], map[], [];
    }

    ghost function Ix(): Index
      reads this
    {
      Index(known, users, present, local, clients)
    }

    ghost function Value(): Chat
      reads this
    {
      Chat(Ix(), now, joinTime, trash, sent)
    }

    method GetUser(u: Uid)
      modifies this`users
      ensures Ix() == Loaded(old(Ix()), u)
    {
      if u !in users { users := users[u := map[]]; }
    }

    method NormalizeUserChannels(t: Client, u: Uid)
      requires u in users
      modifies this`present, this`local
      ensures Ix() == Normalize(Ascending(known), old(Ix()), (u, t))
    {
      var k, cs := (u, t), Ascending(known);
      while cs != []
        invariant Normalize(cs, Ix(), k) == Normalize(Ascending(known), old(Ix()), k)
      {
        var c := cs[0];
        FixPresentOf(u, c);
        var blocked := FixLocalOf(k, c);
        if blocked { return; }
        cs := cs[1..];
      }
    }

    method FixPresentOf(u: Uid, c: Chan)
      requires u in users
      modifies this`present
      ensures Ix() == FixPresent(old(Ix()), c, u)
    {
      var uic := if c in present then present[c] else {};
      var inChan := c in users[u] && users[u][c] != {};
      assert u in uic ==> uic + {u} == uic;
      assert u !in uic ==> uic - {u} == uic;
      if u in uic && !inChan { uic := uic - {u}; }
      if u !in uic && inChan { uic := uic + {u}; }
      present := present[c := uic];
    }

    method FixLocalOf(k: Key, c: Chan) returns (blocked: bool)
      requires k.0 in users
      modifies this`local
      ensures blocked == Blocked(old(Ix()), c, k)
      ensures !blocked ==> Ix() == FixLocal(old(Ix()), c, k)
      ensures blocked ==> Ix() == old(Ix())
    {
      var inIndex := c in local && k in local[c];
      var inChan := c in users[k.0] && k.1 in users[k.0][c];
      blocked := !inIndex && inChan && k !in clients;
      if !blocked {
        local := local[c := if inChan then (if c in local then local[c] else {}) + {k}
                            else (if c in local then local[c] else {}) - {k}];
      }
    }

    method NormalizeUserChannelsClean(u: Uid)
      modifies this`present, this`local
      ensures Ix() == Cleaned(old(Ix()), u)
    {
      var todo := known;
      ghost var done := {};
      assert Without(present, done, {u}) == present && Without(local, done, {(u, Www), (u, Irc)}) == local;
      while todo != {}
        invariant done + todo == known && done !! todo
        invariant present == Without(old(present), done, {u})
        invariant local == Without(old(local), done, {(u, Www), (u, Irc)})
        decreases todo
      {
        var c := AnyOf(todo);
        WithoutOneMore(old(present), done, c, {u});
        WithoutOneMore(old(local), done, c, {(u, Www), (u, Irc)});
        present := present[c := (if c in present then present[c] else {}) - {u}];
        local := local[c := (if c in local then local[c] else {}) - {(u, Www), (u, Irc)}];
        todo, done := todo - {c}, done + {c};
      }
      assert done == known;
    }

    method HandleStatTCount(u: Uid)
      requires u in users
      modifies this`joinTime, this`trash, this`sent
      ensures Value() == Handle(old(Value()), u)
    {
      if users[u] != map[] && u !in joinTime {
        joinTime := joinTime[u := now];
      }
      if users[u] == map[] && u in joinTime {
        sent := sent + [(u, Since(now, joinTime[u]))];
        joinTime := joinTime - {u};
      }
      if users[u] == map[] { trash := trash[u := now]; } else { trash := trash - {u}; }
    }

    // The channels of the user, and both indexes.
    method EnterChannel(u: Uid, c: Chan, t: Client)
      requires u in users && c in known
      modifies this`users, this`present, this`local
      ensures Ix() == ChatIndex.Enter(old(Ix()), u, c, t) && u in users
    {
      var s := new UserState();
      s.channels := users[u];
      if t == Irc { s.ChannelAdd(Irc, c); } else if t == Www { s.WwwChannelReplace(c); }
      users := users[u := s.channels];
      NormalizeUserChannels(t, u);
    }

    method OnJoinFixLists(u: Uid, c: Chan, t: Client)
      requires u in users && c in known
      modifies this
      ensures Value() == Handle(old(Value()).(ix := ChatIndex.Enter(old(Ix()), u, c, t)), u) && u in users
    {
      EnterChannel(u, c, t);
      HandleStatTCount(u);
    }

    method OnCommonJoin(u: Uid, c: Chan, t: Client)
      modifies this
      ensures Value() == NextOf(Do(Step.Join(u, c, t)), old(Value()))
    {
      GetUser(u);
      clients := clients + {(u, t)};
      if c !in known { return; }
      OnJoinFixLists(u, c, t);
    }

    // JOIN_CHANNEL in do_set_user_state: the accounting runs twice.
    method StateJoin(u: Uid, c: Chan, t: Client)
      modifies this
      ensures Value() == NextOf(Do(Echo(u, c, t)), old(Value()))
    {
      GetUser(u);
      if c !in known { return; }
      OnJoinFixLists(u, c, t);
      HandleStatTCount(u);
    }

    method StatePart(u: Uid, chans: set<Chan>, t: Client) returns (parted: set<Chan>)
      modifies this
      ensures Value() == NextOf(Do(Step.Part(u, chans, t)), old(Value()))
      ensures parted == LeftBy(Loaded(old(Ix()), u).users[u], chans, t)
    {
      GetUser(u);
      var s := new UserState();
      s.channels := users[u];
      parted := s.PartChannels(chans, t);
      users := users[u := s.channels];
      NormalizeUserChannels(t, u);
      HandleStatTCount(u);
    }

    method StateKick(u: Uid)
      modifies this
      ensures Value() == NextOf(Do(Step.Kick(u)), old(Value()))
    {
      GetUser(u);
      users := users[u := map[]];
      NormalizeUserChannelsClean(u);
      clients := clients - {(u, Www), (u, Irc)};
      assert users - {u} == Loaded(old(Ix()), u).users - {u};
      users := users - {u};
    }

    method UnloadUser(u: Uid)
      modifies this`users
      ensures Ix() == Next(Unload(u), old(Ix()))
    {
      if u !in users { return; }
      users := users - {u};
    }

    method ReportOpenIntervals()
      modifies this`joinTime, this`sent
      ensures Value() == Report(Ascending(old(joinTime).Keys), old(Value()))
    {
      var us := Ascending(joinTime.Keys);
      while us != []
        invariant Report(us, Value()) == Report(Ascending(old(joinTime).Keys), old(Value()))
      {
        var u := us[0];
        if u in joinTime && Since(now, joinTime[u]) > LONG {
          sent := sent + [(u, Since(now, joinTime[u]))];
          joinTime := joinTime[u := now];
        }
        us := us[1..];
      }
    }

    method EmptyTrash()
      modifies this`users, this`trash
      ensures Value() == Discard(old(Value()), Expired(old(Value())))
    {
      ghost var todel := Expired(Value());
      var todo := set u | u in trash && Since(now, trash[u]) > TRASH_AGE;
      while todo != {}
        invariant todo <= todel && users == old(users) - (todel - todo) && trash == old(trash) - (todel - todo)
        decreases todo
      {
        var u := AnyOf(todo);
        assert todel - (todo - {u}) == (todel - todo) + {u};
        todo := todo - {u};
        trash := trash - {u};
        UnloadUser(u);
      }
      assert todel - todo == todel;
    }

    method PeriodicPass()
      modifies this
      ensures Value() == Swept(old(Value()))
    {
      ReportOpenIntervals();
      EmptyTrash();
    }

    // The first loop of __update_contact_list_all, for one user.
    method IndexUser(u: Uid, ghost done: set<Uid>)
      requires u in users && u !in done
      requires forall c: Chan, v: Uid :: v in At(present, c) <==> v in done && Occupies(Ix(), c, v)
      requires forall c: Chan :: c in present ==> present[c] != {}
      modifies this`present
      ensures forall c: Chan, v: Uid :: v in At(present, c) <==> v in done + {u} && Occupies(Ix(), c, v)
      ensures forall c: Chan :: c in present ==> present[c] != {}
    {
      var m, todo := users[u], users[u].Keys;
      ghost var was := present;
      while todo != {}
        invariant todo <= m.Keys && m == users[u]
        invariant forall c: Chan, v: Uid :: v in At(present, c) <==>
          v in At(was, c) || (v == u && c !in todo && c in m && m[c] != {})
        invariant forall c: Chan :: c in present ==> present[c] != {}
        decreases todo
      {
        var c := AnyOf(todo);
        todo := todo - {c};
        if m[c] != {} { InsertInto(c, u); }
      }
      forall c: Chan, v: Uid
        ensures v in At(present, c) <==> v in done + {u} && Occupies(Ix(), c, v)
      {
        assert v in At(was, c) <==> v in done && Occupies(old(Ix()), c, v);
        assert Occupies(old(Ix()), c, v) == Occupies(Ix(), c, v);
      }
    }

    method InsertInto(c: Chan, u: Uid)
      modifies this`present
      ensures forall d: Chan, v: Uid :: v in At(present, d) <==> v in At(old(present), d) || (d == c && v == u)
      ensures forall d: Chan :: d in present ==> (d in old(present) && present[d] == old(present)[d]) || present[d] != {}
    {
      present := present[c := (if c in present then present[c] else {}) + {u}];
    }

    method RebuildUsersInChannels()
      modifies this`present
      ensures present == Rebuilt(old(Ix()))
    {
      present := map[];
      var todo := users.Keys;
      while todo != {}
        invariant todo <= users.Keys
        invariant forall c: Chan, v: Uid :: v in At(present, c) <==> v in users.Keys - todo && Occupies(Ix(), c, v)
        invariant forall c: Chan :: c in present ==> present[c] != {}
        decreases todo
      {
        var u := AnyOf(todo);
        ghost var done := users.Keys - todo;
        IndexUser(u, done);
        todo := todo - {u};
        assert users.Keys - todo == done + {u};
      }
      assert forall c: Chan, v: Uid :: Occupies(old(Ix()), c, v) <==> Occupies(Ix(), c, v);
      RebuiltIs(present, old(Ix()));
    }
  }
}
