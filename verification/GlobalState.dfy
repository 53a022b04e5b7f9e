/**
The state of all users shared by the server's threads, with a memo of the channels per user and client type.
Every operation is atomic: it holds the one lock.
*/
module GlobalState {
  import opened Ordered
  import opened Memberships

  type Uid = nat

  datatype Person = Person(channels: Membership, nick: nat, status: nat, ip: string)

  const UNDEF: nat := 0xffff0000
  const NOBODY := Person(map[], UNDEF, UNDEF, "")

  type Memo = map<Client, set<Chan>>

  datatype Global = Global(people: map<Uid, Person>, memo: map<Uid, Memo>)

  datatype Op =
    | SetUserState(uid: Uid, st: Person)
    | SetNick(uid: Uid, nick: nat)
    | SetStatus(uid: Uid, status: nat)
    | SetIp(uid: Uid, ip: string)
    | PartFrom(uid: Uid, chans: set<Chan>, who: Client)
    | Remove(uid: Uid)
    | Load(packed: map<Uid, Person>)      // set_data and unpack: keys already present keep their value
    | Look(uid: Uid)                      // get_user_state, get_ip, get_status, channel_size
    | UserChannel(uid: Uid, client: Client)
    | InChat(uid: Uid, client: Client)    // inchat$www and inchat$irc

  datatype Answer = Done | Left(chans: set<Chan>) | Seen(p: Person) | Chans(c: set<Chan>) | Yes(b: bool)

  // operator[] of std::map: a missing entry is created.
  function Entry(people: map<Uid, Person>, uid: Uid): map<Uid, Person> {
    if uid in people then people else people[uid := NOBODY]
  }

  function PersonOf(people: map<Uid, Person>, uid: Uid): Person {
    if uid in people then people[uid] else NOBODY
  }

  function Missing(packed: map<Uid, Person>, people: map<Uid, Person>): map<Uid, Person> {
    map u | u in packed && u !in people :: packed[u]
  }

  function MemoOf(memo: map<Uid, Memo>, uid: Uid): Memo { if uid in memo then memo[uid] else map[] }

  // ---------------------------------------------------------------- without the memo

  function PlainState(op: Op, people: map<Uid, Person>): map<Uid, Person> {
    match op
    case SetUserState(u, st) => people[u := st]
    case SetNick(u, n) => people[u := PersonOf(people, u).(nick := n)]
    case SetStatus(u, s) => people[u := PersonOf(people, u).(status := s)]
    case SetIp(u, ip) => people[u := PersonOf(people, u).(ip := ip)]
    case PartFrom(u, chans, t) =>
      if u in people then people[u := people[u].(channels := Parted(people[u].channels, chans, t))] else people
    case Remove(u) => people - {u}
    case Load(packed) => people + Missing(packed, people)
    case Look(u) => Entry(people, u)
    case UserChannel(u, _) => Entry(people, u)
    case InChat(u, _) => Entry(people, u)
  }

  function PlainAnswer(op: Op, people: map<Uid, Person>): Answer {
    match op
    case PartFrom(u, chans, t) => Left(if u in people then LeftBy(people[u].channels, chans, t) else {})
    case Look(u) => Seen(PersonOf(people, u))
    case UserChannel(u, t) => Chans(Of(PersonOf(people, u).channels, t))
    case InChat(u, t) => Yes(Of(PersonOf(people, u).channels, t) != {})
    case _ => Done
  }

  // ---------------------------------------------------------------- with it

  // get_user_channel: answers from the memo, or fills it from the record.
  function Cached(g: Global, u: Uid, t: Client): (set<Chan>, Global) {
    if u in g.memo && t in g.memo[u] then (g.memo[u][t], g)
    else
      var r := Of(PersonOf(g.people, u).channels, t);
      (r, Global(Entry(g.people, u), g.memo[u := MemoOf(g.memo, u)[t := r]]))
  }

  function NextState(op: Op, g: Global): Global {
    match op
    case SetUserState(u, _) => Global(PlainState(op, g.people), g.memo - {u})
    case PartFrom(u, _, _) => Global(PlainState(op, g.people), g.memo - {u})
    case Remove(u) => Global(PlainState(op, g.people), g.memo - {u})
    case UserChannel(u, t) => Cached(g, u, t).1
    case InChat(u, t) => Cached(g, u, t).1
    case _ => g.(people := PlainState(op, g.people))
  }

  function AnswerOf(op: Op, g: Global): Answer {
    match op
    case UserChannel(u, t) => Chans(Cached(g, u, t).0)
    case InChat(u, t) => Yes(Cached(g, u, t).0 != {})
    case _ => PlainAnswer(op, g.people)
  }

  function Answers(ops: seq<Op>, g: Global): seq<Answer> {
    if ops == [] then [] else [AnswerOf(ops[0], g)] + Answers(ops[1..], NextState(ops[0], g))
  }

  function PlainAnswers(ops: seq<Op>, people: map<Uid, Person>): seq<Answer> {
    if ops == [] then [] else [PlainAnswer(ops[0], people)] + PlainAnswers(ops[1..], PlainState(ops[0], people))
  }

  // Only users with a record are remembered, and what is remembered is what the record says.
  ghost predicate Coherent(g: Global) {
    forall u: Uid :: u in g.memo ==>
      u in g.people && forall t :: t in g.memo[u] ==> g.memo[u][t] == Of(g.people[u].channels, t)
  }

  lemma StepIsPlain(op: Op, g: Global)
    requires Coherent(g)
    ensures Coherent(NextState(op, g))
    ensures NextState(op, g).people == PlainState(op, g.people)
    ensures AnswerOf(op, g) == PlainAnswer(op, g.people)
  {
  }

  // Over every run, loading packed data included, no caller can tell that there is a memo.
  lemma {:induction false} MemoIsInvisible(ops: seq<Op>, g: Global)
    requires Coherent(g)
    ensures Answers(ops, g) == PlainAnswers(ops, g.people)
  {
    if ops != [] {
      StepIsPlain(ops[0], g);
      MemoIsInvisible(ops[1..], NextState(ops[0], g));
    }
  }

  // What is read back of any user after any operation: what was stored for that user; the other fields and the
  // other users as they were; nothing after a removal; and packed data only where there was no record.
  lemma ReadBack(op: Op, g: Global, u: Uid)
    requires Coherent(g)
    ensures AnswerOf(Look(u), g).Seen?
    ensures var p := AnswerOf(Look(u), g).p;
      AnswerOf(Look(u), NextState(op, g)) == Seen(
        match op
        case SetUserState(v, st) => if u == v then st else p
        case SetNick(v, n) => if u == v then Person(p.channels, n, p.status, p.ip) else p
        case SetStatus(v, s) => if u == v then Person(p.channels, p.nick, s, p.ip) else p
        case SetIp(v, ip) => if u == v then Person(p.channels, p.nick, p.status, ip) else p
        case PartFrom(v, chans, t) => if u == v then Person(Parted(p.channels, chans, t), p.nick, p.status, p.ip) else p
        case Remove(v) => if u == v then Person(map[], 0xffff0000, 0xffff0000, "") else p
        case Load(packed) => if u !in g.people && u in packed then packed[u] else p
        case _ => p)
  {
    StepIsPlain(op, g);
    if op.PartFrom? && u !in g.people { assert Parted(map[], op.chans, op.who) == map[]; }
  }

  // Who has a record: storing and asking make one, so that a later load does not; parting makes none.
  lemma RecordsAfter(op: Op, g: Global, u: Uid)
    requires Coherent(g)
    ensures u in NextState(op, g).people <==>
      match op
      case PartFrom(_, _, _) => u in g.people
      case Remove(v) => u in g.people && u != v
      case Load(packed) => u in g.people || u in packed
      case _ => u in g.people || u == op.uid
  {
    StepIsPlain(op, g);
  }

  // The channels answered are those the record has for that client, whether or not they are remembered.
  lemma ChannelsReadBack(g: Global, u: Uid, t: Client)
    requires Coherent(g)
    ensures AnswerOf(UserChannel(u, t), g).Chans? && AnswerOf(InChat(u, t), g).Yes? && AnswerOf(Look(u), g).Seen?
    ensures var m := AnswerOf(Look(u), g).p.channels;
      && (forall c :: c in AnswerOf(UserChannel(u, t), g).c <==> c in m && t in m[c])
      && (AnswerOf(InChat(u, t), g).b <==> exists c :: c in m && t in m[c])
  {
    StepIsPlain(UserChannel(u, t), g);
    StepIsPlain(InChat(u, t), g);
    var m := PersonOf(g.people, u).channels;
    assert forall c :: c in Of(m, t) <==> c in m && t in m[c];
    if s :| s in Of(m, t) { assert Of(m, t) != {}; }
  }

  // Were loading to overwrite records, as an assignment would, the memo would stay right if and only if every
  // loaded user who is remembered has the remembered channels.
  lemma OverwritingLoadExact(g: Global, packed: map<Uid, Person>)
    requires Coherent(g)
    ensures Coherent(g.(people := g.people + packed)) <==>
      forall u: Uid, t :: u in g.memo && u in packed && t in g.memo[u] ==> g.memo[u][t] == Of(packed[u].channels, t)
  {
    var h := g.(people := g.people + packed);
    if Coherent(h) {
      forall u: Uid, t | u in g.memo && u in packed && t in g.memo[u]
        ensures g.memo[u][t] == Of(packed[u].channels, t)
      {
        assert h.people[u] == packed[u];
      }
    } else {
      var u: Uid :| u in h.memo && !(u in h.people && forall t :: t in h.memo[u] ==> h.memo[u][t] == Of(h.people[u].channels, t));
      assert u in packed;
    }
  }

  // ---------------------------------------------------------------- the object

  class GlobalStore {
    var people: map<Uid, Person>
    var memo: map<Uid, Memo>

    constructor ()
      ensures G() == Global(map[], map[]) && Coherent(G())
    {
      people, memo := map[], map[];
    }

    ghost function G(): Global
      reads this
    {
      Global(people, memo)
    }

    method SetRecord(uid: Uid, st: Person)
      modifies this
      ensures G() == NextState(SetUserState(uid, st), old(G()))
    {
      people := people[uid := st];
      memo := memo - {uid};
    }

    method Part(uid: Uid, chans: set<Chan>, t: Client) returns (left: set<Chan>)
      modifies this
      ensures G() == NextState(PartFrom(uid, chans, t), old(G()))
      ensures Left(left) == AnswerOf(PartFrom(uid, chans, t), old(G()))
    {
      left := {};
      memo := memo - {uid};
      if uid in people {
        var u := new UserState();
        u.channels := people[uid].channels;
        left := u.PartChannels(chans, t);
        people := people[uid := people[uid].(channels := u.channels)];
      }
    }

    method Erase(uid: Uid)
      modifies this
      ensures G() == NextState(Remove(uid), old(G()))
    {
      people := people - {uid};
      memo := memo - {uid};
    }

    method Unpack(packed: map<Uid, Person>)
      modifies this
      ensures G() == NextState(Load(packed), old(G()))
    {
      ghost var was := people;
      var todo := packed.Keys;
      while todo != {}
        invariant todo <= packed.Keys && memo == old(memo)
        invariant forall u: Uid :: u in people <==> u in was || (u in packed && u !in todo)
        invariant forall u: Uid :: u in people ==> people[u] == if u in was then was[u] else packed[u]
        decreases todo
      {
        var u := AnyOf(todo);
        todo := todo - {u};
        if u !in people { people := people[u := packed[u]]; }
      }
      assert people == was + Missing(packed, was);
    }

    method GetUserChannel(t: Client, uid: Uid) returns (r: set<Chan>)
      modifies this
      ensures G() == NextState(UserChannel(uid, t), old(G()))
      ensures Chans(r) == AnswerOf(UserChannel(uid, t), old(G()))
    {
      if uid in memo && t in memo[uid] {
        return memo[uid][t];
      }
      people := Entry(people, uid);
      var u := new UserState();
      u.channels := people[uid].channels;
      r := u.GetChannel(t);
      memo := memo[uid := MemoOf(memo, uid)[t := r]];
    }

    method InChatAs(t: Client, uid: Uid) returns (yes: bool)
      modifies this
      ensures G() == NextState(InChat(uid, t), old(G()))
      ensures Yes(yes) == AnswerOf(InChat(uid, t), old(G()))
    {
      var r := GetUserChannel(t, uid);
      yes := r != {};
    }
  }
}
