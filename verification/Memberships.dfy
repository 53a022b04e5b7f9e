/**
The channels one user is in: for every channel the client types through which the user is there. The map is
an implementation of a relation between channels and client types.
*/
module Memberships {
  import opened Ordered

  type Chan = nat
  datatype Client = Unknown | Www | Irc

  type Membership = map<Chan, set<Client>>
  type Relation = set<(Chan, Client)>

  predicate Has(m: Membership, c: Chan, t: Client) { c in m && t in m[c] }

  // No channel is kept without a client.
  predicate Clean(m: Membership) { forall c :: c in m ==> m[c] != {} }

  ghost predicate OneWww(m: Membership) { forall c, d :: Has(m, c, Www) && Has(m, d, Www) ==> c == d }

  predicate Chosen(chans: set<Chan>, c: Chan) { chans == {} || c in chans }

  // ---------------------------------------------------------------- what the operations compute

  // get_channel
  function Of(m: Membership, t: Client): set<Chan> {
    set c | c in m && t in m[c]
  }

  function Strip(s: set<Client>, t: Client, chosen: bool): set<Client> {
    if chosen then s - {t} else s
  }

  // A channel goes when its last client does; one that had none already would stay.
  predicate Gone(s: set<Client>, t: Client, chosen: bool) { chosen && s != {} && s - {t} == {} }

  function LeftBy(m: Membership, chans: set<Chan>, t: Client): set<Chan> {
    set c | c in m && Gone(m[c], t, Chosen(chans, c))
  }

  function Parted(m: Membership, chans: set<Chan>, t: Client): Membership {
    map c | c in m && !Gone(m[c], t, Chosen(chans, c)) :: Strip(m[c], t, Chosen(chans, c))
  }

  function Added(m: Membership, c: Chan, t: Client): Membership {
    m[c := (if c in m then m[c] else {}) + {t}]
  }

  function WithoutWww(m: Membership): Membership {
    map c | c in m && m[c] - {Www} != {} :: m[c] - {Www}
  }

  function Replaced(m: Membership, chan: Chan): Membership { Added(WithoutWww(m), chan, Www) }

  // What do_set_user_state does with a JOIN from a client of type t.
  function Joined(m: Membership, c: Chan, t: Client): Membership {
    match t
    case Irc => Added(m, c, Irc)
    case Www => Replaced(m, c)
    case Unknown => m
  }

  // ---------------------------------------------------------------- the relation the map stands for

  function Pairs(m: Membership): Relation {
    set c, t | c in m && t in m[c] :: (c, t)
  }

  function Channels(r: Relation): set<Chan> {
    set p | p in r :: p.0
  }

  datatype Act = Enter(chan: Chan, client: Client) | Leave(chans: set<Chan>, who: Client) | Clear

  function Act1(a: Act, m: Membership): Membership {
    match a
    case Enter(c, t) => Joined(m, c, t)
    case Leave(chans, t) => Parted(m, chans, t)
    case Clear => map[]
  }

  function ActAll(acts: seq<Act>, m: Membership): Membership {
    if acts == [] then m else ActAll(acts[1..], Act1(acts[0], m))
  }

  function RelAct(a: Act, r: Relation): Relation {
    match a
    case Enter(c, Irc) => r + {(c, Irc)}
    case Enter(c, Www) => (set p | p in r && p.1 != Www) + {(c, Www)}
    case Enter(_, Unknown) => r
    case Leave(chans, t) => set p | p in r && !(p.1 == t && (chans == {} || p.0 in chans))
    case Clear => {}
  }

  function RelActAll(acts: seq<Act>, r: Relation): Relation {
    if acts == [] then r else RelActAll(acts[1..], RelAct(acts[0], r))
  }

  lemma PairsAre(m: Membership, r: Relation)
    requires forall c: Chan, t :: Has(m, c, t) <==> (c, t) in r
    ensures Pairs(m) == r
  {
    forall p | p in Pairs(m) || p in r
      ensures p in Pairs(m) && p in r
    {
      assert Has(m, p.0, p.1) <==> (p.0, p.1) in r;
      assert p == (p.0, p.1);
    }
  }

  lemma PartedHas(m: Membership, chans: set<Chan>, t: Client, c: Chan, u: Client)
    ensures Has(Parted(m, chans, t), c, u) <==> Has(m, c, u) && !(u == t && (chans == {} || c in chans))
  {
    if Has(m, c, u) && Gone(m[c], t, Chosen(chans, c)) {
      assert u !in m[c] - {t};
    }
  }

  lemma ReplacedHas(m: Membership, chan: Chan, c: Chan, u: Client)
    ensures Has(Replaced(m, chan), c, u) <==> if u == Www then c == chan else Has(m, c, u)
  {
    if c in m && u != Www && u in m[c] { assert u in m[c] - {Www}; }
  }

  // A JOIN over IRC adds its channel, a JOIN from the web is in no other one.
  lemma JoinedHas(m: Membership, chan: Chan, t: Client, c: Chan, u: Client)
    ensures Has(Joined(m, chan, t), c, u) <==>
      if u != t || u == Unknown then Has(m, c, u) else if u == Www then c == chan else c == chan || Has(m, c, u)
  {
    if t == Www { ReplacedHas(m, chan, c, u); }
  }

  lemma ActKeeps(a: Act, m: Membership)
    requires Clean(m) && OneWww(m)
    ensures Clean(Act1(a, m)) && OneWww(Act1(a, m))
    ensures Pairs(Act1(a, m)) == RelAct(a, Pairs(m))
  {
    var n := Act1(a, m);
    forall c: Chan, u
      ensures Has(n, c, u) <==> (c, u) in RelAct(a, Pairs(m))
    {
      if a.Leave? { PartedHas(m, a.chans, a.who, c, u); }
      if a.Enter? && a.client.Www? { ReplacedHas(m, a.chan, c, u); }
    }
    PairsAre(n, RelAct(a, Pairs(m)));
    forall c: Chan, d: Chan | Has(n, c, Www) && Has(n, d, Www)
      ensures c == d
    {
      assert (c, Www) in RelAct(a, Pairs(m)) && (d, Www) in RelAct(a, Pairs(m));
      assert !(a.Enter? && a.client.Www?) ==> Has(m, c, Www) && Has(m, d, Www);
    }
  }

  // Over every run the map stands for the plain relation edited in the obvious way; no channel is left
  // without a client, and the web client is in one channel at most.
  lemma {:induction false} MapRefinesRelation(acts: seq<Act>, m: Membership)
    requires Clean(m) && OneWww(m)
    ensures Clean(ActAll(acts, m)) && OneWww(ActAll(acts, m))
    ensures Pairs(ActAll(acts, m)) == RelActAll(acts, Pairs(m))
  {
    if acts != [] {
      ActKeeps(acts[0], m);
      MapRefinesRelation(acts[1..], Act1(acts[0], m));
    }
  }

  // The relation determines the map, as long as no channel is empty.
  lemma CleanIsCanonical(m: Membership, n: Membership)
    requires Clean(m) && Clean(n) && Pairs(m) == Pairs(n)
    ensures m == n
  {
    forall c: Chan, t
      ensures Has(m, c, t) <==> Has(n, c, t)
    {
      assert Has(m, c, t) <==> (c, t) in Pairs(m);
      assert Has(n, c, t) <==> (c, t) in Pairs(n);
    }
    forall c
      ensures c in m <==> c in n
    {
      if c in m { var t :| t in m[c]; assert Has(m, c, t); }
      if c in n { var t :| t in n[c]; assert Has(n, c, t); }
    }
    forall c | c in m
      ensures m[c] == n[c]
    {
      forall t
        ensures t in m[c] <==> t in n[c]
      {
        assert Has(m, c, t) <==> Has(n, c, t);
      }
    }
  }

  // Which channels go: those named, or all if none is named, where the parting client was the only one. A
  // channel with no client at all stays.
  lemma LeftExact(m: Membership, chans: set<Chan>, t: Client, c: Chan)
    ensures c in LeftBy(m, chans, t) <==> c in m && m[c] == {t} && (chans == {} || c in chans)
    ensures c in Parted(m, chans, t) <==> c in m && c !in LeftBy(m, chans, t)
  {
    if c in m && m[c] != {} && m[c] - {t} == {} {
      forall u
        ensures u in m[c] <==> u in {t}
      {
        if u in m[c] { assert u !in m[c] - {t}; }
      }
      assert m[c] == {t};
    }
  }

  // What part_channels returns is what the user has left altogether.
  lemma PartReturnsChannelsLeft(m: Membership, chans: set<Chan>, t: Client)
    requires Clean(m)
    ensures LeftBy(m, chans, t) == Channels(Pairs(m)) - Channels(Pairs(Parted(m, chans, t)))
  {
    var n := Parted(m, chans, t);
    forall c
      ensures c in Channels(Pairs(m)) <==> c in m
      ensures c in Channels(Pairs(n)) <==> c in n
    {
      if c in m { var u :| u in m[c]; assert (c, u) in Pairs(m); }
      if c in n { var u :| u in n[c]; assert (c, u) in Pairs(n); }
    }
  }

  // After both client types have parted from everywhere, in either order, nothing remains.
  lemma BothPartEmpties(m: Membership, t: Client)
    requires Clean(m) && t != Unknown && forall c :: !Has(m, c, Unknown)
    ensures ActAll([Leave({}, t), Leave({}, if t == Www then Irc else Www)], m) == map[]
  {
    var a := Parted(m, {}, t);
    var u := if t == Www then Irc else Www;
    var b := Parted(a, {}, u);
    assert ActAll([Leave({}, t), Leave({}, u)], m) == ActAll([Leave({}, u)], a) == ActAll([], b);
    forall c | c in b
      ensures false
    {
      assert b[c] != {};
      var v :| v in b[c];
      assert Has(b, c, v);
      PartedHas(a, {}, u, c, v);
      PartedHas(m, {}, t, c, v);
    }
    assert b.Keys == {};
  }

  // ---------------------------------------------------------------- the object

  lemma StrippedIs(now: Membership, m: Membership, chans: set<Chan>, t: Client)
    requires now.Keys == m.Keys - LeftBy(m, chans, t)
    requires forall c :: c in now ==> now[c] == Strip(m[c], t, Chosen(chans, c))
    ensures now == Parted(m, chans, t)
  {
    forall c
      ensures c in now <==> c in Parted(m, chans, t)
    {
      assert c in now.Keys <==> c in m.Keys - LeftBy(m, chans, t);
    }
  }

  lemma WithoutWwwIs(now: Membership, m: Membership)
    requires forall c :: c in now <==> c in m && m[c] - {Www} != {}
    requires forall c :: c in now ==> now[c] == m[c] - {Www}
    ensures now == WithoutWww(m)
  {
  }

  class UserState {
    var channels: Membership

    constructor ()
      ensures channels == map[]
    {
      channels := map[];
    }

    method GetChannel(t: Client) returns (r: set<Chan>)
      ensures r == Of(channels, t)
      ensures forall c :: c in r <==> c in channels && t in channels[c]
    {
      r := {};
      var todo := channels.Keys;
      while todo != {}
        invariant todo <= channels.Keys
        invariant forall c :: c in r <==> c in channels && c !in todo && t in channels[c]
        decreases todo
      {
        var c := AnyOf(todo);
        todo := todo - {c};
        if t in channels[c] { r := r + {c}; }
      }
    }

    method ChannelAdd(t: Client, c: Chan)
      modifies this
      ensures channels == Added(old(channels), c, t)
    {
      channels := channels[c := (if c in channels then channels[c] else {}) + {t}];
    }

    method EraseChannels(rm: set<Chan>)
      modifies this
      ensures channels == old(channels) - rm
    {
      channels := channels - rm;
    }

    method WwwChannelReplace(chan: Chan)
      modifies this
      ensures channels == Replaced(old(channels), chan)
    {
      ghost var m := channels;
      var rm, todo := {}, channels.Keys;
      while todo != {}
        invariant channels.Keys == m.Keys && todo <= m.Keys
        invariant forall c :: c in m ==> channels[c] == if c in todo then m[c] else m[c] - {Www}
        invariant forall c :: c in rm <==> c in m && c !in todo && m[c] - {Www} == {}
        decreases todo
      {
        var c := AnyOf(todo);
        todo := todo - {c};
        channels := channels[c := channels[c] - {Www}];
        if channels[c] == {} { rm := rm + {c}; }
      }
      EraseChannels(rm);
      WithoutWwwIs(channels, m);
      ChannelAdd(Www, chan);
    }

    // One channel of part_channels.
    method PartOne(c: Chan, chans: set<Chan>, t: Client) returns (gone: bool)
      requires c in channels
      modifies this
      ensures channels == old(channels)[c := Strip(old(channels)[c], t, Chosen(chans, c))]
      ensures gone == Gone(old(channels)[c], t, Chosen(chans, c))
    {
      gone := false;
      assert channels[c := channels[c]] == channels && {} - {t} == {};
      if (chans == {} || c in chans) && channels[c] != {} {
        channels := channels[c := channels[c] - {t}];
        gone := channels[c] == {};
      }
    }

    method PartChannels(chans: set<Chan>, t: Client) returns (rm: set<Chan>)
      modifies this
      ensures rm == LeftBy(old(channels), chans, t)
      ensures channels == Parted(old(channels), chans, t)
    {
      ghost var m := channels;
      var todo := channels.Keys;
      rm := {};
      while todo != {}
        invariant channels.Keys == m.Keys && todo <= m.Keys
        invariant forall c :: c in m ==> channels[c] == if c in todo then m[c] else Strip(m[c], t, Chosen(chans, c))
        invariant forall c :: c in rm <==> c in m && c !in todo && Gone(m[c], t, Chosen(chans, c))
        decreases todo
      {
        var c := AnyOf(todo);
        todo := todo - {c};
        var gone := PartOne(c, chans, t);
        if gone { rm := rm + {c}; }
      }
      EraseChannels(rm);
      StrippedIs(channels, m, chans, t);
    }
  }
}
