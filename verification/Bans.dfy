/**
The ban registry: the bans by id, and an index from channel and user to a ban, rebuilt after every change. A
ban that has run out stays until somebody asks for it. Times are seconds and positive.
*/
module Bans {
  import opened Options
  import opened Ordered

  type BanId = nat
  type Key = (nat, nat)        // channel and user

  datatype Item = Item(
    id: BanId, channel: nat, uid: nat, begins: nat, ends: nat, admUid: nat, admName: string, userName: string, alevel: int)

  // klap_item()
  const EMPTY := Item(0, 0, 0, 0, 0, 0, "", "", 0)

  type Index = map<Key, BanId>

  datatype State = State(items: map<BanId, Item>, byUid: Index, now: nat)

  function KeyOf(i: Item): Key { (i.channel, i.uid) }

  // ---------------------------------------------------------------- operations

  // rebuild_NM: later ids overwrite earlier ones.
  function IndexOf(ids: seq<BanId>, items: map<BanId, Item>, now: nat, index: Index): Index {
    if ids == [] then index
    else
      IndexOf(ids[1..], items, now,
        if ids[0] in items && items[ids[0]].ends >= now then index[KeyOf(items[ids[0]]) := items[ids[0]].id] else index)
  }

  function Rebuilt(st: State): State {
    st.(byUid := IndexOf(Ascending(st.items.Keys), st.items, st.now, map[]))
  }

  // ck_ban; user ids are read as signed 32-bit numbers.
  predicate Acceptable(i: Item, now: nat) {
    && now <= i.ends && i.begins < i.ends
    && 0 < i.admUid < 0x8000_0000 && 0 < i.uid < 0x8000_0000
    && i.admName != "" && i.userName != "" && i.alevel != 0
  }

  function Without(st: State, id: BanId): State {
    if id in st.items then Rebuilt(st.(items := st.items - {id})) else st
  }

  // check_ban_by_uid
  function Check(st: State, k: Key): (bool, State) {
    if k !in st.byUid then (false, st)
    else
      var id := st.byUid[k];
      // operator[] creates a missing item
      var item := if id in st.items then st.items[id] else EMPTY;
      var st1 := st.(items := st.items[id := item]);
      if item.ends < st.now then (false, Without(st1, id)) else (true, st1)
  }

  datatype Step = Tick(d: nat) | Add(item: Item) | Remove(id: BanId) | NextId | Ask(key: Key) | Clear

  function Next(p: Step, st: State): State {
    match p
    case Tick(d) => st.(now := st.now + d)
    case Add(i) => if Acceptable(i, st.now) then Rebuilt(st.(items := st.items[i.id := i])) else st
    case Remove(id) => Without(st, id)
    case NextId =>
      // a placeholder keeps the id taken
      var r := Greatest(st.items.Keys) + 1;
      st.(items := st.items[r := EMPTY.(id := r)])
    case Ask(k) => Check(st, k).1
    case Clear => st.(items := map[], byUid := map[])
  }

  function Run(ps: seq<Step>, st: State): State { if ps == [] then st else Run(ps[1..], Next(ps[0], st)) }

  // ---------------------------------------------------------------- invariant

  // A ban of user and channel k that has not run out.
  predicate InForce(st: State, id: BanId, k: Key) { id in st.items && KeyOf(st.items[id]) == k && st.items[id].ends >= st.now }

  ghost predicate Banned(st: State, k: Key) { exists id: BanId :: InForce(st, id, k) }

  ghost predicate Sound(st: State) {
    forall k: Key :: k in st.byUid ==> st.byUid[k] in st.items && KeyOf(st.items[st.byUid[k]]) == k
  }

  ghost predicate Complete(st: State) {
    forall id: BanId, k: Key :: InForce(st, id, k) ==> k in st.byUid
  }

  ghost predicate Named(st: State) { forall id: BanId :: id in st.items ==> st.items[id].id == id }

  ghost predicate Inv(st: State) { st.now > 0 && Named(st) && Sound(st) && Complete(st) }

  // The rebuilt index names the highest unexpired ban of each user and channel, and nothing else.
  lemma {:induction false} IndexLooks(ids: seq<BanId>, items: map<BanId, Item>, now: nat, index: Index, k: Key)
    requires forall id: BanId :: id in items ==> items[id].id == id
    requires forall i, j :: 0 <= i < j < |ids| ==> ids[i] < ids[j]
    ensures var r := Lookup(IndexOf(ids, items, now, index), k);
      || (r == Lookup(index, k) && forall id :: id in ids && id in items && KeyOf(items[id]) == k ==> items[id].ends < now)
      || (r.Some? && r.value in ids && r.value in items && KeyOf(items[r.value]) == k && items[r.value].ends >= now
          && forall id :: id in ids && id in items && KeyOf(items[id]) == k && items[id].ends >= now ==> id <= r.value)
  {
    if ids != [] {
      var index1 := if ids[0] in items && items[ids[0]].ends >= now then index[KeyOf(items[ids[0]]) := items[ids[0]].id] else index;
      assert ids == [ids[0]] + ids[1..];
      forall id | id in ids[1..]
        ensures ids[0] < id
      {
        var j :| 0 <= j < |ids[1..]| && ids[1..][j] == id;
        assert ids[j + 1] == id;
      }
      IndexLooks(ids[1..], items, now, index1, k);
    }
  }

  lemma RebuiltLooks(st: State, k: Key)
    requires Named(st)
    ensures match Lookup(Rebuilt(st).byUid, k)
      case None => !Banned(st, k)
      case Some(id) => InForce(st, id, k) && forall other: BanId :: InForce(st, other, k) ==> other <= id
  {
    AscendingIsSorted(st.items.Keys);
    IndexLooks(Ascending(st.items.Keys), st.items, st.now, map[], k);
  }

  lemma RebuiltIsInv(st: State)
    requires st.now > 0 && Named(st)
    ensures Inv(Rebuilt(st))
  {
    var r := Rebuilt(st);
    forall k: Key
      ensures k in r.byUid ==> r.byUid[k] in r.items && KeyOf(r.items[r.byUid[k]]) == k
    {
      RebuiltLooks(st, k);
    }
    forall id: BanId, k: Key | InForce(r, id, k)
      ensures k in r.byUid
    {
      RebuiltLooks(st, k);
      assert InForce(st, id, k);
    }
  }

  lemma StepKeepsInv(p: Step, st: State)
    requires Inv(st)
    ensures Inv(Next(p, st))
  {
    match p
    case Tick(_) =>
      assert forall id: BanId, k: Key :: InForce(Next(p, st), id, k) ==> InForce(st, id, k);
    case Add(i) => if Acceptable(i, st.now) { RebuiltIsInv(st.(items := st.items[i.id := i])); }
    case Remove(id) => if id in st.items { RebuiltIsInv(st.(items := st.items - {id})); }
    case NextId =>
      assert forall id: BanId, k: Key :: InForce(Next(p, st), id, k) ==> InForce(st, id, k);
    case Ask(k) => CheckKeepsInv(st, k);
    case Clear =>
  }

  lemma CheckKeepsInv(st: State, k: Key)
    requires Inv(st)
    ensures Inv(Check(st, k).1)
  {
    if k in st.byUid {
      var id := st.byUid[k];
      assert st.items[id := st.items[id]] == st.items;
      if st.items[id].ends < st.now { RebuiltIsInv(st.(items := st.items - {id})); }
    }
  }

  lemma {:induction false} RunKeepsInv(ps: seq<Step>, st: State)
    requires Inv(st)
    ensures Inv(Run(ps, st))
  {
    if ps != [] {
      StepKeepsInv(ps[0], st);
      RunKeepsInv(ps[1..], Next(ps[0], st));
    }
  }

  // ---------------------------------------------------------------- answers

  // A yes is always right. A no is wrong exactly when the ban indexed has run out and another one is in
  // force; that is put right by the asking.
  lemma CheckExact(st: State, k: Key)
    requires Inv(st)
    ensures Check(st, k).0 <==> Banned(st, k) && st.items[st.byUid[k]].ends >= st.now
    ensures Banned(Check(st, k).1, k) <==> Banned(st, k)
  {
    var (yes, st1) := Check(st, k);
    if k in st.byUid {
      var b := st.byUid[k];
      assert st.items[b := st.items[b]] == st.items;
      if yes {
        assert InForce(st, b, k);
      } else {
        assert st1.items == st.items - {b} && st1.now == st.now;
        forall id: BanId
          ensures InForce(st1, id, k) <==> InForce(st, id, k)
        {
        }
      }
    }
  }

  // Of two consecutive questions at one time the second is answered right, in every reachable state.
  lemma SecondAnswerIsRight(ps: seq<Step>, start: nat, k: Key)
    requires start > 0
    ensures var st := Run(ps, State(map[], map[], start));
      Check(Check(st, k).1, k).0 <==> Banned(st, k)
  {
    RunKeepsInv(ps, State(map[], map[], start));
    var st := Run(ps, State(map[], map[], start));
    var (yes, st1) := Check(st, k);
    CheckExact(st, k);
    CheckKeepsInv(st, k);
    CheckExact(st1, k);
    if !yes && k in st.byUid {
      var id := st.byUid[k];
      assert st.items[id := st.items[id]] == st.items;
      RebuiltLooks(st.(items := st.items - {id}), k);
    }
  }

  // What a step does to every ban: time ends it, a valid ban is added under its id, one is removed, an invalid
  // one changes nothing, and asking or taking an id disturbs none.
  lemma BansAfter(p: Step, st: State, id: BanId, k: Key)
    requires Inv(st)
    ensures InForce(Next(p, st), id, k) <==>
      match p
      case Tick(d) => InForce(st, id, k) && st.items[id].ends >= st.now + d
      case Add(i) =>
        if id == i.id && st.now <= i.ends && i.begins < i.ends && 0 < i.admUid < 0x8000_0000 && 0 < i.uid < 0x8000_0000
           && |i.admName| > 0 && |i.userName| > 0 && i.alevel != 0
        then k == (i.channel, i.uid)
        else InForce(st, id, k)
      case Remove(r) => id != r && InForce(st, id, k)
      case NextId => InForce(st, id, k)
      case Ask(_) => InForce(st, id, k)
      case Clear => false
  {
    match p
    case Ask(q) =>
      if q in st.byUid {
        var b := st.byUid[q];
        assert st.items[b := st.items[b]] == st.items;
      }
    case _ =>
  }

  // Which bans are taken, said without the predicate above: anything else changes nothing at all.
  lemma RefusedExact(i: Item, st: State)
    ensures st.now <= i.ends && i.begins < i.ends && 0 < i.admUid < 0x8000_0000 && 0 < i.uid < 0x8000_0000
            && |i.admName| > 0 && |i.userName| > 0 && i.alevel != 0
      <==> Acceptable(i, st.now)
    ensures Acceptable(i, st.now) ==> Next(Add(i), st).items == st.items[i.id := i]
    ensures !Acceptable(i, st.now) ==> Next(Add(i), st) == st
  {
  }

  lemma RebuiltAnswers(st: State, k: Key)
    requires st.now > 0 && Named(st)
    ensures Check(Rebuilt(st), k).0 <==> Banned(st, k)
  {
    RebuiltIsInv(st);
    RebuiltLooks(st, k);
    CheckExact(Rebuilt(st), k);
    assert forall id: BanId :: InForce(Rebuilt(st), id, k) <==> InForce(st, id, k);
  }

  // Right after a removal the user is banned if and only if another ban is in force; so the ban removed bans
  // no longer.
  lemma RemovedBansNoLonger(st: State, id: BanId, k: Key)
    requires Inv(st) && id in st.items
    ensures Check(Next(Remove(id), st), k).0 <==> exists other: BanId :: other != id && InForce(st, other, k)
  {
    var u := st.(items := st.items - {id});
    RebuiltAnswers(u, k);
    assert forall other: BanId :: InForce(u, other, k) <==> other != id && InForce(st, other, k);
  }

  // Right after a valid ban its user is banned in its channel, and everybody else is if and only if another ban
  // says so.
  lemma AddedBans(st: State, i: Item, k: Key)
    requires Inv(st) && st.now <= i.ends && i.begins < i.ends && 0 < i.admUid < 0x8000_0000 && 0 < i.uid < 0x8000_0000
    requires |i.admName| > 0 && |i.userName| > 0 && i.alevel != 0
    ensures Check(Next(Add(i), st), k).0 <==>
      k == (i.channel, i.uid) || exists other: BanId :: other != i.id && InForce(st, other, k)
  {
    var u := st.(items := st.items[i.id := i]);
    RebuiltAnswers(u, k);
    assert InForce(u, i.id, k) <==> k == (i.channel, i.uid);
    assert forall other: BanId :: other != i.id ==> (InForce(u, other, k) <==> InForce(st, other, k));
  }

  // An id handed out is new, so its placeholder disturbs no ban, and adding under it replaces only that.
  lemma NextIdIsFresh(st: State)
    requires Inv(st)
    ensures var r := Greatest(st.items.Keys) + 1;
      r !in st.items && Next(NextId, st).items.Keys == st.items.Keys + {r}
      && forall k: Key :: Banned(Next(NextId, st), k) <==> Banned(st, k)
  {
    var t := Next(NextId, st);
    assert forall id: BanId, k: Key :: InForce(t, id, k) <==> InForce(st, id, k);
    forall k: Key
      ensures Banned(t, k) <==> Banned(st, k)
    {
      if Banned(t, k) { var id: BanId :| InForce(t, id, k); assert InForce(st, id, k); }
      if Banned(st, k) { var id: BanId :| InForce(st, id, k); assert InForce(t, id, k); }
    }
  }

  // The first answer can be wrong: the longer ban has the lower id.
  lemma FirstAnswerCanBeWrong()
    ensures var long, short := Item(1, 7, 9, 1, 100, 3, "a", "u", 1), Item(2, 7, 9, 1, 10, 3, "a", "u", 1);
      var st := Run([Add(long), Add(short), Tick(20)], State(map[], map[], 1));
      Banned(st, (7, 9)) && !Check(st, (7, 9)).0
  {
    var long, short := Item(1, 7, 9, 1, 100, 3, "a", "u", 1), Item(2, 7, 9, 1, 10, 3, "a", "u", 1);
    var s0 := State(map[], map[], 1);
    var s1 := Next(Add(long), s0);
    var s2 := Next(Add(short), s1);
    var s3 := Next(Tick(20), s2);
    var u := s1.(items := s1.items[2 := short]);
    assert s1.items == map[1 := long] && s2 == Rebuilt(u) && s3 == s2.(now := 21);
    RebuiltLooks(u, (7, 9));
    assert InForce(u, 2, (7, 9)) && InForce(u, 1, (7, 9));
    assert InForce(s3, 1, (7, 9));
    assert s3.byUid[(7, 9)] == 2;
    var p, q, r := Add(long), Add(short), Tick(20);
    assert [p, q, r][1..] == [q, r] && [q, r][1..] == [r] && [r][1..] == [];
    assert Run([r], s2) == Run([], s3) && Run([q, r], s1) == Run([r], s2) && Run([p, q, r], s0) == Run([q, r], s1);
  }

  // ---------------------------------------------------------------- the object

  class Registry {
    var items: map<BanId, Item>
    var byUid: Index

    ghost function St(now: nat): State
      reads this
    {
      State(items, byUid, now)
    }

    method RebuildNM(now: nat)
      modifies this`byUid
      ensures St(now) == Rebuilt(old(St(now)))
    {
      byUid := map[];
      var ids := Ascending(items.Keys);
      while ids != []
        invariant IndexOf(ids, items, now, byUid) == IndexOf(Ascending(items.Keys), items, now, map[])
      {
        var id := ids[0];
        if id in items && items[id].ends >= now { byUid := byUid[KeyOf(items[id]) := items[id].id]; }
        ids := ids[1..];
      }
    }

    method AddKlap(item: Item, now: nat) returns (ok: bool)
      modifies this
      ensures St(now) == Next(Add(item), old(St(now))) && ok == Acceptable(item, now)
    {
      ok := Acceptable(item, now);
      if ok {
        items := items[item.id := item];
        RebuildNM(now);
      }
    }

    method RemoveKlap(id: BanId, now: nat) returns (found: bool)
      modifies this
      ensures St(now) == Without(old(St(now)), id) && found == (id in old(items))
      ensures items == old(items) - {id}
    {
      found := id in items;
      assert !found ==> items - {id} == items;
      if found {
        items := items - {id};
        RebuildNM(now);
      }
    }

    method GetNextKlapId() returns (r: BanId)
      modifies this`items
      ensures forall now :: St(now) == Next(NextId, old(State(items, byUid, now)))
      ensures r !in old(items)
    {
      r := 0;
      var todo := Ascending(items.Keys);
      ghost var all := todo;
      while todo != []
        invariant items == old(items) && forall id :: id in all ==> id in todo || id <= r
        invariant r == 0 || r in items
        invariant forall id :: id in todo ==> id in items
      {
        assert todo == [todo[0]] + todo[1..];
        if todo[0] > r { r := todo[0]; }
        todo := todo[1..];
      }
      assert r == Greatest(items.Keys);
      r := r + 1;
      items := items[r := EMPTY.(id := r)];
    }

    method CheckBanByUid(k: Key, now: nat) returns (banned: bool, bi: Item)
      modifies this
      ensures (banned, St(now)) == Check(old(St(now)), k)
      ensures banned ==> k in byUid && byUid[k] in items && bi == items[byUid[k]]
      ensures Inv(old(St(now))) && banned ==> (bi.channel, bi.uid) == k && now <= bi.ends && bi in old(items.Values)
    {
      bi := EMPTY;
      if k !in byUid { return false, bi; }
      var id := byUid[k];
      if id !in items { items := items[id := EMPTY]; }
      bi := items[id];
      assert items == old(items)[id := bi];
      if bi.ends < now {
        var _ := RemoveKlap(id, now);
        return false, bi;
      }
      banned := true;
    }
  }
}
