/**
Which folder a note goes to: the filters, the two default folders, and where the guarantees about them end.
*/
module NoteRouting {
  import opened Options
  import opened Ordered
  import opened NoteBox
  import opened NoteReplay
  import opened NoteMailbox

  // At most one folder's filter names z.
  ghost predicate OneNames(b: Box, way: Way, z: Uid) {
    forall f, g :: f in Naming(b, way, z) && g in Naming(b, way, z) ==> f == g
  }

  // Then it does not matter in which order the folders are searched.
  lemma RouteIsTheOne(b: Box, way: Way, z: Uid, f: FolderId)
    requires OneNames(b, way, z) && f in Naming(b, way, z)
    ensures Route(b, way, z) == f
  {
  }

  lemma RedirectNaming(b: Box, way: Way, f: FolderId, z: Uid, w: Way, k: Uid)
    ensures Naming(RedirectEffect(b, way, f, z), w, k) == if w == way && k == z then {f} else Naming(b, w, k)
  {
    var b1 := ClearFilters(b, way, b.folders.Keys, z);
    assert Naming(b1, w, k) == if w == way && k == z then {} else Naming(b, w, k);
    assert Get(b1, f) == if f in b.folders then b1.folders[f] else NEW_FOLDER;
  }

  lemma TakeFromNaming(b: Box, f: FolderId, m: MsgId, w: Way, k: Uid)
    ensures Naming(TakeFrom(b, f, m), w, k) == Naming(b, w, k)
  {
  }

  // Moving a message keeps every correspondent, and the default key, in at most one folder, and with
  // "save filter" puts the correspondent in the target folder alone, wherever he was before.
  lemma MoveKeepsOneNames(b: Box, uid: Uid, fold: FolderId, to: FolderId, m: MsgId, save: bool, w: Way, k: Uid)
    requires m in b.heads && OneNames(b, w, k)
    ensures OneNames(MoveEffect(b, uid, fold, to, m, save), w, k)
    ensures save && b.heads[m].toUid == uid ==>
      Naming(MoveEffect(b, uid, fold, to, m, save), Incoming, b.heads[m].fromUid) == {to}
    ensures save && b.heads[m].fromUid == uid && b.heads[m].toUid != 0 ==>
      Naming(MoveEffect(b, uid, fold, to, m, save), Outgoing, b.heads[m].toUid) == {to}
  {
    var h := b.heads[m];
    var b1 := TakeFrom(b, fold, m);
    TakeFromNaming(b, fold, m, w, k);
    RedirectNaming(b1, Outgoing, to, h.toUid, w, k);
    RedirectNaming(b1, Outgoing, to, h.toUid, Outgoing, h.toUid);
    var b2 := if save && h.fromUid == uid && h.toUid != 0 then RedirectEffect(b1, Outgoing, to, h.toUid) else b1;
    RedirectNaming(b2, Incoming, to, h.fromUid, w, k);
    RedirectNaming(b2, Incoming, to, h.fromUid, Incoming, h.fromUid);
    RedirectNaming(b2, Incoming, to, h.fromUid, Outgoing, h.toUid);
  }

  lemma DropPutNaming(b: Box, way: Way, f: FolderId, dest: FolderId, w: Way, k: Uid)
    requires f in b.folders && dest in b.folders && f != dest
    ensures Naming(PutFilter(DropFilter(b, way, f, 0), way, dest, 0), w, k)
         == if w == way && k == 0 then Naming(b, way, 0) - {f} + {dest} else Naming(b, w, k)
  {
    var b1 := DropFilter(b, way, f, 0);
    assert Naming(b1, w, k) == if w == way && k == 0 then Naming(b, way, 0) - {f} else Naming(b, w, k);
    assert Get(b1, dest) == b.folders[dest];
  }

  // Choosing a default folder leaves at most one default exactly when at most one other folder had it; with
  // none before there is none afterwards.
  lemma ChooseLeavesOne(b: Box, way: Way, dest: FolderId)
    requires dest in b.folders
    ensures OneNames(SettingsEffect(b, way, dest), way, 0)
       <==> forall f, g :: f in OtherDefaults(b, way, dest) && g in OtherDefaults(b, way, dest) ==> f == g
    ensures Naming(SettingsEffect(b, way, dest), way, 0) == {} <==> Naming(b, way, 0) == {}
  {
    var others, after := OtherDefaults(b, way, dest), Naming(SettingsEffect(b, way, dest), way, 0);
    if others == {} {
      assert Naming(b, way, 0) <= {dest};
    } else {
      var f := Least(others);
      DropPutNaming(b, way, f, dest, way, 0);
      assert after == others - {f} + {dest};
      forall g | g in others && g != f
        ensures !OneNames(SettingsEffect(b, way, dest), way, 0)
      {
        assert g in after && dest in after;
      }
    }
  }

  lemma WithDefaultNaming(b: Box, way: Way, name: string, w: Way, k: Uid)
    ensures Naming(WithDefault(b, way, name), w, k)
         == Naming(b, w, k) + if Route(b, way, 0) == 0 && w == way && k == 0 then {NextId(b.folders.Keys)} else {}
  {
    var f := NextId(b.folders.Keys);
    assert f !in b.folders;
    assert forall g :: g in b.folders ==> (g in Naming(WithDefault(b, way, name), w, k) <==> g in Naming(b, w, k));
  }

  // After check_notes_config both defaults exist, so sending finds a folder in each mailbox.
  lemma CheckMakesDefaults(b: Box, inName: string, outName: string, way: Way)
    ensures Route(CheckEffect(b, inName, outName), way, 0) != 0
  {
    var b1 := WithDefault(b, Incoming, inName);
    var b2 := WithDefault(b1, Outgoing, outName);
    WithDefaultNaming(b, Incoming, inName, way, 0);
    WithDefaultNaming(b1, Outgoing, outName, way, 0);
    assert Naming(DropOrphans(b2), way, 0) == Naming(b2, way, 0);
    OtherWayUnchanged(b, inName);
    if way.Incoming? {
      if Route(b, way, 0) == 0 { assert NextId(b.folders.Keys) in Naming(b2, way, 0); }
      else { assert Route(b, way, 0) in Naming(b2, way, 0); }
    } else {
      if Route(b1, way, 0) == 0 { assert NextId(b1.folders.Keys) in Naming(b2, way, 0); }
      else { assert Route(b1, way, 0) in Naming(b2, way, 0); }
    }
  }

  // It keeps each default unique exactly when folder number 0 does not hold it: the search reports
  // "none" as 0, so a default in folder 0 is overlooked and a second one is made.
  lemma CheckKeepsOneDefault(b: Box, inName: string, outName: string, way: Way)
    ensures OneNames(CheckEffect(b, inName, outName), way, 0)
       <==> OneNames(b, way, 0) && 0 !in Naming(b, way, 0)
  {
    var b1 := WithDefault(b, Incoming, inName);
    var b2 := WithDefault(b1, Outgoing, outName);
    WithDefaultNaming(b, Incoming, inName, way, 0);
    WithDefaultNaming(b1, Outgoing, outName, way, 0);
    OtherWayUnchanged(b, inName);
    assert Naming(DropOrphans(b2), way, 0) == Naming(b2, way, 0);
    var n := if way.Incoming? then NextId(b.folders.Keys) else NextId(b1.folders.Keys);
    if Route(b, way, 0) == 0 {
      assert Naming(b2, way, 0) == Naming(b, way, 0) + {n};
      assert Naming(b, way, 0) <= {0};
    } else {
      assert Naming(b2, way, 0) == Naming(b, way, 0);
      assert Route(b, way, 0) in Naming(b, way, 0);
    }
  }

  // Folders 1, 2 and 3, of which those in s hold the incoming default.
  function ThreeFolders(s: set<FolderId>): Box {
    Box(map f | f in {1, 2, 3} :: if f in s then NEW_FOLDER.(filterIn := {0}) else NEW_FOLDER, map[])
  }

  lemma ThreeFoldersDrop(s: set<FolderId>, f: FolderId)
    requires s <= {1, 2, 3} && f in {1, 2, 3}
    ensures Apply(FilterInDelete(f, 0), ThreeFolders(s)) == DropFilter(ThreeFolders(s), Incoming, f, 0) == ThreeFolders(s - {f})
  {
    assert {0} - {0} == {} && {} - {0} == {};
    assert Apply(FilterInDelete(f, 0), ThreeFolders(s)).folders == ThreeFolders(s - {f}).folders;
  }

  lemma ThreeFoldersPut(s: set<FolderId>, f: FolderId)
    requires s <= {1, 2, 3} && f in {1, 2, 3}
    ensures Apply(FilterInInsert(f, 0), ThreeFolders(s)) == PutFilter(ThreeFolders(s), Incoming, f, 0) == ThreeFolders(s + {f})
  {
    assert {} + {0} == {0} + {0} == {0};
    assert Apply(FilterInInsert(f, 0), ThreeFolders(s)).folders == ThreeFolders(s + {f}).folders;
  }

  lemma ThreeFoldersSteps(s: set<FolderId>, f: FolderId)
    requires s <= {1, 2, 3} && f in {1, 2, 3}
    ensures Naming(ThreeFolders(s), Incoming, 0) == s
    ensures Apply(FilterInDelete(f, 0), ThreeFolders(s)) == DropFilter(ThreeFolders(s), Incoming, f, 0) == ThreeFolders(s - {f})
    ensures Apply(FilterInInsert(f, 0), ThreeFolders(s)) == PutFilter(ThreeFolders(s), Incoming, f, 0) == ThreeFolders(s + {f})
  {
    ThreeFoldersDrop(s, f);
    ThreeFoldersPut(s, f);
  }

  lemma ThreeFoldersChoose(s: set<FolderId>, dest: FolderId, f: FolderId)
    requires s <= {1, 2, 3} && dest in {1, 2, 3} && f in s && f != dest
    requires forall g :: g in s && g != dest ==> f <= g
    ensures SettingsEffect(ThreeFolders(s), Incoming, dest) == ThreeFolders(s - {f} + {dest})
  {
    ThreeFoldersSteps(s, f);
    ThreeFoldersSteps(s - {f}, dest);
    assert OtherDefaults(ThreeFolders(s), Incoming, dest) == s - {dest};
    assert f in s - {dest};
    assert Least(s - {dest}) == f;
  }

  lemma TwoChoices()
    ensures SettingsEffect(SettingsEffect(ThreeFolders({1}), Incoming, 2), Incoming, 3) == ThreeFolders({3})
  {
    ThreeFoldersChoose({1}, 2, 1);
    assert {1} - {1} + {2} == {2};
    ThreeFoldersChoose({2}, 3, 2);
    assert {2} - {2} + {3} == {3};
  }

  lemma FirstPairReplayed()
    ensures Apply(FilterInInsert(2, 0), Apply(FilterInDelete(1, 0), ThreeFolders({3}))) == ThreeFolders({2, 3})
  {
    ThreeFoldersSteps({3}, 1);
    assert {3} - {1} == {3};
    ThreeFoldersSteps({3}, 2);
    assert {3} + {2} == {2, 3};
  }

  lemma ThirdChoiceThenReplay()
    ensures SettingsEffect(ThreeFolders({2, 3}), Incoming, 1) == ThreeFolders({1, 3})
    ensures Apply(FilterInDelete(2, 0), ThreeFolders({1, 3})) == ThreeFolders({1, 3})
    ensures Apply(FilterInInsert(3, 0), ThreeFolders({1, 3})) == ThreeFolders({1, 3})
    ensures Apply(FilterInInsert(1, 0), ThreeFolders({1, 3})) == ThreeFolders({1, 3})
  {
    ThreeFoldersChoose({2, 3}, 1, 2);
    assert {2, 3} - {2} + {1} == {1, 3};
    ThreeFoldersSteps({1, 3}, 2);
    assert {1, 3} - {2} == {1, 3};
    ThreeFoldersSteps({1, 3}, 3);
    assert {1, 3} + {3} == {1, 3};
    ThreeFoldersSteps({1, 3}, 1);
    assert {1, 3} + {1} == {1, 3};
  }

  // Three uses of the settings page, with the update thread replaying the first pair of commands before the
  // third, leave two incoming defaults for good although there was one to begin with.
  lemma ReplayCanSplitDefault()
    ensures var b0 := ThreeFolders({1});
      var b2 := SettingsEffect(SettingsEffect(b0, Incoming, 2), Incoming, 3);
      var b3 := Apply(FilterInInsert(2, 0), Apply(FilterInDelete(1, 0), b2));
      var b4 := SettingsEffect(b3, Incoming, 1);
      var b5 := Apply(FilterInInsert(3, 0), Apply(FilterInDelete(2, 0), b4));
      var b6 := Apply(FilterInInsert(1, 0), Apply(FilterInDelete(2, 0), b5));
      OneNames(b0, Incoming, 0) && Naming(b6, Incoming, 0) == {1, 3}
  {
    TwoChoices();
    FirstPairReplayed();
    ThirdChoiceThenReplay();
    ThreeFoldersSteps({1}, 1);
    ThreeFoldersSteps({1, 3}, 1);
  }
}
