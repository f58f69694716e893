/**
The store's session methods in their own form: they update the session, the
leases and the repo list in place, loop by loop, and ask for a save.
*/
module SessionStore {
  import opened Options
  import opened WorkspaceSession
  import RepoOrder

  /** How a method asks for its change to reach the disk. */
  datatype Save = Scheduled | Flushed

  class Store {
    var repos: seq<Repo>
    var leases: seq<Lease>
    var workspaceSession: Option<Session>
    var saves: seq<Save>

    ghost function Cat(): Catalog
      reads this
    {
      Catalog(repos, leases)
    }

    constructor (repos: seq<Repo>, leases: seq<Lease>, workspaceSession: Option<Session>)
      ensures this.repos == repos && this.leases == leases && this.workspaceSession == workspaceSession && saves == []
    {
      this.repos, this.leases, this.workspaceSession, saves := repos, leases, workspaceSession, [];
    }

    method SetWorkspaceSession(session: Session)
      modifies this`workspaceSession, this`saves
      ensures workspaceSession == Some(AfterSet(Cat(), old(workspaceSession), session))
      ensures saves == old(saves) + [Scheduled]
    {
      var merged := session;
      if workspaceSession.Some? {
        var prior := workspaceSession.value;
        var worktreeIdByTabId := IndexWorktrees(Spread(prior.tabsByWorktree, session.tabsByWorktree));
        var tabs := MergeAllTabs(prior.tabsByWorktree, session.tabsByWorktree);
        var layouts := MergeAllLayouts(prior, session, worktreeIdByTabId);
        merged := Session(tabs, layouts, session.other);
      }
      workspaceSession := Some(merged);
      saves := saves + [Scheduled];
    }

    method IndexWorktrees(entries: seq<WorktreeTabs>) returns (index: map<string, string>)
      ensures index == IndexTabs(entries)
    {
      index := map[];
      for i := 0 to |entries|
        invariant index == IndexTabs(entries[..i])
      {
        index := AddWorktree(index, entries[i].worktreeId, entries[i].tabs);
        assert entries[..i + 1][..i] == entries[..i];
      }
      assert entries[..|entries|] == entries;
    }

    method AddWorktree(before: map<string, string>, worktreeId: string, tabs: seq<Tab>)
        returns (index: map<string, string>)
      ensures index == before + IndexEntry(worktreeId, tabs)
    {
      index := before;
      for j := 0 to |tabs|
        invariant index == before + IndexEntry(worktreeId, tabs[..j])
      {
        assert tabs[..j + 1][..j] == tabs[..j];
        index := index[tabs[j].id := worktreeId];
      }
      assert tabs[..|tabs|] == tabs;
    }

    method MergeAllTabs(prior: seq<WorktreeTabs>, next: seq<WorktreeTabs>) returns (merged: seq<WorktreeTabs>)
      ensures merged == MergeTabs(Cat(), prior, next)
    {
      merged := [];
      for i := 0 to |next|
        invariant |merged| == i
        invariant forall k | 0 <= k < i :: merged[k] == MergeEntry(Cat(), prior, next[k])
      {
        var priorList := TabsOf(prior, next[i].worktreeId);
        if priorList == None {
          merged := merged + [next[i]];
        } else {
          var tabs := MergeTabList(priorList.value, next[i].worktreeId, next[i].tabs);
          merged := merged + [next[i].(tabs := tabs)];
        }
      }
    }

    method MergeTabList(priorTabs: seq<Tab>, worktreeId: string, next: seq<Tab>) returns (tabs: seq<Tab>)
      ensures |tabs| == |next|
      ensures forall j | 0 <= j < |next| :: tabs[j] == MergeTab(Cat(), priorTabs, worktreeId, next[j])
    {
      tabs := next;
      for j := 0 to |next|
        invariant |tabs| == |next|
        invariant forall k | 0 <= k < j :: tabs[k] == MergeTab(Cat(), priorTabs, worktreeId, next[k])
        invariant forall k | j <= k < |next| :: tabs[k] == next[k]
      {
        var tab := tabs[j];
        if !Bound(tab.ptyId) {
          var priorTab := FindTab(priorTabs, tab.id);
          if priorTab.Some? && Bound(priorTab.value.ptyId) {
            var restorable := IsRestorable(
              Binding(priorTab.value.ptyId.value, TargetOf(repos, worktreeId), Some(worktreeId), Some(tab.id), None));
            if restorable {
              tabs := tabs[j := tab.(ptyId := priorTab.value.ptyId)];
            }
          }
        }
      }
    }

    method IsRestorable(b: Binding) returns (restorable: bool)
      ensures restorable == Restorable(leases, b)
    {
      restorable := true;
      for i := 0 to |leases|
        invariant restorable == Restorable(leases[..i], b)
      {
        assert leases[..i + 1] == leases[..i] + [leases[i]];
        if LeaseMatches(leases[i], b) && Dead(leases[i]) {
          restorable := false;
        }
      }
      assert leases[..|leases|] == leases;
    }

    method HasRestorable(b: Binding) returns (found: bool)
      ensures found == HasRestorableLease(leases, b)
    {
      found := false;
      for i := 0 to |leases|
        invariant found == HasRestorableLease(leases[..i], b)
      {
        assert leases[..i + 1] == leases[..i] + [leases[i]];
        if LeaseMatches(leases[i], b) && !Dead(leases[i]) {
          found := true;
        }
      }
      assert leases[..|leases|] == leases;
    }

    method MergeAllLayouts(prior: Session, next: Session, worktreeOf: map<string, string>)
        returns (layouts: map<string, Layout>)
      ensures layouts == map t | t in next.layoutsByTabId ::
        MergeLayout(Cat(), Lookup(worktreeOf, t), t, LeafBindings(prior, t), next.layoutsByTabId[t])
    {
      layouts := next.layoutsByTabId;
      var todo := layouts.Keys;
      while todo != {}
        invariant todo <= layouts.Keys == next.layoutsByTabId.Keys
        invariant forall t | t in todo :: layouts[t] == next.layoutsByTabId[t]
        invariant forall t | t in layouts.Keys - todo ::
          layouts[t] == MergeLayout(Cat(), Lookup(worktreeOf, t), t, LeafBindings(prior, t), next.layoutsByTabId[t])
      {
        var tabId :| tabId in todo;
        var priorBindings := LeafBindings(prior, tabId);
        var restored := RestoreLeaves(Lookup(worktreeOf, tabId), tabId, priorBindings, layouts[tabId]);
        if restored != map[] {
          layouts := layouts[tabId := layouts[tabId].(ptyIdsByLeafId := Some(restored + Bindings(layouts[tabId])))];
        }
        todo := todo - {tabId};
      }
    }

    method RestoreLeaves(worktreeId: Option<string>, tabId: string, prior: map<string, string>, incoming: Layout)
      returns (restored: map<string, string>)
      ensures restored == Restored(Cat(), worktreeId, tabId, prior, incoming)
    {
      var live := LeafIds(incoming.root);
      var incomingHasAnyBinding := Bindings(incoming) != map[];
      var targetId := match worktreeId case Some(w) => TargetOf(repos, w) case None => None;
      restored := map[];
      var todo := prior.Keys;
      while todo != {}
        invariant todo <= prior.Keys
        invariant restored == map l | l in prior.Keys - todo && TakesOver(Cat(), worktreeId, tabId, incoming, l,
                                                                          prior[l]) :: prior[l]
      {
        var leafId :| leafId in todo;
        if leafId in live && leafId !in Bindings(incoming) {
          var b := Binding(prior[leafId], targetId, worktreeId, Some(tabId), Some(leafId));
          var keep;
          if incomingHasAnyBinding {
            keep := HasRestorable(b);
          } else {
            keep := IsRestorable(b);
          }
          if keep {
            restored := restored[leafId := prior[leafId]];
          }
        }
        todo := todo - {leafId};
      }
    }

    method PersistPtyBinding(worktreeId: string, tabId: string, leafId: string, ptyId: string)
      modifies this`workspaceSession, this`saves
      ensures old(workspaceSession) == None ==> workspaceSession == None && saves == old(saves)
      ensures old(workspaceSession).Some? ==>
        && workspaceSession == Some(Bind(old(workspaceSession).value, worktreeId, tabId, leafId, ptyId))
        && saves == old(saves) + [Flushed]
    {
      if workspaceSession == None {
        return;
      }
      var session := workspaceSession.value;
      session := session.(tabsByWorktree := BindEntries(session.tabsByWorktree, worktreeId, tabId, ptyId));
      if tabId in session.layoutsByTabId {
        var layout := session.layoutsByTabId[tabId];
        session := session.(layoutsByTabId :=
          session.layoutsByTabId[tabId := layout.(ptyIdsByLeafId := Some(Bindings(layout)[leafId := ptyId]))]);
      } else {
        session := session.(layoutsByTabId :=
          session.layoutsByTabId[tabId := Layout(Some(Leaf(leafId)), Some(leafId), None, Some(map[leafId := ptyId]),
                                                 "")]);
      }
      workspaceSession := Some(session);
      saves := saves + [Flushed];
    }

    method RemoveSshRemotePtyLeases(targetId: string)
      modifies this`workspaceSession, this`leases, this`saves
      ensures leases == LeasesNotOf(old(leases), targetId)
      ensures workspaceSession == AfterRemove(old(leases), targetId, old(workspaceSession))
      ensures saves == old(saves)
        + (if workspaceSession == old(workspaceSession) then [] else [Scheduled])
        + (if LeasesOf(old(leases), targetId) == [] then [] else [Flushed])
    {
      ClearBindingsForTarget(targetId);
      var before := |leases|;
      var kept := FilterLeases(targetId, false);
      LeaseCounts(leases, targetId);
      leases := kept;
      if |leases| != before {
        saves := saves + [Flushed];
      }
    }

    static lemma {:induction false} LeaseCounts(leases: seq<Lease>, targetId: string)
      ensures |LeasesOf(leases, targetId)| + |LeasesNotOf(leases, targetId)| == |leases|
    {
      if leases != [] {
        LeaseCounts(leases[1..], targetId);
      }
    }

    method FilterLeases(targetId: string, ofTarget: bool) returns (kept: seq<Lease>)
      ensures kept == if ofTarget then LeasesOf(leases, targetId) else LeasesNotOf(leases, targetId)
    {
      kept := [];
      var i := |leases|;
      while i > 0
        invariant 0 <= i <= |leases|
        invariant kept == if ofTarget then LeasesOf(leases[i..], targetId) else LeasesNotOf(leases[i..], targetId)
      {
        i := i - 1;
        assert leases[i..][1..] == leases[i + 1..];
        if (leases[i].targetId == targetId) == ofTarget {
          kept := [leases[i]] + kept;
        }
      }
      assert leases[0..] == leases;
    }

    method ClearBindingsForTarget(targetId: string)
      modifies this`workspaceSession, this`saves
      ensures workspaceSession == AfterRemove(leases, targetId, old(workspaceSession))
      ensures saves == old(saves) + (if workspaceSession == old(workspaceSession) then [] else [Scheduled])
    {
      var targetLeases := FilterLeases(targetId, true);
      if targetLeases == [] || workspaceSession == None {
        if workspaceSession.Some? {
          NoLeaseNoChange(targetId, workspaceSession.value);
        }
        return;
      }
      var session := workspaceSession.value;
      var tabs := ClearAllTabs(targetLeases, targetId, session.tabsByWorktree);
      var layouts := ClearAllLayouts(targetLeases, targetId, session);
      var changed := tabs != session.tabsByWorktree || layouts != session.layoutsByTabId;
      workspaceSession := Some(Session(tabs, layouts, session.other));
      if changed {
        saves := saves + [Scheduled];
      }
    }

    static lemma NoLeaseNoChange(targetId: string, s: Session)
      ensures ClearSession([], targetId, s) == s
    {
      forall i | 0 <= i < |s.tabsByWorktree|
        ensures ClearEntry([], targetId, s.tabsByWorktree[i]) == s.tabsByWorktree[i]
      {
        assert ClearEntry([], targetId, s.tabsByWorktree[i]).tabs == s.tabsByWorktree[i].tabs;
      }
      assert ClearTabs([], targetId, s.tabsByWorktree) == s.tabsByWorktree;
      forall t | t in s.layoutsByTabId
        ensures ClearLayout([], targetId, FirstWorktreeOf(s.tabsByWorktree, t), t, s.layoutsByTabId[t])
            == s.layoutsByTabId[t]
      {
        var m := Bindings(s.layoutsByTabId[t]);
        assert (map l | l in m && !Scrubs([], targetId, FirstWorktreeOf(s.tabsByWorktree, t), t, l, m[l]) :: m[l]) == m;
      }
      assert ClearSession([], targetId, s).layoutsByTabId == s.layoutsByTabId;
    }

    method AnyMayReference(ls: seq<Lease>, targetId: string, b: Binding) returns (found: bool)
      ensures found == SomeMayReference(ls, targetId, b)
    {
      found := false;
      for i := 0 to |ls|
        invariant found == SomeMayReference(ls[..i], targetId, b)
      {
        assert ls[..i + 1] == ls[..i] + [ls[i]];
        if MayReference(ls[i], targetId, b) {
          found := true;
        }
      }
      assert ls[..|ls|] == ls;
    }

    method ClearAllTabs(ls: seq<Lease>, targetId: string, entries: seq<WorktreeTabs>)
        returns (cleared: seq<WorktreeTabs>)
      ensures cleared == ClearTabs(ls, targetId, entries)
    {
      cleared := [];
      for i := 0 to |entries|
        invariant |cleared| == i
        invariant forall k | 0 <= k < i :: cleared[k] == ClearEntry(ls, targetId, entries[k])
      {
        var w, tabs := entries[i].worktreeId, entries[i].tabs;
        for j := 0 to |tabs|
          invariant |tabs| == |entries[i].tabs|
          invariant forall k | 0 <= k < j :: tabs[k] == ClearTab(ls, targetId, w, entries[i].tabs[k])
          invariant forall k | j <= k < |tabs| :: tabs[k] == entries[i].tabs[k]
        {
          if Bound(tabs[j].ptyId) {
            var referenced := AnyMayReference(ls, targetId,
              Binding(tabs[j].ptyId.value, Some(targetId), Some(w), Some(tabs[j].id), None));
            if referenced {
              tabs := tabs[j := tabs[j].(ptyId := None)];
            }
          }
        }
        cleared := cleared + [entries[i].(tabs := tabs)];
      }
    }

    method ClearAllLayouts(ls: seq<Lease>, targetId: string, session: Session) returns (layouts: map<string, Layout>)
      ensures layouts == ClearSession(ls, targetId, session).layoutsByTabId
    {
      layouts := session.layoutsByTabId;
      var todo := layouts.Keys;
      while todo != {}
        invariant todo <= layouts.Keys == session.layoutsByTabId.Keys
        invariant forall t | t in todo :: layouts[t] == session.layoutsByTabId[t]
        invariant forall t | t in layouts.Keys - todo ::
          layouts[t] == ClearLayout(ls, targetId, FirstWorktreeOf(session.tabsByWorktree, t), t,
                                    session.layoutsByTabId[t])
      {
        var tabId :| tabId in todo;
        if layouts[tabId].ptyIdsByLeafId.Some? {
          var bindings := layouts[tabId].ptyIdsByLeafId.value;
          var w := FirstWorktreeOf(session.tabsByWorktree, tabId);
          var next := KeepUnreferenced(ls, targetId, w, tabId, bindings);
          if |next| != |bindings| {
            layouts := layouts[tabId := layouts[tabId].(ptyIdsByLeafId := Some(next))];
          } else {
            SameSizeFilter(next, bindings);
          }
        }
        todo := todo - {tabId};
      }
    }

    method KeepUnreferenced(ls: seq<Lease>, targetId: string, worktreeId: Option<string>, tabId: string,
                            bindings: map<string, string>)
      returns (next: map<string, string>)
      ensures next == map l | l in bindings && !Scrubs(ls, targetId, worktreeId, tabId, l, bindings[l]) :: bindings[l]
    {
      next := map[];
      var todo := bindings.Keys;
      while todo != {}
        invariant todo <= bindings.Keys
        invariant next == map l | l in bindings.Keys - todo && !Scrubs(ls, targetId, worktreeId, tabId, l,
                                                                       bindings[l]) :: bindings[l]
      {
        var leafId :| leafId in todo;
        var referenced := AnyMayReference(ls, targetId,
          Binding(bindings[leafId], Some(targetId), worktreeId, Some(tabId), Some(leafId)));
        if !referenced {
          next := next[leafId := bindings[leafId]];
        }
        todo := todo - {leafId};
      }
    }

    /** Comparing sizes is enough to see whether a filter dropped anything. */
    static lemma SameSizeFilter(kept: map<string, string>, all: map<string, string>)
      requires kept.Keys <= all.Keys && |kept| == |all|
      requires forall l | l in kept :: kept[l] == all[l]
      ensures kept == all
    {
      assert |all.Keys| == |kept.Keys| + |all.Keys - kept.Keys|;
      assert all.Keys - kept.Keys == {};
    }

    method ReorderRepos(orderedIds: seq<RepoOrder.IdArgument>) returns (done: bool)
      modifies this`repos, this`saves
      ensures done <==> RepoOrder.IsPermutationOfIds(old(repos), orderedIds)
      ensures done ==> repos == RepoOrder.InOrder(old(repos), orderedIds) && saves == old(saves) + [Scheduled]
      ensures !done ==> repos == old(repos) && saves == old(saves)
    {
      var next := RepoOrder.Reordered(repos, orderedIds);
      if next == None {
        return false;
      }
      repos := next.value;
      saves := saves + [Scheduled];
      return true;
    }
  }
}
