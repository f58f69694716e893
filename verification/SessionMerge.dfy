/**
What the session merge guarantees: it restores and never invents, a durable
binding survives every run of stale snapshots, and a scrubbed one stays gone.
*/
module SessionMerge {
  import opened Options
  import opened WorkspaceSession

  // ---------------------------------------------------------------------
  // Lookups through the operations
  // ---------------------------------------------------------------------

  lemma {:induction false} FindTabIsFirst(tabs: seq<Tab>, tabId: string)
    ensures FindTab(tabs, tabId).None? <==> !HasTab(tabs, tabId)
    ensures FindTab(tabs, tabId).Some? ==>
      exists j :: 0 <= j < |tabs| && tabs[j] == FindTab(tabs, tabId).value && tabs[j].id == tabId
                  && forall k :: 0 <= k < j ==> tabs[k].id != tabId
  {
    if tabs != [] && tabs[0].id != tabId {
      FindTabIsFirst(tabs[1..], tabId);
      assert forall k :: 1 <= k < |tabs| ==> tabs[k] == tabs[1..][k - 1];
      if HasTab(tabs[1..], tabId) {
        var j :| 0 <= j < |tabs[1..]| && tabs[1..][j] == FindTab(tabs[1..], tabId).value && tabs[1..][j].id == tabId
                 && forall k :: 0 <= k < j ==> tabs[1..][k].id != tabId;
        assert tabs[j + 1] == tabs[1..][j];
      }
    }
  }

  /** A tab-by-tab change that keeps ids is seen by the lookup of a tab. */
  lemma {:induction false} FindTabMapped(tabs: seq<Tab>, mapped: seq<Tab>, tabId: string)
    requires |mapped| == |tabs| && forall j :: 0 <= j < |tabs| ==> mapped[j].id == tabs[j].id
    ensures FindTab(mapped, tabId).Some? <==> FindTab(tabs, tabId).Some?
    ensures FindTab(mapped, tabId).Some? ==>
      exists j :: 0 <= j < |tabs| && FindTab(tabs, tabId).value == tabs[j] && FindTab(mapped, tabId).value == mapped[j]
                  && tabs[j].id == tabId
  {
    if tabs != [] && tabs[0].id != tabId {
      FindTabMapped(tabs[1..], mapped[1..], tabId);
      if FindTab(mapped, tabId).Some? {
        var j :| 0 <= j < |tabs[1..]| && FindTab(tabs[1..], tabId).value == tabs[1..][j]
                 && FindTab(mapped[1..], tabId).value == mapped[1..][j] && tabs[1..][j].id == tabId;
        assert tabs[j + 1] == tabs[1..][j] && mapped[j + 1] == mapped[1..][j];
      }
    }
  }

  /** An entry-by-entry change that keeps keys is seen by the lookup of a worktree. */
  lemma {:induction false} TabsOfMapped(entries: seq<WorktreeTabs>, mapped: seq<WorktreeTabs>, worktreeId: string)
    requires |mapped| == |entries|
    requires forall i :: 0 <= i < |entries| ==> mapped[i].worktreeId == entries[i].worktreeId
    ensures TabsOf(mapped, worktreeId).Some? <==> TabsOf(entries, worktreeId).Some?
    ensures TabsOf(mapped, worktreeId).Some? ==>
      exists i :: 0 <= i < |entries| && TabsOf(entries, worktreeId).value == entries[i].tabs
                  && TabsOf(mapped, worktreeId).value == mapped[i].tabs && entries[i].worktreeId == worktreeId
  {
    if entries != [] && entries[0].worktreeId != worktreeId {
      TabsOfMapped(entries[1..], mapped[1..], worktreeId);
      if TabsOf(mapped, worktreeId).Some? {
        var i :| 0 <= i < |entries[1..]| && TabsOf(entries[1..], worktreeId).value == entries[1..][i].tabs
                 && TabsOf(mapped[1..], worktreeId).value == mapped[1..][i].tabs && entries[1..][i].worktreeId
                     == worktreeId;
        assert entries[i + 1] == entries[1..][i] && mapped[i + 1] == mapped[1..][i];
      }
    }
  }

  lemma MergedTabAt(c: Catalog, prior: seq<WorktreeTabs>, next: seq<WorktreeTabs>, w: string, t: string)
    ensures TabAt(MergeTabs(c, prior, next), w, t) ==
      match TabAt(next, w, t)
      case None => None
      case Some(tab) =>
        Some(match TabsOf(prior, w) case None => tab case Some(priorTabs) => MergeTab(c, priorTabs, w, tab))
  {
    var merged := MergeTabs(c, prior, next);
    TabsOfMapped(next, merged, w);
    if TabsOf(next, w).Some? {
      var i :| 0 <= i < |next| && TabsOf(next, w).value == next[i].tabs
               && TabsOf(merged, w).value == merged[i].tabs && next[i].worktreeId == w;
      assert merged[i] == MergeEntry(c, prior, next[i]);
      FindTabMapped(next[i].tabs, merged[i].tabs, t);
    }
  }

  /** The merged tab slot: the incoming binding, else the prior one if it may be restored. */
  lemma MergedTabSlot(c: Catalog, prior: Session, next: Session, w: string, t: string)
    requires TabAt(next.tabsByWorktree, w, t).Some?
    ensures TabAt(MergeSession(c, prior, next).tabsByWorktree, w, t).Some?
    ensures TabSlot(MergeSession(c, prior, next), w, t) ==
      if TabSlot(next, w, t).Some? then TabSlot(next, w, t)
      else if TabSlot(prior, w, t).Some? && Restorable(c.leases, TabBinding(c, TabSlot(prior, w, t).value, w, t))
      then TabSlot(prior, w, t)
      else None
  {
    MergedTabAt(c, prior.tabsByWorktree, next.tabsByWorktree, w, t);
    var tab := TabAt(next.tabsByWorktree, w, t).value;
    FindTabIsFirst(TabsOf(next.tabsByWorktree, w).value, t);
    assert tab.id == t;
  }

  /** The worktree context the merge uses for a tab's layout. */
  function ContextOf(prior: Session, next: Session, t: string): Option<string> {
    Lookup(IndexTabs(Spread(prior.tabsByWorktree, next.tabsByWorktree)), t)
  }

  /** The merged leaf slot: the incoming binding; else the prior one, if the leaf is
      live in the incoming tree and the leases allow it, which for an incoming map that
      is empty means no dead lease matches and for a partial one that a live lease does. */
  lemma MergedLeafSlot(c: Catalog, prior: Session, next: Session, t: string, l: string)
    requires t in next.layoutsByTabId
    ensures var merged := MergeSession(c, prior, next);
      && t in merged.layoutsByTabId
      && LeafSlot(merged, t, l) ==
           if LeafSlot(next, t, l).Some? then LeafSlot(next, t, l)
           else if LeafSlot(prior, t, l).Some? && LiveIn(next.layoutsByTabId[t].root, l)
             && (var b := LeafBinding(c, LeafSlot(prior, t, l).value, ContextOf(prior, next, t), t, l);
                 if LeafBindings(next, t) == map[] then Restorable(c.leases, b) else HasRestorableLease(c.leases, b))
           then LeafSlot(prior, t, l)
           else None
  {
    var incoming := next.layoutsByTabId[t];
    LeafIdsAreLive(incoming.root, l);
    MergedBindings(c, ContextOf(prior, next, t), t, LeafBindings(prior, t), incoming, l);
    assert MergeSession(c, prior, next).layoutsByTabId[t]
        == MergeLayout(c, ContextOf(prior, next, t), t, LeafBindings(prior, t), incoming);
  }

  lemma MergedBindings(c: Catalog, context: Option<string>, t: string, prior: map<string, string>, incoming: Layout,
                       l: string)
    ensures Lookup(Bindings(MergeLayout(c, context, t, prior, incoming)), l) ==
      if l in Bindings(incoming) then Some(Bindings(incoming)[l])
      else if l in prior && TakesOver(c, context, t, incoming, l, prior[l]) then Some(prior[l])
      else None
  {
    var restored := Restored(c, context, t, prior, incoming);
    assert l in restored <==> l in prior && TakesOver(c, context, t, incoming, l, prior[l]);
  }

  // ---------------------------------------------------------------------
  // Never invents, never overrides
  // ---------------------------------------------------------------------

  /** Apart from pty ids the merge hands the incoming session on as it is, at every
      position, and never touches a binding the snapshot carries. */
  lemma IncomingIsKept(c: Catalog, prior: Session, next: Session)
    ensures var merged := MergeSession(c, prior, next);
      && |merged.tabsByWorktree| == |next.tabsByWorktree|
      && (forall i | 0 <= i < |next.tabsByWorktree| ::
           var m, n := merged.tabsByWorktree[i], next.tabsByWorktree[i];
           && m.worktreeId == n.worktreeId && |m.tabs| == |n.tabs|
           && forall j | 0 <= j < |n.tabs| ::
                && m.tabs[j].(ptyId := n.tabs[j].ptyId) == n.tabs[j]
                && (Bound(n.tabs[j].ptyId) ==> m.tabs[j] == n.tabs[j]))
      && merged.layoutsByTabId.Keys == next.layoutsByTabId.Keys
      && (forall t | t in next.layoutsByTabId ::
           var m, n := merged.layoutsByTabId[t], next.layoutsByTabId[t];
           && m.(ptyIdsByLeafId := n.ptyIdsByLeafId) == n
           && forall l | l in Bindings(n) :: l in Bindings(m) && Bindings(m)[l] == Bindings(n)[l])
      && merged.other == next.other
  {
  }

  /** A binding the snapshot did not carry was in the prior session at the same slot;
      a tab's needs no dead lease to match it. */
  lemma RestoredTabsComeFromPrior(c: Catalog, prior: Session, next: Session, i: int, j: int)
    requires 0 <= i < |next.tabsByWorktree| && 0 <= j < |next.tabsByWorktree[i].tabs|
    requires var merged := MergeSession(c, prior, next);
      merged.tabsByWorktree[i].tabs[j] != next.tabsByWorktree[i].tabs[j]
    ensures var n := next.tabsByWorktree[i];
      var slot := TabSlot(prior, n.worktreeId, n.tabs[j].id);
      && slot.Some? && MergeSession(c, prior, next).tabsByWorktree[i].tabs[j].ptyId == slot
      && !Bound(n.tabs[j].ptyId)
      && forall lease | lease in c.leases && Dead(lease) ::
           !LeaseMatches(lease, TabBinding(c, slot.value, n.worktreeId, n.tabs[j].id))
  {
  }

  // ---------------------------------------------------------------------
  // A durable binding survives stale snapshots
  // ---------------------------------------------------------------------

  /** No other worktree lists the tab. */
  predicate OnlyIn(entries: seq<WorktreeTabs>, t: string, w: string) {
    forall i | 0 <= i < |entries| && HasTab(entries[i].tabs, t) :: entries[i].worktreeId == w
  }

  /** A snapshot taken before the spawn was known: the tab and the live leaf are there,
      the tab carries no pty id and the layout an empty map. */
  ghost predicate Stale(s: Session, w: string, t: string, l: string) {
    && OnlyIn(s.tabsByWorktree, t, w)
    && TabAt(s.tabsByWorktree, w, t).Some? && TabSlot(s, w, t) == None
    && t in s.layoutsByTabId
    && LiveIn(s.layoutsByTabId[t].root, l)
    && LeafBindings(s, t) == map[]
  }

  predicate Holds(s: Session, w: string, t: string, l: string, p: string) {
    && OnlyIn(s.tabsByWorktree, t, w)
    && TabSlot(s, w, t) == Some(p)
    && LeafSlot(s, t, l) == Some(p)
  }

  lemma {:induction false} IndexedTabs(worktreeId: string, tabs: seq<Tab>, t: string)
    ensures t in IndexEntry(worktreeId, tabs) <==> HasTab(tabs, t)
    ensures t in IndexEntry(worktreeId, tabs) ==> IndexEntry(worktreeId, tabs)[t] == worktreeId
  {
    if tabs != [] {
      IndexedTabs(worktreeId, tabs[..|tabs| - 1], t);
    }
  }

  /** Of several worktrees that list a tab the last one is looked up; if none does, none is. */
  lemma {:induction false} LastListingWins(entries: seq<WorktreeTabs>, t: string)
    ensures Lookup(IndexTabs(entries), t) == None <==> forall i | 0 <= i < |entries| :: !HasTab(entries[i].tabs, t)
    ensures forall i | 0 <= i < |entries| && HasTab(entries[i].tabs, t)
                       && (forall j | i < j < |entries| :: !HasTab(entries[j].tabs, t)) ::
      Lookup(IndexTabs(entries), t) == Some(entries[i].worktreeId)
  {
    if entries != [] {
      var init, last := entries[..|entries| - 1], entries[|entries| - 1];
      IndexedTabs(last.worktreeId, last.tabs, t);
      LastListingWins(init, t);
      assert forall i | 0 <= i < |init| :: init[i] == entries[i];
    }
  }

  lemma {:induction false} IndexedTab(entries: seq<WorktreeTabs>, t: string, w: string)
    requires OnlyIn(entries, t, w) && exists i :: 0 <= i < |entries| && HasTab(entries[i].tabs, t)
    ensures Lookup(IndexTabs(entries), t) == Some(w)
  {
    var init, last := entries[..|entries| - 1], entries[|entries| - 1];
    IndexedTabs(last.worktreeId, last.tabs, t);
    if !HasTab(last.tabs, t) {
      var i :| 0 <= i < |entries| && HasTab(entries[i].tabs, t);
      assert init[i] == entries[i];
      IndexedTab(init, t, w);
    }
  }

  lemma {:induction false} TabsOfIsAnEntry(entries: seq<WorktreeTabs>, w: string)
    ensures TabsOf(entries, w).Some? <==> KeyIn(entries, w)
    ensures TabsOf(entries, w).Some? ==>
      exists i :: 0 <= i < |entries| && entries[i] == WorktreeTabs(w, TabsOf(entries, w).value)
  {
    if entries != [] && entries[0].worktreeId != w {
      TabsOfIsAnEntry(entries[1..], w);
      assert forall k :: 1 <= k < |entries| ==> entries[k] == entries[1..][k - 1];
      if TabsOf(entries, w).Some? {
        var i :| 0 <= i < |entries[1..]| && entries[1..][i] == WorktreeTabs(w, TabsOf(entries, w).value);
        assert entries[i + 1] == entries[1..][i];
      }
    }
  }

  lemma {:induction false} OverriddenEntries(prior: seq<WorktreeTabs>, next: seq<WorktreeTabs>)
    ensures |Overridden(prior, next)| == |prior|
    ensures forall i | 0 <= i < |prior| ::
      Overridden(prior, next)[i] == prior[i].(tabs :=
        match TabsOf(next, prior[i].worktreeId) case Some(ts) => ts case None => prior[i].tabs)
  {
    if prior != [] {
      OverriddenEntries(prior[1..], next);
    }
  }

  lemma {:induction false} NewKeyEntries(prior: seq<WorktreeTabs>, next: seq<WorktreeTabs>)
    ensures forall k | 0 <= k < |NewKeys(prior, next)| :: NewKeys(prior, next)[k] in next
    ensures forall i | 0 <= i < |next| && !KeyIn(prior, next[i].worktreeId) :: next[i] in NewKeys(prior, next)
  {
    if next != [] {
      NewKeyEntries(prior, next[1..]);
    }
  }

  /** A tab that both sessions list in `w` only is looked up there. */
  lemma ContextIsTheWorktree(prior: Session, next: Session, w: string, t: string)
    requires OnlyIn(prior.tabsByWorktree, t, w) && OnlyIn(next.tabsByWorktree, t, w)
    requires TabAt(next.tabsByWorktree, w, t).Some?
    ensures ContextOf(prior, next, t) == Some(w)
  {
    var p, n := prior.tabsByWorktree, next.tabsByWorktree;
    var spread := Spread(p, n);
    OverriddenEntries(p, n);
    NewKeyEntries(p, n);
    TabsOfIsAnEntry(n, w);
    FindTabIsFirst(TabsOf(n, w).value, t);
    forall i | 0 <= i < |spread| && HasTab(spread[i].tabs, t)
      ensures spread[i].worktreeId == w
    {
      if i < |p| {
        TabsOfIsAnEntry(n, p[i].worktreeId);
        assert spread[i] == Overridden(p, n)[i];
      } else {
        assert spread[i] == NewKeys(p, n)[i - |p|];
      }
    }
    if KeyIn(p, w) {
      var i :| 0 <= i < |p| && p[i].worktreeId == w;
      assert spread[i] == Overridden(p, n)[i];
      assert HasTab(spread[i].tabs, t);
    } else {
      var i :| 0 <= i < |n| && n[i] == WorktreeTabs(w, TabsOf(n, w).value);
      var k :| 0 <= k < |NewKeys(p, n)| && NewKeys(p, n)[k] == n[i];
      assert spread[|p| + k] == n[i];
    }
    IndexedTab(spread, t, w);
  }

  lemma OnlyInMerged(c: Catalog, prior: Session, next: Session, t: string, w: string)
    requires OnlyIn(next.tabsByWorktree, t, w)
    ensures OnlyIn(MergeSession(c, prior, next).tabsByWorktree, t, w)
  {
    var merged := MergeSession(c, prior, next).tabsByWorktree;
    forall i | 0 <= i < |merged| && HasTab(merged[i].tabs, t)
      ensures merged[i].worktreeId == w
    {
      var j :| 0 <= j < |merged[i].tabs| && merged[i].tabs[j].id == t;
      assert next.tabsByWorktree[i].tabs[j].id == t;
    }
  }

  /** One stale snapshot keeps the leaf's binding exactly if no dead lease matches it,
      and the tab's exactly if no dead lease matches that. */
  lemma StaleSnapshotKeepsIff(c: Catalog, prior: Session, next: Session, w: string, t: string, l: string, p: string)
    requires Holds(prior, w, t, l, p) && Stale(next, w, t, l)
    ensures var merged := MergeSession(c, prior, next);
      && OnlyIn(merged.tabsByWorktree, t, w)
      && (LeafSlot(merged, t, l) == Some(p) <==> Restorable(c.leases, LeafBinding(c, p, Some(w), t, l)))
      && (TabSlot(merged, w, t) == Some(p) <==> Restorable(c.leases, TabBinding(c, p, w, t)))
  {
    ContextIsTheWorktree(prior, next, w, t);
    MergedLeafSlot(c, prior, next, t, l);
    MergedTabSlot(c, prior, next, w, t);
    OnlyInMerged(c, prior, next, t, w);
  }

  /** A snapshot the renderer sends, with the repos and leases the store has by then. */
  datatype Snapshot = Snapshot(catalog: Catalog, session: Session)

  function AfterSnapshots(s: Session, snapshots: seq<Snapshot>): Session
    decreases |snapshots|
  {
    if snapshots == [] then s
    else
      var last := snapshots[|snapshots| - 1];
      MergeSession(last.catalog, AfterSnapshots(s, snapshots[..|snapshots| - 1]), last.session)
  }

  /** A stale snapshot at a time when no dead lease matches the tab's binding. */
  ghost predicate StaleButRestorable(snapshot: Snapshot, w: string, t: string, l: string, p: string) {
    && Stale(snapshot.session, w, t, l)
    && Restorable(snapshot.catalog.leases, TabBinding(snapshot.catalog, p, w, t))
  }

  /** A lease that matches the leaf's binding matches the tab's too. */
  lemma TabRestorableImpliesLeafRestorable(c: Catalog, p: string, w: string, t: string, l: string)
    requires Restorable(c.leases, TabBinding(c, p, w, t))
    ensures Restorable(c.leases, LeafBinding(c, p, Some(w), t, l))
  {
    forall lease | lease in c.leases && LeaseMatches(lease, LeafBinding(c, p, Some(w), t, l))
      ensures !Dead(lease)
    {
      assert LeaseMatches(lease, TabBinding(c, p, w, t));
    }
  }

  lemma {:induction false} HoldsThroughSnapshots(s: Session, snapshots: seq<Snapshot>, w: string, t: string, l: string,
                                                 p: string)
    requires Holds(s, w, t, l, p)
    requires forall k | 0 <= k < |snapshots| :: StaleButRestorable(snapshots[k], w, t, l, p)
    ensures Holds(AfterSnapshots(s, snapshots), w, t, l, p)
    decreases |snapshots|
  {
    if snapshots != [] {
      var init, last := snapshots[..|snapshots| - 1], snapshots[|snapshots| - 1];
      HoldsThroughSnapshots(s, init, w, t, l, p);
      assert StaleButRestorable(last, w, t, l, p);
      TabRestorableImpliesLeafRestorable(last.catalog, p, w, t, l);
      StaleSnapshotKeepsIff(last.catalog, AfterSnapshots(s, init), last.session, w, t, l, p);
    }
  }

  lemma {:induction false} BindTabSlot(tabs: seq<Tab>, t: string, p: string)
    ensures |BindTab(tabs, t, p)| == |tabs|
    ensures forall j | 0 <= j < |tabs| :: BindTab(tabs, t, p)[j].id == tabs[j].id
    ensures FindTab(tabs, t).Some? ==>
      FindTab(BindTab(tabs, t, p), t) == Some(FindTab(tabs, t).value.(ptyId := Some(p)))
  {
    if tabs != [] && tabs[0].id != t {
      BindTabSlot(tabs[1..], t, p);
    }
  }

  lemma {:induction false} BindEntriesSlot(entries: seq<WorktreeTabs>, w: string, t: string, p: string)
    ensures |BindEntries(entries, w, t, p)| == |entries|
    ensures forall i | 0 <= i < |entries| ::
      var b := BindEntries(entries, w, t, p)[i];
      && b.worktreeId == entries[i].worktreeId
      && |b.tabs| == |entries[i].tabs|
      && forall j | 0 <= j < |b.tabs| :: b.tabs[j].id == entries[i].tabs[j].id
    ensures TabAt(entries, w, t).Some? ==>
      TabAt(BindEntries(entries, w, t, p), w, t) == Some(TabAt(entries, w, t).value.(ptyId := Some(p)))
  {
    if entries != [] {
      BindTabSlot(entries[0].tabs, t, p);
      if entries[0].worktreeId != w {
        BindEntriesSlot(entries[1..], w, t, p);
      }
    }
  }

  lemma BindHolds(s: Session, w: string, t: string, l: string, p: string)
    requires OnlyIn(s.tabsByWorktree, t, w) && TabAt(s.tabsByWorktree, w, t).Some? && p != ""
    ensures Holds(Bind(s, w, t, l, p), w, t, l, p)
  {
    BindEntriesSlot(s.tabsByWorktree, w, t, p);
    var bound := Bind(s, w, t, l, p).tabsByWorktree;
    forall i | 0 <= i < |bound| && HasTab(bound[i].tabs, t)
      ensures bound[i].worktreeId == w
    {
      var j :| 0 <= j < |bound[i].tabs| && bound[i].tabs[j].id == t;
      assert s.tabsByWorktree[i].tabs[j].id == t;
    }
  }

  /** The second half of the SIGKILL race: a binding made durable for an existing tab is
      still in both its slots after any number of stale snapshots, whatever becomes of
      repos and leases, as long as no dead lease matches it when a snapshot arrives. */
  lemma DurableBindingSurvives(s: Session, w: string, t: string, l: string, p: string, snapshots: seq<Snapshot>)
    requires p != "" && OnlyIn(s.tabsByWorktree, t, w) && TabAt(s.tabsByWorktree, w, t).Some?
    requires forall k | 0 <= k < |snapshots| :: StaleButRestorable(snapshots[k], w, t, l, p)
    ensures var after := AfterSnapshots(Bind(s, w, t, l, p), snapshots);
      TabSlot(after, w, t) == Some(p) && LeafSlot(after, t, l) == Some(p)
  {
    BindHolds(s, w, t, l, p);
    HoldsThroughSnapshots(Bind(s, w, t, l, p), snapshots, w, t, l, p);
  }

  /** Which tab a binding is put in: the first with the id in the first entry of the worktree. */
  predicate IsBoundTab(entries: seq<WorktreeTabs>, i: nat, j: nat, w: string, t: string)
    requires i < |entries| && j < |entries[i].tabs|
  {
    && entries[i].worktreeId == w && (forall k | 0 <= k < i :: entries[k].worktreeId != w)
    && FirstWithId(entries[i].tabs, j, t)
  }

  predicate FirstWithId(tabs: seq<Tab>, j: nat, t: string)
    requires j < |tabs|
  {
    tabs[j].id == t && forall k | 0 <= k < j :: tabs[k].id != t
  }

  /** The tabs are those of before, but for the pty id of that one. */
  predicate OnlyBinds(before: seq<WorktreeTabs>, after: seq<WorktreeTabs>, w: string, t: string, p: string) {
    && |after| == |before|
    && forall i | 0 <= i < |before| ::
      && after[i].worktreeId == before[i].worktreeId && |after[i].tabs| == |before[i].tabs|
      && forall j | 0 <= j < |before[i].tabs| ::
        after[i].tabs[j] == if IsBoundTab(before, i, j, w, t) then before[i].tabs[j].(ptyId := Some(p))
                            else before[i].tabs[j]
  }

  lemma {:induction false} BindTabOnly(tabs: seq<Tab>, t: string, p: string)
    ensures |BindTab(tabs, t, p)| == |tabs|
    ensures forall j | 0 <= j < |tabs| ::
      BindTab(tabs, t, p)[j] == if FirstWithId(tabs, j, t) then tabs[j].(ptyId := Some(p)) else tabs[j]
  {
    if tabs != [] && tabs[0].id != t {
      BindTabOnly(tabs[1..], t, p);
      forall j | 1 <= j < |tabs| ensures FirstWithId(tabs, j, t) <==> FirstWithId(tabs[1..], j - 1, t) {
        assert forall k | 1 <= k < j :: tabs[k] == tabs[1..][k - 1];
      }
    }
  }

  lemma {:induction false} BindEntriesOnly(entries: seq<WorktreeTabs>, w: string, t: string, p: string)
    ensures OnlyBinds(entries, BindEntries(entries, w, t, p), w, t, p)
  {
    if entries != [] {
      if entries[0].worktreeId == w {
        BindTabOnly(entries[0].tabs, t, p);
      } else {
        var rest := entries[1..];
        BindEntriesOnly(rest, w, t, p);
        forall i, j | 1 <= i < |entries| && 0 <= j < |entries[i].tabs|
          ensures IsBoundTab(entries, i, j, w, t) <==> IsBoundTab(rest, i - 1, j, w, t)
        {
          assert forall k | 1 <= k < i :: entries[k] == rest[k - 1];
        }
      }
    }
  }

  /** Binding changes nothing else: no other tab, no other leaf's slot, no other field of
      the layout, no other layout; a tab without layout gets one whose only leaf is the
      bound one, and is active. */
  lemma BindChangesOnly(s: Session, w: string, t: string, l: string, p: string)
    ensures var b := Bind(s, w, t, l, p);
      && OnlyBinds(s.tabsByWorktree, b.tabsByWorktree, w, t, p)
      && b.other == s.other
      && b.layoutsByTabId.Keys == s.layoutsByTabId.Keys + {t}
      && (forall t2 | t2 in s.layoutsByTabId && t2 != t :: b.layoutsByTabId[t2] == s.layoutsByTabId[t2])
      && (forall t2, l2 | t2 != t || l2 != l :: LeafSlot(b, t2, l2) == LeafSlot(s, t2, l2))
      && (t in s.layoutsByTabId ==>
           b.layoutsByTabId[t].(ptyIdsByLeafId := s.layoutsByTabId[t].ptyIdsByLeafId) == s.layoutsByTabId[t])
      && (t !in s.layoutsByTabId ==>
           && (forall leaf :: LiveIn(b.layoutsByTabId[t].root, leaf) <==> leaf == l)
           && b.layoutsByTabId[t].activeLeafId == Some(l) && b.layoutsByTabId[t].expandedLeafId == None)
  {
    BindEntriesOnly(s.tabsByWorktree, w, t, p);
    forall leaf | t !in s.layoutsByTabId
      ensures LiveIn(Bind(s, w, t, l, p).layoutsByTabId[t].root, leaf) <==> leaf == l
    {
      LeafIdsAreLive(Some(Leaf(l)), leaf);
    }
  }

  /** So no other tab's slot changes. */
  lemma BindKeepsOtherTabs(s: Session, w: string, t: string, l: string, p: string, w2: string, t2: string)
    requires w2 != w || t2 != t
    ensures TabSlot(Bind(s, w, t, l, p), w2, t2) == TabSlot(s, w2, t2)
  {
    OtherTabAt(s.tabsByWorktree, w, t, p, w2, t2);
  }

  lemma {:induction false} OtherTabAt(entries: seq<WorktreeTabs>, w: string, t: string, p: string, w2: string,
                                      t2: string)
    requires w2 != w || t2 != t
    ensures TabAt(BindEntries(entries, w, t, p), w2, t2) == TabAt(entries, w2, t2)
  {
    if entries != [] {
      if entries[0].worktreeId == w {
        OtherTab(entries[0].tabs, t, p, t2);
      } else {
        OtherTabAt(entries[1..], w, t, p, w2, t2);
      }
    }
  }

  lemma {:induction false} OtherTab(tabs: seq<Tab>, t: string, p: string, t2: string)
    ensures t2 != t ==> FindTab(BindTab(tabs, t, p), t2) == FindTab(tabs, t2)
  {
    if tabs != [] {
      OtherTab(tabs[1..], t, p, t2);
    }
  }

  /** Binding reaches the leaf's slot always, the tab's exactly if there is such a tab and
      the pty id is not empty. */
  lemma BindReachesTabIff(s: Session, w: string, t: string, l: string, p: string)
    ensures LeafSlot(Bind(s, w, t, l, p), t, l) == Some(p)
    ensures TabSlot(Bind(s, w, t, l, p), w, t) == Some(p) <==> p != "" && TabAt(s.tabsByWorktree, w, t).Some?
  {
    BindEntriesSlot(s.tabsByWorktree, w, t, p);
    if TabAt(s.tabsByWorktree, w, t).None? {
      MissingTabStaysMissing(s.tabsByWorktree, w, t, p);
    }
  }

  lemma {:induction false} MissingTabStaysMissing(entries: seq<WorktreeTabs>, w: string, t: string, p: string)
    requires TabAt(entries, w, t).None?
    ensures TabAt(BindEntries(entries, w, t, p), w, t).None?
  {
    if entries != [] {
      if entries[0].worktreeId == w {
        UnlistedTabStaysUnlisted(entries[0].tabs, t, p);
      } else {
        MissingTabStaysMissing(entries[1..], w, t, p);
      }
    }
  }

  lemma {:induction false} UnlistedTabStaysUnlisted(tabs: seq<Tab>, t: string, p: string)
    requires FindTab(tabs, t).None?
    ensures FindTab(BindTab(tabs, t, p), t).None?
  {
    if tabs != [] {
      UnlistedTabStaysUnlisted(tabs[1..], t, p);
    }
  }

  /** The empty string is a string too, but as a pty id it never reaches the tab's slot. */
  lemma EmptyPtyIdIsNoTabBinding(s: Session, w: string, t: string, l: string)
    requires TabAt(s.tabsByWorktree, w, t).Some?
    ensures TabSlot(Bind(s, w, t, l, ""), w, t) == None && LeafSlot(Bind(s, w, t, l, ""), t, l) == Some("")
  {
    BindEntriesSlot(s.tabsByWorktree, w, t, "");
  }

  // ---------------------------------------------------------------------
  // Removing a target's leases
  // ---------------------------------------------------------------------

  lemma {:induction false} LeasesOfTarget(leases: seq<Lease>, targetId: string)
    ensures forall lease :: lease in LeasesOf(leases, targetId) <==> lease in leases && lease.targetId == targetId
    ensures forall lease :: lease in LeasesNotOf(leases, targetId) <==> lease in leases && lease.targetId != targetId
    ensures multiset(leases) == multiset(LeasesOf(leases, targetId)) + multiset(LeasesNotOf(leases, targetId))
  {
    if leases != [] {
      LeasesOfTarget(leases[1..], targetId);
      assert leases == [leases[0]] + leases[1..];
    }
  }

  /** A pty id bound to a tab that a lease of the target may reference. */
  predicate TabReferenced(leases: seq<Lease>, targetId: string, w: string, tab: Tab) {
    Bound(tab.ptyId) &&
    SomeMayReference(leases, targetId, Binding(tab.ptyId.value, Some(targetId), Some(w), Some(tab.id), None))
  }

  /** Removal drops exactly the bindings a lease of the target may reference, looked up
      in the worktree that lists the tab first, and nothing else of the session. */
  lemma RemovalScrubsExactly(leases: seq<Lease>, targetId: string, s: Session)
    ensures var after := AfterRemove(leases, targetId, Some(s)).value;
      && |after.tabsByWorktree| == |s.tabsByWorktree|
      && (forall i | 0 <= i < |s.tabsByWorktree| ::
           var a, b := after.tabsByWorktree[i], s.tabsByWorktree[i];
           && a.worktreeId == b.worktreeId && |a.tabs| == |b.tabs|
           && forall j | 0 <= j < |b.tabs| ::
                && !TabReferenced(leases, targetId, a.worktreeId, a.tabs[j])
                && a.tabs[j] == if TabReferenced(leases, targetId, b.worktreeId, b.tabs[j])
                                then b.tabs[j].(ptyId := None) else b.tabs[j])
      && after.layoutsByTabId.Keys == s.layoutsByTabId.Keys
      && (forall t | t in s.layoutsByTabId ::
           var a, b := after.layoutsByTabId[t], s.layoutsByTabId[t];
           var w := FirstWorktreeOf(s.tabsByWorktree, t);
           && a.(ptyIdsByLeafId := b.ptyIdsByLeafId) == b
           && (forall l | l in Bindings(a) :: !Scrubs(leases, targetId, w, t, l, Bindings(a)[l]))
           && (forall l | l in Bindings(b) ::
                if Scrubs(leases, targetId, w, t, l, Bindings(b)[l]) then l !in Bindings(a)
                else l in Bindings(a) && Bindings(a)[l] == Bindings(b)[l])
           && Bindings(a).Keys <= Bindings(b).Keys)
      && after.other == s.other
  {
    SomeMayReferenceOfTarget(leases, targetId);
  }

  lemma SomeMayReferenceOfTarget(leases: seq<Lease>, targetId: string)
    ensures forall b: Binding ::
      SomeMayReference(LeasesOf(leases, targetId), targetId, b) <==> SomeMayReference(leases, targetId, b)
  {
    LeasesOfTarget(leases, targetId);
    forall b: Binding | SomeMayReference(leases, targetId, b)
      ensures SomeMayReference(LeasesOf(leases, targetId), targetId, b)
    {
      var lease :| lease in leases && MayReference(lease, targetId, b);
      assert lease in LeasesOf(leases, targetId);
    }
  }

  /** The slot views of the removal. */
  lemma RemovedSlots(leases: seq<Lease>, targetId: string, s: Session, w: string, t: string, l: string)
    ensures var after := AfterRemove(leases, targetId, Some(s)).value;
      && TabSlot(after, w, t) ==
           (if TabAt(s.tabsByWorktree, w, t).Some? && TabReferenced(leases, targetId, w,
                                                                    TabAt(s.tabsByWorktree, w, t).value)
            then None else TabSlot(s, w, t))
      && LeafSlot(after, t, l) ==
           (if LeafSlot(s, t, l).Some? && Scrubs(leases, targetId, FirstWorktreeOf(s.tabsByWorktree, t), t, l,
                                                 LeafSlot(s, t, l).value)
            then None else LeafSlot(s, t, l))
  {
    SomeMayReferenceOfTarget(leases, targetId);
    ClearedTabAt(LeasesOf(leases, targetId), targetId, s.tabsByWorktree, w, t);
  }

  lemma ClearedTabAt(leases: seq<Lease>, targetId: string, entries: seq<WorktreeTabs>, w: string, t: string)
    ensures TabAt(ClearTabs(leases, targetId, entries), w, t) ==
      match TabAt(entries, w, t)
      case None => None
      case Some(tab) => Some(ClearTab(leases, targetId, w, tab))
  {
    var cleared := ClearTabs(leases, targetId, entries);
    TabsOfMapped(entries, cleared, w);
    if TabsOf(entries, w).Some? {
      var i :| 0 <= i < |entries| && TabsOf(entries, w).value == entries[i].tabs
               && TabsOf(cleared, w).value == cleared[i].tabs && entries[i].worktreeId == w;
      assert cleared[i] == ClearEntry(leases, targetId, entries[i]);
      FindTabMapped(entries[i].tabs, cleared[i].tabs, t);
    }
  }

  /** Snapshots that carry no binding at a slot cannot bring one back there. */
  lemma {:induction false} EmptySlotStaysEmpty(s: Session, snapshots: seq<Snapshot>, w: string, t: string, l: string)
    ensures TabSlot(s, w, t) == None && (forall k | 0 <= k < |snapshots| :: TabSlot(snapshots[k].session, w, t) == None)
      ==> TabSlot(AfterSnapshots(s, snapshots), w, t) == None
    ensures LeafSlot(s, t, l) == None
      && (forall k | 0 <= k < |snapshots| :: LeafSlot(snapshots[k].session, t, l) == None)
      ==> LeafSlot(AfterSnapshots(s, snapshots), t, l) == None
    decreases |snapshots|
  {
    if snapshots != [] {
      var init, last := snapshots[..|snapshots| - 1], snapshots[|snapshots| - 1];
      EmptySlotStaysEmpty(s, init, w, t, l);
      EmptySlotThrough(last.catalog, AfterSnapshots(s, init), last.session, w, t, l);
    }
  }

  lemma EmptySlotThrough(c: Catalog, prior: Session, next: Session, w: string, t: string, l: string)
    ensures TabSlot(prior, w, t) == None && TabSlot(next, w, t) == None
      ==> TabSlot(MergeSession(c, prior, next), w, t) == None
    ensures LeafSlot(prior, t, l) == None && LeafSlot(next, t, l) == None
      ==> LeafSlot(MergeSession(c, prior, next), t, l) == None
  {
    MergedTabAt(c, prior.tabsByWorktree, next.tabsByWorktree, w, t);
    if TabAt(next.tabsByWorktree, w, t).Some? {
      MergedTabSlot(c, prior, next, w, t);
    }
    if t in next.layoutsByTabId {
      MergedLeafSlot(c, prior, next, t, l);
    }
  }

  /** A binding scrubbed with a target's leases is gone for good: no run of snapshots
      that carry none at its slot revives it, whatever leases are left or come back. */
  lemma ScrubbedBindingsStayGone(leases: seq<Lease>, targetId: string, s: Session, snapshots: seq<Snapshot>,
                                 w: string, t: string, l: string)
    ensures var after := AfterSnapshots(AfterRemove(leases, targetId, Some(s)).value, snapshots);
      && (TabAt(s.tabsByWorktree, w, t).Some? && TabReferenced(leases, targetId, w, TabAt(s.tabsByWorktree, w, t).value)
          && (forall k | 0 <= k < |snapshots| :: TabSlot(snapshots[k].session, w, t) == None)
          ==> TabSlot(after, w, t) == None)
      && (LeafSlot(s, t, l).Some?
          && Scrubs(leases, targetId, FirstWorktreeOf(s.tabsByWorktree, t), t, l, LeafSlot(s, t, l).value)
          && (forall k | 0 <= k < |snapshots| :: LeafSlot(snapshots[k].session, t, l) == None)
          ==> LeafSlot(after, t, l) == None)
  {
    RemovedSlots(leases, targetId, s, w, t, l);
    EmptySlotStaysEmpty(AfterRemove(leases, targetId, Some(s)).value, snapshots, w, t, l);
  }

  // ---------------------------------------------------------------------
  // Where a binding comes from
  // ---------------------------------------------------------------------

  /** The snapshot has the tab without a binding, and no dead lease matches `p` there. */
  predicate LeavesTab(x: Snapshot, w: string, t: string, p: string) {
    && TabAt(x.session.tabsByWorktree, w, t).Some? && TabSlot(x.session, w, t) == None
    && Restorable(x.catalog.leases, TabBinding(x.catalog, p, w, t))
  }

  /** Session `k` of the run, 0 being the first one, carried `p` for the tab, and every
      later snapshot left it. */
  predicate TabCarried(s: Session, snapshots: seq<Snapshot>, k: nat, w: string, t: string, p: string)
    requires k <= |snapshots|
  {
    && TabSlot(if k == 0 then s else snapshots[k - 1].session, w, t) == Some(p)
    && forall j | k <= j < |snapshots| :: LeavesTab(snapshots[j], w, t, p)
  }

  predicate SomeCarriedTab(s: Session, snapshots: seq<Snapshot>, w: string, t: string, p: string) {
    exists k: nat :: k <= |snapshots| && TabCarried(s, snapshots, k, w, t, p)
  }

  /** Over whole runs the merge neither invents nor forgets: a tab ends up bound to `p`
      exactly if some session of the run carried that binding at this very slot and all
      snapshots since have left it. */
  lemma {:induction false} TabSlotHistory(s: Session, snapshots: seq<Snapshot>, w: string, t: string, p: string)
    ensures TabSlot(AfterSnapshots(s, snapshots), w, t) == Some(p) <==> SomeCarriedTab(s, snapshots, w, t, p)
    decreases |snapshots|
  {
    if snapshots == [] {
      assert TabSlot(s, w, t) == Some(p) <==> TabCarried(s, snapshots, 0, w, t, p);
    } else {
      TabSlotHistory(s, snapshots[..|snapshots| - 1], w, t, p);
      TabStepLast(s, snapshots, w, t, p);
      TabCarriedOn(s, snapshots, w, t, p);
    }
  }

  lemma TabStepLast(s: Session, snapshots: seq<Snapshot>, w: string, t: string, p: string)
    requires snapshots != []
    ensures var init, last := snapshots[..|snapshots| - 1], snapshots[|snapshots| - 1];
      TabSlot(AfterSnapshots(s, snapshots), w, t) == Some(p) <==>
        || TabSlot(last.session, w, t) == Some(p)
        || (TabSlot(AfterSnapshots(s, init), w, t) == Some(p) && LeavesTab(last, w, t, p))
  {
    TabStep(snapshots[|snapshots| - 1], AfterSnapshots(s, snapshots[..|snapshots| - 1]), w, t, p);
  }

  lemma TabStep(x: Snapshot, prior: Session, w: string, t: string, p: string)
    ensures TabSlot(MergeSession(x.catalog, prior, x.session), w, t) == Some(p) <==>
      TabSlot(x.session, w, t) == Some(p) || (TabSlot(prior, w, t) == Some(p) && LeavesTab(x, w, t, p))
  {
    MergedTabAt(x.catalog, prior.tabsByWorktree, x.session.tabsByWorktree, w, t);
    if TabAt(x.session.tabsByWorktree, w, t).Some? {
      MergedTabSlot(x.catalog, prior, x.session, w, t);
    }
  }

  lemma TabCarriedOn(s: Session, snapshots: seq<Snapshot>, w: string, t: string, p: string)
    requires snapshots != []
    ensures var init, last := snapshots[..|snapshots| - 1], snapshots[|snapshots| - 1];
      SomeCarriedTab(s, snapshots, w, t, p) <==>
        || TabSlot(last.session, w, t) == Some(p)
        || (SomeCarriedTab(s, init, w, t, p) && LeavesTab(last, w, t, p))
  {
    var n := |snapshots|;
    var init := snapshots[..n - 1];
    assert TabCarried(s, snapshots, n, w, t, p) <==> TabSlot(snapshots[n - 1].session, w, t) == Some(p);
    forall k: nat | k <= n - 1
      ensures TabCarried(s, snapshots, k, w, t, p) <==>
        TabCarried(s, init, k, w, t, p) && LeavesTab(snapshots[n - 1], w, t, p)
    {
      assert forall j | 0 <= j < n - 1 :: init[j] == snapshots[j];
    }
  }

  /** The snapshot has the leaf live without a binding, and its leases allow `p` there. */
  ghost predicate LeavesLeaf(x: Snapshot, prior: Session, t: string, l: string, p: string) {
    && t in x.session.layoutsByTabId && LeafSlot(x.session, t, l) == None
    && LiveIn(x.session.layoutsByTabId[t].root, l)
    && var b := LeafBinding(x.catalog, p, ContextOf(prior, x.session, t), t, l);
       if LeafBindings(x.session, t) == map[] then Restorable(x.catalog.leases, b)
       else HasRestorableLease(x.catalog.leases, b)
  }

  /** The sessions that the snapshots of a run met. */
  function Met(s: Session, snapshots: seq<Snapshot>): (met: seq<Session>)
    ensures |met| == |snapshots|
  {
    if snapshots == [] then []
    else Met(s, snapshots[..|snapshots| - 1]) + [AfterSnapshots(s, snapshots[..|snapshots| - 1])]
  }

  ghost predicate LeafCarried(s: Session, snapshots: seq<Snapshot>, met: seq<Session>, k: nat, t: string, l: string,
                        p: string)
    requires k <= |snapshots| == |met|
  {
    && LeafSlot(if k == 0 then s else snapshots[k - 1].session, t, l) == Some(p)
    && forall j | k <= j < |snapshots| :: LeavesLeaf(snapshots[j], met[j], t, l, p)
  }

  ghost predicate SomeCarriedLeaf(s: Session, snapshots: seq<Snapshot>, met: seq<Session>, t: string, l: string,
                                  p: string)
    requires |snapshots| == |met|
  {
    exists k: nat :: k <= |snapshots| && LeafCarried(s, snapshots, met, k, t, l, p)
  }

  /** The same for leaves, each later snapshot judged in the session it met. */
  lemma {:induction false} LeafSlotHistory(s: Session, snapshots: seq<Snapshot>, t: string, l: string, p: string)
    ensures LeafSlot(AfterSnapshots(s, snapshots), t, l) == Some(p) <==>
      SomeCarriedLeaf(s, snapshots, Met(s, snapshots), t, l, p)
    decreases |snapshots|
  {
    if snapshots == [] {
      assert LeafSlot(s, t, l) == Some(p) <==> LeafCarried(s, snapshots, Met(s, snapshots), 0, t, l, p);
    } else {
      var n := |snapshots|;
      LeafSlotHistory(s, snapshots[..n - 1], t, l, p);
      LeafStep(snapshots[n - 1], AfterSnapshots(s, snapshots[..n - 1]), t, l, p);
      LeafCarriedOn(s, snapshots, Met(s, snapshots), t, l, p);
      MetBefore(s, snapshots);
    }
  }

  lemma MetBefore(s: Session, snapshots: seq<Snapshot>)
    requires snapshots != []
    ensures var n := |snapshots|;
      && Met(s, snapshots)[..n - 1] == Met(s, snapshots[..n - 1])
      && Met(s, snapshots)[n - 1] == AfterSnapshots(s, snapshots[..n - 1])
  {
  }

  lemma LeafCarriedOn(s: Session, snapshots: seq<Snapshot>, met: seq<Session>, t: string, l: string, p: string)
    requires snapshots != [] && |met| == |snapshots|
    ensures var n := |snapshots|;
      var init, before := snapshots[..n - 1], met[..n - 1];
      SomeCarriedLeaf(s, snapshots, met, t, l, p) <==>
        || LeafSlot(snapshots[n - 1].session, t, l) == Some(p)
        || (SomeCarriedLeaf(s, init, before, t, l, p) && LeavesLeaf(snapshots[n - 1], met[n - 1], t, l, p))
  {
    var n := |snapshots|;
    var init, before := snapshots[..n - 1], met[..n - 1];
    assert LeafCarried(s, snapshots, met, n, t, l, p) <==> LeafSlot(snapshots[n - 1].session, t, l) == Some(p);
    forall k: nat | k <= n - 1
      ensures LeafCarried(s, snapshots, met, k, t, l, p) <==>
        LeafCarried(s, init, before, k, t, l, p) && LeavesLeaf(snapshots[n - 1], met[n - 1], t, l, p)
    {
      assert forall j | 0 <= j < n - 1 :: init[j] == snapshots[j] && before[j] == met[j];
    }
  }

  lemma LeafStep(x: Snapshot, prior: Session, t: string, l: string, p: string)
    ensures LeafSlot(MergeSession(x.catalog, prior, x.session), t, l) == Some(p) <==>
      LeafSlot(x.session, t, l) == Some(p) || (LeafSlot(prior, t, l) == Some(p) && LeavesLeaf(x, prior, t, l, p))
  {
    if t in x.session.layoutsByTabId {
      MergedLeafSlot(x.catalog, prior, x.session, t, l);
    }
  }
}
