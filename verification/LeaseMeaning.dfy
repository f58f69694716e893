/**
What the lease predicates and the lookups of a session mean, said of the panes that a
lease and a binding may be about.
*/
module LeaseMeaning {
  import opened Options
  import opened WorkspaceSession

  /** A pane of a remote target with the pty in it. */
  datatype Pane = Pane(targetId: string, ptyId: string, worktreeId: string, tabId: string, leafId: string)

  /** A pane agrees with what is known of one of its parts. */
  predicate Agrees(known: Option<string>, part: string) {
    known == None || known == Some(part)
  }

  predicate LeaseFits(lease: Lease, pane: Pane) {
    && pane.targetId == lease.targetId && pane.ptyId == lease.ptyId
    && Agrees(lease.worktreeId, pane.worktreeId) && Agrees(lease.tabId, pane.tabId) && Agrees(lease.leafId, pane.leafId)
  }

  predicate BindingFits(b: Binding, pane: Pane) {
    && pane.ptyId == b.ptyId && Agrees(b.targetId, pane.targetId)
    && Agrees(b.worktreeId, pane.worktreeId) && Agrees(b.tabId, pane.tabId) && Agrees(b.leafId, pane.leafId)
  }

  /** A lease matches a binding exactly if every pane it may be about is one the binding may
      be about: what the binding knows, the lease must know too. */
  lemma MatchIffEveryPane(lease: Lease, b: Binding)
    ensures LeaseMatches(lease, b) <==> forall pane :: LeaseFits(lease, pane) ==> BindingFits(b, pane)
  {
    var pane := Pane(lease.targetId, lease.ptyId, PartOf(lease.worktreeId, b.worktreeId),
                     PartOf(lease.tabId, b.tabId), PartOf(lease.leafId, b.leafId));
    assert LeaseFits(lease, pane);
    Unlike(b.worktreeId);
    Unlike(b.tabId);
    Unlike(b.leafId);
  }

  /** What is known, or else something other than the other side knows. */
  function PartOf(known: Option<string>, other: Option<string>): string {
    match known
    case Some(part) => part
    case None => match other case Some(part) => part + "x" case None => ""
  }

  lemma Unlike(known: Option<string>)
    ensures known.Some? ==> |known.value + "x"| != |known.value|
  {
  }

  /** A lease may reference a binding exactly if they may be about the same pane. */
  lemma MayReferenceIffSomePane(lease: Lease, targetId: string, b: Binding)
    requires b.targetId == Some(targetId)
    ensures MayReference(lease, targetId, b) <==> exists pane :: LeaseFits(lease, pane) && BindingFits(b, pane)
  {
    if MayReference(lease, targetId, b) {
      var pane := Pane(targetId, b.ptyId, Either(lease.worktreeId, b.worktreeId), Either(lease.tabId, b.tabId),
                       Either(lease.leafId, b.leafId));
      assert LeaseFits(lease, pane) && BindingFits(b, pane);
    }
  }

  function Either(a: Option<string>, b: Option<string>): string {
    match a case Some(part) => part case None => match b case Some(part) => part case None => ""
  }

  // ---------------------------------------------------------------------
  // Which target a worktree is on
  // ---------------------------------------------------------------------

  predicate SeparatorAt(w: string, k: nat) {
    k + 2 <= |w| && w[k] == ':' && w[k + 1] == ':'
  }

  predicate EndsAtSeparator(w: string, id: string) {
    && |id| <= |w| && id == w[..|id|] && (|id| == |w| || SeparatorAt(w, |id|))
    && forall k: nat | k < |id| :: !SeparatorAt(w, k)
  }

  /** The repo id is what stands before the first separator, all of it if there is none. */
  lemma {:induction false} RepoIdEndsAtSeparator(w: string)
    ensures EndsAtSeparator(w, RepoIdOf(w))
  {
    SeparatorFirst(w);
    if w != "" && !("::" <= w) {
      RepoIdEndsAtSeparator(w[1..]);
      OneFurther(w, RepoIdOf(w[1..]));
    }
  }

  lemma OneFurther(w: string, id: string)
    requires w != "" && !SeparatorAt(w, 0) && EndsAtSeparator(w[1..], id)
    ensures EndsAtSeparator(w, [w[0]] + id)
  {
    var rest := w[1..];
    forall k: nat | 1 <= k ensures SeparatorAt(w, k) <==> SeparatorAt(rest, k - 1) {
    }
    assert w == [w[0]] + rest;
  }

  lemma SeparatorFirst(w: string)
    ensures "::" <= w <==> SeparatorAt(w, 0)
  {
    if SeparatorAt(w, 0) {
      assert w[..2] == "::";
    }
  }

  /** The connection is that of the first repo with the id. */
  lemma {:induction false} ConnectionIsTheFirst(repos: seq<Repo>, repoId: string, k: nat)
    requires k < |repos| && repos[k].id == repoId && forall j | 0 <= j < k :: repos[j].id != repoId
    ensures ConnectionOf(repos, repoId) == repos[k].connectionId
  {
    if k > 0 {
      ConnectionIsTheFirst(repos[1..], repoId, k - 1);
    }
  }

  lemma {:induction false} NoRepoNoConnection(repos: seq<Repo>, repoId: string)
    requires forall j | 0 <= j < |repos| :: repos[j].id != repoId
    ensures ConnectionOf(repos, repoId) == None
  {
    if repos != [] {
      NoRepoNoConnection(repos[1..], repoId);
    }
  }

  /** The worktree a layout is scrubbed in is the first that lists its tab. */
  lemma {:induction false} FirstWorktreeIsFirst(entries: seq<WorktreeTabs>, tabId: string, k: nat)
    requires k < |entries| && (exists j :: 0 <= j < |entries[k].tabs| && entries[k].tabs[j].id == tabId)
    requires forall i, j | 0 <= i < k && 0 <= j < |entries[i].tabs| :: entries[i].tabs[j].id != tabId
    ensures FirstWorktreeOf(entries, tabId) == Some(entries[k].worktreeId)
  {
    if k > 0 {
      FirstWorktreeIsFirst(entries[1..], tabId, k - 1);
    }
  }

  /** Where the separator ends the repo id, and where the repo with it first stands, is the
      target of a worktree. */
  lemma TargetIsTheRepos(repos: seq<Repo>, w: string, n: nat, k: nat)
    requires n <= |w| && EndsAtSeparator(w, w[..n])
    requires k < |repos| && repos[k].id == w[..n] && forall j | 0 <= j < k :: repos[j].id != w[..n]
    ensures TargetOf(repos, w) == repos[k].connectionId
  {
    RepoIdEndsAtSeparator(w);
    ConnectionIsTheFirst(repos, w[..n], k);
  }

  // ---------------------------------------------------------------------
  // When a binding may be restored
  // ---------------------------------------------------------------------

  /** A lease of the pty for the tab, on the target if that is known. */
  predicate LeasedTab(lease: Lease, target: Option<string>, w: string, t: string, p: string) {
    && lease.ptyId == p && lease.worktreeId == Some(w) && lease.tabId == Some(t)
    && Agrees(target, lease.targetId)
  }

  /** A tab's binding may be restored exactly if every lease of it is attached or detached. */
  lemma TabRestorableIff(c: Catalog, p: string, w: string, t: string)
    ensures Restorable(c.leases, TabBinding(c, p, w, t)) <==>
      forall lease | lease in c.leases && LeasedTab(lease, TargetOf(c.repos, w), w, t, p) ::
        lease.state == Attached || lease.state == Detached
  {
    forall lease
      ensures LeaseMatches(lease, TabBinding(c, p, w, t)) <==> LeasedTab(lease, TargetOf(c.repos, w), w, t, p)
    {
    }
  }

  /** A leaf's binding exactly if every lease of it is, where a whole map is missing; where
      part of one is, if some lease of it is. */
  lemma LeafRestorableIff(c: Catalog, p: string, w: string, t: string, l: string)
    ensures var b, target := LeafBinding(c, p, Some(w), t, l), TargetOf(c.repos, w);
      && (Restorable(c.leases, b) <==>
           forall lease | lease in c.leases && LeasedTab(lease, target, w, t, p) && lease.leafId == Some(l) ::
             lease.state == Attached || lease.state == Detached)
      && (HasRestorableLease(c.leases, b) <==>
           exists lease :: lease in c.leases && LeasedTab(lease, target, w, t, p) && lease.leafId == Some(l)
             && (lease.state == Attached || lease.state == Detached))
  {
    forall lease
      ensures LeaseMatches(lease, LeafBinding(c, p, Some(w), t, l))
        <==> LeasedTab(lease, TargetOf(c.repos, w), w, t, p) && lease.leafId == Some(l)
    {
    }
  }

  /** A tab's slot holds its pty id, unless that is absent or empty. */
  lemma TabSlotHolds(s: Session, w: string, t: string, p: string)
    ensures TabSlot(s, w, t) == Some(p) <==>
      TabAt(s.tabsByWorktree, w, t).Some? && TabAt(s.tabsByWorktree, w, t).value.ptyId == Some(p) && |p| > 0
  {
  }
}
