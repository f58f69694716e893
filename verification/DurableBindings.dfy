/**
What the two halves of the store give together: a pty binding that was flushed is in the
session on disk in every state that follows, whatever snapshots, writes and I/O failures
there are.
*/
module DurableBindings {
  import opened Options
  import opened WorkspaceSession
  import opened SessionMerge
  import W = DebouncedWriter

  /** Where a binding is held: in the tab's slot and in the leaf's. */
  datatype Place = Place(worktreeId: string, tabId: string, leafId: string, ptyId: string)

  predicate HeldIn(s: Session, b: Place) {
    Holds(s, b.worktreeId, b.tabId, b.leafId, b.ptyId)
  }

  /** One mutation of the store's state: it leaves the session alone, or it is a stale
      snapshot that arrives while no dead lease matches the binding. */
  ghost predicate Follows(before: Session, after: Session, b: Place) {
    after == before || exists x: Snapshot :: IsMergeOf(x, before, after, b)
  }

  ghost predicate IsMergeOf(x: Snapshot, before: Session, after: Session, b: Place) {
    && StaleButRestorable(x, b.worktreeId, b.tabId, b.leafId, b.ptyId)
    && after == MergeSession(x.catalog, before, x.session)
  }

  /** The session in each version of the state, from version `from` on. */
  ghost predicate Evolves(sessions: nat -> Session, from: nat, b: Place) {
    forall v: nat | from <= v :: Advances(sessions, v, b)
  }

  ghost predicate Advances(sessions: nat -> Session, v: nat, b: Place) {
    Follows(sessions(v), sessions(v + 1), b)
  }

  lemma FollowingHolds(before: Session, after: Session, b: Place)
    requires HeldIn(before, b) && Follows(before, after, b)
    ensures HeldIn(after, b)
  {
    if after != before {
      var x: Snapshot :| IsMergeOf(x, before, after, b);
      TabRestorableImpliesLeafRestorable(x.catalog, b.ptyId, b.worktreeId, b.tabId, b.leafId);
      StaleSnapshotKeepsIff(x.catalog, before, x.session, b.worktreeId, b.tabId, b.leafId, b.ptyId);
    }
  }

  /** Every version from `from` to `v` holds the binding. */
  ghost predicate HeldThrough(sessions: nat -> Session, from: nat, v: nat, b: Place)
    decreases v
  {
    HeldIn(sessions(v), b) && (from < v ==> HeldThrough(sessions, from, v - 1, b))
  }

  lemma HeldOn(sessions: nat -> Session, from: nat, v: nat, b: Place)
    requires Evolves(sessions, from, b) && from <= v && HeldThrough(sessions, from, v, b)
    ensures HeldThrough(sessions, from, v + 1, b)
  {
    assert Advances(sessions, v, b);
    FollowingHolds(sessions(v), sessions(v + 1), b);
  }

  lemma LaterVersionsHold(sessions: nat -> Session, from: nat, v: nat, b: Place)
    requires Evolves(sessions, from, b) && HeldIn(sessions(from), b) && from <= v
    ensures HeldThrough(sessions, from, v, b)
  {
    for k := from to v
      invariant HeldThrough(sessions, from, k, b)
    {
      HeldOn(sessions, from, k, b);
    }
  }

  /** The session on disk holds the binding in every state of every run from `s` on. */
  ghost predicate AlwaysOnDisk(s: W.State, sessions: nat -> Session, b: Place) {
    forall es | W.ValidRun(s, es) :: HeldIn(sessions(W.Run(s, es).disk), b)
  }

  /** A binding that memory has and no earlier version had is on disk for good after a
      flush exactly if no rename already issued carries an earlier version. */
  lemma FlushedBindingIsDurableIff(s: W.State, sessions: nat -> Session, b: Place)
    requires W.Reachable(s) && Evolves(sessions, s.memory, b) && HeldIn(sessions(s.memory), b)
    requires forall v: nat | v < s.memory :: !HeldIn(sessions(v), b)
    ensures AlwaysOnDisk(W.Step(s, W.Flush(true)), sessions, b) <==> W.NoStaleRename(s)
  {
    var after := W.Step(s, W.Flush(true));
    W.FlushIsPermanentIff(s);
    if W.NoStaleRename(s) {
      forall es | W.ValidRun(after, es) ensures HeldIn(sessions(W.Run(after, es).disk), b) {
        LaterVersionsHold(sessions, s.memory, W.Run(after, es).disk, b);
      }
    } else {
      var es :| W.ValidRun(after, es) && W.Run(after, es).disk < s.memory;
      assert !HeldIn(sessions(W.Run(after, es).disk), b);
    }
  }

  /** `persistPtyBinding` for an existing tab: the session is bound, which is a mutation,
      and flushed. */
  lemma PersistedBindingIsDurable(s: W.State, before: Session, sessions: nat -> Session, b: Place)
    requires W.Reachable(s) && b.ptyId != ""
    requires OnlyIn(before.tabsByWorktree, b.tabId, b.worktreeId)
    requires TabAt(before.tabsByWorktree, b.worktreeId, b.tabId).Some?
    requires var bound := s.memory + 1;
      && sessions(bound) == Bind(before, b.worktreeId, b.tabId, b.leafId, b.ptyId)
      && Evolves(sessions, bound, b)
    requires W.NoStaleRename(W.Step(s, W.Mutate))
    ensures AlwaysOnDisk(W.Step(W.Step(s, W.Mutate), W.Flush(true)), sessions, b)
  {
    var mutated := W.Step(s, W.Mutate);
    W.StepReachable(s, W.Mutate);
    BindHolds(before, b.worktreeId, b.tabId, b.leafId, b.ptyId);
    W.FlushIsPermanentIff(mutated);
    var after := W.Step(mutated, W.Flush(true));
    forall es | W.ValidRun(after, es) ensures HeldIn(sessions(W.Run(after, es).disk), b) {
      LaterVersionsHold(sessions, mutated.memory, W.Run(after, es).disk, b);
    }
  }
}
