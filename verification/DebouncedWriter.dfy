/**
The debounced, generation-guarded disk writer of the persistent store.

A mutation arms a timer; the timer starts an asynchronous write; each `await` of
that write is a point where any other event may slip in. A synchronous `flush`
bumps the generation so that older asynchronous writes give up. Contents are
abstracted to version numbers: every mutation makes the next version, and the
file on disk holds one version.
*/
module DebouncedWriter {

  /** Where an asynchronous write is suspended: in `mkdir`, in `writeFile`
      (its snapshot taken), or in `rename` (the generation check passed). */
  datatype Phase = Preparing | Writing(snapshot: nat) | Renaming(snapshot: nat)

  datatype Write = Write(generation: nat, phase: Phase)

  datatype State = State(
    memory: nat,
    disk: nat,
    timerArmed: bool,
    generation: nat,
    inFlight: map<nat, Write>,
    nextWrite: nat,
    flushed: nat  // version of the last flush that succeeded
  )

  const INITIAL := State(0, 0, false, 0, map[], 0, 0)

  datatype Event =
    | Mutate
    | TimerFires
    | MkdirDone(id: nat)
    | WriteFileDone(id: nat, ok: bool)
    | RenameDone(id: nat, ok: bool)
    | Flush(ok: bool)

  /** The events the runtime can deliver in `s`. */
  predicate Enabled(s: State, e: Event) {
    match e
    case Mutate => true
    case TimerFires => s.timerArmed
    case MkdirDone(id) => id in s.inFlight && s.inFlight[id].phase.Preparing?
    case WriteFileDone(id, _) => id in s.inFlight && s.inFlight[id].phase.Writing?
    case RenameDone(id, _) => id in s.inFlight && s.inFlight[id].phase.Renaming?
    case Flush(_) => true
  }

  function Step(s: State, e: Event): State
    requires Enabled(s, e)
  {
    match e
    case Mutate => s.(memory := s.memory + 1, timerArmed := true)
    case TimerFires =>
      s.(timerArmed := false,
         inFlight := s.inFlight[s.nextWrite := Write(s.generation, Preparing)],
         nextWrite := s.nextWrite + 1)
    case MkdirDone(id) =>
      s.(inFlight := s.inFlight[id := s.inFlight[id].(phase := Writing(s.memory))])
    case WriteFileDone(id, ok) =>
      var w := s.inFlight[id];
      if ok && w.generation == s.generation
      then s.(inFlight := s.inFlight[id := w.(phase := Renaming(w.phase.snapshot))])
      else s.(inFlight := s.inFlight - {id})
    case RenameDone(id, ok) =>
      s.(disk := if ok then s.inFlight[id].phase.snapshot else s.disk,
         inFlight := s.inFlight - {id})
    case Flush(ok) =>
      s.(timerArmed := false, generation := s.generation + 1,
         disk := if ok then s.memory else s.disk,
         flushed := if ok then s.memory else s.flushed)
  }

  predicate ValidRun(s: State, es: seq<Event>)
    decreases |es|
  {
    es == [] || (Enabled(s, es[0]) && ValidRun(Step(s, es[0]), es[1..]))
  }

  function Run(s: State, es: seq<Event>): State
    requires ValidRun(s, es)
    decreases |es|
  {
    if es == [] then s else Run(Step(s, es[0]), es[1..])
  }

  lemma RunAppend(s: State, xs: seq<Event>, ys: seq<Event>)
    requires ValidRun(s, xs)
    ensures ValidRun(s, xs + ys) <==> ValidRun(Run(s, xs), ys)
    ensures ValidRun(s, xs + ys) ==> Run(s, xs + ys) == Run(Run(s, xs), ys)
    decreases |xs|
  {
    if xs == [] {
      assert xs + ys == ys;
    } else {
      assert (xs + ys)[1..] == xs[1..] + ys;
      RunAppend(Step(s, xs[0]), xs[1..], ys);
    }
  }

  /** What every reachable state satisfies. */
  ghost predicate Reachable(s: State) {
    && s.disk <= s.memory
    && s.flushed <= s.memory
    && forall id | id in s.inFlight ::
        && id < s.nextWrite
        && s.inFlight[id].generation <= s.generation
        && (!s.inFlight[id].phase.Preparing? ==> s.inFlight[id].phase.snapshot <= s.memory)
  }

  lemma StepReachable(s: State, e: Event)
    requires Reachable(s) && Enabled(s, e)
    ensures Reachable(Step(s, e))
  {
  }

  lemma {:induction false} RunIsReachable(s: State, es: seq<Event>)
    requires Reachable(s) && ValidRun(s, es)
    ensures Reachable(Run(s, es))
    decreases |es|
  {
    if es != [] {
      StepReachable(s, es[0]);
      RunIsReachable(Step(s, es[0]), es[1..]);
    }
  }

  // ---------------------------------------------------------------------
  // A flush that succeeded stays on disk
  // ---------------------------------------------------------------------

  /** No rename already issued carries a version older than memory. This is what
      `flush` would have to check before it writes. */
  predicate NoStaleRename(s: State) {
    forall id | id in s.inFlight && s.inFlight[id].phase.Renaming? ::
      s.inFlight[id].phase.snapshot == s.memory
  }

  /** Nothing that can happen after a successful flush in `s` takes the file back
      below the version it wrote. */
  ghost predicate FlushIsPermanent(s: State) {
    forall es | ValidRun(Step(s, Flush(true)), es) ::
      Run(Step(s, Flush(true)), es).disk >= s.memory
  }

  /** The file holds version `v` or later, and no write can bring it back: writes
      of generation `g` or later took their snapshot at `v` or later, and of the
      older ones only those whose rename carries at least `v` can still land. */
  ghost predicate Durable(s: State, v: nat, g: nat) {
    && s.disk >= v
    && s.memory >= v
    && s.generation >= g
    && forall id | id in s.inFlight ::
        var w := s.inFlight[id];
        && (w.phase.Renaming? ==> w.phase.snapshot >= v)
        && (w.phase.Writing? && w.generation >= g ==> w.phase.snapshot >= v)
  }

  lemma {:induction false} DurableRun(s: State, es: seq<Event>, v: nat, g: nat)
    requires Durable(s, v, g) && ValidRun(s, es)
    ensures Durable(Run(s, es), v, g)
    decreases |es|
  {
    if es != [] {
      assert Durable(Step(s, es[0]), v, g);
      DurableRun(Step(s, es[0]), es[1..], v, g);
    }
  }

  /** Exactly when a flush is safe for good. */
  lemma FlushIsPermanentIff(s: State)
    requires Reachable(s)
    ensures FlushIsPermanent(s) <==> NoStaleRename(s)
  {
    var after := Step(s, Flush(true));
    if NoStaleRename(s) {
      forall es | ValidRun(after, es) ensures Run(after, es).disk >= s.memory {
        DurableRun(after, es, s.memory, after.generation);
      }
    } else {
      var id :| id in s.inFlight && s.inFlight[id].phase.Renaming? && s.inFlight[id].phase.snapshot != s.memory;
      var slip := [RenameDone(id, true)];
      assert slip[1..] == [];
      assert ValidRun(after, slip) && Run(after, slip).disk < s.memory;
    }
  }

  /** In whatever run from start-up: a flush now is safe for good exactly if no rename
      already issued carries an older version. */
  lemma FlushAfterRunIsPermanentIff(es: seq<Event>)
    requires ValidRun(INITIAL, es)
    ensures FlushIsPermanent(Run(INITIAL, es)) <==> NoStaleRename(Run(INITIAL, es))
  {
    RunIsReachable(INITIAL, es);
    FlushIsPermanentIff(Run(INITIAL, es));
  }

  /** Every successful flush of the run happens with no stale rename in flight. */
  predicate CalmFlushes(s: State, es: seq<Event>)
    requires ValidRun(s, es)
    decreases |es|
  {
    es == [] ||
    ((es[0] == Flush(true) ==> NoStaleRename(s)) && CalmFlushes(Step(s, es[0]), es[1..]))
  }

  /** The last successful flush is still safe. */
  ghost predicate FlushKept(s: State) {
    Reachable(s) && exists g: nat :: g <= s.generation && Durable(s, s.flushed, g)
  }

  /** Over whole runs: the file never falls below the last successful flush, unless
      some flush was called while a stale rename was in flight. */
  lemma {:induction false} FlushNeverUndone(s: State, es: seq<Event>)
    requires FlushKept(s) && ValidRun(s, es) && CalmFlushes(s, es)
    ensures FlushKept(Run(s, es))
    ensures Run(s, es).disk >= Run(s, es).flushed
    decreases |es|
  {
    if es != [] {
      var t := Step(s, es[0]);
      if es[0] == Flush(true) {
        assert Durable(t, t.flushed, t.generation);
      } else {
        var g: nat :| g <= s.generation && Durable(s, s.flushed, g);
        assert Durable(t, t.flushed, g);
      }
      FlushNeverUndone(t, es[1..]);
    }
  }

  /** A run in which the check and the rename are one step: as soon as `writeFile`
      passes the check, the next event is that rename. */
  predicate AtomicCommits(s: State, es: seq<Event>)
    requires ValidRun(s, es)
    decreases |es|
  {
    if es == [] then NoRename(s)
    else if NoRename(s) then AtomicCommits(Step(s, es[0]), es[1..])
    else es[0].RenameDone? && AtomicCommits(Step(s, es[0]), es[1..])
  }

  predicate NoRename(s: State) {
    forall id | id in s.inFlight :: !s.inFlight[id].phase.Renaming?
  }

  lemma {:induction false} AtomicCommitsAreCalm(s: State, es: seq<Event>)
    requires ValidRun(s, es) && AtomicCommits(s, es)
    ensures CalmFlushes(s, es)
    decreases |es|
  {
    if es != [] {
      AtomicCommitsAreCalm(Step(s, es[0]), es[1..]);
    }
  }

  /** The stated intent of the generation check, over every run from start-up and
      any number of overlapping writes: with check and rename in one step a
      successful flush is never undone. */
  lemma AtomicCommitsKeepEveryFlush(es: seq<Event>)
    requires ValidRun(INITIAL, es) && AtomicCommits(INITIAL, es)
    ensures Run(INITIAL, es).disk >= Run(INITIAL, es).flushed
  {
    AtomicCommitsAreCalm(INITIAL, es);
    assert Durable(INITIAL, 0, 0);
    FlushNeverUndone(INITIAL, es);
  }

  /** As the code stands the check and the rename are two steps: here a flush of
      version 2 slips between them, and version 1 ends up on disk. */
  lemma FlushSlipsBetweenCheckAndRename()
    ensures
      var es := [Mutate, TimerFires, MkdirDone(0), WriteFileDone(0, true), Mutate, Flush(true), RenameDone(0, true)];
      ValidRun(INITIAL, es) && Run(INITIAL, es).flushed == 2 && Run(INITIAL, es).disk == 1
  {
  }

  // ---------------------------------------------------------------------
  // No mutation is lost
  // ---------------------------------------------------------------------

  /** A write that will still reach the disk if nothing else happens. */
  predicate Live(s: State, id: nat)
    requires id in s.inFlight
  {
    s.inFlight[id].phase.Renaming? || s.inFlight[id].generation == s.generation
  }

  /** The version a write puts on disk if it runs to its end from `s`. */
  function Carries(s: State, id: nat): nat
    requires id in s.inFlight
  {
    if s.inFlight[id].phase.Preparing? then s.memory else s.inFlight[id].phase.snapshot
  }

  /** Completions of asynchronous steps without I/O failure. */
  predicate Draining(es: seq<Event>) {
    forall e | e in es :: e.MkdirDone? || (e.WriteFileDone? && e.ok) || (e.RenameDone? && e.ok)
  }

  /** However the writes in flight interleave, once they are all done the disk holds
      what memory holds now. */
  ghost predicate Settles(s: State) {
    forall es | Draining(es) && ValidRun(s, es) && Run(s, es).inFlight == map[] ::
      Run(s, es).disk == s.memory
  }

  /** Every live write carries the current version, and if the disk is behind there is one. */
  predicate LiveWritesAreCurrent(s: State) {
    && (forall id | id in s.inFlight && Live(s, id) :: Carries(s, id) == s.memory)
    && (s.disk == s.memory || exists id :: id in s.inFlight && Live(s, id))
  }

  lemma {:induction false} DrainKeepsCurrent(s: State, es: seq<Event>)
    requires LiveWritesAreCurrent(s) && Draining(es) && ValidRun(s, es)
    ensures LiveWritesAreCurrent(Run(s, es)) && Run(s, es).memory == s.memory
    decreases |es|
  {
    if es != [] {
      var t := Step(s, es[0]);
      assert es[0] in es;
      var id := es[0].id;
      if id in t.inFlight {
        assert Live(s, id) ==> Live(t, id);
      }
      assert forall other | other in s.inFlight && other != id ::
        other in t.inFlight && (Live(s, other) ==> Live(t, other));
      DrainKeepsCurrent(t, es[1..]);
    }
  }

  /** One write can always be run to its end; it reaches the disk exactly if it is live. */
  lemma FinishWrite(s: State, id: nat) returns (es: seq<Event>)
    requires id in s.inFlight
    ensures Draining(es) && ValidRun(s, es)
    ensures Run(s, es) == s.(inFlight := s.inFlight - {id}, disk := if Live(s, id) then Carries(s, id) else s.disk)
    decreases match s.inFlight[id].phase case Preparing => 2 case Writing(_) => 1 case Renaming(_) => 0
  {
    match s.inFlight[id].phase
    case Renaming(_) =>
      es := [RenameDone(id, true)];
      assert ValidRun(Step(s, es[0]), es[1..]);
    case Writing(_) =>
      var t := Step(s, WriteFileDone(id, true));
      if Live(s, id) {
        var rest := FinishWrite(t, id);
        es := [WriteFileDone(id, true)] + rest;
        assert t.inFlight - {id} == s.inFlight - {id};
      } else {
        es := [WriteFileDone(id, true)];
        assert ValidRun(t, es[1..]);
      }
    case Preparing =>
      var t := Step(s, MkdirDone(id));
      var rest := FinishWrite(t, id);
      es := [MkdirDone(id)] + rest;
      assert t.inFlight - {id} == s.inFlight - {id};
  }

  /** `t` is `s` after all writes but those in `keep` ended. */
  predicate Drained(s: State, t: State, keep: set<nat>) {
    && t.memory == s.memory && t.generation == s.generation
    && t.inFlight.Keys == s.inFlight.Keys * keep
    && (forall id | id in t.inFlight :: t.inFlight[id] == s.inFlight[id])
    && ((forall id | id in s.inFlight && id !in keep :: !Live(s, id)) ==> t.disk == s.disk)
  }

  /** All writes but those in `keep` can be run to their ends first. */
  lemma {:induction false} FinishOthers(s: State, keep: set<nat>) returns (es: seq<Event>)
    ensures Draining(es) && ValidRun(s, es) && Drained(s, Run(s, es), keep)
    decreases |s.inFlight.Keys - keep|
  {
    var others := s.inFlight.Keys - keep;
    if others == {} {
      es := [];
    } else {
      var id :| id in others;
      var first := FinishWrite(s, id);
      var t := Run(s, first);
      assert t.inFlight.Keys - keep == others - {id};
      var rest := FinishOthers(t, keep);
      assert forall x | x in t.inFlight :: x in s.inFlight && Live(t, x) == Live(s, x);
      es := first + rest;
      RunAppend(s, first, rest);
    }
  }

  /** Exactly when what is in flight brings the disk up to date in every order:
      this is what the timer callback would have to check before it starts a write. */
  lemma SettlesIff(s: State)
    ensures Settles(s) <==> LiveWritesAreCurrent(s)
  {
    if LiveWritesAreCurrent(s) {
      forall es | Draining(es) && ValidRun(s, es) && Run(s, es).inFlight == map[]
        ensures Run(s, es).disk == s.memory
      {
        DrainKeepsCurrent(s, es);
      }
    } else if id :| id in s.inFlight && Live(s, id) && Carries(s, id) != s.memory {
      var before := FinishOthers(s, {id});
      var t := Run(s, before);
      var last := FinishWrite(t, id);
      RunAppend(s, before, last);
      assert Live(t, id) && Carries(t, id) == Carries(s, id);
      assert Run(s, before + last).inFlight == map[];
      assert !Settles(s);
    } else {
      var es := FinishOthers(s, {});
      assert Run(s, es).inFlight == map[];
      assert !Settles(s);
    }
  }

  /** Memory is on disk, or on its way there: the timer is armed, or the writes in flight
      bring it there in every order. */
  ghost predicate Kept(s: State) {
    s.timerArmed || LiveWritesAreCurrent(s)
  }

  predicate LiveWritesCarryMemory(s: State) {
    forall id | id in s.inFlight && Live(s, id) :: Carries(s, id) == s.memory
  }

  /** Losing write `id` would lose nothing. */
  ghost predicate Dispensable(s: State, id: nat)
    requires id in s.inFlight
  {
    || s.timerArmed || !Live(s, id) || s.disk == s.memory
    || exists other :: other in s.inFlight && other != id && Live(s, other)
  }

  /** What an event must meet to lose no mutation. The timer may start a write only beside
      live writes that carry memory, in particular beside none; a flush may overtake no
      stale rename; and where I/O fails, something else must hold what it would have saved. */
  ghost predicate Orderly(s: State, e: Event)
    requires Enabled(s, e)
  {
    match e
    case Mutate => true
    case TimerFires => LiveWritesCarryMemory(s)
    case MkdirDone(_) => true
    case WriteFileDone(id, ok) => ok || Dispensable(s, id)
    case RenameDone(id, ok) => ok || Dispensable(s, id)
    case Flush(ok) =>
      NoStaleRename(s) && (ok || s.disk == s.memory || exists id :: id in s.inFlight && s.inFlight[id].phase.Renaming?)
  }

  /** That is exactly what it must meet. */
  lemma KeptIffOrderly(s: State, e: Event)
    requires Reachable(s) && Kept(s) && Enabled(s, e)
    ensures Kept(Step(s, e)) <==> Orderly(s, e)
  {
    match e
    case Mutate =>
    case TimerFires => TimerKeepsIff(s);
    case Flush(ok) => FlushKeepsIff(s, ok);
    case MkdirDone(id) => if !s.timerArmed { StepKeepsCurrent(s, e); }
    case WriteFileDone(id, ok) =>
      if !s.timerArmed {
        if ok { StepKeepsCurrent(s, e); } else { LosingKeepsIff(s, id, Step(s, e)); }
      }
    case RenameDone(id, ok) =>
      if !s.timerArmed {
        if ok { StepKeepsCurrent(s, e); } else { LosingKeepsIff(s, id, Step(s, e)); }
      }
  }

  lemma TimerKeepsIff(s: State)
    requires Reachable(s) && s.timerArmed
    ensures Kept(Step(s, TimerFires)) <==> LiveWritesCarryMemory(s)
  {
    var t := Step(s, TimerFires);
    assert s.nextWrite in t.inFlight && Live(t, s.nextWrite) && Carries(t, s.nextWrite) == t.memory;
    assert forall id | id in s.inFlight ::
      id in t.inFlight && Live(t, id) == Live(s, id) && Carries(t, id) == Carries(s, id);
  }

  lemma FlushKeepsIff(s: State, ok: bool)
    requires Reachable(s)
    ensures Kept(Step(s, Flush(ok))) <==> Orderly(s, Flush(ok))
  {
    var t := Step(s, Flush(ok));
    assert forall id | id in s.inFlight :: Live(t, id) == s.inFlight[id].phase.Renaming?;
  }

  /** Write `id` is gone, and with it what it carried. */
  lemma LosingKeepsIff(s: State, id: nat, t: State)
    requires id in s.inFlight && !s.timerArmed && LiveWritesAreCurrent(s)
    requires t == s.(inFlight := s.inFlight - {id})
    ensures Kept(t) <==> Dispensable(s, id)
  {
    assert forall k | k in t.inFlight ::
      k in s.inFlight && k != id && Live(t, k) == Live(s, k) && Carries(t, k) == Carries(s, k);
    assert forall k | k in s.inFlight && k != id :: k in t.inFlight;
  }

  ghost predicate OrderlyRun(s: State, es: seq<Event>)
    requires ValidRun(s, es)
    decreases |es|
  {
    es == [] || (Orderly(s, es[0]) && OrderlyRun(Step(s, es[0]), es[1..]))
  }

  ghost predicate AlwaysKept(s: State, es: seq<Event>)
    requires ValidRun(s, es)
    decreases |es|
  {
    Kept(s) && (es == [] || AlwaysKept(Step(s, es[0]), es[1..]))
  }

  /** Memory is on disk or on its way there in every state of a run exactly if the run is
      orderly. */
  lemma {:induction false} NoMutationIsLost(s: State, es: seq<Event>)
    requires Reachable(s) && Kept(s) && ValidRun(s, es)
    ensures AlwaysKept(s, es) <==> OrderlyRun(s, es)
    ensures AlwaysKept(s, es) ==> Run(s, es).timerArmed || Settles(Run(s, es))
    decreases |es|
  {
    if es == [] {
      SettlesIff(s);
    } else {
      KeptIffOrderly(s, es[0]);
      StepReachable(s, es[0]);
      if Orderly(s, es[0]) {
        NoMutationIsLost(Step(s, es[0]), es[1..]);
      }
    }
  }

  /** From start-up: in an orderly run, whatever is not on disk yet will be. */
  lemma NoMutationIsLostFromStartUp(es: seq<Event>)
    requires ValidRun(INITIAL, es)
    ensures AlwaysKept(INITIAL, es) <==> OrderlyRun(INITIAL, es)
    ensures OrderlyRun(INITIAL, es) ==> Run(INITIAL, es).timerArmed || Settles(Run(INITIAL, es))
  {
    NoMutationIsLost(INITIAL, es);
  }

  lemma StepKeepsCurrent(s: State, e: Event)
    requires LiveWritesAreCurrent(s) && Draining([e]) && Enabled(s, e)
    ensures LiveWritesAreCurrent(Step(s, e))
  {
    assert [e][1..] == [] && e in [e];
    DrainKeepsCurrent(s, [e]);
  }

  /** Without that proviso a version is lost: two writes of one generation commit
      out of order, the run ends quiet, and the disk is one version behind. */
  lemma OverlappingWritesLoseAVersion()
    ensures exists es ::
      && ValidRun(INITIAL, es)
      && var s := Run(INITIAL, es);
         s.memory == 2 && s.disk == 1 && !s.timerArmed && s.inFlight == map[]
  {
    var s1 := Step(Step(Step(INITIAL, Mutate), TimerFires), MkdirDone(0));
    var s2 := Step(Step(Step(s1, Mutate), TimerFires), MkdirDone(1));
    var opening := [Mutate, TimerFires, MkdirDone(0), Mutate, TimerFires, MkdirDone(1)];
    assert ValidRun(INITIAL, opening) && Run(INITIAL, opening) == s2 by {
      RunTriple(INITIAL, Mutate, TimerFires, MkdirDone(0));
      RunTriple(s1, Mutate, TimerFires, MkdirDone(1));
      RunAppend(INITIAL, [Mutate, TimerFires, MkdirDone(0)], [Mutate, TimerFires, MkdirDone(1)]);
      assert opening == [Mutate, TimerFires, MkdirDone(0)] + [Mutate, TimerFires, MkdirDone(1)];
    }
    var newer := FinishWrite(s2, 1);
    var s3 := Run(s2, newer);
    var older := FinishWrite(s3, 0);
    RunAppend(s2, newer, older);
    RunAppend(INITIAL, opening, newer + older);
    assert s3.inFlight - {0} == map[];
  }

  lemma RunTriple(s: State, a: Event, b: Event, c: Event)
    requires Enabled(s, a) && Enabled(Step(s, a), b) && Enabled(Step(Step(s, a), b), c)
    ensures ValidRun(s, [a, b, c]) && Run(s, [a, b, c]) == Step(Step(Step(s, a), b), c)
  {
    assert [b, c][1..] == [c] && [a, b, c][1..] == [b, c];
    RunSingle(Step(Step(s, a), b), c);
  }

  lemma RunSingle(s: State, e: Event)
    requires Enabled(s, e)
    ensures ValidRun(s, [e]) && Run(s, [e]) == Step(s, e)
  {
    var none: seq<Event> := [e][1..];
    assert none == [] && ValidRun(Step(s, e), none) && Run(Step(s, e), none) == Step(s, e);
  }

  // ---------------------------------------------------------------------
  // The store's own form: fields updated by its methods
  // ---------------------------------------------------------------------

  class DebouncedStore {
    var memory: nat
    var disk: nat
    var timerArmed: bool
    var writeGeneration: nat
    var writes: map<nat, Write>
    var nextWrite: nat
    ghost var flushed: nat

    ghost function View(): State
      reads this
    {
      State(memory, disk, timerArmed, writeGeneration, writes, nextWrite, flushed)
    }

    constructor ()
      ensures View() == INITIAL
    {
      memory, disk, timerArmed, writeGeneration, writes, nextWrite := 0, 0, false, 0, map[], 0;
      flushed := 0;
    }

    /** Any setter: it changes the state and then calls `scheduleSave`. */
    method Mutate()
      modifies this
      ensures View() == Step(old(View()), Event.Mutate)
    {
      memory := memory + 1;
      ScheduleSave();
    }

    method ScheduleSave()
      modifies this`timerArmed
      ensures timerArmed
    {
      if timerArmed {
        timerArmed := false;
      }
      timerArmed := true;
    }

    /** The timer callback up to the first `await` of the write it starts. */
    method OnTimer()
      requires timerArmed
      modifies this
      ensures View() == Step(old(View()), TimerFires)
    {
      timerArmed := false;
      var generation := writeGeneration;
      writes := writes[nextWrite := Write(generation, Preparing)];
      nextWrite := nextWrite + 1;
    }

    method OnMkdirDone(id: nat)
      requires Enabled(View(), MkdirDone(id))
      modifies this
      ensures View() == Step(old(View()), MkdirDone(id))
    {
      writes := writes[id := writes[id].(phase := Writing(memory))];
    }

    method OnWriteFileDone(id: nat, ok: bool)
      requires Enabled(View(), WriteFileDone(id, ok))
      modifies this
      ensures View() == Step(old(View()), WriteFileDone(id, ok))
    {
      var write := writes[id];
      if !ok {
        writes := writes - {id};
      } else if writeGeneration != write.generation {
        writes := writes - {id};
      } else {
        writes := writes[id := write.(phase := Renaming(write.phase.snapshot))];
      }
    }

    method OnRenameDone(id: nat, ok: bool)
      requires Enabled(View(), RenameDone(id, ok))
      modifies this
      ensures View() == Step(old(View()), RenameDone(id, ok))
    {
      if ok {
        disk := writes[id].phase.snapshot;
      }
      writes := writes - {id};
    }

    /** `ok` says whether the synchronous write succeeds; a failure is logged and swallowed. */
    method Flush(ok: bool)
      modifies this
      ensures View() == Step(old(View()), Event.Flush(ok))
    {
      if timerArmed {
        timerArmed := false;
      }
      writeGeneration := writeGeneration + 1;
      if ok {
        disk := memory;
        flushed := memory;
      }
    }
  }
}
