/**
The registry of open file streams. A handle is opened, registered under a fresh
stream id or closed at once when the registry is full, and closed when its stream
is released: by the pump's exit or by `disposeAll`, whichever comes first.
*/
module StreamRegistry {
  import opened Options

  const MAX_CONCURRENT_STREAMS: nat := 16

  /** File handles are numbered in the order they are opened. */
  datatype Stream = Stream(handle: nat, aborted: bool)

  datatype State = State(streams: map<nat, Stream>, nextId: nat, closes: seq<nat>)

  const EMPTY := State(map[], 1, [])

  predicate Full(s: State) {
    |s.streams| >= MAX_CONCURRENT_STREAMS
  }

  function Registered(s: State, handle: nat): State {
    s.(streams := s.streams[s.nextId := Stream(handle, false)], nextId := s.nextId + 1)
  }

  function Aborted(s: State, id: nat): State {
    if id in s.streams then s.(streams := s.streams[id := s.streams[id].(aborted := true)]) else s
  }

  /** A stream that is gone counts as aborted. */
  predicate IsAborted(s: State, id: nat) {
    id in s.streams ==> s.streams[id].aborted
  }

  function Released(s: State, id: nat): State {
    if id in s.streams then s.(streams := s.streams - {id}, closes := s.closes + [s.streams[id].handle]) else s
  }

  /** Releases the ids below `n`, in ascending order: the order they were inserted in. */
  function ReleasedBelow(s: State, n: nat): State {
    if n == 0 then s else Released(ReleasedBelow(s, n - 1), n - 1)
  }

  function Disposed(s: State): State {
    ReleasedBelow(s, s.nextId)
  }

  // ---------------------------------------------------------------------
  // Handles are conserved
  // ---------------------------------------------------------------------

  /** The registry with how many handles were opened and which ids were issued so far. */
  datatype Machine = Machine(registry: State, handles: nat, issued: seq<nat>)

  datatype Event = Open | Cancel(id: nat) | PumpExit(id: nat) | DisposeAll

  function Step(m: Machine, e: Event): Machine {
    match e
    case Open =>
      if Full(m.registry)
      then m.(handles := m.handles + 1, registry := m.registry.(closes := m.registry.closes + [m.handles]))
      else Machine(Registered(m.registry, m.handles), m.handles + 1, m.issued + [m.registry.nextId])
    case Cancel(id) => m.(registry := Aborted(m.registry, id))
    case PumpExit(id) => m.(registry := Released(m.registry, id))
    case DisposeAll => m.(registry := Disposed(m.registry))
  }

  function Run(m: Machine, es: seq<Event>): Machine
    decreases |es|
  {
    if es == [] then m else Run(Step(m, es[0]), es[1..])
  }

  const START := Machine(EMPTY, 0, [])

  predicate Holds(s: State, handle: nat) {
    exists id :: id in s.streams && s.streams[id].handle == handle
  }

  /** Of the first `handles` handles, those of live streams are open and all others were
      closed exactly once. */
  ghost predicate Conserved(s: State, handles: nat) {
    && s.nextId >= 1
    && (forall id | id in s.streams :: 1 <= id < s.nextId && s.streams[id].handle < handles)
    && (forall i, j | i in s.streams && j in s.streams && s.streams[i].handle == s.streams[j].handle :: i == j)
    && (forall h: nat | h in s.closes :: h < handles)
    && (forall h: nat | h < handles :: multiset(s.closes)[h] == if Holds(s, h) then 0 else 1)
  }

  ghost predicate Sound(m: Machine) {
    && Conserved(m.registry, m.handles)
    && |m.registry.streams| <= MAX_CONCURRENT_STREAMS
    && m.registry.nextId == |m.issued| + 1
    && (forall i | 0 <= i < |m.issued| :: m.issued[i] == i + 1)
  }

  lemma ReleasedConserves(s: State, handles: nat, id: nat)
    requires Conserved(s, handles)
    ensures Conserved(Released(s, id), handles)
    ensures Released(s, id).streams == s.streams - {id} && Released(s, id).nextId == s.nextId
  {
    if id in s.streams {
      var t := Released(s, id);
      var gone := s.streams[id].handle;
      assert !Holds(t, gone);
      forall h: nat | h < handles && h != gone
        ensures Holds(t, h) <==> Holds(s, h)
      {
        if Holds(s, h) {
          var k :| k in s.streams && s.streams[k].handle == h;
          assert k in t.streams && t.streams[k].handle == h;
        }
      }
      assert Holds(s, gone);
    } else {
      assert s.streams - {id} == s.streams;
    }
  }

  lemma {:induction false} ReleasedBelowConserves(s: State, handles: nat, n: nat)
    requires Conserved(s, handles)
    ensures var t := ReleasedBelow(s, n);
      && Conserved(t, handles) && t.nextId == s.nextId
      && t.streams.Keys == (set id | id in s.streams && id >= n)
  {
    if n > 0 {
      ReleasedBelowConserves(s, handles, n - 1);
      ReleasedConserves(ReleasedBelow(s, n - 1), handles, n - 1);
    }
  }

  lemma RegisteredConserves(s: State, handles: nat)
    requires Conserved(s, handles)
    ensures Conserved(Registered(s, handles), handles + 1)
    ensures !Full(s) ==> |Registered(s, handles).streams| <= MAX_CONCURRENT_STREAMS
  {
    var t := Registered(s, handles);
    assert t.streams[s.nextId].handle == handles;
    forall h: nat | h < handles
      ensures Holds(t, h) <==> Holds(s, h)
    {
      if Holds(s, h) {
        var k :| k in s.streams && s.streams[k].handle == h;
        assert k in t.streams && t.streams[k].handle == h;
      }
    }
    assert Holds(t, handles) && handles !in s.closes;
  }

  lemma RefusedConserves(s: State, handles: nat)
    requires Conserved(s, handles)
    ensures Conserved(s.(closes := s.closes + [handles]), handles + 1)
  {
    var t := s.(closes := s.closes + [handles]);
    assert handles !in s.closes && !Holds(s, handles);
    forall h: nat ensures Holds(t, h) <==> Holds(s, h) {
    }
  }

  lemma AbortedConserves(s: State, handles: nat, id: nat)
    requires Conserved(s, handles)
    ensures Conserved(Aborted(s, id), handles) && |Aborted(s, id).streams| == |s.streams|
  {
    var t := Aborted(s, id);
    assert t.streams.Keys == s.streams.Keys;
    assert |t.streams| == |t.streams.Keys| && |s.streams| == |s.streams.Keys|;
    forall h: nat ensures Holds(t, h) <==> Holds(s, h) {
      AbortedHolds(s, id, h);
    }
  }

  lemma AbortedHolds(s: State, id: nat, h: nat)
    ensures Holds(Aborted(s, id), h) <==> Holds(s, h)
  {
    var t := Aborted(s, id);
    if k :| k in s.streams && s.streams[k].handle == h {
      assert k in t.streams && t.streams[k].handle == h;
    }
  }

  lemma OpenSound(m: Machine)
    requires Sound(m)
    ensures Sound(Step(m, Open))
  {
    if Full(m.registry) {
      RefusedSound(m);
    } else {
      RegisteredSound(m);
    }
  }

  lemma RefusedSound(m: Machine)
    requires Sound(m) && Full(m.registry)
    ensures Sound(Step(m, Open))
  {
    RefusedConserves(m.registry, m.handles);
  }

  lemma RegisteredSound(m: Machine)
    requires Sound(m) && !Full(m.registry)
    ensures Sound(Step(m, Open))
  {
    RegisteredConserves(m.registry, m.handles);
  }

  lemma CancelSound(m: Machine, id: nat)
    requires Sound(m)
    ensures Sound(Step(m, Cancel(id)))
  {
    AbortedConserves(m.registry, m.handles, id);
  }

  lemma StepSound(m: Machine, e: Event)
    requires Sound(m)
    ensures Sound(Step(m, e))
  {
    match e
    case Open => OpenSound(m);
    case Cancel(id) => CancelSound(m, id);
    case PumpExit(id) => ReleasedConserves(m.registry, m.handles, id);
    case DisposeAll => ReleasedBelowConserves(m.registry, m.handles, m.registry.nextId);
  }

  lemma {:induction false} RunSound(m: Machine, es: seq<Event>)
    requires Sound(m)
    ensures Sound(Run(m, es))
    decreases |es|
  {
    if es != [] {
      StepSound(m, es[0]);
      RunSound(Step(m, es[0]), es[1..]);
    }
  }

  /** Over any interleaving of opens, cancels, pump exits and disposals: a handle is
      closed exactly once if its stream is over or was refused, and not at all while it
      lives; live streams stay within the cap; every id is issued once. */
  lemma HandlesAreConserved(es: seq<Event>)
    ensures var m := Run(START, es);
      && (forall h: nat :: multiset(m.registry.closes)[h] <= 1)
      && (forall h: nat | h < m.handles :: multiset(m.registry.closes)[h] == 1 <==> !Holds(m.registry, h))
      && |m.registry.streams| <= MAX_CONCURRENT_STREAMS
      && (forall i, j | 0 <= i < j < |m.issued| :: m.issued[i] < m.issued[j])
  {
    assert Sound(START);
    RunSound(START, es);
    var m := Run(START, es);
    forall h: nat ensures multiset(m.registry.closes)[h] <= 1 {
      if h >= m.handles {
        assert h !in m.registry.closes;
      }
    }
  }

  /** After `disposeAll` every handle ever opened is closed, each exactly once. */
  lemma DisposeClosesEverything(es: seq<Event>)
    ensures var m := Step(Run(START, es), DisposeAll);
      m.registry.streams == map[] && forall h: nat | h < m.handles :: multiset(m.registry.closes)[h] == 1
  {
    RunSound(START, es);
    var m := Run(START, es);
    ReleasedBelowConserves(m.registry, m.handles, m.registry.nextId);
    var t := Disposed(m.registry);
    assert t.streams.Keys == {};
    forall h: nat | h < m.handles ensures !Holds(t, h) {
    }
  }

  // ---------------------------------------------------------------------
  // The registry's own form
  // ---------------------------------------------------------------------

  class Registry {
    var streams: map<nat, Stream>
    var nextId: nat
    /** The handles closed so far: what `handle.close()` does outside. */
    var closes: seq<nat>

    ghost function View(): State
      reads this
    {
      State(streams, nextId, closes)
    }

    constructor ()
      ensures View() == EMPTY
    {
      streams, nextId, closes := map[], 1, [];
    }

    /** None is the refusal: `register` throws a TooManyStreamsError. */
    method Register(handle: nat) returns (id: Option<nat>)
      modifies this
      ensures Full(old(View())) ==> id == None && View() == old(View())
      ensures !Full(old(View())) ==> id == Some(old(nextId)) && View() == Registered(old(View()), handle)
    {
      if |streams| >= MAX_CONCURRENT_STREAMS {
        return None;
      }
      var streamId := nextId;
      nextId := nextId + 1;
      streams := streams[streamId := Stream(handle, false)];
      return Some(streamId);
    }

    method Abort(id: nat)
      modifies this`streams
      ensures View() == Aborted(old(View()), id)
    {
      if id in streams {
        streams := streams[id := streams[id].(aborted := true)];
      }
    }

    method CheckAborted(id: nat) returns (aborted: bool)
      ensures aborted == IsAborted(View(), id)
    {
      aborted := if id in streams then streams[id].aborted else true;
    }

    method Release(id: nat)
      modifies this
      ensures View() == Released(old(View()), id)
    {
      if id !in streams {
        return;
      }
      var handle := streams[id].handle;
      streams := streams - {id};
      CloseHandle(handle);
    }

    method CloseHandle(handle: nat)
      modifies this`closes
      ensures closes == old(closes) + [handle]
    {
      closes := closes + [handle];
    }

    method DisposeAll()
      modifies this
      ensures View() == Disposed(old(View()))
    {
      ghost var before := View();
      for id := 0 to nextId
        invariant nextId == before.nextId && closes == before.closes && streams.Keys == before.streams.Keys
        invariant forall i | i in streams :: streams[i].handle == before.streams[i].handle
        invariant forall i | i in streams :: i >= id ==> streams[i] == before.streams[i]
        invariant forall i | i in streams :: i < id ==> streams[i].aborted
      {
        Abort(id);
      }
      ghost var flagged := View();
      for id := 0 to nextId
        invariant nextId == before.nextId
        invariant View() == ReleasedBelow(flagged, id)
      {
        Release(id);
      }
      FlagsDoNotMatter(before, flagged, nextId);
    }

    /** Aborting the streams first changes nothing about how they are released. */
    static lemma {:induction false} FlagsDoNotMatter(s: State, t: State, n: nat)
      requires s.nextId == t.nextId && s.closes == t.closes && s.streams.Keys == t.streams.Keys
      requires forall i | i in s.streams :: i in t.streams && s.streams[i].handle == t.streams[i].handle
      requires forall i | i in s.streams && i >= s.nextId :: s.streams[i] == t.streams[i]
      ensures var a, b := ReleasedBelow(s, n), ReleasedBelow(t, n);
        && a.nextId == b.nextId && a.closes == b.closes && a.streams.Keys == b.streams.Keys
        && (forall i | i in a.streams ::
             && i in s.streams && i in t.streams && i >= n
             && a.streams[i] == s.streams[i] && b.streams[i] == t.streams[i])
        && (n >= s.nextId ==> a == b)
    {
      if n > 0 {
        FlagsDoNotMatter(s, t, n - 1);
      }
    }
  }
}
