/**
The fallback file lister: a recursive directory walk that gives up at a file cap or a
deadline, and then rejects instead of returning what it has found so far.
*/
module ReaddirWalker {
  import opened Slashes

  const MAX_FILES: nat := 10000
  const TIMEOUT_MS: nat := 10000

  /** No entry of a directory has an empty name. */
  type FileName = s: string | s != "" witness "f"

  datatype Entry = Directory(name: FileName, content: Content) | File(name: FileName) | Other(name: FileName)

  /** What reading a directory gives: its entries, or an error. */
  datatype Content = Unreadable | Entries(list: seq<Entry>)

  /** The shared filter: which relative paths are excluded, which directories blocked. */
  datatype Policy = Policy(excluded: string -> bool, blocked: string -> bool)

  datatype Outcome = Listed(files: seq<string>) | Exceeded | TimedOut

  // ---------------------------------------------------------------------
  // The complete listing
  // ---------------------------------------------------------------------

  function Joined(dir: string, name: string): string {
    if dir == "" then name else dir + "/" + name
  }

  predicate Descends(p: Policy, name: string) {
    name != "node_modules" && !p.blocked(name)
  }

  function RelativePath(dir: string, name: string): string {
    Slashed(Joined(dir, name))
  }

  /** Every included file below `dir`, depth first; an unreadable directory has none. */
  function Listing(p: Policy, content: Content, dir: string): seq<string>
    decreases content, if content.Unreadable? then 0 else |content.list| + 1
  {
    if content.Unreadable? then [] else ListFrom(p, content, 0, dir)
  }

  function ListFrom(p: Policy, content: Content, i: nat, dir: string): seq<string>
    requires content.Entries? && i <= |content.list|
    decreases content, |content.list| - i
  {
    if i == |content.list| then []
    else ListEntry(p, content, i, dir) + ListFrom(p, content, i + 1, dir)
  }

  function ListEntry(p: Policy, content: Content, i: nat, dir: string): seq<string>
    requires content.Entries? && i < |content.list|
    decreases content, 0
  {
    var e := content.list[i];
    if p.excluded(RelativePath(dir, e.name)) then []
    else match e
      case Directory(name, sub) => if Descends(p, name) then Listing(p, sub, Joined(dir, name)) else []
      case File(name) => [RelativePath(dir, name)]
      case Other(_) => []
  }

  // ---------------------------------------------------------------------
  // Which files are listed
  // ---------------------------------------------------------------------

  function JoinedNames(names: seq<FileName>): string {
    if names == [] then ""
    else if |names| == 1 then names[0]
    else JoinedNames(names[..|names| - 1]) + "/" + names[|names| - 1]
  }

  /** `turns` lead, entry by entry, from a directory below the names `above` to the file
      that is listed as `path`: nothing on the way is excluded, no directory on the way is
      blocked. */
  predicate WayTo(p: Policy, content: Content, above: seq<FileName>, turns: seq<int>, path: string)
    decreases turns
  {
    && turns != [] && content.Entries? && 0 <= turns[0] < |content.list|
    && var e := content.list[turns[0]];
       var here := above + [e.name];
       && !p.excluded(Slashed(JoinedNames(here)))
       && if |turns| == 1 then e.File? && path == Slashed(JoinedNames(here))
          else
            && e.Directory? && e.name != "node_modules" && !p.blocked(e.name)
            && WayTo(p, e.content, here, turns[1..], path)
  }

  ghost predicate HasWay(p: Policy, root: Content, path: string) {
    exists turns :: WayTo(p, root, [], turns, path)
  }

  /** A path is in the listing exactly if some way through the tree leads to its file. */
  lemma ListingIff(p: Policy, root: Content, path: string)
    ensures path in Listing(p, root, "") <==> HasWay(p, root, path)
  {
    if path in Listing(p, root, "") {
      var turns := ListedHasWay(p, root, [], path);
    }
    forall turns | WayTo(p, root, [], turns, path) ensures path in Listing(p, root, "") {
      WayLeadsToListed(p, root, [], turns, path);
    }
  }

  lemma {:induction false} WayLeadsToListed(p: Policy, content: Content, above: seq<FileName>, turns: seq<int>,
                                            path: string)
    requires WayTo(p, content, above, turns, path)
    ensures path in Listing(p, content, JoinedNames(above))
    decreases turns
  {
    var e := content.list[turns[0]];
    JoinedIsJoinedNames(above, e.name);
    if |turns| > 1 {
      WayLeadsToListed(p, e.content, above + [e.name], turns[1..], path);
    }
    EntryIsListed(p, content, 0, turns[0], JoinedNames(above), path);
  }

  lemma {:induction false} ListedHasWay(p: Policy, content: Content, above: seq<FileName>, path: string)
    returns (turns: seq<int>)
    requires path in Listing(p, content, JoinedNames(above))
    ensures WayTo(p, content, above, turns, path)
    decreases content
  {
    var k := EntryOfListed(p, content, 0, JoinedNames(above), path);
    var e := content.list[k];
    JoinedIsJoinedNames(above, e.name);
    turns := [k];
    if e.Directory? {
      var behind := ListedHasWay(p, e.content, above + [e.name], path);
      turns := [k] + behind;
      assert turns[1..] == behind;
    }
  }

  lemma InEntryOrBehind(p: Policy, content: Content, i: nat, dir: string, path: string)
    requires content.Entries? && i < |content.list|
    ensures path in ListFrom(p, content, i, dir)
       <==> path in ListEntry(p, content, i, dir) || path in ListFrom(p, content, i + 1, dir)
  {
  }

  lemma {:induction false} EntryIsListed(p: Policy, content: Content, i: nat, k: nat, dir: string, path: string)
    requires content.Entries? && i <= k < |content.list| && path in ListEntry(p, content, k, dir)
    ensures path in ListFrom(p, content, i, dir)
    decreases k - i
  {
    if i == k {
      InEntryOrBehind(p, content, i, dir, path);
    } else {
      EntryIsListed(p, content, i + 1, k, dir, path);
      InEntryOrBehind(p, content, i, dir, path);
    }
  }

  lemma {:induction false} EntryOfListed(p: Policy, content: Content, i: nat, dir: string, path: string)
    returns (k: nat)
    requires content.Entries? && i <= |content.list| && path in ListFrom(p, content, i, dir)
    ensures i <= k < |content.list| && path in ListEntry(p, content, k, dir)
    decreases |content.list| - i
  {
    if path in ListEntry(p, content, i, dir) {
      k := i;
    } else {
      k := EntryOfListed(p, content, i + 1, dir, path);
    }
  }

  lemma JoinedIsJoinedNames(above: seq<FileName>, name: FileName)
    ensures JoinedNames(above + [name]) == Joined(JoinedNames(above), name)
  {
    assert (above + [name])[..|above|] == above;
  }

  // ---------------------------------------------------------------------
  // The trace of an unlimited walk
  // ---------------------------------------------------------------------

  /** What the walk does: look at the limits, or add a file. */
  datatype Step = Check | Push(path: string)

  function Trace(p: Policy, content: Content, dir: string): seq<Step>
    decreases content, if content.Unreadable? then 0 else |content.list| + 1
  {
    [Check] + if content.Unreadable? then [] else TraceFrom(p, content, 0, dir)
  }

  function TraceFrom(p: Policy, content: Content, i: nat, dir: string): seq<Step>
    requires content.Entries? && i <= |content.list|
    decreases content, |content.list| - i
  {
    if i == |content.list| then []
    else [Check] + TraceEntry(p, content, i, dir) + TraceFrom(p, content, i + 1, dir)
  }

  function TraceEntry(p: Policy, content: Content, i: nat, dir: string): seq<Step>
    requires content.Entries? && i < |content.list|
    decreases content, 0
  {
    var e := content.list[i];
    if p.excluded(RelativePath(dir, e.name)) then []
    else match e
      case Directory(name, sub) => if Descends(p, name) then Trace(p, sub, Joined(dir, name)) else []
      case File(name) => [Push(RelativePath(dir, name))]
      case Other(_) => []
  }

  lemma TraceFromUnfolded(p: Policy, content: Content, i: nat, dir: string)
    requires content.Entries? && i < |content.list|
    ensures TraceFrom(p, content, i, dir)
         == [Check] + (TraceEntry(p, content, i, dir) + TraceFrom(p, content, i + 1, dir))
  {
  }

  lemma TraceMovesOn(p: Policy, content: Content, i: nat, dir: string, done: seq<Step>)
    requires content.Entries? && i < |content.list|
    ensures done + TraceFrom(p, content, i, dir)
         == done + ([Check] + TraceEntry(p, content, i, dir)) + TraceFrom(p, content, i + 1, dir)
  {
    TraceFromUnfolded(p, content, i, dir);
  }

  function Files(t: seq<Step>): seq<string> {
    if t == [] then [] else (if t[0].Push? then [t[0].path] else []) + Files(t[1..])
  }

  function Checks(t: seq<Step>): nat {
    if t == [] then 0 else (if t[0].Check? then 1 else 0) + Checks(t[1..])
  }

  /** Whether every check of the trace finds room for another file and time left. `tick`
      numbers the readings of the clock, `count` the files found before. */
  predicate Passes(clock: nat -> int, deadline: int, tick: nat, count: nat, t: seq<Step>)
    decreases t
  {
    t == []
    || (if t[0].Check? then
          count < MAX_FILES && clock(tick) <= deadline && Passes(clock, deadline, tick + 1, count, t[1..])
        else Passes(clock, deadline, tick, count + 1, t[1..]))
  }

  /** How far the trace is walked: up to the first check that fails. */
  function Reach(clock: nat -> int, deadline: int, tick: nat, count: nat, t: seq<Step>): (n: nat)
    ensures n <= |t|
    decreases t
  {
    if t == [] then 0
    else if t[0].Check? then
      if count < MAX_FILES && clock(tick) <= deadline then 1 + Reach(clock, deadline, tick + 1, count, t[1..]) else 0
    else 1 + Reach(clock, deadline, tick, count + 1, t[1..])
  }

  function Passed(clock: nat -> int, deadline: int, tick: nat, count: nat, t: seq<Step>): seq<Step> {
    t[..Reach(clock, deadline, tick, count, t)]
  }

  lemma {:induction false} FilesAppend(a: seq<Step>, b: seq<Step>)
    ensures Files(a + b) == Files(a) + Files(b)
  {
    if a == [] {
      assert a + b == b;
    } else {
      FilesAppend(a[1..], b);
      assert (a + b)[1..] == a[1..] + b && (a + b)[0] == a[0];
      InFront(if a[0].Push? then [a[0].path] else [], Files(a[1..]), Files(b));
    }
  }

  lemma InFront<T>(first: seq<T>, a: seq<T>, b: seq<T>)
    ensures first + (a + b) == first + a + b
  {
  }

  lemma {:induction false} ChecksAppend(a: seq<Step>, b: seq<Step>)
    ensures Checks(a + b) == Checks(a) + Checks(b)
  {
    if a == [] {
      assert a + b == b;
    } else {
      assert (a + b)[1..] == a[1..] + b;
      ChecksAppend(a[1..], b);
    }
  }

  lemma Appended(a: seq<Step>, b: seq<Step>)
    ensures Files(a + b) == Files(a) + Files(b)
    ensures Checks(a + b) == Checks(a) + Checks(b)
  {
    FilesAppend(a, b);
    ChecksAppend(a, b);
  }

  lemma {:induction false} PassesOn(clock: nat -> int, deadline: int, tick: nat, count: nat, a: seq<Step>, b: seq<Step>)
    ensures Passes(clock, deadline, tick, count, a + b)
        <==> Passes(clock, deadline, tick, count, a)
             && Passes(clock, deadline, tick + Checks(a), count + |Files(a)|, b)
    decreases a
  {
    if a == [] {
      assert a + b == b;
    } else {
      assert (a + b)[1..] == a[1..] + b;
      if a[0].Check? {
        PassesOn(clock, deadline, tick + 1, count, a[1..], b);
      } else {
        PassesOn(clock, deadline, tick, count + 1, a[1..], b);
      }
    }
  }

  /** The `i`-th step, if it is a check, comes with fewer files than the cap found before
      it, and in time. */
  predicate ChecksOut(clock: nat -> int, deadline: int, tick: nat, count: nat, t: seq<Step>, i: nat)
    requires i < |t|
  {
    t[i].Check? ==> count + |Files(t[..i])| < MAX_FILES && clock(tick + Checks(t[..i])) <= deadline
  }

  /** A walk passes exactly if each of its checks does, whatever was found before it. */
  lemma {:induction false} PassesIff(clock: nat -> int, deadline: int, tick: nat, count: nat, t: seq<Step>)
    ensures Passes(clock, deadline, tick, count, t)
       <==> forall i | 0 <= i < |t| :: ChecksOut(clock, deadline, tick, count, t, i)
    decreases |t|
  {
    if t != [] {
      var n := |t| - 1;
      var init := t[..n];
      PassesIff(clock, deadline, tick, count, init);
      forall i | 0 <= i < n
        ensures ChecksOut(clock, deadline, tick, count, t, i) <==> ChecksOut(clock, deadline, tick, count, init, i)
      {
        assert init[..i] == t[..i];
      }
      assert t == init + [t[n]] && [t[n]][1..] == [];
      PassesOn(clock, deadline, tick, count, init, [t[n]]);
      assert Passes(clock, deadline, tick + Checks(init), count + |Files(init)|, [t[n]])
        <==> ChecksOut(clock, deadline, tick, count, t, n);
    }
  }

  lemma {:induction false} ReachOn(clock: nat -> int, deadline: int, tick: nat, count: nat, a: seq<Step>, b: seq<Step>)
    ensures Reach(clock, deadline, tick, count, a + b)
         == if Passes(clock, deadline, tick, count, a)
            then |a| + Reach(clock, deadline, tick + Checks(a), count + |Files(a)|, b)
            else Reach(clock, deadline, tick, count, a)
    decreases a
  {
    if a == [] {
      assert a + b == b;
    } else {
      assert (a + b)[1..] == a[1..] + b;
      if a[0].Check? {
        ReachOn(clock, deadline, tick + 1, count, a[1..], b);
      } else {
        ReachOn(clock, deadline, tick, count + 1, a[1..], b);
      }
    }
  }

  lemma PassedOn(clock: nat -> int, deadline: int, tick: nat, count: nat, a: seq<Step>, b: seq<Step>)
    ensures Passed(clock, deadline, tick, count, a + b)
         == if Passes(clock, deadline, tick, count, a)
            then a + Passed(clock, deadline, tick + Checks(a), count + |Files(a)|, b)
            else Passed(clock, deadline, tick, count, a)
  {
    ReachOn(clock, deadline, tick, count, a, b);
    Prefixes(a, b, Reach(clock, deadline, tick + Checks(a), count + |Files(a)|, b));
    PrefixOfFirst(a, b, Reach(clock, deadline, tick, count, a));
  }

  lemma Prefixes<T>(a: seq<T>, b: seq<T>, n: nat)
    requires n <= |b|
    ensures (a + b)[..|a| + n] == a + b[..n]
  {
  }

  lemma PrefixOfFirst<T>(a: seq<T>, b: seq<T>, n: nat)
    requires n <= |a|
    ensures (a + b)[..n] == a[..n]
  {
  }

  /** The files an unlimited walk adds are the complete listing. */
  lemma {:induction false} TraceLists(p: Policy, content: Content, dir: string)
    ensures Files(Trace(p, content, dir)) == Listing(p, content, dir)
    decreases content, if content.Unreadable? then 0 else |content.list| + 1
  {
    if content.Entries? {
      TraceFromLists(p, content, 0, dir);
      assert Trace(p, content, dir)[1..] == TraceFrom(p, content, 0, dir);
    }
  }

  lemma {:induction false} TraceFromLists(p: Policy, content: Content, i: nat, dir: string)
    requires content.Entries? && i <= |content.list|
    ensures Files(TraceFrom(p, content, i, dir)) == ListFrom(p, content, i, dir)
    decreases content, |content.list| - i
  {
    if i < |content.list| {
      TraceFromLists(p, content, i + 1, dir);
      TraceEntryLists(p, content, i, dir);
      Unrolled(TraceEntry(p, content, i, dir), TraceFrom(p, content, i + 1, dir));
    }
  }

  lemma Unrolled(entry: seq<Step>, rest: seq<Step>)
    ensures Files([Check] + entry + rest) == Files(entry) + Files(rest)
  {
    FilesAppend([Check] + entry, rest);
    FilesOfCheck(entry);
  }

  lemma FilesOfCheck(t: seq<Step>)
    ensures Files([Check] + t) == Files(t)
  {
    assert ([Check] + t)[1..] == t;
  }

  lemma {:induction false} TraceEntryLists(p: Policy, content: Content, i: nat, dir: string)
    requires content.Entries? && i < |content.list|
    ensures Files(TraceEntry(p, content, i, dir)) == ListEntry(p, content, i, dir)
    decreases content, 0
  {
    var e := content.list[i];
    if e.Directory? {
      TraceLists(p, e.content, Joined(dir, e.name));
    } else if e.File? {
      assert [Push(RelativePath(dir, e.name))][1..] == [];
    }
  }

  // ---------------------------------------------------------------------
  // The walker
  // ---------------------------------------------------------------------

  ghost predicate Steady(clock: nat -> int) {
    forall i: nat, j: nat | i <= j :: clock(i) <= clock(j)
  }

  datatype Progress = Progress(files: seq<string>, hitLimit: bool, ticks: nat)

  /** A limit has been seen, and is still exceeded if the clock does not go back. */
  predicate Over(clock: nat -> int, deadline: int, s: Progress) {
    |s.files| >= MAX_FILES || (s.ticks > 0 && clock(s.ticks - 1) > deadline)
  }

  /** The files found when the first check of `t` fails. */
  function Found(clock: nat -> int, deadline: int, tick: nat, before: seq<string>, t: seq<Step>): seq<string> {
    before + Files(Passed(clock, deadline, tick, |before|, t))
  }

  lemma FoundOn(clock: nat -> int, deadline: int, tick: nat, before: seq<string>, s: seq<Step>, t: seq<Step>)
    ensures Found(clock, deadline, tick, before, s + t)
         == if Passes(clock, deadline, tick, |before|, s)
            then Found(clock, deadline, tick + Checks(s), before + Files(s), t)
            else Found(clock, deadline, tick, before, s)
  {
    PassedOn(clock, deadline, tick, |before|, s, t);
    if Passes(clock, deadline, tick, |before|, s) {
      FoundAfter(before, s, Passed(clock, deadline, tick + Checks(s), |before| + |Files(s)|, t));
    }
  }

  lemma FoundAfter(before: seq<string>, s: seq<Step>, passed: seq<Step>)
    ensures before + Files(s + passed) == before + Files(s) + Files(passed)
  {
    FilesAppend(s, passed);
  }

  /** The trace `t`, walked from `a`, ends in `b`: complete, or cut at its first failing
      check if the clock is steady. */
  ghost predicate Leads(clock: nat -> int, deadline: int, a: Progress, b: Progress, t: seq<Step>) {
    if a.hitLimit then
      b.hitLimit && (Steady(clock) && Over(clock, deadline, a) ==> b.files == a.files && Over(clock, deadline, b))
    else if Passes(clock, deadline, a.ticks, |a.files|, t) then
      b == Progress(a.files + Files(t), false, a.ticks + Checks(t))
    else
      b.hitLimit && (Steady(clock) ==>
        b.files == Found(clock, deadline, a.ticks, a.files, t) && Over(clock, deadline, b))
  }

  lemma LeadsOn(clock: nat -> int, deadline: int, a: Progress, b: Progress, c: Progress, s: seq<Step>, t: seq<Step>)
    requires Leads(clock, deadline, a, b, s) && Leads(clock, deadline, b, c, t)
    ensures Leads(clock, deadline, a, c, s + t)
  {
    if !a.hitLimit {
      PassesOn(clock, deadline, a.ticks, |a.files|, s, t);
      if Passes(clock, deadline, a.ticks, |a.files|, s) {
        PassingLeadsOn(clock, deadline, a, b, c, s, t);
      } else {
        FoundOn(clock, deadline, a.ticks, a.files, s, t);
      }
    }
  }

  /** The loop over the entries of a directory has come to the `i`-th by the trace `done`. */
  ghost predicate Underway(clock: nat -> int, deadline: int, start: Progress, now: Progress, p: Policy,
                           content: Content, i: nat, dir: string, done: seq<Step>) {
    && content.Entries? && i <= |content.list| && Leads(clock, deadline, start, now, done)
    && done + TraceFrom(p, content, i, dir) == TraceFrom(p, content, 0, dir)
  }

  lemma SetsOut(clock: nat -> int, deadline: int, start: Progress, p: Policy, content: Content, dir: string)
    requires content.Entries?
    ensures Underway(clock, deadline, start, start, p, content, 0, dir, [])
  {
    assert [] + TraceFrom(p, content, 0, dir) == TraceFrom(p, content, 0, dir);
  }

  lemma Arrives(clock: nat -> int, deadline: int, start: Progress, now: Progress, p: Policy, content: Content,
                dir: string, done: seq<Step>)
    requires content.Entries? && Underway(clock, deadline, start, now, p, content, |content.list|, dir, done)
    ensures Leads(clock, deadline, start, now, TraceFrom(p, content, 0, dir))
  {
    assert done + [] == done;
  }

  lemma RoundLeads(clock: nat -> int, deadline: int, start: Progress, before: Progress, after: Progress, p: Policy,
                   content: Content, i: nat, dir: string, done: seq<Step>, stopped: bool) returns (more: seq<Step>)
    requires Underway(clock, deadline, start, before, p, content, i, dir, done) && i < |content.list|
    requires stopped ==> Leads(clock, deadline, before, after, TraceFrom(p, content, i, dir))
    requires !stopped ==> Leads(clock, deadline, before, after, [Check] + TraceEntry(p, content, i, dir))
    ensures stopped ==> Leads(clock, deadline, start, after, TraceFrom(p, content, 0, dir))
    ensures !stopped ==> Underway(clock, deadline, start, after, p, content, i + 1, dir, more)
  {
    var step := [Check] + TraceEntry(p, content, i, dir);
    more := done + step;
    if stopped {
      LeadsOn(clock, deadline, start, before, after, done, TraceFrom(p, content, i, dir));
    } else {
      LeadsOn(clock, deadline, start, before, after, done, step);
      TraceMovesOn(p, content, i, dir, done);
    }
  }

  lemma PassingLeadsOn(clock: nat -> int, deadline: int, a: Progress, b: Progress, c: Progress, s: seq<Step>,
                       t: seq<Step>)
    requires !a.hitLimit && Passes(clock, deadline, a.ticks, |a.files|, s)
    requires Leads(clock, deadline, a, b, s) && Leads(clock, deadline, b, c, t)
    ensures Leads(clock, deadline, a, c, s + t)
  {
    PassesOn(clock, deadline, a.ticks, |a.files|, s, t);
    if Passes(clock, deadline, b.ticks, |b.files|, t) {
      Appended(s, t);
      assert c.files == a.files + Files(s + t);
    } else {
      FoundOn(clock, deadline, a.ticks, a.files, s, t);
    }
  }

  lemma PushLeads(clock: nat -> int, deadline: int, a: Progress, path: string)
    requires !a.hitLimit
    ensures Leads(clock, deadline, a, a.(files := a.files + [path]), [Push(path)])
  {
    var t := [Push(path)];
    assert t[1..] == [];
    assert Passes(clock, deadline, a.ticks, |a.files| + 1, t[1..]);
    assert Files(t) == [path] + Files(t[1..]);
    assert Checks(t) == Checks(t[1..]);
  }

  class Walker {
    const policy: Policy
    const clock: nat -> int
    const deadline: int
    var files: seq<string>
    var hitLimit: bool
    var ticks: nat

    constructor (p: Policy, c: nat -> int)
      ensures policy == p && clock == c && deadline == c(0) + TIMEOUT_MS
      ensures View() == Progress([], false, 1)
    {
      policy, clock, deadline := p, c, c(0) + TIMEOUT_MS;
      files, hitLimit, ticks := [], false, 1;
    }

    ghost function View(): Progress
      reads this
    {
      Progress(files, hitLimit, ticks)
    }

    /** The test of both limits: the file cap first, then the clock. */
    method LimitReached() returns (reached: bool)
      modifies this`ticks
      ensures reached == (|files| >= MAX_FILES || clock(old(ticks)) > deadline)
      ensures ticks == old(ticks) + if |files| >= MAX_FILES then 0 else 1
    {
      if |files| >= MAX_FILES {
        return true;
      }
      ticks := ticks + 1;
      return clock(ticks - 1) > deadline;
    }

    /** The test before each directory and each entry; `rest` is what a passed test leads to. */
    method Stops(ghost rest: seq<Step>) returns (stopped: bool)
      modifies this
      ensures stopped ==> Leads(clock, deadline, old(View()), View(), [Check] + rest)
      ensures !stopped ==> Leads(clock, deadline, old(View()), View(), [Check]) && !Over(clock, deadline, View())
    {
      stopped := LimitReached();
      if stopped {
        hitLimit := true;
      }
      assert ([Check] + rest)[1..] == rest;
    }

    method Walk(content: Content, dir: string)
      modifies this
      ensures Leads(clock, deadline, old(View()), View(), Trace(policy, content, dir))
      decreases content, 3
    {
      if hitLimit {
        return;
      }
      ghost var start, entries := View(), Trace(policy, content, dir)[1..];
      var stopped := Stops(entries);
      if stopped {
        assert [Check] + entries == Trace(policy, content, dir);
        return;
      }
      if content.Entries? {
        ghost var before := View();
        VisitAll(content, dir);
        LeadsOn(clock, deadline, start, before, View(), [Check], TraceFrom(policy, content, 0, dir));
      }
    }

    /** The loop over the entries of a directory. */
    method VisitAll(content: Content, dir: string)
      requires content.Entries?
      modifies this
      ensures Leads(clock, deadline, old(View()), View(), TraceFrom(policy, content, 0, dir))
      decreases content, 2
    {
      ghost var start, done := View(), [];
      SetsOut(clock, deadline, start, policy, content, dir);
      for i := 0 to |content.list|
        invariant Underway(clock, deadline, start, View(), policy, content, i, dir, done)
      {
        ghost var before := View();
        var stopped := VisitOne(content, i, dir);
        done := RoundLeads(clock, deadline, start, before, View(), policy, content, i, dir, done, stopped);
        if stopped {
          return;
        }
      }
      Arrives(clock, deadline, start, View(), policy, content, dir, done);
    }

    /** One round of the loop over the entries; true if it ends the loop. */
    method VisitOne(content: Content, i: nat, dir: string) returns (stopped: bool)
      requires content.Entries? && i < |content.list|
      modifies this
      ensures stopped ==> Leads(clock, deadline, old(View()), View(), TraceFrom(policy, content, i, dir))
      ensures !stopped ==> Leads(clock, deadline, old(View()), View(), [Check] + TraceEntry(policy, content, i, dir))
      decreases content, 1
    {
      ghost var start, entry := View(), TraceEntry(policy, content, i, dir);
      TraceFromUnfolded(policy, content, i, dir);
      stopped := Stops(entry + TraceFrom(policy, content, i + 1, dir));
      if stopped {
        return;
      }
      ghost var before := View();
      Visit(content, i, dir);
      LeadsOn(clock, deadline, start, before, View(), [Check], entry);
    }

    method Visit(content: Content, i: nat, dir: string)
      requires content.Entries? && i < |content.list| && !Over(clock, deadline, View())
      modifies this
      ensures Leads(clock, deadline, old(View()), View(), TraceEntry(policy, content, i, dir))
      decreases content, 0
    {
      var e := content.list[i];
      var path := RelativePath(dir, e.name);
      if policy.excluded(path) {
        return;
      }
      match e {
        case Directory(name, sub) =>
          if Descends(policy, name) {
            Walk(sub, Joined(dir, name));
          }
        case File(_) =>
          ghost var before := View();
          files := files + [path];
          if !before.hitLimit {
            PushLeads(clock, deadline, before, path);
          }
        case Other(_) =>
      }
    }
  }

  /** A list is returned exactly when no check of the whole walk finds a limit exceeded,
      and is then the complete listing. */
  method ListFiles(p: Policy, root: Content, clock: nat -> int) returns (r: Outcome)
    ensures r.Listed? <==> Passes(clock, clock(0) + TIMEOUT_MS, 1, 0, Trace(p, root, ""))
    ensures r.Listed? ==> r.files == Listing(p, root, "")
    ensures !r.Listed? && Steady(clock) ==>
              r == if |Found(clock, clock(0) + TIMEOUT_MS, 1, [], Trace(p, root, ""))| >= MAX_FILES then Exceeded
                  else TimedOut
  {
    var walker := new Walker(p, clock);
    walker.Walk(root, "");
    TraceLists(p, root, "");
    if walker.hitLimit {
      return if |walker.files| >= MAX_FILES then Exceeded else TimedOut;
    }
    assert [] + Files(Trace(p, root, "")) == Listing(p, root, "");
    return Listed(walker.files);
  }

  // ---------------------------------------------------------------------
  // When a listing fits
  // ---------------------------------------------------------------------

  predicate Spaced(t: seq<Step>) {
    forall k | 0 <= k < |t| && t[k].Push? :: k > 0 && t[k - 1].Check?
  }

  lemma {:induction false} TraceIsSpaced(p: Policy, content: Content, dir: string)
    ensures Spaced(Trace(p, content, dir)) && Trace(p, content, dir) != []
    decreases content, if content.Unreadable? then 0 else |content.list| + 1
  {
    if content.Entries? {
      TraceFromIsSpaced(p, content, 0, dir);
    }
  }

  lemma {:induction false} TraceFromIsSpaced(p: Policy, content: Content, i: nat, dir: string)
    requires content.Entries? && i <= |content.list|
    ensures Spaced(TraceFrom(p, content, i, dir))
    decreases content, |content.list| - i
  {
    if i < |content.list| {
      var e, entry := content.list[i], TraceEntry(p, content, i, dir);
      TraceFromIsSpaced(p, content, i + 1, dir);
      if e.Directory? {
        TraceIsSpaced(p, e.content, Joined(dir, e.name));
      }
      assert Spaced([Check] + entry);
    }
  }

  lemma {:induction false} PassesIffFits(clock: nat -> int, deadline: int, tick: nat, count: nat, t: seq<Step>)
    requires Spaced(t) && t != [] && forall i: nat :: clock(i) <= deadline
    ensures Passes(clock, deadline, tick, count, t)
        <==> count + |Files(t)| < MAX_FILES || (count + |Files(t)| == MAX_FILES && t[|t| - 1].Push?)
    decreases |t|
  {
    var a, x := t[..|t| - 1], t[|t| - 1];
    assert t == a + [x];
    Appended(a, [x]);
    PassesOn(clock, deadline, tick, count, a, [x]);
    assert [x][1..] == [];
    assert |Files([x])| == if x.Push? then 1 else 0;
    assert Passes(clock, deadline, tick + Checks(a), count + |Files(a)|, [x])
      <==> x.Push? || count + |Files(a)| < MAX_FILES;
    if a != [] {
      PassesIffFits(clock, deadline, tick, count, a);
    }
  }

  /** In time, a listing is returned exactly when it is shorter than the cap, or as long
      and its last file is the very last thing the walk looks at. */
  lemma ListedIffFits(p: Policy, root: Content, clock: nat -> int)
    requires forall i: nat :: clock(i) <= clock(0) + TIMEOUT_MS
    ensures var files, trace := |Listing(p, root, "")|, Trace(p, root, "");
            Passes(clock, clock(0) + TIMEOUT_MS, 1, 0, trace)
            <==> files < MAX_FILES || (files == MAX_FILES && |trace| > 0 && trace[|trace| - 1].Push?)
  {
    TraceIsSpaced(p, root, "");
    TraceLists(p, root, "");
    PassesIffFits(clock, clock(0) + TIMEOUT_MS, 1, 0, Trace(p, root, ""));
  }

  /** A directory of some files, their names ever longer, with one entry behind them that
      is neither file nor directory. */
  function FilesAndOne(files: nat): Content {
    Entries(seq(files, i requires 0 <= i < files => File(Name(i))) + [Other("socket")])
  }

  function Name(i: nat): string {
    seq(i + 1, _ => 'f')
  }

  predicate EndsInCheck(t: seq<Step>, files: int) {
    t != [] && t[|t| - 1] == Check && |Files(t)| == files
  }

  lemma {:induction false} FilesAndOneTrace(p: Policy, files: nat, i: nat)
    requires i <= files && forall path :: !p.excluded(path)
    ensures EndsInCheck(TraceFrom(p, FilesAndOne(files), i, ""), files - i)
    decreases files - i
  {
    if i < files {
      FilesAndOneTrace(p, files, i + 1);
      FileFirst(p, files, i);
      OneMoreFile(RelativePath("", Name(i)), TraceFrom(p, FilesAndOne(files), i + 1, ""));
    } else {
      OneBehind(p, files);
    }
  }

  lemma FileFirst(p: Policy, files: nat, i: nat)
    requires i < files && forall path :: !p.excluded(path)
    ensures TraceFrom(p, FilesAndOne(files), i, "")
         == [Check] + [Push(RelativePath("", Name(i)))] + TraceFrom(p, FilesAndOne(files), i + 1, "")
  {
    assert FilesAndOne(files).list[i] == File(Name(i));
  }

  lemma OneMoreFile(path: string, t: seq<Step>)
    requires t != [] && t[|t| - 1] == Check
    ensures EndsInCheck([Check] + [Push(path)] + t, |Files(t)| + 1)
  {
    Unrolled([Push(path)], t);
    assert [Push(path)][1..] == [];
  }

  lemma OneBehind(p: Policy, files: nat)
    ensures EndsInCheck(TraceFrom(p, FilesAndOne(files), files, ""), 0)
  {
    var content := FilesAndOne(files);
    assert content.list[files] == Other("socket");
    assert TraceFrom(p, content, files + 1, "") == [];
    assert TraceFrom(p, content, files, "") == [Check];
    assert [Check][1..] == [];
  }

  /** A listing of exactly MAX_FILES files is refused, in whatever time, if one more entry
      is looked at behind the last of them. */
  lemma FullListingIsRefused(p: Policy, clock: nat -> int)
    requires forall path :: !p.excluded(path)
    requires forall i: nat :: clock(i) <= clock(0) + TIMEOUT_MS
    ensures |Listing(p, FilesAndOne(MAX_FILES), "")| == MAX_FILES
    ensures !Passes(clock, clock(0) + TIMEOUT_MS, 1, 0, Trace(p, FilesAndOne(MAX_FILES), ""))
  {
    RefusedAtTheCap(p, clock, MAX_FILES);
  }

  lemma RefusedAtTheCap(p: Policy, clock: nat -> int, files: nat)
    requires forall path :: !p.excluded(path)
    requires forall i: nat :: clock(i) <= clock(0) + TIMEOUT_MS
    requires files == MAX_FILES
    ensures |Listing(p, FilesAndOne(files), "")| == files
    ensures !Passes(clock, clock(0) + TIMEOUT_MS, 1, 0, Trace(p, FilesAndOne(files), ""))
  {
    var root := FilesAndOne(files);
    var entries := TraceFrom(p, root, 0, "");
    FilesAndOneTrace(p, files, 0);
    TraceLists(p, root, "");
    FilesAppend([Check], entries);
    assert Trace(p, root, "") == [Check] + entries && [Check][1..] == [];
    ListedIffFits(p, root, clock);
  }
}
