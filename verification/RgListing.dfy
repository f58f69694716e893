/**
One file-listing pass of the search tool: its output is cut into lines as it arrives,
and the pass is trusted only if the tool ended cleanly.
*/
module RgListing {
  import opened Options
  import opened Lines
  import opened ChildOutput

  /** The shared filter: how a raw line becomes a relative path, and which paths show. */
  datatype Filter = Filter(normalized: string -> Option<string>, included: string -> bool, excluded: string -> bool)

  datatype Reason = TimedOut | Failed | Killed | Exited(code: int)
  datatype Verdict = Pending | Resolved | Rejected(reason: Reason)

  datatype State = State(buf: string, lines: seq<string>, verdict: Verdict)

  const START := State("", [], Pending)

  function Shown(f: Filter, raw: string): set<string> {
    match f.normalized(raw)
    case None => {}
    case Some(path) => if f.included(path) && !f.excluded(path) then {path} else {}
  }

  function Kept(f: Filter, lines: seq<string>): set<string> {
    if lines == [] then {} else Kept(f, lines[..|lines| - 1]) + Shown(f, lines[|lines| - 1])
  }

  /** How many of the lines name a path, shown or not. */
  function Counted(f: Filter, lines: seq<string>): nat {
    if lines == [] then 0
    else Counted(f, lines[..|lines| - 1]) + if f.normalized(lines[|lines| - 1]).Some? then 1 else 0
  }

  lemma OneMore(f: Filter, lines: seq<string>, raw: string)
    ensures Kept(f, lines + [raw]) == Kept(f, lines) + Shown(f, raw)
    ensures Counted(f, lines + [raw]) == Counted(f, lines) + if f.normalized(raw).Some? then 1 else 0
  {
    assert (lines + [raw])[..|lines|] == lines;
  }

  predicate Trusted(f: Filter, code: int, lines: seq<string>) {
    code == 0 || code == 1 || (code == 2 && Counted(f, lines) > 0)
  }

  function Step(f: Filter, s: State, e: Event): State {
    match e
    case Data(chunk) => s.(buf := Tail(s.buf + chunk), lines := s.lines + Complete(s.buf + chunk))
    case Timeout => if s.verdict.Pending? then State("", s.lines, Rejected(TimedOut)) else s
    case Error => if s.verdict.Pending? then State("", s.lines, Rejected(Failed)) else s
    case Close(code, killed) =>
      if !s.verdict.Pending? then s
      else if killed then State("", s.lines, Rejected(Killed))
      else
        var lines := s.lines + Residue(s.buf);
        State(s.buf, lines, if Trusted(f, code, lines) then Resolved else Rejected(Exited(code)))
  }

  function Run(f: Filter, es: seq<Event>): State {
    if es == [] then START else Step(f, Run(f, es[..|es| - 1]), es[|es| - 1])
  }

  // ---------------------------------------------------------------------
  // Properties of runs
  // ---------------------------------------------------------------------

  lemma {:induction false} PendingIff(f: Filter, es: seq<Event>)
    ensures Run(f, es).verdict.Pending? <==> OnlyData(es)
    ensures OnlyData(es) ==> Run(f, es) == State(Tail(Text(es)), Complete(Text(es)), Pending)
  {
    if es != [] {
      var init := es[..|es| - 1];
      PendingIff(f, init);
      assert forall e | e in es :: e in init || e == es[|es| - 1];
      if OnlyData(es) {
        CompleteAppend(Text(init), es[|es| - 1].chunk);
      }
    }
  }

  /** Ended by a close without a signal, with nothing but output before it. */
  predicate EndsCleanly(es: seq<Event>) {
    && es != [] && OnlyData(es[..|es| - 1])
    && es[|es| - 1].Close? && !es[|es| - 1].killed
  }

  predicate Trustworthy(f: Filter, es: seq<Event>) {
    EndsCleanly(es) && Trusted(f, es[|es| - 1].code, LinesOf(Text(es)))
  }

  /** A pass resolves exactly when the tool ends by itself with a code to be trusted, and
      has then delivered the lines of its whole output, however that was cut. */
  lemma {:induction false} ResolvesIff(f: Filter, es: seq<Event>)
    requires ClosesLast(es)
    ensures Run(f, es).verdict.Resolved? <==> Trustworthy(f, es)
    ensures EndsCleanly(es) ==> Run(f, es).lines == LinesOf(Text(es))
  {
    if es != [] {
      var init := es[..|es| - 1];
      if OnlyData(init) {
        ResolvesAtTheEnd(f, init, es[|es| - 1], es);
      } else {
        ResolvesIff(f, init);
        NotTwiceClosed(init, es);
        PendingIff(f, init);
      }
    }
  }

  lemma NotTwiceClosed(init: seq<Event>, es: seq<Event>)
    requires ClosesLast(es) && es != [] && init == es[..|es| - 1]
    ensures !EndsCleanly(init)
  {
    if init != [] {
      assert init[|init| - 1] == es[|es| - 2];
    }
  }

  lemma ResolvesAtTheEnd(f: Filter, init: seq<Event>, e: Event, es: seq<Event>)
    requires OnlyData(init) && es == init + [e]
    ensures Run(f, es).verdict.Resolved? <==> Trustworthy(f, es)
    ensures EndsCleanly(es) ==> Run(f, es).lines == LinesOf(Text(es))
  {
    PendingIff(f, init);
    assert es[..|es| - 1] == init;
    if e.Close? {
      assert Text(es) == Text(init) + "" == Text(init);
    }
  }

  /** Two ways of cutting the same output give the same files. */
  lemma ChunkingIsInvisible(f: Filter, es: seq<Event>, fs: seq<Event>)
    requires ClosesLast(es) && ClosesLast(fs) && EndsCleanly(es) && EndsCleanly(fs)
    requires Text(es) == Text(fs) && es[|es| - 1] == fs[|fs| - 1]
    ensures Kept(f, Run(f, es).lines) == Kept(f, Run(f, fs).lines)
    ensures Run(f, es).verdict == Run(f, fs).verdict
  {
    ResolvesIff(f, es);
    ResolvesIff(f, fs);
    CleanVerdict(f, es);
    CleanVerdict(f, fs);
  }

  lemma CleanVerdict(f: Filter, es: seq<Event>)
    requires EndsCleanly(es)
    ensures var code := es[|es| - 1].code;
      Run(f, es).verdict == if Trusted(f, code, LinesOf(Text(es))) then Resolved else Rejected(Exited(code))
  {
    var init := es[..|es| - 1];
    PendingIff(f, init);
    assert Text(es) == Text(init) + "" == Text(init);
  }

  // ---------------------------------------------------------------------
  // The files
  // ---------------------------------------------------------------------

  lemma {:induction false} KeptIff(f: Filter, lines: seq<string>, path: string)
    ensures path in Kept(f, lines) <==>
      f.included(path) && !f.excluded(path) && exists line :: line in lines && f.normalized(line) == Some(path)
  {
    if lines != [] {
      var init, last := lines[..|lines| - 1], lines[|lines| - 1];
      KeptIff(f, init, path);
      assert forall line :: line in lines <==> line in init || line == last;
    }
  }

  lemma {:induction false} CountedIff(f: Filter, lines: seq<string>)
    ensures Counted(f, lines) > 0 <==> exists line :: line in lines && f.normalized(line).Some?
  {
    if lines != [] {
      var init, last := lines[..|lines| - 1], lines[|lines| - 1];
      CountedIff(f, init);
      assert forall line :: line in lines <==> line in init || line == last;
    }
  }

  /** A pass resolves exactly if the tool ends by itself with code 0 or 1, or with 2 and a
      line that names a path; its files are then the paths that some line of the output
      names, and that are included and not excluded. */
  lemma ResolvedFilesIff(f: Filter, es: seq<Event>, path: string)
    requires ClosesLast(es)
    ensures Run(f, es).verdict.Resolved? <==>
      && EndsCleanly(es)
      && (|| es[|es| - 1].code == 0 || es[|es| - 1].code == 1
          || (es[|es| - 1].code == 2 && exists line :: line in LinesOf(Text(es)) && f.normalized(line).Some?))
    ensures Run(f, es).verdict.Resolved? ==>
      (path in Kept(f, Run(f, es).lines) <==>
       && f.included(path) && !f.excluded(path)
       && exists line :: line in LinesOf(Text(es)) && f.normalized(line) == Some(path))
  {
    ResolvesIff(f, es);
    CountedIff(f, LinesOf(Text(es)));
    KeptIff(f, LinesOf(Text(es)), path);
  }

  // ---------------------------------------------------------------------
  // The pass
  // ---------------------------------------------------------------------

  class Pass {
    const filter: Filter
    var passBuf: string
    var passDone: bool
    var passFileCount: nat
    var files: set<string>
    var verdict: Verdict
    ghost var lines: seq<string>

    constructor (f: Filter)
      ensures filter == f && Valid() && View() == START
    {
      filter := f;
      passBuf, passDone, passFileCount, files, verdict, lines := "", false, 0, {}, Pending, [];
    }

    ghost predicate Valid()
      reads this
    {
      && passDone == !verdict.Pending?
      && passFileCount == Counted(filter, lines)
      && files == Kept(filter, lines)
    }

    ghost function View(): State
      reads this
    {
      State(passBuf, lines, verdict)
    }

    method ProcessLine(raw: string)
      requires Valid()
      modifies this`files, this`passFileCount, this`lines
      ensures Valid() && lines == old(lines) + [raw]
    {
      OneMore(filter, lines, raw);
      lines := lines + [raw];
      match filter.normalized(raw) {
        case None =>
        case Some(path) =>
          passFileCount := passFileCount + 1;
          if filter.included(path) && !filter.excluded(path) {
            files := files + {path};
          }
      }
    }

    method ProcessLines(cut: seq<string>)
      requires Valid()
      modifies this`files, this`passFileCount, this`lines
      ensures Valid() && lines == old(lines) + cut
    {
      for i := 0 to |cut|
        invariant Valid() && lines == old(lines) + cut[..i]
      {
        ProcessLine(cut[i]);
      }
    }

    method OnData(chunk: string)
      requires Valid()
      modifies this
      ensures Valid() && View() == Step(filter, old(View()), Data(chunk))
    {
      var cut, rest := CutLines(passBuf + chunk);
      ProcessLines(cut);
      passBuf := rest;
    }

    method OnTimeout()
      requires Valid()
      modifies this
      ensures Valid() && View() == Step(filter, old(View()), Timeout)
    {
      if passDone {
        return;
      }
      passDone := true;
      passBuf := "";
      verdict := Rejected(TimedOut);
    }

    method OnError()
      requires Valid()
      modifies this
      ensures Valid() && View() == Step(filter, old(View()), Error)
    {
      if passDone {
        return;
      }
      passDone := true;
      passBuf := "";
      verdict := Rejected(Failed);
    }

    method OnClose(code: int, killed: bool)
      requires Valid()
      modifies this
      ensures Valid() && View() == Step(filter, old(View()), Close(code, killed))
    {
      if passDone {
        return;
      }
      passDone := true;
      if killed {
        passBuf := "";
        verdict := Rejected(Killed);
        return;
      }
      verdict := Resolved;
      if passBuf != "" {
        ProcessLine(passBuf);
      }
      assert lines == old(lines) + Residue(passBuf);
      if !(code == 0 || code == 1 || (code == 2 && passFileCount > 0)) {
        verdict := Rejected(Exited(code));
      }
    }
  }
}
