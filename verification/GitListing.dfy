/**
One file-listing pass of git. Its timer drops the unfinished line and kills the child,
but leaves the verdict to the child's close event.
*/
module GitListing {
  import opened Lines
  import opened ChildOutput

  /** The shared filter: which paths show. */
  datatype Filter = Filter(included: string -> bool, excluded: string -> bool)

  datatype Verdict = Pending | Resolved | Rejected

  datatype State = State(buf: string, lines: seq<string>, armed: bool, verdict: Verdict)

  const START := State("", [], true, Pending)

  function Trimmed(line: string): string {
    if line != "" && line[|line| - 1] == '\r' then line[..|line| - 1] else line
  }

  function Shown(f: Filter, line: string): set<string> {
    var path := Trimmed(line);
    if path != "" && !f.excluded(path) && f.included(path) then {path} else {}
  }

  function Kept(f: Filter, lines: seq<string>): set<string> {
    if lines == [] then {} else Kept(f, lines[..|lines| - 1]) + Shown(f, lines[|lines| - 1])
  }

  lemma OneMore(f: Filter, lines: seq<string>, line: string)
    ensures Kept(f, lines + [line]) == Kept(f, lines) + Shown(f, line)
  {
    assert (lines + [line])[..|lines|] == lines;
  }

  function Step(s: State, e: Event): State {
    match e
    case Data(chunk) => s.(buf := Tail(s.buf + chunk), lines := s.lines + Complete(s.buf + chunk))
    case Timeout => if s.armed then s.(buf := "", armed := false) else s
    case Error => if s.verdict.Pending? then State("", s.lines, false, Rejected) else s
    case Close(_, killed) =>
      if !s.verdict.Pending? then s
      else if killed then State("", s.lines, false, Rejected)
      else State(s.buf, s.lines + Residue(s.buf), false, Resolved)
  }

  function Run(es: seq<Event>): State {
    if es == [] then START else Step(Run(es[..|es| - 1]), es[|es| - 1])
  }

  // ---------------------------------------------------------------------
  // Properties of runs
  // ---------------------------------------------------------------------

  /** The output before and after the timer went off. */
  datatype Parts = Parts(before: string, fired: bool, after: string)

  function PartsOf(es: seq<Event>): Parts {
    if es == [] then Parts("", false, "")
    else
      var p := PartsOf(es[..|es| - 1]);
      match es[|es| - 1]
      case Data(chunk) => if p.fired then p.(after := p.after + chunk) else p.(before := p.before + chunk)
      case Timeout => p.(fired := true)
      case _ => p
  }

  lemma {:induction false} PartsMakeText(es: seq<Event>)
    ensures Text(es) == PartsOf(es).before + PartsOf(es).after
    ensures !PartsOf(es).fired ==> PartsOf(es).after == ""
  {
    if es != [] {
      PartsMakeText(es[..|es| - 1]);
    }
  }

  predicate Unsettled(es: seq<Event>) {
    forall e | e in es :: e.Data? || e.Timeout?
  }

  function Reached(p: Parts): State {
    if p.fired then State(Tail(p.after), Complete(p.before) + Complete(p.after), false, Pending)
    else State(Tail(p.before), Complete(p.before), true, Pending)
  }

  lemma {:induction false} PendingIff(es: seq<Event>)
    ensures Run(es).verdict.Pending? <==> Unsettled(es)
    ensures Unsettled(es) ==> Run(es) == Reached(PartsOf(es))
  {
    if es != [] {
      var init, e := es[..|es| - 1], es[|es| - 1];
      PendingIff(init);
      assert forall d | d in es :: d in init || d == e;
      if Unsettled(es) {
        PartsMakeText(init);
        ReachedNext(PartsOf(init), e, PartsOf(es));
      }
    }
  }

  lemma ReachedNext(p: Parts, e: Event, q: Parts)
    requires !p.fired ==> p.after == ""
    requires e.Data? ==> q == if p.fired then p.(after := p.after + e.chunk) else p.(before := p.before + e.chunk)
    requires !e.Data? ==> e.Timeout? && q == p.(fired := true)
    ensures Step(Reached(p), e) == Reached(q)
  {
    if e.Data? && p.fired {
      FedOn(Complete(p.before), p.after, e.chunk, false);
    } else if e.Data? {
      FedOn([], p.before, e.chunk, true);
      Unprefixed(Complete(p.before), Complete(p.before + e.chunk));
    } else if !p.fired {
      assert Complete("") == [] && Tail("") == "";
    }
  }

  lemma FedOn(done: seq<string>, text: string, chunk: string, armed: bool)
    ensures Step(State(Tail(text), done + Complete(text), armed, Pending), Data(chunk))
         == State(Tail(text + chunk), done + Complete(text + chunk), armed, Pending)
  {
    CompleteAppend(text, chunk);
  }

  lemma Unprefixed(x: seq<string>, y: seq<string>)
    ensures [] + x == x && [] + y == y
  {
  }

  /** Ended by a close without a signal, whether or not the timer had gone off. */
  predicate EndsAlone(es: seq<Event>) {
    es != [] && Unsettled(es[..|es| - 1]) && es[|es| - 1].Close? && !es[|es| - 1].killed
  }

  /** The lines a resolved pass has delivered. */
  function DeliveredLines(p: Parts): seq<string> {
    if p.fired then Complete(p.before) + LinesOf(p.after) else LinesOf(p.before)
  }

  lemma {:induction false} ResolvesIff(es: seq<Event>)
    requires ClosesLast(es)
    ensures Run(es).verdict.Resolved? <==> EndsAlone(es)
    ensures EndsAlone(es) ==> Run(es).lines == DeliveredLines(PartsOf(es))
  {
    if es != [] {
      var init := es[..|es| - 1];
      PendingIff(init);
      if !Unsettled(init) {
        ResolvesIff(init);
        NotTwiceClosed(init, es);
      }
    }
  }

  lemma NotTwiceClosed(init: seq<Event>, es: seq<Event>)
    requires ClosesLast(es) && es != [] && init == es[..|es| - 1]
    ensures !EndsAlone(init)
  {
    if init != [] {
      assert init[|init| - 1] == es[|es| - 2];
    }
  }

  /** A resolved pass has delivered the lines of the whole output exactly when the timer
      did not go off in the middle of a line. */
  lemma ResolvesWithAllLinesIff(es: seq<Event>)
    requires ClosesLast(es) && Run(es).verdict.Resolved?
    ensures Run(es).lines == LinesOf(Text(es)) <==> !PartsOf(es).fired || Tail(PartsOf(es).before) == ""
  {
    var p := PartsOf(es);
    ResolvesIff(es);
    PartsMakeText(es);
    if p.fired {
      DroppedTailShowsIff(p.before, p.after);
    } else {
      assert p.before + p.after == p.before;
    }
  }

  /** The timer goes off between two chunks of a line and the child still ends by itself:
      the pass resolves with the second half of a path. */
  lemma HalfAPathIsDelivered()
    ensures var es := [Data("ab"), Timeout, Data("c\n"), Close(0, false)];
            Run(es).verdict.Resolved? && Run(es).lines == ["c"]
  {
    var es := [Data("ab"), Timeout, Data("c\n"), Close(0, false)];
    assert es[..3] == [Data("ab"), Timeout, Data("c\n")];
    assert es[..3][..2] == [Data("ab"), Timeout];
    assert es[..3][..2][..1] == [Data("ab")];
    assert "" + "ab" == "ab" && "" + "c\n" == "c\n";
    assert Split("ab") == ["ab"];
    SplitAtNewline("c", "");
    assert "c" + [NEWLINE] + "" == "c\n";
    assert Run([Data("ab")]) == State("ab", [], true, Pending);
    assert Run(es[..3]) == State("", ["c"], false, Pending);
  }

  /** A line names a path, with or without a carriage return behind it. */
  predicate NamesPath(line: string, path: string) {
    path != "" && ((line == path && line[|line| - 1] != '\r') || line == path + ['\r'])
  }

  lemma TrimmedIff(line: string, path: string)
    ensures path != "" ==> (Trimmed(line) == path <==> NamesPath(line, path))
  {
    if line != "" && line[|line| - 1] == '\r' {
      assert line == line[..|line| - 1] + ['\r'];
      if line == path + ['\r'] {
        assert line[..|line| - 1] == path;
      }
    }
  }

  /** The files of a pass are the paths that some delivered line names, and that are
      included and not excluded. */
  lemma {:induction false} KeptIff(f: Filter, lines: seq<string>, path: string)
    ensures path in Kept(f, lines) <==>
      f.included(path) && !f.excluded(path) && exists line :: line in lines && NamesPath(line, path)
  {
    if lines != [] {
      var init, last := lines[..|lines| - 1], lines[|lines| - 1];
      KeptIff(f, init, path);
      TrimmedIff(last, path);
      assert forall line :: line in lines <==> line in init || line == last;
    }
  }

  // ---------------------------------------------------------------------
  // The pass
  // ---------------------------------------------------------------------

  class Pass {
    const filter: Filter
    var buf: string
    var done: bool
    var armed: bool
    var files: set<string>
    var verdict: Verdict
    ghost var lines: seq<string>

    constructor (f: Filter)
      ensures filter == f && Valid() && View() == START
    {
      filter := f;
      buf, done, armed, files, verdict, lines := "", false, true, {}, Pending, [];
    }

    ghost predicate Valid()
      reads this
    {
      done == !verdict.Pending? && files == Kept(filter, lines)
    }

    ghost function View(): State
      reads this
    {
      State(buf, lines, armed, verdict)
    }

    method ProcessLine(line: string)
      requires Valid()
      modifies this`files, this`lines
      ensures Valid() && lines == old(lines) + [line]
    {
      OneMore(filter, lines, line);
      lines := lines + [line];
      var path := Trimmed(line);
      if path == "" || filter.excluded(path) {
        return;
      }
      if filter.included(path) {
        files := files + {path};
      }
    }

    method ProcessLines(cut: seq<string>)
      requires Valid()
      modifies this`files, this`lines
      ensures Valid() && lines == old(lines) + cut
    {
      for i := 0 to |cut|
        invariant Valid() && lines == old(lines) + cut[..i]
      {
        ProcessLine(cut[i]);
      }
    }

    method OnData(chunk: string)
      requires Valid()
      modifies this
      ensures Valid() && View() == Step(old(View()), Data(chunk))
    {
      var cut, rest := CutLines(buf + chunk);
      ProcessLines(cut);
      buf := rest;
    }

    method OnTimeout()
      requires Valid()
      modifies this
      ensures Valid() && View() == Step(old(View()), Timeout)
    {
      if armed {
        armed := false;
        buf := "";
      }
    }

    method OnError()
      requires Valid()
      modifies this
      ensures Valid() && View() == Step(old(View()), Error)
    {
      if done {
        return;
      }
      done := true;
      armed := false;
      buf := "";
      verdict := Rejected;
    }

    method OnClose(code: int, killed: bool)
      requires Valid()
      modifies this
      ensures Valid() && View() == Step(old(View()), Close(code, killed))
    {
      if done {
        return;
      }
      done := true;
      armed := false;
      if killed {
        buf := "";
        verdict := Rejected;
        return;
      }
      verdict := Resolved;
      if buf != "" {
        ProcessLine(buf);
      }
    }
  }
}
