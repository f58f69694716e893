/**
Text search over a child's output: chunks are split whole and the last piece is kept for
the next one. Each line yields some matches; they are collected up to a cap, and a search
that reaches the cap or its timer is marked truncated.
*/
module TextSearch {
  import opened Options
  import opened Lines
  import opened ChildOutput

  /** A match, with the file it was found in. */
  datatype Match = Match(path: string, position: string)

  /** What to search for: the matches a line of the child's output yields, and the cap. */
  datatype Query = Query(hits: string -> seq<Match>, maxResults: int)

  datatype Results = Results(matches: seq<Match>, truncated: bool)

  /** `answer` is what the search was answered with. */
  datatype State = State(buf: string, found: Results, answer: Option<Results>)

  const NOTHING := Results([], false)
  const START := State("", NOTHING, None)

  // ---------------------------------------------------------------------
  // Ingesting lines
  // ---------------------------------------------------------------------

  /** The matches of a line are added one by one; reaching the cap marks the results and
      ends the line, and a line met with the cap reached is not looked at. */
  function Ingest(q: Query, r: Results, line: string): Results {
    if |r.matches| >= q.maxResults then r else AddAll(q.maxResults, r, q.hits(line))
  }

  function AddAll(maxResults: int, r: Results, ms: seq<Match>): Results
    decreases |ms|
  {
    if ms == [] then r
    else
      var more := r.matches + [ms[0]];
      if |more| >= maxResults then Results(more, true) else AddAll(maxResults, r.(matches := more), ms[1..])
  }

  function IngestAll(q: Query, r: Results, lines: seq<string>): Results {
    if lines == [] then r else Ingest(q, IngestAll(q, r, lines[..|lines| - 1]), lines[|lines| - 1])
  }

  /** All matches of some lines, in order. */
  function MatchesOf(q: Query, lines: seq<string>): seq<Match> {
    if lines == [] then [] else MatchesOf(q, lines[..|lines| - 1]) + q.hits(lines[|lines| - 1])
  }

  function First(n: int, ms: seq<Match>): seq<Match> {
    if n <= 0 then [] else if |ms| <= n then ms else ms[..n]
  }

  /** The cap is reached: not at all if it is zero or less. */
  predicate CapReached(q: Query, lines: seq<string>) {
    0 < q.maxResults <= |MatchesOf(q, lines)|
  }

  lemma {:induction false} AddAllTakesFirst(maxResults: int, r: Results, ms: seq<Match>)
    requires |r.matches| < maxResults
    ensures AddAll(maxResults, r, ms)
         == Results(First(maxResults, r.matches + ms), r.truncated || |r.matches + ms| >= maxResults)
    decreases |ms|
  {
    if ms == [] {
      assert r.matches + ms == r.matches;
    } else {
      var more := r.matches + [ms[0]];
      assert more + ms[1..] == r.matches + ms;
      if |more| >= maxResults {
        assert (r.matches + ms)[..maxResults] == more;
      } else {
        AddAllTakesFirst(maxResults, r.(matches := more), ms[1..]);
      }
    }
  }

  /** Results that have the first matches of some lines, and are marked if `marked` or the
      cap is reached. */
  predicate Holds(q: Query, r: Results, lines: seq<string>, marked: bool) {
    r == Results(First(q.maxResults, MatchesOf(q, lines)), marked || CapReached(q, lines))
  }

  lemma IngestOne(q: Query, r: Results, lines: seq<string>, line: string, marked: bool)
    requires Holds(q, r, lines, marked)
    ensures Holds(q, Ingest(q, r, line), lines + [line], marked)
  {
    var ms := MatchesOf(q, lines);
    assert (lines + [line])[..|lines|] == lines;
    assert MatchesOf(q, lines + [line]) == ms + q.hits(line);
    if |r.matches| < q.maxResults {
      assert r.matches == ms;
      AddAllTakesFirst(q.maxResults, r, q.hits(line));
    } else if q.maxResults > 0 {
      assert (ms + q.hits(line))[..q.maxResults] == ms[..q.maxResults];
    }
  }

  lemma {:induction false} IngestMany(q: Query, r: Results, lines: seq<string>, more: seq<string>, marked: bool)
    requires Holds(q, r, lines, marked)
    ensures Holds(q, IngestAll(q, r, more), lines + more, marked)
  {
    if more == [] {
      assert lines + more == lines;
    } else {
      var init, last := more[..|more| - 1], more[|more| - 1];
      IngestMany(q, r, lines, init, marked);
      IngestOne(q, IngestAll(q, r, init), lines + init, last, marked);
      assert lines + more == lines + init + [last];
    }
  }

  lemma IngestResidue(q: Query, r: Results, buf: string)
    ensures IngestAll(q, r, Residue(buf)) == if buf == "" then r else Ingest(q, r, buf)
  {
    if buf != "" {
      assert Residue(buf)[..0] == [];
    }
  }

  // ---------------------------------------------------------------------
  // Runs
  // ---------------------------------------------------------------------

  function Answered(s: State): State {
    if s.answer.Some? then s else s.(answer := Some(s.found))
  }

  /** The search's timer is cleared when it is answered. */
  function Step(q: Query, s: State, e: Event): State {
    match e
    case Data(chunk) =>
      s.(buf := Tail(s.buf + chunk), found := IngestAll(q, s.found, Complete(s.buf + chunk)))
    case Timeout => if s.answer.Some? then s else s.(found := s.found.(truncated := true))
    case Error => Answered(s)
    case Close(_, _) => Answered(s.(found := IngestAll(q, s.found, Residue(s.buf))))
  }

  function Run(q: Query, es: seq<Event>): State {
    if es == [] then START else Step(q, Run(q, es[..|es| - 1]), es[|es| - 1])
  }

  predicate Unanswered(es: seq<Event>) {
    forall e | e in es :: e.Data? || e.Timeout?
  }

  predicate TimerFired(es: seq<Event>) {
    exists e | e in es :: e.Timeout?
  }

  lemma {:induction false} AnsweredIff(q: Query, es: seq<Event>)
    ensures Run(q, es).answer.None? <==> Unanswered(es)
  {
    if es != [] {
      AnsweredIff(q, es[..|es| - 1]);
      assert forall d | d in es :: d in es[..|es| - 1] || d == es[|es| - 1];
    }
  }

  /** The search goes on: it has ingested the complete lines of the output so far. */
  predicate Searching(q: Query, s: State, es: seq<Event>) {
    s.buf == Tail(Text(es)) && s.answer == None && Holds(q, s.found, Complete(Text(es)), TimerFired(es))
  }

  lemma {:induction false} RunSearches(q: Query, es: seq<Event>)
    requires Unanswered(es)
    ensures Searching(q, Run(q, es), es)
  {
    if es != [] {
      var init, e := es[..|es| - 1], es[|es| - 1];
      RunSearches(q, init);
      assert es == init + [e];
      if e.Data? {
        DataSearchesOn(q, Run(q, init), init, e.chunk);
      } else {
        TimeoutSearchesOn(q, Run(q, init), init);
      }
    }
  }

  lemma TextAppend(es: seq<Event>, e: Event)
    ensures Text(es + [e]) == Text(es) + if e.Data? then e.chunk else ""
    ensures TimerFired(es + [e]) <==> TimerFired(es) || e.Timeout?
  {
    assert (es + [e])[..|es|] == es;
    assert forall d | d in es :: d in es + [e];
    assert e in es + [e];
  }

  lemma DataSearchesOn(q: Query, s: State, es: seq<Event>, chunk: string)
    requires Searching(q, s, es)
    ensures Searching(q, Step(q, s, Data(chunk)), es + [Data(chunk)])
  {
    TextAppend(es, Data(chunk));
    CompleteAppend(Text(es), chunk);
    IngestMany(q, s.found, Complete(Text(es)), Complete(s.buf + chunk), TimerFired(es));
  }

  lemma TimeoutSearchesOn(q: Query, s: State, es: seq<Event>)
    requires Searching(q, s, es)
    ensures Searching(q, Step(q, s, Timeout), es + [Timeout])
  {
    TextAppend(es, Timeout);
    assert Text(es) + "" == Text(es);
  }

  /** A search whose child closes is answered with the first matches, up to the cap, of all
      lines of its output, however that was cut; one that ends in an error with those of
      the complete lines. It is marked truncated exactly if the timer went off or those
      lines have as many matches as the cap, which must not be zero or less. */
  lemma AnswersWithFirstMatches(q: Query, es: seq<Event>, e: Event)
    requires Unanswered(es) && (e.Close? || e.Error?)
    ensures var lines := if e.Close? then LinesOf(Text(es)) else Complete(Text(es));
      Run(q, es + [e]).answer == Some(Results(First(q.maxResults, MatchesOf(q, lines)),
                                              TimerFired(es) || CapReached(q, lines)))
  {
    RunSearches(q, es);
    assert (es + [e])[..|es|] == es;
    if e.Close? {
      IngestMany(q, Run(q, es).found, Complete(Text(es)), Residue(Tail(Text(es))), TimerFired(es));
    }
  }

  /** The mark says when matches are missing, except in two cases: it is also set when there
      are exactly as many as the cap, and never by a cap of zero or less. */
  lemma MarkIsRightIff(q: Query, lines: seq<string>)
    ensures (CapReached(q, lines) <==> First(q.maxResults, MatchesOf(q, lines)) != MatchesOf(q, lines))
      <==> if q.maxResults > 0 then |MatchesOf(q, lines)| != q.maxResults else MatchesOf(q, lines) == []
  {
    var ms := MatchesOf(q, lines);
    if q.maxResults > 0 && |ms| > q.maxResults {
      assert |First(q.maxResults, ms)| < |ms|;
    }
  }

  /** A search for one match that finds the only one there is says that there are more. */
  lemma OnlyMatchIsMarked(q: Query, line: string, m: Match)
    requires line != "" && Unbroken(line) && q.hits(line) == [m] && q.maxResults == 1
    ensures MatchesOf(q, LinesOf(line)) == [m]
    ensures Run(q, [Data(line)] + [Close(0, false)]).answer == Some(Results([m], true))
  {
    OnlyLine(q, line);
    TextOfOne(line);
    AnswersWithFirstMatches(q, [Data(line)], Close(0, false));
  }

  lemma OnlyLine(q: Query, line: string)
    requires line != "" && Unbroken(line)
    ensures MatchesOf(q, LinesOf(line)) == q.hits(line)
  {
    SplitLast(line);
    var lines := [line];
    assert LinesOf(line) == lines;
    assert lines[..0] == [] && MatchesOf(q, lines) == [] + q.hits(line);
  }

  lemma TextOfOne(chunk: string)
    ensures Text([Data(chunk)]) == chunk
  {
    TextAppend([], Data(chunk));
    assert [] + [Data(chunk)] == [Data(chunk)];
  }

  /** The first answer stands. */
  lemma {:induction false} AnsweredOnce(q: Query, es: seq<Event>, rest: seq<Event>)
    requires Run(q, es).answer.Some?
    ensures Run(q, es + rest).answer == Run(q, es).answer
  {
    if rest == [] {
      assert es + rest == es;
    } else {
      assert (es + rest)[..|es + rest| - 1] == es + rest[..|rest| - 1];
      AnsweredOnce(q, es, rest[..|rest| - 1]);
    }
  }

  // ---------------------------------------------------------------------
  // The search
  // ---------------------------------------------------------------------

  class Search {
    const query: Query
    var buffer: string
    var matches: seq<Match>
    var truncated: bool
    var answer: Option<Results>

    constructor (q: Query)
      ensures query == q && View() == START
    {
      query := q;
      buffer, matches, truncated, answer := "", [], false, None;
    }

    ghost function View(): State
      reads this
    {
      State(buffer, Results(matches, truncated), answer)
    }

    /** True if the child may be killed. */
    method IngestLine(line: string) returns (stop: bool)
      modifies this`matches, this`truncated
      ensures Results(matches, truncated) == Ingest(query, Results(old(matches), old(truncated)), line)
      ensures stop <==> |matches| >= query.maxResults
    {
      if |matches| >= query.maxResults {
        return true;
      }
      var ms := query.hits(line);
      for i := 0 to |ms|
        invariant |matches| < query.maxResults
        invariant AddAll(query.maxResults, Results(matches, truncated), ms[i..])
               == Ingest(query, Results(old(matches), old(truncated)), line)
      {
        matches := matches + [ms[i]];
        if |matches| >= query.maxResults {
          truncated := true;
          return true;
        }
        assert ms[i..][1..] == ms[i + 1..];
      }
      return false;
    }

    method OnData(chunk: string)
      modifies this
      ensures View() == Step(query, old(View()), Data(chunk))
    {
      var lines := Split(buffer + chunk);
      buffer := lines[|lines| - 1];
      lines := lines[..|lines| - 1];
      for i := 0 to |lines|
        invariant Results(matches, truncated)
               == IngestAll(query, Results(old(matches), old(truncated)), lines[..i])
        invariant buffer == Tail(old(buffer) + chunk) && answer == old(answer)
      {
        var stop := IngestLine(lines[i]);
        assert lines[..i + 1][..i] == lines[..i];
      }
      assert lines[..|lines|] == lines;
    }

    method OnTimeout()
      modifies this
      ensures View() == Step(query, old(View()), Timeout)
    {
      if answer.None? {
        truncated := true;
      }
    }

    method ResolveOnce()
      modifies this
      ensures View() == Answered(old(View()))
    {
      if answer.None? {
        answer := Some(Results(matches, truncated));
      }
    }

    method OnError()
      modifies this
      ensures View() == Step(query, old(View()), Error)
    {
      ResolveOnce();
    }

    method OnClose(code: int, killed: bool)
      modifies this
      ensures View() == Step(query, old(View()), Close(code, killed))
    {
      IngestResidue(query, Results(matches, truncated), buffer);
      if buffer != "" {
        var stop := IngestLine(buffer);
      }
      ResolveOnce();
    }
  }
}
