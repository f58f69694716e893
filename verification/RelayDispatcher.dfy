/**
The relay's JSON-RPC dispatcher. One client at a time is attached; `setWrite`
swaps it, and a request handler that is still running may finish after the swap.
Requests, notifications and responses are the objects of sections 4 and 5 of the
JSON-RPC 2.0 specification; frames are modelled after decoding and before encoding.
*/
module RelayDispatcher {
  import opened Options

  datatype Error = Error(code: int, message: string)

  /** What a frame carries. Handler results and notification parameters are text here. */
  datatype Body =
    | Result(id: int, result: string)
    | Failure(id: int, error: Error)
    | Notification(method_: string, params: string)
    | StreamChunk(streamId: nat, chunk: nat, data: string)
    | StreamEnd(streamId: nat)
    | StreamError(streamId: nat, code: string, message: string)
    | KeepAlive

  /** A decoded frame: its id and what its payload parses to. `Other` is a frame type the
      dispatcher ignores, `Unparsable` a payload that is not a JSON-RPC 2.0 message. */
  datatype Message =
    | Request(id: int, method_: string)
    | Notify(method_: string)
    | Response(id: int)
    | KeepAliveFrame
    | Unparsable
    | Other

  datatype Frame = Frame(id: nat, message: Message)

  /** How a request handler ends. */
  datatype Outcome = Returned(result: string) | Threw(code: Option<int>, message: string)

  /** A request whose handler is running, with the generation it was received in. */
  datatype Pending = Pending(id: int, generation: nat)

  /** The history of one dispatcher. `client` counts the calls of `setWrite`. A frame to
      send takes its number before it is encoded: `written` is false for one whose
      encoding threw. `ticket` is the ordinal of the request a response answers. */
  datatype Entry =
    | Received(client: nat, generation: nat, frame: Frame)
    | Sent(client: nat, generation: nat, number: nat, ack: nat, body: Body, ticket: Option<nat>, written: bool)

  datatype State = State(
    client: nat,
    generation: nat,
    nextOutgoing: nat,
    highestReceived: nat,
    disposed: bool,
    handlers: set<string>,
    pending: map<nat, Pending>,
    nextTicket: nat,
    log: seq<Entry>)

  /** Whether a body can be encoded as the frame with a number: the payload must not
      exceed the message limit and the number must fit its header field. */
  type Encoder = (Body, nat) -> bool

  const METHOD_NOT_FOUND := -32601
  const HANDLER_FAILED := -32000

  function Initial(handlers: set<string>): State {
    State(0, 0, 1, 0, false, handlers, map[], 0, [])
  }

  // ---------------------------------------------------------------------
  // Steps
  // ---------------------------------------------------------------------

  /** `sendFrame`: silent once disposed; otherwise the number is taken, and the frame
      is written unless its encoding throws. */
  function Send(enc: Encoder, s: State, body: Body, ticket: Option<nat>): State {
    if s.disposed then s
    else
      s.(nextOutgoing := s.nextOutgoing + 1,
         log := s.log + [Sent(s.client, s.generation, s.nextOutgoing, s.highestReceived, body, ticket,
                              enc(body, s.nextOutgoing))])
  }

  predicate SendThrows(enc: Encoder, s: State, body: Body) {
    !s.disposed && !enc(body, s.nextOutgoing)
  }

  function Swapped(s: State): State {
    s.(client := s.client + 1, generation := s.generation + 1, nextOutgoing := 1, highestReceived := 0)
  }

  function Invalidated(s: State): State {
    s.(generation := s.generation + 1)
  }

  /** The bookkeeping for a frame: the highest id seen, and a ticket for a request. */
  function Seen(s: State, frame: Frame): State {
    s.(highestReceived := if frame.id > s.highestReceived then frame.id else s.highestReceived,
       log := s.log + [Received(s.client, s.generation, frame)],
       nextTicket := if frame.message.Request? then s.nextTicket + 1 else s.nextTicket)
  }

  /** `handleFrame`: the bookkeeping, then a request gets its handler started or the
      method-not-found response. */
  function Handled(enc: Encoder, s: State, frame: Frame): State {
    match frame.message
    case Request(id, method_) =>
      if method_ in s.handlers
      then Seen(s, frame).(pending := s.pending[s.nextTicket := Pending(id, s.generation)])
      else Send(enc, Seen(s, frame), NotFound(id, method_), Some(s.nextTicket))
    case _ => Seen(s, frame)
  }

  function NotFound(id: int, method_: string): Body {
    Failure(id, Error(METHOD_NOT_FOUND, "Method not found: " + method_))
  }

  function ErrorBody(id: int, code: Option<int>, message: string): Body {
    Failure(id, Error(match code case Some(c) => c case None => HANDLER_FAILED, message))
  }

  /** The end of a handler. A result whose encoding throws turns into an error response
      with the message of that exception. */
  function Finish(enc: Encoder, s: State, ticket: nat, outcome: Outcome, tooLarge: string): State
    requires ticket in s.pending
  {
    var p := s.pending[ticket];
    var rest := s.(pending := s.pending - {ticket});
    if s.generation != p.generation then rest else Answered(enc, rest, p.id, ticket, outcome, tooLarge)
  }

  function Answered(enc: Encoder, s: State, id: int, ticket: nat, outcome: Outcome, tooLarge: string): State {
    match outcome
    case Threw(code, message) => Send(enc, s, ErrorBody(id, code, message), Some(ticket))
    case Returned(result) =>
      var answered := Send(enc, s, Result(id, result), Some(ticket));
      if SendThrows(enc, s, Result(id, result))
      then Send(enc, answered, ErrorBody(id, None, tooLarge), Some(ticket))
      else answered
  }

  /** What can happen to a dispatcher, one uninterrupted stretch of code at a time. */
  datatype Event =
    | Swap
    | Invalidate
    | Arrive(frame: Frame)
    | Complete(ticket: nat, outcome: Outcome, tooLarge: string)
    | Push(body: Body)
    | Tick
    | Dispose

  predicate Enabled(s: State, e: Event) {
    match e
    case Complete(ticket, _, _) => ticket in s.pending
    case Push(body) => !body.Result? && !body.Failure?
    case _ => true
  }

  function Step(enc: Encoder, s: State, e: Event): State
    requires Enabled(s, e)
  {
    match e
    case Swap => Swapped(s)
    case Invalidate => Invalidated(s)
    case Arrive(frame) => Handled(enc, s, frame)
    case Complete(ticket, outcome, tooLarge) => Finish(enc, s, ticket, outcome, tooLarge)
    case Push(body) => Send(enc, s, body, None)
    case Tick => Send(enc, s, KeepAlive, None)
    case Dispose => s.(disposed := true)
  }

  predicate ValidRun(enc: Encoder, s: State, es: seq<Event>)
    decreases |es|
  {
    es == [] || (Enabled(s, es[0]) && ValidRun(enc, Step(enc, s, es[0]), es[1..]))
  }

  function Run(enc: Encoder, s: State, es: seq<Event>): State
    requires ValidRun(enc, s, es)
    decreases |es|
  {
    if es == [] then s else Run(enc, Step(enc, s, es[0]), es[1..])
  }

  // ---------------------------------------------------------------------
  // Responses never cross clients
  // ---------------------------------------------------------------------

  function Requests(log: seq<Entry>): seq<Entry>
    ensures forall k | 0 <= k < |Requests(log)| :: Requests(log)[k].Received? && Requests(log)[k].frame.message.Request?
  {
    if log == [] then []
    else
      var last := log[|log| - 1];
      Requests(log[..|log| - 1])
        + (if last.Received? && last.frame.message.Request? then [last] else [])
  }

  predicate IsResponse(e: Entry) {
    e.Sent? && (e.body.Result? || e.body.Failure?)
  }

  /** The entry answers the request with its ticket: same id, same client, same generation. */
  predicate Answers(e: Entry, requests: seq<Entry>)
    requires forall k | 0 <= k < |requests| :: requests[k].Received? && requests[k].frame.message.Request?
  {
    e.Sent? ==>
      if IsResponse(e) then
        && e.ticket.Some? && e.ticket.value < |requests|
        && var r := requests[e.ticket.value];
           e.body.id == r.frame.message.id && e.client == r.client && e.generation == r.generation
      else e.ticket == None
  }

  ghost predicate Consistent(s: State) {
    && s.nextTicket == |Requests(s.log)|
    && (forall ticket | ticket in s.pending ::
         && ticket < s.nextTicket
         && var r := Requests(s.log)[ticket];
            && r.frame.message.id == s.pending[ticket].id
            && r.generation == s.pending[ticket].generation
            && r.generation <= s.generation
            && (r.generation == s.generation ==> r.client == s.client))
    && (forall k | 0 <= k < |s.log| :: Answers(s.log[k], Requests(s.log)))
    && (forall k | 0 <= k < |s.log| && s.log[k].Sent? && s.log[k].ticket.Some? :: s.log[k].ticket.value !in s.pending)
    && (forall j, k | 0 <= j < k < |s.log| :: AtMostOneAnswer(s.log[j], s.log[k]))
  }

  /** Two frames written for one request would be two answers. */
  predicate AtMostOneAnswer(a: Entry, b: Entry) {
    a.Sent? && b.Sent? && a.written && b.written && a.ticket.Some? ==> a.ticket != b.ticket
  }

  lemma RequestsAppend(log: seq<Entry>, e: Entry)
    ensures Requests(log + [e]) == Requests(log) + (if e.Received? && e.frame.message.Request? then [e] else [])
  {
    assert (log + [e])[..|log|] == log;
  }

  lemma SeenKeepsConsistent(s: State, frame: Frame)
    requires Consistent(s)
    ensures Consistent(Seen(s, frame))
  {
    RequestsAppend(s.log, Received(s.client, s.generation, frame));
  }

  /** Sending an answer for a request of this generation, or a frame that answers none. */
  lemma SendKeepsConsistent(enc: Encoder, s: State, body: Body, ticket: Option<nat>)
    requires Consistent(s)
    requires match ticket
      case None => !body.Result? && !body.Failure?
      case Some(t) =>
        && (body.Result? || body.Failure?) && t < s.nextTicket && t !in s.pending
        && (var r := Requests(s.log)[t];
            r.frame.message.id == body.id && r.client == s.client && r.generation == s.generation)
        && (forall k | 0 <= k < |s.log| && s.log[k].Sent? && s.log[k].written :: s.log[k].ticket != Some(t))
    ensures Consistent(Send(enc, s, body, ticket))
  {
    if !s.disposed {
      var e := Sent(s.client, s.generation, s.nextOutgoing, s.highestReceived, body, ticket, enc(body, s.nextOutgoing));
      RequestsAppend(s.log, e);
    }
  }

  lemma FinishKeepsConsistent(enc: Encoder, s: State, ticket: nat, outcome: Outcome, tooLarge: string)
    requires Consistent(s) && ticket in s.pending
    ensures Consistent(Finish(enc, s, ticket, outcome, tooLarge))
  {
    var p := s.pending[ticket];
    var rest := s.(pending := s.pending - {ticket});
    EndedKeepsConsistent(s, ticket);
    if s.generation == p.generation {
      match outcome
      case Threw(code, message) =>
        SendKeepsConsistent(enc, rest, ErrorBody(p.id, code, message), Some(ticket));
      case Returned(result) =>
        SendKeepsConsistent(enc, rest, Result(p.id, result), Some(ticket));
        if SendThrows(enc, rest, Result(p.id, result)) {
          SecondSendKeepsConsistent(enc, rest, Result(p.id, result), ErrorBody(p.id, None, tooLarge), ticket);
        }
    }
  }

  lemma EndedKeepsConsistent(s: State, ticket: nat)
    requires Consistent(s)
    ensures Consistent(s.(pending := s.pending - {ticket}))
  {
  }

  /** The error that stands in for a result that could not be encoded. */
  lemma SecondSendKeepsConsistent(enc: Encoder, s: State, body: Body, instead: Body, t: nat)
    requires Consistent(s) && SendThrows(enc, s, body) && Consistent(Send(enc, s, body, Some(t)))
    requires instead.Failure? && t < s.nextTicket && t !in s.pending
    requires var r := Requests(s.log)[t];
      r.frame.message.id == instead.id && r.client == s.client && r.generation == s.generation
    requires forall k | 0 <= k < |s.log| && s.log[k].Sent? && s.log[k].written :: s.log[k].ticket != Some(t)
    ensures Consistent(Send(enc, Send(enc, s, body, Some(t)), instead, Some(t)))
  {
    var answered := Send(enc, s, body, Some(t));
    RequestsAppend(s.log, answered.log[|s.log|]);
    SendKeepsConsistent(enc, answered, instead, Some(t));
  }

  lemma StartedKeepsConsistent(s: State, frame: Frame)
    requires Consistent(s) && Consistent(Seen(s, frame)) && frame.message.Request?
    ensures Consistent(Seen(s, frame).(pending := s.pending[s.nextTicket := Pending(frame.message.id, s.generation)]))
  {
    RequestsAppend(s.log, Received(s.client, s.generation, frame));
    assert forall k | 0 <= k < |s.log| :: Answers(s.log[k], Requests(s.log));
  }

  lemma RefusedKeepsConsistent(enc: Encoder, s: State, frame: Frame)
    requires Consistent(s) && Consistent(Seen(s, frame)) && frame.message.Request?
    ensures Consistent(Send(enc, Seen(s, frame), NotFound(frame.message.id, frame.message.method_), Some(s.nextTicket)))
  {
    RequestsAppend(s.log, Received(s.client, s.generation, frame));
    assert forall k | 0 <= k < |s.log| :: Answers(s.log[k], Requests(s.log));
    SendKeepsConsistent(enc, Seen(s, frame), NotFound(frame.message.id, frame.message.method_), Some(s.nextTicket));
  }

  lemma ArriveKeepsConsistent(enc: Encoder, s: State, frame: Frame)
    requires Consistent(s)
    ensures Consistent(Handled(enc, s, frame))
  {
    SeenKeepsConsistent(s, frame);
    if frame.message.Request? {
      if frame.message.method_ in s.handlers {
        StartedKeepsConsistent(s, frame);
      } else {
        RefusedKeepsConsistent(enc, s, frame);
      }
    }
  }

  lemma StepKeepsConsistent(enc: Encoder, s: State, e: Event)
    requires Consistent(s) && Enabled(s, e)
    ensures Consistent(Step(enc, s, e))
  {
    match e
    case Swap =>
    case Invalidate =>
    case Dispose =>
    case Push(body) => SendKeepsConsistent(enc, s, body, None);
    case Tick => SendKeepsConsistent(enc, s, KeepAlive, None);
    case Complete(ticket, outcome, tooLarge) => FinishKeepsConsistent(enc, s, ticket, outcome, tooLarge);
    case Arrive(frame) => ArriveKeepsConsistent(enc, s, frame);
  }

  lemma {:induction false} RunKeepsConsistent(enc: Encoder, s: State, es: seq<Event>)
    requires Consistent(s) && ValidRun(enc, s, es)
    ensures Consistent(Run(enc, s, es))
    decreases |es|
  {
    if es != [] {
      StepKeepsConsistent(enc, s, es[0]);
      RunKeepsConsistent(enc, Step(enc, s, es[0]), es[1..]);
    }
  }

  /** Over every run: a frame that is a response answers the request with its ticket,
      received from the same client and in the same generation, under the same id;
      no other frame answers any; and no request is answered twice. */
  lemma ResponsesNeverCrossClients(enc: Encoder, handlers: set<string>, es: seq<Event>)
    requires ValidRun(enc, Initial(handlers), es)
    ensures var log := Run(enc, Initial(handlers), es).log;
      && (forall k | 0 <= k < |log| && IsResponse(log[k]) ::
           && log[k].ticket.Some? && log[k].ticket.value < |Requests(log)|
           && var r := Requests(log)[log[k].ticket.value];
              && log[k].client == r.client && log[k].generation == r.generation
              && log[k].body.id == r.frame.message.id)
      && (forall j, k | 0 <= j < k < |log| && IsResponse(log[j]) && IsResponse(log[k]) && log[j].written
          && log[k].written ::
           log[j].ticket != log[k].ticket)
  {
    RunKeepsConsistent(enc, Initial(handlers), es);
    var s := Run(enc, Initial(handlers), es);
    forall j, k | 0 <= j < k < |s.log| && IsResponse(s.log[j]) && IsResponse(s.log[k]) && s.log[j].written
        && s.log[k].written
      ensures s.log[j].ticket != s.log[k].ticket
    {
      assert Answers(s.log[j], Requests(s.log)) && AtMostOneAnswer(s.log[j], s.log[k]);
    }
  }

  /** A generation belongs to one client, so what is sent in the generation of a request
      goes to the client that asked. */
  ghost predicate OneClientPerGeneration(s: State) {
    && (forall k | 0 <= k < |s.log| ::
         s.log[k].generation <= s.generation && (s.log[k].generation == s.generation ==> s.log[k].client == s.client))
    && (forall j, k | 0 <= j < |s.log| && 0 <= k < |s.log| && s.log[j].generation == s.log[k].generation ::
         s.log[j].client == s.log[k].client)
  }

  /** A step appends entries of the current client and generation, or changes the generation. */
  lemma StepAppends(enc: Encoder, s: State, e: Event)
    requires Enabled(s, e)
    ensures var t := Step(enc, s, e);
      && s.log <= t.log
      && (forall k | |s.log| <= k < |t.log| :: t.log[k].client == s.client && t.log[k].generation == s.generation)
      && (if e.Swap? || e.Invalidate? then t.generation == s.generation + 1 && t.log == s.log
          else t.generation == s.generation && t.client == s.client)
  {
  }

  lemma StepKeepsOneClient(enc: Encoder, s: State, e: Event)
    requires OneClientPerGeneration(s) && Enabled(s, e)
    ensures OneClientPerGeneration(Step(enc, s, e))
  {
    StepAppends(enc, s, e);
    var t := Step(enc, s, e);
    forall k | 0 <= k < |t.log|
      ensures t.log[k].generation <= s.generation
      ensures t.log[k].generation == s.generation ==> t.log[k].client == s.client
    {
      if k < |s.log| {
        assert t.log[k] == s.log[k];
      }
    }
    forall j, k | 0 <= j < |t.log| && 0 <= k < |t.log| && t.log[j].generation == t.log[k].generation
      ensures t.log[j].client == t.log[k].client
    {
      if j < |s.log| && k < |s.log| {
        assert t.log[j] == s.log[j] && t.log[k] == s.log[k];
      }
    }
  }

  lemma {:induction false} GenerationsHaveOneClient(enc: Encoder, s: State, es: seq<Event>)
    requires OneClientPerGeneration(s) && ValidRun(enc, s, es)
    ensures OneClientPerGeneration(Run(enc, s, es))
    decreases |es|
  {
    if es != [] {
      StepKeepsOneClient(enc, s, es[0]);
      GenerationsHaveOneClient(enc, Step(enc, s, es[0]), es[1..]);
    }
  }

  /** The frames written in answer to a request. */
  function AnswersTo(log: seq<Entry>, ticket: nat): seq<Entry> {
    if log == [] then []
    else
      var last := log[|log| - 1];
      AnswersTo(log[..|log| - 1], ticket)
        + (if last.Sent? && last.written && last.ticket == Some(ticket) then [last] else [])
  }

  lemma AnswersToAppend(log: seq<Entry>, e: Entry, ticket: nat)
    ensures AnswersTo(log + [e], ticket)
         == AnswersTo(log, ticket) + (if e.Sent? && e.written && e.ticket == Some(ticket) then [e] else [])
  {
    assert (log + [e])[..|log|] == log;
  }

  lemma {:induction false} NoAnswerYet(log: seq<Entry>, ticket: nat)
    requires forall k | 0 <= k < |log| && log[k].Sent? && log[k].written :: log[k].ticket != Some(ticket)
    ensures AnswersTo(log, ticket) == []
  {
    if log != [] {
      NoAnswerYet(log[..|log| - 1], ticket);
    }
  }

  /** A handler's outcome can be put on the wire, as it is or as the error that says why not. */
  predicate Encodable(enc: Encoder, s: State, id: int, outcome: Outcome, tooLarge: string) {
    match outcome
    case Threw(code, message) => enc(ErrorBody(id, code, message), s.nextOutgoing)
    case Returned(result) =>
      enc(Result(id, result), s.nextOutgoing) || enc(ErrorBody(id, None, tooLarge), s.nextOutgoing + 1)
  }

  /** When a handler ends, its request is answered exactly once if the generation it was
      received in is still current, the dispatcher lives and an answer can be encoded;
      otherwise it is never answered. */
  lemma FinishAnswersIff(enc: Encoder, s: State, ticket: nat, outcome: Outcome, tooLarge: string)
    requires Consistent(s) && ticket in s.pending
    ensures |AnswersTo(Finish(enc, s, ticket, outcome, tooLarge).log, ticket)| ==
      if s.generation == s.pending[ticket].generation && !s.disposed
         && Encodable(enc, s, s.pending[ticket].id, outcome, tooLarge)
      then 1 else 0
  {
    PendingIsUnanswered(s, ticket);
    var rest := s.(pending := s.pending - {ticket});
    if s.generation == s.pending[ticket].generation {
      FinishAnswers(enc, rest, s.pending[ticket].id, ticket, outcome, tooLarge);
    }
  }

  lemma FinishAnswers(enc: Encoder, s: State, id: int, ticket: nat, outcome: Outcome, tooLarge: string)
    requires AnswersTo(s.log, ticket) == []
    ensures |AnswersTo(Answered(enc, s, id, ticket, outcome, tooLarge).log, ticket)| ==
      if !s.disposed && Encodable(enc, s, id, outcome, tooLarge) then 1 else 0
  {
    match outcome
    case Threw(code, message) => ThrewAnswers(enc, s, id, ticket, code, message, tooLarge);
    case Returned(result) => ReturnedAnswers(enc, s, id, ticket, result, tooLarge);
  }

  lemma ThrewAnswers(enc: Encoder, s: State, id: int, ticket: nat, code: Option<int>, message: string, tooLarge: string)
    requires AnswersTo(s.log, ticket) == []
    ensures |AnswersTo(Answered(enc, s, id, ticket, Threw(code, message), tooLarge).log, ticket)| ==
      if !s.disposed && enc(ErrorBody(id, code, message), s.nextOutgoing) then 1 else 0
  {
    SendAnswers(enc, s, ErrorBody(id, code, message), ticket);
  }

  lemma ReturnedAnswers(enc: Encoder, s: State, id: int, ticket: nat, result: string, tooLarge: string)
    requires AnswersTo(s.log, ticket) == []
    ensures |AnswersTo(Answered(enc, s, id, ticket, Returned(result), tooLarge).log, ticket)| ==
      if !s.disposed && Encodable(enc, s, id, Returned(result), tooLarge) then 1 else 0
  {
    ReturnAnswers(enc, s, Result(id, result), ErrorBody(id, None, tooLarge), ticket);
  }

  lemma PendingIsUnanswered(s: State, ticket: nat)
    requires Consistent(s) && ticket in s.pending
    ensures AnswersTo(s.log, ticket) == []
  {
    NoAnswerYet(s.log, ticket);
  }

  lemma ReturnAnswers(enc: Encoder, s: State, body: Body, instead: Body, ticket: nat)
    ensures var answered := Send(enc, s, body, Some(ticket));
      var t := if SendThrows(enc, s, body) then Send(enc, answered, instead, Some(ticket)) else answered;
      |AnswersTo(t.log, ticket)| == |AnswersTo(s.log, ticket)|
        + if !s.disposed && (enc(body, s.nextOutgoing) || enc(instead, s.nextOutgoing + 1)) then 1 else 0
  {
    SendAnswers(enc, s, body, ticket);
    if SendThrows(enc, s, body) {
      SendAnswers(enc, Send(enc, s, body, Some(ticket)), instead, ticket);
    }
  }

  lemma SendAnswers(enc: Encoder, s: State, body: Body, ticket: nat)
    ensures |AnswersTo(Send(enc, s, body, Some(ticket)).log, ticket)|
         == |AnswersTo(s.log, ticket)| + if !s.disposed && enc(body, s.nextOutgoing) then 1 else 0
  {
    if !s.disposed {
      AnswersToAppend(s.log, Send(enc, s, body, Some(ticket)).log[|s.log|], ticket);
    }
  }

  /** Nothing in the run changes the generation, disposes, or ends the request's handler. */
  predicate Undisturbed(es: seq<Event>, ticket: nat) {
    forall e | e in es :: !e.Swap? && !e.Invalidate? && !e.Dispose? && !(e.Complete? && e.ticket == ticket)
  }

  lemma {:induction false} PendingThroughRun(enc: Encoder, s: State, es: seq<Event>, ticket: nat)
    requires Consistent(s) && ValidRun(enc, s, es) && ticket in s.pending && Undisturbed(es, ticket)
    ensures var t := Run(enc, s, es);
      && ticket in t.pending && t.pending[ticket] == s.pending[ticket]
      && t.generation == s.generation && t.disposed == s.disposed
    decreases |es|
  {
    if es != [] {
      assert es[0] in es;
      StepKeepsConsistent(enc, s, es[0]);
      PendingThroughStep(enc, s, es[0], ticket);
      PendingThroughRun(enc, Step(enc, s, es[0]), es[1..], ticket);
    }
  }

  lemma PendingThroughStep(enc: Encoder, s: State, e: Event, ticket: nat)
    requires Consistent(s) && Enabled(s, e) && ticket in s.pending && Undisturbed([e], ticket)
    ensures var t := Step(enc, s, e);
      && ticket in t.pending && t.pending[ticket] == s.pending[ticket]
      && t.generation == s.generation && t.disposed == s.disposed
  {
    assert e in [e];
  }

  /** A request whose handler runs while the client stays and nothing is disposed is
      answered exactly once when the handler ends. */
  lemma UndisturbedRequestIsAnsweredOnce(enc: Encoder, s: State, frame: Frame, es: seq<Event>, outcome: Outcome,
                                         tooLarge: string)
    requires Consistent(s) && !s.disposed
    requires frame.message.Request? && frame.message.method_ in s.handlers
    requires var received := Handled(enc, s, frame);
      && ValidRun(enc, received, es) && Undisturbed(es, s.nextTicket)
      && Encodable(enc, Run(enc, received, es), frame.message.id, outcome, tooLarge)
    ensures var t := Run(enc, Handled(enc, s, frame), es);
      && s.nextTicket in t.pending
      && |AnswersTo(Finish(enc, t, s.nextTicket, outcome, tooLarge).log, s.nextTicket)| == 1
  {
    var received := Handled(enc, s, frame);
    ArriveKeepsConsistent(enc, s, frame);
    PendingThroughRun(enc, received, es, s.nextTicket);
    RunKeepsConsistent(enc, received, es);
    FinishAnswersIff(enc, Run(enc, received, es), s.nextTicket, outcome, tooLarge);
  }

  /** Frames sent in one go, each for the current client and answering the ticket. */
  predicate SentNext(s: State, t: State, bodies: seq<Body>, ticket: nat) {
    && |t.log| == |s.log| + |bodies| && t.log[..|s.log|] == s.log
    && forall k | 0 <= k < |bodies| ::
      var e := t.log[|s.log| + k];
      e.Sent? && e.body == bodies[k] && e.ticket == Some(ticket) && e.client == s.client && e.generation == s.generation
  }

  /** What a handler's end puts on the wire: its result; a result that cannot be encoded is
      followed by an error with code -32000 that says so; what it threw, with its own code
      or -32000. */
  lemma FinishSays(enc: Encoder, s: State, ticket: nat, outcome: Outcome, tooLarge: string)
    requires ticket in s.pending && !s.disposed && s.generation == s.pending[ticket].generation
    ensures var t, id := Finish(enc, s, ticket, outcome, tooLarge), s.pending[ticket].id;
      match outcome
      case Returned(result) =>
        if enc(Result(id, result), s.nextOutgoing) then SentNext(s, t, [Result(id, result)], ticket)
        else SentNext(s, t, [Result(id, result), Failure(id, Error(-32000, tooLarge))], ticket)
      case Threw(None, message) => SentNext(s, t, [Failure(id, Error(-32000, message))], ticket)
      case Threw(Some(code), message) => SentNext(s, t, [Failure(id, Error(code, message))], ticket)
  {
  }

  /** A request for a method without handler is answered at once with code -32601; one
      with a handler puts nothing on the wire yet. */
  lemma ArrivalSays(enc: Encoder, s: State, frame: Frame)
    requires frame.message.Request? && !s.disposed
    ensures var t, seen := Handled(enc, s, frame), s.(log := s.log + [Received(s.client, s.generation, frame)]);
      if frame.message.method_ in s.handlers then t.log == seen.log
      else SentNext(seen, t,
        [Failure(frame.message.id, Error(-32601, "Method not found: " + frame.message.method_))], s.nextTicket)
  {
  }

  /** A request whose result cannot be encoded, nor the error that says so, is never
      answered: its handler ends at once, the client is still there, and gets nothing. */
  lemma UnencodableAnswerIsNoAnswer(enc: Encoder, handlers: set<string>, id: int, method_: string, result: string,
                                    tooLarge: string)
    requires method_ in handlers
    requires !enc(Result(id, result), 1) && !enc(ErrorBody(id, None, tooLarge), 2)
    ensures var received := Handled(enc, Initial(handlers), Frame(1, Request(id, method_)));
      && 0 in received.pending
      && AnswersTo(Finish(enc, received, 0, Returned(result), tooLarge).log, 0) == []
  {
    var received := Handled(enc, Initial(handlers), Frame(1, Request(id, method_)));
    ArriveKeepsConsistent(enc, Initial(handlers), Frame(1, Request(id, method_)));
    FinishAnswersIff(enc, received, 0, Returned(result), tooLarge);
  }

  // ---------------------------------------------------------------------
  // Numbers and acks
  // ---------------------------------------------------------------------

  /** What was sent to one client, in order, frames that failed to encode included. */
  function Epoch(log: seq<Entry>, client: nat): seq<Entry>
    ensures forall k | 0 <= k < |Epoch(log, client)| :: Epoch(log, client)[k].Sent?
  {
    if log == [] then []
    else
      var last := log[|log| - 1];
      Epoch(log[..|log| - 1], client) + (if last.Sent? && last.client == client then [last] else [])
  }

  /** What a client received, in order. */
  function Written(es: seq<Entry>): seq<Entry>
    requires forall k | 0 <= k < |es| :: es[k].Sent?
    ensures forall k | 0 <= k < |Written(es)| :: Written(es)[k].Sent? && Written(es)[k].written
  {
    if es == [] then []
    else Written(es[..|es| - 1]) + (if es[|es| - 1].written then [es[|es| - 1]] else [])
  }

  /** The greatest frame id received from a client, 0 before the first. */
  function MaxReceived(log: seq<Entry>, client: nat): nat {
    if log == [] then 0
    else
      var last, before := log[|log| - 1], MaxReceived(log[..|log| - 1], client);
      if last.Received? && last.client == client && last.frame.id > before then last.frame.id else before
  }

  ghost predicate Numbered(s: State) {
    && (forall k | 0 <= k < |s.log| :: s.log[k].client <= s.client)
    && s.nextOutgoing == |Epoch(s.log, s.client)| + 1
    && s.highestReceived == MaxReceived(s.log, s.client)
    && (forall c: nat, i: nat | i < |Epoch(s.log, c)| :: Epoch(s.log, c)[i].number == i + 1)
    && (forall k | 0 <= k < |s.log| && s.log[k].Sent? :: s.log[k].ack == MaxReceived(s.log[..k], s.log[k].client))
  }

  lemma AppendViews(log: seq<Entry>, e: Entry, client: nat)
    ensures Epoch(log + [e], client) == Epoch(log, client) + (if e.Sent? && e.client == client then [e] else [])
    ensures MaxReceived(log + [e], client) ==
      if e.Received? && e.client == client && e.frame.id > MaxReceived(log, client) then e.frame.id
          else MaxReceived(log, client)
  {
    assert (log + [e])[..|log|] == log;
  }

  lemma {:induction false} NoEntryNoView(log: seq<Entry>, client: nat)
    requires forall k | 0 <= k < |log| :: log[k].client != client
    ensures Epoch(log, client) == [] && MaxReceived(log, client) == 0
  {
    if log != [] {
      NoEntryNoView(log[..|log| - 1], client);
    }
  }

  lemma NumbersRunOn(log: seq<Entry>, e: Entry)
    requires e.Sent? && e.number == |Epoch(log, e.client)| + 1
    requires forall c: nat, i: nat | i < |Epoch(log, c)| :: Epoch(log, c)[i].number == i + 1
    ensures forall c: nat, i: nat | i < |Epoch(log + [e], c)| :: Epoch(log + [e], c)[i].number == i + 1
  {
    forall c: nat ensures Epoch(log + [e], c) == Epoch(log, c) + (if c == e.client then [e] else []) {
      AppendViews(log, e, c);
    }
  }

  lemma AcksRunOn(log: seq<Entry>, e: Entry)
    requires e.Sent? ==> e.ack == MaxReceived(log, e.client)
    requires forall k | 0 <= k < |log| && log[k].Sent? :: log[k].ack == MaxReceived(log[..k], log[k].client)
    ensures var more := log + [e];
      forall k | 0 <= k < |more| && more[k].Sent? :: more[k].ack == MaxReceived(more[..k], more[k].client)
  {
    var more := log + [e];
    assert forall k | 0 <= k <= |log| :: more[..k] == log[..k];
    assert log[..|log|] == log;
  }

  lemma SendKeepsNumbered(enc: Encoder, s: State, body: Body, ticket: Option<nat>)
    requires Numbered(s)
    ensures Numbered(Send(enc, s, body, ticket))
  {
    if !s.disposed {
      var e := Sent(s.client, s.generation, s.nextOutgoing, s.highestReceived, body, ticket, enc(body, s.nextOutgoing));
      AppendViews(s.log, e, s.client);
      NumbersRunOn(s.log, e);
      AcksRunOn(s.log, e);
    }
  }

  lemma SeenKeepsNumbered(s: State, frame: Frame)
    requires Numbered(s)
    ensures Numbered(Seen(s, frame))
  {
    var e := Received(s.client, s.generation, frame);
    var log := s.log + [e];
    forall c: nat ensures Epoch(log, c) == Epoch(s.log, c) {
      AppendViews(s.log, e, c);
    }
    AppendViews(s.log, e, s.client);
    AcksRunOn(s.log, e);
  }

  lemma FinishKeepsNumbered(enc: Encoder, s: State, ticket: nat, outcome: Outcome, tooLarge: string)
    requires Numbered(s) && ticket in s.pending
    ensures Numbered(Finish(enc, s, ticket, outcome, tooLarge))
  {
    var p := s.pending[ticket];
    var rest := s.(pending := s.pending - {ticket});
    RunningKeepsNumbered(s, rest.pending);
    match outcome
    case Threw(code, message) =>
      SendKeepsNumbered(enc, rest, ErrorBody(p.id, code, message), Some(ticket));
    case Returned(result) =>
      SendKeepsNumbered(enc, rest, Result(p.id, result), Some(ticket));
      SendKeepsNumbered(enc, Send(enc, rest, Result(p.id, result), Some(ticket)), ErrorBody(p.id, None, tooLarge),
                        Some(ticket));
  }

  lemma SwappedKeepsNumbered(s: State)
    requires Numbered(s)
    ensures Numbered(Swapped(s))
  {
    NoEntryNoView(s.log, s.client + 1);
  }

  lemma HandledKeepsNumbered(enc: Encoder, s: State, frame: Frame)
    requires Numbered(s)
    ensures Numbered(Handled(enc, s, frame))
  {
    SeenKeepsNumbered(s, frame);
    if frame.message.Request? {
      SendKeepsNumbered(enc, Seen(s, frame), NotFound(frame.message.id, frame.message.method_), Some(s.nextTicket));
      RunningKeepsNumbered(Seen(s, frame), s.pending[s.nextTicket := Pending(frame.message.id, s.generation)]);
    }
  }

  lemma RunningKeepsNumbered(s: State, pending: map<nat, Pending>)
    requires Numbered(s)
    ensures Numbered(s.(pending := pending))
  {
  }

  lemma StepKeepsNumbered(enc: Encoder, s: State, e: Event)
    requires Numbered(s) && Enabled(s, e)
    ensures Numbered(Step(enc, s, e))
  {
    match e
    case Swap => SwappedKeepsNumbered(s);
    case Invalidate =>
    case Dispose =>
    case Push(body) => SendKeepsNumbered(enc, s, body, None);
    case Tick => SendKeepsNumbered(enc, s, KeepAlive, None);
    case Complete(ticket, outcome, tooLarge) => FinishKeepsNumbered(enc, s, ticket, outcome, tooLarge);
    case Arrive(frame) => HandledKeepsNumbered(enc, s, frame);
  }

  lemma {:induction false} RunKeepsNumbered(enc: Encoder, s: State, es: seq<Event>)
    requires Numbered(s) && ValidRun(enc, s, es)
    ensures Numbered(Run(enc, s, es))
    decreases |es|
  {
    if es != [] {
      StepKeepsNumbered(enc, s, es[0]);
      RunKeepsNumbered(enc, Step(enc, s, es[0]), es[1..]);
    }
  }

  /** A frame written after one that failed to encode. */
  predicate FailureBeforeWritten(es: seq<Entry>)
    requires forall k | 0 <= k < |es| :: es[k].Sent?
  {
    exists i, j :: 0 <= i < j < |es| && !es[i].written && es[j].written
  }

  lemma {:induction false} WrittenCount(es: seq<Entry>)
    requires forall k | 0 <= k < |es| :: es[k].Sent?
    ensures |Written(es)| <= |es|
    ensures |Written(es)| == |es| <==> forall k | 0 <= k < |es| :: es[k].written
  {
    if es != [] {
      var init := es[..|es| - 1];
      WrittenCount(init);
      assert forall k | 0 <= k < |init| :: init[k] == es[k];
    }
  }

  predicate InSequence(es: seq<Entry>)
    requires forall k | 0 <= k < |es| :: es[k].Sent?
  {
    forall i | 0 <= i < |es| :: es[i].number == i + 1
  }

  lemma {:induction false} WrittenNumbers(es: seq<Entry>)
    requires forall k | 0 <= k < |es| :: es[k].Sent?
    requires InSequence(es)
    ensures InSequence(Written(es)) <==> !FailureBeforeWritten(es)
  {
    if es != [] {
      var init, last := es[..|es| - 1], es[|es| - 1];
      WrittenNumbers(init);
      WrittenCount(init);
      FailureBeforeLast(es);
      if last.written {
        NumberedAtEnd(Written(init), last);
      } else {
        assert Written(es) == Written(init);
      }
    }
  }

  lemma FailureBeforeLast(es: seq<Entry>)
    requires es != [] && forall k | 0 <= k < |es| :: es[k].Sent?
    ensures var init, last := es[..|es| - 1], es[|es| - 1];
      FailureBeforeWritten(es) <==>
        FailureBeforeWritten(init) || (last.written && exists k :: 0 <= k < |init| && !init[k].written)
  {
    var init := es[..|es| - 1];
    assert forall k | 0 <= k < |init| :: init[k] == es[k];
  }

  lemma NumberedAtEnd(ws: seq<Entry>, last: Entry)
    requires last.Sent? && forall k | 0 <= k < |ws| :: ws[k].Sent?
    ensures InSequence(ws + [last]) <==> InSequence(ws) && last.number == |ws| + 1
  {
    var all := ws + [last];
    assert forall i | 0 <= i < |ws| :: all[i] == ws[i];
    assert all[|ws|] == last;
  }

  /** In every run and for every client: the i-th frame the client receives has number i,
      keepalives included, unless the encoding of an earlier frame to it threw; exactly
      then a number is skipped. */
  lemma FramesAreNumberedIff(enc: Encoder, handlers: set<string>, es: seq<Event>, client: nat)
    requires ValidRun(enc, Initial(handlers), es)
    ensures var sent := Epoch(Run(enc, Initial(handlers), es).log, client);
      InSequence(Written(sent)) <==> !FailureBeforeWritten(sent)
  {
    RunKeepsNumbered(enc, Initial(handlers), es);
    var s := Run(enc, Initial(handlers), es);
    forall i | 0 <= i < |Epoch(s.log, client)|
      ensures Epoch(s.log, client)[i].number == i + 1
    {
      var n: nat := i;
      assert n < |Epoch(s.log, client)|;
    }
    WrittenNumbers(Epoch(s.log, client));
  }

  /** Every frame acknowledges the greatest frame id received so far from the client it goes to. */
  lemma AcksAreTheMaximumReceived(enc: Encoder, handlers: set<string>, es: seq<Event>)
    requires ValidRun(enc, Initial(handlers), es)
    ensures var log := Run(enc, Initial(handlers), es).log;
      && (forall k | 0 <= k < |log| && log[k].Sent? :: log[k].ack == MaxReceived(log[..k], log[k].client))
      && (forall j, k | 0 <= j < k < |log| && log[j].Sent? && log[k].Sent? && log[j].client == log[k].client ::
           log[j].ack <= log[k].ack)
  {
    RunKeepsNumbered(enc, Initial(handlers), es);
    var log := Run(enc, Initial(handlers), es).log;
    forall j, k | 0 <= j < k < |log| && log[j].Sent? && log[k].Sent? && log[j].client == log[k].client
      ensures log[j].ack <= log[k].ack
    {
      MaxReceivedGrows(log, j, k, log[k].client);
    }
  }

  lemma {:induction false} MaxReceivedGrows(log: seq<Entry>, j: nat, k: nat, client: nat)
    requires j <= k <= |log|
    ensures MaxReceived(log[..j], client) <= MaxReceived(log[..k], client)
  {
    if j < k {
      assert log[..k][..k - 1] == log[..k - 1];
      MaxReceivedGrows(log, j, k - 1, client);
    }
  }

  /** The number is taken before the frame is encoded: a notification over the message
      limit costs its number, and the next frame's is one too high. */
  lemma OversizedFrameSkipsANumber(enc: Encoder, big: Body)
    requires !big.Result? && !big.Failure? && !enc(big, 1) && enc(KeepAlive, 2)
    ensures var es := [Push(big), Tick];
      && ValidRun(enc, Initial({}), es)
      && var w := Written(Epoch(Run(enc, Initial({}), es).log, 0));
         |w| == 1 && w[0].number == 2
  {
    var s1 := Send(enc, Initial({}), big, None);
    var a, b := Sent(0, 0, 1, 0, big, None, false), Sent(0, 0, 2, 0, KeepAlive, None, true);
    assert s1.log == [a];
    assert Send(enc, s1, KeepAlive, None).log == [a] + [b] == [a, b];
    TwoEvents(enc, Initial({}), Push(big), Tick);
    TwoSent(a, b);
  }

  lemma TwoEvents(enc: Encoder, s: State, e: Event, f: Event)
    requires Enabled(s, e) && Enabled(Step(enc, s, e), f)
    ensures ValidRun(enc, s, [e, f]) && Run(enc, s, [e, f]) == Step(enc, Step(enc, s, e), f)
  {
    assert [e, f][1..] == [f];
    OneEvent(enc, Step(enc, s, e), f);
  }

  lemma OneEvent(enc: Encoder, s: State, e: Event)
    requires Enabled(s, e)
    ensures ValidRun(enc, s, [e]) && Run(enc, s, [e]) == Step(enc, s, e)
  {
    var none: seq<Event> := [e][1..];
    assert none == [] && ValidRun(enc, Step(enc, s, e), none) && Run(enc, Step(enc, s, e), none) == Step(enc, s, e);
  }

  lemma TwoSent(a: Entry, b: Entry)
    requires a.Sent? && !a.written && b.Sent? && b.written && a.client == b.client
    ensures Written(Epoch([a, b], a.client)) == [b]
  {
    AppendViews([], a, a.client);
    AppendViews([a], b, a.client);
    assert [] + [a] == [a] && [a] + [b] == [a, b];
    assert [a, b][..1] == [a] && [a][..0] == [];
    assert Written([a]) == [];
  }

  // ---------------------------------------------------------------------
  // The dispatcher's own form: counters and flags updated by its methods
  // ---------------------------------------------------------------------

  class Dispatcher {
    const encodes: Encoder
    var requestHandlers: set<string>
    var nextOutgoingSeq: nat
    var highestReceivedSeq: nat
    var disposed: bool
    var generation: nat
    var running: map<nat, Pending>
    /** The rest records what crossed the connection and is never read by the dispatcher. */
    var client: nat
    var nextTicket: nat
    var log: seq<Entry>

    function View(): State
      reads this
    {
      State(client, generation, nextOutgoingSeq, highestReceivedSeq, disposed, requestHandlers, running, nextTicket,
            log)
    }

    constructor (encodes: Encoder, requestHandlers: set<string>)
      ensures this.encodes == encodes && View() == Initial(requestHandlers)
    {
      this.encodes, this.requestHandlers := encodes, requestHandlers;
      nextOutgoingSeq, highestReceivedSeq, disposed, generation := 1, 0, false, 0;
      running, client, nextTicket, log := map[], 0, 0, [];
    }

    method SetWrite()
      modifies this
      ensures View() == Swapped(old(View()))
    {
      client := client + 1;
      nextOutgoingSeq := 1;
      highestReceivedSeq := 0;
      generation := generation + 1;
    }

    method InvalidateClient()
      modifies this
      ensures View() == Invalidated(old(View()))
    {
      generation := generation + 1;
    }

    /** `sendFrame`, shared by responses, notifications and the keepalive timer. */
    method SendFrame(body: Body, ticket: Option<nat>) returns (threw: bool)
      modifies this
      ensures View() == Send(encodes, old(View()), body, ticket)
      ensures threw == SendThrows(encodes, old(View()), body)
    {
      if disposed {
        return false;
      }
      var seqNumber := nextOutgoingSeq;
      nextOutgoingSeq := nextOutgoingSeq + 1;
      threw := !encodes(body, seqNumber);
      Record(Sent(client, generation, seqNumber, highestReceivedSeq, body, ticket, !threw));
    }

    method Record(entry: Entry)
      modifies this`log
      ensures log == old(log) + [entry]
    {
      log := log + [entry];
    }

    /** `feed` with the frames one chunk of bytes decodes to. */
    method Feed(frames: seq<Frame>)
      modifies this
      ensures old(disposed) ==> View() == old(View())
      ensures !old(disposed) ==>
        ValidRun(encodes, old(View()), Arrivals(frames)) && View() == Run(encodes, old(View()), Arrivals(frames))
    {
      if disposed {
        return;
      }
      ghost var before := View();
      for i := 0 to |frames|
        invariant ValidRun(encodes, before, Arrivals(frames[..i]))
        invariant View() == Run(encodes, before, Arrivals(frames[..i]))
      {
        HandleFrame(frames[i]);
        ArrivalsAppend(frames[..i], frames[i]);
        assert frames[..i + 1] == frames[..i] + [frames[i]];
        RunOneMore(encodes, before, Arrivals(frames[..i]), Arrive(frames[i]));
      }
      assert frames[..|frames|] == frames;
    }

    method HandleFrame(frame: Frame)
      modifies this
      ensures View() == Handled(encodes, old(View()), frame)
    {
      Record(Received(client, generation, frame));
      if frame.id > highestReceivedSeq {
        highestReceivedSeq := frame.id;
      }
      match frame.message {
        case Request(id, method_) =>
          HandleRequest(id, method_);
        case _ =>
      }
    }

    /** `handleRequest` up to the `await` of the handler. */
    method HandleRequest(id: int, method_: string)
      modifies this
      ensures
        var s := old(View()).(nextTicket := old(nextTicket) + 1);
        View() ==
          if method_ in old(requestHandlers) then s.(pending := s.pending[old(nextTicket) := Pending(id, s.generation)])
          else Send(encodes, s, NotFound(id, method_), Some(old(nextTicket)))
    {
      var ticket := nextTicket;
      nextTicket := nextTicket + 1;
      if method_ !in requestHandlers {
        var threw := SendFrame(Failure(id, Error(METHOD_NOT_FOUND, "Method not found: " + method_)), Some(ticket));
        return;
      }
      running := running[ticket := Pending(id, generation)];
    }

    /** The rest of `handleRequest`, once the handler's promise settles. */
    method HandlerDone(ticket: nat, outcome: Outcome, tooLarge: string)
      requires ticket in running
      modifies this
      ensures View() == Finish(encodes, old(View()), ticket, outcome, tooLarge)
    {
      var request := running[ticket];
      running := running - {ticket};
      if generation != request.generation {
        return;
      }
      var threw;
      match outcome {
        case Returned(result) =>
          threw := SendFrame(Result(request.id, result), Some(ticket));
          if threw {
            threw := SendFrame(Failure(request.id, Error(HANDLER_FAILED, tooLarge)), Some(ticket));
          }
        case Threw(code, message) =>
          var number := match code case Some(c) => c case None => HANDLER_FAILED;
          threw := SendFrame(Failure(request.id, Error(number, message)), Some(ticket));
      }
    }

    method Dispose()
      modifies this
      ensures View() == old(View()).(disposed := true)
    {
      if disposed {
        return;
      }
      disposed := true;
    }
  }

  function Arrivals(frames: seq<Frame>): seq<Event> {
    seq(|frames|, i requires 0 <= i < |frames| => Arrive(frames[i]))
  }

  lemma ArrivalsAppend(frames: seq<Frame>, frame: Frame)
    ensures Arrivals(frames + [frame]) == Arrivals(frames) + [Arrive(frame)]
  {
  }

  lemma {:induction false} RunOneMore(enc: Encoder, s: State, es: seq<Event>, e: Event)
    requires ValidRun(enc, s, es) && Enabled(Run(enc, s, es), e)
    ensures ValidRun(enc, s, es + [e])
    ensures Run(enc, s, es + [e]) == Step(enc, Run(enc, s, es), e)
    decreases |es|
  {
    if es == [] {
      assert [] + [e] == [e] && [e][1..] == [];
    } else {
      assert (es + [e])[1..] == es[1..] + [e];
      RunOneMore(enc, Step(enc, s, es[0]), es[1..], e);
    }
  }
}
