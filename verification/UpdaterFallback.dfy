/**
The updater's manifest fallback. A failed check is reported twice, by an `error`
event and by the rejection of the check's promise, in either order; when the
pinned prerelease has no manifest the check is retried once against the previous
tag, which doubles that again. Suppression keys are meant to make one outcome of it.
*/
module UpdaterFallback {
  import opened Options
  import opened UpdateMessages

  /** A JavaScript error: two errors are the same object exactly if they are equal here. */
  datatype JsError = JsError(object_: nat, message: string)

  /** `user:<message>` or `auto:<message>`. */
  datatype Key = Key(user: bool, message: string)

  datatype Suppression = Suppression(key: Key, error: JsError)

  datatype Context = Context(
    primaryTag: string,
    fallbackTag: string,
    userInitiated: bool,
    primaryPromise: Option<Key>,
    primaryEvent: Option<Suppression>,
    fallbackPromise: Option<Key>,
    fallbackEvent: Option<Key>,
    resultHandled: bool,
    checkingSeen: bool,
    retryLaunched: bool)

  datatype Status =
    | Idle
    | Checking(user: bool)
    | NotAvailable(user: bool)
    | Available(version: string)
    | Failed(message: string, user: bool)

  datatype Cadence = Daily | Retry

  datatype Source = FromEvent | FromPromise | FromFallbackPromise

  /** An update found, waiting for its changelog. */
  datatype Offer = Offer(version: string, fromFallback: bool, user: bool)

  /** The updater's variables. The last three count, for one check, the launches of
      `checkForUpdates`, the failures handled, and the statuses sent other than checking. */
  datatype State = State(
    context: Option<Context>,
    status: Status,
    userInitiatedCheck: bool,
    launchPending: bool,
    pendingFailure: Option<Key>,
    offer: Option<Offer>,
    feedTag: Option<string>,
    nextCheck: Option<Cadence>,
    checks: nat,
    handled: nat,
    outcomes: nat)

  const UNREACHABLE := "Couldn't reach the update server. Try again in a few minutes."

  // ---------------------------------------------------------------------
  // Statuses and failures
  // ---------------------------------------------------------------------

  function SendStatus(s: State, status: Status): State {
    if s.status == status then s
    else s.(status := status, outcomes := if status.Checking? then s.outcomes else s.outcomes + 1)
  }

  function Settled(x: Context): bool {
    x.resultHandled && x.primaryPromise == None && x.primaryEvent == None
    && x.fallbackPromise == None && x.fallbackEvent == None
  }

  /** Stores the context, or clears it once it is settled. */
  function WithContext(s: State, x: Context): State {
    s.(context := if Settled(x) then None else Some(x))
  }

  function HandleFailure(s: State, message: string, user: bool): State {
    var t := s.(handled := s.handled + 1);
    if IsBenign(message) then
      var u := t.(nextCheck := Some(Retry));
      if user then SendStatus(u, Failed(UNREACHABLE, true)) else SendStatus(u, Idle)
    else
      SendStatus(if user then t else t.(nextCheck := Some(Retry)), Failed(message, user))
  }

  function LaunchFallback(s: State, x: Context, key: Key, source: Source, error: JsError): State {
    s.(context := Some(x.(
         retryLaunched := true,
         userInitiated := key.user,
         primaryPromise := if source == FromEvent then Some(key) else None,
         primaryEvent := if source == FromPromise then Some(Suppression(key, error)) else None,
         checkingSeen := false)),
       feedTag := Some(x.fallbackTag),
       userInitiatedCheck := key.user,
       launchPending := !key.user,
       checks := s.checks + 1)
  }

  function SendCheckFailure(s: State, message: string, user: bool, source: Source, error: JsError): State {
    var key := Key(user, message);
    if source == FromPromise && s.context.Some? && s.context.value.primaryPromise == Some(key) then
      WithContext(s, s.context.value.(primaryPromise := None))
    else if source == FromFallbackPromise && s.context.Some? && s.context.value.fallbackPromise == Some(key) then
      WithContext(s, s.context.value.(fallbackPromise := None))
    else if s.context.Some? && !s.context.value.retryLaunched && IsMissingManifest(message) then
      LaunchFallback(s, s.context.value, key, source, error)
    else if s.pendingFailure == Some(key) then s
    else HandleFailure(s, message, user).(pendingFailure := Some(key))
  }

  // ---------------------------------------------------------------------
  // The fallback's own bookkeeping
  // ---------------------------------------------------------------------

  /** The retry runs and its result is still out. */
  predicate AwaitingFallback(s: State) {
    s.context.Some? && s.context.value.retryLaunched && !s.context.value.resultHandled
  }

  /** Marks the fallback's result as handled, if there is one to handle. */
  function Consumed(s: State): State {
    if AwaitingFallback(s) then WithContext(s, s.context.value.(resultHandled := true)) else s
  }

  function InitiatedByUser(s: State): bool {
    if AwaitingFallback(s) then s.context.value.userInitiated else s.userInitiatedCheck
  }

  /** Whether an error event belongs to a failure some promise handler already owns. */
  predicate Suppressed(s: State, error: JsError) {
    s.context.Some? && s.context.value.retryLaunched
    && (OwnedByPrimary(s.context.value, error)
        || s.context.value.fallbackEvent == Some(Key(s.context.value.userInitiated, error.message)))
  }

  predicate OwnedByPrimary(x: Context, error: JsError) {
    && x.primaryEvent.Some?
    && x.primaryEvent.value.key == Key(x.userInitiated, error.message)
    && (x.primaryEvent.value.error == error || !x.checkingSeen)
  }

  function AfterSuppressed(s: State, error: JsError): State
    requires Suppressed(s, error)
  {
    var x := s.context.value;
    WithContext(s, if OwnedByPrimary(x, error) then x.(primaryEvent := None) else x.(fallbackEvent := None))
  }

  // ---------------------------------------------------------------------
  // What the updater library reports
  // ---------------------------------------------------------------------

  function OnChecking(s: State): State {
    var t := s.(launchPending := false);
    var u := if AwaitingFallback(t) then t.(context := Some(t.context.value.(checkingSeen := true))) else t;
    SendStatus(u, Checking(InitiatedByUser(u)))
  }

  function OnError(s: State, error: JsError): State {
    if Suppressed(s, error) then AfterSuppressed(s, error)
    else
      var user := InitiatedByUser(s);
      var t := s.(launchPending := false);
      var u := if AwaitingFallback(t)
        then Consumed(t.(context := Some(t.context.value.(fallbackPromise :=
                                                          Some(Key(t.context.value.userInitiated, error.message))))))
        else t;
      var v := u.(userInitiatedCheck := false);
      if v.status.Checking? then SendCheckFailure(v, error.message, user, FromEvent, error)
      else SendStatus(v, Failed(error.message, user)).(handled := v.handled + 1)
  }

  /** A check that found nothing new, or a version that is not newer. */
  function OnNothingNew(s: State): State {
    var user := InitiatedByUser(s);
    var t := Consumed(s.(launchPending := false)).(userInitiatedCheck := false);
    SendStatus(t.(nextCheck := if AwaitingFallback(s) then Some(Retry) else if user then s.nextCheck else Some(Daily)),
               NotAvailable(user))
  }

  function OnAvailable(s: State, version: string, newer: bool): State {
    if !newer then OnNothingNew(s)
    else
      Consumed(s.(launchPending := false)).(userInitiatedCheck := false, offer :=
                                            Some(Offer(version, AwaitingFallback(s), InitiatedByUser(s))))
  }

  /** The changelog fetch of an offer is over. */
  function OnChangelog(s: State): State {
    match s.offer
    case None => s
    case Some(o) =>
      var t := s.(offer := None);
      if !s.status.Checking? && !s.status.Idle? then t
      else
        SendStatus(t.(nextCheck := if o.fromFallback then Some(Retry) else if o.user then t.nextCheck else Some(Daily)),
                   Available(o.version))
  }

  /** The rejection of the check a menu click or the scheduler launched. */
  function OnPrimaryRejected(s: State, user: bool, error: JsError): State {
    var t := if user then s.(userInitiatedCheck := false) else s.(launchPending := false);
    SendCheckFailure(t, error.message, user, FromPromise, error)
  }

  function OnFallbackRejected(s: State, user: bool, error: JsError): State {
    var t := if user then s.(userInitiatedCheck := false) else s.(launchPending := false);
    var u := if AwaitingFallback(t)
      then Consumed(t.(context := Some(t.context.value.(fallbackEvent :=
                                                        Some(Key(t.context.value.userInitiated, error.message))))))
      else t;
    SendCheckFailure(u, error.message, user, FromFallbackPromise, error)
  }

  /** The `finally` of a handled failure, a microtask later. */
  function OnFailureHandled(s: State): State {
    s.(pendingFailure := None)
  }

  // ---------------------------------------------------------------------
  // One check and everything it can report
  // ---------------------------------------------------------------------

  datatype Outcome =
    | Fails(error: JsError, event: bool, rejection: bool)
    | FindsNothing
    | Finds(version: string, newer: bool)

  /** A check whose pinned prerelease has no manifest: who asked, the primary's error and
      the ways it is reported, and how the fallback ends. */
  datatype Cycle = Cycle(user: bool, primary: JsError, primaryEvent: bool, primaryRejection: bool, fallback: Outcome)

  predicate WellFormed(c: Cycle) {
    && IsMissingManifest(c.primary.message)
    && (c.primaryEvent || c.primaryRejection)
    && (c.fallback.Fails? ==> c.fallback.event || c.fallback.rejection)
  }

  datatype Note =
    | PrimaryChecking | PrimaryEvent | PrimaryRejection
    | FallbackChecking | FallbackEvent | FallbackRejection | FallbackResult
    | FailureHandled | Changelog

  /** The notifications the cycle consists of. */
  function Expected(c: Cycle): set<Note> {
    {PrimaryChecking, FallbackChecking}
    + (if c.primaryEvent then {PrimaryEvent} else {})
    + (if c.primaryRejection then {PrimaryRejection} else {})
    + (match c.fallback
       case Fails(_, event, rejection) =>
         (if event then {FallbackEvent} else {}) + (if rejection then {FallbackRejection} else {})
       case _ => {FallbackResult})
  }

  /** A cycle on its way: where it started, where it is, and what was delivered. */
  datatype World = World(start: State, state: State, delivered: set<Note>)

  /** Each attempt first reports that it is checking, then the rest in any order. */
  predicate Enabled(c: Cycle, w: World, n: Note) {
    match n
    case FailureHandled => true
    case Changelog => w.state.offer.Some?
    case PrimaryChecking => n !in w.delivered
    case PrimaryEvent => n in Expected(c) && n !in w.delivered && PrimaryChecking in w.delivered
    case PrimaryRejection => n in Expected(c) && n !in w.delivered && PrimaryChecking in w.delivered
    case FallbackChecking => n !in w.delivered && w.state.checks == 2
    case _ => n in Expected(c) && n !in w.delivered && FallbackChecking in w.delivered
  }

  function Deliver(c: Cycle, w: World, n: Note): World
    requires Enabled(c, w, n)
  {
    var s := w.state;
    var t := match n
      case FailureHandled => OnFailureHandled(s)
      case Changelog => OnChangelog(s)
      case PrimaryChecking => OnChecking(s)
      case PrimaryEvent => OnError(s, c.primary)
      case PrimaryRejection => OnPrimaryRejected(s, c.user, c.primary)
      case FallbackChecking => OnChecking(s)
      case FallbackEvent => OnError(s, c.fallback.error)
      case FallbackRejection => OnFallbackRejected(s, c.user, c.fallback.error)
      case FallbackResult =>
        match c.fallback
        case Finds(version, newer) => OnAvailable(s, version, newer)
        case _ => OnNothingNew(s);
    w.(state := t, delivered := w.delivered + {n})
  }

  predicate ValidRun(c: Cycle, w: World, ns: seq<Note>)
    decreases |ns|
  {
    ns == [] || (Enabled(c, w, ns[0]) && ValidRun(c, Deliver(c, w, ns[0]), ns[1..]))
  }

  function Run(c: Cycle, w: World, ns: seq<Note>): World
    requires ValidRun(c, w, ns)
    decreases |ns|
  {
    if ns == [] then w else Run(c, Deliver(c, w, ns[0]), ns[1..])
  }

  /** The updater as a menu click or the scheduler has just launched the pinned check. */
  predicate Launched(c: Cycle, s: State) {
    && s.context.Some?
    && s.context.value == Context(s.context.value.primaryTag, s.context.value.fallbackTag, false,
                                  None, None, None, None, false, false, false)
    && s.feedTag == Some(s.context.value.primaryTag)
    && !s.status.Checking?
    && s.userInitiatedCheck == c.user
    && s.pendingFailure == None && s.offer == None
    && s.checks == 1 && s.handled == 0 && s.outcomes == 0
  }

  // ---------------------------------------------------------------------
  // The invariant
  // ---------------------------------------------------------------------

  function PrimaryKey(c: Cycle): Key {
    Key(c.user, c.primary.message)
  }

  function FallbackKey(c: Cycle): Key
    requires c.fallback.Fails?
  {
    Key(c.user, c.fallback.error.message)
  }

  /** The fallback's event was taken for the primary's: they are the same object. */
  predicate Mistaken(c: Cycle, w: World, x: Context) {
    PrimaryEvent !in w.delivered && x.primaryEvent == None
  }

  /** The event that stands for the fallback's has been delivered. */
  predicate FallbackEventSeen(c: Cycle, w: World, x: Context) {
    FallbackEvent in w.delivered && !Mistaken(c, w, x)
  }

  predicate BeforeRetry(c: Cycle, w: World) {
    var s := w.state;
    && s.checks == 1 && s.handled == 0 && s.outcomes == 0
    && s.context.Some?
    && s.context.value == Context(s.context.value.primaryTag, s.context.value.fallbackTag, false,
                                  None, None, None, None, false, false, false)
    && s.userInitiatedCheck == c.user
    && s.pendingFailure == None && s.offer == None
    && (PrimaryChecking in w.delivered <==> s.status.Checking?)
    && (s.status.Checking? ==> s.status == Checking(c.user))
    && s.nextCheck == w.start.nextCheck
    && w.delivered <= {PrimaryChecking, FailureHandled}
  }

  predicate FallbackOpen(c: Cycle, w: World, x: Context) {
    && w.state.handled == 0 && w.state.outcomes == 0 && w.state.status == Checking(c.user)
    && w.state.pendingFailure == None && w.state.offer == None && w.state.nextCheck == w.start.nextCheck
    && x.fallbackPromise == None && x.fallbackEvent == None
    && !FallbackEventSeen(c, w, x) && FallbackRejection !in w.delivered && FallbackResult !in w.delivered
  }

  predicate FallbackClosed(c: Cycle, w: World, x: Context) {
    if c.fallback.Fails? then
      && w.state.handled == 1 && w.state.outcomes == 1 && w.state.offer == None
      && w.state.status == FailureStatus(c.fallback.error.message, c.user)
      && w.state.nextCheck == FailureCadence(c.fallback.error.message, c.user, w.start.nextCheck)
      && (FallbackEventSeen(c, w, x) || FallbackRejection in w.delivered)
      && x.fallbackEvent == (if FallbackEventSeen(c, w, x) then None else Some(FallbackKey(c)))
      && x.fallbackPromise == (if FallbackRejection in w.delivered then None else Some(FallbackKey(c)))
    else
      && OutcomeOfSuccess(c, w)
      && FallbackResult in w.delivered && x.fallbackEvent == None && x.fallbackPromise == None
  }

  predicate OutcomeOfSuccess(c: Cycle, w: World)
    requires !c.fallback.Fails?
  {
    && w.state.handled == 0
    && if w.state.offer.Some? then
         && c.fallback.Finds? && w.state.offer.value == Offer(c.fallback.version, true, c.user)
         && w.state.outcomes == 0 && w.state.status == Checking(c.user)
         && FinalStatus(c) == Available(c.fallback.version)
         && w.state.nextCheck == w.start.nextCheck
       else w.state.outcomes == 1 && w.state.status == FinalStatus(c) && w.state.nextCheck == Some(Retry)
  }

  /** The one pattern in which a failure goes unnoticed: the primary was reported by its
      rejection alone, the fallback by its event alone, and both carry the same error. */
  predicate Lost(c: Cycle) {
    c.fallback.Fails? && !c.primaryEvent && !c.fallback.rejection && c.fallback.error == c.primary
  }

  /** What the user is shown of a handled failure. */
  function FailureStatus(message: string, user: bool): Status {
    if !IsBenign(message) then Failed(message, user)
    else if user then Failed(UNREACHABLE, true)
    else Idle
  }

  /** When to check again after a handled failure: soon, but a failure that a user was shown
      leaves the schedule alone. */
  function FailureCadence(message: string, user: bool, before: Option<Cadence>): Option<Cadence> {
    if user && !IsBenign(message) then before else Some(Retry)
  }

  /** When a cycle has the next check made: soon after every fallback, except when a user was
      shown its failure, or nobody was. */
  function FinalCadence(c: Cycle, before: Option<Cadence>): Option<Cadence> {
    if c.fallback.Fails? then
      if Lost(c) then before else FailureCadence(c.fallback.error.message, c.user, before)
    else Some(Retry)
  }

  /** What a cycle ends with, for whoever asked for it. */
  function FinalStatus(c: Cycle): Status {
    match c.fallback
    case Fails(error, _, _) => if Lost(c) then Checking(c.user) else FailureStatus(error.message, c.user)
    case FindsNothing => NotAvailable(c.user)
    case Finds(version, newer) => if newer then Available(version) else NotAvailable(c.user)
  }

  predicate AfterRetry(c: Cycle, w: World, x: Context) {
    && w.state.checks == 2
    && x.retryLaunched && x.userInitiated == c.user
    && PrimaryChecking in w.delivered
    && (PrimaryEvent in w.delivered || PrimaryRejection in w.delivered)
    && x.primaryPromise == (if PrimaryRejection in w.delivered then None else Some(PrimaryKey(c)))
    && (x.primaryEvent.Some? ==>
         x.primaryEvent.value == Suppression(PrimaryKey(c), c.primary) && PrimaryEvent !in w.delivered)
    && (x.primaryEvent.Some? && c.fallback.Fails? && c.fallback.error == c.primary ==> FallbackEvent !in w.delivered)
    && (Mistaken(c, w, x) ==> c.fallback.Fails? && c.fallback.error == c.primary && FallbackEvent in w.delivered)
    && (FallbackChecking in w.delivered ==> x.checkingSeen)
    && (FallbackChecking !in w.delivered ==>
         !x.resultHandled && FallbackEvent !in w.delivered && FallbackRejection !in w.delivered
             && FallbackResult !in w.delivered)
    && (if x.resultHandled then FallbackClosed(c, w, x) else FallbackOpen(c, w, x))
    && !Settled(x)
  }

  predicate Cleared(c: Cycle, w: World) {
    && w.state.checks == 2
    && {PrimaryChecking, PrimaryEvent, PrimaryRejection, FallbackChecking} <= w.delivered
    && (if c.fallback.Fails?
        then {FallbackEvent, FallbackRejection} <= w.delivered
             && w.state.handled == 1 && w.state.outcomes == 1 && w.state.offer == None
             && w.state.status == FailureStatus(c.fallback.error.message, c.user)
             && w.state.nextCheck == FailureCadence(c.fallback.error.message, c.user, w.start.nextCheck)
        else FallbackResult in w.delivered && OutcomeOfSuccess(c, w))
  }

  /** The feed is that of the primary, and of the fallback once the retry is launched. */
  predicate OnFeed(w: World) {
    && w.start.context.Some?
    && var pinned := w.start.context.value;
       && w.state.feedTag == Some(if w.state.checks == 1 then pinned.primaryTag else pinned.fallbackTag)
       && (w.state.context.Some? ==>
            && w.state.context.value.primaryTag == pinned.primaryTag
            && w.state.context.value.fallbackTag == pinned.fallbackTag)
  }

  predicate Inv(c: Cycle, w: World) {
    && OnFeed(w)
    && w.delivered <= Expected(c) + {FailureHandled, Changelog}
    && if w.state.checks == 1 then BeforeRetry(c, w)
       else match w.state.context
            case None => Cleared(c, w)
            case Some(x) => AfterRetry(c, w, x)
  }

  lemma CheckingBeforeRetry(c: Cycle, w: World)
    requires Inv(c, w) && w.state.checks == 1 && Enabled(c, w, PrimaryChecking)
    ensures Inv(c, Deliver(c, w, PrimaryChecking))
  {
    assert InitiatedByUser(w.state) == c.user;
  }

  lemma EventStartsRetry(c: Cycle, w: World)
    requires WellFormed(c) && Inv(c, w) && w.state.checks == 1 && Enabled(c, w, PrimaryEvent)
    ensures Inv(c, Deliver(c, w, PrimaryEvent))
  {
    var s := w.state;
    var x := s.context.value;
    assert !Suppressed(s, c.primary) && !AwaitingFallback(s);
    var v := s.(launchPending := false, userInitiatedCheck := false);
    assert OnError(s, c.primary) == LaunchFallback(v, x, PrimaryKey(c), FromEvent, c.primary);
  }

  lemma RejectionStartsRetry(c: Cycle, w: World)
    requires WellFormed(c) && Inv(c, w) && w.state.checks == 1 && Enabled(c, w, PrimaryRejection)
    ensures Inv(c, Deliver(c, w, PrimaryRejection))
  {
    var s := w.state;
    var v := if c.user then s.(userInitiatedCheck := false) else s.(launchPending := false);
    assert OnPrimaryRejected(s, c.user, c.primary) == LaunchFallback(v, s.context.value, PrimaryKey(c), FromPromise,
                                                                     c.primary);
  }

  /** The retry runs for whoever asked for the check. */
  lemma RetryIsForTheInitiator(c: Cycle, w: World, n: Note)
    requires WellFormed(c) && Inv(c, w) && w.state.checks == 1 && Enabled(c, w, n)
    requires n == PrimaryEvent || n == PrimaryRejection
    ensures var t := Deliver(c, w, n).state;
      && t.checks == 2 && t.context.Some? && t.context.value.userInitiated == c.user
      && t.userInitiatedCheck == c.user && t.launchPending == !c.user
  {
    if n == PrimaryEvent {
      EventStartsRetry(c, w);
    } else {
      RejectionStartsRetry(c, w);
    }
  }

  predicate Retrying(c: Cycle, w: World) {
    w.state.context.Some? && w.state.checks == 2 && AfterRetry(c, w, w.state.context.value) && WellFormed(c)
    && w.delivered <= Expected(c) + {FailureHandled, Changelog} && OnFeed(w)
  }

  /** What suppressing a notification leaves of the state. */
  predicate SameButContext(s: State, t: State) {
    && t.status == s.status && t.pendingFailure == s.pendingFailure && t.offer == s.offer && t.feedTag == s.feedTag
    && t.nextCheck == s.nextCheck && t.checks == s.checks && t.handled == s.handled && t.outcomes == s.outcomes
  }

  lemma LateRejectionIsSuppressed(c: Cycle, w: World)
    requires Retrying(c, w) && Enabled(c, w, PrimaryRejection)
    ensures Inv(c, Deliver(c, w, PrimaryRejection))
  {
    var s, x := w.state, w.state.context.value;
    var t := if c.user then s.(userInitiatedCheck := false) else s.(launchPending := false);
    assert x.primaryPromise == Some(PrimaryKey(c));
    assert OnPrimaryRejected(s, c.user, c.primary) == WithContext(t, x.(primaryPromise := None));
    PrimaryPromiseIsClosed(c, w, Deliver(c, w, PrimaryRejection).state);
  }

  lemma PrimaryPromiseIsClosed(c: Cycle, w: World, t: State)
    requires Retrying(c, w) && Enabled(c, w, PrimaryRejection) && SameButContext(w.state, t)
    requires t.context == WithContext(w.state, w.state.context.value.(primaryPromise := None)).context
    ensures Inv(c, w.(state := t, delivered := w.delivered + {PrimaryRejection}))
  {
  }

  /** An error event the fallback's own failure is to be made of. */
  lemma EventIsHandled(c: Cycle, w: World, error: JsError)
    requires Retrying(c, w) && c.fallback.Fails? && error.message == c.fallback.error.message
    requires FallbackOpen(c, w, w.state.context.value) && !w.state.context.value.resultHandled
    requires !Suppressed(w.state, error)
    ensures var x, t := w.state.context.value, OnError(w.state, error);
      && t.context == Some(x.(resultHandled := true, fallbackPromise := Some(FallbackKey(c))))
      && t.handled == 1 && t.outcomes == 1 && t.offer == None && t.checks == 2
      && t.status == FailureStatus(c.fallback.error.message, c.user)
      && t.nextCheck == FailureCadence(c.fallback.error.message, c.user, w.start.nextCheck)
      && t.feedTag == w.state.feedTag
  {
    var s, x := w.state, w.state.context.value;
    var y := x.(fallbackPromise := Some(FallbackKey(c)), resultHandled := true);
    FailureFacts(s.(launchPending := false, userInitiatedCheck := false, context := Some(y)), error, c.user, FromEvent);
  }

  lemma LatePrimaryEvent(c: Cycle, w: World)
    requires Retrying(c, w) && Enabled(c, w, PrimaryEvent)
    ensures Inv(c, Deliver(c, w, PrimaryEvent))
  {
    var s, x := w.state, w.state.context.value;
    if x.primaryEvent.Some? {
      PrimaryEventIsSuppressed(c, w);
    } else if x.resultHandled {
      PrimaryEventForTheFallback(c, w);
    } else {
      assert Mistaken(c, w, x);
      EventIsHandled(c, w, c.primary);
      HandledEventIsClosed(c, w, PrimaryEvent, OnError(s, c.primary));
    }
  }

  lemma PrimaryEventIsSuppressed(c: Cycle, w: World)
    requires Retrying(c, w) && Enabled(c, w, PrimaryEvent) && w.state.context.value.primaryEvent.Some?
    ensures Inv(c, Deliver(c, w, PrimaryEvent))
  {
    var s, x := w.state, w.state.context.value;
    assert OwnedByPrimary(x, c.primary);
    assert OnError(s, c.primary) == WithContext(s, x.(primaryEvent := None));
  }

  /** The fallback's event came first and was taken for this one; now this one stands for it. */
  lemma PrimaryEventForTheFallback(c: Cycle, w: World)
    requires Retrying(c, w) && Enabled(c, w, PrimaryEvent)
    requires w.state.context.value.primaryEvent == None && w.state.context.value.resultHandled
    ensures Inv(c, Deliver(c, w, PrimaryEvent))
  {
    var s, x := w.state, w.state.context.value;
    assert Mistaken(c, w, x);
    assert x.fallbackEvent == Some(FallbackKey(c));
    assert OnError(s, c.primary) == WithContext(s, x.(fallbackEvent := None));
  }

  lemma FallbackStartsChecking(c: Cycle, w: World)
    requires Retrying(c, w) && Enabled(c, w, FallbackChecking)
    ensures Inv(c, Deliver(c, w, FallbackChecking))
  {
    var s, x := w.state, w.state.context.value;
    var u := s.(launchPending := false, context := Some(x.(checkingSeen := true)));
    assert OnChecking(s) == SendStatus(u, Checking(c.user));
  }

  lemma DeliverFallbackEvent(c: Cycle, w: World)
    requires Retrying(c, w) && Enabled(c, w, FallbackEvent)
    ensures Inv(c, Deliver(c, w, FallbackEvent))
  {
    var s, x := w.state, w.state.context.value;
    var error := c.fallback.error;
    assert x.checkingSeen;
    if OwnedByPrimary(x, error) {
      EventTakenForThePrimary(c, w);
    } else if x.fallbackEvent.Some? {
      EventIsSuppressed(c, w);
    } else {
      assert !x.resultHandled;
      EventIsHandled(c, w, error);
      HandledEventIsClosed(c, w, FallbackEvent, OnError(s, error));
    }
  }

  lemma EventIsSuppressed(c: Cycle, w: World)
    requires Retrying(c, w) && Enabled(c, w, FallbackEvent)
    requires !OwnedByPrimary(w.state.context.value, c.fallback.error) && w.state.context.value.fallbackEvent.Some?
    ensures Inv(c, Deliver(c, w, FallbackEvent))
  {
    var s, x := w.state, w.state.context.value;
    assert OnError(s, c.fallback.error) == WithContext(s, x.(fallbackEvent := None));
  }

  /** The fallback's failure has just been handled on its event. */
  lemma HandledEventIsClosed(c: Cycle, w: World, n: Note, t: State)
    requires Retrying(c, w) && c.fallback.Fails? && Enabled(c, w, n) && (n == FallbackEvent || n == PrimaryEvent)
    requires n == PrimaryEvent ==> Mistaken(c, w, w.state.context.value)
    requires n == FallbackEvent ==> !OwnedByPrimary(w.state.context.value, c.fallback.error)
    requires FallbackChecking in w.delivered
    requires FallbackOpen(c, w, w.state.context.value) && !w.state.context.value.resultHandled
    requires t.context == Some(w.state.context.value.(resultHandled := true, fallbackPromise := Some(FallbackKey(c))))
    requires t.handled == 1 && t.outcomes == 1 && t.offer == None && t.checks == 2
    requires t.status == FailureStatus(c.fallback.error.message, c.user)
    requires t.nextCheck == FailureCadence(c.fallback.error.message, c.user, w.start.nextCheck)
    requires t.feedTag == w.state.feedTag
    ensures Inv(c, w.(state := t, delivered := w.delivered + {n}))
  {
  }

  lemma EventTakenForThePrimary(c: Cycle, w: World)
    requires Retrying(c, w) && Enabled(c, w, FallbackEvent)
    requires OwnedByPrimary(w.state.context.value, c.fallback.error) && w.state.context.value.checkingSeen
    ensures Inv(c, Deliver(c, w, FallbackEvent))
  {
    var s, x := w.state, w.state.context.value;
    assert c.fallback.error == c.primary;
    assert OnError(s, c.primary) == WithContext(s, x.(primaryEvent := None));
  }

  lemma DeliverFallbackRejection(c: Cycle, w: World)
    requires Retrying(c, w) && Enabled(c, w, FallbackRejection)
    ensures Inv(c, Deliver(c, w, FallbackRejection))
  {
    if w.state.context.value.resultHandled {
      FallbackRejectionIsSuppressed(c, w);
    } else {
      RejectionIsHandled(c, w);
      HandledRejectionIsClosed(c, w, Deliver(c, w, FallbackRejection).state);
    }
  }

  lemma FallbackRejectionIsSuppressed(c: Cycle, w: World)
    requires Retrying(c, w) && Enabled(c, w, FallbackRejection) && w.state.context.value.resultHandled
    ensures Inv(c, Deliver(c, w, FallbackRejection))
  {
    var s, x := w.state, w.state.context.value;
    var t := if c.user then s.(userInitiatedCheck := false) else s.(launchPending := false);
    assert x.fallbackPromise == Some(FallbackKey(c));
    assert OnFallbackRejected(s, c.user, c.fallback.error) == WithContext(t, x.(fallbackPromise := None));
    FallbackPromiseIsClosed(c, w, Deliver(c, w, FallbackRejection).state);
  }

  lemma FallbackPromiseIsClosed(c: Cycle, w: World, t: State)
    requires Retrying(c, w) && Enabled(c, w, FallbackRejection) && w.state.context.value.resultHandled
    requires SameButContext(w.state, t)
    requires t.context == WithContext(w.state, w.state.context.value.(fallbackPromise := None)).context
    ensures Inv(c, w.(state := t, delivered := w.delivered + {FallbackRejection}))
  {
  }

  /** The fallback's failure has just been handled on its rejection. */
  lemma HandledRejectionIsClosed(c: Cycle, w: World, t: State)
    requires Retrying(c, w) && c.fallback.Fails? && Enabled(c, w, FallbackRejection)
    requires FallbackOpen(c, w, w.state.context.value) && !w.state.context.value.resultHandled
    requires t.context == Some(w.state.context.value.(resultHandled := true, fallbackEvent := Some(FallbackKey(c))))
    requires t.handled == 1 && t.outcomes == 1 && t.offer == None && t.checks == 2
    requires t.status == FailureStatus(c.fallback.error.message, c.user)
    requires t.nextCheck == FailureCadence(c.fallback.error.message, c.user, w.start.nextCheck)
    requires t.feedTag == w.state.feedTag
    ensures Inv(c, w.(state := t, delivered := w.delivered + {FallbackRejection}))
  {
  }

  lemma RejectionIsHandled(c: Cycle, w: World)
    requires Retrying(c, w) && c.fallback.Fails?
    requires FallbackOpen(c, w, w.state.context.value) && !w.state.context.value.resultHandled
    ensures var x, t := w.state.context.value, OnFallbackRejected(w.state, c.user, c.fallback.error);
      && t.context == Some(x.(resultHandled := true, fallbackEvent := Some(FallbackKey(c))))
      && t.handled == 1 && t.outcomes == 1 && t.offer == None && t.checks == 2
      && t.status == FailureStatus(c.fallback.error.message, c.user)
      && t.nextCheck == FailureCadence(c.fallback.error.message, c.user, w.start.nextCheck)
      && t.feedTag == w.state.feedTag
  {
    var s, x, error := w.state, w.state.context.value, c.fallback.error;
    var y := x.(fallbackEvent := Some(FallbackKey(c)), resultHandled := true);
    var t := if c.user then s.(userInitiatedCheck := false) else s.(launchPending := false);
    FailureFacts(t.(context := Some(y)), error, c.user, FromFallbackPromise);
  }

  /** A failure that no key suppresses and that cannot start the retry is handled. */
  lemma FailureFacts(s: State, error: JsError, user: bool, source: Source)
    requires s.status.Checking? && s.pendingFailure == None
    requires s.context.Some? && s.context.value.retryLaunched
    requires source == FromFallbackPromise ==> s.context.value.fallbackPromise == None
    requires source != FromPromise
    ensures var t := SendCheckFailure(s, error.message, user, source, error);
      && t.context == s.context && t.handled == s.handled + 1 && t.outcomes == s.outcomes + 1
      && t.offer == s.offer && t.checks == s.checks
      && t.status == FailureStatus(error.message, user)
      && t.nextCheck == FailureCadence(error.message, user, s.nextCheck) && t.feedTag == s.feedTag
  {
  }

  lemma DeliverFallbackResult(c: Cycle, w: World)
    requires Retrying(c, w) && Enabled(c, w, FallbackResult)
    ensures Inv(c, Deliver(c, w, FallbackResult))
  {
    var s, x := w.state, w.state.context.value;
    assert !x.resultHandled && AwaitingFallback(s);
    assert !Mistaken(c, w, x);
    ResultIsShown(c, w);
    SuccessIsClosed(c, w, Deliver(c, w, FallbackResult).state);
  }

  lemma ResultIsShown(c: Cycle, w: World)
    requires Retrying(c, w) && Enabled(c, w, FallbackResult) && AwaitingFallback(w.state)
    ensures var s, t := w.state, Deliver(c, w, FallbackResult).state;
      && t.context == WithContext(s, s.context.value.(resultHandled := true)).context
      && t.checks == 2 && OutcomeOfSuccess(c, w.(state := t)) && t.feedTag == s.feedTag
  {
    if c.fallback.Finds? && c.fallback.newer {
      FoundIsOffered(c, w);
    } else {
      NothingNewIsShown(c, w);
    }
  }

  lemma FoundIsOffered(c: Cycle, w: World)
    requires Retrying(c, w) && AwaitingFallback(w.state) && c.fallback.Finds? && c.fallback.newer
    requires FallbackOpen(c, w, w.state.context.value)
    ensures var s, t := w.state, OnAvailable(w.state, c.fallback.version, true);
      && t.context == WithContext(s, s.context.value.(resultHandled := true)).context
      && t.checks == 2 && OutcomeOfSuccess(c, w.(state := t)) && t.feedTag == s.feedTag
  {
  }

  lemma NothingNewIsShown(c: Cycle, w: World)
    requires Retrying(c, w) && AwaitingFallback(w.state) && FallbackOpen(c, w, w.state.context.value)
    requires c.fallback.FindsNothing? || (c.fallback.Finds? && !c.fallback.newer)
    ensures var s, t := w.state, OnNothingNew(w.state);
      && t.context == WithContext(s, s.context.value.(resultHandled := true)).context
      && t.checks == 2 && OutcomeOfSuccess(c, w.(state := t)) && t.feedTag == s.feedTag
  {
  }

  lemma SuccessIsClosed(c: Cycle, w: World, t: State)
    requires Retrying(c, w) && !c.fallback.Fails? && !w.state.context.value.resultHandled
    requires FallbackChecking in w.delivered && FallbackResult in Expected(c)
    requires t.context == WithContext(w.state, w.state.context.value.(resultHandled := true)).context
    requires t.checks == 2 && OutcomeOfSuccess(c, w.(state := t)) && t.feedTag == w.state.feedTag
    ensures Inv(c, w.(state := t, delivered := w.delivered + {FallbackResult}))
  {
  }

  lemma DeliverFailureHandled(c: Cycle, w: World)
    requires Inv(c, w)
    ensures Inv(c, Deliver(c, w, FailureHandled))
  {
  }

  lemma DeliverChangelog(c: Cycle, w: World)
    requires Inv(c, w) && w.state.offer.Some?
    ensures Inv(c, Deliver(c, w, Changelog))
  {
  }

  lemma DeliverKeepsInv(c: Cycle, w: World, n: Note)
    requires WellFormed(c) && Inv(c, w) && Enabled(c, w, n)
    ensures Inv(c, Deliver(c, w, n))
  {
    match n
    case FailureHandled => DeliverFailureHandled(c, w);
    case Changelog => DeliverChangelog(c, w);
    case PrimaryChecking => CheckingBeforeRetry(c, w);
    case PrimaryEvent => if w.state.checks == 1 { EventStartsRetry(c, w); } else { LatePrimaryEvent(c, w); }
    case PrimaryRejection => if w.state.checks == 1 { RejectionStartsRetry(c, w); }
        else { LateRejectionIsSuppressed(c, w); }
    case FallbackChecking => FallbackStartsChecking(c, w);
    case FallbackEvent => DeliverFallbackEvent(c, w);
    case FallbackRejection => DeliverFallbackRejection(c, w);
    case FallbackResult => DeliverFallbackResult(c, w);
  }

  lemma {:induction false} RunKeepsInv(c: Cycle, w: World, ns: seq<Note>)
    requires WellFormed(c) && Inv(c, w) && ValidRun(c, w, ns)
    ensures Inv(c, Run(c, w, ns))
    decreases |ns|
  {
    if ns != [] {
      DeliverKeepsInv(c, w, ns[0]);
      RunKeepsInv(c, Deliver(c, w, ns[0]), ns[1..]);
    }
  }

  /** Both attempts are reported in full. */
  predicate FullyReported(c: Cycle) {
    c.primaryEvent && c.primaryRejection && (c.fallback.Fails? ==> c.fallback.event && c.fallback.rejection)
  }

  /** In every order of delivery there is at most one retry, at most one failure is
      handled and at most one outcome shown. */
  lemma AtMostOneOutcome(c: Cycle, s: State, ns: seq<Note>)
    requires WellFormed(c) && Launched(c, s) && ValidRun(c, World(s, s, {}), ns)
    ensures var t := Run(c, World(s, s, {}), ns).state;
      t.checks <= 2 && t.handled <= 1 && t.outcomes <= 1
  {
    RunKeepsInv(c, World(s, s, {}), ns);
  }

  /** The fallback falls back: in every state of a cycle the first check goes to the newest
      of the tags found, and the retry to the next one. */
  lemma RetryChecksTheNextTag(c: Cycle, s: State, tags: seq<string>, ns: seq<Note>)
    requires WellFormed(c) && |tags| >= 2
    requires !s.status.Checking? && s.pendingFailure == None && s.offer == None && s.userInitiatedCheck == c.user
    requires var launched := PinnedAndLaunched(s, tags, true); ValidRun(c, World(launched, launched, {}), ns)
    ensures var launched := PinnedAndLaunched(s, tags, true);
      var t := Run(c, World(launched, launched, {}), ns).state;
      && (t.checks == 1 ==> t.feedTag == Some(tags[0]))
      && (t.checks == 2 ==> t.feedTag == Some(tags[1]))
      && 1 <= t.checks <= 2
  {
    var launched := PinnedAndLaunched(s, tags, true);
    RunKeepsInv(c, World(launched, launched, {}), ns);
    StartIsKept(c, World(launched, launched, {}), ns);
  }

  lemma {:induction false} StartIsKept(c: Cycle, w: World, ns: seq<Note>)
    requires ValidRun(c, w, ns)
    ensures Run(c, w, ns).start == w.start
    decreases |ns|
  {
    if ns != [] {
      StartIsKept(c, Deliver(c, w, ns[0]), ns[1..]);
    }
  }

  /** Once everything is delivered, in whatever order: exactly one failure was handled if
      the fallback failed, unless the cycle is the lost pattern; none if it succeeded;
      two checks were launched; whoever asked is shown how it ended, once; and the
      context is gone exactly if every pair was complete. */
  lemma CompletedCycle(c: Cycle, s: State, ns: seq<Note>)
    requires WellFormed(c) && Launched(c, s) && ValidRun(c, World(s, s, {}), ns)
    requires Expected(c) <= Run(c, World(s, s, {}), ns).delivered
    ensures var t := Run(c, World(s, s, {}), ns).state;
      && t.checks == 2
      && t.handled == (if c.fallback.Fails? && !Lost(c) then 1 else 0)
      && (t.offer == None ==> t.outcomes == (if Lost(c) then 0 else 1) && t.status == FinalStatus(c))
      && (t.offer == None ==> t.nextCheck == FinalCadence(c, s.nextCheck))
      && (t.context == None <==> FullyReported(c))
  {
    var w := Run(c, World(s, s, {}), ns);
    RunKeepsInv(c, World(s, s, {}), ns);
    StartIsKept(c, World(s, s, {}), ns);
    AllReported(c, w);
    ContextOfCompleted(c, w);
    if c.fallback.Fails? {
      CompletedFailure(c, w);
    } else {
      CompletedSuccess(c, w);
    }
  }

  /** Everything the cycle consists of has been delivered. */
  predicate Reported(c: Cycle, w: World) {
    && PrimaryChecking in w.delivered && FallbackChecking in w.delivered
    && (c.primaryEvent <==> PrimaryEvent in w.delivered)
    && (c.primaryRejection <==> PrimaryRejection in w.delivered)
    && (c.fallback.Fails? && c.fallback.event <==> FallbackEvent in w.delivered)
    && (c.fallback.Fails? && c.fallback.rejection <==> FallbackRejection in w.delivered)
    && (!c.fallback.Fails? <==> FallbackResult in w.delivered)
  }

  lemma AllReported(c: Cycle, w: World)
    requires Inv(c, w) && Expected(c) <= w.delivered
    ensures Reported(c, w)
  {
    ExpectedNotes(c);
    assert forall n | n in Expected(c) :: n in w.delivered;
  }

  lemma ExpectedNotes(c: Cycle)
    ensures PrimaryChecking in Expected(c) && FallbackChecking in Expected(c)
    ensures c.primaryEvent <==> PrimaryEvent in Expected(c)
    ensures c.primaryRejection <==> PrimaryRejection in Expected(c)
    ensures c.fallback.Fails? && c.fallback.event <==> FallbackEvent in Expected(c)
    ensures c.fallback.Fails? && c.fallback.rejection <==> FallbackRejection in Expected(c)
    ensures !c.fallback.Fails? <==> FallbackResult in Expected(c)
  {
  }

  lemma ContextOfCompleted(c: Cycle, w: World)
    requires WellFormed(c) && Inv(c, w) && Reported(c, w)
    ensures w.state.checks == 2 && (w.state.context == None <==> FullyReported(c))
  {
  }

  lemma CompletedFailure(c: Cycle, w: World)
    requires WellFormed(c) && Inv(c, w) && Reported(c, w) && c.fallback.Fails?
    ensures var t := w.state;
      && t.handled == (if Lost(c) then 0 else 1) && t.outcomes == t.handled && t.status == FinalStatus(c)
      && t.nextCheck == FinalCadence(c, w.start.nextCheck)
  {
  }

  lemma CompletedSuccess(c: Cycle, w: World)
    requires WellFormed(c) && Inv(c, w) && Reported(c, w) && !c.fallback.Fails?
    ensures w.state.handled == 0
    ensures w.state.offer == None ==>
      && w.state.outcomes == 1 && w.state.status == FinalStatus(c)
      && w.state.nextCheck == FinalCadence(c, w.start.nextCheck)
  {
  }

  /** The lost pattern can happen, to every such cycle: its four notifications in their
      natural order are a whole run, after which nothing was handled or shown and the
      status is still checking. */
  lemma LostFailureGoesUnnoticed(c: Cycle, s: State)
    requires WellFormed(c) && Lost(c) && Launched(c, s)
    ensures var ns := [PrimaryChecking, PrimaryRejection, FallbackChecking, FallbackEvent];
      && ValidRun(c, World(s, s, {}), ns)
      && var w := Run(c, World(s, s, {}), ns);
         && Expected(c) <= w.delivered
         && w.state.handled == 0 && w.state.outcomes == 0 && w.state.status == Checking(c.user)
  {
    var ns := [PrimaryChecking, PrimaryRejection, FallbackChecking, FallbackEvent];
    var w := LostRun(c, s);
    RunKeepsInv(c, World(s, s, {}), ns);
    AllReported(c, w);
    CompletedFailure(c, w);
  }

  lemma LostRun(c: Cycle, s: State) returns (w: World)
    requires WellFormed(c) && Lost(c) && Launched(c, s)
    ensures var ns := [PrimaryChecking, PrimaryRejection, FallbackChecking, FallbackEvent];
      ValidRun(c, World(s, s, {}), ns) && Run(c, World(s, s, {}), ns) == w
    ensures Expected(c) <= w.delivered
  {
    var w0 := World(s, s, {});
    var w1 := Deliver(c, w0, PrimaryChecking);
    CheckingBeforeRetry(c, w0);
    var w2 := Deliver(c, w1, PrimaryRejection);
    RejectionStartsRetry(c, w1);
    var w3 := Deliver(c, w2, FallbackChecking);
    FallbackStartsChecking(c, w2);
    w := Deliver(c, w3, FallbackEvent);
    FourNotes(c, w0, PrimaryChecking, PrimaryRejection, FallbackChecking, FallbackEvent);
  }

  lemma FourNotes(c: Cycle, w: World, n1: Note, n2: Note, n3: Note, n4: Note)
    requires Enabled(c, w, n1)
    requires var w1 := Deliver(c, w, n1);
      && Enabled(c, w1, n2)
      && var w2 := Deliver(c, w1, n2);
         && Enabled(c, w2, n3)
         && Enabled(c, Deliver(c, w2, n3), n4)
    ensures ValidRun(c, w, [n1, n2, n3, n4])
    ensures Run(c, w, [n1, n2, n3, n4]) == Deliver(c, Deliver(c, Deliver(c, Deliver(c, w, n1), n2), n3), n4)
  {
    var w1 := Deliver(c, w, n1);
    var w2 := Deliver(c, w1, n2);
    TwoNotes(c, w2, n3, n4);
    assert [n1, n2, n3, n4][1..] == [n2, n3, n4] && [n2, n3, n4][1..] == [n3, n4];
    assert ValidRun(c, w1, [n2, n3, n4]) && Run(c, w1, [n2, n3, n4]) == Run(c, w2, [n3, n4]);
  }

  lemma TwoNotes(c: Cycle, w: World, n1: Note, n2: Note)
    requires Enabled(c, w, n1) && Enabled(c, Deliver(c, w, n1), n2)
    ensures ValidRun(c, w, [n1, n2]) && Run(c, w, [n1, n2]) == Deliver(c, Deliver(c, w, n1), n2)
  {
    assert [n1, n2][1..] == [n2];
    OneNote(c, Deliver(c, w, n1), n2);
  }

  lemma OneNote(c: Cycle, w: World, n: Note)
    requires Enabled(c, w, n)
    ensures ValidRun(c, w, [n]) && Run(c, w, [n]) == Deliver(c, w, n)
  {
    var none: seq<Note> := [n][1..];
    assert none == [] && ValidRun(c, Deliver(c, w, n), none) && Run(c, Deliver(c, w, n), none) == Deliver(c, w, n);
  }

  // ---------------------------------------------------------------------
  // Launching a check
  // ---------------------------------------------------------------------

  /** `pinDefaultReleaseFeed` with the tags it found, then `checkForUpdates`. */
  function PinnedAndLaunched(s: State, tags: seq<string>, includePrerelease: bool): State {
    s.(context :=
         if includePrerelease && |tags| >= 2
         then Some(Context(tags[0], tags[1], false, None, None, None, None, false, false, false))
         else None,
       feedTag := if tags == [] then None else Some(tags[0]),
       checks := 1, handled := 0, outcomes := 0)
  }

  /** A check of a quiet updater is launched with a pair pinned, newest tag first, exactly
      if prereleases are included and two were found. */
  lemma PairIsLaunched(c: Cycle, s: State, tags: seq<string>, includePrerelease: bool)
    requires !s.status.Checking? && s.pendingFailure == None && s.offer == None && s.userInitiatedCheck == c.user
    ensures Launched(c, PinnedAndLaunched(s, tags, includePrerelease)) <==> includePrerelease && |tags| >= 2
    ensures includePrerelease && |tags| >= 2 ==>
      var x := PinnedAndLaunched(s, tags, includePrerelease).context.value;
      x.primaryTag == tags[0] && x.fallbackTag == tags[1]
  {
  }

  // ---------------------------------------------------------------------
  // The updater's own form: module variables updated by every function
  // ---------------------------------------------------------------------

  class Updater {
    var context: Option<Context>
    var status: Status
    var userInitiatedCheck: bool
    var launchPending: bool
    var pendingFailure: Option<Key>
    var offer: Option<Offer>
    var feedTag: Option<string>
    var nextCheck: Option<Cadence>
    var checks: nat
    var handled: nat
    var outcomes: nat

    ghost function View(): State
      reads this
    {
      State(context, status, userInitiatedCheck, launchPending, pendingFailure, offer, feedTag, nextCheck, checks,
            handled, outcomes)
    }

    constructor ()
      ensures View() == State(None, Idle, false, false, None, None, None, None, 0, 0, 0)
    {
      context, status, userInitiatedCheck, launchPending, pendingFailure := None, Idle, false, false, None;
      offer, feedTag, nextCheck, checks, handled, outcomes := None, None, None, 0, 0, 0;
    }

    method Launch(tags: seq<string>, includePrerelease: bool)
      modifies this
      ensures View() == PinnedAndLaunched(old(View()), tags, includePrerelease)
    {
      context := None;
      feedTag := None;
      if tags != [] {
        feedTag := Some(tags[0]);
        if includePrerelease && |tags| >= 2 {
          context := Some(Context(tags[0], tags[1], false, None, None, None, None, false, false, false));
        }
      }
      checks, handled, outcomes := 1, 0, 0;
    }

    method Send(next: Status)
      modifies this`status, this`outcomes
      ensures View() == SendStatus(old(View()), next)
    {
      if status == next {
        return;
      }
      status := next;
      if !next.Checking? {
        outcomes := outcomes + 1;
      }
    }

    method ClearContextIfSettled()
      modifies this`context
      ensures context == if old(context).Some? && Settled(old(context).value) then None else old(context)
    {
      if context.Some? && context.value.resultHandled
         && context.value.primaryPromise == None && context.value.primaryEvent == None
         && context.value.fallbackPromise == None && context.value.fallbackEvent == None {
        context := None;
      }
    }

    method CheckFailed(message: string, user: bool, source: Source, error: JsError)
      modifies this
      ensures View() == SendCheckFailure(old(View()), message, user, source, error)
    {
      var key := Key(user, message);
      if source == FromPromise && context.Some? && context.value.primaryPromise == Some(key) {
        context := Some(context.value.(primaryPromise := None));
        ClearContextIfSettled();
        return;
      }
      if source == FromFallbackPromise && context.Some? && context.value.fallbackPromise == Some(key) {
        context := Some(context.value.(fallbackPromise := None));
        ClearContextIfSettled();
        return;
      }
      var retried := RetryAfterMissingManifest(message, key, source, error);
      if retried || pendingFailure == Some(key) {
        return;
      }
      Handle(message, user);
      pendingFailure := Some(key);
    }

    method RetryAfterMissingManifest(message: string, key: Key, source: Source, error: JsError) returns (retried: bool)
      modifies this
      ensures retried <==> old(context).Some? && !old(context).value.retryLaunched && IsMissingManifest(message)
      ensures View() == if retried then LaunchFallback(old(View()), old(context).value, key, source, error)
          else old(View())
    {
      if context == None || context.value.retryLaunched || !IsMissingManifest(message) {
        return false;
      }
      var x := context.value.(retryLaunched := true, userInitiated := key.user, checkingSeen := false);
      x := x.(primaryPromise := if source == FromEvent then Some(key) else None);
      x := x.(primaryEvent := if source == FromPromise then Some(Suppression(key, error)) else None);
      context := Some(x);
      feedTag := Some(x.fallbackTag);
      userInitiatedCheck := key.user;
      launchPending := !key.user;
      checks := checks + 1;
      return true;
    }

    method Handle(message: string, user: bool)
      modifies this
      ensures View() == HandleFailure(old(View()), message, user)
    {
      handled := handled + 1;
      if IsBenign(message) {
        nextCheck := Some(Retry);
        if user {
          Send(Failed(UNREACHABLE, true));
        } else {
          Send(Idle);
        }
        return;
      }
      if !user {
        nextCheck := Some(Retry);
      }
      Send(Failed(message, user));
    }

    method Consume() returns (fallbackUser: Option<bool>)
      modifies this`context
      ensures View() == Consumed(old(View()))
      ensures fallbackUser == if AwaitingFallback(old(View())) then Some(old(context).value.userInitiated) else None
    {
      if context == None || !context.value.retryLaunched || context.value.resultHandled {
        return None;
      }
      fallbackUser := Some(context.value.userInitiated);
      context := Some(context.value.(resultHandled := true));
      ClearContextIfSettled();
    }

    method CheckingForUpdate()
      modifies this
      ensures View() == OnChecking(old(View()))
    {
      launchPending := false;
      var user := userInitiatedCheck;
      if context.Some? && context.value.retryLaunched && !context.value.resultHandled {
        context := Some(context.value.(checkingSeen := true));
        user := context.value.userInitiated;
      }
      Send(Checking(user));
    }

    method UpdateNotAvailable()
      modifies this
      ensures View() == OnNothingNew(old(View()))
    {
      launchPending := false;
      var fallback := Consume();
      var user := if fallback.Some? then fallback.value else userInitiatedCheck;
      userInitiatedCheck := false;
      if fallback.Some? {
        nextCheck := Some(Retry);
      } else if !user {
        nextCheck := Some(Daily);
      }
      Send(NotAvailable(user));
    }

    method UpdateAvailable(version: string, newer: bool)
      modifies this
      ensures View() == OnAvailable(old(View()), version, newer)
    {
      if !newer {
        UpdateNotAvailable();
        return;
      }
      launchPending := false;
      var fallback := Consume();
      var user := if fallback.Some? then fallback.value else userInitiatedCheck;
      userInitiatedCheck := false;
      offer := Some(Offer(version, fallback.Some?, user));
    }

    method ChangelogFetched()
      modifies this
      ensures View() == OnChangelog(old(View()))
    {
      if offer == None {
        return;
      }
      var o := offer.value;
      offer := None;
      if !status.Checking? && !status.Idle? {
        return;
      }
      if o.fromFallback {
        nextCheck := Some(Retry);
      } else if !o.user {
        nextCheck := Some(Daily);
      }
      Send(Available(o.version));
    }

    method SuppressEvent(error: JsError) returns (suppressed: bool)
      modifies this`context
      ensures suppressed == Suppressed(old(View()), error)
      ensures View() == if suppressed then AfterSuppressed(old(View()), error) else old(View())
    {
      if context == None || !context.value.retryLaunched {
        return false;
      }
      var x := context.value;
      var key := Key(x.userInitiated, error.message);
      if x.primaryEvent.Some? && x.primaryEvent.value.key == key
         && (x.primaryEvent.value.error == error || !x.checkingSeen) {
        context := Some(x.(primaryEvent := None));
        ClearContextIfSettled();
        return true;
      }
      if x.fallbackEvent == Some(key) {
        context := Some(x.(fallbackEvent := None));
        ClearContextIfSettled();
        return true;
      }
      return false;
    }

    method ErrorEvent(error: JsError)
      modifies this
      ensures View() == OnError(old(View()), error)
    {
      var suppressed := SuppressEvent(error);
      if suppressed {
        return;
      }
      launchPending := false;
      if context.Some? && context.value.retryLaunched && !context.value.resultHandled {
        context := Some(context.value.(fallbackPromise := Some(Key(context.value.userInitiated, error.message))));
      }
      var fallback := Consume();
      var user := if fallback.Some? then fallback.value else userInitiatedCheck;
      userInitiatedCheck := false;
      if status.Checking? {
        CheckFailed(error.message, user, FromEvent, error);
        return;
      }
      Send(Failed(error.message, user));
      handled := handled + 1;
    }

    method CheckRejected(user: bool, error: JsError)
      modifies this
      ensures View() == OnPrimaryRejected(old(View()), user, error)
    {
      if user {
        userInitiatedCheck := false;
      } else {
        launchPending := false;
      }
      CheckFailed(error.message, user, FromPromise, error);
    }

    method FallbackRejected(user: bool, error: JsError)
      modifies this
      ensures View() == OnFallbackRejected(old(View()), user, error)
    {
      if user {
        userInitiatedCheck := false;
      } else {
        launchPending := false;
      }
      if context.Some? && context.value.retryLaunched && !context.value.resultHandled {
        context := Some(context.value.(fallbackEvent := Some(Key(context.value.userInitiated, error.message))));
      }
      var ignored := Consume();
      CheckFailed(error.message, user, FromFallbackPromise, error);
    }
  }
}
