/**
The history of one file stream: what interferes with it while its pump is suspended in a
read, the frames its pump sends in between, and what dispatcher and registry are after
both. The client may be swapped or lost, the stream cancelled, other streams may send,
and everything may be disposed.
*/
module StreamHistory {
  import opened Options
  import opened Base64
  import D = RelayDispatcher
  import R = StreamRegistry

  const STREAM_CHUNK_SIZE: nat := 256 * 1024

  /** What may happen while the pump is suspended. */
  datatype Interference =
    | Dispatching(event: D.Event)
    | CancelStream(id: nat)
    | OpenOther(handle: nat)
    | ExitOther(id: nat)
    | DisposeStreams

  /** An exception, with the code it may carry. */
  datatype Thrown = Thrown(code: Option<string>, message: string)

  /** How a read ends: some bytes, at most as many as were asked for, or an exception. */
  datatype Read = Bytes(count: nat) | Failed(error: Thrown)

  /** One read: what happens during it, how it ends, and what the encoder says if it
      rejects the chunk. */
  datatype Await = Await(meanwhile: seq<Interference>, read: Read, rejection: Thrown)

  /** A frame about the stream. */
  predicate About(body: D.Body, id: nat) {
    match body
    case StreamChunk(i, _, _) => i == id
    case StreamEnd(i) => i == id
    case StreamError(i, _, _) => i == id
    case _ => false
  }

  /** Nobody but its pump sends a stream's frames or takes its exit. */
  predicate Foreign(e: Interference, id: nat) {
    match e
    case Dispatching(Push(body)) => !About(body, id)
    case ExitOther(other) => other != id
    case _ => true
  }

  /** After these the stream must stay silent: it is cancelled, or its client is gone. */
  predicate Ends(e: Interference, id: nat) {
    match e
    case Dispatching(Swap) => true
    case Dispatching(Invalidate) => true
    case CancelStream(i) => i == id
    case DisposeStreams => true
    case _ => false
  }

  // ---------------------------------------------------------------------
  // The history of a stream
  // ---------------------------------------------------------------------

  /** What interfered, and the frames the pump itself sent. */
  datatype Mark = Meanwhile(e: Interference) | Frame(entry: D.Entry)

  datatype World = World(d: D.State, r: R.State)

  type Decoder = string -> Option<seq<Byte>>

  /** A stream as its pump is started: for a request received from `client` in
      `generation`. `fits` says which frames can be encoded, `encode` and
      `decode` how bytes are written as text and read back. */
  datatype Stream = Stream(
    fits: D.Encoder,
    encode: seq<Byte> -> string,
    decode: Decoder,
    start: World,
    id: nat,
    client: nat,
    generation: nat,
    totalSize: nat,
    file: seq<Byte>,
    awaits: nat -> Await)

  function Disturbed(enc: D.Encoder, w: World, e: Interference): World {
    match e
    case Dispatching(event) => if D.Enabled(w.d, event) then w.(d := D.Step(enc, w.d, event)) else w
    case CancelStream(id) => w.(r := R.Aborted(w.r, id))
    case OpenOther(handle) =>
      w.(r := if R.Full(w.r) then w.r.(closes := w.r.closes + [handle]) else R.Registered(w.r, handle))
    case ExitOther(id) => w.(r := R.Released(w.r, id))
    case DisposeStreams => w.(r := R.Disposed(w.r))
  }

  function Played(enc: D.Encoder, w: World, m: Mark): World {
    match m
    case Meanwhile(e) => Disturbed(enc, w, e)
    case Frame(entry) => if entry.Sent? then w.(d := D.Send(enc, w.d, entry.body, None)) else w
  }

  /** The dispatcher and the registry after a history. */
  function Now(x: Stream, marks: seq<Mark>): World {
    if marks == [] then x.start else Played(x.fits, Now(x, marks[..|marks| - 1]), marks[|marks| - 1])
  }

  function Meanwhiles(es: seq<Interference>): seq<Mark> {
    if es == [] then [] else Meanwhiles(es[..|es| - 1]) + [Meanwhile(es[|es| - 1])]
  }

  /** The history of `n` reads: everything that happens during each, and after it the
      frame of its chunk, as long as there are chunks. */
  function Script(x: Stream, n: nat, chunks: seq<D.Entry>): seq<Mark> {
    if n == 0 then []
    else
      Script(x, n - 1, chunks) + Meanwhiles(x.awaits(n - 1).meanwhile)
        + if n - 1 < |chunks| then [Frame(chunks[n - 1])] else []
  }

  function LastMark(last: Option<D.Entry>): seq<Mark> {
    match last
    case Some(entry) => [Frame(entry)]
    case None => []
  }

  /** The frames about a stream in a dispatcher's log. */
  function Frames(log: seq<D.Entry>, id: nat): seq<D.Entry> {
    if log == [] then []
    else
      var last := log[|log| - 1];
      Frames(log[..|log| - 1], id) + (if last.Sent? && About(last.body, id) then [last] else [])
  }

  lemma FramesAppend(log: seq<D.Entry>, e: D.Entry, id: nat)
    ensures Frames(log + [e], id) == Frames(log, id) + (if e.Sent? && About(e.body, id) then [e] else [])
  {
    assert (log + [e])[..|log|] == log;
  }

  // ---------------------------------------------------------------------
  // What a client gets
  // ---------------------------------------------------------------------

  /** The bytes the read at an offset delivers, 0 if it fails. */
  function Delivered(x: Stream, read: Read, offset: nat): nat {
    match read
    case Failed(_) => 0
    case Bytes(count) =>
      Least(count, Least(Wanted(x.totalSize, offset), if offset <= |x.file| then |x.file| - offset else 0))
  }

  function Least(a: nat, b: nat): nat {
    if a <= b then a else b
  }

  function Wanted(totalSize: nat, offset: nat): nat {
    if offset <= totalSize then Least(STREAM_CHUNK_SIZE, totalSize - offset) else 0
  }

  /** The offset in the file after `n` reads. */
  function Position(x: Stream, n: nat): nat {
    if n == 0 then 0 else Position(x, n - 1) + Delivered(x, x.awaits(n - 1).read, Position(x, n - 1))
  }

  lemma {:induction false} PositionInFile(x: Stream, n: nat)
    ensures Position(x, n) <= |x.file| && Position(x, n) <= x.totalSize
  {
    if n > 0 {
      PositionInFile(x, n - 1);
    }
  }

  /** The chunk of read `k`, done at `offset`. */
  function ChunkAt(x: Stream, k: nat, offset: nat): D.Body
    requires offset <= |x.file|
  {
    D.StreamChunk(x.id, k, x.encode(x.file[offset..offset + Delivered(x, x.awaits(k).read, offset)]))
  }

  function ChunkBody(x: Stream, k: nat): D.Body {
    PositionInFile(x, k);
    ChunkAt(x, k, Position(x, k))
  }

  /** A frame sent to the client that asked, while it was attached. */
  predicate ToRequester(x: Stream, entry: D.Entry) {
    entry.Sent? && entry.client == x.client && entry.generation == x.generation && entry.ticket == None
  }

  /** The k-th frame is chunk k: it decodes to the bytes of the k-th read. */
  predicate Chunks(x: Stream, chunks: seq<D.Entry>) {
    forall k | 0 <= k < |chunks| :: ToRequester(x, chunks[k]) && IsChunk(x, k, chunks[k].body)
  }

  predicate IsChunk(x: Stream, k: nat, body: D.Body) {
    && body.StreamChunk? && body.streamId == x.id && body.chunk == k
    && Position(x, k) <= Position(x, k + 1) <= |x.file|
    && x.decode(body.data) == Some(x.file[Position(x, k)..Position(x, k + 1)])
  }

  /** What is written as text can be read back. */
  ghost predicate Readable(x: Stream) {
    forall bytes :: x.decode(x.encode(bytes)) == Some(bytes)
  }

  lemma Base64IsReadable(x: Stream)
    requires x.encode == Encode && x.decode == Decode
    ensures Readable(x)
  {
    forall bytes ensures x.decode(x.encode(bytes)) == Some(bytes) {
      DecodeEncode(bytes);
    }
  }

  lemma ChunkBodyIsChunk(x: Stream, k: nat)
    requires Readable(x)
    ensures IsChunk(x, k, ChunkBody(x, k))
  {
    PositionInFile(x, k);
    PositionInFile(x, k + 1);
  }

  predicate AllWritten(frames: seq<D.Entry>) {
    forall k | 0 <= k < |frames| :: frames[k].Sent? && frames[k].written
  }

  /** What the client gets by decoding the chunks and joining them. */
  function Joined(decode: Decoder, frames: seq<D.Entry>): Option<seq<Byte>> {
    if frames == [] then Some([])
    else
      var last := frames[|frames| - 1];
      if !last.Sent? || !last.body.StreamChunk? then None
      else
        match (Joined(decode, frames[..|frames| - 1]), decode(last.body.data))
        case (Some(a), Some(b)) => Some(a + b)
        case _ => None
  }

  lemma JoinedAppend(decode: Decoder, frames: seq<D.Entry>, e: D.Entry, a: seq<Byte>, b: seq<Byte>)
    requires Joined(decode, frames) == Some(a) && e.Sent? && e.body.StreamChunk? && decode(e.body.data) == Some(b)
    ensures Joined(decode, frames + [e]) == Some(a + b)
  {
    assert (frames + [e])[..|frames|] == frames;
  }

  lemma SlicesJoin(file: seq<Byte>, from: nat, to: nat)
    requires from <= to <= |file|
    ensures file[..from] + file[from..to] == file[..to]
  {
  }

  /** Frame `e` decodes to the bytes of the file between two offsets. */
  predicate CarriesBytes(decode: Decoder, e: D.Entry, file: seq<Byte>, from: nat, to: nat) {
    e.Sent? && e.body.StreamChunk? && from <= to <= |file| && decode(e.body.data) == Some(file[from..to])
  }

  /** The chunks decode and join to the file up to the offset reached. */
  lemma {:induction false} ChunksJoin(decode: Decoder, frames: seq<D.Entry>, file: seq<Byte>, at: nat -> nat, n: nat)
    requires n <= |frames| && at(0) == 0
    requires forall k | 0 <= k < n :: CarriesBytes(decode, frames[k], file, at(k), at(k + 1))
    ensures at(n) <= |file| && Joined(decode, frames[..n]) == Some(file[..at(n)])
  {
    if n > 0 {
      ChunksJoin(decode, frames, file, at, n - 1);
      var last := frames[n - 1];
      assert CarriesBytes(decode, last, file, at(n - 1), at(n - 1 + 1));
      JoinedAppend(decode, frames[..n - 1], last, file[..at(n - 1)], file[at(n - 1)..at(n)]);
      SlicesJoin(file, at(n - 1), at(n));
      assert frames[..n] == frames[..n - 1] + [last];
    }
  }

  function PositionOf(x: Stream): nat -> nat {
    k => Position(x, k)
  }

  // ---------------------------------------------------------------------
  // Silence
  // ---------------------------------------------------------------------

  /** No chunk and no end follows an interference that ends the stream. */
  predicate SilentAfterEnd(marks: seq<Mark>, id: nat) {
    forall i, j | 0 <= i < j < |marks| && marks[i].Meanwhile? && Ends(marks[i].e, id) && marks[j].Frame? ::
      marks[j].entry.Sent? ==> !marks[j].entry.body.StreamChunk? && !marks[j].entry.body.StreamEnd?
  }

  predicate AnyEnd(marks: seq<Mark>, id: nat) {
    exists i :: 0 <= i < |marks| && marks[i].Meanwhile? && Ends(marks[i].e, id)
  }

  /** The pump may still send: the requesting client is attached and the stream not aborted. */
  predicate Alive(x: Stream, w: World) {
    w.d.generation == x.generation && !R.IsAborted(w.r, x.id)
  }

  /** The generation a stream was asked for in has one client, and never comes back. */
  predicate Attached(x: Stream, w: World) {
    && x.id < w.r.nextId && w.d.generation >= x.generation
    && (w.d.generation == x.generation ==> w.d.client == x.client)
  }

  /** What holds after every part of a history in which the stream sent `frames`. The
      stream is alive exactly if it was at the start and nothing has ended it. */
  predicate Steady(x: Stream, marks: seq<Mark>, frames: seq<D.Entry>) {
    var w := Now(x, marks);
    && Attached(x, w)
    && Frames(w.d.log, x.id) == frames
    && SilentAfterEnd(marks, x.id)
    && (Alive(x, w) <==> Alive(x, x.start) && !AnyEnd(marks, x.id))
    && (x.start.d.disposed ==> w.d.disposed)
  }

  /** What one dispatcher step leaves alone. */
  lemma StepFacts(enc: D.Encoder, s: D.State, e: D.Event, id: nat)
    requires D.Enabled(s, e) && (e.Push? ==> !About(e.body, id))
    ensures var t := D.Step(enc, s, e);
      && Frames(t.log, id) == Frames(s.log, id)
      && t.generation == (if e.Swap? || e.Invalidate? then s.generation + 1 else s.generation)
      && (e.Swap? || t.client == s.client)
      && (s.disposed ==> t.disposed)
  {
    match e
    case Swap =>
    case Invalidate =>
    case Dispose =>
    case Push(body) => SendFacts(enc, s, body, None, id);
    case Tick => SendFacts(enc, s, D.KeepAlive, None, id);
    case Complete(ticket, outcome, tooLarge) => FinishFacts(enc, s, ticket, outcome, tooLarge, id);
    case Arrive(frame) => ArriveFacts(enc, s, frame, id);
  }

  lemma FinishFacts(enc: D.Encoder, s: D.State, ticket: nat, outcome: D.Outcome, tooLarge: string, id: nat)
    requires ticket in s.pending
    ensures var t := D.Finish(enc, s, ticket, outcome, tooLarge);
      && Frames(t.log, id) == Frames(s.log, id)
      && t.generation == s.generation && t.client == s.client && t.disposed == s.disposed
  {
    var p := s.pending[ticket];
    var rest := s.(pending := s.pending - {ticket});
    match outcome
    case Threw(code, message) => SendFacts(enc, rest, D.ErrorBody(p.id, code, message), Some(ticket), id);
    case Returned(result) =>
      SendFacts(enc, rest, D.Result(p.id, result), Some(ticket), id);
      SendFacts(enc, D.Send(enc, rest, D.Result(p.id, result), Some(ticket)), D.ErrorBody(p.id, None, tooLarge),
                Some(ticket), id);
  }

  lemma ArriveFacts(enc: D.Encoder, s: D.State, frame: D.Frame, id: nat)
    ensures var t := D.Handled(enc, s, frame);
      && Frames(t.log, id) == Frames(s.log, id)
      && t.generation == s.generation && t.client == s.client && t.disposed == s.disposed
  {
    FramesAppend(s.log, D.Received(s.client, s.generation, frame), id);
    if frame.message.Request? {
      SendFacts(enc, D.Seen(s, frame), D.NotFound(frame.message.id, frame.message.method_), Some(s.nextTicket), id);
    }
  }

  lemma SendFacts(enc: D.Encoder, s: D.State, body: D.Body, ticket: Option<nat>, id: nat)
    requires !About(body, id)
    ensures var t := D.Send(enc, s, body, ticket);
      && Frames(t.log, id) == Frames(s.log, id)
      && t.generation == s.generation && t.client == s.client && t.disposed == s.disposed
  {
    if !s.disposed {
      FramesAppend(s.log, D.Send(enc, s, body, ticket).log[|s.log|], id);
    }
  }

  lemma {:induction false} DisposedIsAborted(s: R.State, n: nat, id: nat)
    ensures R.ReleasedBelow(s, n).nextId == s.nextId
    ensures id < n ==> id !in R.ReleasedBelow(s, n).streams
    ensures id in R.ReleasedBelow(s, n).streams ==>
      id in s.streams && R.ReleasedBelow(s, n).streams[id] == s.streams[id]
  {
    if n > 0 {
      DisposedIsAborted(s, n - 1, id);
    }
  }

  /** What an interference does to a stream: nothing, or it ends it. */
  lemma DisturbedFacts(x: Stream, w: World, e: Interference)
    requires Attached(x, w) && Foreign(e, x.id)
    ensures var t := Disturbed(x.fits, w, e);
      && Attached(x, t)
      && Frames(t.d.log, x.id) == Frames(w.d.log, x.id)
      && (Alive(x, t) <==> Alive(x, w) && !Ends(e, x.id))
      && (w.d.disposed ==> t.d.disposed)
  {
    match e
    case Dispatching(event) =>
      if D.Enabled(w.d, event) {
        StepFacts(x.fits, w.d, event, x.id);
      }
    case DisposeStreams => DisposedIsAborted(w.r, w.r.nextId, x.id);
    case _ =>
  }

  lemma NowAppend(x: Stream, marks: seq<Mark>, m: Mark)
    ensures Now(x, marks + [m]) == Played(x.fits, Now(x, marks), m)
  {
    assert (marks + [m])[..|marks|] == marks;
  }

  lemma AnyEndAppend(marks: seq<Mark>, m: Mark, id: nat)
    ensures AnyEnd(marks + [m], id) <==> AnyEnd(marks, id) || (m.Meanwhile? && Ends(m.e, id))
  {
    var more := marks + [m];
    assert more[|marks|] == m;
    if AnyEnd(marks, id) {
      var i :| 0 <= i < |marks| && marks[i].Meanwhile? && Ends(marks[i].e, id);
      assert more[i] == marks[i];
    }
  }

  lemma SteadyMeanwhile(x: Stream, marks: seq<Mark>, frames: seq<D.Entry>, e: Interference)
    requires Steady(x, marks, frames) && Foreign(e, x.id)
    ensures Steady(x, marks + [Meanwhile(e)], frames)
    ensures Now(x, marks).d.disposed ==> Now(x, marks + [Meanwhile(e)]).d.disposed
    ensures !Alive(x, Now(x, marks)) ==> !Alive(x, Now(x, marks + [Meanwhile(e)]))
  {
    DisturbedFacts(x, Now(x, marks), e);
    NowAppend(x, marks, Meanwhile(e));
    AnyEndAppend(marks, Meanwhile(e), x.id);
  }

  lemma {:induction false} SteadyMeanwhiles(x: Stream, marks: seq<Mark>, frames: seq<D.Entry>, es: seq<Interference>)
    requires Steady(x, marks, frames) && forall e | e in es :: Foreign(e, x.id)
    ensures Steady(x, marks + Meanwhiles(es), frames)
    ensures Now(x, marks).d.disposed ==> Now(x, marks + Meanwhiles(es)).d.disposed
    ensures !Alive(x, Now(x, marks)) ==> !Alive(x, Now(x, marks + Meanwhiles(es)))
  {
    if es == [] {
      assert marks + Meanwhiles(es) == marks;
    } else {
      var init, e := es[..|es| - 1], es[|es| - 1];
      SteadyMeanwhiles(x, marks, frames, init);
      SteadyMeanwhile(x, marks + Meanwhiles(init), frames, e);
      assert marks + Meanwhiles(es) == marks + Meanwhiles(init) + [Meanwhile(e)];
    }
  }

  /** The frame the pump's `notify` sends. */
  function SentNow(x: Stream, w: World, body: D.Body): D.Entry {
    D.Sent(w.d.client, w.d.generation, w.d.nextOutgoing, w.d.highestReceived, body, None,
           x.fits(body, w.d.nextOutgoing))
  }

  /** Sending a chunk or an end while alive, or an error at any time. */
  lemma SteadySend(x: Stream, marks: seq<Mark>, frames: seq<D.Entry>, body: D.Body)
    requires Steady(x, marks, frames) && About(body, x.id) && !Now(x, marks).d.disposed
    requires body.StreamError? || Alive(x, Now(x, marks))
    ensures var f := SentNow(x, Now(x, marks), body);
      && Steady(x, marks + [Frame(f)], frames + [f])
      && Now(x, marks + [Frame(f)]) == Now(x, marks).(d := D.Send(x.fits, Now(x, marks).d, body, None))
  {
    var w := Now(x, marks);
    var f := SentNow(x, w, body);
    NowAppend(x, marks, Frame(f));
    AnyEndAppend(marks, Frame(f), x.id);
    FramesAppend(w.d.log, f, x.id);
  }
}
