/**
Streaming a file to the relay's client in numbered base64 chunks. The pump suspends in
every read. What happens during each read, and how many bytes the read delivers, is a
parameter, so what is proved of the pump holds for every interleaving.
*/
module FileStream {
  import opened Options
  import opened Base64
  import DigitStrings
  import opened StreamHistory
  import D = RelayDispatcher
  import R = StreamRegistry

  // ---------------------------------------------------------------------
  // Opening a stream
  // ---------------------------------------------------------------------

  const MAX_TEXT_FILE_SIZE: nat := 10 * 1024 * 1024
  const MAX_PREVIEWABLE_BINARY_SIZE: nat := 50 * 1024 * 1024

  /** The response to the request: nothing to stream, or a stream the pump is started for. */
  datatype Metadata =
    | NothingToStream(isBinary: bool, isImage: bool)
    | Started(id: nat, totalSize: nat, isImage: bool)
    | TooLarge
    | TooManyStreams

  predicate Streams(size: nat, isImage: bool, looksBinary: bool) {
    0 < size <= (if isImage then MAX_PREVIEWABLE_BINARY_SIZE else MAX_TEXT_FILE_SIZE) && (isImage || !looksBinary)
  }

  /** `readRelayFileStreamMetadata`: `handle` is the file handle `open` yields if it gets
      that far, `looksBinary` the verdict of the prefix probe. */
  method OpenStream(r: R.Registry, size: nat, isImage: bool, looksBinary: bool, handle: nat) returns (m: Metadata)
    modifies r
    ensures m.Started? || m.TooManyStreams? <==> Streams(size, isImage, looksBinary)
    ensures m.Started? ==> m.totalSize == size > 0 && m.id == old(r.nextId) && m.isImage == isImage
    ensures m.TooManyStreams? <==>
      Streams(size, isImage, looksBinary) && |old(r.View()).streams| >= R.MAX_CONCURRENT_STREAMS
    ensures m.TooLarge? <==> size > if isImage then MAX_PREVIEWABLE_BINARY_SIZE else MAX_TEXT_FILE_SIZE
    ensures m.NothingToStream? ==> m.isBinary == (isImage || size > 0) && m.isImage == isImage
    ensures r.View() == if Streams(size, isImage, looksBinary)
      then R.Step(R.Machine(old(r.View()), handle, []), R.Open).registry
      else old(r.View())
  {
    var limit := if isImage then MAX_PREVIEWABLE_BINARY_SIZE else MAX_TEXT_FILE_SIZE;
    if size > limit {
      return TooLarge;
    }
    if size == 0 {
      return NothingToStream(isImage, isImage);
    }
    if !isImage && looksBinary {
      return NothingToStream(true, false);
    }
    var id := r.Register(handle);
    if id == None {
      r.CloseHandle(handle);
      return TooManyStreams;
    }
    return Started(id.value, size, isImage);
  }

  // ---------------------------------------------------------------------
  // How a stream ends
  // ---------------------------------------------------------------------

  datatype EndReason = End | Cancelled | Stale | Error(code: string, message: string)

  function Decimal(n: nat): string {
    var digit := [(n % 10) as char + '0'];
    if n < 10 then digit else Decimal(n / 10) + digit
  }

  /** Read as a number it is the number again, and it has no leading zero. */
  lemma {:induction false} DecimalReads(n: nat)
    ensures Decimal(n) != "" && DigitStrings.AllDigits(Decimal(n)) && DigitStrings.Number(Decimal(n)) == n
    ensures n > 0 ==> Decimal(n)[0] != '0'
  {
    var digit := [(n % 10) as char + '0'];
    if n < 10 {
      assert digit[..0] == "";
    } else {
      DecimalReads(n / 10);
      assert Decimal(n)[..|Decimal(n)| - 1] == Decimal(n / 10);
    }
  }

  function Thrower(error: Thrown): EndReason {
    Error(match error.code case Some(c) => c case None => "ESTREAMREAD", error.message)
  }

  function Truncated(totalSize: nat, offset: nat): EndReason {
    Error("ESTREAMTRUNCATED", "File truncated mid-stream: expected " + Decimal(totalSize) + ", got " + Decimal(offset))
  }

  /** The world in which the `n`-th turn begins, and the chunks sent by then. */
  datatype Turn = Turn(w: World, chunks: seq<D.Entry>)

  function Disturbances(enc: D.Encoder, w: World, es: seq<Interference>): World {
    if es == [] then w else Disturbed(enc, Disturbances(enc, w, es[..|es| - 1]), es[|es| - 1])
  }

  /** The world `w` when read `k` is over. */
  function HeardIn(x: Stream, k: nat, w: World): World {
    Disturbances(x.fits, w, x.awaits(k).meanwhile)
  }

  predicate SpoiledAt(x: Stream, k: nat, offset: nat) {
    Delivered(x, x.awaits(k).read, offset) == 0
  }

  /** Turn `k`: after the read its chunk is sent, if the read delivered bytes and the stream
      is still alive; a disposed dispatcher swallows it. */
  function NextTurn(x: Stream, k: nat, offset: nat, t: Turn): Turn
    requires offset <= |x.file|
  {
    var w := HeardIn(x, k, t.w);
    if SpoiledAt(x, k, offset) || !Alive(x, w) || w.d.disposed then Turn(w, t.chunks)
    else Turn(w.(d := D.Send(x.fits, w.d, ChunkAt(x, k, offset), None)),
              t.chunks + [SentNow(x, w, ChunkAt(x, k, offset))])
  }

  /** The checks at the loop's head and behind a read. */
  function CheckVerdict(x: Stream, w: World): Option<EndReason> {
    if w.d.generation != x.generation then Some(Stale)
    else if R.IsAborted(w.r, x.id) then Some(Cancelled)
    else None
  }

  /** Why turn `k` stops the pump before its chunk is sent, if it does: a read that fails
      or delivers nothing comes first, then a lost client, then a cancel. */
  function ReadVerdict(x: Stream, k: nat, offset: nat, w: World): Option<EndReason> {
    if SpoiledAt(x, k, offset) then
      match x.awaits(k).read
      case Bytes(_) => Some(Truncated(x.totalSize, offset))
      case Failed(error) =>
        Some(if error.code == Some("EBADF") && R.IsAborted(w.r, x.id) then Cancelled else Thrower(error))
    else CheckVerdict(x, w)
  }

  /** Why turn `k` stops the pump, if it does. */
  function TurnVerdict(x: Stream, k: nat, offset: nat, w: World): Option<EndReason>
    requires offset <= |x.file|
  {
    if ReadVerdict(x, k, offset, w).Some? then ReadVerdict(x, k, offset, w)
    else if D.SendThrows(x.fits, w.d, ChunkAt(x, k, offset)) then Some(Thrower(x.awaits(k).rejection))
    else if offset + Delivered(x, x.awaits(k).read, offset) >= x.totalSize then Some(End)
    else None
  }

  function TurnAt(x: Stream, n: nat): Turn {
    if n == 0 then Turn(x.start, [])
    else
      PositionInFile(x, n - 1);
      NextTurn(x, n - 1, Position(x, n - 1), TurnAt(x, n - 1))
  }

  function Heard(x: Stream, k: nat): World {
    HeardIn(x, k, TurnAt(x, k).w)
  }

  predicate Spoiled(x: Stream, k: nat) {
    SpoiledAt(x, k, Position(x, k))
  }

  /** The chunk of turn `k` cannot be encoded. */
  predicate Rejected(x: Stream, k: nat) {
    D.SendThrows(x.fits, Heard(x, k).d, ChunkBody(x, k))
  }

  /** Why the pump stops after `n` reads, if it does. */
  function Verdict(x: Stream, n: nat): Option<EndReason> {
    if n == 0 then CheckVerdict(x, x.start)
    else
      PositionInFile(x, n - 1);
      TurnVerdict(x, n - 1, Position(x, n - 1), Heard(x, n - 1))
  }

  /** The turn at which the pump stops. */
  ghost predicate Stops(x: Stream, n: nat) {
    Verdict(x, n).Some? && GoesOn(x, n)
  }

  ghost predicate GoesOn(x: Stream, n: nat) {
    forall m: nat | m < n :: Verdict(x, m) == None
  }

  function FinalBody(x: Stream, reason: EndReason): Option<D.Body> {
    match reason
    case End => Some(D.StreamEnd(x.id))
    case Error(code, message) => Some(D.StreamError(x.id, code, message))
    case _ => None
  }

  /** What became of a stream: reads done, chunks sent, the frame that told the client how
      it ended. A disposed dispatcher is mute. */
  datatype Ending = Ending(turns: nat, chunks: seq<D.Entry>, reason: EndReason, last: Option<D.Entry>)

  function EndingAt(x: Stream, n: nat): Ending
    requires Verdict(x, n).Some?
  {
    var t, reason := TurnAt(x, n), Verdict(x, n).value;
    Ending(n, t.chunks, reason,
           match FinalBody(x, reason)
           case Some(body) => if t.w.d.disposed then None else Some(SentNow(x, t.w, body))
           case None => None)
  }

  /** The stream's last frame is sent, then its handle is released. */
  function Ended(x: Stream, n: nat): World
    requires Verdict(x, n).Some?
  {
    var w := TurnAt(x, n).w;
    World(match FinalBody(x, Verdict(x, n).value)
          case Some(body) => D.Send(x.fits, w.d, body, None)
          case None => w.d,
          R.Released(w.r, x.id))
  }

  // ---------------------------------------------------------------------
  // What a stopped pump has done
  // ---------------------------------------------------------------------

  /** The pump as it is started: for a client that was attached in the generation of its
      request, with nothing sent for the stream before. */
  ghost predicate Startable(x: Stream) {
    && x.encode == Encode && x.decode == Decode && x.totalSize > 0
    && Attached(x, x.start) && Frames(x.start.d.log, x.id) == []
    && forall n: nat, e | e in x.awaits(n).meanwhile :: Foreign(e, x.id)
  }

  /** Everything that happened, in order: the interferences of each read, the chunk sent
      after it, and the last frame. */
  function History(x: Stream, e: Ending): seq<Mark> {
    Script(x, e.turns, e.chunks) + LastMark(e.last)
  }

  lemma {:induction false} DisturbancesPlayed(x: Stream, marks: seq<Mark>, es: seq<Interference>)
    ensures Now(x, marks + Meanwhiles(es)) == Disturbances(x.fits, Now(x, marks), es)
  {
    if es == [] {
      assert marks + Meanwhiles(es) == marks;
    } else {
      var init, e := es[..|es| - 1], es[|es| - 1];
      DisturbancesPlayed(x, marks, init);
      NowAppend(x, marks + Meanwhiles(init), Meanwhile(e));
      assert marks + Meanwhiles(es) == marks + Meanwhiles(init) + [Meanwhile(e)];
    }
  }

  /** The stream's invariant after `n` turns. */
  ghost predicate Pumped(x: Stream, n: nat) {
    var t := TurnAt(x, n);
    && Now(x, Script(x, n, t.chunks)) == t.w
    && Steady(x, Script(x, n, t.chunks), t.chunks)
    && Chunks(x, t.chunks)
    && |t.chunks| <= n
  }

  /** At the loop's head every read has sent its chunk. */
  predicate Complete(x: Stream, n: nat) {
    var t := TurnAt(x, n);
    AllWritten(t.chunks) && (!t.w.d.disposed ==> |t.chunks| == n)
  }

  lemma {:induction false} ScriptPrefix(x: Stream, n: nat, chunks: seq<D.Entry>, f: D.Entry)
    requires n <= |chunks|
    ensures Script(x, n, chunks + [f]) == Script(x, n, chunks)
  {
    if n > 0 {
      ScriptPrefix(x, n - 1, chunks, f);
    }
  }

  /** The history grows by what happened during the read, and by the chunk. */
  lemma ScriptHeard(x: Stream, n: nat, chunks: seq<D.Entry>)
    requires |chunks| <= n
    ensures Script(x, n + 1, chunks) == Script(x, n, chunks) + Meanwhiles(x.awaits(n).meanwhile)
  {
  }

  lemma ScriptSent(x: Stream, n: nat, chunks: seq<D.Entry>, f: D.Entry)
    requires n == |chunks|
    ensures Script(x, n + 1, chunks + [f]) == Script(x, n + 1, chunks) + [Frame(f)]
  {
    ScriptPrefix(x, n, chunks, f);
    ScriptHeard(x, n, chunks);
  }

  lemma HeardIsSteady(x: Stream, n: nat)
    requires Startable(x) && Pumped(x, n)
    ensures var chunks := TurnAt(x, n).chunks;
      && Now(x, Script(x, n + 1, chunks)) == Heard(x, n)
      && Steady(x, Script(x, n + 1, chunks), chunks)
      && (TurnAt(x, n).w.d.disposed ==> Heard(x, n).d.disposed)
  {
    var chunks := TurnAt(x, n).chunks;
    ScriptHeard(x, n, chunks);
    DisturbancesPlayed(x, Script(x, n, chunks), x.awaits(n).meanwhile);
    SteadyMeanwhiles(x, Script(x, n, chunks), chunks, x.awaits(n).meanwhile);
  }

  lemma ChunksOneMore(x: Stream, chunks: seq<D.Entry>, w: World)
    requires Readable(x)
    requires Chunks(x, chunks) && Attached(x, w) && Alive(x, w)
    ensures Chunks(x, chunks + [SentNow(x, w, ChunkBody(x, |chunks|))])
  {
    ChunkBodyIsChunk(x, |chunks|);
  }

  lemma TurnIsPumped(x: Stream, n: nat)
    requires Startable(x) && Pumped(x, n) && Complete(x, n)
    ensures Pumped(x, n + 1)
  {
    var w, chunks := Heard(x, n), TurnAt(x, n).chunks;
    HeardIsSteady(x, n);
    if !Spoiled(x, n) && Alive(x, w) && !w.d.disposed {
      ScriptSent(x, n, chunks, SentNow(x, w, ChunkBody(x, n)));
      SteadySend(x, Script(x, n + 1, chunks), chunks, ChunkBody(x, n));
      Base64IsReadable(x);
      ChunksOneMore(x, chunks, w);
    }
  }

  lemma TurnIsComplete(x: Stream, n: nat)
    requires Startable(x) && Pumped(x, n) && Complete(x, n)
    requires !Spoiled(x, n) && Alive(x, Heard(x, n)) && !Rejected(x, n)
    ensures Complete(x, n + 1)
  {
    HeardIsSteady(x, n);
  }

  /** No verdict after a turn means that it was a good one. */
  lemma GoodTurn(x: Stream, n: nat)
    requires Verdict(x, n + 1) == None || Verdict(x, n + 1) == Some(End)
    ensures !Spoiled(x, n) && Alive(x, Heard(x, n)) && !Rejected(x, n)
  {
  }

  lemma TurnGoesOn(x: Stream, n: nat)
    requires Startable(x) && Pumped(x, n) && Complete(x, n)
    requires Verdict(x, n + 1) == None || Verdict(x, n + 1) == Some(End)
    ensures Pumped(x, n + 1) && Complete(x, n + 1)
  {
    TurnIsPumped(x, n);
    GoodTurn(x, n);
    TurnIsComplete(x, n);
  }

  lemma NoTurnYet(x: Stream)
    requires Startable(x)
    ensures Pumped(x, 0) && Complete(x, 0)
  {
  }

  lemma PumpedThrough(x: Stream, n: nat)
    requires Startable(x) && GoesOn(x, n + 1)
    ensures Pumped(x, n) && Complete(x, n)
  {
    NoTurnYet(x);
    for k := 0 to n
      invariant Pumped(x, k) && Complete(x, k)
    {
      TurnGoesOn(x, k);
    }
  }

  ghost predicate AlwaysPumped(x: Stream, n: nat) {
    Pumped(x, n) && (n > 0 ==> AlwaysPumped(x, n - 1))
  }

  lemma PumpedNext(x: Stream, k: nat)
    requires Startable(x) && GoesOn(x, k + 1) && AlwaysPumped(x, k)
    ensures AlwaysPumped(x, k + 1)
  {
    PumpedThrough(x, k);
    TurnIsPumped(x, k);
  }

  lemma PumpedBeforeVerdict(x: Stream, n: nat)
    requires Startable(x) && GoesOn(x, n)
    ensures AlwaysPumped(x, n)
  {
    NoTurnYet(x);
    for k := 0 to n
      invariant AlwaysPumped(x, k)
    {
      PumpedNext(x, k);
    }
  }

  lemma CompleteAtTheEnd(x: Stream, k: nat)
    requires Startable(x) && GoesOn(x, k + 1) && Verdict(x, k + 1) == Some(End)
    ensures Complete(x, k + 1)
  {
    PumpedThrough(x, k);
    TurnGoesOn(x, k);
  }

  /** For every interleaving, what the pump leaves is what its history gives: no chunk and
      no end stands behind a cancel, a lost client or a disposal; the stream's frames are
      its chunks and its last frame, each sent to the client that asked, chunk k with the
      bytes of read k. */
  lemma StreamIsSound(x: Stream, n: nat)
    requires Startable(x) && Stops(x, n)
    ensures var e := EndingAt(x, n);
      var all := Now(x, History(x, e));
      && Ended(x, n) == all.(r := R.Released(all.r, x.id))
      && SilentAfterEnd(History(x, e), x.id)
      && Frames(Ended(x, n).d.log, x.id) == e.chunks + (if e.last.Some? then [e.last.value] else [])
      && Chunks(x, e.chunks) && |e.chunks| <= n
      && (e.reason.End? && e.last.Some? ==> ToRequester(x, e.last.value))
  {
    PumpedBeforeVerdict(x, n);
    var e := EndingAt(x, n);
    var marks := Script(x, n, e.chunks);
    if e.last.Some? {
      if e.reason.End? {
        EndIsReached(x, n);
      }
      SteadySend(x, marks, e.chunks, FinalBody(x, e.reason).value);
    } else {
      assert History(x, e) == marks && e.chunks + [] == e.chunks;
    }
  }

  // ---------------------------------------------------------------------
  // What a client is told
  // ---------------------------------------------------------------------

  /** Read `k` did not throw, and found a byte. */
  predicate Brought(x: Stream, k: nat) {
    x.awaits(k).read.Bytes? && x.awaits(k).read.count > 0 && Position(x, k) < |x.file|
  }

  function CodeOf(error: Thrown): string {
    match error.code
    case Some(code) => code
    case None => "ESTREAMREAD"
  }

  /** What a client is told last of a stream, after `n` reads in the world `w`:
      - the error of a read that threw, unless that was the closing of an aborted stream's
        handle,
      - an error for a file that turned out shorter than announced,
      - nothing if the client is gone or the stream was cancelled,
      - the error of a chunk that could not be encoded,
      - or else that this was the end. */
  function LastWord(x: Stream, n: nat, chunks: seq<D.Entry>, w: World): Option<D.Body> {
    if n > 0 && x.awaits(n - 1).read.Failed? then
      var error := x.awaits(n - 1).read.error;
      if R.IsAborted(w.r, x.id) && error.code == Some("EBADF") then None
      else Some(D.StreamError(x.id, CodeOf(error), error.message))
    else if n > 0 && !Brought(x, n - 1) then
      Some(D.StreamError(x.id, "ESTREAMTRUNCATED",
        "File truncated mid-stream: expected " + Decimal(x.totalSize) + ", got " + Decimal(Position(x, n - 1))))
    else if w.d.generation != x.generation || R.IsAborted(w.r, x.id) then None
    else if n > 0 && |chunks| == n && !AllWritten(chunks[n - 1..]) then
      Some(D.StreamError(x.id, CodeOf(x.awaits(n - 1).rejection), x.awaits(n - 1).rejection.message))
    else Some(D.StreamEnd(x.id))
  }

  predicate EndsWith(frames: seq<D.Entry>, chunks: seq<D.Entry>, body: Option<D.Body>) {
    match body
    case None => frames == chunks
    case Some(said) =>
      && |frames| == |chunks| + 1 && frames[..|chunks|] == chunks
      && frames[|chunks|].Sent? && frames[|chunks|].body == said
  }

  /** What stands in the log of a stream whose pump has stopped after `n` reads: the chunks
      of the reads, of which all but the last brought bytes, and the last word. */
  ghost predicate Tells(x: Stream, n: nat, chunks: seq<D.Entry>, frames: seq<D.Entry>) {
    var w := Now(x, Script(x, n, chunks));
    && Chunks(x, chunks) && |chunks| <= n <= |chunks| + 1
    && (forall k | 0 <= k < n - 1 :: Brought(x, k))
    && EndsWith(frames, chunks, LastWord(x, n, chunks, w))
    && (LastWord(x, n, chunks, w) == Some(D.StreamEnd(x.id)) ==> |chunks| == n && Position(x, n) == x.totalSize)
  }

  lemma SpoiledIff(x: Stream, k: nat)
    requires Position(x, k) < x.totalSize
    ensures Spoiled(x, k) <==> !Brought(x, k)
  {
    PositionInFile(x, k);
  }

  /** How much a read brings: as much as it says, but no more than a chunk holds, the
      announced size leaves, or the file has. */
  lemma BroughtBytes(x: Stream, k: nat)
    requires x.awaits(k).read.Bytes?
    ensures var more, count := Position(x, k + 1) - Position(x, k), x.awaits(k).read.count;
      && more <= count && more <= 262144 && more <= x.totalSize - Position(x, k) && more <= |x.file| - Position(x, k)
      && (more == count || more == 262144 || more == x.totalSize - Position(x, k) || more == |x.file| - Position(x, k))
  {
    PositionInFile(x, k);
  }

  /** The turn before the last left the announced size unreached. */
  lemma NotThereYet(x: Stream, k: nat)
    requires x.totalSize > 0 && Verdict(x, k) == None
    ensures Position(x, k) < x.totalSize
  {
  }

  lemma {:induction false} EarlierReadsBrought(x: Stream, n: nat)
    requires x.totalSize > 0 && GoesOn(x, n)
    ensures forall k | 0 <= k < n - 1 :: Brought(x, k)
  {
    forall k | 0 <= k < n - 1 ensures Brought(x, k) {
      assert Verdict(x, k) == None && Verdict(x, k + 1) == None;
      NotThereYet(x, k);
      GoodTurn(x, k);
      SpoiledIff(x, k);
    }
  }

  /** A turn changes neither generation nor registry beyond what was heard, and its chunk is
      the last one if it was sent. */
  lemma LastTurn(x: Stream, k: nat)
    ensures var t, w := TurnAt(x, k + 1), Heard(x, k);
      && t.w.r == w.r && t.w.d.generation == w.d.generation && t.w.d.disposed == w.d.disposed
      && (Spoiled(x, k) || !Alive(x, w) || w.d.disposed ==> t.chunks == TurnAt(x, k).chunks)
      && (!Spoiled(x, k) && Alive(x, w) && !w.d.disposed ==>
           && |t.chunks| == |TurnAt(x, k).chunks| + 1
           && t.chunks[|TurnAt(x, k).chunks|].Sent?
           && (t.chunks[|TurnAt(x, k).chunks|].written <==> !Rejected(x, k)))
  {
  }

  /** The verdict of a turn, told from what its read did and where it left things. */
  lemma TurnSays(x: Stream, k: nat)
    requires x.totalSize > 0 && Verdict(x, k) == None && Verdict(x, k + 1).Some?
    requires var t := TurnAt(x, k); |t.chunks| == k && !TurnAt(x, k + 1).w.d.disposed
    ensures var t := TurnAt(x, k + 1);
      FinalBody(x, Verdict(x, k + 1).value) == LastWord(x, k + 1, t.chunks, t.w)
  {
    NotThereYet(x, k);
    SpoiledIff(x, k);
    LastTurn(x, k);
    if Spoiled(x, k) {
      SpoiledSays(x, k);
    } else if Alive(x, Heard(x, k)) {
      SentSays(x, k);
    }
  }

  lemma SpoiledSays(x: Stream, k: nat)
    requires Position(x, k) < x.totalSize && Spoiled(x, k) && !Brought(x, k)
    ensures Verdict(x, k + 1).Some?
    ensures FinalBody(x, Verdict(x, k + 1).value) == LastWord(x, k + 1, TurnAt(x, k + 1).chunks, TurnAt(x, k + 1).w)
  {
    LastTurn(x, k);
  }

  lemma SentSays(x: Stream, k: nat)
    requires Position(x, k) < x.totalSize && !Spoiled(x, k) && Brought(x, k) && Alive(x, Heard(x, k))
    requires |TurnAt(x, k).chunks| == k && !TurnAt(x, k + 1).w.d.disposed && Verdict(x, k + 1).Some?
    ensures FinalBody(x, Verdict(x, k + 1).value) == LastWord(x, k + 1, TurnAt(x, k + 1).chunks, TurnAt(x, k + 1).w)
  {
    var t := TurnAt(x, k + 1);
    LastTurn(x, k);
    assert t.chunks[k..] == [t.chunks[k]];
    assert AllWritten(t.chunks[k..]) <==> t.chunks[k].written;
  }

  lemma StartSays(x: Stream)
    requires x.totalSize > 0 && Verdict(x, 0).Some?
    ensures FinalBody(x, Verdict(x, 0).value) == LastWord(x, 0, [], x.start) == None
  {
  }

  /** The pump says what it should, and has sent a chunk for each read but perhaps the last. */
  ghost predicate Says(x: Stream, n: nat)
    requires Verdict(x, n).Some?
  {
    var t := TurnAt(x, n);
    && FinalBody(x, Verdict(x, n).value) == LastWord(x, n, t.chunks, t.w)
    && |t.chunks| <= n <= |t.chunks| + 1
  }

  lemma SaysAtStart(x: Stream, n: nat)
    requires Startable(x) && Stops(x, n) && n == 0
    ensures Says(x, n)
  {
    StartSays(x);
  }

  lemma SaysAfterTurns(x: Stream, n: nat)
    requires Startable(x) && Stops(x, n) && !TurnAt(x, n).w.d.disposed && n > 0
    ensures Says(x, n)
  {
    LastTurnSays(x, n - 1);
  }

  lemma StoppedSays(x: Stream, n: nat)
    requires Startable(x) && Stops(x, n) && !TurnAt(x, n).w.d.disposed
    ensures Says(x, n)
  {
    if n == 0 {
      SaysAtStart(x, n);
    } else {
      SaysAfterTurns(x, n);
    }
  }

  lemma LastTurnSays(x: Stream, k: nat)
    requires Startable(x) && Stops(x, k + 1) && !TurnAt(x, k + 1).w.d.disposed
    ensures Says(x, k + 1)
  {
    assert Verdict(x, k) == None;
    FullBefore(x, k);
    LastTurn(x, k);
    TurnSays(x, k);
  }

  lemma FullBefore(x: Stream, k: nat)
    requires Startable(x) && GoesOn(x, k + 1) && !TurnAt(x, k + 1).w.d.disposed
    ensures |TurnAt(x, k).chunks| == k
  {
    PumpedThrough(x, k);
    HeardIsSteady(x, k);
    LastTurn(x, k);
  }

  lemma StoppedTells(x: Stream, n: nat)
    requires Startable(x) && Stops(x, n) && !TurnAt(x, n).w.d.disposed
    ensures Tells(x, n, TurnAt(x, n).chunks, Frames(Ended(x, n).d.log, x.id))
  {
    StreamIsSound(x, n);
    PumpedBeforeVerdict(x, n);
    EarlierReadsBrought(x, n);
    StoppedSays(x, n);
    if Verdict(x, n) == Some(End) {
      EndedStreamIsWhole(x, n);
      EndIsReached(x, n);
      PositionInFile(x, n);
    }
  }

  /** If the client gets an end, every chunk was written, and they decode and join to
      exactly the bytes from 0 to the announced size. */
  lemma EndedStreamIsWhole(x: Stream, n: nat)
    requires Startable(x) && Stops(x, n) && Verdict(x, n) == Some(End) && !TurnAt(x, n).w.d.disposed
    ensures var e := EndingAt(x, n);
      && e.last.Some? && |e.chunks| == n && AllWritten(e.chunks)
      && x.totalSize <= |x.file| && Joined(Decode, e.chunks) == Some(x.file[..x.totalSize])
  {
    PumpedBeforeVerdict(x, n);
    EndIsReached(x, n);
    CompleteAtTheEnd(x, n - 1);
    AllJoined(x, n, TurnAt(x, n).chunks);
  }

  lemma EndIsReached(x: Stream, n: nat)
    requires x.totalSize > 0 && Verdict(x, n) == Some(End)
    ensures n > 0 && Position(x, n) >= x.totalSize && Alive(x, TurnAt(x, n).w)
  {
    GoodTurn(x, n - 1);
  }

  lemma AllJoined(x: Stream, n: nat, chunks: seq<D.Entry>)
    requires Chunks(x, chunks) && |chunks| == n && Position(x, n) >= x.totalSize
    ensures x.totalSize <= |x.file| && Joined(x.decode, chunks) == Some(x.file[..x.totalSize])
  {
    PositionInFile(x, n);
    forall k | 0 <= k < n ensures CarriesBytes(x.decode, chunks[k], x.file, PositionOf(x)(k), PositionOf(x)(k + 1)) {
      assert ToRequester(x, chunks[k]) && IsChunk(x, k, chunks[k].body);
    }
    ChunksJoin(x.decode, chunks, x.file, PositionOf(x), n);
    assert chunks[..n] == chunks;
  }

  /** The request whose handler opens the stream names the client and the generation. */
  lemma RequesterIsAttached(x: Stream, ticket: nat)
    requires D.Consistent(x.start.d) && ticket in x.start.d.pending && x.id < x.start.r.nextId
    requires x.generation == x.start.d.pending[ticket].generation
    requires x.client == D.Requests(x.start.d.log)[ticket].client
    ensures Attached(x, x.start)
  {
  }

  /** What happens between the response and the pump's first step leaves it startable. */
  lemma {:induction false} StartableLater(x: Stream, es: seq<Interference>)
    requires Startable(x) && forall e | e in es :: Foreign(e, x.id)
    ensures Startable(x.(start := Disturbances(x.fits, x.start, es)))
  {
    if es != [] {
      var init := es[..|es| - 1];
      StartableLater(x, init);
      DisturbedFacts(x, Disturbances(x.fits, x.start, init), es[|es| - 1]);
    }
  }

  /** The stream a body is about. */
  function StreamOf(body: D.Body): Option<nat> {
    match body
    case StreamChunk(id, _, _) => Some(id)
    case StreamEnd(id) => Some(id)
    case StreamError(id, _, _) => Some(id)
    case _ => None
  }

  /** Pumps send only for streams that were issued. */
  predicate OfIssued(w: World, e: Interference) {
    e.Dispatching? && e.event.Push? && StreamOf(e.event.body).Some? ==> StreamOf(e.event.body).value < w.r.nextId
  }

  /** No frame is about a stream that was not issued yet. */
  ghost predicate Sane(w: World) {
    D.Consistent(w.d) && forall id: nat | id >= w.r.nextId :: Frames(w.d.log, id) == []
  }

  lemma DisturbedIsSane(fits: D.Encoder, w: World, e: Interference)
    requires Sane(w) && OfIssued(w, e)
    ensures Sane(Disturbed(fits, w, e))
  {
    match e
    case Dispatching(event) =>
      if D.Enabled(w.d, event) {
        D.StepKeepsConsistent(fits, w.d, event);
        forall id: nat | id >= w.r.nextId ensures Frames(D.Step(fits, w.d, event).log, id) == [] {
          StepFacts(fits, w.d, event, id);
        }
      }
    case DisposeStreams => DisposedIsAborted(w.r, w.r.nextId, 0);
    case _ =>
  }

  predicate IssuedRun(fits: D.Encoder, w: World, es: seq<Interference>) {
    es == [] ||
    (IssuedRun(fits, w, es[..|es| - 1]) && OfIssued(Disturbances(fits, w, es[..|es| - 1]), es[|es| - 1]))
  }

  lemma {:induction false} RunIsSane(fits: D.Encoder, w: World, es: seq<Interference>)
    requires Sane(w) && IssuedRun(fits, w, es)
    ensures Sane(Disturbances(fits, w, es))
  {
    if es != [] {
      RunIsSane(fits, w, es[..|es| - 1]);
      DisturbedIsSane(fits, Disturbances(fits, w, es[..|es| - 1]), es[|es| - 1]);
    }
  }

  /** The stream that a request's handler opens in `w`. */
  predicate OpenedIn(x: Stream, w: World, ticket: nat, handle: nat) {
    && ticket in w.d.pending && ticket < |D.Requests(w.d.log)|
    && !R.Full(w.r) && x.start == w.(r := R.Registered(w.r, handle)) && x.id == w.r.nextId
    && x.client == D.Requests(w.d.log)[ticket].client && x.generation == w.d.pending[ticket].generation
  }

  /** From start-up to the pump: after any run in which pumps send only for issued streams,
      the stream a handler opens is startable, and still is when its pump begins. */
  lemma OpenedStreamIsStartable(x: Stream, handlers: set<string>, before: seq<Interference>, ticket: nat, handle: nat,
                                after: seq<Interference>)
    requires IssuedRun(x.fits, World(D.Initial(handlers), R.EMPTY), before)
    requires var w := Disturbances(x.fits, World(D.Initial(handlers), R.EMPTY), before);
      OpenedIn(x, w, ticket, handle)
    requires x.encode == Encode && x.decode == Decode && x.totalSize > 0
    requires forall n: nat, e | e in x.awaits(n).meanwhile :: Foreign(e, x.id)
    requires forall e | e in after :: Foreign(e, x.id)
    ensures Startable(x.(start := Disturbances(x.fits, x.start, after)))
  {
    RunIsSane(x.fits, World(D.Initial(handlers), R.EMPTY), before);
    RequesterIsAttached(x, ticket);
    StartableLater(x, after);
  }

  predicate Quiet(x: Stream, n: nat) {
    forall k, e | 0 <= k < n && e in x.awaits(k).meanwhile :: !Ends(e, x.id)
  }

  lemma {:induction false} QuietMeanwhiles(es: seq<Interference>, id: nat)
    ensures AnyEnd(Meanwhiles(es), id) <==> exists e :: e in es && Ends(e, id)
  {
    if es != [] {
      var init, e := es[..|es| - 1], es[|es| - 1];
      QuietMeanwhiles(init, id);
      AnyEndAppend(Meanwhiles(init), Meanwhile(e), id);
      assert forall d | d in es :: d in init || d == e;
      assert forall d | d in init :: d in es;
      assert e in es;
    }
  }

  lemma AnyEndConcat(a: seq<Mark>, b: seq<Mark>, id: nat)
    ensures AnyEnd(a + b, id) <==> AnyEnd(a, id) || AnyEnd(b, id)
  {
    var c := a + b;
    assert forall i | 0 <= i < |a| :: c[i] == a[i];
    assert forall i | 0 <= i < |b| :: c[|a| + i] == b[i];
    if AnyEnd(c, id) {
      var i :| 0 <= i < |c| && c[i].Meanwhile? && Ends(c[i].e, id);
      assert i >= |a| ==> c[i] == b[i - |a|];
    }
  }

  lemma {:induction false} QuietScript(x: Stream, n: nat, chunks: seq<D.Entry>)
    ensures AnyEnd(Script(x, n, chunks), x.id) <==> !Quiet(x, n)
  {
    if n > 0 {
      var before, heard := Script(x, n - 1, chunks), Meanwhiles(x.awaits(n - 1).meanwhile);
      var sent := if n - 1 < |chunks| then [Frame(chunks[n - 1])] else [];
      QuietScript(x, n - 1, chunks);
      QuietMeanwhiles(x.awaits(n - 1).meanwhile, x.id);
      AnyEndConcat(before, heard, x.id);
      AnyEndConcat(before + heard, sent, x.id);
      assert Script(x, n, chunks) == before + heard + sent;
    }
  }

  /** A stream ends well exactly if it was alive when its pump started, nothing ended it
      during its reads, and the last read and the last chunk went well. */
  lemma EndsWellIff(x: Stream, n: nat)
    requires Startable(x) && Stops(x, n)
    ensures Verdict(x, n) == Some(End) <==>
      && Alive(x, x.start) && Quiet(x, n)
      && (n > 0 ==> !Spoiled(x, n - 1) && !Rejected(x, n - 1))
  {
    PumpedBeforeVerdict(x, n);
    QuietScript(x, n, TurnAt(x, n).chunks);
    if n > 0 {
      VerdictAfterTurn(x, n - 1);
    }
  }

  /** The verdict on a turn that was not spoiled and whose chunk was not rejected. */
  lemma VerdictAfterTurn(x: Stream, k: nat)
    ensures Verdict(x, k + 1) == Some(End) ==> !Spoiled(x, k) && !Rejected(x, k) && Alive(x, TurnAt(x, k + 1).w)
    ensures !Spoiled(x, k) && !Rejected(x, k) && Alive(x, TurnAt(x, k + 1).w) ==>
      Verdict(x, k + 1) == None || Verdict(x, k + 1) == Some(End)
  {
    if Verdict(x, k + 1) == Some(End) {
      GoodTurn(x, k);
    }
  }

  // ---------------------------------------------------------------------
  // The pump
  // ---------------------------------------------------------------------

  /** Runs one dispatcher event; one that is not enabled does not happen. */
  method Dispatch(d: D.Dispatcher, e: D.Event)
    modifies d
    ensures d.View() == if D.Enabled(old(d.View()), e) then D.Step(d.encodes, old(d.View()), e) else old(d.View())
  {
    var threw;
    match e {
      case Swap => d.SetWrite();
      case Invalidate => d.InvalidateClient();
      case Arrive(frame) => d.HandleFrame(frame);
      case Complete(ticket, outcome, tooLarge) =>
        if ticket in d.running {
          d.HandlerDone(ticket, outcome, tooLarge);
        }
      case Push(body) =>
        if !body.Result? && !body.Failure? {
          threw := d.SendFrame(body, None);
        }
      case Tick => threw := d.SendFrame(D.KeepAlive, None);
      case Dispose => d.Dispose();
    }
  }

  method Interfere(d: D.Dispatcher, r: R.Registry, e: Interference)
    modifies d, r
    ensures Both(d, r) == Disturbed(d.encodes, old(Both(d, r)), e)
  {
    match e {
      case Dispatching(event) => Dispatch(d, event);
      case CancelStream(id) => r.Abort(id);
      case OpenOther(handle) =>
        var registered := r.Register(handle);
        if registered == None {
          r.CloseHandle(handle);
        }
      case ExitOther(id) => r.Release(id);
      case DisposeStreams => r.DisposeAll();
    }
  }

  ghost function Both(d: D.Dispatcher, r: R.Registry): World
    reads d, r
  {
    World(d.View(), r.View())
  }

  /** Reads up to `want` bytes at `offset` into the buffer, as many as the file has and the read delivers. */
  method ReadInto(buffer: array<Byte>, want: nat, offset: nat, file: seq<Byte>, count: nat) returns (bytesRead: nat)
    requires want <= buffer.Length && offset <= |file|
    modifies buffer
    ensures bytesRead == Least(count, Least(want, |file| - offset))
    ensures buffer[..bytesRead] == file[offset..offset + bytesRead]
  {
    bytesRead := Least(count, Least(want, |file| - offset));
    for i := 0 to bytesRead
      invariant buffer[..i] == file[offset..offset + i]
    {
      buffer[i] := file[offset + i];
    }
  }

  /** Suspends in a read: everything in `meanwhile` happens. */
  method Suspend(d: D.Dispatcher, r: R.Registry, meanwhile: seq<Interference>)
    modifies d, r
    ensures Both(d, r) == Disturbances(d.encodes, old(Both(d, r)), meanwhile)
  {
    for k := 0 to |meanwhile|
      invariant Both(d, r) == Disturbances(d.encodes, old(Both(d, r)), meanwhile[..k])
    {
      Interfere(d, r, meanwhile[k]);
      assert meanwhile[..k + 1][..k] == meanwhile[..k];
    }
    assert meanwhile[..|meanwhile|] == meanwhile;
  }

  /** The pump's own variables are those of the stream `x`. */
  ghost predicate Pumps(d: D.Dispatcher, id: nat, totalSize: nat, generation: nat, file: seq<Byte>, x: Stream) {
    d.encodes == x.fits && id == x.id && totalSize == x.totalSize && generation == x.generation && file == x.file
  }

  /** One `read` and the checks behind it. */
  method AwaitRead(d: D.Dispatcher, r: R.Registry, id: nat, totalSize: nat, generation: nat, file: seq<Byte>,
                   wait: Await,
                   buffer: array<Byte>, offset: nat, ghost x: Stream, ghost k: nat)
    returns (bytesRead: nat, reason: Option<EndReason>)
    requires Pumps(d, id, totalSize, generation, file, x) && wait == x.awaits(k)
    requires offset <= |file| && offset < totalSize && buffer.Length == STREAM_CHUNK_SIZE
    modifies d, r, buffer
    ensures Both(d, r) == HeardIn(x, k, old(Both(d, r)))
    ensures reason == ReadVerdict(x, k, offset, Both(d, r))
    ensures reason.None? ==>
      && bytesRead == Delivered(x, wait.read, offset) <= buffer.Length
      && buffer[..bytesRead] == file[offset..offset + bytesRead]
  {
    Suspend(d, r, wait.meanwhile);
    bytesRead, reason := 0, None;
    var aborted := r.CheckAborted(id);
    match wait.read {
      case Failed(error) =>
        reason := Some(if error.code == Some("EBADF") && aborted then Cancelled else Thrower(error));
      case Bytes(count) =>
        bytesRead := ReadInto(buffer, Least(STREAM_CHUNK_SIZE, totalSize - offset), offset, file, count);
        if bytesRead == 0 {
          reason := Some(Truncated(totalSize, offset));
        } else if d.generation != generation {
          reason := Some(Stale);
        } else if aborted {
          reason := Some(Cancelled);
        }
    }
  }

  /** `dispatcher.notify` by the pump; `sent` is the frame, if the dispatcher is not disposed. */
  method NotifyOwn(d: D.Dispatcher, r: R.Registry, body: D.Body, ghost x: Stream)
      returns (threw: bool, sent: Option<D.Entry>)
    requires d.encodes == x.fits
    modifies d
    ensures Both(d, r) == old(Both(d, r)).(d := D.Send(x.fits, old(d.View()), body, None))
    ensures threw == D.SendThrows(x.fits, old(d.View()), body)
    ensures sent == if old(d.disposed) then None else Some(SentNow(x, old(Both(d, r)), body))
  {
    var mute := d.disposed;
    threw := d.SendFrame(body, None);
    sent := if mute then None else Some(d.log[|d.log| - 1]);
  }

  /** Turn `k` leads from `t` to `u`, with a verdict other than the end, or on by some bytes. */
  predicate TurnDoes(x: Stream, k: nat, offset: nat, t: Turn, u: Turn, bytesRead: nat, reason: Option<EndReason>)
    requires offset <= |x.file|
  {
    var verdict := TurnVerdict(x, k, offset, HeardIn(x, k, t.w));
    && u == NextTurn(x, k, offset, t)
    && if reason.Some? then reason == verdict
       else
         && bytesRead == Delivered(x, x.awaits(k).read, offset)
         && verdict == if offset + bytesRead >= x.totalSize then Some(End) else None
  }

  /** One turn of the loop behind its first checks: read, check again, send. */
  method PumpOnce(d: D.Dispatcher, r: R.Registry, id: nat, totalSize: nat, generation: nat, file: seq<Byte>,
                  wait: Await,
                  buffer: array<Byte>, offset: nat, k: nat, chunks: seq<D.Entry>,
                  encode: seq<Byte> -> string, ghost x: Stream)
    returns (sent: seq<D.Entry>, bytesRead: nat, reason: Option<EndReason>)
    requires Pumps(d, id, totalSize, generation, file, x) && wait == x.awaits(k) && encode == x.encode
    requires offset <= |file| && offset < totalSize && buffer.Length == STREAM_CHUNK_SIZE
    modifies d, r, buffer
    ensures TurnDoes(x, k, offset, Turn(old(Both(d, r)), chunks), Turn(Both(d, r), sent), bytesRead, reason)
    ensures reason.None? ==> bytesRead > 0
  {
    sent := chunks;
    bytesRead, reason := AwaitRead(d, r, id, totalSize, generation, file, wait, buffer, offset, x, k);
    if reason.Some? {
      return;
    }
    var threw, frame := NotifyOwn(d, r, D.StreamChunk(id, k, encode(buffer[..bytesRead])), x);
    if frame.Some? {
      sent := chunks + [frame.value];
    }
    if threw {
      reason := Some(Thrower(wait.rejection));
    }
  }

  /** The pump has done `n` turns and comes to the loop's head. */
  ghost predicate Reached(x: Stream, n: nat, offset: nat, t: Turn) {
    && t == TurnAt(x, n) && offset == Position(x, n) <= x.totalSize && offset <= |x.file|
    && GoesOn(x, n)
    && Verdict(x, n) == if n == 0 then CheckVerdict(x, t.w) else if offset >= x.totalSize then Some(End) else None
  }

  lemma ReachedFirst(x: Stream)
    ensures Reached(x, 0, 0, Turn(x.start, []))
  {
  }

  lemma GoesOnNext(x: Stream, n: nat)
    requires GoesOn(x, n) && Verdict(x, n) == None
    ensures GoesOn(x, n + 1)
  {
  }

  lemma Unfolded(x: Stream, n: nat)
    ensures Position(x, n) <= |x.file|
    ensures TurnAt(x, n + 1) == NextTurn(x, n, Position(x, n), TurnAt(x, n))
    ensures Verdict(x, n + 1) == TurnVerdict(x, n, Position(x, n), HeardIn(x, n, TurnAt(x, n).w))
    ensures Position(x, n + 1) == Position(x, n) + Delivered(x, x.awaits(n).read, Position(x, n))
  {
    PositionInFile(x, n);
  }

  /** The check at the loop's head finds what the turn before has found. */
  lemma AtTheHead(x: Stream, n: nat, offset: nat, t: Turn)
    requires Reached(x, n, offset, t) && offset < x.totalSize
    ensures Verdict(x, n) == CheckVerdict(x, t.w)
  {
    if n > 0 {
      AliveAfterTurn(x, n - 1);
    }
  }

  lemma AliveAfterTurn(x: Stream, k: nat)
    requires Verdict(x, k + 1) == None
    ensures CheckVerdict(x, TurnAt(x, k + 1).w) == None
  {
    GoodTurn(x, k);
  }

  /** One round of the loop: the check at its head, and the turn behind it. */
  method PumpRound(d: D.Dispatcher, r: R.Registry, id: nat, totalSize: nat, generation: nat, file: seq<Byte>,
                   wait: Await, buffer: array<Byte>, offset: nat, n: nat, chunks: seq<D.Entry>,
                   encode: seq<Byte> -> string, ghost x: Stream)
    returns (turns: nat, sent: seq<D.Entry>, bytesRead: nat, stop: Option<EndReason>)
    requires Pumps(d, id, totalSize, generation, file, x) && wait == x.awaits(n) && encode == x.encode
    requires Reached(x, n, offset, Turn(Both(d, r), chunks))
    requires offset < totalSize && buffer.Length == STREAM_CHUNK_SIZE
    modifies d, r, buffer
    ensures Comes(x, turns, offset + bytesRead, Turn(Both(d, r), sent), stop)
    ensures stop.None? ==> bytesRead > 0 && turns == n + 1
  {
    ghost var t := Turn(Both(d, r), chunks);
    AtTheHead(x, n, offset, t);
    turns, sent, bytesRead := n, chunks, 0;
    stop := CheckHead(d, r, id, generation, x);
    if stop.Some? {
      return;
    }
    sent, bytesRead, stop :=
      PumpOnce(d, r, id, totalSize, generation, file, wait, buffer, offset, n, chunks, encode, x);
    turns := n + 1;
    TurnDone(x, n, offset, t, Turn(Both(d, r), sent), bytesRead, stop);
  }

  /** The read loop: it goes on as long as there is no verdict. */
  method ReadAll(d: D.Dispatcher, r: R.Registry, id: nat, totalSize: nat, generation: nat, file: seq<Byte>,
                 awaits: nat -> Await, encode: seq<Byte> -> string, ghost x: Stream)
    returns (n: nat, chunks: seq<D.Entry>, reason: EndReason)
    requires Pumps(d, id, totalSize, generation, file, x) && awaits == x.awaits && encode == x.encode && totalSize > 0
    requires Both(d, r) == x.start
    modifies d, r
    ensures Turn(Both(d, r), chunks) == TurnAt(x, n) && Stops(x, n) && Verdict(x, n) == Some(reason)
  {
    var buffer := new Byte[STREAM_CHUNK_SIZE];
    var offset := 0;
    n, chunks, reason := 0, [], End;
    ReachedFirst(x);
    while offset < totalSize
      invariant reason == End && (n == 0 ==> offset == 0)
      invariant Reached(x, n, offset, Turn(Both(d, r), chunks))
      decreases totalSize - offset
    {
      var bytesRead, stop;
      n, chunks, bytesRead, stop :=
        PumpRound(d, r, id, totalSize, generation, file, awaits(n), buffer, offset, n, chunks, encode, x);
      if stop.Some? {
        reason := stop.value;
        return;
      }
      offset := offset + bytesRead;
    }
    Finished(x, n, offset, Turn(Both(d, r), chunks));
  }

  lemma Finished(x: Stream, n: nat, offset: nat, t: Turn)
    requires Reached(x, n, offset, t) && offset >= x.totalSize && n > 0
    ensures t == TurnAt(x, n) && Stops(x, n) && Verdict(x, n) == Some(End)
  {
  }

  lemma TurnDone(x: Stream, n: nat, offset: nat, t: Turn, u: Turn, bytesRead: nat, stop: Option<EndReason>)
    requires Reached(x, n, offset, t) && Verdict(x, n) == None && TurnDoes(x, n, offset, t, u, bytesRead, stop)
    ensures Comes(x, n + 1, offset + bytesRead, u, stop)
  {
    GoesOnNext(x, n);
    Unfolded(x, n);
    PositionInFile(x, n + 1);
  }

  /** The pump has stopped with a verdict, or comes to the loop's head. */
  ghost predicate Comes(x: Stream, n: nat, offset: nat, t: Turn, stop: Option<EndReason>) {
    if stop.Some? then t == TurnAt(x, n) && Stops(x, n) && Verdict(x, n) == stop
    else Reached(x, n, offset, t)
  }

  method CheckHead(d: D.Dispatcher, r: R.Registry, id: nat, generation: nat, ghost x: Stream)
      returns (reason: Option<EndReason>)
    requires id == x.id && generation == x.generation
    ensures reason == CheckVerdict(x, Both(d, r))
  {
    if d.generation != generation {
      return Some(Stale);
    }
    var aborted := r.CheckAborted(id);
    return if aborted then Some(Cancelled) else None;
  }

  /** `pumpChunks`: stops at the first verdict, with the frames and the final states of
      dispatcher and registry that the turns up to there give. */
  method PumpChunks(d: D.Dispatcher, r: R.Registry, id: nat, totalSize: nat, client: nat, generation: nat,
                    file: seq<Byte>, awaits: nat -> Await)
    returns (e: Ending)
    requires totalSize > 0
    modifies d, r
    ensures var x :=
        Stream(d.encodes, Encode, Decode, old(Both(d, r)), id, client, generation, totalSize, file, awaits);
      && Stops(x, e.turns) && e == EndingAt(x, e.turns)
      && Both(d, r) == Ended(x, e.turns)
      && (Startable(x) && !d.disposed ==> Tells(x, e.turns, e.chunks, Frames(d.log, id)))
  {
    ghost var x := Stream(d.encodes, Encode, Decode, Both(d, r), id, client, generation, totalSize, file, awaits);
    if id !in r.streams {
      e := Ending(0, [], if d.generation != generation then Stale else Cancelled, None);
      PumpTells(x, e.turns);
      return;
    }
    var n, chunks, reason := ReadAll(d, r, id, totalSize, generation, file, awaits, Encode, x);
    var threw, last := false, None;
    match reason {
      case End => threw, last := NotifyOwn(d, r, D.StreamEnd(id), x);
      case Error(code, message) => threw, last := NotifyOwn(d, r, D.StreamError(id, code, message), x);
      case _ =>
    }
    r.Release(id);
    e := Ending(n, chunks, reason, last);
    PumpTells(x, n);
  }

  lemma PumpTells(x: Stream, n: nat)
    requires Stops(x, n)
    ensures Startable(x) && !Ended(x, n).d.disposed ==>
      Tells(x, n, EndingAt(x, n).chunks, Frames(Ended(x, n).d.log, x.id))
  {
    if Startable(x) && !Ended(x, n).d.disposed {
      StoppedTells(x, n);
    }
  }
}
