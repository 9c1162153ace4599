/**
 * The output pipeline of Session.Exec: the frame pump, two unbuffered pipes, two
 * copiers, the chunk channel, the coordinator that publishes the result, and the
 * consumer that puts the chunks together again (sandbox/run.go:362-432, 477-528,
 * sandbox/stream.go:28-80, sandbox/session.go:1346-1375).
 *
 * Every interleaving of the goroutines and every chunking of the pipe reads is a
 * run of `Step`. In Exec nobody asks for a drain before the chunk channel is
 * closed, so `emit` is a plain channel send.
 */
module RunPipeline {
  import opened Wrappers

  type Bytes = seq<int>

  /** streamBufferSize. */
  const CAPACITY := 16

  /** The copiers' buffer, 32*1024 bytes. */
  const BUFFER := 32768

  /** How the run ends: the exit frame of a finished command, or any error. */
  datatype Outcome = Exited(code: int) | Failed(error: int)

  /** A response of the server; a broken stream is one that only carries its error. */
  datatype Frame =
    | Keepalive
    | Frame(stdout: Bytes, stderr: Bytes, exit: Option<Outcome>)
    | Broken(error: int)

  datatype Output = Output(data: Bytes, isStderr: bool)

  /** One value per output stream. */
  datatype Pair<T> = Pair(out: T, err: T) {
    function Get(stderr: bool): T {
      if stderr then err else out
    }
    function Set(stderr: bool, value: T): Pair<T> {
      if stderr then this.(err := value) else this.(out := value)
    }
  }

  datatype Pump =
    | AwaitFrame
    | Writing(stderr: bool, rest: Bytes, frame: Frame)
    | ClosingStderr
    | ClosingStdout
    | PumpDone

  datatype Copier = Reading | Emitting(chunk: Bytes) | CopierDone

  datatype Coordinator =
    | AwaitOutcome
    | AwaitCopiers(outcome: Outcome)
    | SignalReady
    | CloseChunks
    | CoordinatorDone

  /** `outputs` is what Exec has collected so far. */
  datatype Consumer =
    | Collecting(outputs: seq<Output>)
    | AtEnd(outputs: seq<Output>)
    | Returned(outputs: seq<Output>, result: ExecResult)

  /** ExecUnfinished stands for the placeholder result a Stream is created with. */
  datatype ExecResult =
    | ExecError(error: int)
    | ExecOk(code: int, stdout: Bytes, stderr: Bytes)
    | ExecUnfinished

  datatype State = State(
    server: seq<Frame>,          // frames the server has yet to deliver
    pump: Pump,
    accumulated: Pair<Bytes>,    // result.Stdout and result.Stderr of pumpResponses
    closed: Pair<bool>,          // the write ends of the two pipes
    posted: Option<Outcome>,     // waitCh or errCh, both of capacity one
    copier: Pair<Copier>,
    chunks: seq<Output>,
    coordinator: Coordinator,
    published: Option<Outcome>,  // Stream.result and Stream.err
    ready: bool,                 // resultReady is closed
    chunksClosed: bool,
    consumer: Consumer)

  function Initial(server: seq<Frame>): State {
    State(server, AwaitFrame, Pair([], []), Pair(false, false), None, Pair(Reading, Reading), [],
          AwaitOutcome, None, false, false, Collecting([]))
  }

  /** What is in an unbuffered pipe: the unread rest of a blocked Write. */
  function InPipe(s: State, stderr: bool): Bytes {
    if s.pump.Writing? && s.pump.stderr == stderr then s.pump.rest else []
  }

  function InCopier(s: State, stderr: bool): Bytes {
    var c := s.copier.Get(stderr);
    if c.Emitting? then c.chunk else []
  }

  /** The bytes of one stream in a list of chunks; also the re-aggregation loop of Exec. */
  function BytesOf(outputs: seq<Output>, stderr: bool): Bytes {
    if outputs == [] then []
    else BytesOf(outputs[..|outputs| - 1], stderr) +
         (if outputs[|outputs| - 1].isStderr == stderr then outputs[|outputs| - 1].data else [])
  }

  // ----- Steps -----

  /** After both writes of a frame: post the outcome and return, or read on. */
  function FinishFrame(s: State, exit: Option<Outcome>): State {
    if exit.Some? then s.(posted := exit, pump := ClosingStderr) else s.(pump := AwaitFrame)
  }

  /** Receive: stdout is accumulated, then written; an empty payload is not written. */
  function Receive(s: State): State
    requires s.server != []
  {
    var t := s.(server := s.server[1..]);
    match s.server[0]
    case Keepalive => t
    case Broken(e) => FinishFrame(t, Some(Failed(e)))
    case Frame(stdout, _, _) =>
      t.(accumulated := t.accumulated.Set(false, t.accumulated.out + stdout),
         pump := Writing(false, stdout, s.server[0]))
  }

  /** The pump's blocked Write has been read to the end. */
  function WriteReturns(s: State): State
    requires s.pump.Writing? && s.pump.frame.Frame?
  {
    var f := s.pump.frame;
    if s.pump.stderr then FinishFrame(s, f.exit)
    else s.(accumulated := s.accumulated.Set(true, s.accumulated.err + f.stderr), pump := Writing(true, f.stderr, f))
  }

  datatype Action =
    | PumpReceives
    | PumpWritten
    | PumpCloses
    | CopierReads(stderr: bool, n: nat)
    | CopierSeesEnd(stderr: bool)
    | CopierEmits(stderr: bool)
    | CoordinatorTakesOutcome
    | CoordinatorPublishes
    | CoordinatorSignals
    | CoordinatorClosesChunks
    | ConsumerNext
    | ConsumerSeesEnd
    | ConsumerReturns

  predicate Enabled(s: State, a: Action) {
    match a
    case PumpReceives => s.pump.AwaitFrame? && s.server != []
    case PumpWritten => s.pump.Writing? && s.pump.rest == [] && s.pump.frame.Frame?
    case PumpCloses => s.pump.ClosingStderr? || s.pump.ClosingStdout?
    case CopierReads(side, n) => s.copier.Get(side).Reading? && 0 < n <= |InPipe(s, side)| && n <= BUFFER
    case CopierSeesEnd(side) => s.copier.Get(side).Reading? && InPipe(s, side) == [] && s.closed.Get(side)
    case CopierEmits(side) => s.copier.Get(side).Emitting? && |s.chunks| < CAPACITY
    case CoordinatorTakesOutcome => s.coordinator.AwaitOutcome? && s.posted.Some?
    case CoordinatorPublishes => s.coordinator.AwaitCopiers? && s.copier == Pair(CopierDone, CopierDone)
    case CoordinatorSignals => s.coordinator.SignalReady?
    case CoordinatorClosesChunks => s.coordinator.CloseChunks?
    case ConsumerNext => s.consumer.Collecting? && s.chunks != []
    case ConsumerSeesEnd => s.consumer.Collecting? && s.chunks == [] && s.chunksClosed
    case ConsumerReturns => s.consumer.AtEnd? && s.ready
  }

  function Step(s: State, a: Action): State
    requires Enabled(s, a)
  {
    match a
    case PumpReceives => Receive(s)
    case PumpWritten => WriteReturns(s)
    case PumpCloses =>
      if s.pump.ClosingStderr? then s.(closed := s.closed.Set(true, true), pump := ClosingStdout)
      else s.(closed := s.closed.Set(false, true), pump := PumpDone)
    case CopierReads(side, n) =>
      s.(copier := s.copier.Set(side, Emitting(s.pump.rest[..n])), pump := s.pump.(rest := s.pump.rest[n..]))
    case CopierSeesEnd(side) => s.(copier := s.copier.Set(side, CopierDone))
    case CopierEmits(side) =>
      s.(chunks := s.chunks + [Output(s.copier.Get(side).chunk, side)], copier := s.copier.Set(side, Reading))
    case CoordinatorTakesOutcome => s.(posted := None, coordinator := AwaitCopiers(s.posted.value))
    case CoordinatorPublishes => s.(published := Some(s.coordinator.outcome), coordinator := SignalReady)
    case CoordinatorSignals => s.(ready := true, coordinator := CloseChunks)
    case CoordinatorClosesChunks => s.(chunksClosed := true, coordinator := CoordinatorDone)
    case ConsumerNext =>
      s.(chunks := s.chunks[1..], consumer := Collecting(s.consumer.outputs + [s.chunks[0]]))
    case ConsumerSeesEnd => s.(consumer := EndOfChunks(s))
    case ConsumerReturns => s.(consumer := Returned(s.consumer.outputs, ExecReturns(s)))
  }

  /** Next on a closed and empty channel: the published error, or io.EOF. */
  function EndOfChunks(s: State): Consumer {
    if s.published.Some? && s.published.value.Failed?
    then Returned(s.consumer.outputs, ExecError(s.published.value.error))
    else AtEnd(s.consumer.outputs)
  }

  /** Wait reads the published result; Exec replaces its output by the collected chunks. */
  function ExecReturns(s: State): ExecResult {
    match s.published
    case None => ExecUnfinished
    case Some(Failed(e)) => ExecError(e)
    case Some(Exited(code)) => ExecOk(code, BytesOf(s.consumer.outputs, false), BytesOf(s.consumer.outputs, true))
  }

  predicate IsRun(s: State, actions: seq<Action>)
    decreases |actions|
  {
    actions == [] || (Enabled(s, actions[0]) && IsRun(Step(s, actions[0]), actions[1..]))
  }

  function After(s: State, actions: seq<Action>): State
    requires IsRun(s, actions)
    decreases |actions|
  {
    if actions == [] then s else After(Step(s, actions[0]), actions[1..])
  }

  // ----- What the server sent -----

  /** The bytes of one stream up to and including the frame that ends the run. */
  function Sent(frames: seq<Frame>, stderr: bool): Bytes {
    if frames == [] then []
    else match frames[0]
      case Keepalive => Sent(frames[1..], stderr)
      case Broken(_) => []
      case Frame(out, err, exit) =>
        (if stderr then err else out) + (if exit.Some? then [] else Sent(frames[1..], stderr))
  }

  /** How the run ends, if the frames say. */
  function Ending(frames: seq<Frame>): Option<Outcome> {
    if frames == [] then None
    else match frames[0]
      case Keepalive => Ending(frames[1..])
      case Broken(e) => Some(Failed(e))
      case Frame(_, _, exit) => if exit.Some? then exit else Ending(frames[1..])
  }

  /** A frame that ends the run, and how. */
  predicate Ends(f: Frame, outcome: Outcome) {
    match f
    case Keepalive => false
    case Broken(e) => outcome == Failed(e)
    case Frame(_, _, exit) => exit == Some(outcome)
  }

  /** Frame n ends the run, and none before it does. */
  ghost predicate EndsAt(frames: seq<Frame>, n: int, outcome: Outcome) {
    && 0 <= n < |frames| && Ends(frames[n], outcome)
    && forall i, o :: 0 <= i < n ==> !Ends(frames[i], o)
  }

  /** The run ends as the first frame that ends it says. */
  lemma {:induction false} EndingIsFirst(frames: seq<Frame>, outcome: Outcome)
    ensures Ending(frames) == Some(outcome) <==> exists n :: EndsAt(frames, n, outcome)
    decreases |frames|
  {
    if frames != [] {
      if frames[0].Keepalive? || (frames[0].Frame? && frames[0].exit.None?) {
        EndingIsFirst(frames[1..], outcome);
        EndsLater(frames, outcome);
      } else {
        var o := if frames[0].Broken? then Failed(frames[0].error) else frames[0].exit.value;
        assert Ends(frames[0], o) && EndsAt(frames, 0, o);
      }
    }
  }

  lemma EndsLater(frames: seq<Frame>, outcome: Outcome)
    requires frames != [] && forall o :: !Ends(frames[0], o)
    ensures (exists n :: EndsAt(frames, n, outcome)) <==> exists n :: EndsAt(frames[1..], n, outcome)
  {
    var rest := frames[1..];
    assert forall i :: 0 <= i < |rest| ==> rest[i] == frames[i + 1];
    if exists n :: EndsAt(frames, n, outcome) {
      var n :| EndsAt(frames, n, outcome);
      assert EndsAt(rest, n - 1, outcome);
    }
    if exists n :: EndsAt(rest, n, outcome) {
      var n :| EndsAt(rest, n, outcome);
      forall i, o | 0 <= i < n + 1 ensures !Ends(frames[i], o) {
        assert i > 0 ==> !Ends(rest[i - 1], o);
      }
      assert EndsAt(frames, n + 1, outcome);
    }
  }

  /** The bytes a single frame carries for one stream. */
  function Payload(f: Frame, stderr: bool): Bytes {
    if !f.Frame? then [] else if stderr then f.stderr else f.stdout
  }

  /** The payloads of the first n frames, one after the other. */
  function Payloads(frames: seq<Frame>, n: nat, stderr: bool): Bytes
    requires n <= |frames|
  {
    if n == 0 then [] else Payloads(frames, n - 1, stderr) + Payload(frames[n - 1], stderr)
  }

  /** The stream broke or the command exited. */
  predicate Stops(f: Frame) {
    f.Broken? || (f.Frame? && f.exit.Some?)
  }

  /** What is sent are the payloads up to the frame that ends the run, or of all frames. */
  lemma {:induction false} SentIsPayloads(frames: seq<Frame>, n: nat, stderr: bool)
    requires n <= |frames| && forall i :: 0 <= i < n - 1 ==> !Stops(frames[i])
    requires n == |frames| || (n > 0 && Stops(frames[n - 1]))
    ensures Sent(frames, stderr) == Payloads(frames, n, stderr)
    decreases |frames|
  {
    if n > 0 {
      PayloadsFront(frames, n, stderr);
      NothingFirst(Payload(frames[0], stderr));
      if !Stops(frames[0]) {
        SentIsPayloads(frames[1..], n - 1, stderr);
        NothingFirst(Sent(frames[1..], stderr));
      }
    }
  }

  lemma {:induction false} PayloadsFront(frames: seq<Frame>, n: nat, stderr: bool)
    requires 0 < n <= |frames|
    ensures Payloads(frames, n, stderr) == Payload(frames[0], stderr) + Payloads(frames[1..], n - 1, stderr)
    decreases n
  {
    if n == 1 {
      NothingFirst(Payload(frames[0], stderr));
    } else {
      PayloadsFront(frames, n - 1, stderr);
      Assoc(Payload(frames[0], stderr), Payloads(frames[1..], n - 2, stderr), Payload(frames[n - 1], stderr));
    }
  }

  // ----- Invariant -----

  /** Bytes of one stream that the pump has still to accumulate. */
  function ToCome(s: State, stderr: bool): Bytes {
    match s.pump
    case AwaitFrame => Sent(s.server, stderr)
    case Writing(side, _, Frame(_, err, exit)) =>
      (if stderr && !side then err else []) + (if exit.Some? then [] else Sent(s.server, stderr))
    case _ => []
  }

  /** accumulated = consumed ++ in channel ++ in copier ++ in pipe, for one stream. */
  ghost predicate Conserved(s: State, stderr: bool) {
    s.accumulated.Get(stderr) ==
    BytesOf(s.consumer.outputs, stderr) + BytesOf(s.chunks, stderr) + InCopier(s, stderr) + InPipe(s, stderr)
  }

  /** The outcome the pump has posted, wherever it has got to. */
  function Decided(s: State): Option<Outcome> {
    match s.coordinator
    case AwaitOutcome => s.posted
    case AwaitCopiers(outcome) => Some(outcome)
    case _ => s.published
  }

  /** The pump's view of how the run will end. */
  function Expected(s: State): Option<Outcome> {
    match s.pump
    case AwaitFrame => Ending(s.server)
    case Writing(_, _, Frame(_, _, exit)) => if exit.Some? then exit else Ending(s.server)
    case _ => Decided(s)
  }

  ghost predicate ControlInv(s: State) {
    && (s.pump.Writing? ==> s.pump.frame.Frame?)
    && (s.closed.err <==> s.pump.ClosingStdout? || s.pump.PumpDone?)
    && (s.closed.out <==> s.pump.PumpDone?)
    && (Decided(s).Some? <==> s.pump.ClosingStderr? || s.pump.ClosingStdout? || s.pump.PumpDone?)
    && (s.posted.Some? ==> s.coordinator.AwaitOutcome?)
    && (s.copier.out.CopierDone? ==> s.closed.out)
    && (s.copier.err.CopierDone? ==> s.closed.err)
    && (s.copier.out.Emitting? ==> s.copier.out.chunk != [])
    && (s.copier.err.Emitting? ==> s.copier.err.chunk != [])
    && |s.chunks| <= CAPACITY
  }

  ghost predicate PublishedInv(s: State) {
    && (s.published.Some? <==>
          s.coordinator.SignalReady? || s.coordinator.CloseChunks? || s.coordinator.CoordinatorDone?)
    && (s.published.Some? ==> s.copier == Pair(CopierDone, CopierDone))
    && (s.ready <==> s.coordinator.CloseChunks? || s.coordinator.CoordinatorDone?)
    && (s.chunksClosed <==> s.coordinator.CoordinatorDone?)
    && (!s.consumer.Collecting? ==> s.chunksClosed && s.chunks == [])
    && (s.consumer.AtEnd? ==> s.published.Some? && s.published.value.Exited?)
    && (s.consumer.Returned? ==>
          s.published.Some? && s.consumer.result == ResultOf(s.published.value, s.consumer.outputs))
  }

  function ResultOf(outcome: Outcome, outputs: seq<Output>): ExecResult {
    match outcome
    case Failed(e) => ExecError(e)
    case Exited(code) => ExecOk(code, BytesOf(outputs, false), BytesOf(outputs, true))
  }

  /** What one stream has accumulated and will accumulate is what was sent. */
  ghost predicate Faithful(s: State, frames: seq<Frame>, stderr: bool) {
    s.accumulated.Get(stderr) + ToCome(s, stderr) == Sent(frames, stderr)
  }

  ghost predicate Inv(s: State, frames: seq<Frame>) {
    && ControlInv(s) && PublishedInv(s)
    && (forall side :: Conserved(s, side))
    && (forall side :: Faithful(s, frames, side))
    && Expected(s) == Ending(frames)
  }

  // ----- Preservation -----

  lemma {:induction false} BytesOfAppend(a: seq<Output>, b: seq<Output>, stderr: bool)
    ensures BytesOf(a + b, stderr) == BytesOf(a, stderr) + BytesOf(b, stderr)
  {
    if b == [] {
      assert a + b == a;
    } else {
      assert (a + b)[..|a + b| - 1] == a + b[..|b| - 1];
      BytesOfAppend(a, b[..|b| - 1], stderr);
    }
  }

  lemma PumpKeepsControl(s: State, a: Action)
    requires ControlInv(s) && PublishedInv(s) && Enabled(s, a) && (a.PumpReceives? || a.PumpWritten? || a.PumpCloses?)
    ensures ControlInv(Step(s, a)) && PublishedInv(Step(s, a))
  {
  }

  lemma CopierKeepsControl(s: State, a: Action)
    requires ControlInv(s) && PublishedInv(s) && Enabled(s, a)
    requires a.CopierReads? || a.CopierSeesEnd? || a.CopierEmits?
    ensures ControlInv(Step(s, a)) && PublishedInv(Step(s, a))
  {
  }

  lemma OthersKeepControl(s: State, a: Action)
    requires ControlInv(s) && PublishedInv(s) && Enabled(s, a)
    requires !a.PumpReceives? && !a.PumpWritten? && !a.PumpCloses?
    requires !a.CopierReads? && !a.CopierSeesEnd? && !a.CopierEmits?
    ensures ControlInv(Step(s, a)) && PublishedInv(Step(s, a))
  {
  }

  lemma StepKeepsControl(s: State, a: Action)
    requires ControlInv(s) && PublishedInv(s) && Enabled(s, a)
    ensures ControlInv(Step(s, a)) && PublishedInv(Step(s, a))
  {
    if a.PumpReceives? || a.PumpWritten? || a.PumpCloses? {
      PumpKeepsControl(s, a);
    } else if a.CopierReads? || a.CopierSeesEnd? || a.CopierEmits? {
      CopierKeepsControl(s, a);
    } else {
      OthersKeepControl(s, a);
    }
  }

  lemma StepKeepsExpected(s: State, a: Action)
    requires ControlInv(s) && PublishedInv(s) && Enabled(s, a)
    ensures Expected(Step(s, a)) == Expected(s)
  {
  }

  lemma Assoc(a: Bytes, b: Bytes, c: Bytes)
    ensures (a + b) + c == a + (b + c)
  {
  }

  lemma NothingFirst(b: Bytes)
    ensures [] + b == b && b + [] == b
  {
  }

  /** What the frame being written, and the server after it, still bring to one stream. */
  function Later(f: Frame, server: seq<Frame>, side: bool): Bytes
    requires f.Frame?
  {
    if f.exit.Some? then [] else Sent(server, side)
  }

  lemma ReceiveKeepsFaithful(s: State, frames: seq<Frame>, side: bool)
    requires s.pump.AwaitFrame? && s.server != [] && Faithful(s, frames, side)
    ensures Faithful(Receive(s), frames, side)
  {
    if s.server[0].Frame? {
      var t, f := Receive(s), s.server[0];
      var later := Later(f, t.server, side);
      NothingFirst(later);
      if side {
        assert ToCome(s, side) == ToCome(t, side) == f.stderr + later;
      } else {
        assert ToCome(s, side) == f.stdout + later && ToCome(t, side) == later;
        Assoc(s.accumulated.out, f.stdout, later);
        NothingFirst(s.accumulated.out);
      }
    }
  }

  lemma WriteReturnsKeepsFaithful(s: State, frames: seq<Frame>, side: bool)
    requires s.pump.Writing? && s.pump.frame.Frame? && Faithful(s, frames, side)
    ensures Faithful(WriteReturns(s), frames, side)
  {
    var t, f := WriteReturns(s), s.pump.frame;
    var later := Later(f, s.server, side);
    NothingFirst(later);
    if !s.pump.stderr && side {
      assert ToCome(s, side) == f.stderr + later && ToCome(t, side) == later;
      Assoc(s.accumulated.err, f.stderr, later);
      NothingFirst(s.accumulated.err);
    } else {
      assert ToCome(s, side) == later && ToCome(t, side) == later;
    }
  }

  /** The other steps accumulate nothing and leave the pump with what it has to bring. */
  lemma OtherStepsKeepFaithful(s: State, a: Action, frames: seq<Frame>, side: bool)
    requires ControlInv(s) && Enabled(s, a) && !a.PumpReceives? && !a.PumpWritten? && Faithful(s, frames, side)
    ensures Faithful(Step(s, a), frames, side)
  {
    var t := Step(s, a);
    assert t.accumulated == s.accumulated && t.server == s.server;
    assert s.pump.Writing? ==> t.pump.Writing? && t.pump.stderr == s.pump.stderr && t.pump.frame == s.pump.frame;
    assert ToCome(t, side) == ToCome(s, side);
  }

  lemma StepKeepsFaithful(s: State, a: Action, frames: seq<Frame>, side: bool)
    requires ControlInv(s) && Enabled(s, a) && Faithful(s, frames, side)
    ensures Faithful(Step(s, a), frames, side)
  {
    match a
    case PumpReceives => ReceiveKeepsFaithful(s, frames, side);
    case PumpWritten => WriteReturnsKeepsFaithful(s, frames, side);
    case _ => OtherStepsKeepFaithful(s, a, frames, side);
  }

  /** Moving bytes from the last of four parts to an empty third. */
  lemma LastMoves(a: Bytes, b: Bytes, d: Bytes, c1: Bytes, d1: Bytes)
    requires c1 + d1 == d
    ensures a + b + c1 + d1 == a + b + [] + d
  {
    NothingFirst(a + b);
    Assoc(a + b, c1, d1);
  }

  /** What a copier has read was in its pipe. */
  lemma ReadMoves(s: State, side: bool, n: nat)
    requires Enabled(s, CopierReads(side, n))
    ensures var t := Step(s, CopierReads(side, n));
            InCopier(s, side) == [] && InCopier(t, side) + InPipe(t, side) == InPipe(s, side)
  {
  }

  lemma ReadKeepsConserved(s: State, which: bool, n: nat, side: bool)
    requires Enabled(s, CopierReads(which, n)) && Conserved(s, side)
    ensures Conserved(Step(s, CopierReads(which, n)), side)
  {
    var t := Step(s, CopierReads(which, n));
    assert t.consumer == s.consumer && t.chunks == s.chunks && t.accumulated == s.accumulated;
    if which == side {
      ReadMoves(s, side, n);
      LastMoves(BytesOf(s.consumer.outputs, side), BytesOf(s.chunks, side), InPipe(s, side),
                InCopier(t, side), InPipe(t, side));
    } else {
      assert InPipe(t, side) == InPipe(s, side) && InCopier(t, side) == InCopier(s, side);
    }
  }

  /** Moving bytes between the middle two of four parts changes nothing as a whole. */
  lemma MiddleMoves(a: Bytes, b: Bytes, c: Bytes, d: Bytes, b1: Bytes, c1: Bytes)
    requires b1 + c1 == b + c
    ensures a + b1 + c1 + d == a + b + c + d
  {
    assert a + b1 + c1 == a + (b1 + c1);
    assert a + b + c == a + (b + c);
  }

  lemma BytesOfOne(o: Output, side: bool)
    ensures BytesOf([o], side) == if o.isStderr == side then o.data else []
  {
    assert [o][..0] == [];
  }

  /** What a copier held is in the channel afterwards. */
  lemma EmitMoves(s: State, which: bool, side: bool)
    requires Enabled(s, CopierEmits(which))
    ensures var t := Step(s, CopierEmits(which));
            BytesOf(t.chunks, side) + InCopier(t, side) == BytesOf(s.chunks, side) + InCopier(s, side)
  {
    var chunk := Output(s.copier.Get(which).chunk, which);
    BytesOfAppend(s.chunks, [chunk], side);
    BytesOfOne(chunk, side);
  }

  lemma EmitKeepsConserved(s: State, which: bool, side: bool)
    requires Enabled(s, CopierEmits(which)) && Conserved(s, side)
    ensures Conserved(Step(s, CopierEmits(which)), side)
  {
    var t := Step(s, CopierEmits(which));
    EmitMoves(s, which, side);
    assert t.consumer == s.consumer && t.accumulated == s.accumulated && InPipe(t, side) == InPipe(s, side);
    MiddleMoves(BytesOf(s.consumer.outputs, side), BytesOf(s.chunks, side), InCopier(s, side), InPipe(s, side),
                BytesOf(t.chunks, side), InCopier(t, side));
  }

  lemma FirstMoves(taken: seq<Output>, chunks: seq<Output>, side: bool)
    requires chunks != []
    ensures BytesOf(taken + [chunks[0]], side) + BytesOf(chunks[1..], side) ==
            BytesOf(taken, side) + BytesOf(chunks, side)
  {
    assert chunks == [chunks[0]] + chunks[1..];
    BytesOfAppend([chunks[0]], chunks[1..], side);
    BytesOfAppend(taken, [chunks[0]], side);
  }

  lemma NextKeepsConserved(s: State, side: bool)
    requires Enabled(s, ConsumerNext) && Conserved(s, side)
    ensures Conserved(Step(s, ConsumerNext), side)
  {
    var t := Step(s, ConsumerNext);
    FirstMoves(s.consumer.outputs, s.chunks, side);
    assert InPipe(t, side) == InPipe(s, side) && InCopier(t, side) == InCopier(s, side);
  }

  /** When the pump moves on, nothing was left in the pipe it wrote to. */
  lemma PumpKeepsConserved(s: State, t: State, side: bool)
    requires Conserved(s, side) && InPipe(s, side) == []
    requires t.consumer == s.consumer && t.chunks == s.chunks && t.copier == s.copier
    requires t.accumulated.Get(side) == s.accumulated.Get(side) + InPipe(t, side)
    ensures Conserved(t, side)
  {
  }

  lemma ReceiveKeepsConserved(s: State, side: bool)
    requires Enabled(s, PumpReceives) && Conserved(s, side)
    ensures Conserved(Step(s, PumpReceives), side)
  {
    PumpKeepsConserved(s, Step(s, PumpReceives), side);
  }

  lemma WrittenKeepsConserved(s: State, side: bool)
    requires ControlInv(s) && Enabled(s, PumpWritten) && Conserved(s, side)
    ensures Conserved(Step(s, PumpWritten), side)
  {
    PumpKeepsConserved(s, Step(s, PumpWritten), side);
  }

  /** A step that touches no byte on its way. */
  lemma QuietKeepsConserved(s: State, a: Action, side: bool)
    requires Enabled(s, a) && Conserved(s, side)
    requires a.PumpCloses? || a.CopierSeesEnd? || a.CoordinatorTakesOutcome? || a.CoordinatorPublishes?
             || a.CoordinatorSignals? || a.CoordinatorClosesChunks? || a.ConsumerSeesEnd? || a.ConsumerReturns?
    ensures Conserved(Step(s, a), side)
  {
    var t := Step(s, a);
    assert t.accumulated == s.accumulated && t.chunks == s.chunks && t.consumer.outputs == s.consumer.outputs;
    assert InPipe(t, side) == InPipe(s, side) && InCopier(t, side) == InCopier(s, side);
  }

  lemma StepKeepsConserved(s: State, a: Action, side: bool)
    requires ControlInv(s) && Enabled(s, a) && Conserved(s, side)
    ensures Conserved(Step(s, a), side)
  {
    match a
    case PumpReceives => ReceiveKeepsConserved(s, side);
    case PumpWritten => WrittenKeepsConserved(s, side);
    case CopierReads(which, n) => ReadKeepsConserved(s, which, n, side);
    case CopierEmits(which) => EmitKeepsConserved(s, which, side);
    case ConsumerNext => NextKeepsConserved(s, side);
    case _ => QuietKeepsConserved(s, a, side);
  }

  lemma StepKeepsInv(s: State, a: Action, frames: seq<Frame>)
    requires Inv(s, frames) && Enabled(s, a)
    ensures Inv(Step(s, a), frames)
  {
    StepKeepsControl(s, a);
    StepKeepsExpected(s, a);
    forall side ensures Conserved(Step(s, a), side) && Faithful(Step(s, a), frames, side) {
      StepKeepsConserved(s, a, side);
      StepKeepsFaithful(s, a, frames, side);
    }
  }

  lemma {:induction false} RunKeepsInv(s: State, actions: seq<Action>, frames: seq<Frame>)
    requires Inv(s, frames) && IsRun(s, actions)
    ensures Inv(After(s, actions), frames)
    decreases |actions|
  {
    if actions != [] {
      StepKeepsInv(s, actions[0], frames);
      RunKeepsInv(Step(s, actions[0]), actions[1..], frames);
    }
  }

  ghost predicate Reachable(s: State, frames: seq<Frame>) {
    exists actions :: IsRun(Initial(frames), actions) && After(Initial(frames), actions) == s
  }

  lemma ReachableInv(s: State, frames: seq<Frame>)
    requires Reachable(s, frames)
    ensures Inv(s, frames)
  {
    var actions :| IsRun(Initial(frames), actions) && After(Initial(frames), actions) == s;
    RunKeepsInv(Initial(frames), actions, frames);
  }

  // ----- Theorems -----

  /**
   * Byte conservation: whenever Exec returns a result, its two streams are what
   * the pump accumulated, which is byte for byte what the server sent, for every
   * frame sequence, chunking and interleaving; and the exit code is the server's.
   */
  lemma ByteConservation(s: State, frames: seq<Frame>)
    requires Reachable(s, frames) && s.consumer.Returned?
    ensures match Ending(frames)
            case Some(Exited(code)) =>
              && s.consumer.result == ExecOk(code, Sent(frames, false), Sent(frames, true))
              && s.accumulated == Pair(Sent(frames, false), Sent(frames, true))
            case Some(Failed(e)) => s.consumer.result == ExecError(e)
            case None => false
  {
    ReachableInv(s, frames);
    forall side
      ensures s.accumulated.Get(side) == Sent(frames, side) == BytesOf(s.consumer.outputs, side)
    {
      assert Conserved(s, side) && Faithful(s, frames, side);
      assert ToCome(s, side) == [];
      assert BytesOf(s.chunks, side) == [] && InCopier(s, side) == [] && InPipe(s, side) == [];
    }
    assert s.accumulated.Get(false) == s.accumulated.out && s.accumulated.Get(true) == s.accumulated.err;
  }

  /** At every moment of every run nothing accumulated is lost, repeated or reordered. */
  lemma NothingLostOnTheWay(s: State, frames: seq<Frame>, stderr: bool)
    requires Reachable(s, frames)
    ensures s.accumulated.Get(stderr) ==
            BytesOf(s.consumer.outputs, stderr) + BytesOf(s.chunks, stderr) + InCopier(s, stderr) + InPipe(s, stderr)
    ensures s.accumulated.Get(stderr) <= Sent(frames, stderr)
  {
    ReachableInv(s, frames);
    assert Conserved(s, stderr) && Faithful(s, frames, stderr);
  }

  /** Next reports the end only after the result is published and both copiers are gone. */
  lemma EndAfterResult(s: State, frames: seq<Frame>)
    requires Reachable(s, frames) && Enabled(s, ConsumerSeesEnd)
    ensures s.ready && s.published.Some? && s.published == Ending(frames)
    ensures s.copier == Pair(CopierDone, CopierDone)
  {
    ReachableInv(s, frames);
  }

  /** An action that can happen now, or None when only the server can move. */
  function Somebody(s: State): Option<Action> {
    if s.pump.AwaitFrame? then (if s.server != [] then Some(PumpReceives) else None)
    else if s.pump.ClosingStderr? || s.pump.ClosingStdout? then Some(PumpCloses)
    else if s.chunks != [] && s.consumer.Collecting? then Some(ConsumerNext)
    else if s.copier.err.Emitting? then Some(CopierEmits(true))
    else if s.copier.out.Emitting? then Some(CopierEmits(false))
    else if s.pump.Writing? then
      (if s.pump.rest == [] then Some(PumpWritten)
       else Some(CopierReads(s.pump.stderr, if |s.pump.rest| < BUFFER then |s.pump.rest| else BUFFER)))
    else if s.copier.out.Reading? then Some(CopierSeesEnd(false))
    else if s.copier.err.Reading? then Some(CopierSeesEnd(true))
    else match s.coordinator
      case AwaitOutcome => Some(CoordinatorTakesOutcome)
      case AwaitCopiers(_) => Some(CoordinatorPublishes)
      case SignalReady => Some(CoordinatorSignals)
      case CloseChunks => Some(CoordinatorClosesChunks)
      case CoordinatorDone => if s.consumer.AtEnd? then Some(ConsumerReturns) else Some(ConsumerSeesEnd)
  }

  /** While the pump has work, or chunks are on their way. */
  lemma SomebodyCarriesOn(s: State)
    requires ControlInv(s) && PublishedInv(s)
    requires !s.pump.PumpDone? || s.copier != Pair(CopierDone, CopierDone) || s.chunks != []
    ensures (s.pump.AwaitFrame? && s.server == []) || (Somebody(s).Some? && Enabled(s, Somebody(s).value))
  {
  }

  /** Once the pump and the copiers are done. */
  lemma SomebodyFinishes(s: State)
    requires ControlInv(s) && PublishedInv(s) && !s.consumer.Returned?
    requires s.pump.PumpDone? && s.copier == Pair(CopierDone, CopierDone) && s.chunks == []
    ensures Somebody(s).Some? && Enabled(s, Somebody(s).value)
  {
  }

  /** No deadlock: before Exec returns, somebody can move or the pump awaits a frame. */
  lemma NoDeadlock(s: State, frames: seq<Frame>)
    requires Reachable(s, frames) && !s.consumer.Returned?
    ensures (s.pump.AwaitFrame? && s.server == []) || (Somebody(s).Some? && Enabled(s, Somebody(s).value))
  {
    ReachableInv(s, frames);
    if s.pump.PumpDone? && s.copier == Pair(CopierDone, CopierDone) && s.chunks == [] {
      SomebodyFinishes(s);
    } else {
      SomebodyCarriesOn(s);
    }
  }

  /** Once the server has said how the run ends, a run that cannot go on has returned. */
  lemma StuckMeansReturned(s: State, frames: seq<Frame>)
    requires Reachable(s, frames) && Ending(frames).Some?
    requires forall a :: !Enabled(s, a)
    ensures s.consumer.Returned?
  {
    ReachableInv(s, frames);
    if !s.consumer.Returned? {
      NoDeadlock(s, frames);
    }
  }

  // ----- Runs are finite -----

  /** The steps that the frames not yet received can cause at most. */
  function FrameWork(frames: seq<Frame>): nat {
    if frames == [] then 0
    else FrameWork(frames[1..]) + 8 +
         (if frames[0].Frame? then 4 * |frames[0].stdout| + 4 * |frames[0].stderr| else 0)
  }

  function PumpWork(p: Pump): nat {
    match p
    case AwaitFrame => 3
    case Writing(stderr, rest, f) =>
      4 * |rest| + (if stderr then 6 else 7 + (if f.Frame? then 4 * |f.stderr| else 0))
    case ClosingStderr => 2
    case ClosingStdout => 1
    case PumpDone => 0
  }

  function CopierWork(c: Copier): nat {
    match c
    case Reading => 1
    case Emitting(_) => 3
    case CopierDone => 0
  }

  function ConsumerWork(c: Consumer): nat {
    match c
    case Collecting(_) => 2
    case AtEnd(_) => 1
    case Returned(_, _) => 0
  }

  function CoordinatorWork(c: Coordinator): nat {
    match c
    case AwaitOutcome => 4
    case AwaitCopiers(_) => 3
    case SignalReady => 2
    case CloseChunks => 1
    case CoordinatorDone => 0
  }

  function Work(s: State): nat {
    FrameWork(s.server) + PumpWork(s.pump) + CopierWork(s.copier.out) + CopierWork(s.copier.err) +
    |s.chunks| + CoordinatorWork(s.coordinator) + ConsumerWork(s.consumer)
  }

  /** Every step of every goroutine uses up some of the work. */
  lemma StepUsesWork(s: State, a: Action)
    requires ControlInv(s) && PublishedInv(s) && Enabled(s, a)
    ensures Work(Step(s, a)) < Work(s)
  {
  }

  /**
   * A run has at most as many steps as the frames call for, so together with
   * StuckMeansReturned every scheduling of Exec ends in a returned result.
   */
  lemma {:induction false} RunsAreFinite(s: State, actions: seq<Action>, frames: seq<Frame>)
    requires Inv(s, frames) && IsRun(s, actions)
    ensures |actions| + Work(After(s, actions)) <= Work(s)
    decreases |actions|
  {
    if actions != [] {
      StepKeepsInv(s, actions[0], frames);
      StepUsesWork(s, actions[0]);
      RunsAreFinite(Step(s, actions[0]), actions[1..], frames);
    }
  }

  /** The whole budget of an Exec on these frames. */
  lemma RunLength(frames: seq<Frame>, actions: seq<Action>)
    requires IsRun(Initial(frames), actions)
    ensures |actions| <= FrameWork(frames) + 11
  {
    RunsAreFinite(Initial(frames), actions, frames);
  }

  /** What Exec owes its caller for the frames of a server that says how the run ends. */
  function Promised(frames: seq<Frame>): ExecResult
    requires Ending(frames).Some?
  {
    match Ending(frames).value
    case Exited(code) => ExecOk(code, Sent(frames, false), Sent(frames, true))
    case Failed(e) => ExecError(e)
  }

  /**
   * Total correctness of Exec: however its goroutines are scheduled and its reads
   * chunked, every run is bounded, and one that cannot go on has returned the exit
   * code and all the bytes the server sent, or the server's error.
   */
  lemma ExecTerminates(frames: seq<Frame>, actions: seq<Action>)
    requires IsRun(Initial(frames), actions)
    requires Ending(frames).Some? && forall a :: !Enabled(After(Initial(frames), actions), a)
    ensures |actions| <= FrameWork(frames) + 11
    ensures var consumer := After(Initial(frames), actions).consumer;
            consumer.Returned? && consumer.result == Promised(frames)
  {
    var s := After(Initial(frames), actions);
    RunLength(frames, actions);
    assert Reachable(s, frames);
    StuckMeansReturned(s, frames);
    ByteConservation(s, frames);
  }
}
