/**
 * The sub-stream multiplexer of a host-port tunnel: the receive loop forward, one
 * pump for every host connection, and the wire they share (sandbox/tunnel.go:177-237,
 * 256-287).
 *
 * Every block under a mutex, every send, receive, read, write and dial is one step
 * of the loop or of some pump, and any interleaving of them is a run. `wire` is
 * what was handed to the stream's Send, which is taken to succeed.
 */
module TunnelMultiplex {
  import opened Wrappers

  type Bytes = seq<int>
  type Id = nat

  /** The pump's buffer, 32*1024 bytes. */
  const BUFFER := 32768

  datatype Response =
    | Accept(id: Id)
    | Data(id: Id, payload: Bytes)
    | HalfClose(id: Id)
    | Close(id: Id)
    | Ping(pingId: nat)
    | Terminated
    | Ignored

  datatype Request =
    | DataOut(id: Id, payload: Bytes)
    | HalfCloseOut(id: Id)
    | CloseOut(id: Id)
    | Pong(pingId: nat)

  /** How a read ends the pump. */
  datatype End = Eof | ReadError

  /** `found` says whether the pump still had an entry to delete. */
  datatype Pump =
    | Reading
    | Carrying(chunk: Bytes, ending: Option<End>)
    | Finishing(end: End)
    | Forgetting(end: End)
    | Stopped(end: End, found: bool)

  /**
   * A host connection; `from` and `until` are the number of frames received when
   * it was entered into conns and when it was removed.
   */
  datatype Conn = Conn(id: Id, pump: Pump, read: Bytes, written: seq<Bytes>, writeClosed: bool, closed: bool,
                       from: nat, until: Option<nat>)

  datatype Loop =
    | Receiving
    | Dialing(id: Id)
    | Refusing(id: Id)
    | Writing(conn: nat, payload: Bytes)
    | HalfClosing(conn: nat)
    | Shutting(conn: nat)
    | Answering(pingId: nat)
    | Leaving
    | Exited

  datatype State = State(
    input: seq<Response>,   // every frame the engine will ever send
    position: nat,          // how many were received
    loop: Loop,
    conns: map<Id, nat>,
    all: seq<Conn>,
    refused: set<Id>,       // ids whose dial failed and that were sent their Close
    wire: seq<Request>,
    sdkClosed: bool)

  function Initial(input: seq<Response>): State {
    State(input, 0, Receiving, map[], [], {}, [], false)
  }

  datatype Event =
    | Receive
    | ReceiveFails
    | Dialed(ok: bool)
    | Refuse
    | Write
    | CloseWrite
    | CloseConn
    | SendPong
    | Leave
    | Read(conn: nat, chunk: Bytes, end: Option<End>)
    | Carry(conn: nat)
    | Finish(conn: nat)
    | Forget(conn: nat)
    | SdkClose

  predicate Enabled(s: State, e: Event) {
    match e
    case Receive => s.loop.Receiving? && s.position < |s.input|
    case ReceiveFails => s.loop.Receiving?
    case Dialed(_) => s.loop.Dialing?
    case Refuse => s.loop.Refusing?
    case Write => s.loop.Writing? && s.loop.conn < |s.all|
    case CloseWrite => s.loop.HalfClosing? && s.loop.conn < |s.all|
    case CloseConn => s.loop.Shutting? && s.loop.conn < |s.all|
    case SendPong => s.loop.Answering?
    case Leave => s.loop.Leaving?
    case Read(c, chunk, _) => c < |s.all| && s.all[c].pump.Reading? && |chunk| <= BUFFER
    case Carry(c) => c < |s.all| && s.all[c].pump.Carrying?
    case Finish(c) => c < |s.all| && s.all[c].pump.Finishing?
    case Forget(c) => c < |s.all| && s.all[c].pump.Forgetting?
    case SdkClose => !s.sdkClosed
  }

  function Put(s: State, frame: Request): State {
    s.(wire := s.wire + [frame])
  }

  /** delete(conns, id). */
  function Unregister(s: State, id: Id): State {
    if id in s.conns && s.conns[id] < |s.all| then
      var c := s.conns[id];
      s.(conns := s.conns - {id}, all := s.all[c := s.all[c].(until := Some(s.position))])
    else s
  }

  /** conns[id] = conn, which displaces an older connection of the same id. */
  function Register(s: State, id: Id): State {
    var t := Unregister(s, id);
    t.(conns := t.conns[id := |t.all|],
       all := t.all + [Conn(id, Reading, [], [], false, false, s.position, None)])
  }

  /** The deferred function of forward. */
  function CloseAll(s: State): State {
    s.(conns := map[],
       all := seq(|s.all|, c requires 0 <= c < |s.all| =>
                if s.all[c].until.None? then s.all[c].(closed := true, until := Some(s.position)) else s.all[c]))
  }

  /** One frame of the engine. */
  function Dispatch(s: State, frame: Response): State {
    match frame
    case Accept(id) => s.(loop := Dialing(id))
    case Data(id, payload) => if id in s.conns then s.(loop := Writing(s.conns[id], payload)) else s
    case HalfClose(id) => if id in s.conns then s.(loop := HalfClosing(s.conns[id])) else s
    case Close(id) => if id in s.conns then Unregister(s, id).(loop := Shutting(s.conns[id])) else s
    case Ping(pingId) => s.(loop := Answering(pingId))
    case Terminated => s.(loop := Leaving)
    case Ignored => s
  }

  /** After a read: a Data frame if bytes came, then the frame for the end if there is one. */
  function AfterRead(chunk: Bytes, end: Option<End>): Pump {
    if |chunk| > 0 then Carrying(chunk, end) else AfterChunk(end)
  }

  function AfterChunk(end: Option<End>): Pump {
    if end.Some? then Finishing(end.value) else Reading
  }

  function EndFrame(id: Id, end: End): Request {
    if end.Eof? then HalfCloseOut(id) else CloseOut(id)
  }

  function SetPump(s: State, c: nat, pump: Pump): State
    requires c < |s.all|
  {
    s.(all := s.all[c := s.all[c].(pump := pump)])
  }

  function Apply(s: State, e: Event): State
    requires Enabled(s, e)
  {
    match e
    case Receive => Dispatch(s.(position := s.position + 1), s.input[s.position])
    case ReceiveFails => s.(loop := Leaving)
    case Dialed(ok) =>
      if ok then Register(s, s.loop.id).(loop := Receiving) else s.(loop := Refusing(s.loop.id))
    case Refuse =>
      Put(s, CloseOut(s.loop.id)).(refused := s.refused + {s.loop.id}, loop := Receiving)
    case Write =>
      var k := s.all[s.loop.conn];
      s.(all := s.all[s.loop.conn := k.(written := k.written + [s.loop.payload])], loop := Receiving)
    case CloseWrite =>
      s.(all := s.all[s.loop.conn := s.all[s.loop.conn].(writeClosed := true)], loop := Receiving)
    case CloseConn =>
      s.(all := s.all[s.loop.conn := s.all[s.loop.conn].(closed := true)], loop := Receiving)
    case SendPong => Put(s, Pong(s.loop.pingId)).(loop := Receiving)
    case Leave => CloseAll(s).(loop := Exited)
    case Read(c, chunk, end) =>
      s.(all := s.all[c := s.all[c].(read := s.all[c].read + chunk, pump := AfterRead(chunk, end))])
    case Carry(c) =>
      SetPump(Put(s, DataOut(s.all[c].id, s.all[c].pump.chunk)), c, AfterChunk(s.all[c].pump.ending))
    case Finish(c) =>
      SetPump(Put(s, EndFrame(s.all[c].id, s.all[c].pump.end)), c, Forgetting(s.all[c].pump.end))
    case Forget(c) =>
      var id := s.all[c].id;
      SetPump(Unregister(s, id), c, Stopped(s.all[c].pump.end, id in s.conns))
    case SdkClose => Put(s, CloseOut(0)).(sdkClosed := true)
  }

  predicate IsRun(s: State, run: seq<Event>)
    decreases |run|
  {
    run == [] || (Enabled(s, run[0]) && IsRun(Apply(s, run[0]), run[1..]))
  }

  function After(s: State, run: seq<Event>): State
    requires IsRun(s, run)
    decreases |run|
  {
    if run == [] then s else After(Apply(s, run[0]), run[1..])
  }

  ghost predicate Reachable(s: State) {
    exists run :: IsRun(Initial(s.input), run) && After(Initial(s.input), run) == s
  }

  lemma {:induction false} ReachesMore(s: State, run: seq<Event>, e: Event)
    requires IsRun(s, run) && Enabled(After(s, run), e)
    ensures IsRun(s, run + [e]) && After(s, run + [e]) == Apply(After(s, run), e)
    decreases |run|
  {
    if run != [] {
      assert (run + [e])[1..] == run[1..] + [e];
      ReachesMore(Apply(s, run[0]), run[1..], e);
    }
  }

  lemma ReachableStep(s: State, e: Event)
    requires Reachable(s) && Enabled(s, e)
    ensures Reachable(Apply(s, e))
  {
    var run :| IsRun(Initial(s.input), run) && After(Initial(s.input), run) == s;
    assert Apply(s, e).input == s.input;
    ReachesMore(Initial(s.input), run, e);
  }

  // ----- Registration: which connection stands for which id -----

  /** conns holds exactly the connections that have not been removed. */
  ghost predicate Lookup(conns: map<Id, nat>, all: seq<Conn>) {
    && (forall id :: id in conns ==> conns[id] < |all| && all[conns[id]].id == id && all[conns[id]].until.None?)
    && (forall c :: 0 <= c < |all| && all[c].until.None? ==> all[c].id in conns && conns[all[c].id] == c)
  }

  /** A connection was entered right after its Accept, and removed no earlier. */
  ghost predicate Dated(k: Conn, input: seq<Response>, position: nat) {
    && 0 < k.from <= position <= |input|
    && input[k.from - 1] == Accept(k.id)
    && (k.until.Some? ==> k.from <= k.until.value <= position)
  }

  ghost predicate Origin(all: seq<Conn>, input: seq<Response>, position: nat) {
    forall c :: 0 <= c < |all| ==> Dated(all[c], input, position)
  }

  ghost predicate LoopInv(s: State) {
    && s.position <= |s.input|
    && (s.loop.Writing? || s.loop.HalfClosing? || s.loop.Shutting? ==> s.loop.conn < |s.all|)
    && (s.loop.Dialing? || s.loop.Refusing? ==> s.position > 0 && s.input[s.position - 1] == Accept(s.loop.id))
    && (s.loop.Exited? ==> s.conns == map[])
  }

  ghost predicate Registered(s: State) {
    Lookup(s.conns, s.all) && Origin(s.all, s.input, s.position) && LoopInv(s)
  }

  /** Nothing that the table is about changed. */
  predicate SameEntries(all: seq<Conn>, others: seq<Conn>) {
    && |all| == |others|
    && forall c :: 0 <= c < |all| ==>
         others[c].id == all[c].id && others[c].from == all[c].from && others[c].until == all[c].until
  }

  lemma SameEntriesKeep(conns: map<Id, nat>, all: seq<Conn>, others: seq<Conn>, input: seq<Response>, position: nat)
    requires Lookup(conns, all) && Origin(all, input, position) && SameEntries(all, others)
    ensures Lookup(conns, others) && Origin(others, input, position)
  {
  }

  lemma UnregisterKeeps(s: State, id: Id)
    requires Lookup(s.conns, s.all) && Origin(s.all, s.input, s.position)
    ensures var t := Unregister(s, id);
            && Lookup(t.conns, t.all) && Origin(t.all, s.input, s.position)
            && id !in t.conns && |t.all| == |s.all|
  {
    if id in s.conns {
      assert Dated(s.all[s.conns[id]], s.input, s.position);
    }
  }

  lemma RegisterKeeps(s: State, id: Id)
    requires Lookup(s.conns, s.all) && Origin(s.all, s.input, s.position)
    requires 0 < s.position <= |s.input| && s.input[s.position - 1] == Accept(id)
    ensures var t := Register(s, id);
            Lookup(t.conns, t.all) && Origin(t.all, s.input, s.position) && |t.all| == |s.all| + 1
  {
    UnregisterKeeps(s, id);
  }

  lemma CloseAllKeeps(s: State)
    requires Lookup(s.conns, s.all) && Origin(s.all, s.input, s.position)
    ensures var t := CloseAll(s);
            Lookup(t.conns, t.all) && Origin(t.all, s.input, s.position) && |t.all| == |s.all|
  {
    var t := CloseAll(s);
    forall c | 0 <= c < |t.all| ensures Dated(t.all[c], s.input, s.position) {
      assert Dated(s.all[c], s.input, s.position);
    }
  }

  lemma OriginLater(s: State)
    requires Origin(s.all, s.input, s.position) && s.position < |s.input|
    ensures Origin(s.all, s.input, s.position + 1)
  {
    forall c | 0 <= c < |s.all| ensures Dated(s.all[c], s.input, s.position + 1) {
      assert Dated(s.all[c], s.input, s.position);
    }
  }

  lemma ReceiveKeepsRegistered(s: State)
    requires Registered(s) && Enabled(s, Receive)
    ensures Registered(Apply(s, Receive))
  {
    OriginLater(s);
    if s.input[s.position].Close? {
      UnregisterKeeps(s.(position := s.position + 1), s.input[s.position].id);
    }
  }

  lemma LoopKeepsRegistered(s: State, e: Event)
    requires Registered(s) && Enabled(s, e)
    requires e.Dialed? || e.Refuse? || e.Write? || e.CloseWrite? || e.CloseConn?
    ensures Registered(Apply(s, e))
  {
    if e == Dialed(true) {
      RegisterKeeps(s, s.loop.id);
    } else {
      SameEntriesKeep(s.conns, s.all, Apply(s, e).all, s.input, s.position);
    }
  }

  lemma PumpKeepsRegistered(s: State, e: Event)
    requires Registered(s) && Enabled(s, e)
    requires e.Read? || e.Carry? || e.Finish?
    ensures Registered(Apply(s, e))
  {
    SameEntriesKeep(s.conns, s.all, Apply(s, e).all, s.input, s.position);
  }

  lemma ForgetKeepsRegistered(s: State, c: nat)
    requires Registered(s) && Enabled(s, Forget(c))
    ensures Registered(Apply(s, Forget(c)))
  {
    UnregisterKeeps(s, s.all[c].id);
    var t := Unregister(s, s.all[c].id);
    SameEntriesKeep(t.conns, t.all, Apply(s, Forget(c)).all, s.input, s.position);
  }

  lemma RegisteredKeeps(s: State, e: Event)
    requires Registered(s) && Enabled(s, e)
    ensures Registered(Apply(s, e))
  {
    match e {
      case Receive => ReceiveKeepsRegistered(s);
      case Dialed(_) => LoopKeepsRegistered(s, e);
      case Refuse => LoopKeepsRegistered(s, e);
      case Write => LoopKeepsRegistered(s, e);
      case CloseWrite => LoopKeepsRegistered(s, e);
      case CloseConn => LoopKeepsRegistered(s, e);
      case Leave => CloseAllKeeps(s);
      case Read(_, _, _) => PumpKeepsRegistered(s, e);
      case Carry(_) => PumpKeepsRegistered(s, e);
      case Finish(_) => PumpKeepsRegistered(s, e);
      case Forget(c) => ForgetKeepsRegistered(s, c);
      case ReceiveFails =>
      case SendPong =>
      case SdkClose =>
    }
  }

  // ----- Inbound -----

  /** The payloads addressed to an id, in order. */
  function PayloadsFor(frames: seq<Response>, id: Id): seq<Bytes> {
    if frames == [] then []
    else
      var last := frames[|frames| - 1];
      PayloadsFor(frames[..|frames| - 1], id) + (if last.Data? && last.id == id then [last.payload] else [])
  }

  /** The frames that arrived while a connection was registered. */
  function Window(k: Conn, input: seq<Response>, position: nat): seq<Response> {
    var stop := if k.until.Some? then k.until.value else position;
    if k.from <= stop <= |input| then input[k.from..stop] else []
  }

  /** What the loop is about to write to a connection. */
  function InFlight(loop: Loop, c: nat): seq<Bytes> {
    if loop.Writing? && loop.conn == c then [loop.payload] else []
  }

  ghost predicate DeliveredTo(s: State, c: nat) {
    && c < |s.all|
    && s.all[c].written + InFlight(s.loop, c) == PayloadsFor(Window(s.all[c], s.input, s.position), s.all[c].id)
  }

  ghost predicate Delivered(s: State) {
    forall c :: 0 <= c < |s.all| ==> DeliveredTo(s, c)
  }

  // What a step means for one connection, without what it is due.

  /** No frame received, nothing written. */
  ghost predicate Kept(s: State, t: State, c: nat) {
    && c < |s.all| && c < |t.all| && t.input == s.input && t.position == s.position
    && t.all[c].written == s.all[c].written && t.all[c].id == s.all[c].id
    && InFlight(t.loop, c) == InFlight(s.loop, c)
    && Window(t.all[c], s.input, s.position) == Window(s.all[c], s.input, s.position)
  }

  /** The payload on its way to it is written. */
  ghost predicate Flushed(s: State, t: State, c: nat) {
    && c < |s.all| && c < |t.all| && t.input == s.input && t.position == s.position
    && t.all[c] == s.all[c].(written := s.all[c].written + InFlight(s.loop, c))
    && InFlight(t.loop, c) == []
  }

  /** A frame that is no data for it. */
  ghost predicate Passed(s: State, t: State, c: nat) {
    && c < |s.all| && c < |t.all| && t.input == s.input && t.position == s.position + 1 <= |s.input|
    && t.all[c].written == s.all[c].written && t.all[c].id == s.all[c].id
    && InFlight(t.loop, c) == InFlight(s.loop, c)
    && Window(t.all[c], s.input, s.position + 1) == Window(s.all[c], s.input, s.position + 1)
    && !IsDataFor(s.all[c], s.input[s.position])
  }

  /** A frame that is data for it. */
  ghost predicate Caught(s: State, t: State, c: nat) {
    && c < |s.all| && c < |t.all| && t.input == s.input && t.position == s.position + 1 <= |s.input|
    && t.all[c] == s.all[c] && IsDataFor(s.all[c], s.input[s.position])
    && InFlight(s.loop, c) == [] && InFlight(t.loop, c) == [s.input[s.position].payload]
  }

  /** It has just been entered. */
  ghost predicate Entered(t: State, c: nat) {
    && c < |t.all| && t.all[c].from == t.position && t.all[c].until.None?
    && t.all[c].written == [] && InFlight(t.loop, c) == []
  }

  predicate IsDataFor(k: Conn, frame: Response) {
    k.until.None? && frame.Data? && frame.id == k.id
  }

  /** Removing a connection leaves its window. */
  lemma UnregisterWindow(s: State, id: Id, c: nat)
    requires Lookup(s.conns, s.all) && c < |s.all|
    ensures var k := Unregister(s, id).all[c];
            && k.written == s.all[c].written && k.id == s.all[c].id
            && Window(k, s.input, s.position) == Window(s.all[c], s.input, s.position)
  {
  }

  lemma DataReceived(s: State, c: nat)
    requires Registered(s) && Enabled(s, Receive) && c < |s.all| && s.input[s.position].Data?
    ensures Passed(s, Apply(s, Receive), c) || Caught(s, Apply(s, Receive), c)
  {
    var k, frame, t := s.all[c], s.input[s.position], Apply(s, Receive);
    assert t.all == s.all && t.input == s.input && t.position == s.position + 1;
    assert InFlight(s.loop, c) == [];
    assert IsDataFor(k, frame) <==> frame.id in s.conns && s.conns[frame.id] == c;
    assert InFlight(t.loop, c) == if IsDataFor(k, frame) then [frame.payload] else [];
  }

  lemma CloseReceived(s: State, c: nat)
    requires Registered(s) && Enabled(s, Receive) && c < |s.all| && s.input[s.position].Close?
    ensures Passed(s, Apply(s, Receive), c)
  {
    var u, id := s.(position := s.position + 1), s.input[s.position].id;
    UnregisterWindow(u, id, c);
    assert Apply(s, Receive).all == if id in s.conns then Unregister(u, id).all else s.all;
  }

  lemma OtherReceived(s: State, c: nat)
    requires Registered(s) && Enabled(s, Receive) && c < |s.all|
    requires !s.input[s.position].Data? && !s.input[s.position].Close?
    ensures Passed(s, Apply(s, Receive), c)
  {
  }

  lemma DialedChanges(s: State, ok: bool, c: nat)
    requires Registered(s) && Enabled(s, Dialed(ok)) && c < |Apply(s, Dialed(ok)).all|
    ensures var t := Apply(s, Dialed(ok)); if c < |s.all| then Kept(s, t, c) else Entered(t, c)
  {
    if ok && c < |s.all| {
      UnregisterWindow(s, s.loop.id, c);
    }
  }

  lemma WriteChanges(s: State, c: nat)
    requires Registered(s) && Enabled(s, Write) && c < |s.all|
    ensures Flushed(s, Apply(s, Write), c)
  {
    NothingMore(s.all[c].written);
  }

  lemma LeaveChanges(s: State, c: nat)
    requires Registered(s) && Enabled(s, Leave) && c < |s.all|
    ensures Kept(s, Apply(s, Leave), c)
  {
  }

  lemma LoopChanges(s: State, e: Event, c: nat)
    requires Registered(s) && Enabled(s, e) && c < |s.all|
    requires e.Refuse? || e.CloseWrite? || e.CloseConn? || e.SendPong? || e.ReceiveFails? || e.SdkClose?
    ensures Kept(s, Apply(s, e), c)
  {
  }

  lemma PumpChanges(s: State, e: Event, c: nat)
    requires Registered(s) && Enabled(s, e) && c < |s.all| && (e.Read? || e.Carry? || e.Finish?)
    ensures Kept(s, Apply(s, e), c)
  {
  }

  lemma ForgetChanges(s: State, d: nat, c: nat)
    requires Registered(s) && Enabled(s, Forget(d)) && c < |s.all|
    ensures Kept(s, Apply(s, Forget(d)), c)
  {
    UnregisterWindow(s, s.all[d].id, c);
    var u, t := Unregister(s, s.all[d].id), Apply(s, Forget(d));
    assert t.all[c] == u.all[c].(pump := t.all[c].pump);
  }

  /** One of the five, for every step and connection. */
  ghost predicate Moves(s: State, t: State, c: nat) {
    Kept(s, t, c) || Flushed(s, t, c) || Passed(s, t, c) || Caught(s, t, c) || (|s.all| <= c && Entered(t, c))
  }

  lemma StepMoves(s: State, e: Event, c: nat)
    requires Registered(s) && Enabled(s, e) && c < |Apply(s, e).all|
    ensures Moves(s, Apply(s, e), c)
  {
    match e {
      case Receive =>
        if s.input[s.position].Data? {
          DataReceived(s, c);
        } else if s.input[s.position].Close? {
          CloseReceived(s, c);
        } else {
          OtherReceived(s, c);
        }
      case Dialed(ok) => DialedChanges(s, ok, c);
      case Write => WriteChanges(s, c);
      case Leave => LeaveChanges(s, c);
      case Forget(d) => ForgetChanges(s, d, c);
      case Read(_, _, _) => PumpChanges(s, e, c);
      case Carry(_) => PumpChanges(s, e, c);
      case Finish(_) => PumpChanges(s, e, c);
      case _ => LoopChanges(s, e, c);
    }
  }

  // What it means for what it is due.

  lemma NothingMore(s: seq<Bytes>)
    ensures s + [] == s
  {
  }

  lemma WindowGrows(k: Conn, input: seq<Response>, position: nat)
    requires k.from <= position < |input|
    ensures PayloadsFor(Window(k, input, position + 1), k.id) ==
            PayloadsFor(Window(k, input, position), k.id) +
            (if IsDataFor(k, input[position]) then [input[position].payload] else [])
  {
    if k.until.None? {
      var window := Window(k, input, position + 1);
      assert window[..|window| - 1] == Window(k, input, position);
    }
  }

  lemma DueFollows(s: State, t: State, c: nat)
    requires c < |s.all| ==> DeliveredTo(s, c) && Dated(s.all[c], s.input, s.position)
    requires Moves(s, t, c)
    ensures DeliveredTo(t, c)
  {
    if Passed(s, t, c) || Caught(s, t, c) {
      WindowGrows(s.all[c], s.input, s.position);
      NothingMore(PayloadsFor(Window(s.all[c], s.input, s.position), s.all[c].id));
      NothingMore(s.all[c].written);
    } else if Flushed(s, t, c) {
      NothingMore(t.all[c].written);
    } else if |s.all| <= c {
      assert Window(t.all[c], t.input, t.position) == [];
    }
  }

  lemma DeliveredKeeps(s: State, e: Event)
    requires Registered(s) && Delivered(s) && Enabled(s, e)
    ensures Delivered(Apply(s, e))
  {
    var t := Apply(s, e);
    forall c | 0 <= c < |t.all| ensures DeliveredTo(t, c) {
      StepMoves(s, e, c);
      DueFollows(s, t, c);
    }
  }

  // ----- Half-closing -----

  ghost predicate FrameIn(frames: seq<Response>, frame: Response) {
    exists i :: 0 <= i < |frames| && frames[i] == frame
  }

  /** Its write side is closed, or the loop is about to close it. */
  predicate WriteSideDown(s: State, c: nat) {
    (c < |s.all| && s.all[c].writeClosed) || s.loop == HalfClosing(c)
  }

  /** The write side goes down exactly for a HalfClose of its id while it is registered. */
  ghost predicate HalfClosed(s: State, c: nat) {
    && c < |s.all|
    && (WriteSideDown(s, c) <==> FrameIn(Window(s.all[c], s.input, s.position), HalfClose(s.all[c].id)))
  }

  ghost predicate HalfCloses(s: State) {
    forall c :: 0 <= c < |s.all| ==> HalfClosed(s, c)
  }

  /** No frame received. */
  ghost predicate SideKept(s: State, t: State, c: nat) {
    && c < |s.all| && c < |t.all| && t.input == s.input && t.position == s.position
    && t.all[c].id == s.all[c].id && Window(t.all[c], s.input, s.position) == Window(s.all[c], s.input, s.position)
    && (WriteSideDown(t, c) <==> WriteSideDown(s, c))
  }

  /** A frame received. */
  ghost predicate SideReceived(s: State, t: State, c: nat) {
    && c < |s.all| && c < |t.all| && t.input == s.input && t.position == s.position + 1 <= |s.input|
    && t.all[c].id == s.all[c].id
    && Window(t.all[c], s.input, s.position + 1) == Window(s.all[c], s.input, s.position + 1)
    && (WriteSideDown(t, c) <==>
          WriteSideDown(s, c) || (s.all[c].until.None? && s.input[s.position] == HalfClose(s.all[c].id)))
  }

  /** Just entered. */
  ghost predicate SideEntered(t: State, c: nat) {
    c < |t.all| && t.all[c].from == t.position && t.all[c].until.None? && !WriteSideDown(t, c)
  }

  lemma CloseFrameSide(s: State, c: nat)
    requires Registered(s) && Enabled(s, Receive) && c < |s.all| && s.input[s.position].Close?
    ensures SideReceived(s, Apply(s, Receive), c)
  {
    var u, id := s.(position := s.position + 1), s.input[s.position].id;
    UnregisterWindow(u, id, c);
    assert Apply(s, Receive).all == if id in s.conns then Unregister(u, id).all else s.all;
  }

  lemma FrameSide(s: State, c: nat)
    requires Registered(s) && Enabled(s, Receive) && c < |s.all| && !s.input[s.position].Close?
    ensures SideReceived(s, Apply(s, Receive), c)
  {
    var k, frame, t := s.all[c], s.input[s.position], Apply(s, Receive);
    assert t.all == s.all && t.input == s.input && t.position == s.position + 1;
    assert !WriteSideDown(s, c) || s.all[c].writeClosed;
    assert k.until.None? ==> k.id in s.conns && s.conns[k.id] == c;
    assert t.loop == HalfClosing(c) <==> frame.HalfClose? && frame.id in s.conns && s.conns[frame.id] == c;
  }

  lemma DialedSide(s: State, ok: bool, c: nat)
    requires Registered(s) && Enabled(s, Dialed(ok)) && c < |Apply(s, Dialed(ok)).all|
    ensures var t := Apply(s, Dialed(ok)); if c < |s.all| then SideKept(s, t, c) else SideEntered(t, c)
  {
    if ok && c < |s.all| {
      UnregisterWindow(s, s.loop.id, c);
    }
  }

  lemma LoopSide(s: State, e: Event, c: nat)
    requires Registered(s) && Enabled(s, e) && c < |s.all|
    requires e.Refuse? || e.Write? || e.CloseConn? || e.SendPong? || e.ReceiveFails? || e.SdkClose? || e.Leave?
    ensures SideKept(s, Apply(s, e), c)
  {
  }

  lemma CloseWriteSide(s: State, c: nat)
    requires Registered(s) && Enabled(s, CloseWrite) && c < |s.all|
    ensures SideKept(s, Apply(s, CloseWrite), c)
  {
  }

  lemma PumpSide(s: State, e: Event, c: nat)
    requires Registered(s) && Enabled(s, e) && c < |s.all| && (e.Read? || e.Carry? || e.Finish?)
    ensures SideKept(s, Apply(s, e), c)
  {
  }

  lemma ForgetSide(s: State, d: nat, c: nat)
    requires Registered(s) && Enabled(s, Forget(d)) && c < |s.all|
    ensures SideKept(s, Apply(s, Forget(d)), c)
  {
    UnregisterWindow(s, s.all[d].id, c);
    var u, t := Unregister(s, s.all[d].id), Apply(s, Forget(d));
    assert t.all[c] == u.all[c].(pump := t.all[c].pump) && u.all[c].writeClosed == s.all[c].writeClosed;
  }

  lemma StepSide(s: State, e: Event, c: nat)
    requires Registered(s) && Enabled(s, e) && c < |Apply(s, e).all|
    ensures var t := Apply(s, e); SideKept(s, t, c) || SideReceived(s, t, c) || (|s.all| <= c && SideEntered(t, c))
  {
    match e {
      case Receive =>
        if s.input[s.position].Close? {
          CloseFrameSide(s, c);
        } else {
          FrameSide(s, c);
        }
      case Dialed(ok) => DialedSide(s, ok, c);
      case CloseWrite => CloseWriteSide(s, c);
      case Forget(d) => ForgetSide(s, d, c);
      case Read(_, _, _) => PumpSide(s, e, c);
      case Carry(_) => PumpSide(s, e, c);
      case Finish(_) => PumpSide(s, e, c);
      case _ => LoopSide(s, e, c);
    }
  }

  lemma WindowTakes(k: Conn, input: seq<Response>, position: nat, frame: Response)
    requires k.from <= position < |input|
    ensures FrameIn(Window(k, input, position + 1), frame) <==>
            FrameIn(Window(k, input, position), frame) || (k.until.None? && input[position] == frame)
  {
    if k.until.None? {
      var before, after := Window(k, input, position), Window(k, input, position + 1);
      assert after == before + [input[position]];
      assert forall i :: 0 <= i < |before| ==> after[i] == before[i];
      assert after[|before|] == input[position];
    }
  }

  lemma HalfClosesKeep(s: State, e: Event)
    requires Registered(s) && HalfCloses(s) && Enabled(s, e)
    ensures HalfCloses(Apply(s, e))
  {
    var t := Apply(s, e);
    forall c | 0 <= c < |t.all| ensures HalfClosed(t, c) {
      StepSide(s, e, c);
      SideFollows(s, t, c);
    }
  }

  lemma SideFollows(s: State, t: State, c: nat)
    requires c < |s.all| ==> HalfClosed(s, c) && Dated(s.all[c], s.input, s.position)
    requires SideKept(s, t, c) || SideReceived(s, t, c) || (|s.all| <= c && SideEntered(t, c))
    ensures HalfClosed(t, c)
  {
    if SideReceived(s, t, c) {
      WindowTakes(s.all[c], s.input, s.position, HalfClose(s.all[c].id));
    } else if |s.all| <= c {
      assert Window(t.all[c], t.input, t.position) == [];
    }
  }
}
