/**
 * HostPortTunnel as the source writes it (sandbox/tunnel.go:40-107, 177-287). Its
 * fields are views of the two machines it is made of; every method either equals a
 * sequence of their steps or ends in a state they reach. A call that the source
 * never returns from, because a listener closes the tunnel, answers `hung`.
 */
module TunnelHandles {
  import opened Wrappers
  import M = TunnelMultiplex
  import O = TunnelOutbound
  import B = TunnelTermination

  type Id = M.Id

  /** One answer of conn.Read; the last one a pump sees carries an end. */
  datatype ReadResult = ReadResult(chunk: M.Bytes, end: Option<M.End>)

  /** What a pump sends after one read. */
  function Sent(id: Id, r: ReadResult): seq<M.Request> {
    (if |r.chunk| > 0 then [M.DataOut(id, r.chunk)] else [])
    + (if r.end.Some? then [M.EndFrame(id, r.end.value)] else [])
  }

  function TalkOf(id: Id, results: seq<ReadResult>): seq<M.Request> {
    if results == [] then []
    else TalkOf(id, results[..|results| - 1]) + Sent(id, results[|results| - 1])
  }

  function BytesOf(results: seq<ReadResult>): M.Bytes {
    if results == [] then []
    else BytesOf(results[..|results| - 1]) + results[|results| - 1].chunk
  }

  /** Reads up to and including the first that ends the pump. */
  predicate WholeTalk(results: seq<ReadResult>) {
    && results != [] && results[|results| - 1].end.Some?
    && (forall i :: 0 <= i < |results| - 1 ==> results[i].end.None?)
    && (forall i :: 0 <= i < |results| ==> |results[i].chunk| <= M.BUFFER)
  }

  /** The listeners that are called: all up to the first that closes the tunnel. */
  function Served(listeners: seq<nat>, closers: set<nat>): seq<nat> {
    if listeners == [] then []
    else [listeners[0]] + (if listeners[0] in closers then [] else Served(listeners[1..], closers))
  }

  /** Some listener closes the tunnel. */
  predicate SomeCloses(listeners: seq<nat>, closers: set<nat>) {
    exists l :: l in listeners && l in closers
  }

  function CallsOf(listeners: seq<nat>, value: B.Termination): seq<B.Call> {
    seq(|listeners|, i requires 0 <= i < |listeners| => B.Call(listeners[i], value))
  }

  /** What the receive loop does with the frame it has just received. */
  function Settled(s: M.State, dial: bool): M.State {
    match s.loop
    case Dialing(_) =>
      var t := M.Apply(s, M.Dialed(dial));
      if dial then t else M.Apply(t, M.Refuse)
    case Writing(c, _) => if c < |s.all| then M.Apply(s, M.Write) else s
    case HalfClosing(c) => if c < |s.all| then M.Apply(s, M.CloseWrite) else s
    case Shutting(c) => if c < |s.all| then M.Apply(s, M.CloseConn) else s
    case Answering(_) => M.Apply(s, M.SendPong)
    case _ => s
  }

  lemma SettledIsReachable(s: M.State, dial: bool)
    requires M.Reachable(s)
    ensures M.Reachable(Settled(s, dial))
  {
    match s.loop {
      case Dialing(_) =>
        M.ReachableStep(s, M.Dialed(dial));
        if !dial {
          M.ReachableStep(M.Apply(s, M.Dialed(dial)), M.Refuse);
        }
      case Writing(c, _) => if c < |s.all| { M.ReachableStep(s, M.Write); }
      case HalfClosing(c) => if c < |s.all| { M.ReachableStep(s, M.CloseWrite); }
      case Shutting(c) => if c < |s.all| { M.ReachableStep(s, M.CloseConn); }
      case Answering(_) => M.ReachableStep(s, M.SendPong);
      case _ =>
    }
  }

  lemma {:induction false} ServedUpTo(listeners: seq<nat>, closers: set<nat>, i: nat)
    requires i < |listeners| && !SomeCloses(listeners[..i], closers) && listeners[i] in closers
    ensures Served(listeners, closers) == listeners[..i + 1] && SomeCloses(listeners, closers)
    decreases i
  {
    if i > 0 {
      HeadAndPrefix(listeners, i);
      HeadAndPrefix(listeners, i + 1);
      assert listeners[0] in listeners[..i];
      ServedUpTo(listeners[1..], closers, i - 1);
    } else {
      assert listeners[..1] == [listeners[0]];
    }
  }

  lemma {:induction false} HeadAndPrefix(listeners: seq<nat>, i: nat)
    requires 0 < i <= |listeners|
    ensures listeners[..i] == [listeners[0]] + listeners[1..][..i - 1]
  {
  }

  lemma {:induction false} ServedAll(listeners: seq<nat>, closers: set<nat>)
    requires !SomeCloses(listeners, closers)
    ensures Served(listeners, closers) == listeners
  {
    if listeners != [] {
      ServedAll(listeners[1..], closers);
    }
  }

  lemma NoCallsBefore(calls: seq<B.Call>)
    ensures [] + calls == calls
  {
  }

  lemma CallsGrow(base: seq<B.Call>, listeners: seq<nat>, i: nat, value: B.Termination)
    requires i < |listeners|
    ensures base + CallsOf(listeners[..i], value) + [B.Call(listeners[i], value)] ==
            base + CallsOf(listeners[..i + 1], value)
  {
    assert CallsOf(listeners[..i], value) + [B.Call(listeners[i], value)] == CallsOf(listeners[..i + 1], value);
  }

  lemma TalkGrows(base: seq<M.Request>, id: Id, results: seq<ReadResult>, i: nat)
    requires i < |results|
    ensures base + TalkOf(id, results[..i]) + Sent(id, results[i]) == base + TalkOf(id, results[..i + 1])
  {
    assert results[..i + 1][..i] == results[..i];
  }

  lemma BytesGrow(base: M.Bytes, results: seq<ReadResult>, i: nat)
    requires i < |results|
    ensures base + BytesOf(results[..i]) + results[i].chunk == base + BytesOf(results[..i + 1])
  {
    assert results[..i + 1][..i] == results[..i];
  }

  /** The wire after a Close of the tunnel, if there is one. */
  function WireAfter(wire: seq<M.Request>, closes: bool): seq<M.Request> {
    if closes then wire + [M.CloseOut(0)] else wire
  }

  /** Nothing happened to the streams, or a first Close of the tunnel. */
  lemma CloseOfTunnel(s: M.State, t: M.State)
    requires M.Reachable(s)
    requires t == s || (!s.sdkClosed && t == s.(wire := s.wire + [M.CloseOut(0)], sdkClosed := true))
    ensures M.Reachable(t) && SameIds(s, t)
  {
    if t != s {
      M.ReachableStep(s, M.SdkClose);
    }
  }

  /** Before the first finish nothing was called or sent. */
  lemma IdleIsFresh(s: B.State)
    requires B.Reachable(s) && s.once.Idle?
    ensures s.called == [] && s.channel == [] && s.term.None? && s.requests == []
  {
    B.ReachableInv(s);
    CalledMeansPublished(s);
  }

  lemma CalledMeansPublished(s: B.State)
    requires B.Inv(s)
    ensures s.called != [] ==> s.term.Some?
  {
    if s.called != [] {
      assert s.term == Some(s.called[0].termination);
    }
  }

  class HostPortTunnel {
    // The stream and the sub-streams.
    var input: seq<M.Response>
    var position: nat
    var loop: M.Loop
    var conns: map<Id, nat>
    var all: seq<M.Conn>
    var refused: set<Id>
    var wire: seq<M.Request>
    var closeOnce: bool

    // The broadcast. A listener in `closers` calls Close on this tunnel.
    var closers: set<nat>
    var once: B.Once
    var term: Option<B.Termination>
    var onTerm: seq<nat>
    var late: set<B.Call>
    var registered: nat
    var termCh: seq<B.Termination>
    var termClosed: bool
    var received: seq<B.Termination>

    // What has happened to it.
    ghost var requests: seq<B.Termination>
    ghost var early: seq<nat>
    ghost var called: seq<B.Call>

    ghost function Streams(): M.State
      reads this
    {
      M.State(input, position, loop, conns, all, refused, wire, closeOnce)
    }

    ghost function Broadcast(): B.State
      reads this
    {
      B.State(closers, requests, once, term, onTerm, early, late, registered, termCh, termClosed, received, called)
    }

    /** finish has called a listener that will never return. */
    ghost predicate Hung()
      reads this
    {
      once.Calling? && once.current.Some? && once.current.value in closers
    }

    /** Between two calls. */
    ghost predicate Valid()
      reads this
    {
      && B.Reachable(Broadcast())
      && (once.Idle? || once.Complete? || Hung())
      && (closeOnce ==> !once.Idle?)
    }

    constructor (input: seq<M.Response>, closers: set<nat>)
      ensures Valid() && Streams() == M.Initial(input)
      ensures Broadcast() == B.Initial(closers)
    {
      this.input, position, loop := input, 0, M.Receiving;
      conns, all, refused, wire, closeOnce := map[], [], {}, [], false;
      this.closers, requests, once, term, onTerm, early, late := closers, [], B.Idle, None, [], [], {};
      registered, termCh, termClosed, received, called := 0, [], false, [], [];
      new;
      assert B.IsRun(B.Initial(closers), []) && B.After(B.Initial(closers), []) == Broadcast();
    }

    /** A late registration is called at once, in a goroutine of its own. */
    method OnTerminated()
      requires Valid()
      modifies this`registered, this`late, this`onTerm
      ensures Valid() && Broadcast() == B.Subscribe(old(Broadcast()))
    {
      B.ReachableStep(Broadcast(), B.Register);
      var callback := registered;
      registered := registered + 1;
      if term.Some? {
        late := late + {B.Call(callback, term.value)};
        return;
      }
      onTerm := onTerm + [callback];
    }

    /**
     * The first call broadcasts its value and calls the listeners in order of
     * registration, up to one that closes the tunnel; a later call changes nothing,
     * and waits for ever for a body that hangs.
     */
    method Finish(value: B.Termination) returns (hung: bool)
      requires B.Reachable(Broadcast()) && (once.Idle? || once.Complete? || Hung())
      modifies this`requests, this`once, this`term, this`onTerm, this`early, this`termCh, this`termClosed, this`called,
               this`wire, this`closeOnce
      ensures B.Reachable(Broadcast()) && (if hung then Hung() else once.Complete?)
      ensures !old(once).Idle? ==>
                && once == old(once) && term == old(term) && called == old(called) && onTerm == old(onTerm)
                && termCh == old(termCh)
                && requests == old(requests) + [value] && wire == old(wire) && closeOnce == old(closeOnce)
      ensures old(once).Idle? ==>
                && requests != [] && requests[0] == value && term == Some(value) && termCh == [value] && termClosed
                && onTerm == []
                && called == CallsOf(Served(old(onTerm), closers), value)
                && (hung <==> SomeCloses(old(onTerm), closers))
                && wire == WireAfter(old(wire), hung && !old(closeOnce)) && closeOnce == (old(closeOnce) || hung)
    {
      if !once.Idle? {
        Blocks(value);
        return !once.Complete?;
      }
      hung := FinishFirst(value);
    }

    /** The body that termOnce runs. */
    method FinishFirst(value: B.Termination) returns (hung: bool)
      requires B.Reachable(Broadcast()) && once.Idle?
      modifies this`requests, this`once, this`term, this`onTerm, this`early, this`termCh, this`termClosed, this`called,
               this`wire, this`closeOnce
      ensures B.Reachable(Broadcast()) && (if hung then Hung() else once.Complete?)
      ensures requests != [] && requests[0] == value && term == Some(value) && termCh == [value] && termClosed
              && onTerm == []
      ensures called == CallsOf(Served(old(onTerm), closers), value) && (hung <==> SomeCloses(old(onTerm), closers))
      ensures wire == WireAfter(old(wire), hung && !old(closeOnce)) && closeOnce == (old(closeOnce) || hung)
    {
      var listeners := Publish(value);
      Send(value, listeners);
      NoCallsBefore(CallsOf(Served(listeners, closers), value));
      hung := ServeListeners(value, listeners);
    }

    /** The listeners, and the return of the body unless one of them hangs. */
    method ServeListeners(value: B.Termination, listeners: seq<nat>) returns (hung: bool)
      requires B.Reachable(Broadcast()) && once == B.Calling(value, None, listeners) && requests != []
      modifies this`called, this`once, this`requests, this`wire, this`closeOnce
      ensures B.Reachable(Broadcast()) && (if hung then Hung() else once.Complete?)
      ensures hung <==> SomeCloses(listeners, closers)
      ensures called == old(called) + CallsOf(Served(listeners, closers), value)
      ensures requests != [] && requests[0] == old(requests)[0]
      ensures wire == WireAfter(old(wire), hung && !old(closeOnce)) && closeOnce == (old(closeOnce) || hung)
    {
      hung := CallListeners(value, listeners);
      if hung {
        ListenerCloses();
        return;
      }
      B.ReachableStep(Broadcast(), B.Return);
      once := B.Complete;
    }

    /** The locked block. */
    method Publish(value: B.Termination) returns (listeners: seq<nat>)
      requires B.Reachable(Broadcast()) && once.Idle?
      modifies this`requests, this`once, this`term, this`onTerm, this`early
      ensures B.Reachable(Broadcast()) && once == B.Sending(value) && early == listeners == old(onTerm)
      ensures onTerm == [] && term == Some(value) && called == [] && requests == [value]
    {
      IdleIsFresh(Broadcast());
      B.ReachableStep(Broadcast(), B.Finish(value));
      requests, once := [value], B.Publishing(value);
      B.ReachableStep(Broadcast(), B.Publish);
      term := Some(value);
      listeners := onTerm;
      early, onTerm, once := listeners, [], B.Sending(value);
    }

    /** The value goes into the channel, which never blocks, and the channel is closed. */
    method Send(value: B.Termination, listeners: seq<nat>)
      requires B.Reachable(Broadcast()) && once == B.Sending(value) && early == listeners
      modifies this`once, this`termCh, this`termClosed
      ensures B.Reachable(Broadcast()) && once == B.Calling(value, None, listeners)
      ensures termCh == [value] && termClosed
    {
      B.SendNeverBlocks(Broadcast());
      B.ReachableStep(Broadcast(), B.Send);
      termCh, once := termCh + [value], B.Closing(value);
      B.ReachableStep(Broadcast(), B.CloseChannel);
      termClosed, once := true, B.Calling(value, None, listeners);
    }

    method CallListeners(value: B.Termination, listeners: seq<nat>) returns (hung: bool)
      requires B.Reachable(Broadcast()) && once == B.Calling(value, None, listeners)
      modifies this`called, this`once
      ensures B.Reachable(Broadcast()) && (if hung then Hung() else once == B.Calling(value, None, []))
      ensures hung <==> SomeCloses(listeners, closers)
      ensures called == old(called) + CallsOf(Served(listeners, closers), value)
    {
      for i := 0 to |listeners|
        invariant B.Reachable(Broadcast()) && once == B.Calling(value, None, listeners[i..])
        invariant !SomeCloses(listeners[..i], closers)
        invariant called == old(called) + CallsOf(listeners[..i], value)
      {
        hung := CallOne(value, listeners[i..]);
        CallsGrow(old(called), listeners, i, value);
        if hung {
          ServedUpTo(listeners, closers, i);
          return;
        }
      }
      assert listeners[..|listeners|] == listeners;
      ServedAll(listeners, closers);
      return false;
    }

    /** One listener; one that closes the tunnel does not return. */
    method CallOne(value: B.Termination, rest: seq<nat>) returns (hung: bool)
      requires B.Reachable(Broadcast()) && rest != [] && once == B.Calling(value, None, rest)
      modifies this`called, this`once
      ensures B.Reachable(Broadcast()) && (hung <==> rest[0] in closers)
      ensures once == B.Calling(value, if hung then Some(rest[0]) else None, rest[1..])
      ensures called == old(called) + [B.Call(rest[0], value)]
    {
      B.ReachableStep(Broadcast(), B.CallListener);
      called := called + [B.Call(rest[0], value)];
      once := B.Calling(value, Some(rest[0]), rest[1..]);
      if rest[0] in closers {
        return true;
      }
      B.ReachableStep(Broadcast(), B.ListenerReturns);
      once := B.Calling(value, None, rest[1..]);
      return false;
    }

    /** The Close of a listener, up to where it waits for the body that called it. */
    method ListenerCloses()
      requires B.Reachable(Broadcast()) && Hung() && requests != []
      modifies this`requests, this`wire, this`closeOnce
      ensures B.Reachable(Broadcast()) && requests != [] && requests[0] == old(requests)[0]
      ensures wire == WireAfter(old(wire), !old(closeOnce)) && closeOnce
    {
      if closeOnce {
        return;
      }
      closeOnce := true;
      wire := wire + [M.CloseOut(0)];
      Blocks(B.Termination(B.SdkClosed, "", None));
    }

    /** A finish that waits for the one in progress. */
    method Blocks(value: B.Termination)
      requires B.Reachable(Broadcast()) && !once.Idle?
      modifies this`requests
      ensures B.Reachable(Broadcast()) && requests == old(requests) + [value]
    {
      B.ReachableStep(Broadcast(), B.Finish(value));
      requests := requests + [value];
    }

    /** Close announces the end, closes the stream and finishes, once; after a hang it waits for ever. */
    method Close() returns (hung: bool)
      requires Valid()
      modifies this`wire, this`closeOnce, this`requests, this`once, this`term, this`onTerm, this`early, this`termCh,
               this`termClosed, this`called
      ensures Valid() && closeOnce && (if hung then Hung() else once.Complete?)
      ensures wire == WireAfter(old(wire), !old(closeOnce))
      ensures old(closeOnce) ==> unchanged(this)
      ensures !old(closeOnce) && old(once).Idle? ==> term == Some(B.Termination(B.SdkClosed, "", None))
    {
      if closeOnce {
        return !once.Complete?;
      }
      closeOnce := true;
      wire := wire + [M.CloseOut(0)];
      hung := Finish(B.Termination(B.SdkClosed, "", None));
    }

    /** delete(conns, id). */
    method Delete(id: Id)
      requires id in conns ==> conns[id] < |all|
      modifies this`conns, this`all
      ensures Streams() == M.Unregister(old(Streams()), id)
    {
      if id in conns {
        all := all[conns[id] := all[conns[id]].(until := Some(position))];
        conns := conns - {id};
      }
    }

    /** The body of forward's loop for one frame that is not the last. */
    method Handle(dial: bool)
      requires M.Registered(Streams()) && loop.Receiving? && position < |input|
      modifies this`position, this`loop, this`conns, this`all, this`refused, this`wire
      ensures Streams() == Settled(M.Apply(old(Streams()), M.Receive), dial)
    {
      ghost var s := Streams();
      var frame := input[position];
      position := position + 1;
      ghost var t := Streams();
      assert t == s.(position := s.position + 1);
      OnFrame(frame, dial);
      assert M.Apply(s, M.Receive) == M.Dispatch(t, frame);
    }

    /** The switch over the kinds of frames. */
    method OnFrame(frame: M.Response, dial: bool)
      requires loop.Receiving? && forall id :: id in conns ==> conns[id] < |all|
      modifies this`loop, this`conns, this`all, this`refused, this`wire
      ensures Streams() == Settled(M.Dispatch(old(Streams()), frame), dial)
    {
      match frame {
        case Accept(id) =>
          Accept(id, dial);
        case Data(id, payload) =>
          WriteTo(id, payload);
        case HalfClose(id) =>
          CloseWrite(id);
        case Close(id) =>
          CloseConn(id);
        case Ping(pingId) =>
          wire := wire + [M.Pong(pingId)];
        case Terminated =>
          loop := M.Leaving;
        case Ignored =>
      }
    }

    method WriteTo(id: Id, payload: M.Bytes)
      requires loop.Receiving? && (id in conns ==> conns[id] < |all|)
      modifies this`all
      ensures Streams() == Settled(M.Dispatch(old(Streams()), M.Data(id, payload)), false)
    {
      if id in conns {
        all := all[conns[id] := all[conns[id]].(written := all[conns[id]].written + [payload])];
      }
    }

    method CloseWrite(id: Id)
      requires loop.Receiving? && (id in conns ==> conns[id] < |all|)
      modifies this`all
      ensures Streams() == Settled(M.Dispatch(old(Streams()), M.HalfClose(id)), false)
    {
      if id in conns {
        all := all[conns[id] := all[conns[id]].(writeClosed := true)];
      }
    }

    method CloseConn(id: Id)
      requires loop.Receiving? && (id in conns ==> conns[id] < |all|)
      modifies this`conns, this`all
      ensures Streams() == Settled(M.Dispatch(old(Streams()), M.Close(id)), false)
    {
      if id in conns {
        var c := conns[id];
        Delete(id);
        all := all[c := all[c].(closed := true)];
      }
    }

    method Accept(id: Id, dial: bool)
      requires id in conns ==> conns[id] < |all|
      modifies this`loop, this`conns, this`all, this`refused, this`wire
      ensures Streams() == Settled(old(Streams()).(loop := M.Dialing(id)), dial)
    {
      loop := M.Receiving;
      if !dial {
        wire := wire + [M.CloseOut(id)];
        refused := refused + {id};
        return;
      }
      Delete(id);
      conns := conns[id := |all|];
      all := all + [M.Conn(id, M.Reading, [], [], false, false, position, None)];
    }

    /** One Read of a pump and the frames it leads to. */
    method OneRead(c: nat, r: ReadResult)
      requires M.Reachable(Streams()) && c < |all| && all[c].pump.Reading? && |r.chunk| <= M.BUFFER
      modifies this`all, this`wire
      ensures M.Reachable(Streams()) && |all| == old(|all|)
      ensures all[c].pump == if r.end.Some? then M.Forgetting(r.end.value) else M.Reading
      ensures all[c].id == old(all[c].id) && all[c].read == old(all[c].read) + r.chunk
      ensures wire == old(wire) + Sent(all[c].id, r)
    {
      M.ReachableStep(Streams(), M.Read(c, r.chunk, r.end));
      all := all[c := all[c].(read := all[c].read + r.chunk, pump := M.AfterRead(r.chunk, r.end))];
      if |r.chunk| > 0 {
        M.ReachableStep(Streams(), M.Carry(c));
        wire := wire + [M.DataOut(all[c].id, r.chunk)];
        all := all[c := all[c].(pump := M.AfterChunk(r.end))];
      }
      if r.end.Some? {
        SendEnd(c, r.end.value);
      }
    }

    method SendEnd(c: nat, end: M.End)
      requires M.Reachable(Streams()) && c < |all| && all[c].pump == M.Finishing(end)
      modifies this`all, this`wire
      ensures M.Reachable(Streams()) && all == old(all)[c := old(all[c]).(pump := M.Forgetting(end))]
      ensures wire == old(wire) + [M.EndFrame(all[c].id, end)]
    {
      M.ReachableStep(Streams(), M.Finish(c));
      wire := wire + [M.EndFrame(all[c].id, end)];
      all := all[c := all[c].(pump := M.Forgetting(end))];
    }

    /** A pump, from its first read to the end of its goroutine. */
    method PumpHostToSandbox(c: nat, results: seq<ReadResult>)
      requires M.Reachable(Streams()) && c < |all| && all[c].pump.Reading? && WholeTalk(results)
      modifies this`all, this`wire, this`conns
      ensures M.Reachable(Streams()) && |all| == old(|all|) && all[c].pump.Stopped?
      ensures wire == old(wire) + TalkOf(old(all[c].id), results)
      ensures conns == old(conns) - {old(all[c].id)}
      ensures all[c].id == old(all[c].id) && all[c].read == old(all[c].read) + BytesOf(results)
    {
      ghost var id := all[c].id;
      for i := 0 to |results|
        invariant M.Reachable(Streams()) && |all| == old(|all|) && all[c].id == id && conns == old(conns)
        invariant all[c].pump == if i == |results| then M.Forgetting(results[i - 1].end.value) else M.Reading
        invariant wire == old(wire) + TalkOf(id, results[..i])
        invariant all[c].read == old(all[c].read) + BytesOf(results[..i])
      {
        TalkGrows(old(wire), id, results, i);
        BytesGrow(old(all[c].read), results, i);
        OneRead(c, results[i]);
      }
      assert results[..|results|] == results;
      Forget(c);
    }

    /** The last block of a pump. */
    method Forget(c: nat)
      requires M.Reachable(Streams()) && c < |all| && all[c].pump.Forgetting?
      modifies this`all, this`conns
      ensures M.Reachable(Streams()) && |all| == old(|all|) && all[c].pump.Stopped?
      ensures conns == old(conns) - {old(all[c].id)}
      ensures all[c].id == old(all[c].id) && all[c].read == old(all[c].read)
    {
      O.ReachableInv(Streams());
      ghost var s := Follow(Streams(), M.Forget(c));
      var found := all[c].id in conns;
      Delete(all[c].id);
      all := all[c := all[c].(pump := M.Stopped(all[c].pump.end, found))];
    }

    /** Frames until one ends the tunnel; `dial` says which dials succeed, by the place of their Accept. */
    method ReceiveFrames(dial: nat -> bool)
      requires M.Reachable(Streams()) && loop.Receiving?
      modifies this`position, this`loop, this`conns, this`all, this`refused, this`wire
      ensures M.Reachable(Streams()) && FramesHandled(old(Streams()), Streams(), dial)
      ensures if Terminated(old(Streams()), Streams()) then loop.Leaving? else loop.Receiving? && position == |input|
    {
      O.ReachableInv(Streams());
      while position < |input| && loop.Receiving?
        invariant M.Reachable(Streams()) && M.Registered(Streams())
        invariant FramesHandled(old(Streams()), Streams(), dial)
        invariant loop == if Terminated(old(Streams()), Streams()) then M.Leaving else M.Receiving
        decreases |input| - position
      {
        ghost var s := Streams();
        var ok := dial(position);
        HandledFacts(s, ok);
        MoreHandled(old(Streams()), s, ok, Settled(M.Apply(s, M.Receive), ok), dial);
        Handle(ok);
        O.ReachableInv(Streams());
      }
    }

    /**
     * The receive loop and what follows it; `terminated` is what a Terminated frame
     * stands for. The deferred function is not reached when finish hangs.
     */
    method Forward(dial: nat -> bool, terminated: B.Termination, broken: B.Termination) returns (hung: bool)
      requires Valid() && M.Reachable(Streams()) && loop.Receiving?
      modifies this
      ensures Valid() && M.Reachable(Streams()) && FramesHandled(old(Streams()), Streams(), dial)
      ensures if hung then Hung() && !loop.Exited? else once.Complete? && loop.Exited?
      ensures Terminated(old(Streams()), Streams()) || position == |input|
      ensures M.Delivered(Streams()) && M.HalfCloses(Streams()) && O.PingInv(Streams())
      ensures old(once).Idle? ==> term == Some(if Terminated(old(Streams()), Streams()) then terminated else broken)
      ensures old(once).Idle? ==> (hung <==> SomeCloses(old(onTerm), closers))
    {
      ReceiveFrames(dial);
      ghost var s := Streams();
      hung := FinishLoop(if loop.Leaving? then terminated else broken);
      StillHandled(old(Streams()), s, Streams(), dial);
      ContentOf(Streams());
      if hung {
        return;
      }
      s := Streams();
      Leave();
      StillHandled(old(Streams()), s, Streams(), dial);
      ContentOf(Streams());
    }

    /** The finish that forward calls: the streams stay as they are, but for the Close of a listener. */
    method FinishLoop(value: B.Termination) returns (hung: bool)
      requires Valid() && M.Reachable(Streams())
      modifies this`requests, this`once, this`term, this`onTerm, this`early, this`termCh, this`termClosed, this`called,
               this`wire, this`closeOnce
      ensures Valid() && (if hung then Hung() else once.Complete?)
      ensures M.Reachable(Streams()) && SameIds(old(Streams()), Streams())
      ensures old(once).Idle? ==> term == Some(value) && (hung <==> SomeCloses(old(onTerm), closers))
    {
      ghost var s := Streams();
      hung := Finish(value);
      CloseOfTunnel(s, Streams());
    }

    /** The deferred function of forward. */
    method Leave()
      requires M.Reachable(Streams()) && (loop.Receiving? || loop.Leaving?)
      modifies this`loop, this`conns, this`all
      ensures M.Reachable(Streams()) && loop.Exited? && SameIds(old(Streams()), Streams())
    {
      ghost var s := Streams();
      if loop.Receiving? {
        s := Follow(s, M.ReceiveFails);
      }
      s := Follow(s, M.Leave);
      all := seq(|all|, c requires 0 <= c < |all| reads this =>
        if all[c].until.None? then all[c].(closed := true, until := Some(position)) else all[c]);
      conns := map[];
      loop := M.Exited;
    }
  }

  /** One handled frame: where the loop is then, and whose connections there are. */
  ghost predicate HandledTo(s: M.State, ok: bool, t: M.State)
    requires s.position < |s.input|
  {
    var frame := s.input[s.position];
    && t.input == s.input && t.position == s.position + 1
    && t.loop == (if frame.Terminated? then M.Leaving else M.Receiving)
    && |s.all| <= |t.all| <= |s.all| + 1
    && (forall c :: 0 <= c < |s.all| ==> t.all[c].id == s.all[c].id && t.all[c].from == s.all[c].from)
    && (|t.all| > |s.all| ==> ok && frame == M.Accept(t.all[|s.all|].id) && t.all[|s.all|].from == t.position)
    && (forall id :: id in t.refused && id !in s.refused ==> !ok && frame == M.Accept(id))
  }

  lemma HandledFacts(s: M.State, ok: bool)
    requires M.Reachable(s) && M.Registered(s) && M.Enabled(s, M.Receive)
    ensures HandledTo(s, ok, Settled(M.Apply(s, M.Receive), ok))
    ensures M.Reachable(Settled(M.Apply(s, M.Receive), ok))
  {
    var u, frame := M.Apply(s, M.Receive), s.input[s.position];
    M.ReachableStep(s, M.Receive);
    SettledIsReachable(u, ok);
    O.ReceiveChanges(s);
    O.ReachableInv(u);
    assert u.loop == match frame
      case Accept(id) => M.Dialing(id)
      case Data(id, payload) => if id in s.conns then M.Writing(s.conns[id], payload) else M.Receiving
      case HalfClose(id) => if id in s.conns then M.HalfClosing(s.conns[id]) else M.Receiving
      case Close(id) => if id in s.conns then M.Shutting(s.conns[id]) else M.Receiving
      case Ping(pingId) => M.Answering(pingId)
      case Terminated => M.Leaving
      case Ignored => M.Receiving;
    SettledFacts(u, ok);
  }

  /** The last frame received since `from` was the engine's Terminated. */
  predicate Terminated(from: M.State, s: M.State) {
    from.position < s.position <= |s.input| && s.input[s.position - 1].Terminated?
  }

  /** Some Accept of the id since `from` could not be dialed. */
  ghost predicate RefusedAt(from: M.State, s: M.State, id: Id, dial: nat -> bool) {
    exists i: nat :: from.position <= i < s.position && i < |s.input| && s.input[i] == M.Accept(id) && !dial(i)
  }

  /** From one state to another: no frame follows a Terminated, and every dial went as `dial` says. */
  ghost predicate FramesHandled(from: M.State, s: M.State, dial: nat -> bool) {
    && s.input == from.input && from.position <= s.position <= |s.input|
    && (forall i :: from.position <= i < s.position - 1 ==> !s.input[i].Terminated?)
    && |from.all| <= |s.all|
    && (forall c :: |from.all| <= c < |s.all| ==>
          from.position < s.all[c].from <= s.position && dial(s.all[c].from - 1))
    && (forall id :: id in s.refused && id !in from.refused ==> RefusedAt(from, s, id, dial))
  }

  /** The same frames, the same connections, the same refusals. */
  ghost predicate SameIds(s: M.State, t: M.State) {
    && t.input == s.input && t.position == s.position && t.refused == s.refused
    && |t.all| == |s.all|
    && forall c :: 0 <= c < |s.all| ==>
         t.all[c].id == s.all[c].id && t.all[c].from == s.all[c].from
  }

  lemma StillHandled(from: M.State, s: M.State, t: M.State, dial: nat -> bool)
    requires FramesHandled(from, s, dial) && SameIds(s, t)
    ensures FramesHandled(from, t, dial) && (Terminated(from, t) <==> Terminated(from, s))
  {
  }

  lemma MoreHandled(from: M.State, s: M.State, ok: bool, t: M.State, dial: nat -> bool)
    requires FramesHandled(from, s, dial) && !Terminated(from, s)
    requires s.position < |s.input| && HandledTo(s, ok, t)
    requires ok == dial(s.position)
    ensures FramesHandled(from, t, dial)
    ensures t.loop == if Terminated(from, t) then M.Leaving else M.Receiving
  {
  }

  lemma SettledFacts(u: M.State, ok: bool)
    requires M.LoopInv(u)
    ensures var t := Settled(u, ok);
            && t.input == u.input && t.position == u.position
            && t.loop == (if u.loop.Leaving? || u.loop.Refusing? || u.loop.Exited? then u.loop else M.Receiving)
            && |u.all| <= |t.all| <= |u.all| + 1
            && (forall c :: 0 <= c < |u.all| ==> t.all[c].id == u.all[c].id && t.all[c].from == u.all[c].from)
            && (|t.all| > |u.all| ==> ok && u.loop == M.Dialing(t.all[|u.all|].id) && t.all[|u.all|].from == u.position)
            && (forall id :: id in t.refused && id !in u.refused ==> !ok && u.loop == M.Dialing(id))
  {
    if u.loop.Dialing? {
      O.RegisterChanges(u, u.loop.id);
    }
  }

  /** What a reachable state says of the payloads written and the pings answered. */
  lemma ContentOf(s: M.State)
    requires M.Reachable(s)
    ensures M.Delivered(s) && M.HalfCloses(s) && O.PingInv(s)
  {
    O.ReachableInv(s);
  }

  lemma Follow(s: M.State, e: M.Event) returns (t: M.State)
    requires M.Reachable(s) && M.Enabled(s, e)
    ensures t == M.Apply(s, e) && M.Reachable(t)
  {
    M.ReachableStep(s, e);
    t := M.Apply(s, e);
  }
}
