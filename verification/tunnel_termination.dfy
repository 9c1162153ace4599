/**
 * The termination broadcast of a host-port tunnel: finish, OnTerminated and the
 * channel behind Terminated (sandbox/tunnel.go:83-107, 239-254).
 *
 * finish may be called by Close, by a transport error and by a Terminated frame,
 * registrations may come at any time, and every lock-protected block, channel
 * operation and callback is one step. A registration is named by its number.
 */
module TunnelTermination {
  import opened Wrappers

  datatype Reason =
    | SdkClosed | HostClosed | HostError | EngineTerminated | EngineDraining | TransportError | Timeout

  datatype Termination = Termination(reason: Reason, detail: string, error: Option<int>)

  /** One invocation of a callback. */
  datatype Call = Call(callback: nat, termination: Termination)

  /** Where the one execution of finish's body stands. */
  datatype Once =
    | Idle
    | Publishing(value: Termination)
    | Sending(value: Termination)
    | Closing(value: Termination)
    | Calling(value: Termination, current: Option<nat>, rest: seq<nat>)
    | Complete

  datatype State = State(
    closers: set<nat>,            // callbacks that call Close on this very tunnel
    requests: seq<Termination>,   // arguments of finish, in order of arrival
    once: Once,
    term: Option<Termination>,    // t.term, from the moment t.done is set
    onTerm: seq<nat>,
    early: seq<nat>,              // the listeners that finish took over
    late: set<Call>,              // goroutines of late registrations that have not run
    registered: nat,
    channel: seq<Termination>,
    closed: bool,
    received: seq<Termination>,
    called: seq<Call>)

  function Initial(closers: set<nat>): State {
    State(closers, [], Idle, None, [], [], {}, 0, [], false, [], [])
  }

  /** The channel is made with room for one value. */
  const CAPACITY := 1

  datatype Event =
    | Finish(value: Termination)
    | Publish
    | Send
    | CloseChannel
    | CallListener
    | ListenerReturns
    | Return
    | Register
    | RunLate(call: Call)
    | Receive

  /**
   * A second finish waits for the first to complete. A listener that calls Close
   * gets to a finish of its own, which waits for the body that called the listener.
   */
  predicate Enabled(s: State, e: Event) {
    match e
    case Finish(_) => true
    case Publish => s.once.Publishing?
    case Send => s.once.Sending? && |s.channel| < CAPACITY
    case CloseChannel => s.once.Closing?
    case CallListener => s.once.Calling? && s.once.current.None? && s.once.rest != []
    case ListenerReturns => s.once.Calling? && s.once.current.Some? && s.once.current.value !in s.closers
    case Return => s.once.Calling? && s.once.current.None? && s.once.rest == []
    case Register => true
    case RunLate(call) => call in s.late
    case Receive => s.channel != []
  }

  function Begin(s: State, value: Termination): State {
    s.(requests := s.requests + [value], once := if s.once.Idle? then Publishing(value) else s.once)
  }

  /** The block under termMu in finish. */
  function TakeListeners(s: State, value: Termination): State {
    s.(term := Some(value), early := s.onTerm, onTerm := [], once := Sending(value))
  }

  /** OnTerminated. */
  function Subscribe(s: State): State {
    var t := s.(registered := s.registered + 1);
    if s.term.Some? then t.(late := s.late + {Call(s.registered, s.term.value)})
    else t.(onTerm := s.onTerm + [s.registered])
  }

  function Apply(s: State, e: Event): State
    requires Enabled(s, e)
  {
    match e
    case Finish(value) => Begin(s, value)
    case Publish => TakeListeners(s, s.once.value)
    case Send => s.(channel := s.channel + [s.once.value], once := Closing(s.once.value))
    case CloseChannel => s.(closed := true, once := Calling(s.once.value, None, s.early))
    case CallListener =>
      s.(called := s.called + [Call(s.once.rest[0], s.once.value)],
         once := Calling(s.once.value, Some(s.once.rest[0]), s.once.rest[1..]))
    case ListenerReturns => s.(once := s.once.(current := None))
    case Return => s.(once := Complete)
    case Register => Subscribe(s)
    case RunLate(call) => s.(late := s.late - {call}, called := s.called + [call])
    case Receive => s.(channel := s.channel[1..], received := s.received + [s.channel[0]])
  }

  predicate IsRun(s: State, run: seq<Event>)
    decreases |run|
  {
    run == [] || (Enabled(s, run[0]) && IsRun(Apply(s, run[0]), run[1..]))
  }

  function After(s: State, run: seq<Event>): State
    requires IsRun(s, run)
    decreases |run|
  {
    if run == [] then s else After(Apply(s, run[0]), run[1..])
  }

  // ----- Invariant -----

  /** How often a callback was invoked. */
  function Times(called: seq<Call>, callback: nat): nat {
    if called == [] then 0
    else Times(called[..|called| - 1], callback) + (if called[|called| - 1].callback == callback then 1 else 0)
  }

  function Upto(n: nat): seq<nat> {
    seq(n, i => i)
  }

  /** How many early listeners have been entered. */
  function Entered(s: State): int {
    match s.once
    case Calling(_, _, rest) => |s.early| - |rest|
    case Complete => |s.early|
    case _ => 0
  }

  /** How many of them have returned. */
  function Left(s: State): int {
    Entered(s) - (if s.once.Calling? && s.once.current.Some? then 1 else 0)
  }

  /** The value chosen: the argument of the first finish. */
  ghost predicate Chosen(s: State) {
    && (s.once.Idle? <==> s.requests == [])
    && (s.once.Publishing? || s.once.Sending? || s.once.Closing? || s.once.Calling? ==> s.once.value == s.requests[0])
    && s.term == (if s.once.Idle? || s.once.Publishing? then None else Some(s.requests[0]))
  }

  ghost predicate ChannelInv(s: State)
    requires Chosen(s)
  {
    && s.received + s.channel ==
       (if s.once.Idle? || s.once.Publishing? || s.once.Sending? then [] else [s.requests[0]])
    && (s.closed <==> s.once.Calling? || s.once.Complete?)
  }

  ghost predicate ListenersInv(s: State) {
    && (if s.term.None? then s.onTerm == Upto(s.registered) && s.early == [] && s.late == {}
        else s.onTerm == [] && s.early == Upto(|s.early|) && |s.early| <= s.registered)
    && (s.once.Calling? ==> |s.once.rest| <= |s.early| && s.once.rest == s.early[Entered(s)..])
    && (s.once.Calling? && s.once.current.Some? ==> Entered(s) > 0 && s.once.current.value == Entered(s) - 1)
    && (forall i: nat :: i < Left(s) ==> i !in s.closers)
  }

  /** Every registration is in one place, and invoked when it has left its place. */
  ghost predicate CallsInv(s: State)
    requires Chosen(s)
  {
    && (forall c :: c in s.late ==> |s.early| <= c.callback < s.registered && s.term == Some(c.termination))
    && (forall i :: 0 <= i < |s.called| ==> s.term == Some(s.called[i].termination))
    && (forall r: nat :: Times(s.called, r) == Due(s, r))
  }

  function Due(s: State, r: nat): nat {
    if s.term.None? || r >= s.registered then 0
    else if r < |s.early| then (if r < Entered(s) then 1 else 0)
    else if Call(r, s.term.value) in s.late then 0 else 1
  }

  ghost predicate Inv(s: State) {
    Chosen(s) && ChannelInv(s) && ListenersInv(s) && CallsInv(s)
  }

  lemma ChosenKeeps(s: State, e: Event)
    requires Chosen(s) && Enabled(s, e)
    ensures Chosen(Apply(s, e))
  {
  }

  lemma ChannelKeeps(s: State, e: Event)
    requires Chosen(s) && ChannelInv(s) && Enabled(s, e)
    ensures Chosen(Apply(s, e)) && ChannelInv(Apply(s, e))
  {
    if e.Receive? {
      assert s.received + s.channel == (s.received + [s.channel[0]]) + s.channel[1..];
    } else if e.Send? {
      assert s.received + [s.once.value] == [s.requests[0]];
    }
  }

  lemma CallKeepsListeners(s: State)
    requires Chosen(s) && ListenersInv(s) && Enabled(s, CallListener)
    ensures ListenersInv(Apply(s, CallListener))
  {
    assert s.once.rest[1..] == s.early[Entered(s) + 1..];
  }

  lemma PublishKeepsListeners(s: State, e: Event)
    requires Chosen(s) && ListenersInv(s) && Enabled(s, e) && (e.Publish? || e.CloseChannel? || e.Register?)
    ensures ListenersInv(Apply(s, e))
  {
  }

  lemma ListenersKeeps(s: State, e: Event)
    requires Chosen(s) && ListenersInv(s) && Enabled(s, e)
    ensures ListenersInv(Apply(s, e))
  {
    if e.CallListener? {
      CallKeepsListeners(s);
    } else if e.Publish? || e.CloseChannel? || e.Register? {
      PublishKeepsListeners(s, e);
    }
  }

  lemma TimesMore(called: seq<Call>, c: Call, r: nat)
    ensures Times(called + [c], r) == Times(called, r) + (if c.callback == r then 1 else 0)
  {
    assert (called + [c])[..|called|] == called;
  }

  lemma ListenerDue(s: State, r: nat)
    requires Chosen(s) && ListenersInv(s) && CallsInv(s) && Enabled(s, CallListener)
    ensures Times(Apply(s, CallListener).called, r) == Due(Apply(s, CallListener), r)
  {
    assert Times(s.called, r) == Due(s, r);
    TimesMore(s.called, Call(s.once.rest[0], s.once.value), r);
    assert s.once.rest[0] == Entered(s);
  }

  lemma LateDue(s: State, call: Call, r: nat)
    requires Chosen(s) && ListenersInv(s) && CallsInv(s) && Enabled(s, RunLate(call))
    ensures Times(Apply(s, RunLate(call)).called, r) == Due(Apply(s, RunLate(call)), r)
  {
    assert Times(s.called, r) == Due(s, r);
    TimesMore(s.called, call, r);
  }

  lemma BroadcastDue(s: State, e: Event, r: nat)
    requires Chosen(s) && ListenersInv(s) && CallsInv(s) && Enabled(s, e)
    requires e.Register? || e.Publish? || e.CloseChannel?
    ensures Times(Apply(s, e).called, r) == Due(Apply(s, e), r)
  {
    assert Times(s.called, r) == Due(s, r);
  }

  lemma DueKeeps(s: State, e: Event, r: nat)
    requires Chosen(s) && ListenersInv(s) && CallsInv(s) && Enabled(s, e)
    ensures Times(Apply(s, e).called, r) == Due(Apply(s, e), r)
  {
    assert Times(s.called, r) == Due(s, r);
    if e.CallListener? {
      ListenerDue(s, r);
    } else if e.RunLate? {
      LateDue(s, e.call, r);
    } else if e.Register? || e.Publish? || e.CloseChannel? {
      BroadcastDue(s, e, r);
    }
  }

  lemma CallsKeeps(s: State, e: Event)
    requires Chosen(s) && ListenersInv(s) && CallsInv(s) && Enabled(s, e)
    ensures Chosen(Apply(s, e)) && CallsInv(Apply(s, e))
  {
    ChosenKeeps(s, e);
    forall r: nat ensures Times(Apply(s, e).called, r) == Due(Apply(s, e), r) {
      DueKeeps(s, e, r);
    }
  }

  lemma InitialInv(closers: set<nat>)
    ensures Inv(Initial(closers))
  {
  }

  lemma {:induction false} RunKeepsInv(s: State, run: seq<Event>)
    requires Inv(s) && IsRun(s, run)
    ensures Inv(After(s, run)) && After(s, run).closers == s.closers
    decreases |run|
  {
    if run != [] {
      ChosenKeeps(s, run[0]);
      ChannelKeeps(s, run[0]);
      ListenersKeeps(s, run[0]);
      CallsKeeps(s, run[0]);
      RunKeepsInv(Apply(s, run[0]), run[1..]);
    }
  }

  ghost predicate Reachable(s: State) {
    exists run :: IsRun(Initial(s.closers), run) && After(Initial(s.closers), run) == s
  }

  lemma ReachableInv(s: State)
    requires Reachable(s)
    ensures Inv(s)
  {
    var run :| IsRun(Initial(s.closers), run) && After(Initial(s.closers), run) == s;
    InitialInv(s.closers);
    RunKeepsInv(Initial(s.closers), run);
  }

  // ----- Theorems -----

  /** Whatever is seen, published, invoked or received, is the value of the first finish. */
  lemma OneValue(s: State)
    requires Reachable(s)
    ensures forall i :: 0 <= i < |s.called| ==> s.requests != [] && s.called[i].termination == s.requests[0]
    ensures s.term.Some? ==> s.requests != [] && s.term.value == s.requests[0]
    ensures |s.received| + |s.channel| <= 1
    ensures s.received != [] ==> s.requests != [] && s.received == [s.requests[0]]
    ensures s.closed ==> s.requests != [] && s.received + s.channel == [s.requests[0]]
  {
    ReachableInv(s);
  }

  /** The send in finish never waits for a receiver, and nothing is sent on the closed channel. */
  lemma SendNeverBlocks(s: State)
    requires Reachable(s)
    ensures s.once.Sending? ==> Enabled(s, Send) && !s.closed && s.channel == [] && s.received == []
  {
    ReachableInv(s);
  }

  /** A callback is invoked at most once, and none before the broadcast. */
  lemma AtMostOnce(s: State, r: nat)
    requires Reachable(s)
    ensures Times(s.called, r) <= 1
    ensures s.term.None? || r >= s.registered ==> Times(s.called, r) == 0
  {
    ReachableInv(s);
  }

  /** The values given to finish in a run, in order. */
  function Values(run: seq<Event>): seq<Termination> {
    if run == [] then []
    else (if run[0].Finish? then [run[0].value] else []) + Values(run[1..])
  }

  /** How many callbacks are registered in a run. */
  function Registrations(run: seq<Event>): nat {
    if run == [] then 0 else (if run[0].Register? then 1 else 0) + Registrations(run[1..])
  }

  /** What a state counts is what its run contains: each call of finish and each registration. */
  lemma {:induction false} RunIsCounted(s: State, run: seq<Event>)
    requires IsRun(s, run)
    ensures After(s, run).requests == s.requests + Values(run)
    ensures After(s, run).registered == s.registered + Registrations(run)
    decreases |run|
  {
    if run == [] {
      assert s.requests + Values(run) == s.requests;
    } else {
      RunIsCounted(Apply(s, run[0]), run[1..]);
      OneCounted(s, run[0], Values(run[1..]));
    }
  }

  lemma OneCounted(s: State, e: Event, values: seq<Termination>)
    requires Enabled(s, e)
    ensures Apply(s, e).requests + values == s.requests + ((if e.Finish? then [e.value] else []) + values)
    ensures Apply(s, e).registered == s.registered + (if e.Register? then 1 else 0)
  {
  }

  /** The value that was published stays. */
  lemma {:induction false} ChoiceIsFinal(s: State, run: seq<Event>)
    requires IsRun(s, run) && s.requests != []
    ensures After(s, run).requests != [] && After(s, run).requests[0] == s.requests[0]
    decreases |run|
  {
    if run != [] {
      ChoiceIsFinal(Apply(s, run[0]), run[1..]);
    }
  }

  /** A step of the broadcast itself, as opposed to one of its users. */
  predicate Internal(e: Event) {
    !e.Finish? && !e.Register? && !e.Receive?
  }

  ghost predicate Quiet(s: State) {
    forall e :: Internal(e) ==> !Enabled(s, e)
  }

  /** Early listeners that close the tunnel themselves. */
  predicate NoneCloses(s: State, n: int) {
    forall i :: 0 <= i < n ==> i !in s.closers
  }

  /**
   * When the broadcast has come to rest, every callback, early or late, has been
   * invoked exactly once if and only if no early listener but the last one calls
   * Close; and finish has returned if and only if none does at all.
   */
  lemma EveryCallbackOnce(s: State)
    requires Reachable(s) && Quiet(s) && s.requests != []
    ensures (forall r: nat :: r < s.registered ==> Times(s.called, r) == 1) <==> NoneCloses(s, |s.early| - 1)
    ensures s.once.Complete? <==> NoneCloses(s, |s.early|)
    ensures forall r: nat :: |s.early| <= r < s.registered ==> Times(s.called, r) == 1
    ensures s.closed && s.received + s.channel == [s.requests[0]]
  {
    ReachableInv(s);
    AtRest(s);
    var k := Entered(s) - 1;
    forall r: nat | r < s.registered ensures Times(s.called, r) == if k < r < |s.early| then 0 else 1 {
      CountAtRest(s, r);
    }
    assert forall i: nat :: i < Left(s) ==> i !in s.closers;
    assert NoneCloses(s, Left(s));
    if s.once.Calling? {
      assert Left(s) == k && k in s.closers;
      assert NoneCloses(s, |s.early| - 1) <==> k == |s.early| - 1;
      assert k < |s.early| - 1 ==> Times(s.called, k + 1) == 0;
    }
  }

  lemma CountAtRest(s: State, r: nat)
    requires Inv(s) && Quiet(s) && s.term.Some? && r < s.registered && (s.once.Calling? || s.once.Complete?)
    ensures Times(s.called, r) == if Entered(s) <= r < |s.early| then 0 else 1
  {
    assert Times(s.called, r) == Due(s, r);
    assert Internal(RunLate(Call(r, s.term.value))) && !Enabled(s, RunLate(Call(r, s.term.value)));
  }

  lemma AtRest(s: State)
    requires Inv(s) && Quiet(s) && s.requests != []
    ensures s.once.Complete? || (s.once.Calling? && s.once.current.Some? && s.once.current.value in s.closers)
  {
    assert !Enabled(s, Publish) && !Enabled(s, Send) && !Enabled(s, CloseChannel);
    assert !Enabled(s, CallListener) && !Enabled(s, ListenerReturns) && !Enabled(s, Return);
  }

  lemma {:induction false} ReachesMore(s: State, run: seq<Event>, e: Event)
    requires IsRun(s, run) && Enabled(After(s, run), e)
    ensures IsRun(s, run + [e]) && After(s, run + [e]) == Apply(After(s, run), e)
    decreases |run|
  {
    if run != [] {
      assert (run + [e])[1..] == run[1..] + [e];
      ReachesMore(Apply(s, run[0]), run[1..], e);
    }
  }

  lemma ReachableStep(s: State, e: Event)
    requires Reachable(s) && Enabled(s, e)
    ensures Reachable(Apply(s, e))
  {
    var run :| IsRun(Initial(s.closers), run) && After(Initial(s.closers), run) == s;
    ReachesMore(Initial(s.closers), run, e);
  }

  /** The smallest case that fails: of two listeners the first closes the tunnel. */
  lemma ClosingListenerHangs(value: Termination) returns (s: State)
    ensures Reachable(s) && Quiet(s) && s.registered == 2 && s.closers == {0}
    ensures Times(s.called, 1) == 0 && !s.once.Complete?
  {
    s := Initial({0});
    assert IsRun(s, []) && After(s, []) == s;
    s := Follow(s, Register);
    s := Follow(s, Register);
    assert s.onTerm == [0, 1];
    s := Follow(s, Finish(value));
    s := Follow(s, Publish);
    s := Follow(s, Send);
    s := Follow(s, CloseChannel);
    s := Follow(s, CallListener);
    assert s.called == [Call(0, value)] && s.called[..0] == [];
  }

  lemma Follow(s: State, e: Event) returns (t: State)
    requires Reachable(s) && Enabled(s, e)
    ensures t == Apply(s, e) && Reachable(t)
  {
    ReachableStep(s, e);
    t := Apply(s, e);
  }

  /** The steps the broadcast has yet to take. */
  function Work(s: State): nat {
    |s.late| +
    match s.once
    case Idle => 0
    case Publishing(_) => 4 + 2 * |s.onTerm|
    case Sending(_) => 3 + 2 * |s.early|
    case Closing(_) => 2 + 2 * |s.early|
    case Calling(_, current, rest) => 1 + 2 * |rest| + (if current.Some? then 1 else 0)
    case Complete => 0
  }

  /** Without new registrations or calls of finish, the broadcast comes to rest. */
  lemma WorkShrinks(s: State, e: Event)
    requires Enabled(s, e) && Internal(e)
    ensures Work(Apply(s, e)) < Work(s)
  {
  }

  lemma {:induction false} ComesToRest(s: State, run: seq<Event>)
    requires IsRun(s, run) && forall e :: e in run ==> Internal(e)
    ensures |run| + Work(After(s, run)) <= Work(s)
    decreases |run|
  {
    if run != [] {
      WorkShrinks(s, run[0]);
      ComesToRest(Apply(s, run[0]), run[1..]);
    }
  }
}
