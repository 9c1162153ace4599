/**
 * Concurrent calls of RunHandle.Wait (sandbox/run.go:443-473): the check of the
 * settled outcome, the receive from waitCh or errCh, and settle, under any
 * interleaving. The pump posts one outcome in its lifetime, so the two channels,
 * of which one stays empty, are one slot.
 */
module RunWait {
  import opened Wrappers
  import opened RunPipeline

  datatype Caller = Checking | Receiving | Settling(outcome: Outcome) | Back(outcome: Outcome)

  /** `first` is what the pump posted; `passed` are the callers that found nothing settled. */
  datatype Waits = Waits(slot: Option<Outcome>, first: Option<Outcome>, settled: Option<Outcome>,
                         callers: seq<Caller>, passed: set<nat>)

  const NOBODY := Waits(None, None, None, [], {})

  datatype Move =
    | Arrive
    | Post(outcome: Outcome)
    | Check(caller: nat)
    | Take(caller: nat)
    | Settle(caller: nat)

  predicate Possible(w: Waits, m: Move) {
    match m
    case Arrive => true
    case Post(_) => w.first.None?
    case Check(k) => k < |w.callers| && w.callers[k].Checking?
    case Take(k) => k < |w.callers| && w.callers[k].Receiving? && w.slot.Some?
    case Settle(k) => k < |w.callers| && w.callers[k].Settling?
  }

  /** settle: the outcome that came first is kept. */
  function Settled(settled: Option<Outcome>, outcome: Outcome): Outcome {
    if settled.Some? then settled.value else outcome
  }

  function Next(w: Waits, m: Move): Waits
    requires Possible(w, m)
  {
    match m
    case Arrive => w.(callers := w.callers + [Checking])
    case Post(outcome) => w.(slot := Some(outcome), first := Some(outcome))
    case Check(k) =>
      if w.settled.Some? then w.(callers := w.callers[k := Back(w.settled.value)])
      else w.(callers := w.callers[k := Receiving], passed := w.passed + {k})
    case Take(k) => w.(callers := w.callers[k := Settling(w.slot.value)], slot := None)
    case Settle(k) =>
      var outcome := Settled(w.settled, w.callers[k].outcome);
      w.(settled := Some(outcome), callers := w.callers[k := Back(outcome)])
  }

  predicate IsWaiting(w: Waits, run: seq<Move>)
    decreases |run|
  {
    run == [] || (Possible(w, run[0]) && IsWaiting(Next(w, run[0]), run[1..]))
  }

  function Then(w: Waits, run: seq<Move>): Waits
    requires IsWaiting(w, run)
    decreases |run|
  {
    if run == [] then w else Then(Next(w, run[0]), run[1..])
  }

  // ----- Invariant -----

  predicate Took(w: Waits, k: nat) {
    k < |w.callers| && k in w.passed && !w.callers[k].Receiving?
  }

  /** The part of the invariant that is about single callers. */
  ghost predicate CallersInv(w: Waits) {
    && (w.slot.Some? ==> w.slot == w.first && w.settled.None?)
    && (w.settled.Some? ==> w.settled == w.first)
    && (forall k :: k in w.passed ==> k < |w.callers| && !w.callers[k].Checking?)
    && (forall k :: 0 <= k < |w.callers| && (w.callers[k].Receiving? || w.callers[k].Settling?) ==> k in w.passed)
    && (forall k :: 0 <= k < |w.callers| && w.callers[k].Settling? ==> w.first == Some(w.callers[k].outcome))
    && (forall k :: 0 <= k < |w.callers| && w.callers[k].Back? ==> w.settled == Some(w.callers[k].outcome))
  }

  /** At most one caller takes the outcome, and exactly one once it is out of its slot. */
  ghost predicate TakenOnce(w: Waits) {
    && (forall j: nat, k: nat :: Took(w, j) && Took(w, k) ==> j == k)
    && (w.first.Some? ==> w.slot.Some? || exists k: nat :: Took(w, k))
    && (w.slot.Some? || w.first.None? ==> forall k: nat :: !Took(w, k))
  }

  /** One caller at most ever takes the outcome; the others that passed the check still wait for it. */
  ghost predicate WaitInv(w: Waits) {
    CallersInv(w) && TakenOnce(w)
  }

  lemma CallersKeep(w: Waits, m: Move)
    requires CallersInv(w) && TakenOnce(w) && Possible(w, m)
    ensures CallersInv(Next(w, m))
  {
    if w.settled.None? && m.Settle? {
      assert Took(w, m.caller);
    } else if m.Post? {
      assert w.settled.None?;
    }
  }

  lemma TookNext(w: Waits, m: Move, k: nat)
    requires CallersInv(w) && Possible(w, m)
    ensures Took(Next(w, m), k) <==> Took(w, k) || m == Take(k)
  {
  }

  lemma TakenKeeps(w: Waits, m: Move)
    requires CallersInv(w) && TakenOnce(w) && Possible(w, m)
    ensures TakenOnce(Next(w, m))
  {
    var u := Next(w, m);
    forall k: nat ensures Took(u, k) <==> Took(w, k) || m == Take(k) {
      TookNext(w, m, k);
    }
    if m.Take? {
      assert Took(u, m.caller);
    } else if exists k: nat :: Took(w, k) {
      var k: nat :| Took(w, k);
      assert Took(u, k);
    }
  }

  lemma MoveKeepsInv(w: Waits, m: Move)
    requires WaitInv(w) && Possible(w, m)
    ensures WaitInv(Next(w, m))
  {
    CallersKeep(w, m);
    TakenKeeps(w, m);
  }

  lemma {:induction false} WaitingKeepsInv(w: Waits, run: seq<Move>)
    requires WaitInv(w) && IsWaiting(w, run)
    ensures WaitInv(Then(w, run))
    decreases |run|
  {
    if run != [] {
      MoveKeepsInv(w, run[0]);
      WaitingKeepsInv(Next(w, run[0]), run[1..]);
    }
  }

  ghost predicate Reachable(w: Waits) {
    exists run :: IsWaiting(NOBODY, run) && Then(NOBODY, run) == w
  }

  lemma ReachableInv(w: Waits)
    requires Reachable(w)
    ensures WaitInv(w)
  {
    var run :| IsWaiting(NOBODY, run) && Then(NOBODY, run) == w;
    WaitingKeepsInv(NOBODY, run);
  }

  // ----- Theorems -----

  /** Every call that returns, returns the outcome the pump posted. */
  lemma OneOutcome(w: Waits, k: nat)
    requires Reachable(w) && k < |w.callers| && w.callers[k].Back?
    ensures w.first == Some(w.callers[k].outcome)
  {
    ReachableInv(w);
  }

  /** No caller can move, although the outcome is there. */
  ghost predicate AtRest(w: Waits) {
    w.first.Some? && forall k: nat :: !Possible(w, Check(k)) && !Possible(w, Take(k)) && !Possible(w, Settle(k))
  }

  ghost predicate AllBack(w: Waits) {
    forall k :: 0 <= k < |w.callers| ==> w.callers[k].Back?
  }

  /**
   * At rest every call of Wait has returned if and only if at most one of them
   * passed the check before the outcome was settled.
   */
  lemma AllBackIff(w: Waits)
    requires Reachable(w) && AtRest(w)
    ensures AllBack(w) <==> |w.passed| <= 1
  {
    ReachableInv(w);
    forall k | 0 <= k < |w.callers| ensures w.callers[k].Back? || w.callers[k].Receiving? {
      assert !Possible(w, Check(k)) && !Possible(w, Settle(k));
    }
    if AllBack(w) {
      assert forall k :: k in w.passed ==> Took(w, k);
      AtMostOne(w.passed);
    }
    if !AllBack(w) {
      var j: nat :| j < |w.callers| && w.callers[j].Receiving?;
      assert !Possible(w, Take(j));
      var k :| Took(w, k);
      TwoAtLeast(w.passed, j, k);
    }
  }

  lemma AtMostOne(s: set<nat>)
    requires forall j, k :: j in s && k in s ==> j == k
    ensures |s| <= 1
  {
    if s != {} {
      var k :| k in s;
      assert s == {k};
    }
  }

  lemma TwoAtLeast(s: set<nat>, j: nat, k: nat)
    requires j in s && k in s && j != k
    ensures |s| >= 2
  {
    assert {j, k} <= s;
    assert |s| == |s - {j, k}| + |{j, k}|;
  }

  lemma {:induction false} MoreWaiting(w: Waits, run: seq<Move>, m: Move)
    requires IsWaiting(w, run) && Possible(Then(w, run), m)
    ensures IsWaiting(w, run + [m]) && Then(w, run + [m]) == Next(Then(w, run), m)
    decreases |run|
  {
    if run != [] {
      assert (run + [m])[1..] == run[1..] + [m];
      MoreWaiting(Next(w, run[0]), run[1..], m);
    }
  }

  lemma Follow(w: Waits, m: Move) returns (u: Waits)
    requires Reachable(w) && Possible(w, m)
    ensures u == Next(w, m) && Reachable(u)
  {
    var run :| IsWaiting(NOBODY, run) && Then(NOBODY, run) == w;
    MoreWaiting(NOBODY, run, m);
    u := Next(w, m);
  }

  /** Two calls pass the check before the outcome arrives: the second waits for ever. */
  lemma SecondWaiterHangs(outcome: Outcome) returns (w: Waits)
    ensures Reachable(w) && AtRest(w) && w.callers == [Back(outcome), Receiving]
  {
    w := NOBODY;
    assert IsWaiting(w, []) && Then(w, []) == w;
    w := Follow(w, Arrive);
    w := Follow(w, Arrive);
    w := Follow(w, Check(0));
    w := Follow(w, Check(1));
    w := Follow(w, Post(outcome));
    w := Follow(w, Take(0));
    w := Follow(w, Settle(0));
  }

  /** From one state on: nobody passes the check any more, and callers from n on are back or still to check. */
  ghost predicate LateCallers(w: Waits, n: nat, settled: Outcome, passed: set<nat>) {
    && w.settled == Some(settled) && w.passed == passed
    && forall k :: n <= k < |w.callers| ==> w.callers[k].Checking? || w.callers[k] == Back(settled)
  }

  lemma {:induction false} LateCallersKeep(w: Waits, run: seq<Move>, n: nat, settled: Outcome, passed: set<nat>)
    requires WaitInv(w) && IsWaiting(w, run) && LateCallers(w, n, settled, passed)
    ensures LateCallers(Then(w, run), n, settled, passed)
    decreases |run|
  {
    if run != [] {
      MoveKeepsInv(w, run[0]);
      LateCallersKeep(Next(w, run[0]), run[1..], n, settled, passed);
    }
  }

  /**
   * Once an outcome is settled, in no run does another call pass the check, and
   * every call that arrives from then on, where the run comes to rest, has returned it.
   */
  lemma LaterCallsReturn(w: Waits, run: seq<Move>)
    requires Reachable(w) && w.settled.Some? && IsWaiting(w, run)
    ensures var u := Then(w, run);
            && u.settled == w.settled && u.passed == w.passed
            && (AtRest(u) ==> forall k :: |w.callers| <= k < |u.callers| ==> u.callers[k] == Back(w.settled.value))
  {
    ReachableInv(w);
    LateCallersKeep(w, run, |w.callers|, w.settled.value, w.passed);
    var u := Then(w, run);
    if AtRest(u) {
      forall k | |w.callers| <= k < |u.callers| ensures u.callers[k] == Back(w.settled.value) {
        assert !Possible(u, Check(k));
      }
    }
  }
}
