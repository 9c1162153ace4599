/**
 * WaitResumed and WaitPaused (sandbox/session.go:1187-1292, sandbox/poll.go:9-18).
 * A server answers each poll from a replica that may lag behind. Times are
 * milliseconds; a poll carries the two clock readings the loop makes.
 */
module SessionWaits {
  import opened Wrappers

  datatype SessionState =
    | Unspecified | Creating | Running | Paused | UserShutdown | Pausing | Resuming | Terminating | Terminated

  predicate IsTerminal(s: SessionState) {
    s.Terminated? || s.Terminating?
  }

  datatype Answer = NotFound | Refused(error: int) | Seen(state: SessionState)

  /** One turn of the loop: `before` is read at the deadline test, `at` at the grace test. */
  datatype Poll = Poll(before: int, answer: Answer, at: int, cancelled: Option<int>)

  datatype Outcome =
    | Reached
    | Ended(state: SessionState)     // terminalStateError
    | Reverted(state: SessionState)  // ErrResumeFailed or ErrPauseFailed
    | GetFailed(error: int)
    | Cancelled(error: int)
    | TimedOut

  datatype Kind = Resume | Pause

  function Goal(kind: Kind): SessionState {
    if kind.Resume? then Running else Paused
  }

  function Transition(kind: Kind): SessionState {
    if kind.Resume? then Resuming else Pausing
  }

  /** The states the server falls back to when the transition fails. */
  predicate Fallback(kind: Kind, s: SessionState) {
    if kind.Resume? then s.Paused? || s.UserShutdown? else s.Running?
  }

  /** resumeRevertGrace and pauseRevertGrace. */
  const GRACE := 3000

  /** Only WaitPaused takes a timeout of zero or less for none at all. */
  function Deadline(kind: Kind, start: int, timeout: int): Option<int> {
    if kind.Pause? && timeout <= 0 then None else Some(start + timeout)
  }

  function PollBackoff(attempt: nat): nat {
    if attempt < 3 then 500 else if attempt < 8 then 100 else 1000
  }

  // ----- What the loops are to compute -----

  predicate Observed(polls: seq<Poll>, i: nat, state: SessionState) {
    exists j :: 0 <= j < i && j < |polls| && polls[j].answer == Seen(state)
  }

  /** What turn i decides, if anything, given that no earlier turn decided. */
  ghost function Verdict(kind: Kind, start: int, timeout: int, polls: seq<Poll>, i: nat): Option<Outcome>
    requires i < |polls|
  {
    var p, deadline := polls[i], Deadline(kind, start, timeout);
    if deadline.Some? && p.before >= deadline.value then Some(TimedOut)
    else
      var waits := if p.cancelled.Some? then Some(Cancelled(p.cancelled.value)) else None;
      match p.answer
      case NotFound => waits
      case Refused(e) => Some(GetFailed(e))
      case Seen(s) =>
        if s == Goal(kind) then Some(Reached)
        else if IsTerminal(s) then Some(Ended(s))
        else if Fallback(kind, s) && (Observed(polls, i, Transition(kind)) || p.at - start > GRACE) then
          Some(Reverted(s))
        else waits
  }

  /** The outcome is that of the first turn that decides; None says that none of these does. */
  ghost predicate Outcomes(kind: Kind, start: int, timeout: int, polls: seq<Poll>, outcome: Option<Outcome>) {
    if outcome.None? then forall i: nat :: i < |polls| ==> Verdict(kind, start, timeout, polls, i) == None
    else exists i: nat :: i < |polls| && FirstVerdict(kind, start, timeout, polls, i, outcome.value)
  }

  ghost predicate FirstVerdict(kind: Kind, start: int, timeout: int, polls: seq<Poll>, i: nat, outcome: Outcome)
    requires i < |polls|
  {
    && Verdict(kind, start, timeout, polls, i) == Some(outcome)
    && forall j: nat :: j < i ==> Verdict(kind, start, timeout, polls, j) == None
  }

  // ----- The same, spelled out for each method -----

  /** RESUMING was answered before turn i. */
  predicate ResumingBefore(polls: seq<Poll>, i: nat) {
    exists j :: 0 <= j < i && j < |polls| && polls[j].answer == Seen(Resuming)
  }

  /** A turn of WaitResumed after which it asks again. */
  predicate ResumeAsksAgain(start: int, timeout: int, polls: seq<Poll>, i: nat)
    requires i < |polls|
  {
    && polls[i].before < start + timeout && polls[i].cancelled.None? && ResumeUndecided(start, polls, i)
  }

  /** An answer that WaitResumed does not decide on. */
  predicate ResumeUndecided(start: int, polls: seq<Poll>, i: nat)
    requires i < |polls|
  {
    match polls[i].answer
    case NotFound => true
    case Refused(_) => false
    case Seen(s) =>
      || s.Unspecified? || s.Creating? || s.Pausing? || s.Resuming?
      || ((s.Paused? || s.UserShutdown?) && !ResumingBefore(polls, i) && polls[i].at - start <= 3000)
  }

  /** Why WaitResumed ends at turn i. */
  predicate ResumeEnds(start: int, timeout: int, polls: seq<Poll>, i: nat, outcome: Outcome)
    requires i < |polls|
  {
    var p, inTime := polls[i], polls[i].before < start + timeout;
    match outcome
    case Reached => inTime && p.answer == Seen(Running)
    case Ended(s) => inTime && p.answer == Seen(s) && (s.Terminating? || s.Terminated?)
    case Reverted(s) =>
      && inTime && p.answer == Seen(s) && (s.Paused? || s.UserShutdown?)
      && (ResumingBefore(polls, i) || p.at - start > 3000)
    case GetFailed(e) => inTime && p.answer == Refused(e)
    case Cancelled(e) => inTime && ResumeUndecided(start, polls, i) && p.cancelled == Some(e)
    case TimedOut => !inTime
  }

  /** The outcome of WaitResumed: how its first turn that does not ask again ends. */
  ghost predicate ResumedAs(start: int, timeout: int, polls: seq<Poll>, outcome: Option<Outcome>) {
    if outcome.None? then forall i: nat :: i < |polls| ==> ResumeAsksAgain(start, timeout, polls, i)
    else exists i: nat :: i < |polls| && ResumeEnds(start, timeout, polls, i, outcome.value)
                          && forall j: nat :: j < i ==> ResumeAsksAgain(start, timeout, polls, j)
  }

  predicate PausingBefore(polls: seq<Poll>, i: nat) {
    exists j :: 0 <= j < i && j < |polls| && polls[j].answer == Seen(Pausing)
  }

  /** A timeout of zero or less is none. */
  predicate PauseInTime(start: int, timeout: int, p: Poll) {
    timeout <= 0 || p.before < start + timeout
  }

  predicate PauseAsksAgain(start: int, timeout: int, polls: seq<Poll>, i: nat)
    requires i < |polls|
  {
    PauseInTime(start, timeout, polls[i]) && polls[i].cancelled.None? && PauseUndecided(start, polls, i)
  }

  predicate PauseUndecided(start: int, polls: seq<Poll>, i: nat)
    requires i < |polls|
  {
    match polls[i].answer
    case NotFound => true
    case Refused(_) => false
    case Seen(s) =>
      || s.Unspecified? || s.Creating? || s.UserShutdown? || s.Pausing? || s.Resuming?
      || (s.Running? && !PausingBefore(polls, i) && polls[i].at - start <= 3000)
  }

  predicate PauseEnds(start: int, timeout: int, polls: seq<Poll>, i: nat, outcome: Outcome)
    requires i < |polls|
  {
    var p, inTime := polls[i], PauseInTime(start, timeout, polls[i]);
    match outcome
    case Reached => inTime && p.answer == Seen(Paused)
    case Ended(s) => inTime && p.answer == Seen(s) && (s.Terminating? || s.Terminated?)
    case Reverted(s) =>
      inTime && p.answer == Seen(s) && s.Running? && (PausingBefore(polls, i) || p.at - start > 3000)
    case GetFailed(e) => inTime && p.answer == Refused(e)
    case Cancelled(e) => inTime && PauseUndecided(start, polls, i) && p.cancelled == Some(e)
    case TimedOut => !inTime
  }

  ghost predicate PausedAs(start: int, timeout: int, polls: seq<Poll>, outcome: Option<Outcome>) {
    if outcome.None? then forall i: nat :: i < |polls| ==> PauseAsksAgain(start, timeout, polls, i)
    else exists i: nat :: i < |polls| && PauseEnds(start, timeout, polls, i, outcome.value)
                          && forall j: nat :: j < i ==> PauseAsksAgain(start, timeout, polls, j)
  }

  lemma ResumeTurn(start: int, timeout: int, polls: seq<Poll>, i: nat)
    requires i < |polls|
    ensures Verdict(Resume, start, timeout, polls, i).None? <==> ResumeAsksAgain(start, timeout, polls, i)
    ensures forall o :: Verdict(Resume, start, timeout, polls, i) == Some(o) <==>
            ResumeEnds(start, timeout, polls, i, o)
  {
    assert Observed(polls, i, Resuming) <==> ResumingBefore(polls, i);
  }

  lemma PauseTurn(start: int, timeout: int, polls: seq<Poll>, i: nat)
    requires i < |polls|
    ensures Verdict(Pause, start, timeout, polls, i).None? <==> PauseAsksAgain(start, timeout, polls, i)
    ensures forall o :: Verdict(Pause, start, timeout, polls, i) == Some(o) <==> PauseEnds(start, timeout, polls, i, o)
  {
    assert Observed(polls, i, Pausing) <==> PausingBefore(polls, i);
  }

  /** Every outcome of WaitResumed, as an if and only if in terms of the polls: there is exactly one. */
  lemma ResumedSpelled(start: int, timeout: int, polls: seq<Poll>, outcome: Option<Outcome>)
    ensures Outcomes(Resume, start, timeout, polls, outcome) <==> ResumedAs(start, timeout, polls, outcome)
    ensures Outcomes(Resume, start, timeout, polls, outcome) ==>
              forall other :: ResumedAs(start, timeout, polls, other) <==> other == outcome
  {
    ResumedIs(start, timeout, polls, outcome);
    if Outcomes(Resume, start, timeout, polls, outcome) {
      forall other ensures ResumedAs(start, timeout, polls, other) <==> other == outcome {
        ResumedIs(start, timeout, polls, other);
        if ResumedAs(start, timeout, polls, other) {
          OneOutcome(Resume, start, timeout, polls, outcome, other);
        }
      }
    }
  }

  lemma ResumedIs(start: int, timeout: int, polls: seq<Poll>, outcome: Option<Outcome>)
    ensures Outcomes(Resume, start, timeout, polls, outcome) <==> ResumedAs(start, timeout, polls, outcome)
  {
    forall i: nat | i < |polls|
      ensures Verdict(Resume, start, timeout, polls, i).None? <==> ResumeAsksAgain(start, timeout, polls, i)
      ensures outcome.Some? ==>
                (Verdict(Resume, start, timeout, polls, i) == outcome <==>
                 ResumeEnds(start, timeout, polls, i, outcome.value))
    {
      ResumeTurn(start, timeout, polls, i);
    }
    if outcome.Some? && Outcomes(Resume, start, timeout, polls, outcome) {
      var i: nat :| i < |polls| && FirstVerdict(Resume, start, timeout, polls, i, outcome.value);
      assert ResumeEnds(start, timeout, polls, i, outcome.value);
    }
    if outcome.Some? && ResumedAs(start, timeout, polls, outcome) {
      var i: nat :| i < |polls| && ResumeEnds(start, timeout, polls, i, outcome.value)
                    && forall j: nat :: j < i ==> ResumeAsksAgain(start, timeout, polls, j);
      assert FirstVerdict(Resume, start, timeout, polls, i, outcome.value);
    }
  }

  /** The same for WaitPaused. */
  lemma PausedSpelled(start: int, timeout: int, polls: seq<Poll>, outcome: Option<Outcome>)
    ensures Outcomes(Pause, start, timeout, polls, outcome) <==> PausedAs(start, timeout, polls, outcome)
    ensures Outcomes(Pause, start, timeout, polls, outcome) ==>
              forall other :: PausedAs(start, timeout, polls, other) <==> other == outcome
  {
    PausedIs(start, timeout, polls, outcome);
    if Outcomes(Pause, start, timeout, polls, outcome) {
      forall other ensures PausedAs(start, timeout, polls, other) <==> other == outcome {
        PausedIs(start, timeout, polls, other);
        if PausedAs(start, timeout, polls, other) {
          OneOutcome(Pause, start, timeout, polls, outcome, other);
        }
      }
    }
  }

  lemma PausedIs(start: int, timeout: int, polls: seq<Poll>, outcome: Option<Outcome>)
    ensures Outcomes(Pause, start, timeout, polls, outcome) <==> PausedAs(start, timeout, polls, outcome)
  {
    forall i: nat | i < |polls|
      ensures Verdict(Pause, start, timeout, polls, i).None? <==> PauseAsksAgain(start, timeout, polls, i)
      ensures outcome.Some? ==>
                (Verdict(Pause, start, timeout, polls, i) == outcome <==>
                 PauseEnds(start, timeout, polls, i, outcome.value))
    {
      PauseTurn(start, timeout, polls, i);
    }
    if outcome.Some? && Outcomes(Pause, start, timeout, polls, outcome) {
      var i: nat :| i < |polls| && FirstVerdict(Pause, start, timeout, polls, i, outcome.value);
      assert PauseEnds(start, timeout, polls, i, outcome.value);
    }
    if outcome.Some? && PausedAs(start, timeout, polls, outcome) {
      var i: nat :| i < |polls| && PauseEnds(start, timeout, polls, i, outcome.value)
                    && forall j: nat :: j < i ==> PauseAsksAgain(start, timeout, polls, j);
      assert FirstVerdict(Pause, start, timeout, polls, i, outcome.value);
    }
  }

  lemma OneOutcome(kind: Kind, start: int, timeout: int, polls: seq<Poll>, a: Option<Outcome>, b: Option<Outcome>)
    requires Outcomes(kind, start, timeout, polls, a) && Outcomes(kind, start, timeout, polls, b)
    ensures a == b
  {
    if a.Some? && b.Some? {
      var i: nat :| i < |polls| && FirstVerdict(kind, start, timeout, polls, i, a.value);
      var j: nat :| j < |polls| && FirstVerdict(kind, start, timeout, polls, j, b.value);
      assert i == j;
    }
  }

  /** A first verdict is the outcome. */
  lemma ResumedAt(start: int, timeout: int, polls: seq<Poll>, i: nat, outcome: Outcome)
    requires i < |polls| && FirstVerdict(Resume, start, timeout, polls, i, outcome)
    ensures Outcomes(Resume, start, timeout, polls, Some(outcome))
    ensures forall other :: ResumedAs(start, timeout, polls, other) <==> other == Some(outcome)
  {
    ResumedSpelled(start, timeout, polls, Some(outcome));
  }

  method WaitResumed(start: int, timeout: int, polls: seq<Poll>) returns (outcome: Option<Outcome>)
    ensures Outcomes(Resume, start, timeout, polls, outcome)
    ensures forall other :: ResumedAs(start, timeout, polls, other) <==> other == outcome
  {
    var deadline := start + timeout;
    var sawResuming := false;
    var attempt := 0;
    while attempt < |polls|
      invariant attempt <= |polls|
      invariant sawResuming <==> Observed(polls, attempt, Resuming)
      invariant forall i: nat :: i < attempt ==> Verdict(Resume, start, timeout, polls, i) == None
    {
      var p := polls[attempt];
      if p.before >= deadline {
        ResumedAt(start, timeout, polls, attempt, TimedOut);
        return Some(TimedOut);
      }
      match p.answer {
        case NotFound =>
        case Refused(e) =>
          ResumedAt(start, timeout, polls, attempt, GetFailed(e));
          return Some(GetFailed(e));
        case Seen(state) =>
          if state.Running? {
            ResumedAt(start, timeout, polls, attempt, Reached);
            return Some(Reached);
          } else if IsTerminal(state) {
            ResumedAt(start, timeout, polls, attempt, Ended(state));
            return Some(Ended(state));
          } else if state.Resuming? {
            sawResuming := true;
          } else if state.Paused? || state.UserShutdown? {
            if sawResuming || p.at - start > GRACE {
              ResumedAt(start, timeout, polls, attempt, Reverted(state));
              return Some(Reverted(state));
            }
          }
      }
      if p.cancelled.Some? {
        ResumedAt(start, timeout, polls, attempt, Cancelled(p.cancelled.value));
        return Some(Cancelled(p.cancelled.value));
      }
      ObservedNext(polls, attempt, Resuming);
      attempt := attempt + 1;
    }
    ResumedSpelled(start, timeout, polls, None);
    return None;
  }

  /** A first verdict is the outcome. */
  lemma PausedAt(start: int, timeout: int, polls: seq<Poll>, i: nat, outcome: Outcome)
    requires i < |polls| && FirstVerdict(Pause, start, timeout, polls, i, outcome)
    ensures Outcomes(Pause, start, timeout, polls, Some(outcome))
    ensures forall other :: PausedAs(start, timeout, polls, other) <==> other == Some(outcome)
  {
    PausedSpelled(start, timeout, polls, Some(outcome));
  }

  method WaitPaused(start: int, timeout: int, polls: seq<Poll>) returns (outcome: Option<Outcome>)
    ensures Outcomes(Pause, start, timeout, polls, outcome)
    ensures forall other :: PausedAs(start, timeout, polls, other) <==> other == outcome
  {
    var deadline: Option<int> := None;
    if timeout > 0 {
      deadline := Some(start + timeout);
    }
    var sawPausing := false;
    var attempt := 0;
    while attempt < |polls|
      invariant attempt <= |polls|
      invariant sawPausing <==> Observed(polls, attempt, Pausing)
      invariant forall i: nat :: i < attempt ==> Verdict(Pause, start, timeout, polls, i) == None
    {
      var p := polls[attempt];
      if deadline.Some? && p.before >= deadline.value {
        PausedAt(start, timeout, polls, attempt, TimedOut);
        return Some(TimedOut);
      }
      match p.answer {
        case NotFound =>
        case Refused(e) =>
          PausedAt(start, timeout, polls, attempt, GetFailed(e));
          return Some(GetFailed(e));
        case Seen(state) =>
          if state.Paused? {
            PausedAt(start, timeout, polls, attempt, Reached);
            return Some(Reached);
          } else if IsTerminal(state) {
            PausedAt(start, timeout, polls, attempt, Ended(state));
            return Some(Ended(state));
          } else if state.Pausing? {
            sawPausing := true;
          } else if state.Running? {
            if sawPausing || p.at - start > GRACE {
              PausedAt(start, timeout, polls, attempt, Reverted(state));
              return Some(Reverted(state));
            }
          }
      }
      if p.cancelled.Some? {
        PausedAt(start, timeout, polls, attempt, Cancelled(p.cancelled.value));
        return Some(Cancelled(p.cancelled.value));
      }
      ObservedNext(polls, attempt, Pausing);
      attempt := attempt + 1;
    }
    PausedSpelled(start, timeout, polls, None);
    return None;
  }

  lemma ObservedNext(polls: seq<Poll>, i: nat, state: SessionState)
    requires i < |polls|
    ensures Observed(polls, i + 1, state) <==> Observed(polls, i, state) || polls[i].answer == Seen(state)
  {
    if Observed(polls, i, state) {
      var j :| 0 <= j < i && polls[j].answer == Seen(state);
      assert polls[j].answer == Seen(state);
    }
  }

  // ----- The server behind the polls -----

  /** The state of the session at every moment, as the server decided it. */
  type History = int -> SessionState

  /** The clock readings of a run of the loop. */
  ghost predicate Clocked(start: int, polls: seq<Poll>) {
    && (forall i :: 0 <= i < |polls| ==> start <= polls[i].before <= polls[i].at)
    && (forall i :: 0 < i < |polls| ==> polls[i - 1].at + PollBackoff(i - 1) <= polls[i].before)
  }

  /**
   * `taken` says when in the server's history each answer was true: never in the
   * future, never back in time, and no longer ago than the grace.
   */
  ghost predicate Consistent(h: History, polls: seq<Poll>, taken: seq<int>) {
    && |taken| == |polls|
    && (forall i :: 0 <= i < |polls| ==> polls[i].at - GRACE <= taken[i] <= polls[i].at)
    && (forall i, j :: 0 <= i <= j < |polls| ==> taken[i] <= taken[j])
    && (forall i :: 0 <= i < |polls| && polls[i].answer.Seen? ==> polls[i].answer.state == h(taken[i]))
  }

  /** In transition at one moment, fallen back at a later one, whatever came in between. */
  ghost predicate Reverts(kind: Kind, h: History, a: int, b: int) {
    a < b && h(a) == Transition(kind) && Fallback(kind, h(b))
  }

  /** The attempt under way at `a` failed: by `b` the session has fallen back and never reached the goal. */
  ghost predicate Fails(kind: Kind, h: History, a: int, b: int) {
    Reverts(kind, h, a, b) && forall t :: a <= t <= b ==> h(t) != Goal(kind)
  }

  /** What the session shows at `b` is the failure of some attempt. */
  ghost predicate Failed(kind: Kind, h: History, b: int) {
    exists a :: Fails(kind, h, a, b)
  }

  lemma LaterTurns(start: int, polls: seq<Poll>, i: nat, j: nat)
    requires Clocked(start, polls) && i < j < |polls|
    ensures polls[i].at <= polls[j].before && start + 500 <= polls[j].at
    decreases j
  {
    if i < j - 1 {
      LaterTurns(start, polls, i, j - 1);
    } else if 0 < i {
      LaterTurns(start, polls, 0, i);
    }
  }

  /** A failure after an observed transition: both were true in the server's history, one after the other. */
  lemma ObservedFall(kind: Kind, h: History, start: int, timeout: int, polls: seq<Poll>, taken: seq<int>, i: nat)
      returns (a: int)
    requires Clocked(start, polls) && Consistent(h, polls, taken) && i < |polls|
    requires Observed(polls, i, Transition(kind))
    requires Verdict(kind, start, timeout, polls, i).Some? && Verdict(kind, start, timeout, polls, i).value.Reverted?
    ensures start - GRACE <= a && Reverts(kind, h, a, taken[i])
    ensures start - GRACE + 500 <= taken[i]
  {
    var j :| 0 <= j < i && polls[j].answer == Seen(Transition(kind));
    a := taken[j];
    LaterTurns(start, polls, j, i);
  }

  /** A wait of some length reports, at turn i, the failure that was true at `taken[i]`. */
  ghost predicate Reports(kind: Kind, h: History, start: int, timeout: int, polls: seq<Poll>, taken: seq<int>, i: nat) {
    && Clocked(start, polls) && Consistent(h, polls, taken) && i < |polls| && polls[i].answer.Seen?
    && FirstVerdict(kind, start, timeout, polls, i, Reverted(polls[i].answer.state))
  }

  /** Success is only reported on an answer that was true within the grace. */
  lemma SuccessIsObserved(kind: Kind, h: History, start: int, timeout: int, polls: seq<Poll>, taken: seq<int>, i: nat)
    requires Consistent(h, polls, taken) && i < |polls|
    ensures Verdict(kind, start, timeout, polls, i) == Some(Reached) ==>
              && polls[i].answer == Seen(Goal(kind)) && h(taken[i]) == Goal(kind)
              && polls[i].at - GRACE <= taken[i] <= polls[i].at
  {
  }

  /** A fall back from a transition, both recent enough to be answered to a wait that starts at `start`. */
  ghost predicate Recent(kind: Kind, h: History, start: int, a: int, b: int) {
    start - GRACE <= a && start - GRACE + 500 <= b <= start && Reverts(kind, h, a, b)
  }

  /** Some wait that starts at `start` reports as a failure what was true at `b`. */
  ghost predicate Reportable(kind: Kind, h: History, start: int, b: int) {
    exists timeout, polls: seq<Poll>, taken: seq<int>, i: nat ::
      Reports(kind, h, start, timeout, polls, taken, i) && taken[i] == b
  }

  /** A fallen back state is open to be reported: after the start of the wait always, before it if recent. */
  ghost predicate Exposed(kind: Kind, h: History, start: int, b: int) {
    Fallback(kind, h(b)) && (start < b || exists a :: Recent(kind, h, start, a, b))
  }

  /** For every history: what can be reported as a failure, moment by moment. */
  lemma ReportableIff(kind: Kind, h: History, start: int, b: int)
    ensures Reportable(kind, h, start, b) <==> Exposed(kind, h, start, b)
  {
    if Reportable(kind, h, start, b) {
      var timeout, polls: seq<Poll>, taken: seq<int>, i: nat :|
        Reports(kind, h, start, timeout, polls, taken, i) && taken[i] == b;
      ReportIsExposed(kind, h, start, timeout, polls, taken, i);
    }
    if start < b && Fallback(kind, h(b)) {
      FirstSightAfterGrace(kind, h, start, b);
    }
    if exists a :: Recent(kind, h, start, a, b) {
      var a :| Recent(kind, h, start, a, b);
      RecentIsReported(kind, h, start, a, b);
    }
  }

  lemma ReportIsExposed(kind: Kind, h: History, start: int, timeout: int, polls: seq<Poll>, taken: seq<int>, i: nat)
    requires Reports(kind, h, start, timeout, polls, taken, i)
    ensures Exposed(kind, h, start, taken[i])
  {
    assert polls[i].at - GRACE <= taken[i];
    if Observed(polls, i, Transition(kind)) {
      var a := ObservedFall(kind, h, start, timeout, polls, taken, i);
      assert taken[i] <= start ==> Recent(kind, h, start, a, taken[i]);
    }
  }

  /** A first answer once the grace is over is believed. */
  lemma FirstSightAfterGrace(kind: Kind, h: History, start: int, b: int)
    requires start < b && Fallback(kind, h(b))
    ensures Reportable(kind, h, start, b)
  {
    var polls, taken := [Poll(b + GRACE, Seen(h(b)), b + GRACE, None)], [b];
    var timeout := b + GRACE - start + 1;
    assert FirstVerdict(kind, start, timeout, polls, 0, Reverted(h(b)));
    assert Reports(kind, h, start, timeout, polls, taken, 0);
  }

  /** Two stale answers at the start of the wait are believed as well. */
  lemma RecentIsReported(kind: Kind, h: History, start: int, a: int, b: int)
    requires Recent(kind, h, start, a, b)
    ensures Reportable(kind, h, start, b)
  {
    TwoPolls(kind, h, start, a, b);
    assert Reports(kind, h, start, 1000, PollsAt(start, h(a), h(b)), [a, b], 1);
  }

  /** A poll at the start of the wait and one after the first backoff. */
  function PollsAt(start: int, first: SessionState, second: SessionState): seq<Poll> {
    [Poll(start, Seen(first), start, None), Poll(start + 500, Seen(second), start + 500, None)]
  }

  lemma TwoPolls(kind: Kind, h: History, start: int, a: int, b: int)
    requires start - GRACE <= a <= start && start - GRACE + 500 <= b <= start + 500 && Reverts(kind, h, a, b)
    ensures Reports(kind, h, start, 1000, PollsAt(start, h(a), h(b)), [a, b], 1)
  {
    var polls, taken := PollsAt(start, h(a), h(b)), [a, b];
    assert Observed(polls, 1, Transition(kind)) by {
      assert polls[0].answer == Seen(Transition(kind));
    }
    assert Clocked(start, polls) && Consistent(h, polls, taken);
    assert Verdict(kind, start, 1000, polls, 0) == None;
    assert FirstVerdict(kind, start, 1000, polls, 1, Reverted(h(b)));
  }

  /** The methods report a failure on such polls exactly when some turn does. */
  lemma OutcomeReports(kind: Kind, h: History, start: int, timeout: int, polls: seq<Poll>, taken: seq<int>,
                       outcome: Option<Outcome>)
    requires Clocked(start, polls) && Consistent(h, polls, taken) && Outcomes(kind, start, timeout, polls, outcome)
    ensures outcome.Some? && outcome.value.Reverted? <==>
            exists i: nat :: Reports(kind, h, start, timeout, polls, taken, i)
  {
    if outcome.Some? && outcome.value.Reverted? {
      var i: nat :| i < |polls| && FirstVerdict(kind, start, timeout, polls, i, outcome.value);
      assert Reports(kind, h, start, timeout, polls, taken, i);
    }
    if exists i: nat :: Reports(kind, h, start, timeout, polls, taken, i) {
      var i: nat :| Reports(kind, h, start, timeout, polls, taken, i);
      assert Verdict(kind, start, timeout, polls, i).Some?;
      var j: nat :| j < |polls| && FirstVerdict(kind, start, timeout, polls, j, outcome.value);
      assert i == j;
    }
  }

  // ----- When a reported failure is one -----

  /** Every failure a wait from `start` can report is the failure of some attempt. */
  ghost predicate AllReportsReal(kind: Kind, h: History, start: int) {
    forall b :: Reportable(kind, h, start, b) ==> Failed(kind, h, b)
  }

  /**
   * For every history: all reported failures are real if and only if every fallen
   * back state after the start, and every one shortly before it that follows a
   * transition, is the failure of an attempt that never reached its goal.
   */
  lemma AllReportsRealIff(kind: Kind, h: History, start: int)
    ensures AllReportsReal(kind, h, start) <==>
            && (forall b :: start < b && Fallback(kind, h(b)) ==> Failed(kind, h, b))
            && (forall a, b :: Recent(kind, h, start, a, b) ==> Failed(kind, h, b))
  {
    forall b ensures Reportable(kind, h, start, b) <==> Exposed(kind, h, start, b) {
      ReportableIff(kind, h, start, b);
    }
    if AllReportsReal(kind, h, start) {
      forall b | start < b && Fallback(kind, h(b)) ensures Failed(kind, h, b) {
        assert Exposed(kind, h, start, b);
      }
      forall a, b | Recent(kind, h, start, a, b) ensures Failed(kind, h, b) {
        assert Exposed(kind, h, start, b);
      }
    }
  }

  /** Every failure a wait from `start` can report is that of the attempt accepted at `c`. */
  ghost predicate AllReportsOf(kind: Kind, h: History, start: int, c: int) {
    forall b :: Reportable(kind, h, start, b) ==> Fails(kind, h, c, b)
  }

  /** The same for one attempt: what came before it, or after its goal, must not be open to be reported. */
  lemma AllReportsOfIff(kind: Kind, h: History, start: int, c: int)
    ensures AllReportsOf(kind, h, start, c) <==>
            && (forall b :: start < b && Fallback(kind, h(b)) ==> Fails(kind, h, c, b))
            && (forall a, b :: Recent(kind, h, start, a, b) ==> Fails(kind, h, c, b))
  {
    forall b ensures Reportable(kind, h, start, b) <==> Exposed(kind, h, start, b) {
      ReportableIff(kind, h, start, b);
    }
    if AllReportsOf(kind, h, start, c) {
      forall b | start < b && Fallback(kind, h(b)) ensures Fails(kind, h, c, b) {
        assert Exposed(kind, h, start, b);
      }
      forall a, b | Recent(kind, h, start, a, b) ensures Fails(kind, h, c, b) {
        assert Exposed(kind, h, start, b);
      }
    }
  }

  /**
   * One report, on a session whose attempt was accepted at `c`: it is the failure of
   * that attempt, or the attempt reached its goal first, or the report is older than
   * the attempt and shows an earlier fall back within the grace before the wait.
   */
  lemma FailureIsReal(kind: Kind, h: History, c: int, start: int, timeout: int, polls: seq<Poll>, taken: seq<int>,
                      i: nat)
    requires c <= start && h(c) == Transition(kind)
    requires Reports(kind, h, start, timeout, polls, taken, i)
    ensures polls[i].answer == Seen(h(taken[i])) && Fallback(kind, h(taken[i])) && taken[i] <= polls[i].at
    ensures Fails(kind, h, c, taken[i])
            || (exists t :: c < t < taken[i] && h(t) == Goal(kind))
            || (taken[i] < c && exists a :: Recent(kind, h, start, a, taken[i]))
  {
    ReportIsExposed(kind, h, start, timeout, polls, taken, i);
  }

  /**
   * Some wait reports a failure that is no later than a cut at or before its start,
   * such as the moment the present attempt was accepted, if and only if the session
   * fell back from an earlier transition by then, within the grace before the wait.
   */
  lemma OldFailureIff(kind: Kind, h: History, start: int, cut: int)
    requires cut <= start
    ensures (exists b :: b <= cut && Reportable(kind, h, start, b)) <==>
            (exists a, b :: b <= cut && Recent(kind, h, start, a, b))
  {
    forall b ensures Reportable(kind, h, start, b) <==> Exposed(kind, h, start, b) {
      ReportableIff(kind, h, start, b);
    }
    if exists a, b :: b <= cut && Recent(kind, h, start, a, b) {
      var a, b :| b <= cut && Recent(kind, h, start, a, b);
      assert Exposed(kind, h, start, b);
    }
  }

  /**
   * When the session does not fall back once the wait has begun, some wait reports
   * a failure if and only if it fell back from a transition within the grace before.
   */
  lemma FalseFailureIff(kind: Kind, h: History, start: int)
    requires forall t :: t >= start ==> !Fallback(kind, h(t))
    ensures (exists b :: Reportable(kind, h, start, b)) <==> (exists a, b :: Recent(kind, h, start, a, b))
  {
    OldFailureIff(kind, h, start, start);
    forall b | Reportable(kind, h, start, b) ensures b <= start {
      ReportableIff(kind, h, start, b);
    }
    assert forall a, b :: Recent(kind, h, start, a, b) ==> b <= start;
  }

  // ----- Inputs on which a report is false -----

  /** A session that was never in transition: the first poll after the grace reports a failure. */
  lemma NeverInTransition(kind: Kind, h: History, start: int)
    requires forall t :: Fallback(kind, h(t))
    ensures Reportable(kind, h, start, start + 1) && !AllReportsReal(kind, h, start)
  {
    ReportableIff(kind, h, start, start + 1);
    assert Fallback(kind, h(start + 1));
  }

  /** The goal was reached after 0 and left again after `until`. */
  ghost predicate ReachedUntil(kind: Kind, h: History, until: int) {
    && 0 < until
    && (forall t :: t <= 0 ==> h(t) == Transition(kind))
    && (forall t :: 0 < t <= until ==> h(t) == Goal(kind))
    && (forall t :: until < t ==> Fallback(kind, h(t)))
  }

  lemma ReachedIsNoFailure(kind: Kind, h: History, until: int, b: int)
    requires ReachedUntil(kind, h, until) && until < b
    ensures !Failed(kind, h, b)
  {
    assert h(until) == Goal(kind);
    assert forall a :: h(a) == Transition(kind) ==> a <= 0;
  }

  /** A wait that begins after the goal was reached and left: one fresh answer after the grace is reported. */
  lemma SucceededBefore(kind: Kind, h: History)
    requires ReachedUntil(kind, h, 1000)
    ensures Reports(kind, h, 2000, 10000, [Poll(5500, Seen(h(5500)), 5500, None)], [5500], 0)
    ensures !Failed(kind, h, 5500) && !AllReportsReal(kind, h, 2000)
  {
    var polls := [Poll(5500, Seen(h(5500)), 5500, None)];
    assert FirstVerdict(kind, 2000, 10000, polls, 0, Reverted(h(5500)));
    ReachedIsNoFailure(kind, h, 1000, 5500);
    ReportableIff(kind, h, 2000, 5500);
  }

  /** A goal reached and left between two fresh answers is missed. */
  lemma SucceededBetweenPolls(kind: Kind, h: History)
    requires ReachedUntil(kind, h, 200)
    ensures Reports(kind, h, 0, 1000, PollsAt(0, h(0), h(500)), [0, 500], 1)
    ensures !Failed(kind, h, 500) && !AllReportsReal(kind, h, 0)
  {
    TwoPolls(kind, h, 0, 0, 500);
    ReachedIsNoFailure(kind, h, 200, 500);
    ReportableIff(kind, h, 0, 500);
  }

  /**
   * A settled session is found out: once the server stays in one state, a poll that
   * comes in time and after the grace, counted from the start and from the settling,
   * reports it as reached, as ended, or as fallen back.
   */
  lemma SettledIsReported(kind: Kind, h: History, start: int, timeout: int, polls: seq<Poll>, taken: seq<int>, i: nat,
                          since: int)
    requires Clocked(start, polls) && Consistent(h, polls, taken) && i < |polls| && polls[i].answer.Seen?
    requires forall t :: t >= since ==> h(t) == h(since)
    requires polls[i].at > start + 3000 && polls[i].at >= since + 3000
    requires polls[i].before < start + timeout || (kind.Pause? && timeout <= 0)
    ensures kind.Resume? && h(since).Running? ==> Verdict(kind, start, timeout, polls, i) == Some(Reached)
    ensures kind.Pause? && h(since).Paused? ==> Verdict(kind, start, timeout, polls, i) == Some(Reached)
    ensures h(since).Terminating? || h(since).Terminated? ==>
            Verdict(kind, start, timeout, polls, i) == Some(Ended(h(since)))
    ensures kind.Resume? && (h(since).Paused? || h(since).UserShutdown?) ==>
              Verdict(kind, start, timeout, polls, i) == Some(Reverted(h(since)))
    ensures kind.Pause? && h(since).Running? ==> Verdict(kind, start, timeout, polls, i) == Some(Reverted(h(since)))
  {
    assert h(taken[i]) == h(since);
  }
}
