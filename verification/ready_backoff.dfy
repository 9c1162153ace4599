/**
 * The readiness budget: how often a probe of the data plane, or one renewal of a
 * credential, asks the server (sandbox/data_plane.go:41-43, 75-95,
 * sandbox/session.go:798-817, 924-982, sandbox/options.go:19). Times are milliseconds.
 */
module ReadyBackoff {
  import opened Wrappers

  /** defaultDataPlaneReadyTimeout, also the budget when none is configured. */
  const DEFAULT := 60000

  function Budget(configured: int): nat {
    if configured <= 0 then DEFAULT else configured
  }

  /** dataPlaneReadyBackoff. */
  function Backoff(attempt: nat): nat {
    if 50 * (attempt + 1) < 750 then 50 * (attempt + 1) else 750
  }

  /** What the loop cannot know: how long a request takes, whether the caller gives up
      during a wait, and which of timer and budget wins when they fire together. */
  datatype World = World(latency: nat -> nat, cancelled: nat -> bool, timerFirst: nat -> bool)

  datatype Wait = Slept | Cancelled | OutOfBudget

  /** waitDataPlaneReadyBackoff after request `attempt`, `elapsed` into the budget. */
  function WaitAfter(world: World, budget: nat, attempt: nat, elapsed: nat): Wait {
    var wake := elapsed + Backoff(attempt);
    if world.cancelled(attempt) then Cancelled
    else if wake < budget || (wake == budget && world.timerFirst(attempt)) then Slept
    else OutOfBudget
  }

  datatype Attempts = Attempts(requests: nat, end: Option<Wait>)

  /** The requests of a loop that goes on while `retries` holds; no end means an answer decided. */
  function Loop(world: World, retries: nat -> bool, budget: nat, attempt: nat, elapsed: nat): Attempts
    decreases if elapsed < budget then budget - elapsed else 0, if elapsed < budget then 1 else 0
  {
    var asked := elapsed + world.latency(attempt);
    if !retries(attempt) then Attempts(attempt + 1, None)
    else
      var wait := WaitAfter(world, budget, attempt, asked);
      if wait.Slept? then Loop(world, retries, budget, attempt + 1, asked + Backoff(attempt))
      else Attempts(attempt + 1, Some(wait))
  }

  /** ensureDataPlaneServing: `notReady` says which probes still find the edge not ready. */
  method EnsureServing(world: World, notReady: nat -> bool, configured: int) returns (requests: nat, end: Option<Wait>)
    ensures Attempts(requests, end) == Loop(world, notReady, Budget(configured), 0, 0)
    ensures requests > 0 && forall i: nat :: i < requests - 1 ==> notReady(i)
    ensures end.None? <==> !notReady(requests - 1)
    ensures requests > 1 ==> Spent(requests - 1) <= if configured > 0 then configured else 60000
  {
    LoopBound(world, notReady, Budget(configured), 0, 0);
    var budget := Budget(configured);
    var attempt, elapsed := 0, 0;
    while true
      invariant Loop(world, notReady, budget, attempt, elapsed) == Loop(world, notReady, budget, 0, 0)
      decreases if elapsed < budget then budget - elapsed else 0, if elapsed < budget then 1 else 0
    {
      elapsed := elapsed + world.latency(attempt);
      if !notReady(attempt) {
        return attempt + 1, None;
      }
      var wait := WaitAfter(world, budget, attempt, elapsed);
      if !wait.Slept? {
        return attempt + 1, Some(wait);
      }
      elapsed := elapsed + Backoff(attempt);
      attempt := attempt + 1;
    }
  }

  // ----- renewDataPlaneCredential -----

  datatype Route = RouteFailed | RouteNotReady | RouteOther

  datatype Answer =
    | Refused(error: int, retryable: bool)
    | NoCredential
    | Minted(route: Route, endpoint: string)   // with blanks trimmed

  datatype Renewal =
    | Failed(error: int)
    | Missing
    | RouteIsTerminal
    | Applied(endpoint: string)
    | CredentialOnly
    | GaveUp(wait: Wait)

  /** What an answer decides, or None to ask again. */
  function Decision(answer: Answer): Option<Renewal> {
    match answer
    case Refused(e, retryable) => if retryable then None else Some(Failed(e))
    case NoCredential => Some(Missing)
    case Minted(route, endpoint) =>
      if route.RouteFailed? then Some(RouteIsTerminal)
      else if endpoint != "" then Some(Applied(endpoint))
      else if route.RouteNotReady? then None
      else Some(CredentialOnly)
  }

  /** The renewal an answer stands for, spelled out; asking again is no renewal. */
  predicate Decides(answer: Answer, renewal: Renewal) {
    match renewal
    case Failed(e) => answer == Refused(e, false)
    case Missing => answer == NoCredential
    case RouteIsTerminal => answer.Minted? && answer.route.RouteFailed?
    case Applied(endpoint) =>
      answer.Minted? && !answer.route.RouteFailed? && answer.endpoint == endpoint && endpoint != ""
    case CredentialOnly => answer == Minted(RouteOther, "")
    case GaveUp(_) => false
  }

  /** An answer after which the loop asks again. */
  predicate AsksAgain(answer: Answer) {
    (answer.Refused? && answer.retryable) || answer == Minted(RouteNotReady, "")
  }

  lemma DecisionSpelled(answer: Answer)
    ensures forall renewal :: Decision(answer) == Some(renewal) <==> Decides(answer, renewal)
    ensures Decision(answer) == None <==> AsksAgain(answer)
  {
  }

  function Undecided(answers: nat -> Answer): nat -> bool {
    (attempt: nat) => Decision(answers(attempt)).None?
  }

  method RenewCredential(world: World, answers: nat -> Answer, configured: int)
    returns (requests: nat, renewal: Renewal)
    ensures var attempts := Loop(world, Undecided(answers), Budget(configured), 0, 0);
            && requests == attempts.requests && requests > 0
            && Some(renewal) == if attempts.end.Some? then Some(GaveUp(attempts.end.value))
                                else Decision(answers(requests - 1))
    ensures forall i: nat :: i < requests - 1 ==> AsksAgain(answers(i))
    ensures if renewal.GaveUp? then AsksAgain(answers(requests - 1)) else Decides(answers(requests - 1), renewal)
    ensures requests > 1 ==> Spent(requests - 1) <= if configured > 0 then configured else 60000
  {
    LoopBound(world, Undecided(answers), Budget(configured), 0, 0);
    forall i: nat ensures Undecided(answers)(i) <==> AsksAgain(answers(i)) {
      DecisionSpelled(answers(i));
    }
    var budget := Budget(configured);
    var attempt, elapsed := 0, 0;
    while true
      invariant Loop(world, Undecided(answers), budget, attempt, elapsed) ==
                Loop(world, Undecided(answers), budget, 0, 0)
      decreases if elapsed < budget then budget - elapsed else 0, if elapsed < budget then 1 else 0
    {
      elapsed := elapsed + world.latency(attempt);
      match answers(attempt) {
        case Refused(e, retryable) =>
          if !retryable {
            return attempt + 1, Failed(e);
          }
        case NoCredential =>
          return attempt + 1, Missing;
        case Minted(route, endpoint) =>
          if route.RouteFailed? {
            return attempt + 1, RouteIsTerminal;
          } else if endpoint != "" {
            return attempt + 1, Applied(endpoint);
          } else if !route.RouteNotReady? {
            return attempt + 1, CredentialOnly;
          }
      }
      var wait := WaitAfter(world, budget, attempt, elapsed);
      if !wait.Slept? {
        return attempt + 1, GaveUp(wait);
      }
      elapsed := elapsed + Backoff(attempt);
      attempt := attempt + 1;
    }
  }

  // ----- The bound -----

  /** What n completed waits cost. */
  function Spent(n: nat): nat {
    if n == 0 then 0 else Spent(n - 1) + Backoff(n - 1)
  }

  lemma {:induction false} SpentClosedForm(n: nat)
    ensures n <= 15 ==> Spent(n) == 25 * n * (n + 1)
    ensures n >= 15 ==> Spent(n) == 6000 + 750 * (n - 15)
  {
    if n > 0 {
      SpentClosedForm(n - 1);
      OneMoreWait(n);
    }
  }

  lemma OneMoreWait(n: nat)
    requires n > 0
    ensures 25 * n * (n + 1) == 25 * (n - 1) * (n - 1 + 1) + 50 * n
  {
  }

  /** The loop asks until an answer decides, and its waits fit the budget. */
  lemma {:induction false} LoopBound(world: World, retries: nat -> bool, budget: nat, attempt: nat, elapsed: nat)
    requires Spent(attempt) <= elapsed && (attempt > 0 ==> elapsed <= budget)
    ensures var r := Loop(world, retries, budget, attempt, elapsed);
            && attempt < r.requests && (r.requests > 1 ==> Spent(r.requests - 1) <= budget)
            && (forall i: nat :: attempt <= i < r.requests - 1 ==> retries(i))
            && (r.end.None? <==> !retries(r.requests - 1))
    decreases if elapsed < budget then budget - elapsed else 0, if elapsed < budget then 1 else 0
  {
    var asked := elapsed + world.latency(attempt);
    if retries(attempt) && WaitAfter(world, budget, attempt, asked).Slept? {
      LoopBound(world, retries, budget, attempt + 1, asked + Backoff(attempt));
    }
  }

  /** The time that the first n requests and the waits between them took. */
  function Elapsed(world: World, n: nat): nat {
    if n == 0 then 0
    else Elapsed(world, n - 1) + world.latency(n - 1) + (if n > 1 then Backoff(n - 2) else 0)
  }

  /**
   * A loop gives up no earlier than it must: only where the next wait would not end
   * within the budget, or just reach it, or where the caller is gone.
   */
  lemma {:induction false} GivesUpLate(world: World, retries: nat -> bool, budget: nat, attempt: nat, elapsed: nat)
    requires elapsed + world.latency(attempt) == Elapsed(world, attempt + 1)
    ensures var r := Loop(world, retries, budget, attempt, elapsed);
            && r.requests > 0
            && (r.end == Some(Cancelled) <==> r.end.Some? && world.cancelled(r.requests - 1))
            && (r.end == Some(OutOfBudget) ==> Elapsed(world, r.requests) + Backoff(r.requests - 1) >= budget)
    decreases if elapsed < budget then budget - elapsed else 0, if elapsed < budget then 1 else 0
  {
    var asked := elapsed + world.latency(attempt);
    if retries(attempt) && WaitAfter(world, budget, attempt, asked).Slept? {
      GivesUpLate(world, retries, budget, attempt + 1, asked + Backoff(attempt));
    }
  }

  /** Under the default budget, at most 88 requests, whatever the server and the network do. */
  lemma AtMost88(world: World, retries: nat -> bool, configured: int)
    requires configured <= DEFAULT
    ensures 1 <= Loop(world, retries, Budget(configured), 0, 0).requests <= 88
  {
    LoopBound(world, retries, Budget(configured), 0, 0);
    SpentClosedForm(Loop(world, retries, Budget(configured), 0, 0).requests - 1);
  }

  /** The bound is met by a server that answers at once and is never ready. */
  lemma {:induction false} Exactly88(world: World, retries: nat -> bool, attempt: nat)
    requires forall n: nat :: world.latency(n) == 0 && !world.cancelled(n) && world.timerFirst(n) && retries(n)
    requires attempt <= 87
    ensures Loop(world, retries, DEFAULT, attempt, Spent(attempt)) == Attempts(88, Some(OutOfBudget))
    decreases 87 - attempt
  {
    SpentClosedForm(attempt);
    SpentClosedForm(attempt + 1);
    assert world.latency(attempt) == 0;
    if attempt < 87 {
      Exactly88(world, retries, attempt + 1);
    }
  }
}
