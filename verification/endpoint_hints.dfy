/**
 * The single flight behind a shared endpoint hint: dataPlaneEndpointHints.resolve
 * with remember and clear (sandbox/data_plane.go:168-230). Every block under the
 * mutex is one step; `resolve` itself may take any time and remember anything.
 */
module EndpointHints {
  import opened Wrappers

  /** The channel of a flight is named by its number. */
  datatype Caller =
    | Looking
    | Resolving(flight: nat)
    | Waiting(flight: nat)
    | Answered(endpoint: string)
    | Refused(error: int)
    | Unavailable

  datatype State = State(
    endpoint: string,            // "" for none
    resolving: Option<nat>,
    closed: set<nat>,            // flights whose channel is closed
    flights: nat,                // calls of resolve so far
    barren: nat,                 // those that ended with no endpoint known
    callers: seq<Caller>)

  const Initial := State("", None, {}, 0, 0, [])

  datatype Event =
    | Arrive
    | Look(caller: nat)
    | Land(caller: nat, failure: Option<int>)
    | Wake(caller: nat)
    | GiveUp(caller: nat, error: int)
    | Remember(endpoint: string)
    | Clear

  predicate At(s: State, k: nat, caller: Caller) {
    k < |s.callers| && s.callers[k] == caller
  }

  predicate Enabled(s: State, e: Event) {
    match e
    case Arrive => true
    case Look(k) => At(s, k, Looking)
    case Land(k, _) => k < |s.callers| && s.callers[k].Resolving?
    case Wake(k) => k < |s.callers| && s.callers[k].Waiting? && s.callers[k].flight in s.closed
    case GiveUp(k, _) => k < |s.callers| && s.callers[k].Waiting?
    case Remember(endpoint) => endpoint != ""
    case Clear => true
  }

  function Move(s: State, k: nat, caller: Caller): State
    requires k < |s.callers|
  {
    s.(callers := s.callers[k := caller])
  }

  function Apply(s: State, e: Event): State
    requires Enabled(s, e)
  {
    match e
    case Arrive => s.(callers := s.callers + [Looking])
    case Look(k) =>
      if s.endpoint != "" then Move(s, k, Answered(s.endpoint))
      else if s.resolving.None? then
        Move(s, k, Resolving(s.flights)).(resolving := Some(s.flights), flights := s.flights + 1)
      else Move(s, k, Waiting(s.resolving.value))
    case Land(k, error) =>
      var result := if error.Some? then Refused(error.value)
                    else if s.endpoint == "" then Unavailable
                    else Answered(s.endpoint);
      Move(s, k, result).(resolving := None, closed := s.closed + {s.callers[k].flight},
                          barren := if s.endpoint == "" then s.barren + 1 else s.barren)
    case Wake(k) => Move(s, k, Looking)
    case GiveUp(k, error) => Move(s, k, Refused(error))
    case Remember(endpoint) => s.(endpoint := endpoint)
    case Clear => s.(endpoint := "")
  }

  predicate IsRun(s: State, run: seq<Event>)
    decreases |run|
  {
    run == [] || (Enabled(s, run[0]) && IsRun(Apply(s, run[0]), run[1..]))
  }

  function After(s: State, run: seq<Event>): State
    requires IsRun(s, run)
    decreases |run|
  {
    if run == [] then s else After(Apply(s, run[0]), run[1..])
  }

  // ----- Invariant -----

  /** A flight in the air has one caller behind it; every other flight has landed. */
  ghost predicate Inv(s: State) {
    && (s.resolving.Some? ==> exists k :: 0 <= k < |s.callers| && s.callers[k] == Resolving(s.resolving.value))
    && (forall k :: 0 <= k < |s.callers| && s.callers[k].Resolving? ==> s.resolving == Some(s.callers[k].flight))
    && (forall j, k :: 0 <= j < k < |s.callers| && s.callers[j].Resolving? ==> !s.callers[k].Resolving?)
    && (forall k :: 0 <= k < |s.callers| && s.callers[k].Waiting? ==>
          s.callers[k].flight in s.closed || s.resolving == Some(s.callers[k].flight))
    && (s.resolving.Some? ==> s.resolving.value !in s.closed && s.resolving.value == s.flights - 1)
    && (forall f :: f in s.closed ==> f < s.flights)
    && (forall k :: 0 <= k < |s.callers| && s.callers[k].Answered? ==> s.callers[k].endpoint != "")
  }

  lemma LookKeeps(s: State, k: nat)
    requires Inv(s) && Enabled(s, Look(k))
    ensures Inv(Apply(s, Look(k)))
  {
    var t := Apply(s, Look(k));
    if s.resolving.Some? {
      var r :| 0 <= r < |s.callers| && s.callers[r] == Resolving(s.resolving.value);
      assert t.callers[r] == s.callers[r];
    } else if s.endpoint == "" {
      assert t.callers[k] == Resolving(s.flights);
    }
  }

  lemma LandKeeps(s: State, k: nat, error: Option<int>)
    requires Inv(s) && Enabled(s, Land(k, error))
    ensures Inv(Apply(s, Land(k, error)))
  {
  }

  lemma OtherKeeps(s: State, e: Event)
    requires Inv(s) && Enabled(s, e) && !e.Look? && !e.Land?
    ensures Inv(Apply(s, e))
  {
    if s.resolving.Some? {
      var r :| 0 <= r < |s.callers| && s.callers[r] == Resolving(s.resolving.value);
      assert Apply(s, e).callers[r] == s.callers[r];
    }
  }

  lemma StepKeepsInv(s: State, e: Event)
    requires Inv(s) && Enabled(s, e)
    ensures Inv(Apply(s, e))
  {
    match e {
      case Look(k) => LookKeeps(s, k);
      case Land(k, error) => LandKeeps(s, k, error);
      case _ => OtherKeeps(s, e);
    }
  }

  lemma {:induction false} RunKeepsInv(s: State, run: seq<Event>)
    requires Inv(s) && IsRun(s, run)
    ensures Inv(After(s, run))
    decreases |run|
  {
    if run != [] {
      StepKeepsInv(s, run[0]);
      RunKeepsInv(Apply(s, run[0]), run[1..]);
    }
  }

  // ----- Theorems -----

  /** At most one caller resolves at a time. */
  lemma OneFlight(run: seq<Event>, j: nat, k: nat)
    requires IsRun(Initial, run)
    ensures var s := After(Initial, run);
            j < |s.callers| && k < |s.callers| && s.callers[j].Resolving? && s.callers[k].Resolving? ==> j == k
  {
    RunKeepsInv(Initial, run);
  }

  /** No wakeup is lost: a caller that waits can go on, or the flight it waits for is still in some caller's hands. */
  lemma NoLostWakeup(run: seq<Event>, k: nat)
    requires IsRun(Initial, run) && k < |After(Initial, run).callers| && After(Initial, run).callers[k].Waiting?
    ensures var s := After(Initial, run);
            Enabled(s, Wake(k)) || exists j :: 0 <= j < |s.callers| && s.callers[j] == Resolving(s.callers[k].flight)
  {
    RunKeepsInv(Initial, run);
  }

  /** What the caller that ran the resolver gets: its error, else the endpoint known by then, if any. */
  lemma LandMeans(s: State, k: nat, failure: Option<int>)
    requires Enabled(s, Land(k, failure))
    ensures var t := Apply(s, Land(k, failure));
            && (failure.None? && s.endpoint != "" ==> t.callers[k] == Answered(s.endpoint))
            && (failure.None? && s.endpoint == "" ==> t.callers[k] == Unavailable)
            && (forall e :: failure == Some(e) ==> t.callers[k] == Refused(e))
            && t.resolving.None? && s.callers[k].flight in t.closed && t.endpoint == s.endpoint
  {
  }

  /** What a caller that looks finds: the endpoint, a flight to wait for, or neither, so that it resolves. */
  lemma LookMeans(s: State, k: nat)
    requires Enabled(s, Look(k))
    ensures var t := Apply(s, Look(k));
            && (t.callers[k] == Answered(s.endpoint) <==> s.endpoint != "")
            && (t.callers[k].Resolving? <==> s.endpoint == "" && s.resolving.None?)
            && (t.callers[k].Waiting? <==> s.endpoint == "" && s.resolving.Some?)
            && (t.callers[k].Waiting? ==> s.resolving == Some(t.callers[k].flight))
  {
  }

  /** No endpoint is known exactly if none was remembered since the last clear; else it is the last one. */
  ghost predicate Latest(endpoint: string, past: seq<Event>) {
    if endpoint == "" then
      forall i | 0 <= i < |past| && past[i].Remember? :: exists j :: i < j < |past| && past[j].Clear?
    else
      exists i :: && 0 <= i < |past| && past[i] == Remember(endpoint)
                  && forall j | i < j < |past| :: !past[j].Remember? && !past[j].Clear?
  }

  lemma StepLatest(s: State, past: seq<Event>, e: Event)
    requires Latest(s.endpoint, past) && Enabled(s, e)
    ensures Latest(Apply(s, e).endpoint, past + [e])
  {
    var now := past + [e];
    assert forall j | 0 <= j < |past| :: now[j] == past[j];
    assert now[|past|] == e;
    if e.Remember? || e.Clear? {
    } else if s.endpoint == "" {
      forall i | 0 <= i < |now| && now[i].Remember? ensures exists j :: i < j < |now| && now[j].Clear? {
        assert past[i].Remember?;
        var j :| i < j < |past| && past[j].Clear?;
        assert now[j].Clear?;
      }
    } else {
      var i :| && 0 <= i < |past| && past[i] == Remember(s.endpoint)
               && forall j | i < j < |past| :: !past[j].Remember? && !past[j].Clear?;
      assert now[i] == Remember(s.endpoint);
    }
  }

  lemma {:induction false} RunLatest(s: State, past: seq<Event>, run: seq<Event>)
    requires Latest(s.endpoint, past) && IsRun(s, run)
    ensures Latest(After(s, run).endpoint, past + run)
    decreases |run|
  {
    if run == [] {
      assert past + run == past;
    } else {
      StepLatest(s, past, run[0]);
      RunLatest(Apply(s, run[0]), past + [run[0]], run[1..]);
      assert past + run == past + [run[0]] + run[1..];
    }
  }

  /** Over a whole run: the endpoint known is the one remembered last, unless a clear came after it. */
  lemma HintIsLatest(run: seq<Event>)
    requires IsRun(Initial, run)
    ensures Latest(After(Initial, run).endpoint, run)
  {
    RunLatest(Initial, [], run);
    assert [] + run == run;
  }

  /** Every answer is an endpoint that was remembered, every refusal an error that occurred. */
  ghost predicate Sourced(s: State, past: seq<Event>) {
    && (s.endpoint != "" ==> Remember(s.endpoint) in past)
    && (forall k :: 0 <= k < |s.callers| && s.callers[k].Answered? ==> Remember(s.callers[k].endpoint) in past)
    && (forall k: nat :: k < |s.callers| && s.callers[k].Refused? ==>
          Land(k, Some(s.callers[k].error)) in past || GiveUp(k, s.callers[k].error) in past)
  }

  lemma StepSourced(s: State, past: seq<Event>, e: Event)
    requires Sourced(s, past) && Enabled(s, e)
    ensures Sourced(Apply(s, e), past + [e])
  {
    assert e in past + [e];
    assert forall x :: x in past ==> x in past + [e];
  }

  lemma {:induction false} RunSourced(s: State, past: seq<Event>, run: seq<Event>)
    requires Sourced(s, past) && IsRun(s, run)
    ensures Sourced(After(s, run), past + run)
    decreases |run|
  {
    if run == [] {
      assert past + run == past;
    } else {
      StepSourced(s, past, run[0]);
      RunSourced(Apply(s, run[0]), past + [run[0]], run[1..]);
      assert past + run == past + [run[0]] + run[1..];
    }
  }

  /** Over a whole run: answers were remembered, refusals occurred. */
  lemma AnswersAreSourced(run: seq<Event>, k: nat)
    requires IsRun(Initial, run) && k < |After(Initial, run).callers|
    ensures var caller := After(Initial, run).callers[k];
            && (caller.Answered? ==> Remember(caller.endpoint) in run)
            && (caller.Refused? ==> Land(k, Some(caller.error)) in run || GiveUp(k, caller.error) in run)
  {
    RunSourced(Initial, [], run);
    assert [] + run == run;
  }

  /** Nobody can go on by themselves. */
  ghost predicate AtRest(s: State) {
    forall k: nat :: !Enabled(s, Look(k)) && !Enabled(s, Wake(k)) && !Enabled(s, Land(k, None))
  }

  /** Where a run comes to rest, no caller looks, resolves or waits any more. */
  lemma AtRestAllAnswered(run: seq<Event>, k: nat)
    requires IsRun(Initial, run) && AtRest(After(Initial, run)) && k < |After(Initial, run).callers|
    ensures var caller := After(Initial, run).callers[k]; caller.Answered? || caller.Refused? || caller.Unavailable?
  {
    var s := After(Initial, run);
    RunKeepsInv(Initial, run);
    forall r: nat | r < |s.callers| ensures !s.callers[r].Resolving? {
      assert !Enabled(s, Land(r, None));
    }
    assert !Enabled(s, Look(k)) && !Enabled(s, Wake(k));
  }

  /** How often the hint is cleared, as every reset of a session does. */
  function Clears(run: seq<Event>): nat {
    if run == [] then 0 else (if run[0].Clear? then 1 else 0) + Clears(run[1..])
  }

  /** After c clears: a flight starts only where no endpoint is known, so each is barren, in the air, or paid for. */
  ghost predicate Economy(s: State, c: nat) {
    && s.flights <= s.barren + c + 1
    && (s.endpoint == "" ==> s.flights <= s.barren + c + (if s.resolving.Some? then 1 else 0))
  }

  lemma StepEconomy(s: State, e: Event, c: nat)
    requires Inv(s) && Economy(s, c) && Enabled(s, e)
    ensures Economy(Apply(s, e), if e.Clear? then c + 1 else c)
  {
  }

  lemma {:induction false} EconomyKeeps(s: State, run: seq<Event>, c: nat)
    requires Inv(s) && Economy(s, c) && IsRun(s, run)
    ensures Economy(After(s, run), c + Clears(run))
    decreases |run|
  {
    if run != [] {
      StepKeepsInv(s, run[0]);
      StepEconomy(s, run[0], c);
      EconomyKeeps(Apply(s, run[0]), run[1..], if run[0].Clear? then c + 1 else c);
    }
  }

  /**
   * In every run, any number of concurrent callers cost one call of resolve, plus
   * one for every call that ended with no endpoint known and for every clear.
   */
  lemma SingleFlight(run: seq<Event>)
    requires IsRun(Initial, run)
    ensures After(Initial, run).flights <= After(Initial, run).barren + Clears(run) + 1
  {
    EconomyKeeps(Initial, run, 0);
  }

  // ----- The object -----

  /** dataPlaneEndpointHints; the blocks of resolve before and after its callback are methods. */
  class Hints {
    var endpoint: string
    var resolving: Option<nat>
    var closed: set<nat>
    var flights: nat
    var barren: nat

    ghost function With(callers: seq<Caller>): State
      reads this
    {
      State(endpoint, resolving, closed, flights, barren, callers)
    }

    constructor ()
      ensures With([]) == Initial
    {
      endpoint, resolving, closed, flights, barren := "", None, {}, 0, 0;
    }

    /** `trimmed` has no blanks around it. */
    method RememberEndpoint(trimmed: string, ghost callers: seq<Caller>)
      modifies this`endpoint
      ensures With(callers) == if trimmed == "" then old(With(callers))
                               else Apply(old(With(callers)), Remember(trimmed))
    {
      if trimmed == "" {
        return;
      }
      endpoint := trimmed;
    }

    method ClearEndpoint(ghost callers: seq<Caller>)
      modifies this`endpoint
      ensures With(callers) == Apply(old(With(callers)), Clear)
    {
      endpoint := "";
    }

    /** The first locked block: take the hint, start a flight, or find one to wait for. */
    method Enter(ghost callers: seq<Caller>, ghost k: nat) returns (caller: Caller)
      requires At(With(callers), k, Looking)
      modifies this`resolving, this`flights
      ensures With(callers[k := caller]) == Apply(old(With(callers)), Look(k))
    {
      if endpoint != "" {
        return Answered(endpoint);
      }
      if resolving.None? {
        caller := Resolving(flights);
        resolving := Some(flights);
        flights := flights + 1;
        return;
      }
      return Waiting(resolving.value);
    }

    /** The second: close the flight's channel and report. */
    method Leave(ghost callers: seq<Caller>, ghost k: nat, flight: nat, failure: Option<int>) returns (caller: Caller)
      requires At(With(callers), k, Resolving(flight))
      modifies this`resolving, this`closed, this`barren
      ensures With(callers[k := caller]) == Apply(old(With(callers)), Land(k, failure))
    {
      closed := closed + {flight};
      resolving := None;
      if endpoint == "" {
        barren := barren + 1;
      }
      if failure.Some? {
        return Refused(failure.value);
      }
      if endpoint == "" {
        return Unavailable;
      }
      return Answered(endpoint);
    }
  }
}
