/**
 * Whole calls of Close and Release as runs of their blocks: what a call that runs
 * alone does from its first block to its last, and that a Close can always be
 * brought to success (sandbox/session.go:600-650, 1492-1529).
 */
module DataPlaneClose {
  import opened DataPlaneRenewal
  import opened DataPlaneSession
  import S = DataPlaneSystem

  // ----- Runs of one session -----

  predicate IsRun(sid: nat, x: Local, actions: seq<Action>)
    decreases |actions|
  {
    actions == [] || (Enabled(x, actions[0]) && IsRun(sid, Apply(sid, x, actions[0]), actions[1..]))
  }

  function After(sid: nat, x: Local, actions: seq<Action>): Local
    requires IsRun(sid, x, actions)
    decreases |actions|
  {
    if actions == [] then x else After(sid, Apply(sid, x, actions[0]), actions[1..])
  }

  /** Some run of the session's blocks goes from one state to the other. */
  ghost predicate Leads(sid: nat, x: Local, y: Local) {
    exists actions :: IsRun(sid, x, actions) && After(sid, x, actions) == y
  }

  lemma LeadsNowhere(sid: nat, x: Local)
    ensures Leads(sid, x, x)
  {
    assert IsRun(sid, x, []) && After(sid, x, []) == x;
  }

  lemma {:induction false} RunOn(sid: nat, x: Local, a: seq<Action>, b: seq<Action>)
    requires IsRun(sid, x, a) && IsRun(sid, After(sid, x, a), b)
    ensures IsRun(sid, x, a + b) && After(sid, x, a + b) == After(sid, After(sid, x, a), b)
    decreases |a|
  {
    if a == [] {
      assert a + b == b;
    } else {
      assert (a + b)[1..] == a[1..] + b;
      RunOn(sid, Apply(sid, x, a[0]), a[1..], b);
    }
  }

  lemma LeadsOn(sid: nat, x: Local, y: Local, z: Local)
    requires Leads(sid, x, y) && Leads(sid, y, z)
    ensures Leads(sid, x, z)
  {
    var a :| IsRun(sid, x, a) && After(sid, x, a) == y;
    var b :| IsRun(sid, y, b) && After(sid, y, b) == z;
    RunOn(sid, x, a, b);
  }

  lemma LeadsStep(sid: nat, x: Local, a: Action)
    requires Enabled(x, a)
    ensures Leads(sid, x, Apply(sid, x, a))
  {
    var y, run := Apply(sid, x, a), [a];
    assert run[1..] == [];
    assert IsRun(sid, y, []) && After(sid, y, []) == y;
    assert IsRun(sid, x, run);
    assert After(sid, x, run) == After(sid, y, run[1..]);
  }

  /** One more block. */
  lemma Then(sid: nat, x: Local, y: Local, a: Action) returns (z: Local)
    requires Leads(sid, x, y) && SessionInv(y.ses) && Enabled(y, a)
    ensures z == Apply(sid, y, a) && Leads(sid, x, z) && SessionInv(z.ses)
  {
    z := Apply(sid, y, a);
    LeadsStep(sid, y, a);
    LeadsOn(sid, x, y, z);
    ApplyKeepsSession(sid, y, a);
  }

  // ----- Waiting for a drain -----

  /** The listed loops have exited, one after the other. */
  function Exits(loops: map<nat, Loop>, dones: seq<nat>): map<nat, Loop> {
    if dones == [] then loops
    else Exits(if dones[0] in loops then loops[dones[0] := loops[dones[0]].(exited := true)] else loops, dones[1..])
  }

  lemma {:induction false} ExitsSpec(loops: map<nat, Loop>, dones: seq<nat>)
    ensures Exits(loops, dones).Keys == loops.Keys
    ensures forall l | l in loops ::
              Exits(loops, dones)[l] == if l in dones then loops[l].(exited := true) else loops[l]
    decreases |dones|
  {
    if dones != [] {
      ExitsSpec(if dones[0] in loops then loops[dones[0] := loops[dones[0]].(exited := true)] else loops, dones[1..]);
    }
  }

  /** The listed loops are gone and their signals received. */
  function Emptied(r: Renewals, drain: nat): Renewals
    requires drain in r.drains
  {
    r.(loops := Exits(r.loops, r.drains[drain]), drains := r.drains[drain := []])
  }

  /** waitRenewalStopped has returned: the drain is over as well. */
  function Waited(r: Renewals, drain: nat): Renewals
    requires drain in r.drains
  {
    r.(loops := Exits(r.loops, r.drains[drain]), drains := r.drains - {drain})
  }

  lemma FinishedIsWaited(r: Renewals, drain: nat)
    requires drain in r.drains
    ensures Finish(Emptied(r, drain), drain) == Waited(r, drain)
  {
    assert r.drains[drain := []] - {drain} == r.drains - {drain};
  }

  function WithRenewals(x: Local, r: Renewals): Local {
    x.(ses := x.ses.(renewals := r))
  }

  /** The first loop of a drain exits, unless it has, and its signal is received. */
  lemma FirstSignal(sid: nat, x: Local, drain: nat) returns (y: Local)
    requires SessionInv(x.ses) && drain in x.ses.renewals.drains && x.ses.renewals.drains[drain] != []
    ensures Leads(sid, x, y) && SessionInv(y.ses) && y == WithRenewals(x, y.ses.renewals)
    ensures var r, l := x.ses.renewals, x.ses.renewals.drains[drain][0];
            l in r.loops && CanAwait(Exit(r, l), drain) && y.ses.renewals == Await(Exit(r, l), drain)
  {
    var l := x.ses.renewals.drains[drain][0];
    assert InDrain(x.ses.renewals, l, drain);
    LeadsNowhere(sid, x);
    y := x;
    if x.ses.renewals.loops[l].exited {
      assert Exit(x.ses.renewals, l) == x.ses.renewals;
    } else {
      y := Then(sid, x, y, LoopExits(l));
    }
    y := Then(sid, x, y, DrainAwaits(drain));
  }

  /** Waiting is a run of loops that exit and signals that are received. */
  lemma {:induction false} DrainEmpties(sid: nat, x: Local, drain: nat)
    requires SessionInv(x.ses) && drain in x.ses.renewals.drains
    ensures Leads(sid, x, WithRenewals(x, Emptied(x.ses.renewals, drain)))
    ensures SessionInv(WithRenewals(x, Emptied(x.ses.renewals, drain)).ses)
    decreases |x.ses.renewals.drains[drain]|
  {
    var r := x.ses.renewals;
    if r.drains[drain] == [] {
      assert Emptied(r, drain) == r;
      LeadsNowhere(sid, x);
    } else {
      var y := FirstSignal(sid, x, drain);
      DrainEmpties(sid, y, drain);
      EmptiedFirst(r, drain);
      LeadsOn(sid, x, y, WithRenewals(x, Emptied(r, drain)));
    }
  }

  lemma EmptiedFirst(r: Renewals, drain: nat)
    requires drain in r.drains && r.drains[drain] != [] && r.drains[drain][0] in r.loops
    ensures var gone := Exit(r, r.drains[drain][0]);
            CanAwait(gone, drain) && Emptied(Await(gone, drain), drain) == Emptied(r, drain)
  {
    var l := r.drains[drain][0];
    var gone := Exit(r, l);
    assert Await(gone, drain).drains[drain := []] == r.drains[drain := []];
  }

  // ----- The calls -----

  /** drainRenewalLocked and waitRenewalStopped when nothing else happens meanwhile. */
  function DrainAndWait(r: Renewals): Renewals {
    Waited(Drain(r), r.nextDrain)
  }

  /** closeDataPlane followed by resetDataPlane. */
  function Quiesced(r: Renewals): Renewals {
    DrainAndWait(DrainAndWait(r))
  }

  /** What both calls leave behind, apart from their flags. */
  function Quiet(x: Local): Local {
    Local(GiveBack(x.pool, x.ses.link.release), x.ses.(link := UNLINKED, renewals := Quiesced(x.ses.renewals)), x.book)
  }

  /** Release. */
  function Released(x: Local): Local {
    var y := Quiet(x);
    y.(ses := y.ses.(released := true, closed := true))
  }

  /** Close; `ok` is whether the terminate RPC succeeds, if it is made. */
  function Closed(x: Local, ok: bool): Local {
    if x.ses.closeDone then x
    else
      var y := Quiet(x);
      y.(ses := y.ses.(closed := ok || x.ses.released, closeDone := ok,
                       terminations := x.ses.terminations + (if ok then 1 else 0)))
  }

  /** closeDataPlane, for the holder of closeMu. */
  lemma Silences(sid: nat, x: Local, y: Local) returns (z: Local)
    requires Leads(sid, x, y) && SessionInv(y.ses) && y.ses.closer.Entered? && y.ses.pending.None?
    ensures Leads(sid, x, z) && SessionInv(z.ses)
    ensures z == y.(ses := y.ses.(closed := true, renewals := DrainAndWait(y.ses.renewals),
                                  closer := if y.ses.closer.release then Resetting(true, true) else Terminating))
  {
    z := Then(sid, x, y, CloserShuts);
    DrainEmpties(sid, z, y.ses.renewals.nextDrain);
    var w := WithRenewals(z, Emptied(z.ses.renewals, y.ses.renewals.nextDrain));
    LeadsOn(sid, x, z, w);
    FinishedIsWaited(Drain(y.ses.renewals), y.ses.renewals.nextDrain);
    z := Then(sid, x, w, CloserShutReturns);
  }

  /** resetDataPlane and what follows it, for the holder of closeMu. */
  lemma Resets(sid: nat, x: Local, y: Local) returns (z: Local)
    requires Leads(sid, x, y) && SessionInv(y.ses) && y.ses.closer.Resetting? && y.ses.pending.None?
    ensures Leads(sid, x, z) && SessionInv(z.ses)
    ensures var c := y.ses.closer;
            z == Local(GiveBack(y.pool, y.ses.link.release),
                       y.ses.(link := UNLINKED, renewals := DrainAndWait(y.ses.renewals),
                              closeDone := y.ses.closeDone || (!c.release && c.ok),
                              closer := if c.release || c.ok then Idle else Reopening),
                       y.book)
  {
    z := Then(sid, x, y, CloserResets);
    DrainEmpties(sid, z, y.ses.renewals.nextDrain);
    var w := WithRenewals(z, Emptied(z.ses.renewals, y.ses.renewals.nextDrain));
    LeadsOn(sid, x, z, w);
    FinishedIsWaited(Drain(y.ses.renewals), y.ses.renewals.nextDrain);
    z := Then(sid, x, w, CloserResetReturns);
  }

  /** resetDataPlane by itself, as Pause and Resume call it. */
  function ResetAlone(x: Local): Local {
    Local(GiveBack(x.pool, x.ses.link.release), x.ses.(link := UNLINKED, renewals := DrainAndWait(x.ses.renewals)),
          x.book)
  }

  lemma ResetIsARun(sid: nat, x: Local)
    requires SessionInv(x.ses) && x.ses.closer.Idle? && x.ses.pending.None?
    ensures Leads(sid, x, ResetAlone(x)) && SessionInv(ResetAlone(x).ses)
  {
    LeadsNowhere(sid, x);
    var y := Then(sid, x, x, DoReset);
    DrainEmpties(sid, y, x.ses.renewals.nextDrain);
    var w := WithRenewals(y, Emptied(y.ses.renewals, x.ses.renewals.nextDrain));
    LeadsOn(sid, x, y, w);
    FinishedIsWaited(Drain(x.ses.renewals), x.ses.renewals.nextDrain);
    y := Then(sid, x, w, DrainReturns(x.ses.renewals.nextDrain));
  }

  /** Release as a whole is a run of its blocks, of loops that exit and of signals received. */
  lemma ReleaseIsARun(sid: nat, x: Local)
    requires SessionInv(x.ses) && x.ses.closer.Idle? && x.ses.pending.None?
    ensures Leads(sid, x, Released(x)) && SessionInv(Released(x).ses)
  {
    LeadsNowhere(sid, x);
    var y := Then(sid, x, x, EnterRelease);
    y := Silences(sid, x, y);
    y := Resets(sid, x, y);
    assert y.ses == Released(x).ses;
  }

  /** So is Close, whether it succeeds, fails or finds the session closed. */
  lemma CloseIsARun(sid: nat, x: Local, ok: bool)
    requires SessionInv(x.ses) && x.ses.closer.Idle? && x.ses.pending.None?
    ensures Leads(sid, x, Closed(x, ok)) && SessionInv(Closed(x, ok).ses)
  {
    LeadsNowhere(sid, x);
    var y := Then(sid, x, x, EnterClose);
    if !x.ses.closeDone {
      y := Terminates(sid, x, y, ok);
      assert y.ses.closeDone == ok;
      if !ok {
        y := Then(sid, x, y, CloserReopens);
      }
      assert y.ses == Closed(x, ok).ses;
    }
  }

  /** Close from its lock on, up to the end of resetDataPlane. */
  lemma Terminates(sid: nat, x: Local, y: Local, ok: bool) returns (z: Local)
    requires Leads(sid, x, y) && SessionInv(y.ses) && y.ses.closer == Entered(false) && y.ses.pending.None?
             && !y.ses.closeDone
    ensures Leads(sid, x, z) && SessionInv(z.ses)
    ensures z.pool == Quiet(y).pool && z.book == y.book
    ensures z.ses == Quiet(y).ses.(closed := true, closeDone := ok,
                                   terminations := y.ses.terminations + (if ok then 1 else 0),
                                   closer := if ok then Idle else Reopening)
  {
    z := Silences(sid, x, y);
    z := Then(sid, x, z, TerminateReplies(ok));
    z := Resets(sid, x, z);
  }

  /**
   * After either call nothing is left to cancel or to wait for, no loop was added,
   * none of the session's own runs, and none at all if no other call was draining.
   */
  lemma QuiescedHoldsNothing(sid: nat, x: Local)
    requires SessionInv(x.ses) && x.ses.closer.Idle? && x.ses.pending.None?
    ensures var r, q := x.ses.renewals, Quiesced(x.ses.renewals);
            && RenewalInv(q) && q.cancel.None? && q.dones == [] && q.loops.Keys == r.loops.Keys
            && (forall l | l in r.dones :: !Running(q, l))
            && ((forall d | d in r.drains :: r.drains[d] == []) ==> forall l :: !Running(q, l))
  {
    ReleaseIsARun(sid, x);
    var r, q := x.ses.renewals, Quiesced(x.ses.renewals);
    ExitsSpec(Cancel(r).loops, r.dones);
    ExitsSpec(Cancel(DrainAndWait(r)).loops, DrainAndWait(r).dones);
    if forall d | d in x.ses.renewals.drains :: x.ses.renewals.drains[d] == [] {
      NothingHeldNothingRuns(q);
    }
  }

  // ----- Close can always be brought to success -----

  lemma Unlocks(sid: nat, x: Local, y: Local) returns (z: Local)
    requires Leads(sid, x, y) && SessionInv(y.ses)
    ensures Leads(sid, x, z) && SessionInv(z.ses) && z.ses.pending.None? && z.ses.closer == y.ses.closer
  {
    z := y;
    if y.ses.pending.Some? {
      z := Then(sid, x, y, DoFinishConfigure);
    }
  }

  /** Whatever call holds closeMu and has not begun to reset, it can come to that. */
  lemma ComesToReset(sid: nat, x: Local) returns (z: Local)
    requires SessionInv(x.ses)
    ensures Leads(sid, x, z) && SessionInv(z.ses) && z.ses.pending.None?
    ensures z.ses.closer.Resetting? || z.ses.closer.Draining? || z.ses.closer.Reopening? || z.ses.closer.Idle?
  {
    LeadsNowhere(sid, x);
    z := Unlocks(sid, x, x);
    if z.ses.closer.Entered? {
      z := Silences(sid, x, z);
    }
    if z.ses.closer.Shutting? {
      z := Collects(sid, x, z);
    }
    if z.ses.closer.Terminating? {
      z := Then(sid, x, z, TerminateReplies(true));
    }
  }

  /** Whatever call holds closeMu, it can run to its end. */
  lemma ComesIdle(sid: nat, x: Local) returns (z: Local)
    requires SessionInv(x.ses)
    ensures Leads(sid, x, z) && SessionInv(z.ses) && z.ses.closer.Idle? && z.ses.pending.None?
  {
    z := ComesToReset(sid, x);
    if z.ses.closer.Resetting? {
      z := Resets(sid, x, z);
    }
    if z.ses.closer.Draining? {
      z := Collects(sid, x, z);
    }
    if z.ses.closer.Reopening? {
      z := Then(sid, x, z, CloserReopens);
    }
  }

  /** The holder of closeMu gets the signals it waits for. */
  lemma Collects(sid: nat, x: Local, y: Local) returns (z: Local)
    requires Leads(sid, x, y) && SessionInv(y.ses) && y.ses.pending.None?
    requires y.ses.closer.Shutting? || y.ses.closer.Draining?
    ensures Leads(sid, x, z) && SessionInv(z.ses) && z.ses.pending.None?
    ensures y.ses.closer.Shutting? ==> z.ses.closer.Terminating? || z.ses.closer.Resetting?
    ensures y.ses.closer.Draining? ==> z.ses.closer.Idle? || z.ses.closer.Reopening?
  {
    DrainEmpties(sid, y, y.ses.closer.drain);
    var w := WithRenewals(y, Emptied(y.ses.renewals, y.ses.closer.drain));
    LeadsOn(sid, x, y, w);
    z := Then(sid, x, w, if y.ses.closer.Shutting? then CloserShutReturns else CloserResetReturns);
  }

  /**
   * From any state of a session, failed Close calls included, a Close can succeed, and it is
   * the only one that does.
   */
  lemma CloseCanSucceed(sid: nat, x: Local) returns (y: Local)
    requires SessionInv(x.ses)
    ensures Leads(sid, x, y) && SessionInv(y.ses)
    ensures y.ses.closer.Idle? && y.ses.closeDone && y.ses.terminations == 1 && Latched(y.ses)
  {
    var z := ComesIdle(sid, x);
    CloseIsARun(sid, z, true);
    y := Closed(z, true);
    LeadsOn(sid, x, z, y);
  }

  // ----- In the whole system -----

  lemma {:induction false} RunInSystem(s: S.Sys, id: nat, actions: seq<Action>) returns (events: seq<S.Event>)
    requires id in s.sessions && IsRun(id, S.View(s, id), actions)
    ensures S.IsRun(s, events) && id in S.After(s, events).sessions
    ensures S.View(S.After(s, events), id) == After(id, S.View(s, id), actions)
    decreases |actions|
  {
    if actions == [] {
      events := [];
    } else {
      var e := S.Act(id, actions[0]);
      var rest := RunInSystem(S.Next(s, e), id, actions[1..]);
      events := [e] + rest;
      assert events[1..] == rest;
    }
  }

  /** In every reachable state of the system, every session has a run that closes it with one successful termination. */
  lemma EverySessionCanClose(s: S.Sys, id: nat) returns (events: seq<S.Event>)
    requires S.Reachable(s) && id in s.sessions
    ensures S.IsRun(s, events) && id in S.After(s, events).sessions
    ensures var t := S.After(s, events).sessions[id]; t.closeDone && t.terminations == 1 && Latched(t)
  {
    S.ReachableInv(s);
    assert S.LocalInv(id, S.View(s, id));
    var y := CloseCanSucceed(id, S.View(s, id));
    var actions :| IsRun(id, S.View(s, id), actions) && After(id, S.View(s, id), actions) == y;
    events := RunInSystem(s, id, actions);
  }
}
