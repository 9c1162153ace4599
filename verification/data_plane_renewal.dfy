/**
 * Ownership of credential renewal loops (sandbox/session.go:565-624).
 *
 * A loop stands for its goroutine, its context (`cancelled`) and its done
 * channel, which is closed exactly when the goroutine has `exited`. A drain is a
 * call that has taken exit signals out of the session and is still waiting.
 */
module DataPlaneRenewal {
  import opened Wrappers

  datatype Loop = Loop(cancelled: bool, exited: bool)

  datatype Renewals = Renewals(loops: map<nat, Loop>, nextLoop: nat,
                               cancel: Option<nat>, dones: seq<nat>,
                               drains: map<nat, seq<nat>>, nextDrain: nat)

  const NONE := Renewals(map[], 0, None, [], map[], 0)

  /** cancelRenewalLocked: signal the current loop, do not wait for it. */
  function Cancel(r: Renewals): Renewals {
    if r.cancel.Some? && r.cancel.value in r.loops then
      r.(cancel := None, loops := r.loops[r.cancel.value := r.loops[r.cancel.value].(cancelled := true)])
    else
      r.(cancel := None)
  }

  /** The exit signals that have not fired yet, in order. */
  function StillRunning(loops: map<nat, Loop>, dones: seq<nat>): seq<nat> {
    if dones == [] then []
    else
      var rest := StillRunning(loops, dones[1..]);
      if dones[0] in loops && !loops[dones[0]].exited then [dones[0]] + rest else rest
  }

  /** restartCredentialRenewalLocked; `wanted` is its guard on latch, credential and expiry. */
  function Restart(r: Renewals, wanted: bool): Renewals {
    var c := Cancel(r);
    var kept := c.(dones := StillRunning(c.loops, c.dones));
    if !wanted then kept
    else kept.(loops := kept.loops[kept.nextLoop := Loop(false, false)],
               cancel := Some(kept.nextLoop),
               dones := kept.dones + [kept.nextLoop],
               nextLoop := kept.nextLoop + 1)
  }

  /** drainRenewalLocked; the handed-back signals become drain number `r.nextDrain`. */
  function Drain(r: Renewals): Renewals {
    var c := Cancel(r);
    c.(dones := [], drains := c.drains[c.nextDrain := c.dones], nextDrain := c.nextDrain + 1)
  }

  /** The loop's goroutine returns, for whatever reason. */
  function Exit(r: Renewals, l: nat): Renewals
    requires l in r.loops
  {
    r.(loops := r.loops[l := r.loops[l].(exited := true)])
  }

  /** waitRenewalStopped receives one exit signal. */
  predicate CanAwait(r: Renewals, d: nat) {
    d in r.drains && r.drains[d] != [] && r.drains[d][0] in r.loops && r.loops[r.drains[d][0]].exited
  }

  function Await(r: Renewals, d: nat): Renewals
    requires CanAwait(r, d)
  {
    r.(drains := r.drains[d := r.drains[d][1..]])
  }

  /** waitRenewalStopped returns. */
  predicate CanFinish(r: Renewals, d: nat) {
    d in r.drains && r.drains[d] == []
  }

  function Finish(r: Renewals, d: nat): Renewals
    requires CanFinish(r, d)
  {
    r.(drains := r.drains - {d})
  }

  // ----- Invariant -----

  ghost predicate Distinct(s: seq<nat>) {
    forall i, j | 0 <= i < j < |s| :: s[i] != s[j]
  }

  ghost predicate Running(r: Renewals, l: nat) {
    l in r.loops && !r.loops[l].exited
  }

  ghost predicate InDrain(r: Renewals, l: nat, d: nat) {
    d in r.drains && l in r.drains[d]
  }

  /** At most one loop is uncancelled, and it is the one the session can cancel. */
  ghost predicate OneLive(r: Renewals) {
    && (forall l | l in r.loops :: !r.loops[l].cancelled ==> r.cancel == Some(l))
    && (r.cancel.Some? ==> r.cancel.value in r.loops && !r.loops[r.cancel.value].cancelled)
  }

  /** No exit signal is held twice. */
  ghost predicate HeldOnce(r: Renewals) {
    && Distinct(r.dones)
    && (forall d | d in r.drains :: Distinct(r.drains[d]))
    && (forall l, d | l in r.dones :: !InDrain(r, l, d))
    && (forall l, d, e | InDrain(r, l, d) && InDrain(r, l, e) :: d == e)
  }

  /** Every running loop's exit signal is held. */
  ghost predicate HeldSomewhere(r: Renewals) {
    forall l | Running(r, l) :: l in r.dones || exists d :: InDrain(r, l, d)
  }

  /** Every loop whose exit signal a drain has taken has been told to stop. */
  ghost predicate DrainedAreCancelled(r: Renewals) {
    forall l, d | InDrain(r, l, d) :: l in r.loops && r.loops[l].cancelled
  }

  ghost predicate Known(r: Renewals) {
    && (forall l | l in r.loops :: l < r.nextLoop)
    && (forall l | l in r.dones :: l in r.loops)
    && (forall d | d in r.drains :: d < r.nextDrain)
    && (forall l, d | InDrain(r, l, d) :: l in r.loops)
  }

  ghost predicate RenewalInv(r: Renewals) {
    Known(r) && OneLive(r) && HeldOnce(r) && HeldSomewhere(r) && DrainedAreCancelled(r)
  }

  lemma {:induction false} StillRunningSpec(loops: map<nat, Loop>, dones: seq<nat>)
    ensures forall l :: l in StillRunning(loops, dones) <==> l in dones && l in loops && !loops[l].exited
    ensures Distinct(dones) ==> Distinct(StillRunning(loops, dones))
  {
    if dones != [] {
      StillRunningSpec(loops, dones[1..]);
    }
  }

  lemma CancelKeeps(r: Renewals)
    requires RenewalInv(r)
    ensures RenewalInv(Cancel(r))
    ensures forall l | l in Cancel(r).loops :: Cancel(r).loops[l].cancelled
  {
    var c := Cancel(r);
    assert forall l, d :: InDrain(c, l, d) == InDrain(r, l, d);
    assert forall l :: Running(c, l) == Running(r, l);
  }

  lemma RestartKeeps(r: Renewals, wanted: bool)
    requires RenewalInv(r)
    ensures RenewalInv(Restart(r, wanted))
  {
    CancelKeeps(r);
    var c := Cancel(r);
    var q := Restart(r, wanted);
    StillRunningSpec(c.loops, c.dones);
    assert forall l, d :: InDrain(q, l, d) == InDrain(c, l, d);
    forall l | Running(q, l)
      ensures l in q.dones || exists d :: InDrain(q, l, d)
    {
      if l in c.loops {
        assert Running(c, l);
        if l !in c.dones {
          var d :| InDrain(c, l, d);
          assert InDrain(q, l, d);
        }
      }
    }
  }

  lemma DrainKeeps(r: Renewals)
    requires RenewalInv(r)
    ensures RenewalInv(Drain(r))
    ensures forall l | l in Drain(r).loops :: Drain(r).loops[l].cancelled
  {
    CancelKeeps(r);
    var c := Cancel(r);
    var q := Drain(r);
    assert forall l, d :: InDrain(q, l, d) == (InDrain(c, l, d) || (d == r.nextDrain && l in c.dones));
    forall l | Running(q, l)
      ensures exists d :: InDrain(q, l, d)
    {
      assert Running(c, l);
      if l in c.dones {
        assert InDrain(q, l, r.nextDrain);
      } else {
        var d :| InDrain(c, l, d);
        assert InDrain(q, l, d);
      }
    }
  }

  lemma ExitKeeps(r: Renewals, l: nat)
    requires RenewalInv(r) && l in r.loops
    ensures RenewalInv(Exit(r, l))
  {
    var q := Exit(r, l);
    assert forall x, d :: InDrain(q, x, d) == InDrain(r, x, d);
    forall x | Running(q, x)
      ensures x in q.dones || exists d :: InDrain(q, x, d)
    {
      assert Running(r, x);
      if x !in r.dones {
        var d :| InDrain(r, x, d);
        assert InDrain(q, x, d);
      }
    }
  }

  lemma AwaitKeeps(r: Renewals, d: nat)
    requires RenewalInv(r) && CanAwait(r, d)
    ensures RenewalInv(Await(r, d))
  {
    var q := Await(r, d);
    assert forall x, e :: InDrain(q, x, e) ==> InDrain(r, x, e);
    forall x | Running(q, x)
      ensures x in q.dones || exists e :: InDrain(q, x, e)
    {
      assert Running(r, x);
      if x !in r.dones {
        var e :| InDrain(r, x, e);
        assert InDrain(q, x, e);
      }
    }
  }

  lemma FinishKeeps(r: Renewals, d: nat)
    requires RenewalInv(r) && CanFinish(r, d)
    ensures RenewalInv(Finish(r, d))
  {
    var q := Finish(r, d);
    assert forall x, e :: InDrain(q, x, e) == InDrain(r, x, e);
    forall x | Running(q, x)
      ensures x in q.dones || exists e :: InDrain(q, x, e)
    {
      assert Running(r, x);
      if x !in r.dones {
        var e :| InDrain(r, x, e);
        assert InDrain(q, x, e);
      }
    }
  }

  /** Once nothing is held back, nothing runs. */
  lemma NothingHeldNothingRuns(r: Renewals)
    requires RenewalInv(r) && r.dones == []
    requires forall d | d in r.drains :: r.drains[d] == []
    ensures forall l :: !Running(r, l)
  {
    assert forall l, d :: !InDrain(r, l, d);
  }

  /**
   * A waiter is never stuck: it is done, or it can receive its next signal, or it
   * waits for a goroutine that still runs and has been told to stop.
   */
  lemma DrainProgress(r: Renewals, d: nat)
    requires RenewalInv(r) && d in r.drains
    ensures CanAwait(r, d) || CanFinish(r, d) || (Running(r, r.drains[d][0]) && r.loops[r.drains[d][0]].cancelled)
  {
    if r.drains[d] != [] {
      assert InDrain(r, r.drains[d][0], d);
    }
  }
}
