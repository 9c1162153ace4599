/**
 * The client and session objects, as the source updates them. Each method is
 * proved to have exactly the effect of the step functions of DataPlanePool,
 * DataPlaneRenewal and DataPlaneSession, about which the theorems are proved.
 */
module DataPlaneHandles {
  import opened Wrappers
  import opened DataPlanePool
  import opened DataPlaneRenewal
  import opened DataPlaneSession
  import opened DataPlaneClose
  import Y = DataPlaneSystem
  import C = DataPlaneConfigure

  class Client {
    var entries: map<string, SharedClient>
    var nextEntry: nat
    var leases: map<nat, Lease>
    var nextLease: nat

    ghost function View(): Pool
      reads this
    {
      Pool(entries, nextEntry, leases, nextLease)
    }

    constructor ()
      ensures View() == EMPTY
    {
      entries, nextEntry, leases, nextLease := map[], 0, map[], 0;
    }

    /** acquireDataPlaneHTTPClient, once dataPlaneOrigin has accepted the endpoint. */
    method AcquireDataPlaneHTTPClient(origin: string, owner: nat) returns (release: nat)
      modifies this
      ensures View() == Acquire(old(View()), origin, owner)
      ensures release == old(nextLease)
    {
      if origin !in entries {
        entries := entries[origin := SharedClient(nextEntry, 0)];
        nextEntry := nextEntry + 1;
      }
      var shared := entries[origin];
      entries := entries[origin := SharedClient(shared.id, shared.references + 1)];
      release := nextLease;
      leases := leases[release := Lease(origin, shared.id, owner)];
      nextLease := nextLease + 1;
      assert entries == Acquire(old(View()), origin, owner).entries;
    }

    /** Calling a release closure; a second call does nothing. */
    method FireRelease(release: nat)
      modifies this
      ensures View() == Fire(old(View()), release)
    {
      if release !in leases {
        return;
      }
      var captured := leases[release];
      leases := leases - {release};
      if captured.origin !in entries || entries[captured.origin].id != captured.entry {
        return;
      }
      var references := entries[captured.origin].references - 1;
      entries := entries[captured.origin := SharedClient(captured.entry, references)];
      if references > 0 {
        return;
      }
      entries := entries - {captured.origin};
      assert entries == old(entries) - {captured.origin};
    }

    /** closeDataPlaneHTTPClients deletes the entries one by one, in any order. */
    method CloseDataPlaneHTTPClients()
      modifies this`entries
      ensures View() == Evict(old(View()))
    {
      while entries != map[]
        decreases |entries|
      {
        var origin :| origin in entries;
        assert entries.Keys == (entries - {origin}).Keys + {origin};
        entries := entries - {origin};
      }
    }
  }

  /** The two pool blocks of configureDataPlane back to back. */
  function Switched(sid: nat, x: Local, endpoint: Endpoint, origin: string,
                    minted: Option<Minted>, fromHint: bool): Local
  {
    var p := Pending(endpoint, x.pool.nextLease, minted, fromHint);
    Switch(Local(Acquire(x.pool, origin, sid), x.ses.(pending := Some(p)), x.book), p)
  }

  /** What configureDataPlane does when nothing runs between its two pool blocks. */
  function Configured(sid: nat, x: Local, endpoint: Endpoint, origin: Option<string>,
                      minted: Option<Minted>, fromHint: bool): Local
  {
    if x.ses.closed || (NeedsTransport(x.ses.link, endpoint) && origin.None?) then x
    else if NeedsTransport(x.ses.link, endpoint) then
      Settle(sid, Switched(sid, x, endpoint, origin.value, minted, fromHint), endpoint, minted, fromHint)
    else Settle(sid, x, endpoint, minted, fromHint)
  }

  /** It is the first step of configureDataPlane, then the second where there is one. */
  lemma ConfiguredIsTheSteps(sid: nat, x: Local, endpoint: Endpoint, origin: Option<string>,
                             minted: Option<Minted>, fromHint: bool)
    requires x.ses.pending.None?
    ensures var y := Configure(sid, x, endpoint, origin, minted, fromHint);
            Configured(sid, x, endpoint, origin, minted, fromHint) ==
            if y.ses.pending.Some? then FinishConfigure(sid, y, y.ses.pending.value) else y
  {
    SettleKeepsPending(sid, x, endpoint, minted, fromHint);
  }

  /** What a call means for its caller. */
  lemma ConfiguredMeans(sid: nat, x: Local, endpoint: Endpoint, origin: Option<string>,
                        minted: Option<Minted>, fromHint: bool)
    requires Y.LocalInv(sid, x) && PoolInv(x.pool) && Y.BookInv(x.book) && x.ses.pending.None?
    ensures C.Configures(sid, x, Configured(sid, x, endpoint, origin, minted, fromHint), endpoint, origin, minted,
                         fromHint)
  {
    ConfiguredIsTheSteps(sid, x, endpoint, origin, minted, fromHint);
    C.CallConfigures(sid, x, endpoint, origin, minted, fromHint);
  }

  lemma SettleKeepsPending(sid: nat, x: Local, endpoint: Endpoint, minted: Option<Minted>, fromHint: bool)
    ensures Settle(sid, x, endpoint, minted, fromHint).ses.pending == x.ses.pending
  {
  }

  /** The goroutines of renewal loops, and the calls that wait for some of them. */
  datatype Runtime = Runtime(loops: map<nat, Loop>, nextLoop: nat, drains: map<nat, seq<nat>>, nextDrain: nat)

  class Handle {
    const id: nat
    const client: Client
    var endpoint: Endpoint
    var dataPlaneClient: Option<Endpoint>
    var release: Option<nat>
    var fromHint: bool
    var credential: Option<nat>
    var credentialEndpoint: Endpoint
    var expires: bool
    var renewalCancel: Option<nat>
    var renewalDones: seq<nat>
    var runtime: Runtime
    var closed: bool
    var released: bool
    var closeDone: bool
    var terminations: nat
    ghost var book: Book  // which mint went where

    ghost function RenewalView(): Renewals
      reads this
    {
      Renewals(runtime.loops, runtime.nextLoop, renewalCancel, renewalDones, runtime.drains, runtime.nextDrain)
    }

    ghost function LinkView(): Link
      reads this
    {
      Link(endpoint, dataPlaneClient, release, fromHint, credential, credentialEndpoint, expires)
    }

    /** The session as the step functions see it between two calls. */
    ghost function View(): Local
      reads this, client
    {
      Local(client.View(),
            Session(LinkView(), RenewalView(), None, closed, released, closeDone, terminations, Idle, map[]),
            book)
    }

    constructor (id: nat, client: Client)
      ensures this.id == id && this.client == client
      ensures View() == Local(client.View(), FRESH, BLANK)
    {
      this.id, this.client := id, client;
      endpoint, dataPlaneClient, release, fromHint := "", None, None, false;
      credential, credentialEndpoint, expires := None, "", false;
      renewalCancel, renewalDones, runtime := None, [], Runtime(map[], 0, map[], 0);
      closed, released, closeDone, terminations := false, false, false, 0;
      book := BLANK;
    }

    /** cancelRenewalLocked. */
    method CancelRenewalLocked()
      modifies this`runtime, this`renewalCancel
      ensures RenewalView() == Cancel(old(RenewalView()))
    {
      if renewalCancel.Some? {
        if renewalCancel.value in runtime.loops {
          var loop := runtime.loops[renewalCancel.value];
          runtime := runtime.(loops := runtime.loops[renewalCancel.value := loop.(cancelled := true)]);
        }
        renewalCancel := None;
      }
    }

    /** The slices.DeleteFunc call: keep the exit signals that have not fired. */
    method DeleteFired()
      modifies this`renewalDones
      ensures renewalDones == StillRunning(runtime.loops, old(renewalDones))
    {
      var kept: seq<nat> := [];
      for i := 0 to |renewalDones|
        invariant kept + StillRunning(runtime.loops, renewalDones[i..]) == StillRunning(runtime.loops, renewalDones)
        invariant renewalDones == old(renewalDones)
      {
        var done := renewalDones[i];
        assert renewalDones[i..] == [done] + renewalDones[i + 1..];
        if done in runtime.loops && !runtime.loops[done].exited {
          kept := kept + [done];
        }
      }
      assert renewalDones[|renewalDones|..] == [];
      renewalDones := kept;
    }

    /** restartCredentialRenewalLocked. */
    method RestartCredentialRenewalLocked()
      modifies this`runtime, this`renewalCancel, this`renewalDones
      ensures RenewalView() == Restart(old(RenewalView()), !closed && credential.Some? && expires)
    {
      CancelRenewalLocked();
      DeleteFired();
      if closed || credential.None? || !expires {
        return;
      }
      var loop := runtime.nextLoop;
      runtime := runtime.(loops := runtime.loops[loop := Loop(false, false)], nextLoop := loop + 1);
      renewalCancel := Some(loop);
      renewalDones := renewalDones + [loop];
    }

    /** drainRenewalLocked: the exit signals handed back are a drain in progress. */
    method DrainRenewalLocked() returns (drain: nat)
      modifies this`runtime, this`renewalCancel, this`renewalDones
      ensures RenewalView() == Drain(old(RenewalView()))
      ensures drain == old(runtime.nextDrain)
    {
      CancelRenewalLocked();
      drain := runtime.nextDrain;
      runtime := runtime.(drains := runtime.drains[drain := renewalDones], nextDrain := drain + 1);
      renewalDones := [];
    }

    /** setDataPlaneCredentialLocked; the credential received goes by the next mint number. */
    method SetDataPlaneCredentialLocked(minted: Minted, mint: nat)
      requires mint == book.nextMint
      modifies this`credential, this`credentialEndpoint, this`expires, this`book,
               this`runtime, this`renewalCancel, this`renewalDones
      ensures closed ==> LinkView() == old(LinkView()) && RenewalView() == old(RenewalView()) && book == old(book)
      ensures !closed ==>
                && LinkView() == InstallLink(old(LinkView()), minted, old(book).nextMint)
                && RenewalView() == Restart(old(RenewalView()), !minted.blank && minted.expires)
                && book == InstallBook(old(book), id, minted, endpoint)
    {
      if closed {
        return;
      }
      StoreCredential(minted, mint);
      RestartCredentialRenewalLocked();
    }

    /** The credential, the endpoint it is minted for and its expiry. */
    method StoreCredential(minted: Minted, mint: nat)
      requires mint == book.nextMint
      modifies this`credential, this`credentialEndpoint, this`expires, this`book
      ensures LinkView() == InstallLink(old(LinkView()), minted, mint)
      ensures book == InstallBook(old(book), id, minted, endpoint)
    {
      if minted.blank {
        credential := None;
      } else {
        credential := Some(mint);
        book := book.(nextMint := mint + 1, owner := book.owner[mint := id],
                      installed := book.installed[mint := endpoint]);
      }
      credentialEndpoint := endpoint;
      expires := minted.expires;
    }

    /** Call the held release closure, if there is one, and drop it. */
    method DropTransport()
      modifies this`release, client
      ensures release == None && client.View() == GiveBack(old(client.View()), old(release))
    {
      if release.Some? {
        client.FireRelease(release.value);
        release := None;
      }
    }

    /** The transport branch of configureDataPlane. */
    method SwitchTransport(endpoint: Endpoint, origin: string)
      modifies this, client
      ensures closed == old(closed) && released == old(released) && closeDone == old(closeDone)
              && terminations == old(terminations)
      ensures client.View() == GiveBack(Acquire(old(client.View()), origin, id), old(release))
      ensures LinkView() == SwitchLink(old(LinkView()), endpoint, old(client.View()).nextLease)
      ensures RenewalView() == Cancel(old(RenewalView()))
      ensures book == SwitchBook(old(book), old(LinkView()), endpoint)
    {
      var lease := client.AcquireDataPlaneHTTPClient(origin, id);
      CancelRenewalLocked();
      DropTransport();
      PointAt(endpoint, lease);
    }

    /** The session's client is bound to the endpoint, and an unbound credential is adopted there. */
    method PointAt(endpoint: Endpoint, lease: nat)
      modifies this`endpoint, this`dataPlaneClient, this`release, this`credentialEndpoint, this`book
      ensures LinkView() == SwitchLink(old(LinkView()), endpoint, lease)
      ensures book == SwitchBook(old(book), old(LinkView()), endpoint)
    {
      this.endpoint := endpoint;
      dataPlaneClient := Some(endpoint);
      release := Some(lease);
      if credential.Some? && credentialEndpoint == "" {
        credentialEndpoint := endpoint;
        book := book.(adopted := book.adopted[credential.value := endpoint]);
      }
    }

    /** The end of configureDataPlane. */
    method SettleTransport(endpoint: Endpoint, minted: Option<Minted>, mint: nat, fromHint: bool)
      requires mint == book.nextMint
      modifies this
      ensures View() == Settle(id, old(View()), endpoint, minted, fromHint)
    {
      if endpoint != "" && this.endpoint == endpoint {
        this.fromHint := fromHint;
      }
      if minted.Some? {
        SetDataPlaneCredentialLocked(minted.value, mint);
      }
    }

    /** The invariants of the session, of the pool and of the book. */
    ghost predicate Sound()
      reads this, client
    {
      Y.LocalInv(id, View()) && PoolInv(client.View()) && Y.BookInv(book)
    }

    /** configureDataPlane; `origin` is the answer of dataPlaneOrigin. */
    method ConfigureDataPlane(endpoint: Endpoint, origin: Option<string>, minted: Option<Minted>, mint: nat,
                              fromHint: bool)
      requires Sound() && mint == book.nextMint
      modifies this, client
      ensures View() == Configured(id, old(View()), endpoint, origin, minted, fromHint)
      ensures C.Configures(id, old(View()), View(), endpoint, origin, minted, fromHint)
    {
      ConfiguredMeans(id, View(), endpoint, origin, minted, fromHint);
      ConfigureLocked(endpoint, origin, minted, mint, fromHint);
    }

    /** The block under the lock. */
    method ConfigureLocked(endpoint: Endpoint, origin: Option<string>, minted: Option<Minted>, mint: nat,
                           fromHint: bool)
      requires mint == book.nextMint
      modifies this, client
      ensures View() == Configured(id, old(View()), endpoint, origin, minted, fromHint)
    {
      if closed {
        return;
      }
      if endpoint != "" && (this.endpoint != endpoint || dataPlaneClient.None?) {
        if origin.None? {
          return;
        }
        SwitchTransport(endpoint, origin.value);
        assert View() == Switched(id, old(View()), endpoint, origin.value, minted, fromHint);
      }
      SettleTransport(endpoint, minted, mint, fromHint);
    }

    /** waitRenewalStopped. DrainEmpties: what it waits for is a run of exits and receives. */
    method WaitRenewalStopped(drain: nat)
      requires drain in runtime.drains
      modifies this`runtime
      ensures RenewalView() == Waited(old(RenewalView()), drain)
    {
      var dones := runtime.drains[drain];
      for i := 0 to |dones|
        invariant runtime == old(runtime).(loops := runtime.loops)
        invariant Exits(runtime.loops, dones[i..]) == Exits(old(runtime.loops), dones)
      {
        // The receive on this channel proceeds only once the loop's goroutine is gone.
        if dones[i] in runtime.loops {
          var loop := runtime.loops[dones[i]];
          runtime := runtime.(loops := runtime.loops[dones[i] := loop.(exited := true)]);
        }
        assert dones[i..][1..] == dones[i + 1..];
      }
      runtime := runtime.(drains := runtime.drains - {drain});
    }

    /** closeDataPlane. */
    method CloseDataPlane()
      modifies this
      ensures closed && RenewalView() == DrainAndWait(old(RenewalView()))
      ensures LinkView() == old(LinkView()) && book == old(book)
      ensures released == old(released) && closeDone == old(closeDone) && terminations == old(terminations)
    {
      closed := true;
      var drain := DrainRenewalLocked();
      WaitRenewalStopped(drain);
    }

    /** resetDataPlane. */
    method ResetDataPlane()
      modifies this, client
      ensures book == old(book)
      ensures closed == old(closed) && released == old(released) && closeDone == old(closeDone)
              && terminations == old(terminations)
      ensures LinkView() == UNLINKED && client.View() == GiveBack(old(client.View()), old(release))
      ensures RenewalView() == DrainAndWait(old(RenewalView()))
    {
      var drain := DrainRenewalLocked();
      ClearLink();
      DropTransport();
      WaitRenewalStopped(drain);
    }

    /** Everything about the endpoint but the release closure. */
    method ClearLink()
      modifies this`endpoint, this`dataPlaneClient, this`fromHint, this`credential, this`credentialEndpoint,
               this`expires
      ensures LinkView() == UNLINKED.(release := release)
    {
      endpoint, dataPlaneClient, fromHint := "", None, false;
      credential, credentialEndpoint, expires := None, "", false;
    }

    /** Release: the session is left shut and holding nothing, and the whole call is a run of its blocks. */
    method Release()
      requires SessionInv(View().ses)
      modifies this, client
      ensures View() == Released(old(View()))
      ensures Leads(id, old(View()), View()) && SessionInv(View().ses)
    {
      ReleaseIsARun(id, View());
      released := true;
      CloseDataPlane();
      ResetDataPlane();
    }

    /** Close, a run of blocks as well; `terminated` is whether the terminate RPC succeeds, if it is made. */
    method Close(terminated: bool)
      requires SessionInv(View().ses)
      modifies this, client
      ensures View() == Closed(old(View()), terminated)
      ensures Leads(id, old(View()), View()) && SessionInv(View().ses)
    {
      CloseIsARun(id, View(), terminated);
      if closeDone {
        return;
      }
      Terminate(terminated);
    }

    /** What Close does on a session that is not closed. */
    method Terminate(terminated: bool)
      requires !closeDone
      modifies this, client
      ensures LinkView() == UNLINKED && RenewalView() == Quiesced(old(RenewalView()))
      ensures client.View() == GiveBack(old(client.View()), old(release)) && book == old(book)
      ensures closeDone == terminated && closed == (terminated || released) && released == old(released)
      ensures terminations == old(terminations) + (if terminated then 1 else 0)
    {
      CloseDataPlane();
      terminations := terminations + (if terminated then 1 else 0);
      ResetDataPlane();
      SettleClose(terminated);
    }

    /** The end of Close: a failure without release reopens the session. */
    method SettleClose(terminated: bool)
      requires closed && !closeDone
      modifies this`closed, this`closeDone
      ensures closed == (terminated || released) && closeDone == terminated
    {
      if !terminated {
        closed := released;
        return;
      }
      closeDone := true;
    }

    /** dataPlaneCredentialForEndpoint: a credential, nothing to attach, or a refusal. */
    method DataPlaneCredentialForEndpoint(target: Endpoint) returns (mint: Option<nat>, ok: bool)
      ensures (if ok then Some(mint) else None) == CredentialFor(LinkView(), target)
      ensures ok <==> credential.None? || credentialEndpoint == target
      ensures ok ==> mint == credential
    {
      if credential.None? {
        return None, true;
      }
      if credentialEndpoint != target {
        return None, false;
      }
      return credential, true;
    }
  }
}
