/**
 * What configureDataPlane does for its caller, spelled out: where the session points
 * afterwards, whose credential it holds, what it renews, and which inputs change
 * nothing (sandbox/session.go:446-490, 550-588); and what a request then carries.
 */
module DataPlaneConfigure {
  import opened Wrappers
  import opened DataPlanePool
  import opened DataPlaneRenewal
  import opened DataPlaneSession
  import opened DataPlaneSystem

  /** The transport has to change: another endpoint than the current one, or no client yet. */
  predicate Moves(l: Link, endpoint: Endpoint) {
    endpoint != "" && (l.endpoint != endpoint || l.client.None?)
  }

  /** A closure the session did not hold before, for the pooled entry of this origin. */
  ghost predicate NewTransport(sid: nat, x: Local, y: Local, origin: string) {
    && y.ses.link.release.Some? && y.ses.link.release.value in y.pool.leases
    && x.ses.link.release != y.ses.link.release
    && var lease := y.pool.leases[y.ses.link.release.value];
       lease.origin == origin && lease.owner == sid
  }

  /** Where the session points. */
  ghost predicate Points(l: Link, m: Link, endpoint: Endpoint, fromHint: bool) {
    if endpoint != "" then m.endpoint == endpoint && m.client == Some(endpoint) && m.fromHint == fromHint
    else m.endpoint == l.endpoint && m.client == l.client && m.fromHint == l.fromHint && m.release == l.release
  }

  /** The credential it holds: the one received, none, or the old one, bound here if it was unbound. */
  ghost predicate Credited(x: Local, y: Local, moved: bool, credential: Option<Minted>) {
    var l, m := x.ses.link, y.ses.link;
    match credential
    case Some(c) =>
      && m.expires == c.expires && m.binding == m.endpoint
      && (if c.blank then m.credential.None? && y.book.nextMint == x.book.nextMint
          else m.credential == Some(x.book.nextMint) && y.book.nextMint == x.book.nextMint + 1)
    case None =>
      && m.credential == l.credential && m.expires == l.expires && y.book.nextMint == x.book.nextMint
      && m.binding == if moved && l.credential.Some? && l.binding == "" then m.endpoint else l.binding
  }

  /** A new loop for a credential that expires, none otherwise; the old one is told to stop if anything changed. */
  ghost predicate Renewed(r: Renewals, q: Renewals, moved: bool, credential: Option<Minted>) {
    if credential.Some? && !credential.value.blank && credential.value.expires then
      && q.cancel.Some? && q.cancel.value !in r.loops && Running(q, q.cancel.value)
      && q.loops.Keys == r.loops.Keys + {q.cancel.value}
    else if moved || credential.Some? then q.cancel.None? && q.loops.Keys == r.loops.Keys
    else q == r
  }

  /** Everything else about the session. */
  predicate RestKept(s: Session, t: Session) {
    && t.closed == s.closed && t.released == s.released && t.closeDone == s.closeDone
    && t.terminations == s.terminations && t.closer == s.closer && t.requests == s.requests
  }

  /** A whole call of configureDataPlane. */
  ghost predicate Configures(sid: nat, x: Local, y: Local, endpoint: Endpoint, origin: Option<string>,
                             credential: Option<Minted>, fromHint: bool) {
    var moves := Moves(x.ses.link, endpoint);
    if x.ses.closed || (moves && origin.None?) then y == x
    else
      && Points(x.ses.link, y.ses.link, endpoint, fromHint)
      && (if moves then NewTransport(sid, x, y, origin.value)
          else y.pool == x.pool && y.ses.link.release == x.ses.link.release)
      && Credited(x, y, moves, credential)
      && Renewed(x.ses.renewals, y.ses.renewals, moves, credential)
      && RestKept(x.ses, y.ses) && y.ses.pending.None?
  }

  /** The second block of a call that holds the lock, on the transport it has acquired. */
  ghost predicate Completes(sid: nat, x: Local, y: Local, p: Pending) {
    && y.ses.link.endpoint == p.endpoint && y.ses.link.client == Some(p.endpoint) && y.ses.link.fromHint == p.fromHint
    && y.ses.link.release == Some(p.lease)
    && p.lease in x.pool.leases && p.lease in y.pool.leases && y.pool.leases[p.lease] == x.pool.leases[p.lease]
    && Credited(x, y, true, p.credential)
    && Renewed(x.ses.renewals, y.ses.renewals, true, p.credential)
    && RestKept(x.ses, y.ses) && y.ses.pending.None?
  }

  // ----- The parts -----

  lemma CancelMeans(r: Renewals)
    ensures Cancel(r).cancel.None? && Cancel(r).loops.Keys == r.loops.Keys && Cancel(r).nextLoop == r.nextLoop
  {
  }

  lemma RestartMeans(r: Renewals, wanted: bool)
    requires RenewalInv(r)
    ensures var q := Restart(r, wanted);
            if wanted then
              && q.cancel == Some(r.nextLoop) && r.nextLoop !in r.loops && Running(q, r.nextLoop)
              && q.loops.Keys == r.loops.Keys + {r.nextLoop}
            else q.cancel.None? && q.loops.Keys == r.loops.Keys
  {
    CancelMeans(r);
  }

  lemma InstallMeans(sid: nat, x: Local, c: Minted)
    requires SessionInv(x.ses) && !x.ses.closed
    ensures var y := Install(sid, x, c);
            && y.pool == x.pool && RestKept(x.ses, y.ses) && y.ses.pending == x.ses.pending
            && y.ses.link == x.ses.link.(credential := y.ses.link.credential, binding := y.ses.link.binding,
                                         expires := y.ses.link.expires)
            && Credited(x, y, false, Some(c)) && Renewed(x.ses.renewals, y.ses.renewals, false, Some(c))
  {
    RestartMeans(x.ses.renewals, !c.blank && c.expires);
  }

  /** The end of the call, the transport settled. */
  lemma SettleMeans(sid: nat, x: Local, endpoint: Endpoint, credential: Option<Minted>, fromHint: bool)
    requires SessionInv(x.ses) && !x.ses.closed && x.ses.pending.None?
    requires endpoint == "" || x.ses.link.endpoint == endpoint
    ensures var y := Settle(sid, x, endpoint, credential, fromHint);
            && Points(x.ses.link, y.ses.link, endpoint, fromHint) && y.ses.link.release == x.ses.link.release
            && y.pool == x.pool && RestKept(x.ses, y.ses) && y.ses.pending.None?
            && Credited(x, y, false, credential) && Renewed(x.ses.renewals, y.ses.renewals, false, credential)
  {
    var y := if endpoint != "" && x.ses.link.endpoint == endpoint
             then x.(ses := x.ses.(link := x.ses.link.(fromHint := fromHint))) else x;
    if credential.Some? {
      InstallMeans(sid, y, credential.value);
    }
  }

  /** Giving back another closure leaves this one. */
  lemma GiveBackKeeps(pool: Pool, release: Option<nat>, lease: nat)
    requires lease in pool.leases && release != Some(lease)
    ensures lease in GiveBack(pool, release).leases && GiveBack(pool, release).leases[lease] == pool.leases[lease]
  {
  }

  // ----- The machine's two blocks -----

  /** The second block. */
  lemma FinishCompletes(sid: nat, x: Local, p: Pending)
    requires LocalInv(sid, x) && PoolInv(x.pool) && x.ses.pending == Some(p)
    ensures Completes(sid, x, FinishConfigure(sid, x, p), p)
  {
    var y := Switch(x, p);
    SwitchKeepsSession(x, p);
    assert Holds(x.ses, p.lease) && x.ses.link.release != Some(p.lease);
    GiveBackKeeps(x.pool, x.ses.link.release, p.lease);
    CancelMeans(x.ses.renewals);
    SettleMeans(sid, y, p.endpoint, p.credential, p.fromHint);
    SwitchedCredit(x, p);
  }

  /** A moved session adopts its unbound credential; what comes after builds on that. */
  lemma SwitchedCredit(x: Local, p: Pending)
    ensures Credited(x, Switch(x, p), true, None) && Switch(x, p).ses.link.expires == x.ses.link.expires
    ensures Switch(x, p).ses.link.endpoint == p.endpoint
  {
  }

  /** The first block: the whole call where the transport stays, else the acquisition of a new one. */
  lemma ConfigureMeans(sid: nat, x: Local, endpoint: Endpoint, origin: Option<string>,
                       credential: Option<Minted>, fromHint: bool)
    requires LocalInv(sid, x) && PoolInv(x.pool) && x.ses.pending.None?
    ensures var y := Configure(sid, x, endpoint, origin, credential, fromHint);
            if !x.ses.closed && Moves(x.ses.link, endpoint) && origin.Some? then
              && y.ses == x.ses.(pending := Some(Pending(endpoint, x.pool.nextLease, credential, fromHint)))
              && y.book == x.book && y.pool == Acquire(x.pool, origin.value, sid)
            else Configures(sid, x, y, endpoint, origin, credential, fromHint)
  {
    if !x.ses.closed && !Moves(x.ses.link, endpoint) {
      SettleMeans(sid, x, endpoint, credential, fromHint);
    }
  }

  /** The two blocks one after the other are a whole call. */
  lemma CallConfigures(sid: nat, x: Local, endpoint: Endpoint, origin: Option<string>,
                       credential: Option<Minted>, fromHint: bool)
    requires LocalInv(sid, x) && PoolInv(x.pool) && BookInv(x.book) && x.ses.pending.None?
    ensures var y := Configure(sid, x, endpoint, origin, credential, fromHint);
            Configures(sid, x, if y.ses.pending.Some? then FinishConfigure(sid, y, y.ses.pending.value) else y,
                       endpoint, origin, credential, fromHint)
  {
    ConfigureMeans(sid, x, endpoint, origin, credential, fromHint);
    var y := Configure(sid, x, endpoint, origin, credential, fromHint);
    if y.ses.pending.Some? {
      var a := DoConfigure(endpoint, origin, credential, fromHint);
      ApplyKeepsSession(sid, x, a);
      ApplyKeepsOwnership(sid, x, a);
      ApplyKeepsCredential(sid, x, a);
      AcquireBinds(x.pool, origin.value, sid);
      FinishCompletes(sid, y, y.ses.pending.value);
      assert Holds(y.ses, x.pool.nextLease);
    }
  }

  /** Session id is between its two blocks in s and still is in t, with the closure it has acquired. */
  ghost predicate StillPending(s: Sys, t: Sys, id: nat)
    requires id in s.sessions && s.sessions[id].pending.Some?
  {
    var p := s.sessions[id].pending.value;
    && id in t.sessions && t.sessions[id].pending == Some(p) && t.sessions[id].link == s.sessions[id].link
    && p.lease in s.pool.leases && p.lease in t.pool.leases && t.pool.leases[p.lease] == s.pool.leases[p.lease]
  }

  /** While a call holds the lock, no event of any session or of the client touches the closure it acquired. */
  lemma PendingLeaseKept(s: Sys, id: nat, e: Event)
    requires Inv(s) && Possible(s, e) && id in s.sessions && s.sessions[id].pending.Some?
    requires e != Act(id, DoFinishConfigure)
    ensures StillPending(s, Next(s, e), id)
  {
    assert LocalInv(id, View(s, id));
    assert Holds(s.sessions[id], s.sessions[id].pending.value.lease);
    if e.Act? {
      ActLeavesPending(s, id, e.id, e.action);
    }
  }

  lemma ActLeavesPending(s: Sys, id: nat, other: nat, action: Action)
    requires Inv(s) && Possible(s, Act(other, action)) && id in s.sessions && s.sessions[id].pending.Some?
    requires other != id || action != DoFinishConfigure
    requires s.sessions[id].pending.value.lease in s.pool.leases
    requires s.pool.leases[s.sessions[id].pending.value.lease].owner == id
    ensures StillPending(s, Next(s, Act(other, action)), id)
  {
    NextOfAct(s, other, action);
    assert LocalInv(other, View(s, other));
    if other == id {
      HeldWhilePending(id, View(s, id), action);
    } else {
      OthersLeaveIt(other, View(s, other), action, s.sessions[id].pending.value.lease);
    }
  }

  /** An action of a session changes the pool, that session and the book. */
  lemma NextOfAct(s: Sys, other: nat, action: Action)
    requires Possible(s, Act(other, action))
    ensures var x, t := Apply(other, View(s, other), action), Next(s, Act(other, action));
            t.pool == x.pool && t.sessions == s.sessions[other := x.ses]
  {
  }

  lemma OthersLeaveIt(id: nat, x: Local, a: Action, lease: nat)
    requires LocalInv(id, x) && PoolInv(x.pool) && Enabled(x, a)
    requires lease in x.pool.leases && x.pool.leases[lease].owner != id
    ensures var y := Apply(id, x, a);
            lease in y.pool.leases && y.pool.leases[lease] == x.pool.leases[lease]
  {
    ApplyKeepsOwnership(id, x, a);
  }

  lemma HeldWhilePending(id: nat, x: Local, a: Action)
    requires x.ses.pending.Some? && SessionInv(x.ses) && Enabled(x, a) && a != DoFinishConfigure
    ensures var y := Apply(id, x, a);
            y.pool == x.pool && y.ses.pending == x.ses.pending && y.ses.link == x.ses.link
  {
  }

  // ----- Requests -----

  /** setHeaders: the session's credential where it is bound, a refusal where it is bound elsewhere. */
  lemma PrepareMeans(sid: nat, x: Local, id: nat)
    requires Enabled(x, PrepareRequest(id))
    ensures var l, q, r := x.ses.link, x.ses.requests[id], Apply(sid, x, PrepareRequest(id)).ses.requests[id];
            && (r.phase.Ended? <==> l.credential.Some? && l.binding != q.endpoint)
            && (!r.phase.Ended? ==> r.phase == if q.phase.Preparing? then Ready else ReadyAgain)
            && (l.credential.Some? && l.binding == q.endpoint ==> r.header == l.credential)
            && (l.credential.None? ==> r.header == q.header)
            && r.endpoint == q.endpoint
  {
  }

  /** The replay after a re-mint: only if the session still points at the endpoint of the request. */
  lemma ReplayMeans(sid: nat, x: Local, id: nat)
    requires Enabled(x, RetargetRequest(id))
    ensures var q, r := x.ses.requests[id], Apply(sid, x, RetargetRequest(id)).ses.requests[id];
            && (r.phase.Retargeted? <==> x.ses.link.endpoint == q.endpoint)
            && (!r.phase.Retargeted? ==> r.phase.Ended?) && r.endpoint == q.endpoint && r.header == q.header
  {
  }

  /** What goes on the wire is the header and the endpoint of the request. */
  lemma SendMeans(sid: nat, x: Local, id: nat)
    requires Enabled(x, SendRequest(id))
    ensures var q, y := x.ses.requests[id], Apply(sid, x, SendRequest(id));
            && y.book.sent == x.book.sent + (if q.header.Some? then {(q.header.value, q.endpoint)} else {})
            && y.ses.requests[id].phase == if q.phase.Ready? then Sent else Ended
  {
  }
}
