/**
 * One session's data plane: its transport, its credential, its close latch and
 * the requests in flight (sandbox/session.go:446-650, 820-852, 1492-1529,
 * sandbox/data_plane.go:245-349).
 *
 * Every function below is the effect of one lock-protected block. An endpoint is
 * a trimmed string and "" means none. Each credential installed has its own mint
 * number, so that two responses carrying equal text stay apart.
 */
module DataPlaneSession {
  import opened Wrappers
  import opened DataPlanePool
  import opened DataPlaneRenewal

  type Endpoint = string

  /** A SessionCredential as received: is its trimmed text empty, does it expire. */
  datatype Minted = Minted(blank: bool, expires: bool)

  /** A configureDataPlane call that holds the lock, between its two pool blocks. */
  datatype Pending = Pending(endpoint: Endpoint, lease: nat, credential: Option<Minted>, fromHint: bool)

  datatype Link = Link(endpoint: Endpoint, client: Option<Endpoint>, release: Option<nat>, fromHint: bool,
                       credential: Option<nat>, binding: Endpoint, expires: bool)

  const UNLINKED := Link("", None, None, false, None, "", false)

  /** Where the holder of closeMu is; `release` tells Release from Close. */
  datatype Closer =
    | Idle
    | Entered(release: bool)
    | Shutting(release: bool, drain: nat)
    | Terminating
    | Resetting(release: bool, ok: bool)
    | Draining(release: bool, ok: bool, drain: nat)
    | Reopening

  /** A data-plane request: `header` is the credential header it carries. */
  datatype Phase = Preparing | Ready | Sent | Retargeted | ReadyAgain | Ended
  datatype Request = Request(endpoint: Endpoint, header: Option<nat>, phase: Phase)

  datatype Session = Session(link: Link, renewals: Renewals, pending: Option<Pending>,
                             closed: bool, released: bool, closeDone: bool, terminations: nat,
                             closer: Closer, requests: map<nat, Request>)

  const FRESH := Session(UNLINKED, NONE, None, false, false, false, 0, Idle, map[])

  /** What happened to each mint, and every (mint, endpoint) pair put on the wire. */
  datatype Book = Book(nextMint: nat, owner: map<nat, nat>, installed: map<nat, Endpoint>,
                       adopted: map<nat, Endpoint>, sent: set<(nat, Endpoint)>)

  const BLANK := Book(0, map[], map[], map[], {})

  /** All that one block of one session can touch. */
  datatype Local = Local(pool: Pool, ses: Session, book: Book)

  // ----- Blocks -----

  function InstallLink(l: Link, c: Minted, mint: nat): Link {
    l.(credential := if c.blank then None else Some(mint), binding := l.endpoint, expires := c.expires)
  }

  /** A non-empty credential is a new mint, installed while `endpoint` is current. */
  function InstallBook(b: Book, sid: nat, c: Minted, endpoint: Endpoint): Book {
    if c.blank then b
    else b.(nextMint := b.nextMint + 1, owner := b.owner[b.nextMint := sid],
            installed := b.installed[b.nextMint := endpoint])
  }

  /** setDataPlaneCredentialLocked. */
  function Install(sid: nat, x: Local, c: Minted): Local {
    if x.ses.closed then x
    else Local(x.pool,
               x.ses.(link := InstallLink(x.ses.link, c, x.book.nextMint),
                      renewals := Restart(x.ses.renewals, !c.blank && c.expires)),
               InstallBook(x.book, sid, c, x.ses.link.endpoint))
  }

  /** The end of configureDataPlane, once the transport is settled. */
  function Settle(sid: nat, x: Local, endpoint: Endpoint, credential: Option<Minted>, fromHint: bool): Local {
    var y := if endpoint != "" && x.ses.link.endpoint == endpoint
             then x.(ses := x.ses.(link := x.ses.link.(fromHint := fromHint))) else x;
    if credential.Some? then Install(sid, y, credential.value) else y
  }

  predicate NeedsTransport(l: Link, endpoint: Endpoint) {
    endpoint != "" && (l.endpoint != endpoint || l.client.None?)
  }

  /**
   * configureDataPlane up to the first pool block; `origin` is what
   * dataPlaneOrigin makes of the endpoint, None when it is not a URL with a host.
   */
  function Configure(sid: nat, x: Local, endpoint: Endpoint, origin: Option<string>,
                     credential: Option<Minted>, fromHint: bool): Local {
    if x.ses.closed then x
    else if !NeedsTransport(x.ses.link, endpoint) then Settle(sid, x, endpoint, credential, fromHint)
    else if origin.None? then x
    else
      var pending := Pending(endpoint, x.pool.nextLease, credential, fromHint);
      Local(Acquire(x.pool, origin.value, sid), x.ses.(pending := Some(pending)), x.book)
  }

  predicate Adopts(l: Link) {
    l.credential.Some? && l.binding == ""
  }

  function SwitchLink(l: Link, endpoint: Endpoint, lease: nat): Link {
    l.(endpoint := endpoint, client := Some(endpoint), release := Some(lease),
       binding := if Adopts(l) then endpoint else l.binding)
  }

  function SwitchBook(b: Book, l: Link, endpoint: Endpoint): Book {
    if Adopts(l) then b.(adopted := b.adopted[l.credential.value := endpoint]) else b
  }

  /** Call the session's release closure, if it holds one. */
  function GiveBack(pool: Pool, release: Option<nat>): Pool {
    if release.Some? then Fire(pool, release.value) else pool
  }

  /** Point the session at the pending transport, giving back the old one. */
  function Switch(x: Local, p: Pending): Local {
    Local(GiveBack(x.pool, x.ses.link.release),
          x.ses.(link := SwitchLink(x.ses.link, p.endpoint, p.lease), renewals := Cancel(x.ses.renewals),
                 pending := None),
          SwitchBook(x.book, x.ses.link, p.endpoint))
  }

  /** The rest of configureDataPlane. */
  function FinishConfigure(sid: nat, x: Local, p: Pending): Local {
    Settle(sid, Switch(x, p), p.endpoint, p.credential, p.fromHint)
  }

  /** The locked block of resetDataPlane. */
  function Reset(x: Local): Local {
    Local(GiveBack(x.pool, x.ses.link.release), x.ses.(link := UNLINKED, renewals := Drain(x.ses.renewals)), x.book)
  }

  /** The locked block of closeDataPlane. */
  function Shut(x: Local): Local {
    x.(ses := x.ses.(closed := true, renewals := Drain(x.ses.renewals)))
  }

  /** dataPlaneCredentialForEndpoint. */
  function CredentialFor(l: Link, endpoint: Endpoint): (r: Option<Option<nat>>) {
    if l.credential.None? then Some(None)
    else if l.binding != endpoint then None
    else Some(l.credential)
  }

  /**
   * The session's credential where it is bound, nothing if there is none, and a refusal
   * exactly where it is bound elsewhere.
   */
  lemma CredentialForMeans(l: Link, endpoint: Endpoint)
    ensures CredentialFor(l, endpoint).None? <==> l.credential.Some? && l.binding != endpoint
    ensures CredentialFor(l, endpoint).Some? ==> CredentialFor(l, endpoint).value == l.credential
  {
  }

  /** setHeaders: a refusal ends the request, no credential leaves the header as it was. */
  function SetHeaders(l: Link, q: Request, ready: Phase): Request {
    match CredentialFor(l, q.endpoint)
    case None => q.(phase := Ended)
    case Some(None) => q.(phase := ready)
    case Some(Some(mint)) => q.(phase := ready, header := Some(mint))
  }

  // ----- Steps -----

  datatype Action =
    | DoConfigure(endpoint: Endpoint, origin: Option<string>, credential: Option<Minted>, fromHint: bool)
    | DoFinishConfigure
    | DoInstall(minted: Minted)
    | DoReset
    | LoopExits(loop: nat)
    | DrainAwaits(drain: nat)
    | DrainReturns(drain: nat)
    | EnterRelease
    | EnterClose
    | CloserShuts
    | CloserShutReturns
    | TerminateReplies(ok: bool)
    | CloserResets
    | CloserResetReturns
    | CloserReopens
    | BeginRequest(id: nat, target: Endpoint)
    | PrepareRequest(id: nat)
    | SendRequest(id: nat)
    | RetargetRequest(id: nat)

  /** The drain the holder of closeMu waits for. */
  predicate CloserAwaits(s: Session, d: nat) {
    (s.closer.Shutting? || s.closer.Draining?) && s.closer.drain == d
  }

  /** Blocks under dataPlaneMu are disabled while a configureDataPlane call holds it. */
  predicate Enabled(x: Local, a: Action) {
    var s := x.ses;
    match a
    case DoConfigure(_, _, _, _) => s.pending.None?
    case DoFinishConfigure => s.pending.Some?
    case DoInstall(_) => s.pending.None?
    case DoReset => s.pending.None?
    case LoopExits(l) => l in s.renewals.loops && !s.renewals.loops[l].exited
    case DrainAwaits(d) => CanAwait(s.renewals, d)
    case DrainReturns(d) => CanFinish(s.renewals, d) && !CloserAwaits(s, d)
    case EnterRelease => s.closer.Idle?
    case EnterClose => s.closer.Idle?
    case CloserShuts => s.closer.Entered? && s.pending.None?
    case CloserShutReturns => s.closer.Shutting? && CanFinish(s.renewals, s.closer.drain)
    case TerminateReplies(_) => s.closer.Terminating?
    case CloserResets => s.closer.Resetting? && s.pending.None?
    case CloserResetReturns => s.closer.Draining? && CanFinish(s.renewals, s.closer.drain)
    case CloserReopens => s.closer.Reopening? && s.pending.None?
    case BeginRequest(id, target) => id !in s.requests && target != ""
    case PrepareRequest(id) =>
      s.pending.None? && id in s.requests && (s.requests[id].phase.Preparing? || s.requests[id].phase.Retargeted?)
    case SendRequest(id) => id in s.requests && (s.requests[id].phase.Ready? || s.requests[id].phase.ReadyAgain?)
    case RetargetRequest(id) => s.pending.None? && id in s.requests && s.requests[id].phase.Sent?
  }

  function Apply(sid: nat, x: Local, a: Action): Local
    requires Enabled(x, a)
  {
    var s := x.ses;
    match a
    case DoConfigure(endpoint, origin, credential, fromHint) =>
      Configure(sid, x, endpoint, origin, credential, fromHint)
    case DoFinishConfigure => FinishConfigure(sid, x, s.pending.value)
    case DoInstall(minted) => Install(sid, x, minted)
    case DoReset => Reset(x)
    case LoopExits(l) => x.(ses := s.(renewals := Exit(s.renewals, l)))
    case DrainAwaits(d) => x.(ses := s.(renewals := Await(s.renewals, d)))
    case DrainReturns(d) => x.(ses := s.(renewals := Finish(s.renewals, d)))
    case EnterRelease => x.(ses := s.(released := true, closer := Entered(true)))
    case EnterClose => if s.closeDone then x else x.(ses := s.(closer := Entered(false)))
    case CloserShuts =>
      var y := Shut(x);
      y.(ses := y.ses.(closer := Shutting(s.closer.release, s.renewals.nextDrain)))
    case CloserShutReturns =>
      x.(ses := s.(renewals := Finish(s.renewals, s.closer.drain),
                   closer := if s.closer.release then Resetting(true, true) else Terminating))
    case TerminateReplies(ok) =>
      x.(ses := s.(terminations := s.terminations + (if ok then 1 else 0), closer := Resetting(false, ok)))
    case CloserResets =>
      var y := Reset(x);
      y.(ses := y.ses.(closer := Draining(s.closer.release, s.closer.ok, s.renewals.nextDrain)))
    case CloserResetReturns =>
      x.(ses := s.(renewals := Finish(s.renewals, s.closer.drain),
                   closeDone := s.closeDone || (!s.closer.release && s.closer.ok),
                   closer := if s.closer.release || s.closer.ok then Idle else Reopening))
    case CloserReopens => x.(ses := s.(closed := s.released, closer := Idle))
    case BeginRequest(id, target) => x.(ses := s.(requests := s.requests[id := Request(target, None, Preparing)]))
    case PrepareRequest(id) =>
      var q := s.requests[id];
      var r := SetHeaders(s.link, q, if q.phase.Preparing? then Ready else ReadyAgain);
      x.(ses := s.(requests := s.requests[id := r]))
    case SendRequest(id) =>
      var q := s.requests[id];
      Local(x.pool,
            s.(requests := s.requests[id := q.(phase := if q.phase.Ready? then Sent else Ended)]),
            if q.header.Some? then x.book.(sent := x.book.sent + {(q.header.value, q.endpoint)}) else x.book)
    case RetargetRequest(id) =>
      var q := s.requests[id];
      var r := q.(phase := if s.link.endpoint == q.endpoint then Retargeted else Ended);
      x.(ses := s.(requests := s.requests[id := r]))
  }

  // ----- Session invariants -----

  ghost predicate Empty(s: Session) {
    && s.link == UNLINKED && s.pending.None?
    && s.renewals.cancel.None? && s.renewals.dones == []
  }

  /** Shut for good unless a failed Close reopens it: nothing held, nothing to come. */
  ghost predicate Latched(s: Session) {
    s.closed && Empty(s)
  }

  /** A client, an endpoint and an unfired closure come and go together. */
  ghost predicate LinkInv(s: Session) {
    && (s.link.client.Some? <==> s.link.endpoint != "")
    && (s.link.release.Some? <==> s.link.endpoint != "")
    && (s.link.client.Some? ==> s.link.client.value == s.link.endpoint)
    && (s.link.credential.Some? ==> (s.link.binding == "" <==> s.link.endpoint == ""))
    && (s.pending.Some? ==> !s.closed && s.pending.value.endpoint != "")
  }

  ghost predicate CloserInv(s: Session) {
    && (s.closed ==> s.pending.None? && s.renewals.cancel.None? && s.renewals.dones == [])
    && (s.closer.Shutting? || s.closer.Terminating? || s.closer.Resetting? ==> s.closed)
    && (s.closer.Draining? || s.closer.Reopening? ==> Latched(s))
    && (s.closer.Shutting? || s.closer.Draining? ==> s.closer.drain in s.renewals.drains)
    && (s.released ==> Latched(s) || ReleaseUnderWay(s.closer))
    && (ReleaseUnderWay(s.closer) || (s.closer.Draining? && s.closer.release) ==> s.released)
    && (s.closeDone ==> Latched(s) && !CloseUnderWay(s.closer))
    && s.terminations == (if s.closeDone || CloseSucceeded(s.closer) then 1 else 0)
  }

  /** Release has entered and has not yet emptied the session. */
  predicate ReleaseUnderWay(c: Closer) {
    (c.Entered? || c.Shutting? || c.Resetting?) && c.release
  }

  predicate CloseUnderWay(c: Closer) {
    c.Terminating? || c.Reopening? || ((c.Entered? || c.Shutting? || c.Resetting? || c.Draining?) && !c.release)
  }

  /** The terminate RPC of the Close under way has succeeded. */
  predicate CloseSucceeded(c: Closer) {
    (c.Resetting? || c.Draining?) && !c.release && c.ok
  }

  ghost predicate SessionInv(s: Session) {
    RenewalInv(s.renewals) && LinkInv(s) && CloserInv(s)
  }

  lemma InstallKeepsSession(sid: nat, x: Local, c: Minted)
    requires SessionInv(x.ses) && x.ses.pending.None?
    ensures SessionInv(Install(sid, x, c).ses)
  {
    RestartKeeps(x.ses.renewals, !c.blank && c.expires);
  }

  lemma SettleKeepsSession(sid: nat, x: Local, endpoint: Endpoint, credential: Option<Minted>, fromHint: bool)
    requires SessionInv(x.ses) && x.ses.pending.None? && !x.ses.closed
    ensures SessionInv(Settle(sid, x, endpoint, credential, fromHint).ses)
  {
    var y := if endpoint != "" && x.ses.link.endpoint == endpoint
             then x.(ses := x.ses.(link := x.ses.link.(fromHint := fromHint))) else x;
    assert SessionInv(y.ses);
    if credential.Some? {
      InstallKeepsSession(sid, y, credential.value);
    }
  }

  lemma SwitchKeepsSession(x: Local, p: Pending)
    requires SessionInv(x.ses) && x.ses.pending == Some(p)
    ensures SessionInv(Switch(x, p).ses) && !Switch(x, p).ses.closed
  {
    CancelKeeps(x.ses.renewals);
  }

  /** The two ways a block takes exit signals out of the session. */
  lemma ResetKeepsSession(x: Local)
    requires SessionInv(x.ses) && x.ses.pending.None?
    ensures var s := Reset(x).ses; SessionInv(s) && Empty(s)
  {
    DrainKeeps(x.ses.renewals);
  }

  lemma CloserKeepsSession(sid: nat, x: Local, a: Action)
    requires SessionInv(x.ses) && Enabled(x, a)
    requires a.CloserShuts? || a.CloserShutReturns? || a.CloserResets? || a.CloserResetReturns?
    ensures SessionInv(Apply(sid, x, a).ses)
  {
    var r := x.ses.renewals;
    match a
    case CloserShuts => DrainKeeps(r);
    case CloserShutReturns => FinishKeeps(r, x.ses.closer.drain);
    case CloserResets => DrainKeeps(r);
    case CloserResetReturns => FinishKeeps(r, x.ses.closer.drain);
  }

  lemma RenewalActionsKeepSession(sid: nat, x: Local, a: Action)
    requires SessionInv(x.ses) && Enabled(x, a)
    requires a.LoopExits? || a.DrainAwaits? || a.DrainReturns?
    ensures SessionInv(Apply(sid, x, a).ses)
  {
    match a
    case LoopExits(l) => ExitKeeps(x.ses.renewals, l);
    case DrainAwaits(d) => AwaitKeeps(x.ses.renewals, d);
    case DrainReturns(d) => FinishKeeps(x.ses.renewals, d);
  }

  lemma ConfiguringKeepsSession(sid: nat, x: Local, a: Action)
    requires SessionInv(x.ses) && Enabled(x, a)
    requires a.DoConfigure? || a.DoFinishConfigure? || a.DoInstall? || a.DoReset?
    ensures SessionInv(Apply(sid, x, a).ses)
  {
    match a
    case DoConfigure(endpoint, origin, credential, fromHint) =>
      if !x.ses.closed && !NeedsTransport(x.ses.link, endpoint) {
        SettleKeepsSession(sid, x, endpoint, credential, fromHint);
      }
    case DoFinishConfigure =>
      var p := x.ses.pending.value;
      SwitchKeepsSession(x, p);
      SettleKeepsSession(sid, Switch(x, p), p.endpoint, p.credential, p.fromHint);
    case DoInstall(minted) => InstallKeepsSession(sid, x, minted);
    case DoReset => ResetKeepsSession(x);
  }

  /** Blocks that only set flags, and those of requests. */
  lemma FlagsKeepSession(sid: nat, x: Local, a: Action)
    requires SessionInv(x.ses) && Enabled(x, a)
    requires a.EnterRelease? || a.EnterClose? || a.TerminateReplies? || a.CloserReopens?
             || a.BeginRequest? || a.PrepareRequest? || a.SendRequest? || a.RetargetRequest?
    ensures SessionInv(Apply(sid, x, a).ses)
  {
  }

  lemma ApplyKeepsSession(sid: nat, x: Local, a: Action)
    requires SessionInv(x.ses) && Enabled(x, a)
    ensures SessionInv(Apply(sid, x, a).ses)
  {
    if a.DoConfigure? || a.DoFinishConfigure? || a.DoInstall? || a.DoReset? {
      ConfiguringKeepsSession(sid, x, a);
    } else if a.LoopExits? || a.DrainAwaits? || a.DrainReturns? {
      RenewalActionsKeepSession(sid, x, a);
    } else if a.CloserShuts? || a.CloserShutReturns? || a.CloserResets? || a.CloserResetReturns? {
      CloserKeepsSession(sid, x, a);
    } else {
      FlagsKeepSession(sid, x, a);
    }
  }

  // ----- What one step means for the latch -----

  /** While the session is shut, no step starts a renewal loop or takes a transport. */
  lemma ShutStartsNothing(sid: nat, x: Local, a: Action)
    requires SessionInv(x.ses) && Enabled(x, a) && x.ses.closed
    ensures var y := Apply(sid, x, a);
            && y.ses.renewals.loops.Keys == x.ses.renewals.loops.Keys
            && y.ses.pending.None?
            && y.pool.nextLease == x.pool.nextLease
            && y.book.nextMint == x.book.nextMint
  {
  }

  /** Only the reopening of a failed Close of an unreleased session undoes the latch. */
  lemma LatchHolds(sid: nat, x: Local, a: Action)
    requires SessionInv(x.ses) && Enabled(x, a) && Latched(x.ses)
    requires x.ses.released || x.ses.closeDone
    ensures var s := Apply(sid, x, a).ses;
            && Latched(s)
            && (x.ses.released ==> s.released)
            && (x.ses.closeDone ==> s.closeDone)
  {
    ApplyKeepsSession(sid, x, a);
  }

  /**
   * closeDataPlane has returned and no other call is draining: no loop runs.
   */
  lemma ClosedMeansStopped(s: Session)
    requires SessionInv(s) && s.closed
    requires forall d | d in s.renewals.drains :: s.renewals.drains[d] == []
    ensures forall l :: !Running(s.renewals, l)
  {
    NothingHeldNothingRuns(s.renewals);
  }

  /** The session can be configured and closed again after a Close that failed. */
  lemma FailedCloseIsRecoverable(sid: nat, x: Local, endpoint: Endpoint, origin: string)
    requires SessionInv(x.ses) && x.ses.closer.Reopening? && !x.ses.released
    requires endpoint != ""
    ensures Enabled(x, CloserReopens)
    ensures var y := Apply(sid, x, CloserReopens);
            && !y.ses.closed && !y.ses.closeDone
            && Enabled(y, EnterClose) && Apply(sid, y, EnterClose).ses.closer == Entered(false)
            && Configure(sid, y, endpoint, Some(origin), Some(Minted(false, true)), false).ses.pending.Some?
    ensures var y := Apply(sid, x, CloserReopens);
            var z := Configure(sid, y, endpoint, Some(origin), Some(Minted(false, true)), false);
            var s := FinishConfigure(sid, z, z.ses.pending.value).ses;
            && s.link.client == Some(endpoint) && s.link.credential.Some? && s.link.binding == endpoint
            && s.renewals.cancel.Some? && Running(s.renewals, s.renewals.cancel.value)
  {
  }
}
