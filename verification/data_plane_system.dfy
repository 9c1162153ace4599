/**
 * Any number of sessions of one client, every interleaving of their blocks.
 */
module DataPlaneSystem {
  import opened Wrappers
  import opened DataPlanePool
  import opened DataPlaneRenewal
  import opened DataPlaneSession

  datatype Sys = Sys(pool: Pool, sessions: map<nat, Session>, book: Book)

  const INITIAL := Sys(EMPTY, map[], BLANK)

  datatype Event =
    | OpenSession(id: nat)
    | CloseClient
    | Act(id: nat, action: Action)

  function View(s: Sys, id: nat): Local
    requires id in s.sessions
  {
    Local(s.pool, s.sessions[id], s.book)
  }

  predicate Possible(s: Sys, e: Event) {
    match e
    case OpenSession(id) => id !in s.sessions
    case CloseClient => true
    case Act(id, action) => id in s.sessions && Enabled(View(s, id), action)
  }

  function Next(s: Sys, e: Event): Sys
    requires Possible(s, e)
  {
    match e
    case OpenSession(id) => s.(sessions := s.sessions[id := FRESH])
    case CloseClient => s.(pool := Evict(s.pool))
    case Act(id, action) =>
      var x := Apply(id, View(s, id), action);
      Sys(x.pool, s.sessions[id := x.ses], x.book)
  }

  /** A run: every event is possible where it happens. */
  predicate IsRun(s: Sys, events: seq<Event>)
    decreases |events|
  {
    events == [] || (Possible(s, events[0]) && IsRun(Next(s, events[0]), events[1..]))
  }

  function After(s: Sys, events: seq<Event>): Sys
    requires IsRun(s, events)
    decreases |events|
  {
    if events == [] then s else After(Next(s, events[0]), events[1..])
  }

  // ----- Who owns which release closure -----

  predicate Holds(s: Session, lease: nat) {
    s.link.release == Some(lease) || (s.pending.Some? && s.pending.value.lease == lease)
  }

  /** A session's own part of the ownership invariant. */
  ghost predicate OwnsItsLeases(pool: Pool, id: nat, s: Session) {
    && (forall l | Holds(s, l) :: l in pool.leases && pool.leases[l].owner == id)
    && (forall l | l in pool.leases && pool.leases[l].owner == id :: Holds(s, l))
    && (s.link.release.Some? && s.pending.Some? ==> s.link.release.value != s.pending.value.lease)
  }

  /** What a block of session `id` may do to the pool. */
  ghost predicate PoolStep(p: Pool, q: Pool, id: nat) {
    && (PoolInv(p) ==> PoolInv(q))
    && (forall l | l in p.leases && p.leases[l].owner != id :: l in q.leases && q.leases[l] == p.leases[l])
    && (forall l | l in q.leases && q.leases[l].owner != id :: l in p.leases && p.leases[l] == q.leases[l])
  }

  lemma AcquireIsPoolStep(p: Pool, origin: string, id: nat)
    requires PoolInv(p)
    ensures PoolStep(p, Acquire(p, origin, id), id)
  {
    AcquireKeepsPool(p, origin, id);
  }

  lemma FireIsPoolStep(p: Pool, lease: nat, id: nat)
    requires PoolInv(p) && lease in p.leases && p.leases[lease].owner == id
    ensures PoolStep(p, Fire(p, lease), id)
  {
    FireKeepsPool(p, lease);
  }

  /** Blocks that touch neither the pool nor what the session holds. */
  predicate SameHoldings(x: Local, y: Local) {
    && x.pool == y.pool
    && x.ses.link.release == y.ses.link.release
    && (x.ses.pending.Some? <==> y.ses.pending.Some?)
    && (x.ses.pending.Some? ==> x.ses.pending.value.lease == y.ses.pending.value.lease)
  }

  /** A block of session `id` keeps the pool sound, the others' closures and its own account. */
  ghost predicate OwnershipStep(id: nat, x: Local, y: Local) {
    PoolStep(x.pool, y.pool, id) && PoolInv(y.pool) && OwnsItsLeases(y.pool, id, y.ses)
  }

  lemma SameHoldingsOwn(id: nat, x: Local, y: Local)
    requires PoolInv(x.pool) && OwnsItsLeases(x.pool, id, x.ses) && SameHoldings(x, y)
    ensures OwnershipStep(id, x, y)
  {
    assert forall l :: Holds(x.ses, l) == Holds(y.ses, l);
  }

  lemma SettleSameHoldings(id: nat, x: Local, endpoint: Endpoint, credential: Option<Minted>, fromHint: bool)
    ensures SameHoldings(x, Settle(id, x, endpoint, credential, fromHint))
  {
  }

  lemma ConfigureOwns(id: nat, x: Local, endpoint: Endpoint, origin: Option<string>,
                      credential: Option<Minted>, fromHint: bool)
    requires PoolInv(x.pool) && OwnsItsLeases(x.pool, id, x.ses) && x.ses.pending.None?
    ensures OwnershipStep(id, x, Configure(id, x, endpoint, origin, credential, fromHint))
  {
    var y := Configure(id, x, endpoint, origin, credential, fromHint);
    if x.ses.closed || (NeedsTransport(x.ses.link, endpoint) && origin.None?) {
      SameHoldingsOwn(id, x, y);
    } else if !NeedsTransport(x.ses.link, endpoint) {
      SettleSameHoldings(id, x, endpoint, credential, fromHint);
      SameHoldingsOwn(id, x, y);
    } else {
      AcquireIsPoolStep(x.pool, origin.value, id);
      assert forall l :: Holds(y.ses, l) == (Holds(x.ses, l) || l == x.pool.nextLease);
    }
  }

  /** Giving back the held closure, if any, leaves the session with what `y` still holds. */
  lemma FiringOwns(id: nat, x: Local, y: Local)
    requires PoolInv(x.pool) && OwnsItsLeases(x.pool, id, x.ses)
    requires y.pool == GiveBack(x.pool, x.ses.link.release)
    requires forall l: nat :: Holds(y.ses, l) <==> Holds(x.ses, l) && x.ses.link.release != Some(l)
    requires y.ses.pending.None? || y.ses.link.release.None?
    ensures OwnershipStep(id, x, y)
  {
    if x.ses.link.release.Some? {
      FiredOwns(id, x, y, x.ses.link.release.value);
    }
  }

  lemma FiredOwns(id: nat, x: Local, y: Local, lease: nat)
    requires PoolInv(x.pool) && OwnsItsLeases(x.pool, id, x.ses)
    requires Holds(x.ses, lease) && y.pool == Fire(x.pool, lease)
    requires forall l: nat :: Holds(y.ses, l) <==> Holds(x.ses, l) && l != lease
    requires y.ses.pending.None? || y.ses.link.release.None?
    ensures OwnershipStep(id, x, y)
  {
    FireIsPoolStep(x.pool, lease, id);
    assert y.pool.leases == x.pool.leases - {lease};
  }

  lemma SwitchOwns(id: nat, x: Local, p: Pending)
    requires PoolInv(x.pool) && OwnsItsLeases(x.pool, id, x.ses) && x.ses.pending == Some(p)
    ensures OwnershipStep(id, x, Switch(x, p))
  {
    FiringOwns(id, x, Switch(x, p));
  }

  lemma FinishConfigureOwns(id: nat, x: Local, p: Pending)
    requires PoolInv(x.pool) && OwnsItsLeases(x.pool, id, x.ses) && x.ses.pending == Some(p)
    ensures OwnershipStep(id, x, FinishConfigure(id, x, p))
  {
    SwitchOwns(id, x, p);
    var y := Switch(x, p);
    SettleSameHoldings(id, y, p.endpoint, p.credential, p.fromHint);
    SameHoldingsOwn(id, y, FinishConfigure(id, x, p));
  }

  predicate TouchesHoldings(a: Action) {
    a.DoConfigure? || a.DoFinishConfigure? || a.DoReset? || a.CloserResets?
  }

  lemma OtherActionsKeepHoldings(id: nat, x: Local, a: Action)
    requires Enabled(x, a) && !TouchesHoldings(a)
    ensures SameHoldings(x, Apply(id, x, a))
  {
  }

  lemma ApplyKeepsOwnership(id: nat, x: Local, a: Action)
    requires Enabled(x, a) && PoolInv(x.pool) && OwnsItsLeases(x.pool, id, x.ses)
    ensures OwnershipStep(id, x, Apply(id, x, a))
  {
    match a
    case DoConfigure(endpoint, origin, credential, fromHint) =>
      ConfigureOwns(id, x, endpoint, origin, credential, fromHint);
    case DoFinishConfigure => FinishConfigureOwns(id, x, x.ses.pending.value);
    case DoReset => FiringOwns(id, x, Reset(x));
    case CloserResets => FiringOwns(id, x, Apply(id, x, a));
    case _ =>
      OtherActionsKeepHoldings(id, x, a);
      SameHoldingsOwn(id, x, Apply(id, x, a));
  }

  // ----- Which endpoint a mint is bound to -----

  /** The endpoint current at install, or the first one to adopt an unbound credential. */
  ghost predicate BoundTo(b: Book, mint: nat, endpoint: Endpoint) {
    && endpoint != "" && mint in b.installed
    && (b.installed[mint] == endpoint
        || (b.installed[mint] == "" && mint in b.adopted && b.adopted[mint] == endpoint))
  }

  ghost predicate BookInv(b: Book) {
    && b.installed.Keys == b.owner.Keys
    && (forall m | m in b.owner :: m < b.nextMint)
    && (forall m | m in b.adopted :: m in b.installed && b.installed[m] == "")
    && (forall m, e | (m, e) in b.sent :: BoundTo(b, m, e))
  }

  /** A session's own part: its credential and the headers of its requests. */
  ghost predicate CredentialInv(b: Book, id: nat, s: Session) {
    && (s.link.credential.Some? ==>
          var m := s.link.credential.value;
          && m in b.owner && b.owner[m] == id && m in b.installed
          && (if s.link.binding == "" then b.installed[m] == "" && m !in b.adopted
              else BoundTo(b, m, s.link.binding)))
    && (forall r | r in s.requests && s.requests[r].header.Some? ::
          BoundTo(b, s.requests[r].header.value, s.requests[r].endpoint))
    && (forall r | r in s.requests :: s.requests[r].endpoint != "")
  }

  /** What a block of session `id` may write into the book: nothing is rewritten. */
  ghost predicate BookStep(b: Book, c: Book, id: nat) {
    && (BookInv(b) ==> BookInv(c))
    && (forall m | m in b.owner :: m in c.owner && c.owner[m] == b.owner[m])
    && (forall m | m in b.installed :: m in c.installed && c.installed[m] == b.installed[m])
    && (forall m | m in b.adopted :: m in c.adopted && c.adopted[m] == b.adopted[m])
    && (forall m | m in c.adopted && m !in b.adopted :: m in b.owner && b.owner[m] == id)
    && b.sent <= c.sent
  }

  /** A block rewrites nothing in the book and leaves the session's credential and headers bound. */
  ghost predicate KeepsCredential(id: nat, x: Local, y: Local) {
    BookStep(x.book, y.book, id) && CredentialInv(y.book, id, y.ses)
  }

  lemma InstallKeepsCredential(id: nat, x: Local, c: Minted)
    requires BookInv(x.book) && CredentialInv(x.book, id, x.ses) && LinkInv(x.ses)
    ensures var y := Install(id, x, c);
            BookStep(x.book, y.book, id) && CredentialInv(y.book, id, y.ses)
  {
    var y := Install(id, x, c);
    assert forall m, e :: BoundTo(x.book, m, e) ==> BoundTo(y.book, m, e);
    assert y.ses.requests == x.ses.requests;
  }

  lemma SettleKeepsCredential(id: nat, x: Local, endpoint: Endpoint, credential: Option<Minted>, fromHint: bool)
    requires BookInv(x.book) && CredentialInv(x.book, id, x.ses) && LinkInv(x.ses)
    ensures var y := Settle(id, x, endpoint, credential, fromHint);
            BookStep(x.book, y.book, id) && CredentialInv(y.book, id, y.ses)
  {
    if credential.Some? {
      var y := if endpoint != "" && x.ses.link.endpoint == endpoint
               then x.(ses := x.ses.(link := x.ses.link.(fromHint := fromHint))) else x;
      InstallKeepsCredential(id, y, credential.value);
    }
  }

  lemma SwitchKeepsCredential(id: nat, x: Local, p: Pending)
    requires BookInv(x.book) && CredentialInv(x.book, id, x.ses) && p.endpoint != ""
    ensures var y := Switch(x, p);
            BookStep(x.book, y.book, id) && CredentialInv(y.book, id, y.ses)
  {
    var y := Switch(x, p);
    assert forall m, e :: BoundTo(x.book, m, e) ==> BoundTo(y.book, m, e);
  }

  lemma BeginKeepsCredential(id: nat, x: Local, r: nat, target: Endpoint)
    requires BookInv(x.book) && CredentialInv(x.book, id, x.ses) && Enabled(x, BeginRequest(r, target))
    ensures KeepsCredential(id, x, Apply(id, x, BeginRequest(r, target)))
  {
  }

  /** The header set is the session's credential, which is bound to the endpoint asked for. */
  lemma PrepareKeepsCredential(id: nat, x: Local, r: nat)
    requires BookInv(x.book) && CredentialInv(x.book, id, x.ses) && Enabled(x, PrepareRequest(r))
    ensures KeepsCredential(id, x, Apply(id, x, PrepareRequest(r)))
  {
    assert x.ses.requests[r].endpoint != "";
  }

  lemma SendKeepsCredential(id: nat, x: Local, r: nat)
    requires BookInv(x.book) && CredentialInv(x.book, id, x.ses) && Enabled(x, SendRequest(r))
    ensures KeepsCredential(id, x, Apply(id, x, SendRequest(r)))
  {
    var y := Apply(id, x, SendRequest(r));
    assert forall m, e :: BoundTo(x.book, m, e) ==> BoundTo(y.book, m, e);
  }

  lemma RetargetKeepsCredential(id: nat, x: Local, r: nat)
    requires BookInv(x.book) && CredentialInv(x.book, id, x.ses) && Enabled(x, RetargetRequest(r))
    ensures KeepsCredential(id, x, Apply(id, x, RetargetRequest(r)))
  {
  }

  /** Every other block writes nothing into the book, and leaves the link alone or empty. */
  predicate TouchesCredential(a: Action) {
    || a.DoConfigure? || a.DoFinishConfigure? || a.DoInstall?
    || a.BeginRequest? || a.PrepareRequest? || a.SendRequest? || a.RetargetRequest?
  }

  lemma OtherActionsKeepLink(id: nat, x: Local, a: Action)
    requires Enabled(x, a) && !TouchesCredential(a)
    ensures var y := Apply(id, x, a);
            && y.book == x.book && y.ses.requests == x.ses.requests
            && (y.ses.link == x.ses.link || y.ses.link == UNLINKED)
  {
  }

  lemma SameLinkKeepsCredential(id: nat, x: Local, y: Local)
    requires BookInv(x.book) && CredentialInv(x.book, id, x.ses)
    requires y.book == x.book && y.ses.requests == x.ses.requests
    requires y.ses.link == x.ses.link || y.ses.link == UNLINKED
    ensures KeepsCredential(id, x, y)
  {
  }

  lemma ConfigureKeepsCredential(id: nat, x: Local, endpoint: Endpoint, origin: Option<string>,
                                 credential: Option<Minted>, fromHint: bool)
    requires BookInv(x.book) && CredentialInv(x.book, id, x.ses) && SessionInv(x.ses)
    ensures KeepsCredential(id, x, Configure(id, x, endpoint, origin, credential, fromHint))
  {
    if !x.ses.closed && !NeedsTransport(x.ses.link, endpoint) {
      SettleKeepsCredential(id, x, endpoint, credential, fromHint);
    } else {
      SameLinkKeepsCredential(id, x, Configure(id, x, endpoint, origin, credential, fromHint));
    }
  }

  lemma FinishKeepsCredential(id: nat, x: Local, p: Pending)
    requires BookInv(x.book) && CredentialInv(x.book, id, x.ses) && SessionInv(x.ses) && x.ses.pending == Some(p)
    ensures KeepsCredential(id, x, FinishConfigure(id, x, p))
  {
    SwitchKeepsCredential(id, x, p);
    SwitchKeepsSession(x, p);
    SettleKeepsCredential(id, Switch(x, p), p.endpoint, p.credential, p.fromHint);
  }

  lemma RequestsKeepCredential(id: nat, x: Local, a: Action)
    requires BookInv(x.book) && CredentialInv(x.book, id, x.ses) && Enabled(x, a)
    requires a.BeginRequest? || a.PrepareRequest? || a.SendRequest? || a.RetargetRequest?
    ensures KeepsCredential(id, x, Apply(id, x, a))
  {
    match a
    case BeginRequest(r, target) => BeginKeepsCredential(id, x, r, target);
    case PrepareRequest(r) => PrepareKeepsCredential(id, x, r);
    case SendRequest(r) => SendKeepsCredential(id, x, r);
    case RetargetRequest(r) => RetargetKeepsCredential(id, x, r);
  }

  lemma ConfiguringKeepsCredential(id: nat, x: Local, a: Action)
    requires BookInv(x.book) && CredentialInv(x.book, id, x.ses) && SessionInv(x.ses) && Enabled(x, a)
    requires a.DoConfigure? || a.DoFinishConfigure? || a.DoInstall?
    ensures KeepsCredential(id, x, Apply(id, x, a))
  {
    match a
    case DoConfigure(endpoint, origin, credential, fromHint) =>
      ConfigureKeepsCredential(id, x, endpoint, origin, credential, fromHint);
    case DoFinishConfigure => FinishKeepsCredential(id, x, x.ses.pending.value);
    case DoInstall(minted) => InstallKeepsCredential(id, x, minted);
  }

  lemma ApplyKeepsCredential(id: nat, x: Local, a: Action)
    requires BookInv(x.book) && CredentialInv(x.book, id, x.ses) && SessionInv(x.ses) && Enabled(x, a)
    ensures KeepsCredential(id, x, Apply(id, x, a))
  {
    if a.DoConfigure? || a.DoFinishConfigure? || a.DoInstall? {
      ConfiguringKeepsCredential(id, x, a);
    } else if TouchesCredential(a) {
      RequestsKeepCredential(id, x, a);
    } else {
      OtherActionsKeepLink(id, x, a);
      SameLinkKeepsCredential(id, x, Apply(id, x, a));
    }
  }

  /** Another session's block does not disturb this session's bindings. */
  lemma CredentialFramed(b: Book, c: Book, id: nat, other: nat, s: Session)
    requires BookStep(b, c, other) && other != id && CredentialInv(b, id, s)
    ensures CredentialInv(c, id, s)
  {
    assert forall m, e :: BoundTo(b, m, e) ==> BoundTo(c, m, e);
  }

  // ----- The whole invariant -----

  ghost predicate LocalInv(id: nat, x: Local) {
    && SessionInv(x.ses) && OwnsItsLeases(x.pool, id, x.ses) && CredentialInv(x.book, id, x.ses)
  }

  ghost predicate Inv(s: Sys) {
    && PoolInv(s.pool) && BookInv(s.book)
    && OwnersExist(s) && LocalsInv(s)
  }

  /** A session left alone stays sound under a pool and a book that kept its own entries. */
  lemma LocalFramed(o: nat, x: Local, pool: Pool, book: Book)
    requires LocalInv(o, x) && CredentialInv(book, o, x.ses)
    requires forall l | l in x.pool.leases && x.pool.leases[l].owner == o ::
               l in pool.leases && pool.leases[l] == x.pool.leases[l]
    requires forall l | l in pool.leases && pool.leases[l].owner == o ::
               l in x.pool.leases && pool.leases[l] == x.pool.leases[l]
    ensures LocalInv(o, Local(pool, x.ses, book))
  {
  }

  lemma OtherSessionKept(s: Sys, id: nat, y: Local, o: nat)
    requires Inv(s) && o in s.sessions && o != id
    requires PoolStep(s.pool, y.pool, id) && BookStep(s.book, y.book, id)
    ensures LocalInv(o, Local(y.pool, s.sessions[o], y.book))
  {
    var x := View(s, o);
    assert LocalInv(o, x);
    CredentialFramed(s.book, y.book, o, id, x.ses);
    LocalFramed(o, x, y.pool, y.book);
  }

  /** Every unfired closure belongs to a session that exists. */
  ghost predicate OwnersExist(s: Sys) {
    forall l | l in s.pool.leases :: s.pool.leases[l].owner in s.sessions
  }

  ghost predicate LocalsInv(s: Sys) {
    forall id | id in s.sessions :: LocalInv(id, View(s, id))
  }

  lemma OwnersStillExist(s: Sys, id: nat, y: Local)
    requires OwnersExist(s) && id in s.sessions && PoolStep(s.pool, y.pool, id)
    ensures OwnersExist(Sys(y.pool, s.sessions[id := y.ses], y.book))
  {
  }

  lemma LocalsStillSound(s: Sys, id: nat, y: Local)
    requires Inv(s) && PoolStep(s.pool, y.pool, id) && BookStep(s.book, y.book, id) && LocalInv(id, y)
    ensures LocalsInv(Sys(y.pool, s.sessions[id := y.ses], y.book))
  {
    var t := Sys(y.pool, s.sessions[id := y.ses], y.book);
    forall o | o in t.sessions
      ensures LocalInv(o, View(t, o))
    {
      if o != id {
        OtherSessionKept(s, id, y, o);
      }
    }
  }

  /** A sound block of one session leaves every session sound. */
  lemma BlockKeepsInv(s: Sys, id: nat, y: Local)
    requires Inv(s) && id in s.sessions
    requires PoolInv(y.pool) && PoolStep(s.pool, y.pool, id)
    requires BookInv(y.book) && BookStep(s.book, y.book, id) && LocalInv(id, y)
    ensures Inv(Sys(y.pool, s.sessions[id := y.ses], y.book))
  {
    OwnersStillExist(s, id, y);
    LocalsStillSound(s, id, y);
  }

  lemma ActKeepsInv(s: Sys, id: nat, a: Action)
    requires Inv(s) && Possible(s, Act(id, a))
    ensures Inv(Next(s, Act(id, a)))
  {
    var x := View(s, id);
    assert LocalInv(id, x);
    ApplyKeepsSession(id, x, a);
    ApplyKeepsOwnership(id, x, a);
    ApplyKeepsCredential(id, x, a);
    BlockKeepsInv(s, id, Apply(id, x, a));
  }

  lemma FreshIsSound(id: nat, pool: Pool, book: Book)
    requires forall l | l in pool.leases :: pool.leases[l].owner != id
    ensures LocalInv(id, Local(pool, FRESH, book))
  {
    assert forall l :: !Holds(FRESH, l);
    assert SessionInv(FRESH);
  }

  lemma OpenKeepsInv(s: Sys, id: nat)
    requires Inv(s) && id !in s.sessions
    ensures Inv(s.(sessions := s.sessions[id := FRESH]))
  {
    var t := s.(sessions := s.sessions[id := FRESH]);
    FreshIsSound(id, s.pool, s.book);
    assert LocalsInv(t) by {
      forall o | o in t.sessions
        ensures LocalInv(o, View(t, o))
      {
        if o != id {
          assert View(t, o) == View(s, o);
        }
      }
    }
  }

  lemma EvictKeepsInv(s: Sys)
    requires Inv(s)
    ensures Inv(s.(pool := Evict(s.pool)))
  {
    var t := s.(pool := Evict(s.pool));
    assert LocalsInv(t) by {
      forall o | o in t.sessions
        ensures LocalInv(o, View(t, o))
      {
        LocalFramed(o, View(s, o), t.pool, t.book);
      }
    }
  }

  lemma NextKeepsInv(s: Sys, e: Event)
    requires Inv(s) && Possible(s, e)
    ensures Inv(Next(s, e))
  {
    match e
    case OpenSession(id) => OpenKeepsInv(s, id);
    case CloseClient => EvictKeepsInv(s);
    case Act(id, action) => ActKeepsInv(s, id, action);
  }

  lemma {:induction false} RunKeepsInv(s: Sys, events: seq<Event>)
    requires Inv(s) && IsRun(s, events)
    ensures Inv(After(s, events))
    decreases |events|
  {
    if events != [] {
      NextKeepsInv(s, events[0]);
      RunKeepsInv(Next(s, events[0]), events[1..]);
    }
  }

  ghost predicate Reachable(s: Sys) {
    exists events :: IsRun(INITIAL, events) && After(INITIAL, events) == s
  }

  lemma ReachableInv(s: Sys)
    requires Reachable(s)
    ensures Inv(s)
  {
    var events :| IsRun(INITIAL, events) && After(INITIAL, events) == s;
    RunKeepsInv(INITIAL, events);
  }

  // ----- Theorems -----

  /** The unfired closures of one session. */
  function Owned(pool: Pool, id: nat): set<nat> {
    set l | l in pool.leases && pool.leases[l].owner == id
  }

  /**
   * Pool conservation: in every reachable state an origin's reference count is
   * the number of unfired closures bound to that very entry, at least one.
   */
  lemma PoolConservation(s: Sys, origin: string)
    requires Reachable(s) && origin in s.pool.entries
    ensures var entry := s.pool.entries[origin];
            entry.references == |Holders(s.pool.leases, entry.id)| >= 1
    ensures forall l | l in Holders(s.pool.leases, s.pool.entries[origin].id) ::
              s.pool.leases[l].origin == origin && s.pool.leases[l].owner in s.sessions
  {
    ReachableInv(s);
  }

  /** A block of a session acquires at most one transport and gives back at most one. */
  lemma ApplyKeepsGone(id: nat, x: Local, a: Action, entry: nat)
    requires Enabled(x, a) && Gone(x.pool, entry)
    ensures Gone(Apply(id, x, a).pool, entry)
  {
    match a
    case DoConfigure(endpoint, origin, credential, fromHint) =>
      SettleSameHoldings(id, x, endpoint, credential, fromHint);
      if origin.Some? {
        AcquireKeepsGone(x.pool, origin.value, id, entry);
      }
    case DoFinishConfigure =>
      var p := x.ses.pending.value;
      GiveBackKeepsGone(x.pool, x.ses.link.release, entry);
      SettleSameHoldings(id, Switch(x, p), p.endpoint, p.credential, p.fromHint);
    case DoReset => GiveBackKeepsGone(x.pool, x.ses.link.release, entry);
    case CloserResets => GiveBackKeepsGone(x.pool, x.ses.link.release, entry);
    case _ => OtherActionsKeepHoldings(id, x, a);
  }

  lemma GiveBackKeepsGone(pool: Pool, release: Option<nat>, entry: nat)
    requires Gone(pool, entry)
    ensures Gone(GiveBack(pool, release), entry)
  {
    if release.Some? {
      FireKeepsGone(pool, release.value, entry);
    }
  }

  /**
   * Eviction is final: an entry that has left the pool is in no later state of any
   * run, so whenever one of its closures fires, no entry changes.
   */
  lemma {:induction false} EvictedForGood(s: Sys, events: seq<Event>, entry: nat)
    requires Gone(s.pool, entry) && IsRun(s, events)
    ensures var pool := After(s, events).pool;
            && Gone(pool, entry)
            && forall l | l in pool.leases && pool.leases[l].entry == entry :: Fire(pool, l).entries == pool.entries
    decreases |events|
  {
    if events == [] {
      forall l | l in s.pool.leases && s.pool.leases[l].entry == entry
        ensures Fire(s.pool, l).entries == s.pool.entries
      {
        StaleLeaseIsHarmless(s.pool, l);
      }
    } else {
      if events[0].Act? {
        ApplyKeepsGone(events[0].id, View(s, events[0].id), events[0].action, entry);
      }
      EvictedForGood(Next(s, events[0]), events[1..], entry);
    }
  }

  /**
   * A session has a client, an endpoint and a closure, or none of the three. It owns
   * exactly that closure; inside configureDataPlane, between its two pool blocks,
   * also the one it has just acquired.
   */
  lemma OneClosurePerSession(s: Sys, id: nat)
    requires Reachable(s) && id in s.sessions
    ensures var link := s.sessions[id].link;
            && (link.client.Some? <==> link.endpoint != "") && (link.release.Some? <==> link.endpoint != "")
    ensures var ses := s.sessions[id];
            Owned(s.pool, id) == (if ses.link.release.Some? then {ses.link.release.value} else {})
                                 + (if ses.pending.Some? then {ses.pending.value.lease} else {})
    ensures var ses := s.sessions[id];
            ses.pending.Some? && ses.link.release.Some? ==> ses.link.release.value != ses.pending.value.lease
  {
    ReachableInv(s);
    assert LocalInv(id, View(s, id));
    OwnedIsHeld(s.pool, id, s.sessions[id]);
  }

  lemma OwnedIsHeld(pool: Pool, id: nat, ses: Session)
    requires OwnsItsLeases(pool, id, ses)
    ensures Owned(pool, id) == (if ses.link.release.Some? then {ses.link.release.value} else {})
                               + (if ses.pending.Some? then {ses.pending.value.lease} else {})
  {
    assert forall l :: l in Owned(pool, id) <==> Holds(ses, l);
  }

  /** No credential is ever put on the wire for two endpoints, in any run. */
  lemma OneEndpointPerMint(s: Sys, mint: nat, e1: Endpoint, e2: Endpoint)
    requires Reachable(s) && (mint, e1) in s.book.sent && (mint, e2) in s.book.sent
    ensures e1 == e2 && BoundTo(s.book, mint, e1)
  {
    ReachableInv(s);
    assert BoundTo(s.book, mint, e1) && BoundTo(s.book, mint, e2);
  }

  /** Nothing written down about a mint changes. */
  ghost predicate KeepsBindings(b: Book, c: Book) {
    && (forall m | m in b.installed :: m in c.installed && c.installed[m] == b.installed[m])
    && (forall m | m in b.adopted :: m in c.adopted && c.adopted[m] == b.adopted[m])
  }

  lemma NextKeepsBindings(s: Sys, e: Event)
    requires Inv(s) && Possible(s, e)
    ensures KeepsBindings(s.book, Next(s, e).book)
  {
    if e.Act? {
      assert LocalInv(e.id, View(s, e.id));
      ApplyKeepsCredential(e.id, View(s, e.id), e.action);
    }
  }

  /** The endpoint a mint was installed for, and its adoption, are written once. */
  lemma {:induction false} BindingsAreFinal(s: Sys, events: seq<Event>)
    requires Inv(s) && IsRun(s, events)
    ensures KeepsBindings(s.book, After(s, events).book)
    decreases |events|
  {
    if events != [] {
      NextKeepsInv(s, events[0]);
      NextKeepsBindings(s, events[0]);
      BindingsAreFinal(Next(s, events[0]), events[1..]);
    }
  }

  /**
   * Renewal ownership in every reachable state: one uncancelled loop at most,
   * and each running loop's exit signal held in exactly one place.
   */
  lemma RenewalOwnership(s: Sys, id: nat)
    requires Reachable(s) && id in s.sessions
    ensures var r := s.sessions[id].renewals;
            && (forall l, k | l in r.loops && k in r.loops && !r.loops[l].cancelled && !r.loops[k].cancelled :: l == k)
            && (forall l | Running(r, l) :: l in r.dones || exists d :: InDrain(r, l, d))
            && (forall l, d | l in r.dones :: !InDrain(r, l, d))
            && (forall l, d, e | InDrain(r, l, d) && InDrain(r, l, e) :: d == e)
  {
    ReachableInv(s);
    assert LocalInv(id, View(s, id));
  }

  lemma NextWhileShut(s: Sys, id: nat, e: Event)
    requires Inv(s) && id in s.sessions && s.sessions[id].closed && Possible(s, e)
    ensures id in Next(s, e).sessions
    ensures Next(s, e).sessions[id].renewals.loops.Keys == s.sessions[id].renewals.loops.Keys
  {
    if e.Act? && e.id == id {
      assert LocalInv(id, View(s, id));
      ShutStartsNothing(id, View(s, id), e.action);
    }
  }

  /** No loop of a session started between `s` and a later state of the run. */
  predicate NoNewLoop(s: Sys, t: Sys, id: nat) {
    id in s.sessions && id in t.sessions &&
    t.sessions[id].renewals.loops.Keys == s.sessions[id].renewals.loops.Keys
  }

  /** The latch stays shut all along the run. */
  predicate ShutThroughout(s: Sys, events: seq<Event>, id: nat)
    requires IsRun(s, events)
    decreases |events|
  {
    && id in s.sessions && s.sessions[id].closed
    && (events == [] || ShutThroughout(Next(s, events[0]), events[1..], id))
  }

  lemma {:induction false} ShutRunStartsNothing(s: Sys, events: seq<Event>, id: nat)
    requires Inv(s) && IsRun(s, events) && ShutThroughout(s, events, id)
    ensures NoNewLoop(s, After(s, events), id)
    decreases |events|
  {
    if events != [] {
      NextKeepsInv(s, events[0]);
      NextWhileShut(s, id, events[0]);
      ShutRunStartsNothing(Next(s, events[0]), events[1..], id);
    }
  }

  /**
   * closeDataPlane stops renewal for good: when the holder of closeMu is past it
   * and no call is still draining, nothing runs; and for as long as the latch
   * stays shut no event of any session or of the client starts a loop.
   */
  lemma CloseStopsRenewal(s: Sys, id: nat, events: seq<Event>)
    requires Reachable(s) && id in s.sessions
    requires s.sessions[id].closer.Terminating? || s.sessions[id].closer.Resetting?
    requires forall d | d in s.sessions[id].renewals.drains :: s.sessions[id].renewals.drains[d] == []
    requires IsRun(s, events) && ShutThroughout(s, events, id)
    ensures forall l :: !Running(s.sessions[id].renewals, l)
    ensures NoNewLoop(s, After(s, events), id)
  {
    ReachableInv(s);
    assert LocalInv(id, View(s, id));
    ClosedMeansStopped(s.sessions[id]);
    ShutRunStartsNothing(s, events, id);
  }

  /** What stays true of a released or successfully closed session. */
  ghost predicate Finished(s: Sys, id: nat) {
    && id in s.sessions && Latched(s.sessions[id])
    && (s.sessions[id].released || s.sessions[id].closeDone)
  }

  lemma NextKeepsFinished(s: Sys, e: Event, id: nat)
    requires Inv(s) && Finished(s, id) && Possible(s, e)
    ensures Finished(Next(s, e), id)
  {
    if e.Act? && e.id == id {
      assert LocalInv(id, View(s, id));
      LatchHolds(id, View(s, id), e.action);
    }
  }

  lemma {:induction false} RunKeepsFinished(s: Sys, events: seq<Event>, id: nat)
    requires Inv(s) && Finished(s, id) && IsRun(s, events)
    ensures Finished(After(s, events), id) && NoNewLoop(s, After(s, events), id)
    decreases |events|
  {
    if events != [] {
      NextKeepsInv(s, events[0]);
      NextKeepsFinished(s, events[0], id);
      NextWhileShut(s, id, events[0]);
      RunKeepsFinished(Next(s, events[0]), events[1..], id);
    }
  }

  /** A finished session holds nothing at all. */
  lemma FinishedHoldsNothing(s: Sys, id: nat)
    requires Inv(s) && Finished(s, id)
    ensures s.sessions[id].closed && s.sessions[id].link == UNLINKED && Owned(s.pool, id) == {}
  {
    assert LocalInv(id, View(s, id));
    assert forall l :: !Holds(s.sessions[id], l);
  }

  lemma ReturningFinishes(id: nat, x: Local)
    requires SessionInv(x.ses) && Enabled(x, CloserResetReturns)
    requires x.ses.closer.release || x.ses.closer.ok
    ensures var t := Apply(id, x, CloserResetReturns).ses;
            Latched(t) && (t.released || t.closeDone) && t.renewals.loops == x.ses.renewals.loops
  {
  }

  /**
   * Release is permanent, and so is a Close that succeeded: from the moment it
   * returns, every later state of every run has no client, no credential and no
   * closure for this session and no renewal loop it did not have already,
   * whatever late responses and other Close calls interleave.
   */
  lemma ReleaseIsPermanent(s: Sys, id: nat, later: seq<Event>)
    requires Reachable(s) && Possible(s, Act(id, CloserResetReturns))
    requires s.sessions[id].closer.release || s.sessions[id].closer.ok
    requires IsRun(Next(s, Act(id, CloserResetReturns)), later)
    ensures var t := After(Next(s, Act(id, CloserResetReturns)), later);
            && id in t.sessions && t.sessions[id].closed && t.sessions[id].link == UNLINKED
            && Owned(t.pool, id) == {} && NoNewLoop(s, t, id)
  {
    var e := Act(id, CloserResetReturns);
    ReachableInv(s);
    assert LocalInv(id, View(s, id));
    ReturningFinishes(id, View(s, id));
    NextKeepsInv(s, e);
    RunKeepsFinished(Next(s, e), later, id);
    RunKeepsInv(Next(s, e), later);
    FinishedHoldsNothing(After(Next(s, e), later), id);
  }

  /** Over all Close calls of a session, the terminate RPC succeeds at most once. */
  lemma TerminatesOnce(s: Sys, id: nat)
    requires Reachable(s) && id in s.sessions
    ensures s.sessions[id].terminations <= 1
    ensures s.sessions[id].closer.Idle? ==> (s.sessions[id].closeDone <==> s.sessions[id].terminations == 1)
  {
    ReachableInv(s);
    assert LocalInv(id, View(s, id));
  }
}
