/**
 * The client-wide pool of data-plane transports (sandbox/data_plane.go:125-172).
 *
 * A pooled entry is identified by `id`, which stands for the address of the Go
 * struct: an entry created after an eviction is a different entry even when its
 * origin is the same. A lease is a release closure that has not fired; it
 * remembers the origin and the entry it captured.
 */
module DataPlanePool {
  datatype SharedClient = SharedClient(id: nat, references: int)

  datatype Lease = Lease(origin: string, entry: nat, owner: nat)

  datatype Pool = Pool(entries: map<string, SharedClient>, nextEntry: nat,
                       leases: map<nat, Lease>, nextLease: nat)

  const EMPTY := Pool(map[], 0, map[], 0)

  /** The locked block of acquireDataPlaneHTTPClient. The new closure is `p.nextLease`. */
  function Acquire(p: Pool, origin: string, owner: nat): Pool {
    var shared := if origin in p.entries then p.entries[origin] else SharedClient(p.nextEntry, 0);
    Pool(p.entries[origin := shared.(references := shared.references + 1)],
         if origin in p.entries then p.nextEntry else p.nextEntry + 1,
         p.leases[p.nextLease := Lease(origin, shared.id, owner)],
         p.nextLease + 1)
  }

  /** One call of a release closure; a second call is absorbed by its sync.Once. */
  function Fire(p: Pool, lease: nat): Pool {
    if lease !in p.leases then p
    else
      var l := p.leases[lease];
      var fired := p.(leases := p.leases - {lease});
      if l.origin !in p.entries || p.entries[l.origin].id != l.entry then fired
      else if p.entries[l.origin].references - 1 > 0 then
        fired.(entries := p.entries[l.origin := SharedClient(l.entry, p.entries[l.origin].references - 1)])
      else
        fired.(entries := p.entries - {l.origin})
  }

  /** closeDataPlaneHTTPClients: Client.Close evicts every entry. */
  function Evict(p: Pool): Pool {
    p.(entries := map[])
  }

  /** The unfired closures bound to one entry. */
  function Holders(leases: map<nat, Lease>, entry: nat): set<nat> {
    set l | l in leases && leases[l].entry == entry
  }

  /** Entries and closures refer to each other by live identities only. */
  ghost predicate Bound(p: Pool) {
    && (forall o | o in p.entries :: p.entries[o].id < p.nextEntry)
    && (forall o1, o2 | o1 in p.entries && o2 in p.entries && p.entries[o1].id == p.entries[o2].id :: o1 == o2)
    && (forall l | l in p.leases :: l < p.nextLease && p.leases[l].entry < p.nextEntry)
    && (forall l, o | l in p.leases && o in p.entries && p.leases[l].entry == p.entries[o].id ::
        p.leases[l].origin == o)
  }

  ghost predicate PoolInv(p: Pool) {
    Bound(p) && Conserved(p)
  }

  /** Each pooled origin counts exactly its own unfired closures, and never zero of them. */
  ghost predicate Conserved(p: Pool) {
    forall o | o in p.entries ::
      p.entries[o].references == |Holders(p.leases, p.entries[o].id)| >= 1
  }

  lemma HoldersAdd(leases: map<nat, Lease>, l: nat, lease: Lease, entry: nat)
    requires l !in leases
    ensures Holders(leases[l := lease], entry) ==
            Holders(leases, entry) + (if lease.entry == entry then {l} else {})
  {
    var more := leases[l := lease];
    assert forall x :: x in Holders(more, entry) <==>
      x in Holders(leases, entry) + (if lease.entry == entry then {l} else {});
  }

  lemma HoldersRemove(leases: map<nat, Lease>, l: nat, entry: nat)
    requires l in leases
    ensures Holders(leases - {l}, entry) == Holders(leases, entry) - {l}
    ensures leases[l].entry == entry ==> |Holders(leases - {l}, entry)| == |Holders(leases, entry)| - 1
    ensures leases[l].entry != entry ==> Holders(leases - {l}, entry) == Holders(leases, entry)
  {
    assert forall x :: x in Holders(leases - {l}, entry) <==> x in Holders(leases, entry) - {l};
    if leases[l].entry == entry {
      assert l in Holders(leases, entry);
    } else {
      assert l !in Holders(leases, entry);
      assert Holders(leases, entry) - {l} == Holders(leases, entry);
    }
  }

  lemma AcquireConserves(p: Pool, origin: string, owner: nat, o: string)
    requires PoolInv(p)
    requires o in Acquire(p, origin, owner).entries
    ensures var q := Acquire(p, origin, owner);
            q.entries[o].references == |Holders(q.leases, q.entries[o].id)| >= 1
  {
    var q := Acquire(p, origin, owner);
    HoldersAdd(p.leases, p.nextLease, q.leases[p.nextLease], q.entries[o].id);
    if o == origin {
      assert p.nextLease !in Holders(p.leases, q.entries[o].id);
      if origin !in p.entries {
        assert Holders(p.leases, p.nextEntry) == {};
      }
    } else {
      assert q.entries[o] == p.entries[o];
    }
  }

  lemma AcquireKeepsPool(p: Pool, origin: string, owner: nat)
    requires PoolInv(p)
    ensures PoolInv(Acquire(p, origin, owner))
  {
    var q := Acquire(p, origin, owner);
    assert Bound(q);
    forall o | o in q.entries
      ensures q.entries[o].references == |Holders(q.leases, q.entries[o].id)| >= 1
    {
      AcquireConserves(p, origin, owner, o);
    }
  }

  lemma FireKeepsBound(p: Pool, lease: nat)
    requires Bound(p)
    ensures Bound(Fire(p, lease))
  {
  }

  lemma FireConserves(p: Pool, lease: nat, o: string)
    requires PoolInv(p) && lease in p.leases && o in Fire(p, lease).entries
    ensures var q := Fire(p, lease);
            q.entries[o].references == |Holders(q.leases, q.entries[o].id)| >= 1
  {
    assert Fire(p, lease).leases == p.leases - {lease};
    assert Fire(p, lease).entries[o].id == p.entries[o].id;
    HoldersRemove(p.leases, lease, p.entries[o].id);
  }

  lemma FireKeepsPool(p: Pool, lease: nat)
    requires PoolInv(p)
    ensures PoolInv(Fire(p, lease))
  {
    FireKeepsBound(p, lease);
    if lease in p.leases {
      var q := Fire(p, lease);
      forall o | o in q.entries
        ensures q.entries[o].references == |Holders(q.leases, q.entries[o].id)| >= 1
      {
        FireConserves(p, lease, o);
      }
    }
  }

  /** An entry that was pooled once and is pooled no more. */
  ghost predicate Gone(p: Pool, entry: nat) {
    entry < p.nextEntry && forall o | o in p.entries :: p.entries[o].id != entry
  }

  lemma AcquireKeepsGone(p: Pool, origin: string, owner: nat, entry: nat)
    requires Gone(p, entry)
    ensures Gone(Acquire(p, origin, owner), entry)
  {
  }

  lemma FireKeepsGone(p: Pool, lease: nat, entry: nat)
    requires Gone(p, entry)
    ensures Gone(Fire(p, lease), entry)
  {
  }

  /** An entry leaves the pool by its last closure or by the client's Close, and is gone then. */
  lemma LeavesGone(p: Pool, lease: nat, o: string)
    requires PoolInv(p) && o in p.entries
    ensures o !in Fire(p, lease).entries ==> Gone(Fire(p, lease), p.entries[o].id)
    ensures Gone(Evict(p), p.entries[o].id)
  {
  }

  /** A closure whose entry is gone leaves every later entry alone, also one of its own origin. */
  lemma StaleLeaseIsHarmless(p: Pool, lease: nat)
    requires lease in p.leases && Gone(p, p.leases[lease].entry)
    ensures Fire(p, lease).entries == p.entries
  {
  }

  /** Acquiring and releasing at once gives back the entries, whatever was pooled before. */
  lemma AcquireThenFire(p: Pool, origin: string, owner: nat)
    requires PoolInv(p)
    ensures Fire(Acquire(p, origin, owner), p.nextLease).entries == p.entries
    ensures Fire(Acquire(p, origin, owner), p.nextLease).leases == p.leases
  {
    var q := Acquire(p, origin, owner);
    assert q.leases - {p.nextLease} == p.leases;
    if origin in p.entries {
      assert q.entries[origin := p.entries[origin]] == p.entries;
    } else {
      assert q.entries - {origin} == p.entries;
    }
  }

  /**
   * The new closure is for the origin asked for and for the entry pooled there, which
   * is the old one where there was one and a new one where there was none.
   */
  lemma AcquireBinds(p: Pool, origin: string, owner: nat)
    requires PoolInv(p)
    ensures var q := Acquire(p, origin, owner);
            && p.nextLease !in p.leases && q.leases.Keys == p.leases.Keys + {p.nextLease}
            && q.leases[p.nextLease].origin == origin && q.leases[p.nextLease].owner == owner
            && origin in q.entries && q.leases[p.nextLease].entry == q.entries[origin].id
            && (origin in p.entries ==> q.entries[origin].id == p.entries[origin].id)
            && (origin !in p.entries ==> forall l | l in p.leases :: p.leases[l].entry != q.entries[origin].id)
            && (forall o | o in p.entries && o != origin :: o in q.entries && q.entries[o] == p.entries[o])
  {
  }

  /** The last closure of an entry takes the entry out of the pool, and no earlier one does. */
  lemma LastLeaseEvicts(p: Pool, lease: nat)
    requires PoolInv(p) && lease in p.leases
    requires p.leases[lease].origin in p.entries
    requires p.entries[p.leases[lease].origin].id == p.leases[lease].entry
    ensures p.leases[lease].origin !in Fire(p, lease).entries <==>
            Holders(p.leases, p.leases[lease].entry) == {lease}
  {
    var holders := Holders(p.leases, p.leases[lease].entry);
    assert lease in holders;
    if |holders| == 1 {
      assert |holders - {lease}| == 0;
    }
  }
}
