/** Timed claims on accounts, proxies and SIMs shared by concurrent collectors. */
module ResourceLock {
  import opened Prelude

  datatype Kind = Account | Proxy | SimCard

  datatype Resource = Resource(kind: Kind, id: nat)

  type Owner = string

  datatype Lock = Lock(until: Option<Time>, owner: Option<Owner>)

  const FREE: Lock := Lock(None, None)

  datatype Lease = Lease(resource: Resource, owner: Owner)

  /** `locks` is the stored table. `leases` is what the callers believe: the expiry of every claim that
      was granted to them and that they did not release. */
  datatype World = World(locks: map<Resource, Lock>, leases: map<Lease, Time>, clock: Time)

  /** What can happen, in any order and by any owner. A claim samples its clock `lag` before its
      transaction runs. */
  datatype Event =
    | Claim(resource: Resource, owner: Owner, lag: nat, ttl: int)
    | Release(resource: Resource, owner: Owner)
    | Advance(elapsed: nat)

  predicate Claimable(l: Lock, owner: Owner, now: Time) {
    l.until.None? || l.until.value < now || l.owner == Some(owner)
  }

  // The new world, and for a claim whether it was granted.
  function Do(w: World, e: Event): (World, bool) {
    match e
    case Claim(r, owner, lag, ttl) =>
      var now := w.clock - lag;
      if r in w.locks && Claimable(w.locks[r], owner, now)
      then (w.(locks := w.locks[r := Lock(Some(now + ttl), Some(owner))],
               leases := w.leases[Lease(r, owner) := now + ttl]), true)
      else (w, false)
    case Release(r, owner) =>
      var locks := if r in w.locks && w.locks[r].owner == Some(owner) then w.locks[r := FREE] else w.locks;
      (w.(locks := locks, leases := w.leases - {Lease(r, owner)}), true)
    case Advance(elapsed) => (w.(clock := w.clock + elapsed), true)
  }

  function Replay(w: World, events: seq<Event>): World {
    if events == [] then w else Do(Replay(w, events[..|events| - 1]), events[|events| - 1]).0
  }

  // A granted lease that is neither released nor expired.
  predicate Holds(w: World, l: Lease) {
    l in w.leases && w.clock <= w.leases[l]
  }

  // ------------------------------------------------------------------ invariant

  // Every held lease is what the table says.
  ghost predicate Backed(w: World) {
    forall l :: l in w.leases && Holds(w, l) ==>
      l.resource in w.locks && w.locks[l.resource] == Lock(Some(w.leases[l]), Some(l.owner))
  }

  // Every lock was granted to its owner, until the expiry it shows.
  ghost predicate Granted(w: World, r: Resource)
    requires r in w.locks
  {
    var l := w.locks[r];
    l.until.Some? && l.owner.Some? && Lease(r, l.owner.value) in w.leases
      && w.leases[Lease(r, l.owner.value)] == l.until.value
  }

  ghost predicate Inv(w: World) {
    Backed(w) && forall r :: r in w.locks && w.locks[r] != FREE ==> Granted(w, r)
  }

  lemma DoKeepsInv(w: World, e: Event)
    requires Inv(w)
    ensures Inv(Do(w, e).0)
  {
    var w' := Do(w, e).0;
    forall l | l in w'.leases && Holds(w', l)
      ensures l.resource in w'.locks && w'.locks[l.resource] == Lock(Some(w'.leases[l]), Some(l.owner))
    {
      if l in w.leases && w.leases[l] == w'.leases[l] {
        assert Holds(w, l);
      }
    }
    forall r | r in w'.locks && w'.locks[r] != FREE ensures Granted(w', r) {
      if w'.locks[r] == w.locks[r] {
        assert Granted(w, r);
      }
    }
  }

  lemma {:induction false} ReplayKeepsInv(w: World, events: seq<Event>)
    requires Inv(w)
    ensures Inv(Replay(w, events)) && Replay(w, events).clock >= w.clock
    ensures Replay(w, events).locks.Keys == w.locks.Keys
  {
    if events != [] {
      ReplayKeepsInv(w, events[..|events| - 1]);
      DoKeepsInv(Replay(w, events[..|events| - 1]), events[|events| - 1]);
    }
  }

  // All resources exist and none is locked.
  function Unlocked(resources: set<Resource>, clock: Time): World {
    World(map r | r in resources :: FREE, map[], clock)
  }

  /** Over all interleavings of claims, releases and clock advances, by any owners, no resource is
      ever held by two owners at once. */
  lemma MutualExclusion(resources: set<Resource>, clock: Time, events: seq<Event>, r: Resource, a: Owner, b: Owner)
    ensures var w := Replay(Unlocked(resources, clock), events);
      Holds(w, Lease(r, a)) && Holds(w, Lease(r, b)) ==> a == b
  {
    ReplayKeepsInv(Unlocked(resources, clock), events);
  }

  /** A claim is granted if and only if the resource exists and no other owner holds it. */
  lemma GrantedIffFree(w: World, r: Resource, owner: Owner, ttl: int)
    requires Inv(w)
    ensures Do(w, Claim(r, owner, 0, ttl)).1 <==>
      r in w.locks && forall o: Owner :: o != owner ==> !Holds(w, Lease(r, o))
  {
    if r in w.locks && !Claimable(w.locks[r], owner, w.clock) {
      assert Granted(w, r);
      assert Holds(w, Lease(r, w.locks[r].owner.value));
    }
  }

  // What is used during a lease: the account, proxy or SIM an assignment row stands for.
  ghost predicate OneUserEach(resources: set<Resource>, clock: Time, stands: map<Resource, nat>)
    requires resources <= stands.Keys
  {
    forall events: seq<Event>, r, s, a, b ::
      (&& r in resources && s in resources && stands[r] == stands[s]
       && Holds(Replay(Unlocked(resources, clock), events), Lease(r, a))
       && Holds(Replay(Unlocked(resources, clock), events), Lease(s, b)))
      ==> a == b
  }

  /** Locks live on the assignment rows of a sector. So in every run each account (or SIM, or proxy) has
      at most one user if and only if no two rows stand for the same one; an account assigned to two
      sectors can be in use by both. */
  lemma OneUserEachIff(resources: set<Resource>, clock: Time, stands: map<Resource, nat>)
    requires resources <= stands.Keys
    ensures OneUserEach(resources, clock, stands) <==>
      forall r, s :: r in resources && s in resources && stands[r] == stands[s] ==> r == s
  {
    var w := Unlocked(resources, clock);
    if r, s :| r in resources && s in resources && stands[r] == stands[s] && r != s {
      var first, second := Claim(r, "a", 0, 0), Claim(s, "b", 0, 0);
      var events := [first, second];
      assert events[..1] == [first] && [first][..0] == [];
      assert Replay(w, []) == w;
      assert Replay(w, [first]) == Do(w, first).0;
      assert Replay(w, events) == Do(Do(w, first).0, second).0;
      assert Holds(Replay(w, events), Lease(r, "a")) && Holds(Replay(w, events), Lease(s, "b"));
      assert "a" != "b";
    } else {
      forall events: seq<Event>, r, s, a, b | r in resources && s in resources && stands[r] == stands[s]
        && Holds(Replay(w, events), Lease(r, a)) && Holds(Replay(w, events), Lease(s, b))
        ensures a == b
      {
        MutualExclusion(resources, clock, events, r, a, b);
      }
    }
  }

  // The owner neither renews nor releases the resource.
  predicate Leaves(e: Event, l: Lease) {
    e.Advance? || e.resource != l.resource || e.owner != l.owner
  }

  lemma StepSparesLease(w: World, e: Event, l: Lease)
    requires Inv(w) && Holds(w, l) && Leaves(e, l)
    ensures var w' := Do(w, e).0;
      l in w'.leases && w'.leases[l] == w.leases[l] && w'.locks[l.resource] == w.locks[l.resource]
    ensures !e.Advance? && e.resource == l.resource ==> Do(w, e).0.locks == w.locks && (e.Claim? ==> !Do(w, e).1)
  {
  }

  /** Until it expires a lease survives everything the others do: the row is untouched, whatever they
      claim on that resource is refused, and a late release by a former holder changes nothing. */
  lemma {:induction false} LeaseIsProtected(w: World, events: seq<Event>, l: Lease)
    requires Inv(w) && Holds(w, l)
    requires forall i :: 0 <= i < |events| ==> Leaves(events[i], l)
    requires Replay(w, events).clock <= w.leases[l]
    ensures Holds(Replay(w, events), l)
    ensures l.resource in Replay(w, events).locks && Replay(w, events).locks[l.resource] == w.locks[l.resource]
    ensures forall i :: 0 <= i < |events| && !events[i].Advance? && events[i].resource == l.resource ==>
      var before := Replay(w, events[..i]);
      Do(before, events[i]).0.locks == before.locks && (events[i].Claim? ==> !Do(before, events[i]).1)
  {
    if events != [] {
      var n := |events| - 1;
      var rest := events[..n];
      LeaseIsProtected(w, rest, l);
      ReplayKeepsInv(w, rest);
      StepSparesLease(Replay(w, rest), events[n], l);
      forall i | 0 <= i < |events| && !events[i].Advance? && events[i].resource == l.resource
        ensures var before := Replay(w, events[..i]);
          Do(before, events[i]).0.locks == before.locks && (events[i].Claim? ==> !Do(before, events[i]).1)
      {
        if i < n {
          assert rest[..i] == events[..i] && rest[i] == events[i];
        }
      }
    }
  }

  /** Nobody renews a lease: after a wait another owner takes the resource if and only if the wait
      outlasts the lease, whether or not its holder is still at work. */
  lemma TakenOverIff(w: World, l: Lease, wait: nat, other: Owner, ttl: int)
    requires Inv(w) && Holds(w, l) && other != l.owner
    ensures Do(Replay(w, [Advance(wait)]), Claim(l.resource, other, 0, ttl)).1 <==> w.clock + wait > w.leases[l]
  {
    assert [Advance(wait)][..0] == [] && Replay(w, []) == w;
    assert Replay(w, [Advance(wait)]) == Do(w, Advance(wait)).0;
  }

  /** A granted claim is a lease of exactly its time to live, counted from the clock its owner sampled: after
      a wait another owner takes the resource if and only if lag and wait together outlast it. */
  lemma GrantLasts(w: World, r: Resource, owner: Owner, lag: nat, ttl: int, wait: nat, other: Owner, ttl': int)
    requires other != owner && Do(w, Claim(r, owner, lag, ttl)).1
    ensures var granted := Do(w, Claim(r, owner, lag, ttl)).0;
      && granted.leases[Lease(r, owner)] == w.clock - lag + ttl
      && (Do(Replay(granted, [Advance(wait)]), Claim(r, other, 0, ttl')).1 <==> lag + wait > ttl)
  {
    var granted := Do(w, Claim(r, owner, lag, ttl)).0;
    assert [Advance(wait)][..0] == [] && Replay(granted, []) == granted;
    assert Replay(granted, [Advance(wait)]) == Do(granted, Advance(wait)).0;
  }

  /** The table itself, updated in place. */
  class LockTable {
    var locks: map<Resource, Lock>
    var clock: Time
    ghost var leases: map<Lease, Time>

    ghost function View(): World
      reads this
    {
      World(locks, leases, clock)
    }

    constructor (resources: set<Resource>, now: Time)
      ensures View() == Unlocked(resources, now) && Inv(View())
    {
      locks, leases, clock := map r | r in resources :: FREE, map[], now;
    }

    method ClaimResource(resource: Resource, owner: Owner, lag: nat, ttl: int) returns (ok: bool)
      modifies this
      ensures (View(), ok) == Do(old(View()), Claim(resource, owner, lag, ttl))
      ensures old(Inv(View())) ==> Inv(View())
    {
      ghost var before := View();
      if Inv(before) {
        DoKeepsInv(before, Claim(resource, owner, lag, ttl));
      }
      var now := clock - lag;
      ok := resource in locks && Claimable(locks[resource], owner, now);
      if ok {
        locks := locks[resource := Lock(Some(now + ttl), Some(owner))];
        leases := leases[Lease(resource, owner) := now + ttl];
      }
    }

    method ReleaseResource(resource: Resource, owner: Owner)
      modifies this
      ensures View() == Do(old(View()), Release(resource, owner)).0
      ensures old(Inv(View())) ==> Inv(View())
    {
      ghost var before := View();
      if Inv(before) {
        DoKeepsInv(before, Release(resource, owner));
      }
      if resource in locks && locks[resource].owner == Some(owner) {
        locks := locks[resource := FREE];
      }
      leases := leases - {Lease(resource, owner)};
    }

    // What the other owners do between two transactions of a caller.
    method Interleave(events: seq<Event>)
      modifies this
      ensures View() == Replay(old(View()), events)
      ensures old(Inv(View())) ==> Inv(View())
    {
      ghost var before := View();
      if Inv(before) {
        ReplayKeepsInv(before, events);
      }
      var i := 0;
      while i < |events|
        invariant 0 <= i <= |events|
        invariant View() == Replay(before, events[..i])
      {
        assert events[..i + 1][..i] == events[..i];
        match events[i] {
          case Claim(r, owner, lag, ttl) => var _ := ClaimResource(r, owner, lag, ttl);
          case Release(r, owner) => ReleaseResource(r, owner);
          case Advance(elapsed) => clock := clock + elapsed;
        }
        i := i + 1;
      }
      assert events[..i] == events;
    }
  }
}
