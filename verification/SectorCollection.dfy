/** A collection run: lease one resource of each kind, scrape, and release, while other owners act. */
module SectorCollection {
  import opened Prelude
  import opened ResourceLock

  datatype Source = Lbc | LaCentrale | Unknown

  // The resources assigned to a sector, in the order they are tried.
  datatype Sector = Sector(source: Source, accounts: seq<nat>, proxies: seq<nat>, sims: seq<nat>)

  datatype Ending = Completed | NoAccount | NoProxy | NoSim | Unsupported | ScrapeFailed

  const TTL: int := 300 * SECOND

  // What the others do before each transaction of the collector, and how late its clock sample is.
  datatype Environment = Environment(acts: nat -> seq<Event>, lag: nat -> nat)

  // The collector between two transactions.
  datatype Session = Session(world: World, step: nat, leases: seq<Resource>)

  // The first resource of the list that can be claimed is leased.
  function ClaimFirst(s: Session, kind: Kind, ids: seq<nat>, owner: Owner, env: Environment): Session
    decreases ids
  {
    if ids == [] then s
    else
      var r := Resource(kind, ids[0]);
      var (w, ok) := Do(Replay(s.world, env.acts(s.step)), Claim(r, owner, env.lag(s.step), TTL));
      if ok then Session(w, s.step + 1, s.leases + [r])
      else ClaimFirst(Session(w, s.step + 1, s.leases), kind, ids[1..], owner, env)
  }

  // The resources a run needs, kind by kind.
  function Needs(sector: Sector): seq<(Kind, seq<nat>)> {
    (if sector.source == Lbc then [(Account, sector.accounts)] else [])
    + (if sector.proxies != [] then [(Proxy, sector.proxies)] else [])
    + (if sector.sims != [] then [(SimCard, sector.sims)] else [])
  }

  function Missing(kind: Kind): Ending {
    match kind
    case Account => NoAccount
    case Proxy => NoProxy
    case SimCard => NoSim
  }

  // Leases one resource per need; stops at the first kind that has none left.
  function Acquire(s: Session, needs: seq<(Kind, seq<nat>)>, owner: Owner, env: Environment): (Session, Option<Ending>)
    decreases needs
  {
    if needs == [] then (s, None)
    else
      var s' := ClaimFirst(s, needs[0].0, needs[0].1, owner, env);
      if |s'.leases| == |s.leases| then (s', Some(Missing(needs[0].0)))
      else Acquire(s', needs[1..], owner, env)
  }

  function ReleaseFrom(s: Session, i: nat, owner: Owner, env: Environment): Session
    decreases |s.leases| - i
  {
    if i >= |s.leases| then s
    else
      var w := Do(Replay(s.world, env.acts(s.step)), Release(s.leases[i], owner)).0;
      ReleaseFrom(Session(w, s.step + 1, s.leases), i + 1, owner, env)
  }

  function Collect(w: World, sector: Sector, owner: Owner, env: Environment, scraped: bool): (Session, Ending) {
    var (s, failure) := Acquire(Session(w, 0, []), Needs(sector), owner, env);
    var ending :=
      if failure.Some? then failure.value
      else if sector.source == Unknown then Unsupported
      else if scraped then Completed
      else ScrapeFailed;
    (ReleaseFrom(s, 0, owner, env), ending)
  }

  // ---------------------------------------------------------- others never act for us

  ghost predicate Foreign(events: seq<Event>, owner: Owner) {
    forall i :: 0 <= i < |events| ==> events[i].Advance? || events[i].owner != owner
  }

  ghost predicate ForeignEnv(env: Environment, owner: Owner) {
    forall n: nat :: Foreign(env.acts(n), owner)
  }

  // Every row locked by the owner is among `rows`.
  ghost predicate LocksOnly(w: World, owner: Owner, rows: seq<Resource>) {
    forall r :: r in w.locks && w.locks[r].owner == Some(owner) ==> r in rows
  }

  // The owner believes it leases every one of `rows`.
  ghost predicate Leased(w: World, owner: Owner, rows: seq<Resource>) {
    forall k :: 0 <= k < |rows| ==> Lease(rows[k], owner) in w.leases
  }

  lemma {:induction false} ForeignReplay(w: World, events: seq<Event>, owner: Owner, rows: seq<Resource>)
    requires Inv(w) && Foreign(events, owner) && LocksOnly(w, owner, rows)
    ensures var w' := Replay(w, events);
      && Inv(w') && LocksOnly(w', owner, rows) && w'.clock >= w.clock
      && (forall l :: l in w.leases && l.owner == owner ==> l in w'.leases && w'.leases[l] == w.leases[l])
  {
    if events != [] {
      var rest := events[..|events| - 1];
      ForeignReplay(w, rest, owner, rows);
      DoKeepsInv(Replay(w, rest), events[|events| - 1]);
    }
  }

  // A session that knows all its locks.
  ghost predicate Sound(s: Session, owner: Owner) {
    Inv(s.world) && LocksOnly(s.world, owner, s.leases) && Leased(s.world, owner, s.leases)
  }

  lemma {:induction false} ClaimFirstIsSound(s: Session, kind: Kind, ids: seq<nat>, owner: Owner, env: Environment)
    requires Sound(s, owner) && ForeignEnv(env, owner)
    ensures var s' := ClaimFirst(s, kind, ids, owner, env);
      && Sound(s', owner)
      && (s'.leases == s.leases || exists i :: 0 <= i < |ids| && s'.leases == s.leases + [Resource(kind, ids[i])])
    decreases ids
  {
    if ids != [] {
      var before := Replay(s.world, env.acts(s.step));
      var e := Claim(Resource(kind, ids[0]), owner, env.lag(s.step), TTL);
      ForeignReplay(s.world, env.acts(s.step), owner, s.leases);
      DoKeepsInv(before, e);
      var (w, ok) := Do(before, e);
      if !ok {
        ClaimFirstIsSound(Session(w, s.step + 1, s.leases), kind, ids[1..], owner, env);
      }
    }
  }

  // One lease per need, from its own list and in order.
  ghost predicate Meets(leases: seq<Resource>, needs: seq<(Kind, seq<nat>)>) {
    |leases| == |needs| && forall k :: 0 <= k < |needs| ==> leases[k].kind == needs[k].0 && leases[k].id in needs[k].1
  }

  lemma {:induction false} AcquireIsSound(s: Session, needs: seq<(Kind, seq<nat>)>, owner: Owner, env: Environment)
    requires Sound(s, owner) && ForeignEnv(env, owner)
    ensures var (s', failure) := Acquire(s, needs, owner, env);
      && Sound(s', owner) && s.leases <= s'.leases
      && (failure.None? ==> Meets(s'.leases[|s.leases|..], needs))
      && (failure.Some? ==> exists k :: 0 <= k < |needs| && failure.value == Missing(needs[k].0))
    decreases needs
  {
    if needs != [] {
      var m := ClaimFirst(s, needs[0].0, needs[0].1, owner, env);
      ClaimFirstIsSound(s, needs[0].0, needs[0].1, owner, env);
      if |m.leases| != |s.leases| {
        AcquireIsSound(m, needs[1..], owner, env);
        var s' := Acquire(m, needs[1..], owner, env).0;
        assert s'.leases[|s.leases|] == m.leases[|s.leases|];
        assert s'.leases[|s.leases|..] == [m.leases[|s.leases|]] + s'.leases[|m.leases|..];
      }
    }
  }

  lemma {:induction false} ReleaseFreesAll(s: Session, i: nat, owner: Owner, env: Environment)
    requires i <= |s.leases| && Inv(s.world) && LocksOnly(s.world, owner, s.leases[i..]) && ForeignEnv(env, owner)
    ensures Inv(ReleaseFrom(s, i, owner, env).world) && LocksOnly(ReleaseFrom(s, i, owner, env).world, owner, [])
    decreases |s.leases| - i
  {
    if i < |s.leases| {
      var before := Replay(s.world, env.acts(s.step));
      ForeignReplay(s.world, env.acts(s.step), owner, s.leases[i..]);
      DoKeepsInv(before, Release(s.leases[i], owner));
      assert s.leases[i..] == [s.leases[i]] + s.leases[i + 1..];
      ReleaseFreesAll(Session(Do(before, Release(s.leases[i], owner)).0, s.step + 1, s.leases), i + 1, owner, env);
    }
  }

  /** Whatever the others do meanwhile, and whether the run returns or raises, no row is still locked by
      its owner afterwards. A run that gets past the claims leased exactly one resource per needed kind. */
  lemma NothingStaysLocked(w: World, sector: Sector, owner: Owner, env: Environment, scraped: bool)
    requires Inv(w) && LocksOnly(w, owner, []) && ForeignEnv(env, owner)
    ensures var (s, ending) := Collect(w, sector, owner, env, scraped);
      && Inv(s.world) && LocksOnly(s.world, owner, [])
      && (ending in {Completed, ScrapeFailed, Unsupported} ==> Meets(s.leases, Needs(sector)))
  {
    var (s, failure) := Acquire(Session(w, 0, []), Needs(sector), owner, env);
    AcquireIsSound(Session(w, 0, []), Needs(sector), owner, env);
    assert s.leases[0..] == s.leases;
    ReleaseFreesAll(s, 0, owner, env);
    ReleaseKeepsList(s, 0, owner, env);
  }

  lemma {:induction false} ReleaseKeepsList(s: Session, i: nat, owner: Owner, env: Environment)
    ensures ReleaseFrom(s, i, owner, env).leases == s.leases
    decreases |s.leases| - i
  {
    if i < |s.leases| {
      var w := Do(Replay(s.world, env.acts(s.step)), Release(s.leases[i], owner)).0;
      ReleaseKeepsList(Session(w, s.step + 1, s.leases), i + 1, owner, env);
    }
  }

  /** While it scrapes, and whatever the others do, every lease the run took and that has not expired is
      its own: the row says so and no other owner holds it. */
  lemma ScrapesUnderLease(w: World, sector: Sector, owner: Owner, env: Environment, meanwhile: seq<Event>, k: nat,
                          other: Owner)
    requires Inv(w) && LocksOnly(w, owner, []) && ForeignEnv(env, owner) && Foreign(meanwhile, owner)
    requires Acquire(Session(w, 0, []), Needs(sector), owner, env).1.None? && k < |Needs(sector)|
    ensures var s := Acquire(Session(w, 0, []), Needs(sector), owner, env).0;
      var now := Replay(s.world, meanwhile);
      && |s.leases| == |Needs(sector)| && s.leases[k].kind == Needs(sector)[k].0 && s.leases[k].id in Needs(sector)[k].1
      && Lease(s.leases[k], owner) in now.leases
      && (now.clock <= now.leases[Lease(s.leases[k], owner)] ==>
            && s.leases[k] in now.locks && now.locks[s.leases[k]].owner == Some(owner)
            && (Holds(now, Lease(s.leases[k], other)) ==> other == owner))
  {
    var s := Acquire(Session(w, 0, []), Needs(sector), owner, env).0;
    AcquireIsSound(Session(w, 0, []), Needs(sector), owner, env);
    ForeignReplay(s.world, meanwhile, owner, s.leases);
    assert s.leases[0..] == s.leases;
  }

  // ------------------------------------------------------------------ when it is refused

  const QUIET: Environment := Environment(n => [], n => 0)

  // Some resource of the list exists and nobody else holds it.
  ghost predicate Available(w: World, kind: Kind, ids: seq<nat>, owner: Owner) {
    exists i :: 0 <= i < |ids| && Unheld(w, Resource(kind, ids[i]), owner)
  }

  ghost predicate Unheld(w: World, r: Resource, owner: Owner) {
    r in w.locks && forall o: Owner :: o != owner ==> !Holds(w, Lease(r, o))
  }

  lemma {:induction false} QuietClaim(s: Session, kind: Kind, ids: seq<nat>, owner: Owner)
    requires Inv(s.world)
    ensures var s' := ClaimFirst(s, kind, ids, owner, QUIET);
      && Inv(s'.world) && (|s'.leases| != |s.leases| <==> Available(s.world, kind, ids, owner))
      && (forall r: Resource, o: Owner :: r.kind != kind ==> (Unheld(s'.world, r, o) <==> Unheld(s.world, r, o)))
    decreases ids
  {
    if ids != [] {
      var e := Claim(Resource(kind, ids[0]), owner, 0, TTL);
      assert Replay(s.world, QUIET.acts(s.step)) == s.world;
      GrantedIffFree(s.world, Resource(kind, ids[0]), owner, TTL);
      DoKeepsInv(s.world, e);
      var (w, ok) := Do(s.world, e);
      if ok {
        assert Unheld(s.world, Resource(kind, ids[0]), owner);
        forall r: Resource, o: Owner | r.kind != kind ensures Unheld(w, r, o) <==> Unheld(s.world, r, o) {
          forall p: Owner ensures Holds(w, Lease(r, p)) <==> Holds(s.world, Lease(r, p)) {}
        }
      } else {
        QuietClaim(Session(w, s.step + 1, s.leases), kind, ids[1..], owner);
        if i :| 0 <= i < |ids| && Unheld(s.world, Resource(kind, ids[i]), owner) {
          assert i > 0 && ids[1..][i - 1] == ids[i];
        }
      }
    }
  }

  // A lease taken without interference lasts five minutes.
  lemma {:induction false} LeasesFiveMinutes(s: Session, kind: Kind, ids: seq<nat>, owner: Owner)
    ensures var s' := ClaimFirst(s, kind, ids, owner, QUIET);
      && s'.world.clock == s.world.clock
      && (s'.leases != s.leases ==>
            |s'.leases| == |s.leases| + 1
            && var l := Lease(s'.leases[|s.leases|], owner);
               l in s'.world.leases && s'.world.leases[l] == s.world.clock + 300 * SECOND)
    decreases ids
  {
    if ids != [] {
      var (w, ok) := Do(s.world, Claim(Resource(kind, ids[0]), owner, 0, TTL));
      assert Replay(s.world, QUIET.acts(s.step)) == s.world;
      if !ok {
        LeasesFiveMinutes(Session(w, s.step + 1, s.leases), kind, ids[1..], owner);
      }
    }
  }

  // The kinds of the needs differ from each other.
  ghost predicate OnePerKind(needs: seq<(Kind, seq<nat>)>) {
    forall i, j :: 0 <= i < j < |needs| ==> needs[i].0 != needs[j].0
  }

  // The first need that cannot be met.
  ghost function FirstUnmet(w: World, needs: seq<(Kind, seq<nat>)>, owner: Owner): Option<Ending> {
    if needs == [] then None
    else if !Available(w, needs[0].0, needs[0].1, owner) then Some(Missing(needs[0].0))
    else FirstUnmet(w, needs[1..], owner)
  }

  lemma {:induction false} SameUnmet(w: World, w': World, needs: seq<(Kind, seq<nat>)>, owner: Owner)
    requires forall k :: 0 <= k < |needs| ==>
      (Available(w, needs[k].0, needs[k].1, owner) <==> Available(w', needs[k].0, needs[k].1, owner))
    ensures FirstUnmet(w', needs, owner) == FirstUnmet(w, needs, owner)
  {
    if needs != [] {
      assert Available(w, needs[0].0, needs[0].1, owner) <==> Available(w', needs[0].0, needs[0].1, owner);
      SameUnmet(w, w', needs[1..], owner);
    }
  }

  lemma {:induction false} QuietAcquire(s: Session, needs: seq<(Kind, seq<nat>)>, owner: Owner)
    requires Inv(s.world) && OnePerKind(needs)
    ensures Acquire(s, needs, owner, QUIET).1 == FirstUnmet(s.world, needs, owner)
    decreases needs
  {
    if needs != [] {
      QuietClaim(s, needs[0].0, needs[0].1, owner);
      var s' := ClaimFirst(s, needs[0].0, needs[0].1, owner, QUIET);
      if |s'.leases| != |s.leases| {
        QuietAcquire(s', needs[1..], owner);
        forall k | 0 <= k < |needs[1..]|
          ensures Available(s'.world, needs[1..][k].0, needs[1..][k].1, owner)
             <==> Available(s.world, needs[1..][k].0, needs[1..][k].1, owner)
        {
          SameAvailability(s.world, s'.world, needs[0].0, needs[k + 1].0, needs[k + 1].1, owner);
        }
        SameUnmet(s.world, s'.world, needs[1..], owner);
      }
    }
  }

  lemma SameAvailability(w: World, w': World, claimed: Kind, kind: Kind, ids: seq<nat>, owner: Owner)
    requires kind != claimed
    requires forall r: Resource, o: Owner :: r.kind != claimed ==> (Unheld(w', r, o) <==> Unheld(w, r, o))
    ensures Available(w', kind, ids, owner) <==> Available(w, kind, ids, owner)
  {
    if i :| 0 <= i < |ids| && Unheld(w, Resource(kind, ids[i]), owner) {
      assert Unheld(w', Resource(kind, ids[i]), owner);
    }
    if i :| 0 <= i < |ids| && Unheld(w', Resource(kind, ids[i]), owner) {
      assert Unheld(w, Resource(kind, ids[i]), owner);
    }
  }

  /** When nobody interferes the run completes if and only if its source is known, the scrape succeeds,
      and each needed kind has a resource that exists and that no other owner holds: an account for LBC
      even when none is assigned, a proxy and a SIM only when some are assigned. */
  lemma CompletesIff(w: World, sector: Sector, owner: Owner, scraped: bool)
    requires Inv(w)
    ensures Collect(w, sector, owner, QUIET, scraped).1 == Completed <==>
      && sector.source != Unknown && scraped
      && (sector.source == Lbc ==> Available(w, Account, sector.accounts, owner))
      && (sector.proxies != [] ==> Available(w, Proxy, sector.proxies, owner))
      && (sector.sims != [] ==> Available(w, SimCard, sector.sims, owner))
  {
    QuietAcquire(Session(w, 0, []), Needs(sector), owner);
    UnmetIff(w, Needs(sector), owner);
    var needs := Needs(sector);
    var a := if sector.source == Lbc then 1 else 0;
    var b := if sector.proxies != [] then 1 else 0;
    assert sector.source == Lbc ==> needs[0] == (Account, sector.accounts);
    assert sector.proxies != [] ==> needs[a] == (Proxy, sector.proxies);
    assert sector.sims != [] ==> needs[a + b] == (SimCard, sector.sims);
  }

  // No resource of the list exists and is free.
  ghost predicate Lacks(w: World, kind: Kind, ids: seq<nat>, owner: Owner) {
    !Available(w, kind, ids, owner)
  }

  /** When nobody interferes the run ends for the first of these reasons: an LBC sector without a free
      account, a sector with proxies none of which is free, one with SIMs none of which is free, an unknown
      source, a failed scrape. */
  lemma EndingIff(w: World, sector: Sector, owner: Owner, scraped: bool)
    requires Inv(w)
    ensures var ending := Collect(w, sector, owner, QUIET, scraped).1;
      var account := sector.source == Lbc && Lacks(w, Account, sector.accounts, owner);
      var proxy := sector.proxies != [] && Lacks(w, Proxy, sector.proxies, owner);
      var sim := sector.sims != [] && Lacks(w, SimCard, sector.sims, owner);
      && (ending == NoAccount <==> account)
      && (ending == NoProxy <==> !account && proxy)
      && (ending == NoSim <==> !account && !proxy && sim)
      && (ending == Unsupported <==> !account && !proxy && !sim && sector.source == Unknown)
      && (ending == ScrapeFailed <==> !account && !proxy && !sim && sector.source != Unknown && !scraped)
  {
    QuietEnding(w, sector, owner, scraped);
    FirstUnmetOfThree(w, sector, owner);
  }

  lemma NeedsDiffer(sector: Sector)
    ensures OnePerKind(Needs(sector))
  {
  }

  lemma QuietEnding(w: World, sector: Sector, owner: Owner, scraped: bool)
    requires Inv(w)
    ensures var unmet := FirstUnmet(w, Needs(sector), owner);
      Collect(w, sector, owner, QUIET, scraped).1 ==
        if unmet.Some? then unmet.value
        else if sector.source == Unknown then Unsupported
        else if scraped then Completed
        else ScrapeFailed
  {
    NeedsDiffer(sector);
    QuietAcquire(Session(w, 0, []), Needs(sector), owner);
  }

  lemma FirstUnmetOfThree(w: World, sector: Sector, owner: Owner)
    ensures FirstUnmet(w, Needs(sector), owner) ==
      if sector.source == Lbc && Lacks(w, Account, sector.accounts, owner) then Some(NoAccount)
      else if sector.proxies != [] && Lacks(w, Proxy, sector.proxies, owner) then Some(NoProxy)
      else if sector.sims != [] && Lacks(w, SimCard, sector.sims, owner) then Some(NoSim)
      else None
  {
    var first: seq<(Kind, seq<nat>)> := if sector.source == Lbc then [(Account, sector.accounts)] else [];
    var second: seq<(Kind, seq<nat>)> := if sector.proxies != [] then [(Proxy, sector.proxies)] else [];
    var third: seq<(Kind, seq<nat>)> := if sector.sims != [] then [(SimCard, sector.sims)] else [];
    assert Needs(sector) == first + (second + third);
    UnmetInOrder(w, first, second + third, owner);
    UnmetInOrder(w, second, third, owner);
    UnmetInOrder(w, third, [], owner);
    assert third + [] == third;
  }

  // At most one need, and then the others.
  lemma UnmetInOrder(w: World, first: seq<(Kind, seq<nat>)>, rest: seq<(Kind, seq<nat>)>, owner: Owner)
    requires |first| <= 1
    ensures FirstUnmet(w, first + rest, owner) ==
      if first != [] && Lacks(w, first[0].0, first[0].1, owner) then Some(Missing(first[0].0))
      else FirstUnmet(w, rest, owner)
  {
    if first == [] {
      assert first + rest == rest;
    } else {
      assert (first + rest)[1..] == rest && (first + rest)[0] == first[0];
    }
  }

  lemma {:induction false} UnmetIff(w: World, needs: seq<(Kind, seq<nat>)>, owner: Owner)
    ensures FirstUnmet(w, needs, owner) == None <==>
      forall k :: 0 <= k < |needs| ==> Available(w, needs[k].0, needs[k].1, owner)
    ensures FirstUnmet(w, needs, owner) != Some(Completed)
  {
    if needs != [] {
      UnmetIff(w, needs[1..], owner);
      assert forall k :: 1 <= k < |needs| ==> needs[k] == needs[1..][k - 1];
    }
  }

  // ------------------------------------------------------------------ page checkpoints

  datatype Attempt = Attempt(remaining: int, ending: Ending)

  // A recorded run: the first and the last page its scraper is asked for (none when they cross), and
  // the page its checkpoint sends the following run to.
  datatype Run = Run(start: int, last: int, completed: bool, next: int)

  // The collector computes a number of pages, between 1 and 100, from the volume left today. The
  // scrapers read it as the number of the last page.
  function PagesFor(remaining: int): (n: int)
    ensures 1 <= n <= 100
    ensures n == 1 <==> remaining < 20
    ensures n == 100 <==> remaining >= 1980
    ensures 1 < n < 100 ==> 20 * (n - 1) <= remaining < 20 * n
  {
    var wanted := if remaining / 20 + 1 < 100 then remaining / 20 + 1 else 100;
    if wanted < 1 then 1 else wanted
  }

  // A run starts from the checkpoint copied from the previous one, and moves it only when it completes.
  function History(attempts: seq<Attempt>): seq<Run> {
    if attempts == [] then []
    else
      var runs, a := History(attempts[..|attempts| - 1]), attempts[|attempts| - 1];
      var start, pages := Checkpoint(runs), PagesFor(a.remaining);
      runs + [Run(start, pages, a.ending == Completed, if a.ending == Completed then start + pages else start)]
  }

  function Checkpoint(runs: seq<Run>): int {
    if runs == [] then 1 else runs[|runs| - 1].next
  }

  // The pages a run may visit.
  predicate Visits(r: Run, page: int) {
    r.start <= page <= r.last
  }

  // The last page that twenty listings a page and the limit of 100 pages give for a volume.
  ghost predicate LastPageFor(remaining: int, last: int) {
    || (last == 1 && remaining < 20)
    || (last == 100 && remaining >= 1980)
    || (1 < last < 100 && 20 * (last - 1) <= remaining < 20 * last)
  }

  /** A run starts where the checkpoint before it points, is asked up to the last page its volume gives, and
      moves the checkpoint by that many pages when it completes and not at all otherwise. */
  lemma RunIsAsked(attempts: seq<Attempt>)
    requires attempts != []
    ensures var n := |attempts| - 1;
      var before, runs := History(attempts[..n]), History(attempts);
      && |runs| == |attempts| && runs[..n] == before
      && runs[n].start == (if n == 0 then 1 else before[n - 1].next)
      && LastPageFor(attempts[n].remaining, runs[n].last)
      && (runs[n].completed <==> attempts[n].ending == Completed)
      && runs[n].next == runs[n].start + if attempts[n].ending == Completed then runs[n].last else 0
  {
    HistoryLength(attempts[..|attempts| - 1]);
  }

  /** Twenty listings left: pages 1 and 2, then page 3; a hundred left: up to page 6. */
  lemma TwentyListings()
    ensures History([Attempt(20, Completed)]) == [Run(1, 2, true, 3)]
    ensures History([Attempt(100, Completed)]) == [Run(1, 6, true, 7)]
  {
    assert [Attempt(20, Completed)][..0] == [] && [Attempt(100, Completed)][..0] == [];
  }

  // How many completed runs were asked for this page.
  function Asked(runs: seq<Run>, page: int): nat {
    if runs == [] then 0
    else
      var last := runs[|runs| - 1];
      Asked(runs[..|runs| - 1], page) + if last.completed && Visits(last, page) then 1 else 0
  }

  function CompletedRuns(runs: seq<Run>): nat {
    if runs == [] then 0
    else CompletedRuns(runs[..|runs| - 1]) + if runs[|runs| - 1].completed then 1 else 0
  }

  /** A completed run covers the pages its checkpoint skips if and only if it started from page 1: the
      scrapers take for a last page what the checkpoint counts as a number of pages. */
  lemma CoversItsClaimIff(attempts: seq<Attempt>)
    requires attempts != [] && attempts[|attempts| - 1].ending == Completed
    ensures var runs := History(attempts);
      var r := runs[|runs| - 1];
      (forall page :: Visits(r, page) <==> r.start <= page < r.next) <==> r.start == 1
  {
    var runs := History(attempts);
    var r := runs[|runs| - 1];
    NeverAskedTwice(attempts[..|attempts| - 1], 0);
    if r.start != 1 {
      assert !Visits(r, r.next - 1);
    }
  }

  /** Over successive runs of a sector the completed ones are never asked twice for a page, never for
      one at or after the checkpoint, and never for one beyond 100. */
  lemma {:induction false} NeverAskedTwice(attempts: seq<Attempt>, page: int)
    ensures Checkpoint(History(attempts)) >= 1
    ensures Asked(History(attempts), page) <= 1
    ensures Asked(History(attempts), page) == 1 ==> 1 <= page < Checkpoint(History(attempts)) && page <= 100
  {
    if attempts != [] {
      NeverAskedTwice(attempts[..|attempts| - 1], page);
      var runs := History(attempts[..|attempts| - 1]);
      assert History(attempts)[..|runs|] == runs;
    }
  }

  // Nothing but the first completed run moves the checkpoint off page 1.
  lemma {:induction false} MovedByCompleting(attempts: seq<Attempt>)
    ensures var runs := History(attempts); Checkpoint(runs) == 1 <==> CompletedRuns(runs) == 0
    ensures Checkpoint(History(attempts)) >= 1
  {
    if attempts != [] {
      MovedByCompleting(attempts[..|attempts| - 1]);
      var runs := History(attempts[..|attempts| - 1]);
      assert History(attempts)[..|runs|] == runs;
    }
  }

  // Every page before the checkpoint was asked of some completed run.
  ghost predicate NoGap(runs: seq<Run>) {
    forall page :: 1 <= page < Checkpoint(runs) ==> Asked(runs, page) == 1
  }

  /** Every page before the checkpoint was asked for if and only if at most one run has completed: from
      the second on, each completed run skips pages for good. */
  lemma {:induction false} NoGapIff(attempts: seq<Attempt>)
    ensures NoGap(History(attempts)) <==> CompletedRuns(History(attempts)) <= 1
  {
    if attempts != [] {
      var n := |attempts| - 1;
      var before, runs := History(attempts[..n]), History(attempts);
      HistoryLength(attempts[..n]);
      assert runs[..n] == before;
      NoGapIff(attempts[..n]);
      MovedByCompleting(attempts[..n]);
      if runs[n].completed {
        if CompletedRuns(before) == 0 {
          forall page | 1 <= page < Checkpoint(runs) ensures Asked(runs, page) == 1 {
            assert Visits(runs[n], page);
            NeverAskedTwice(attempts, page);
          }
        } else {
          NeverAskedTwice(attempts[..n], Checkpoint(runs) - 1);
          assert !Visits(runs[n], Checkpoint(runs) - 1);
          assert Asked(runs, Checkpoint(runs) - 1) == 0;
        }
      } else {
        assert forall page :: Asked(runs, page) == Asked(before, page);
      }
    }
  }

  /** Once the checkpoint has passed page 100 every later run, however much volume is left, is asked for
      no page at all, and the checkpoint never goes back. */
  lemma {:induction false} BlindAfterHundred(attempts: seq<Attempt>, n: nat, page: int)
    requires n < |attempts| && Checkpoint(History(attempts[..n])) > 100
    ensures |History(attempts)| == |attempts| && !Visits(History(attempts)[|attempts| - 1], page)
    ensures Checkpoint(History(attempts)) > 100
  {
    var front := attempts[..|attempts| - 1];
    if n < |front| {
      assert front[..n] == attempts[..n];
      BlindAfterHundred(front, n, page);
    } else {
      assert front == attempts[..n];
    }
    HistoryLength(front);
  }

  lemma {:induction false} HistoryLength(attempts: seq<Attempt>)
    ensures |History(attempts)| == |attempts|
  {
    if attempts != [] {
      HistoryLength(attempts[..|attempts| - 1]);
    }
  }

  /** Two completed runs with 50 listings left each: pages 1 to 3, then nothing, and pages 4 to 6 are
      skipped for ever. */
  lemma SecondRunVisitsNothing(page: int)
    ensures var a := Attempt(50, Completed);
      History([a, a]) == [Run(1, 3, true, 4), Run(4, 3, true, 7)] && !Visits(Run(4, 3, true, 7), page)
      && Asked(History([a, a]), 5) == 0
  {
    TwoRuns();
    var first, second := Run(1, 3, true, 4), Run(4, 3, true, 7);
    assert [first, second][..1] == [first] && [first][..0] == [];
    assert Asked([first], 5) == 0;
  }

  lemma TwoRuns()
    ensures var a := Attempt(50, Completed); History([a, a]) == [Run(1, 3, true, 4), Run(4, 3, true, 7)]
  {
    var a := Attempt(50, Completed);
    assert [a, a][..1] == [a] && [a][..0] == [];
    RunIsAsked([a]);
    RunIsAsked([a, a]);
    assert PagesFor(50) == 3;
    assert History([a]) == [Run(1, 3, true, 4)];
  }

  // ------------------------------------------------------------------ the run itself

  method ClaimFirstOf(table: LockTable, kind: Kind, ids: seq<nat>, owner: Owner, env: Environment, step: nat,
                      leases: seq<Resource>)
    returns (step': nat, leases': seq<Resource>)
    modifies table
    ensures Session(table.View(), step', leases') ==
      old(ClaimFirst(Session(table.View(), step, leases), kind, ids, owner, env))
  {
    step', leases' := step, leases;
    ghost var whole := ClaimFirst(Session(table.View(), step, leases), kind, ids, owner, env);
    var i := 0;
    while i < |ids|
      invariant 0 <= i <= |ids| && leases' == leases
      invariant whole == ClaimFirst(Session(table.View(), step', leases'), kind, ids[i..], owner, env)
    {
      table.Interleave(env.acts(step'));
      var ok := table.ClaimResource(Resource(kind, ids[i]), owner, env.lag(step'), TTL);
      step' := step' + 1;
      if ok {
        leases' := leases' + [Resource(kind, ids[i])];
        return;
      }
      i := i + 1;
    }
  }

  method Acquisition(table: LockTable, sector: Sector, owner: Owner, env: Environment)
    returns (step: nat, leases: seq<Resource>, failure: Option<Ending>)
    modifies table
    ensures (Session(table.View(), step, leases), failure) ==
      old(Acquire(Session(table.View(), 0, []), Needs(sector), owner, env))
  {
    step, leases, failure := 0, [], None;
    var needs := Needs(sector);
    ghost var whole := Acquire(Session(table.View(), 0, []), needs, owner, env);
    var k := 0;
    while k < |needs|
      invariant 0 <= k <= |needs| && failure == None
      invariant whole == Acquire(Session(table.View(), step, leases), needs[k..], owner, env)
    {
      var held := |leases|;
      step, leases := ClaimFirstOf(table, needs[k].0, needs[k].1, owner, env, step, leases);
      if |leases| == held {
        failure := Some(Missing(needs[k].0));
        return;
      }
      k := k + 1;
    }
  }

  /** The whole run. It releases what it leased on every path. */
  method CollectSector(table: LockTable, sector: Sector, owner: Owner, env: Environment, scraped: bool)
    returns (ending: Ending, leases: seq<Resource>)
    requires Inv(table.View()) && LocksOnly(table.View(), owner, []) && ForeignEnv(env, owner)
    modifies table
    ensures table.View() == old(Collect(table.View(), sector, owner, env, scraped)).0.world
    ensures ending == old(Collect(table.View(), sector, owner, env, scraped)).1
    ensures Inv(table.View()) && forall r :: r in table.locks ==> table.locks[r].owner != Some(owner)
  {
    NothingStaysLocked(table.View(), sector, owner, env, scraped);
    ghost var whole := Collect(table.View(), sector, owner, env, scraped);
    var step, failure;
    step, leases, failure := Acquisition(table, sector, owner, env);
    ending :=
      if failure.Some? then failure.value
      else if sector.source == Unknown then Unsupported
      else if scraped then Completed
      else ScrapeFailed;
    step := ReleaseLeases(table, leases, 0, owner, env, step);
    assert LocksOnly(table.View(), owner, []);
  }

  method ReleaseLeases(table: LockTable, leases: seq<Resource>, first: nat, owner: Owner, env: Environment, step: nat)
    returns (step': nat)
    modifies table
    ensures Session(table.View(), step', leases) ==
      old(ReleaseFrom(Session(table.View(), step, leases), first, owner, env))
  {
    ghost var whole := ReleaseFrom(Session(table.View(), step, leases), first, owner, env);
    step' := step;
    var i := first;
    while i < |leases|
      invariant whole == ReleaseFrom(Session(table.View(), step', leases), i, owner, env)
      decreases |leases| - i
    {
      table.Interleave(env.acts(step'));
      table.ReleaseResource(leases[i], owner);
      step' := step' + 1;
      i := i + 1;
    }
  }
}
