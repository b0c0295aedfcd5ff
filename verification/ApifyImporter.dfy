/** The importer in the form of the source: rows inserted and updated in place, counters in a loop,
    progress saved after every page. Proved against the functions of ApifyIngestion. */
module ApifyImporter {
  import opened Prelude
  import Sms = SmsSequence
  import Engine = SmsEngine
  import opened ApifyIngestion
  import opened ApifyImports

  class Importer {
    const messaging: Engine.MessagingStore
    var listings: seq<Listing>
    var items: seq<Item>
    var exceptions: nat
    // The run's saved counters; every progress point of the last import, and how much it had read.
    var progress: Progress
    ghost var points: seq<Progress>
    ghost var cuts: seq<nat>

    function Rows(): Store
      reads this, messaging
    {
      Store(messaging.Rows(), listings, items, exceptions)
    }

    constructor (messaging: Engine.MessagingStore)
      ensures this.messaging == messaging
      ensures Rows() == Store(messaging.Rows(), [], [], 0)
    {
      this.messaging := messaging;
      listings, items, exceptions, progress, points, cuts := [], [], 0, Progress(0, 0, 0, 0), [], [];
    }

    // Finds the listing of the entry's URL and fills its gaps, or creates it.
    method UpsertRow(ctx: Context, e: Entry) returns (id: Option<nat>)
      modifies this`listings
      ensures (listings, id) == UpsertListing(old(listings), ctx, e)
    {
      if !Truthy(e.lead.url) || !e.lead.knownPlatform {
        return None;
      }
      match FindListing(listings, e.lead.url.value) {
        case None =>
          listings := listings +
            [Listing(e.lead.url.value, e.hash, Some(ctx.campaign), ctx.sector, e.lead.title, e.lead.phone, None)];
          return Some(|listings| - 1);
        case Some(i) =>
          var row := listings[i];
          if row.campaign.None? { row := row.(campaign := Some(ctx.campaign)); }
          if row.sector.None? { row := row.(sector := ctx.sector); }
          if !Truthy(row.title) { row := row.(title := e.lead.title); }
          if !Truthy(row.phone) { row := row.(phone := e.lead.phone); }
          listings := listings[i := row];
          return Some(i);
      }
    }

    // Handles the freshly inserted item `id`; `ok` is false when an exception leaves the savepoint.
    method ProcessItem(ctx: Context, e: Entry, id: nat, now: Time) returns (o: Outcome, ok: bool)
      requires id == |items| - 1 && items[id] == NewItem(ctx, e, Pending)
      modifies this`listings, this`items, this`exceptions, messaging
      ensures |items| == old(|items|) && items[..id] == old(items)[..id]
      ensures var start := old(Rows()).(items := old(items)[..id]);
        var r := ProcessNew(start, ctx, e, now);
        if ok then Rows() == r.0 && o == r.1
        else r == (AddItem(start, NewItem(ctx, e, Ignored)), Outcome(IgnoredOutcome, false))
    {
      ghost var before := items[..id];
      if e.faulty {
        return Outcome(IgnoredOutcome, false), false;
      }
      if e.lead.status == AmbiguousLead {
        items := items[id := items[id].(status := InException)];
        exceptions := exceptions + 1;
        assert items == before + [NewItem(ctx, e, InException)];
        return Outcome(ExceptionOutcome, false), true;
      }
      if e.lead.status != Actionable || !Truthy(e.lead.phone) {
        items := items[id := items[id].(status := Ignored)];
        assert items == before + [NewItem(ctx, e, Ignored)];
        return Outcome(IgnoredOutcome, false), true;
      }
      var phone := e.lead.phone.value;
      var listing := UpsertRow(ctx, e);
      var result := messaging.EnsureContactSequence(Request(ctx, phone, listing, e.lead.context, now));
      if result.InvalidPhone? || result.CampaignNotRunning? {
        return Outcome(IgnoredOutcome, false), false;
      }
      var row := items[id].(status := Imported, phone := Some(phone), listing := listing);
      if result.ContactClosed? || result.Scheduled? {
        row := row.(contact := Some(result.contact));
        if listing.Some? {
          listings := listings[listing.value := listings[listing.value].(contact := Some(result.contact))];
        }
      }
      if result.Scheduled? {
        row := row.(sequence := Some(result.sequence));
      }
      items := items[id := row];
      assert items == before + [row];
      return Outcome(ActionableOutcome, result.Scheduled? && result.created), true;
    }

    // One transaction per dataset item: insert the row or replay the outcome of the row already there.
    method ImportItem(ctx: Context, e: Entry, now: Time) returns (o: Outcome)
      modifies this`listings, this`items, this`exceptions, messaging
      ensures (Rows(), o) == ImportOne(old(Rows()), ctx, e, now)
    {
      match FindItem(items, ctx, e) {
        case Some(i) =>
          return ReplayedOutcome(items[i]);
        case None =>
          var listings0, exceptions0 := listings, exceptions;
          var contacts0, sequences0, log0 := messaging.contacts, messaging.sequences, messaging.log;
          var id := |items|;
          items := items + [NewItem(ctx, e, Pending)];
          assert items[..id] == old(items);
          var ok;
          o, ok := ProcessItem(ctx, e, id, now);
          if !ok {
            listings, exceptions := listings0, exceptions0;
            messaging.contacts, messaging.sequences, messaging.log := contacts0, sequences0, log0;
            items := items[id := NewItem(ctx, e, Pending).(status := Ignored)];
            assert items == old(items) + [NewItem(ctx, e, Ignored)];
            o := Outcome(IgnoredOutcome, false);
          }
      }
    }

    method SaveProgress(c: Counters)
      modifies this`progress, this`points, this`cuts
      ensures progress == Saved(c) && points == old(points) + [Saved(c)] && cuts == old(cuts) + [c.read]
    {
      progress := Progress(c.read, c.actionable, c.read - c.actionable - c.exceptions, c.exceptions);
      points, cuts := points + [progress], cuts + [c.read];
    }

    method CountNext(ctx: Context, e: Entry, now: Time, c: Counters) returns (c': Counters)
      modifies this`listings, this`items, this`exceptions, messaging
      ensures Result(Rows(), c') == Next(Result(old(Rows()), c), ctx, e, now)
    {
      var outcome := ImportItem(ctx, e, now);
      c' := Counters(c.read + 1,
                     if outcome.status == ActionableOutcome then c.actionable + 1 else c.actionable,
                     if outcome.sequenceCreated then c.sequencesCreated + 1 else c.sequencesCreated,
                     if outcome.status == ExceptionOutcome then c.exceptions + 1 else c.exceptions);
    }

    // Imports the dataset entry by entry; no entry can stop the run.
    method ImportRun(ctx: Context, entries: seq<Entry>, clock: nat -> Time, pageSize: nat) returns (c: Counters)
      requires pageSize > 0
      modifies this, messaging
      ensures Result(Rows(), c) == Import(old(Rows()), ctx, entries, clock)
      ensures progress == Saved(c)
      ensures PointsOf(old(Rows()), ctx, entries, clock, pageSize, points, cuts)
      ensures cuts == PageEnds(|entries|, pageSize) + [|entries|]
    {
      ghost var before := Rows();
      c := ZERO;
      points, cuts := [], [];
      var i := 0;
      while i < |entries|
        invariant 0 <= i <= |entries|
        invariant Import(before, ctx, entries[..i], clock) == Result(Rows(), c)
        invariant c.read == i
        invariant PointsOf(before, ctx, entries, clock, pageSize, points, cuts)
        invariant cuts == PageEnds(i, pageSize)
      {
        c := CountNext(ctx, entries[i], clock(i), c);
        ImportPrefix(before, ctx, entries, clock, i);
        i := i + 1;
        if c.read % pageSize == 0 {
          AddPoint(before, ctx, entries, clock, pageSize, points, cuts, Saved(c), i);
          SaveProgress(c);
        }
      }
      assert entries[..|entries|] == entries;
      AddPoint(before, ctx, entries, clock, pageSize, points, cuts, Saved(c), i);
      SaveProgress(c);
    }
  }

  lemma ImportPrefix(st: Store, ctx: Context, entries: seq<Entry>, clock: nat -> Time, i: nat)
    requires i < |entries|
    ensures Import(st, ctx, entries[..i + 1], clock) ==
      Next(Import(st, ctx, entries[..i], clock), ctx, entries[i], clock(i))
    ensures Import(st, ctx, entries[..i + 1], clock).counters.read ==
      Import(st, ctx, entries[..i], clock).counters.read + 1
  {
    NextImport(st, ctx, entries[..i + 1], clock);
    assert entries[..i + 1][..i] == entries[..i];
  }

  // The page boundaries among the first n entries.
  function PageEnds(n: nat, pageSize: nat): seq<nat>
    requires pageSize > 0
  {
    if n == 0 then [] else PageEnds(n - 1, pageSize) + if n % pageSize == 0 then [n] else []
  }

  // A saved point holds the counters of the first k entries, at a page boundary or at the end.
  ghost predicate PointOf(st: Store, ctx: Context, entries: seq<Entry>, clock: nat -> Time, pageSize: nat,
                          p: Progress, k: nat)
    requires pageSize > 0
  {
    k <= |entries| && (k % pageSize == 0 || k == |entries|) && p == Saved(Import(st, ctx, entries[..k], clock).counters)
  }

  ghost predicate PointsOf(st: Store, ctx: Context, entries: seq<Entry>, clock: nat -> Time, pageSize: nat,
                           points: seq<Progress>, cuts: seq<nat>)
    requires pageSize > 0
  {
    && |points| == |cuts|
    && forall j :: 0 <= j < |points| ==> PointOf(st, ctx, entries, clock, pageSize, points[j], cuts[j])
  }

  lemma AddPoint(st: Store, ctx: Context, entries: seq<Entry>, clock: nat -> Time, pageSize: nat,
                 points: seq<Progress>, cuts: seq<nat>, p: Progress, k: nat)
    requires pageSize > 0 && PointsOf(st, ctx, entries, clock, pageSize, points, cuts)
    requires PointOf(st, ctx, entries, clock, pageSize, p, k)
    ensures PointsOf(st, ctx, entries, clock, pageSize, points + [p], cuts + [k])
  {
  }

  /** Conservation at every saved point: read = imported + ignored + in exception, and none is negative. */
  lemma SavedPointsAreConserved(st: Store, ctx: Context, entries: seq<Entry>, clock: nat -> Time, pageSize: nat,
                                points: seq<Progress>, cuts: seq<nat>, j: nat)
    requires pageSize > 0 && PointsOf(st, ctx, entries, clock, pageSize, points, cuts) && j < |points|
    ensures points[j].read == points[j].imported + points[j].ignored + points[j].inException
    ensures points[j].read == cuts[j] && points[j].ignored >= 0
  {
    var prefix := entries[..cuts[j]];
    var r := Import(st, ctx, prefix, clock);
    assert PointOf(st, ctx, entries, clock, pageSize, points[j], cuts[j]);
    CountersMatchItems(st, ctx, prefix, clock);
    ProgressIsConserved(r.store.items, ctx, prefix);
    assert Saved(r.counters) == Saved(r.counters.(sequencesCreated := 0));
  }
}
