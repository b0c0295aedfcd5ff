/** What becomes of a new dataset item, read off its lead: its status, the exception row, its links and
    its listing; and the counters of an import, read off the leads. */
module ApifyLeads {
  import opened Prelude
  import Sms = SmsSequence
  import Effects = SmsEffects
  import Runs = SmsSequenceRuns
  import opened ApifyIngestion
  import opened ApifyImports

  // ------------------------------------------------------------------ one new item

  predicate Ambiguous(e: Entry) {
    !e.faulty && e.lead.status == AmbiguousLead
  }

  // An actionable lead with a phone, which the campaign or the blacklist admits.
  predicate Admitted(ctx: Context, e: Entry) {
    && !e.faulty && e.lead.status == Actionable && e.lead.phone.Some? && e.lead.phone.value != ""
    && (ctx.campaignRunning || e.lead.phone.value in ctx.blacklist)
  }

  /** A new item adds one row: in exception, with one exception recorded, exactly when handling it does not
      raise and its phone is ambiguous; imported exactly when its lead is admitted; ignored in every other
      case. The outcome reports the same. */
  lemma NewItemIff(st: Store, ctx: Context, e: Entry, now: Time)
    requires FindItem(st.items, ctx, e).None?
    ensures var (st', o) := ImportOne(st, ctx, e, now);
      && |st'.items| == |st.items| + 1 && st'.items[..|st.items|] == st.items
      && SameItem(st'.items[|st.items|], ctx, e)
      && var status := st'.items[|st.items|].status;
      && (status == InException <==> Ambiguous(e))
      && (status == Imported <==> Admitted(ctx, e))
      && (status == Ignored <==> !Ambiguous(e) && !Admitted(ctx, e))
      && st'.exceptions == st.exceptions + (if Ambiguous(e) then 1 else 0)
      && (o.status == ExceptionOutcome <==> Ambiguous(e))
      && (o.status == ActionableOutcome <==> Admitted(ctx, e))
  {
    ProcessNewAddsRow(st, ctx, e, now);
    if e.lead.phone.Some? {
      ActionableAddsRow(st, ctx, e, e.lead.phone.value, now);
    }
  }

  /** An item that is not imported leaves contacts, sequences and listings as they were. */
  lemma OthersTouchNothing(st: Store, ctx: Context, e: Entry, now: Time)
    requires FindItem(st.items, ctx, e).None? && !Admitted(ctx, e)
    ensures var st' := ImportOne(st, ctx, e, now).0; st'.sms == st.sms && st'.listings == st.listings
  {
  }

  // ------------------------------------------------------------------ counters

  function CountAmbiguous(entries: seq<Entry>): nat {
    if entries == [] then 0
    else CountAmbiguous(entries[..|entries| - 1]) + if Ambiguous(entries[|entries| - 1]) then 1 else 0
  }

  function CountAdmitted(ctx: Context, entries: seq<Entry>): nat {
    if entries == [] then 0
    else CountAdmitted(ctx, entries[..|entries| - 1]) + if Admitted(ctx, entries[|entries| - 1]) then 1 else 0
  }

  // No two entries share position and hash.
  ghost predicate DistinctEntries(entries: seq<Entry>) {
    forall i, j :: 0 <= i < j < |entries| ==> entries[i].index != entries[j].index || entries[i].hash != entries[j].hash
  }

  ghost predicate AllNew(items: seq<Item>, ctx: Context, entries: seq<Entry>) {
    forall i :: 0 <= i < |entries| ==> FindItem(items, ctx, entries[i]).None?
  }

  lemma StillNew(items: seq<Item>, x: Item, ctx: Context, e: Entry, other: Entry)
    requires FindItem(items, ctx, other).None? && SameItem(x, ctx, e)
    requires e.index != other.index || e.hash != other.hash
    ensures FindItem(items + [x], ctx, other).None?
  {
    var more := items + [x];
    assert forall i :: 0 <= i < |items| ==> more[i] == items[i];
  }

  // An import leaves an entry it does not hold unknown.
  lemma {:induction false} ImportLeavesNew(st: Store, ctx: Context, entries: seq<Entry>, clock: nat -> Time,
                                           other: Entry)
    requires FindItem(st.items, ctx, other).None?
    requires forall i :: 0 <= i < |entries| ==> entries[i].index != other.index || entries[i].hash != other.hash
    ensures FindItem(Import(st, ctx, entries, clock).store.items, ctx, other).None?
  {
    if entries != [] {
      var n := |entries| - 1;
      ImportLeavesNew(st, ctx, entries[..n], clock, other);
      NextImport(st, ctx, entries, clock);
      var mid := Import(st, ctx, entries[..n], clock).store;
      if FindItem(mid.items, ctx, entries[n]).None? {
        NewItemIff(mid, ctx, entries[n], clock(n));
        var after := ImportOne(mid, ctx, entries[n], clock(n)).0.items;
        StillNew(mid.items, after[|mid.items|], ctx, entries[n], other);
        assert after == mid.items + [after[|mid.items|]];
      }
    }
  }

  /** Importing a dataset for the first time counts as exceptions exactly the ambiguous leads that do not
      raise, one exception row each, and as actionable exactly the admitted leads; every entry is read. */
  lemma {:induction false} CountersMatchLeads(st: Store, ctx: Context, entries: seq<Entry>, clock: nat -> Time)
    requires DistinctEntries(entries) && AllNew(st.items, ctx, entries)
    ensures var r := Import(st, ctx, entries, clock);
      && r.counters.read == |entries|
      && r.counters.exceptions == CountAmbiguous(entries)
      && r.counters.actionable == CountAdmitted(ctx, entries)
      && r.store.exceptions == st.exceptions + CountAmbiguous(entries)
  {
    if entries != [] {
      var n := |entries| - 1;
      assert forall i :: 0 <= i < n ==> entries[..n][i] == entries[i];
      CountersMatchLeads(st, ctx, entries[..n], clock);
      ImportLeavesNew(st, ctx, entries[..n], clock, entries[n]);
      NextImport(st, ctx, entries, clock);
      NewItemIff(Import(st, ctx, entries[..n], clock).store, ctx, entries[n], clock(n));
    }
  }

  // ------------------------------------------------------------------ listings

  // A value kept when there is one, and taken from the lead otherwise.
  ghost predicate Filled(was: Option<string>, offered: Option<string>, now: Option<string>) {
    if was.Some? && was.value != "" then now == was else now == offered
  }

  /** The listing of a lead: none without a URL or on an unknown platform; the known one with that URL, its
      campaign, sector, title and phone filled where they were missing; or else a new one that holds what
      the lead and the campaign offer. Other listings stay as they are. */
  lemma UpsertIff(listings: seq<Listing>, ctx: Context, e: Entry)
    ensures var (after, id) := UpsertListing(listings, ctx, e);
      var url := e.lead.url;
      && (id == None <==> url.None? || url.value == "" || !e.lead.knownPlatform)
      && (id == None ==> after == listings)
      && (id.Some? ==>
            && id.value < |after| && after[id.value].url == url.value
            && (forall i :: 0 <= i < |listings| && i != id.value ==> i < |after| && after[i] == listings[i])
            && (id.value < |listings| <==> exists i :: 0 <= i < |listings| && listings[i].url == url.value)
            && (if id.value < |listings| then
                  var was, row := listings[id.value], after[id.value];
                  && |after| == |listings| && row.source == was.source && row.contact == was.contact
                  && row.campaign == (if was.campaign.Some? then was.campaign else Some(ctx.campaign))
                  && row.sector == (if was.sector.Some? then was.sector else ctx.sector)
                  && Filled(was.title, e.lead.title, row.title) && Filled(was.phone, e.lead.phone, row.phone)
                else
                  after == listings + [Listing(url.value, e.hash, Some(ctx.campaign), ctx.sector,
                                               e.lead.title, e.lead.phone, None)]))
  {
  }

  // ------------------------------------------------------------------ links

  /** An imported item holds its phone and the listing of its lead; when its contact is known and open it is
      linked to that contact and to the contact's sequence in the campaign, whose context now holds what
      the lead offers, and its listing is linked to the contact too. */
  lemma ImportedItemIsLinked(st: Store, ctx: Context, e: Entry, now: Time)
    requires Runs.Inv(st.sms) && FindItem(st.items, ctx, e).None? && Admitted(ctx, e)
    ensures var st' := ImportOne(st, ctx, e, now).0;
      var row, phone := st'.items[|st.items|], e.lead.phone.value;
      && |st'.items| == |st.items| + 1
      && row.phone == Some(phone) && row.listing == UpsertListing(st.listings, ctx, e).1
      && (phone in ctx.blacklist ==> row.contact == None && row.sequence == None && st'.sms == st.sms)
      && (row.contact.Some? ==>
            && row.contact.value < |st'.sms.contacts| && st'.sms.contacts[row.contact.value].phone == phone
            && (row.listing.Some? ==>
                  row.listing.value < |st'.listings| && st'.listings[row.listing.value].contact == row.contact))
      && (phone !in ctx.blacklist ==> row.contact.Some?)
      && (row.sequence.Some? <==>
            row.contact.Some? && row.contact.value < |st'.sms.contacts|
            && st'.sms.contacts[row.contact.value].status == Sms.ContactActive)
      && (row.sequence.Some? ==>
            && row.sequence.value < |st'.sms.sequences|
            && var s := st'.sms.sequences[row.sequence.value];
               Some(s.contact) == row.contact && s.campaign == ctx.campaign
               && forall k :: k in e.lead.context ==> k in s.context && s.context[k] == e.lead.context[k])
  {
    var phone := e.lead.phone.value;
    var (listings, listing) := UpsertListing(st.listings, ctx, e);
    var q := Request(ctx, phone, listing, e.lead.context, now);
    Effects.EnsureRefusesIff(st.sms, q);
    var r := Sms.EnsureSequence(st.sms, q).1;
    if r.Scheduled? {
      ScheduledIsActive(st.sms, q);
      Effects.EnsureSchedules(st.sms, q);
    }
  }

  lemma ScheduledIsActive(db: Sms.Db, q: Sms.EnsureRequest)
    requires Runs.Inv(db) && Sms.EnsureSequence(db, q).1.Scheduled?
    ensures var (db', r) := Sms.EnsureSequence(db, q);
      r.contact < |db'.contacts| && db'.contacts[r.contact].status == Sms.ContactActive
  {
  }
}
