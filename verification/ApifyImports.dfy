/** What importing keeps: replays change nothing, interrupted imports converge to the uninterrupted
    one, counters agree with the item table, links are sound and closed contacts stay closed. */
module ApifyImports {
  import opened Prelude
  import Sms = SmsSequence
  import Runs = SmsSequenceRuns
  import opened ApifyIngestion

  // ----------------------------------------------------------- the item table

  lemma {:induction false} FindItemStable(items: seq<Item>, items': seq<Item>, ctx: Context, e: Entry)
    requires items <= items' && FindItem(items, ctx, e).Some?
    ensures FindItem(items', ctx, e) == FindItem(items, ctx, e)
  {
    if |items| < |items'| {
      FindItemStable(items, items'[..|items'| - 1], ctx, e);
    } else {
      assert items == items';
    }
  }

  lemma FindItemNew(items: seq<Item>, x: Item, ctx: Context, e: Entry)
    requires FindItem(items, ctx, e).None? && SameItem(x, ctx, e)
    ensures FindItem(items + [x], ctx, e) == Some(|items|)
  {
    assert (items + [x])[..|items|] == items;
  }

  // One new row, whose status replays the outcome; one new sequence exactly when one is reported.
  ghost predicate AddsRow(st: Store, ctx: Context, e: Entry, st': Store, o: Outcome) {
    && |st'.items| == |st.items| + 1
    && st'.items == st.items + [st'.items[|st.items|]]
    && SameItem(st'.items[|st.items|], ctx, e)
    && st'.items[|st.items|].status != Pending
    && ReplayedOutcome(st'.items[|st.items|]) == o.(sequenceCreated := false)
    && |st'.sms.sequences| == |st.sms.sequences| + if o.sequenceCreated then 1 else 0
  }

  lemma ActionableAddsRow(st: Store, ctx: Context, e: Entry, phone: string, now: Time)
    ensures var (st', o) := ImportActionable(st, ctx, e, phone, now);
      && AddsRow(st, ctx, e, st', o)
      && (st'.items[|st.items|].status == Imported <==> ctx.campaignRunning || phone in ctx.blacklist)
  {
    var listing := UpsertListing(st.listings, ctx, e).1;
    var result := Sms.EnsureSequence(st.sms, Request(ctx, phone, listing, e.lead.context, now)).1;
    assert result.CampaignNotRunning? <==> phone !in ctx.blacklist && !ctx.campaignRunning;
  }

  lemma ProcessNewAddsRow(st: Store, ctx: Context, e: Entry, now: Time)
    ensures var (st', o) := ProcessNew(st, ctx, e, now);
      && AddsRow(st, ctx, e, st', o)
      && (st'.items[|st.items|].status == Imported <==>
            && !e.faulty && e.lead.status == Actionable && Truthy(e.lead.phone)
            && (ctx.campaignRunning || e.lead.phone.value in ctx.blacklist))
  {
    if Truthy(e.lead.phone) {
      ActionableAddsRow(st, ctx, e, e.lead.phone.value, now);
    }
  }

  // Importing an entry leaves a row that replays the same outcome, and keeps all earlier rows.
  lemma ImportOneRecords(st: Store, ctx: Context, e: Entry, now: Time)
    ensures var (st', o) := ImportOne(st, ctx, e, now);
      && st.items <= st'.items
      && FindItem(st'.items, ctx, e).Some?
      && ReplayedOutcome(st'.items[FindItem(st'.items, ctx, e).value]) == o.(sequenceCreated := false)
      && |st'.sms.sequences| == |st.sms.sequences| + if o.sequenceCreated then 1 else 0
  {
    if FindItem(st.items, ctx, e).None? {
      ProcessNewAddsRow(st, ctx, e, now);
      FindItemNew(st.items, ProcessNew(st, ctx, e, now).0.items[|st.items|], ctx, e);
    }
  }

  // Every entry of a list has its row.
  ghost predicate Recorded(items: seq<Item>, ctx: Context, entries: seq<Entry>) {
    forall i :: 0 <= i < |entries| ==> FindItem(items, ctx, entries[i]).Some?
  }

  // The outcome counters read off the item table.
  function Tally(items: seq<Item>, ctx: Context, entries: seq<Entry>): Counters {
    if entries == [] then ZERO
    else
      var n := |entries| - 1;
      var found := FindItem(items, ctx, entries[n]);
      Count(Tally(items, ctx, entries[..n]),
            if found.Some? then ReplayedOutcome(items[found.value]) else Outcome(IgnoredOutcome, false))
  }

  lemma {:induction false} TallyStable(items: seq<Item>, items': seq<Item>, ctx: Context, entries: seq<Entry>)
    requires items <= items' && Recorded(items, ctx, entries)
    ensures Recorded(items', ctx, entries) && Tally(items', ctx, entries) == Tally(items, ctx, entries)
  {
    forall i | 0 <= i < |entries| ensures FindItem(items', ctx, entries[i]) == FindItem(items, ctx, entries[i]) {
      FindItemStable(items, items', ctx, entries[i]);
    }
    if entries != [] {
      TallyStable(items, items', ctx, entries[..|entries| - 1]);
    }
  }

  /** Conservation against the table: after an import the counters are exactly those read off the
      item rows of its entries, so read = imported + ignored + in exception. */
  lemma {:induction false} CountersMatchItems(st: Store, ctx: Context, entries: seq<Entry>, clock: nat -> Time)
    ensures var r := Import(st, ctx, entries, clock);
      && st.items <= r.store.items && Recorded(r.store.items, ctx, entries)
      && r.counters.(sequencesCreated := 0) == Tally(r.store.items, ctx, entries)
  {
    if entries != [] {
      var n := |entries| - 1;
      CountersMatchItems(st, ctx, entries[..n], clock);
      var r := Import(st, ctx, entries[..n], clock);
      var (st', o) := ImportOne(r.store, ctx, entries[n], clock(n));
      ImportOneRecords(r.store, ctx, entries[n], clock(n));
      TallyStable(r.store.items, st'.items, ctx, entries[..n]);
      RecordedNext(st'.items, ctx, entries);
    }
  }

  lemma RecordedNext(items: seq<Item>, ctx: Context, entries: seq<Entry>)
    requires entries != [] && Recorded(items, ctx, entries[..|entries| - 1])
    requires FindItem(items, ctx, entries[|entries| - 1]).Some?
    ensures Recorded(items, ctx, entries)
  {
    forall i | 0 <= i < |entries| - 1 ensures FindItem(items, ctx, entries[i]).Some? {
      assert entries[..|entries| - 1][i] == entries[i];
    }
  }

  // How many entries have an ignored row.
  function IgnoredRows(items: seq<Item>, ctx: Context, entries: seq<Entry>): nat {
    if entries == [] then 0
    else
      var n := |entries| - 1;
      var found := FindItem(items, ctx, entries[n]);
      IgnoredRows(items, ctx, entries[..n])
      + if found.Some? && ReplayedOutcome(items[found.value]).status == IgnoredOutcome then 1 else 0
  }

  /** Every saved progress point splits the entries read into imported, ignored and in exception, and
      its ignored figure, which the source computes by subtraction, is the number of ignored rows. */
  lemma {:induction false} ProgressIsConserved(items: seq<Item>, ctx: Context, entries: seq<Entry>)
    requires Recorded(items, ctx, entries)
    ensures var p := Saved(Tally(items, ctx, entries));
      p.read == |entries| && p.ignored == IgnoredRows(items, ctx, entries)
        && p.read == p.imported + p.ignored + p.inException
  {
    if entries != [] {
      var n := |entries| - 1;
      ProgressIsConserved(items, ctx, entries[..n]);
      var found := FindItem(items, ctx, entries[n]);
      var x := items[found.value];
      var before := Tally(items, ctx, entries[..n]);
      assert Tally(items, ctx, entries) == Count(before, ReplayedOutcome(x));
      match x.status
      case Imported => assert Count(before, ReplayedOutcome(x)).actionable == before.actionable + 1;
      case Ignored => assert Count(before, ReplayedOutcome(x)).actionable == before.actionable;
      case Pending => assert Count(before, ReplayedOutcome(x)).actionable == before.actionable;
      case InException => assert Count(before, ReplayedOutcome(x)).exceptions == before.exceptions + 1;
    }
  }

  // ----------------------------------------------------------- replay and resume

  lemma {:induction false} RecordedIsNoop(st: Store, ctx: Context, entries: seq<Entry>, clock: nat -> Time)
    requires Recorded(st.items, ctx, entries)
    ensures Import(st, ctx, entries, clock) == Result(st, Tally(st.items, ctx, entries))
  {
    if entries != [] {
      var n := |entries| - 1;
      RecordedIsNoop(st, ctx, entries[..n], clock);
      assert FindItem(st.items, ctx, entries[n]).Some?;
    }
  }

  /** A full replay changes no table and returns the same read, actionable and exception counters,
      with no sequence created; this holds whatever the clock, the blacklist and the campaign's
      status have become. */
  lemma ReplayIsNoop(st: Store, ctx: Context, entries: seq<Entry>, clock: nat -> Time, later: Context,
                     clock': nat -> Time)
    requires later.account == ctx.account && later.run == ctx.run
    ensures var r := Import(st, ctx, entries, clock);
      Import(r.store, later, entries, clock') == Result(r.store, r.counters.(sequencesCreated := 0))
  {
    var r := Import(st, ctx, entries, clock);
    CountersMatchItems(st, ctx, entries, clock);
    SameRunSameRows(r.store.items, ctx, later, entries);
    RecordedIsNoop(r.store, later, entries, clock');
  }

  lemma {:induction false} FindItemSameRun(items: seq<Item>, ctx: Context, ctx': Context, e: Entry)
    requires ctx'.account == ctx.account && ctx'.run == ctx.run
    ensures FindItem(items, ctx', e) == FindItem(items, ctx, e)
  {
    if items != [] {
      FindItemSameRun(items[..|items| - 1], ctx, ctx', e);
    }
  }

  lemma {:induction false} SameRunSameRows(items: seq<Item>, ctx: Context, ctx': Context, entries: seq<Entry>)
    requires ctx'.account == ctx.account && ctx'.run == ctx.run && Recorded(items, ctx, entries)
    ensures Recorded(items, ctx', entries) && Tally(items, ctx', entries) == Tally(items, ctx, entries)
  {
    forall i | 0 <= i < |entries| ensures FindItem(items, ctx', entries[i]) == FindItem(items, ctx, entries[i]) {
      FindItemSameRun(items, ctx, ctx', entries[i]);
    }
    if entries != [] {
      SameRunSameRows(items, ctx, ctx', entries[..|entries| - 1]);
    }
  }

  // A store without its timestamps.
  function Timeless(s: Sms.Sequence): Sms.Sequence {
    s.(due := None, created := 0)
  }

  function EraseSms(db: Sms.Db): Sms.Db {
    db.(sequences := seq(|db.sequences|, i requires 0 <= i < |db.sequences| => Timeless(db.sequences[i])))
  }

  function Erase(st: Store): Store {
    st.(sms := EraseSms(st.sms))
  }

  lemma {:induction false} FindSequenceErased(s: seq<Sms.Sequence>, s': seq<Sms.Sequence>, contact: nat, campaign: nat)
    requires |s| == |s'| && forall i :: 0 <= i < |s| ==>
      s'[i].contact == s[i].contact && s'[i].campaign == s[i].campaign
    ensures Sms.FindSequence(s', contact, campaign) == Sms.FindSequence(s, contact, campaign)
  {
    if s != [] {
      FindSequenceErased(s[..|s| - 1], s'[..|s| - 1], contact, campaign);
    }
  }

  lemma EnsureErased(db: Sms.Db, db': Sms.Db, q: Sms.EnsureRequest, q': Sms.EnsureRequest)
    requires EraseSms(db) == EraseSms(db') && q' == q.(created := q'.created, now := q'.now)
    ensures EraseSms(Sms.EnsureSequence(db', q').0) == EraseSms(Sms.EnsureSequence(db, q).0)
    ensures Sms.EnsureSequence(db', q').1 == Sms.EnsureSequence(db, q).1
  {
    var e, e' := EraseSms(db), EraseSms(db');
    assert |db.sequences| == |e.sequences| == |db'.sequences|;
    assert db.contacts == e.contacts == db'.contacts && db.log == e.log == db'.log;
    forall i | 0 <= i < |db.sequences| ensures Timeless(db.sequences[i]) == Timeless(db'.sequences[i]) {
      assert e.sequences[i] == e'.sequences[i];
    }
    if q.phone.Some? {
      var c := Sms.EnsureContact(db, q.phone.value).1;
      FindSequenceErased(db.sequences, db'.sequences, c, q.campaign);
      var r, r' := EraseSms(Sms.EnsureSequence(db, q).0), EraseSms(Sms.EnsureSequence(db', q').0);
      assert |r.sequences| == |r'.sequences|;
      forall i | 0 <= i < |r.sequences| ensures r.sequences[i] == r'.sequences[i] {
        if i < |db.sequences| {
          assert Timeless(db.sequences[i]) == Timeless(db'.sequences[i]);
        }
      }
      assert r.sequences == r'.sequences;
    }
  }

  lemma ImportOneErased(st: Store, st': Store, ctx: Context, e: Entry, now: Time, now': Time)
    requires Erase(st) == Erase(st')
    ensures Erase(ImportOne(st, ctx, e, now).0) == Erase(ImportOne(st', ctx, e, now').0)
    ensures ImportOne(st, ctx, e, now).1 == ImportOne(st', ctx, e, now').1
  {
    assert st.items == st'.items && st.listings == st'.listings && st.exceptions == st'.exceptions by {
      assert st.items == Erase(st).items && st.listings == Erase(st).listings && st.exceptions == Erase(st).exceptions;
    }
    assert EraseSms(st.sms) == EraseSms(st'.sms) by {
      assert Erase(st).sms == Erase(st').sms;
    }
    if FindItem(st.items, ctx, e).None? && Truthy(e.lead.phone) {
      var listing := UpsertListing(st.listings, ctx, e).1;
      var phone := e.lead.phone.value;
      EnsureErased(st.sms, st'.sms, Request(ctx, phone, listing, e.lead.context, now),
                   Request(ctx, phone, listing, e.lead.context, now'));
    }
  }

  // Timestamps aside, the clock does not matter.
  lemma {:induction false} ImportErased(st: Store, st': Store, ctx: Context, entries: seq<Entry>, clock: nat -> Time,
                                        clock': nat -> Time)
    requires Erase(st) == Erase(st')
    ensures Erase(Import(st, ctx, entries, clock).store) == Erase(Import(st', ctx, entries, clock').store)
    ensures Import(st, ctx, entries, clock).counters == Import(st', ctx, entries, clock').counters
  {
    if entries != [] {
      var n := |entries| - 1;
      ImportErased(st, st', ctx, entries[..n], clock, clock');
      ImportOneErased(Import(st, ctx, entries[..n], clock).store, Import(st', ctx, entries[..n], clock').store,
                      ctx, entries[n], clock(n), clock'(n));
    }
  }

  function Epoch(i: nat): Time { 0 }

  lemma {:induction false} ImportConcat(st: Store, ctx: Context, a: seq<Entry>, b: seq<Entry>)
    ensures Import(st, ctx, a + b, Epoch).store == Import(Import(st, ctx, a, Epoch).store, ctx, b, Epoch).store
  {
    if b == [] {
      assert a + b == a;
    } else {
      var n := |b| - 1;
      assert (a + b)[..|a + b| - 1] == a + b[..n];
      ImportConcat(st, ctx, a, b[..n]);
    }
  }

  // An import cut after k entries and then made in full, on one clock.
  lemma ResumeOnce(st: Store, ctx: Context, entries: seq<Entry>, k: nat)
    requires k <= |entries|
    ensures Import(Import(st, ctx, entries[..k], Epoch).store, ctx, entries, Epoch).store ==
      Import(st, ctx, entries, Epoch).store
  {
    var a, b := entries[..k], entries[k..];
    assert a + b == entries;
    var mid := Import(st, ctx, a, Epoch).store;
    ImportConcat(st, ctx, a, b);
    ImportConcat(mid, ctx, a, b);
    CountersMatchItems(st, ctx, a, Epoch);
    RecordedIsNoop(mid, ctx, a, Epoch);
  }

  // An attempt that stopped after its first `cut` entries.
  datatype Attempt = Attempt(cut: nat, clock: nat -> Time)

  ghost function AfterAttempts(st: Store, ctx: Context, entries: seq<Entry>, attempts: seq<Attempt>): Store
    requires forall i :: 0 <= i < |attempts| ==> attempts[i].cut <= |entries|
  {
    if attempts == [] then st
    else
      var n := |attempts| - 1;
      var last := attempts[n];
      Import(AfterAttempts(st, ctx, entries, attempts[..n]), ctx, entries[..last.cut], last.clock).store
  }

  /** Crash and resume: after any number of attempts, each interrupted anywhere, a full import leaves
      the same items, contacts, listings, sequences and exceptions as one uninterrupted import
      (timestamps aside), and returns the same read, actionable and exception counters. */
  lemma {:induction false} CrashResume(st: Store, ctx: Context, entries: seq<Entry>, attempts: seq<Attempt>,
                                       clock: nat -> Time, clock': nat -> Time)
    requires forall i :: 0 <= i < |attempts| ==> attempts[i].cut <= |entries|
    ensures var resumed := Import(AfterAttempts(st, ctx, entries, attempts), ctx, entries, clock);
      var straight := Import(st, ctx, entries, clock');
      && Erase(resumed.store) == Erase(straight.store)
      && resumed.counters.(sequencesCreated := 0) == straight.counters.(sequencesCreated := 0)
  {
    var start := AfterAttempts(st, ctx, entries, attempts);
    var resumed, straight := Import(start, ctx, entries, clock), Import(st, ctx, entries, clock');
    if attempts == [] {
      ImportErased(st, st, ctx, entries, clock, clock');
    } else {
      var n := |attempts| - 1;
      var before := AfterAttempts(st, ctx, entries, attempts[..n]);
      var k := attempts[n].cut;
      CrashResume(st, ctx, entries, attempts[..n], Epoch, clock');
      ImportErased(before, before, ctx, entries[..k], attempts[n].clock, Epoch);
      ImportErased(start, Import(before, ctx, entries[..k], Epoch).store, ctx, entries, clock, Epoch);
      ResumeOnce(before, ctx, entries, k);
    }
    CountersMatchItems(start, ctx, entries, clock);
    CountersMatchItems(st, ctx, entries, clock');
    assert resumed.store.items == Erase(resumed.store).items == Erase(straight.store).items == straight.store.items;
  }

  // -------------------------------------------------------------- growth and links

  lemma NextImport(st: Store, ctx: Context, entries: seq<Entry>, clock: nat -> Time)
    requires entries != []
    ensures var n := |entries| - 1;
      Import(st, ctx, entries, clock) == Next(Import(st, ctx, entries[..n], clock), ctx, entries[n], clock(n))
  {
  }

  /** The sequence table grows by exactly the number of sequences reported as created. */
  lemma {:induction false} GrowsByCreated(st: Store, ctx: Context, entries: seq<Entry>, clock: nat -> Time)
    ensures var r := Import(st, ctx, entries, clock);
      |r.store.sms.sequences| == |st.sms.sequences| + r.counters.sequencesCreated
  {
    if entries != [] {
      var n := |entries| - 1;
      GrowsByCreated(st, ctx, entries[..n], clock);
      ImportOneRecords(Import(st, ctx, entries[..n], clock).store, ctx, entries[n], clock(n));
      NextImport(st, ctx, entries, clock);
    }
  }

  function InExceptionRows(items: seq<Item>): nat {
    if items == [] then 0
    else InExceptionRows(items[..|items| - 1]) + if items[|items| - 1].status == InException then 1 else 0
  }

  // An item linked to a sequence carries that sequence's contact and that contact's phone.
  ghost predicate ItemLinked(st: Store, x: Item) {
    && (x.sequence.Some? ==>
          && x.sequence.value < |st.sms.sequences|
          && x.contact == Some(st.sms.sequences[x.sequence.value].contact))
    && (x.contact.Some? ==>
          && x.contact.value < |st.sms.contacts|
          && x.phone == Some(st.sms.contacts[x.contact.value].phone))
    && (x.listing.Some? ==> x.listing.value < |st.listings|)
    && x.status != Pending
    && (x.status != Imported ==> x.contact.None? && x.sequence.None? && x.listing.None?)
  }

  ghost predicate ListingsUnique(listings: seq<Listing>) {
    forall i, j :: 0 <= i < j < |listings| ==> listings[i].url != listings[j].url
  }

  ghost predicate ItemsUnique(items: seq<Item>) {
    forall i, j :: 0 <= i < j < |items| ==>
      !(items[i].account == items[j].account && items[i].run == items[j].run
        && items[i].index == items[j].index && items[i].hash == items[j].hash)
  }

  ghost predicate Consistent(st: Store) {
    && Runs.Inv(st.sms)
    && (forall i :: 0 <= i < |st.items| ==> ItemLinked(st, st.items[i]))
    && ListingsUnique(st.listings)
    && ItemsUnique(st.items)
    && st.exceptions == InExceptionRows(st.items)
  }

  // The contacts and sequences a store knows keep their identity in another.
  ghost predicate Carries(db: Sms.Db, db': Sms.Db) {
    && |db.contacts| <= |db'.contacts| && |db.sequences| <= |db'.sequences|
    && (forall c :: 0 <= c < |db.contacts| ==> db'.contacts[c].phone == db.contacts[c].phone)
    && (forall i :: 0 <= i < |db.sequences| ==> db'.sequences[i].contact == db.sequences[i].contact)
  }

  lemma AddRowKeepsConsistent(st: Store, st': Store, x: Item)
    requires Consistent(st) && Runs.Inv(st'.sms) && Carries(st.sms, st'.sms)
    requires |st.listings| <= |st'.listings| && ListingsUnique(st'.listings)
    requires st'.items == st.items + [x] && ItemLinked(st', x)
    requires forall i :: 0 <= i < |st.items| ==>
      !(st.items[i].account == x.account && st.items[i].run == x.run && st.items[i].index == x.index
        && st.items[i].hash == x.hash)
    requires st'.exceptions == st.exceptions + if x.status == InException then 1 else 0
    ensures Consistent(st')
  {
    forall i | 0 <= i < |st'.items| ensures ItemLinked(st', st'.items[i]) {
      if i < |st.items| {
        assert ItemLinked(st, st.items[i]);
      }
    }
    assert st'.items[..|st.items|] == st.items;
  }

  lemma EnsureCarries(db: Sms.Db, q: Sms.EnsureRequest)
    requires Runs.Inv(db)
    ensures Runs.Inv(Sms.EnsureSequence(db, q).0) && Carries(db, Sms.EnsureSequence(db, q).0)
    ensures var (db', r) := Sms.EnsureSequence(db, q);
      && (r.ContactClosed? ==> r.contact < |db'.contacts| && Some(db'.contacts[r.contact].phone) == q.phone)
      && (r.Scheduled? ==>
            && r.contact < |db'.contacts| && Some(db'.contacts[r.contact].phone) == q.phone
            && r.sequence < |db'.sequences| && db'.sequences[r.sequence].contact == r.contact)
  {
    Runs.EnsureKeepsInv(db, q);
  }

  lemma UpsertKeepsUnique(st: Store, ctx: Context, e: Entry, contact: nat)
    requires ListingsUnique(st.listings)
    ensures var (listings, listing) := UpsertListing(st.listings, ctx, e);
      && |st.listings| <= |listings| && ListingsUnique(listings)
      && ListingsUnique(LinkContact(listings, listing, contact))
  {
  }

  lemma ImportActionableKeepsConsistent(st: Store, ctx: Context, e: Entry, phone: string, now: Time)
    requires Consistent(st) && FindItem(st.items, ctx, e).None?
    ensures Consistent(ImportActionable(st, ctx, e, phone, now).0)
  {
    var (listings, listing) := UpsertListing(st.listings, ctx, e);
    var q := Request(ctx, phone, listing, e.lead.context, now);
    var (sms, result) := Sms.EnsureSequence(st.sms, q);
    EnsureCarries(st.sms, q);
    var st' := ImportActionable(st, ctx, e, phone, now).0;
    UpsertKeepsUnique(st, ctx, e, if result.ContactClosed? || result.Scheduled? then result.contact else 0);
    forall i | 0 <= i < |st.items| ensures !SameItem(st.items[i], ctx, e) {}
    AddRowKeepsConsistent(st, st', st'.items[|st.items|]);
  }

  /** Every import keeps the tables consistent: one contact per phone, one sequence per contact and
      campaign, one listing per URL, one row per dataset position and payload, sound links from items
      to sequences, contacts and phones, and one exception per item in exception. */
  lemma {:induction false} ImportKeepsConsistent(st: Store, ctx: Context, entries: seq<Entry>, clock: nat -> Time)
    requires Consistent(st)
    ensures Consistent(Import(st, ctx, entries, clock).store)
  {
    if entries != [] {
      var n := |entries| - 1;
      ImportKeepsConsistent(st, ctx, entries[..n], clock);
      var mid, e := Import(st, ctx, entries[..n], clock).store, entries[n];
      if FindItem(mid.items, ctx, e).None? {
        forall i | 0 <= i < |mid.items| ensures !SameItem(mid.items[i], ctx, e) {}
        var st' := ProcessNew(mid, ctx, e, clock(n)).0;
        if !e.faulty && e.lead.status == Actionable && Truthy(e.lead.phone) {
          ImportActionableKeepsConsistent(mid, ctx, e, e.lead.phone.value, clock(n));
        } else {
          AddRowKeepsConsistent(mid, st', st'.items[|mid.items|]);
        }
      }
    }
  }

  // Whatever the engine does between two imports, the links stay sound.
  lemma EngineKeepsConsistent(st: Store, wire: seq<Sms.Send>, e: Sms.Event)
    requires Consistent(st) && Sms.ValidEvent(st.sms, e)
    ensures Consistent(st.(sms := Sms.Step(Sms.State(st.sms, wire), e).db))
  {
    Runs.StepKeepsInv(Sms.State(st.sms, wire), e);
    var st' := st.(sms := Sms.Step(Sms.State(st.sms, wire), e).db);
    forall i | 0 <= i < |st.sms.sequences| ensures st'.sms.sequences[i].contact == st.sms.sequences[i].contact {
      assert Runs.Evolves(st.sms.sequences[i], st'.sms.sequences[i]);
    }
    forall i | 0 <= i < |st'.items| ensures ItemLinked(st', st'.items[i]) {
      assert ItemLinked(st, st.items[i]);
    }
  }

  // ----------------------------------------------------- imports as engine events

  // What an import asks of the engine for one entry.
  function EntryRequest(st: Store, ctx: Context, e: Entry, now: Time): Sms.EnsureRequest
    requires e.lead.phone.Some?
  {
    Request(ctx, e.lead.phone.value, UpsertListing(st.listings, ctx, e).1, e.lead.context, now)
  }

  lemma ImportOneIsEnsure(st: Store, ctx: Context, e: Entry, now: Time)
    ensures var after := ImportOne(st, ctx, e, now).0.sms;
      after == st.sms || (e.lead.phone.Some? && after == Sms.EnsureSequence(st.sms, EntryRequest(st, ctx, e, now)).0)
  {
  }

  /** For the follow-up engine an import is a run of sequence creations, and hands nothing to the provider. */
  lemma {:induction false} ImportIsRun(st: Store, ctx: Context, entries: seq<Entry>, clock: nat -> Time,
                                       wire: seq<Sms.Send>)
    returns (trace: seq<Sms.State>, events: seq<Sms.Event>)
    ensures Sms.IsRun(trace, events)
    ensures trace[0] == Sms.State(st.sms, wire)
    ensures trace[|events|] == Sms.State(Import(st, ctx, entries, clock).store.sms, wire)
    ensures forall i :: 0 <= i < |events| ==> events[i].EnsureEvent?
  {
    if entries == [] {
      trace, events := [Sms.State(st.sms, wire)], [];
    } else {
      var n := |entries| - 1;
      trace, events := ImportIsRun(st, ctx, entries[..n], clock, wire);
      NextImport(st, ctx, entries, clock);
      var mid := Import(st, ctx, entries[..n], clock).store;
      var after := ImportOne(mid, ctx, entries[n], clock(n)).0.sms;
      ImportOneIsEnsure(mid, ctx, entries[n], clock(n));
      if after != mid.sms {
        trace, events := ExtendRun(trace, events, Sms.EnsureEvent(EntryRequest(mid, ctx, entries[n], clock(n))));
      }
    }
  }

  lemma ExtendRun(trace: seq<Sms.State>, events: seq<Sms.Event>, e: Sms.Event)
    returns (trace': seq<Sms.State>, events': seq<Sms.Event>)
    requires Sms.IsRun(trace, events) && Sms.ValidEvent(trace[|events|].db, e)
    ensures Sms.IsRun(trace', events')
    ensures trace' == trace + [Sms.Step(trace[|events|], e)] && events' == events + [e]
  {
    trace', events' := trace + [Sms.Step(trace[|events|], e)], events + [e];
  }

  /** The first import of an actionable entry decides for good: the row is imported if and only if
      handling did not raise and the campaign was running (or the phone was blacklisted); a row
      ignored because the campaign was paused is never retried by a later import. */
  lemma FirstImportDecides(st: Store, ctx: Context, e: Entry, now: Time, later: Context, now': Time)
    requires FindItem(st.items, ctx, e).None? && e.lead.status == Actionable && Truthy(e.lead.phone)
    requires later.account == ctx.account && later.run == ctx.run
    ensures var st' := ImportOne(st, ctx, e, now).0;
      && |st'.items| == |st.items| + 1
      && (st'.items[|st.items|].status == Imported <==>
            !e.faulty && (ctx.campaignRunning || e.lead.phone.value in ctx.blacklist))
      && ImportOne(st', later, e, now').0 == st'
  {
    var st' := ProcessNew(st, ctx, e, now).0;
    ProcessNewAddsRow(st, ctx, e, now);
    FindItemNew(st.items, st'.items[|st.items|], ctx, e);
    FindItemSameRun(st'.items, ctx, later, e);
  }
}
