/** Import of an Apify dataset: insert-or-replay per item, each item in its own transaction. */
module ApifyIngestion {
  import opened Prelude
  import Sms = SmsSequence

  // A row is inserted pending; PENDING never survives the transaction that inserts it.
  datatype ItemStatus = Pending | Imported | Ignored | InException

  datatype Item = Item(
    account: nat,
    run: nat,
    index: nat,
    hash: string,
    status: ItemStatus,
    phone: Option<string>,
    contact: Option<nat>,
    sequence: Option<nat>,
    listing: Option<nat>)

  // `source` identifies the payload that created the row, whose detail columns are never rewritten.
  datatype Listing = Listing(
    url: string,
    source: string,
    campaign: Option<nat>,
    sector: Option<nat>,
    title: Option<string>,
    phone: Option<string>,
    contact: Option<nat>)

  datatype Store = Store(sms: Sms.Db, listings: seq<Listing>, items: seq<Item>, exceptions: nat)

  datatype LeadStatus = Actionable | NonActionable | Rejected | AmbiguousLead

  // The normalizer's answer for one payload. `knownPlatform` says the platform is one that has listings.
  datatype Lead = Lead(
    status: LeadStatus,
    phone: Option<string>,
    url: Option<string>,
    title: Option<string>,
    knownPlatform: bool,
    context: map<string, string>)

  /** One dataset item: its position, the hash of its payload, its normalization, and whether handling
      it raises (a value the database refuses, say). The hash determines the payload. */
  datatype Entry = Entry(index: nat, hash: string, lead: Lead, faulty: bool)

  // What the import reads from outside and that does not change during it.
  datatype Context = Context(
    account: nat,
    run: nat,
    campaign: nat,
    sector: Option<nat>,
    campaignRunning: bool,
    blacklist: set<string>)

  datatype OutcomeStatus = ActionableOutcome | ExceptionOutcome | IgnoredOutcome

  datatype Outcome = Outcome(status: OutcomeStatus, sequenceCreated: bool)

  // ------------------------------------------------------------------ one item

  predicate SameItem(x: Item, ctx: Context, e: Entry) {
    x.account == ctx.account && x.run == ctx.run && x.index == e.index && x.hash == e.hash
  }

  // The row holding an entry of this run, under the unique key of the item table.
  function FindItem(items: seq<Item>, ctx: Context, e: Entry): (r: Option<nat>)
    ensures r.Some? ==> r.value < |items| && SameItem(items[r.value], ctx, e)
    ensures r.None? ==> forall i :: 0 <= i < |items| ==> !SameItem(items[i], ctx, e)
  {
    if items == [] then None
    else
      var n := |items| - 1;
      var r := FindItem(items[..n], ctx, e);
      if r.Some? then r else if SameItem(items[n], ctx, e) then Some(n) else None
  }

  function ReplayedOutcome(x: Item): Outcome {
    match x.status
    case Imported => Outcome(ActionableOutcome, false)
    case InException => Outcome(ExceptionOutcome, false)
    case Ignored => Outcome(IgnoredOutcome, false)
    case Pending => Outcome(IgnoredOutcome, false)
  }

  function FindListing(listings: seq<Listing>, url: string): (r: Option<nat>)
    ensures r.Some? ==> r.value < |listings| && listings[r.value].url == url
    ensures r.None? ==> forall i :: 0 <= i < |listings| ==> listings[i].url != url
  {
    if listings == [] then None
    else
      var n := |listings| - 1;
      var r := FindListing(listings[..n], url);
      if r.Some? then r else if listings[n].url == url then Some(n) else None
  }

  predicate Truthy(s: Option<string>) {
    s.Some? && s.value != ""
  }

  function OrElse(a: Option<string>, b: Option<string>): Option<string> {
    if Truthy(a) then a else b
  }

  function OrElseId(a: Option<nat>, b: Option<nat>): Option<nat> {
    if a.Some? then a else b
  }

  function UpsertListing(listings: seq<Listing>, ctx: Context, e: Entry): (r: (seq<Listing>, Option<nat>))
    ensures r.1.Some? ==> r.1.value < |r.0|
  {
    if !Truthy(e.lead.url) || !e.lead.knownPlatform then (listings, None)
    else
      var url := e.lead.url.value;
      match FindListing(listings, url)
      case None =>
        (listings + [Listing(url, e.hash, Some(ctx.campaign), ctx.sector, e.lead.title, e.lead.phone, None)],
         Some(|listings|))
      case Some(i) =>
        var row := listings[i];
        (listings[i := row.(campaign := OrElseId(row.campaign, Some(ctx.campaign)),
                            sector := OrElseId(row.sector, ctx.sector),
                            title := OrElse(row.title, e.lead.title),
                            phone := OrElse(row.phone, e.lead.phone))],
         Some(i))
  }

  function Request(ctx: Context, phone: string, listing: Option<nat>, context: map<string, string>,
                   now: Time): Sms.EnsureRequest {
    Sms.EnsureRequest(Some(phone), phone in ctx.blacklist, ctx.campaignRunning, ctx.campaign, listing, context, now,
                      now)
  }

  function NewItem(ctx: Context, e: Entry, status: ItemStatus): Item {
    Item(ctx.account, ctx.run, e.index, e.hash, status, None, None, None, None)
  }

  function AddItem(st: Store, x: Item): Store {
    st.(items := st.items + [x])
  }

  function ImportActionable(st: Store, ctx: Context, e: Entry, phone: string, now: Time): (Store, Outcome) {
    var (listings, listing) := UpsertListing(st.listings, ctx, e);
    var (sms, result) := Sms.EnsureSequence(st.sms, Request(ctx, phone, listing, e.lead.context, now));
    var item := NewItem(ctx, e, Imported).(phone := Some(phone), listing := listing);
    match result
    case InvalidPhone => (AddItem(st, NewItem(ctx, e, Ignored)), Outcome(IgnoredOutcome, false))
    case CampaignNotRunning => (AddItem(st, NewItem(ctx, e, Ignored)), Outcome(IgnoredOutcome, false))
    case Blacklisted(_) =>
      (AddItem(st.(sms := sms, listings := listings), item), Outcome(ActionableOutcome, false))
    case ContactClosed(_, contact, _) =>
      (AddItem(st.(sms := sms, listings := LinkContact(listings, listing, contact)), item.(contact := Some(contact))),
       Outcome(ActionableOutcome, false))
    case Scheduled(_, contact, sequence, created) =>
      (AddItem(st.(sms := sms, listings := LinkContact(listings, listing, contact)),
               item.(contact := Some(contact), sequence := Some(sequence))),
       Outcome(ActionableOutcome, created))
  }

  function LinkContact(listings: seq<Listing>, listing: Option<nat>, contact: nat): seq<Listing> {
    if listing.Some? && listing.value < |listings|
    then listings[listing.value := listings[listing.value].(contact := Some(contact))]
    else listings
  }

  // A new item: processed under a savepoint, so that a failure leaves only an ignored row.
  function ProcessNew(st: Store, ctx: Context, e: Entry, now: Time): (Store, Outcome) {
    if e.faulty then (AddItem(st, NewItem(ctx, e, Ignored)), Outcome(IgnoredOutcome, false))
    else if e.lead.status == AmbiguousLead then
      (AddItem(st, NewItem(ctx, e, InException)).(exceptions := st.exceptions + 1), Outcome(ExceptionOutcome, false))
    else if e.lead.status != Actionable || !Truthy(e.lead.phone) then
      (AddItem(st, NewItem(ctx, e, Ignored)), Outcome(IgnoredOutcome, false))
    else ImportActionable(st, ctx, e, e.lead.phone.value, now)
  }

  function ImportOne(st: Store, ctx: Context, e: Entry, now: Time): (Store, Outcome) {
    match FindItem(st.items, ctx, e)
    case Some(i) => (st, ReplayedOutcome(st.items[i]))
    case None => ProcessNew(st, ctx, e, now)
  }

  // --------------------------------------------------------------------- a run

  datatype Counters = Counters(read: nat, actionable: nat, sequencesCreated: nat, exceptions: nat)

  const ZERO: Counters := Counters(0, 0, 0, 0)

  function Count(c: Counters, o: Outcome): Counters {
    Counters(c.read + 1,
             c.actionable + if o.status == ActionableOutcome then 1 else 0,
             c.sequencesCreated + if o.sequenceCreated then 1 else 0,
             c.exceptions + if o.status == ExceptionOutcome then 1 else 0)
  }

  datatype Result = Result(store: Store, counters: Counters)

  function Next(r: Result, ctx: Context, e: Entry, now: Time): Result {
    var (store, outcome) := ImportOne(r.store, ctx, e, now);
    Result(store, Count(r.counters, outcome))
  }

  // Importing the entries in order; `clock(i)` is the time at which entry i is handled.
  function Import(st: Store, ctx: Context, entries: seq<Entry>, clock: nat -> Time): Result {
    if entries == [] then Result(st, ZERO)
    else
      var n := |entries| - 1;
      Next(Import(st, ctx, entries[..n], clock), ctx, entries[n], clock(n))
  }

  // The run's own counters, as saved after a page and at the end.
  datatype Progress = Progress(read: nat, imported: nat, ignored: int, inException: nat)

  function Saved(c: Counters): Progress {
    Progress(c.read, c.actionable, c.read - c.actionable - c.exceptions, c.exceptions)
  }
}
