/** The follow-up engine: contacts, SMS sequences and their idempotent log.
    Tables are sequences of rows and a row's id is its index; rows are never deleted. */
module SmsSequence {
  import opened Prelude

  const STEPS: int := 8
  const STEP_DELAY: int := 7 * DAY
  const SMS_HOUR_START: int := 8
  const SMS_HOUR_END: int := 20

  type Phone = string
  type SimId = string
  type CampaignId = nat

  datatype ContactStatus = ContactActive | ContactPaused | ContactConverted | ContactInvalid | DoNotContact

  datatype SequenceStatus = Active | Paused | Completed | Cancelled

  datatype Classification = Positive | Negative | Stop | Information | Ambiguous | Invalid

  datatype Contact = Contact(phone: Phone, status: ContactStatus)

  // SEQUENCE_DELAYS_DAYS counts from `created`; `step` is the last step logged, -1 before the first.
  datatype Sequence = Sequence(
    contact: nat,
    campaign: CampaignId,
    listing: Option<nat>,
    context: map<string, string>,
    step: int,
    due: Option<Time>,
    status: SequenceStatus,
    created: Time)

  datatype Direction = Outbound | Inbound

  // The unique idempotency key of a log row.
  datatype Key = SequenceKey(sequence: nat, step: int) | InboundKey(event: string)

  datatype LogRow = LogRow(sim: SimId, phone: Phone, direction: Direction, key: Key, sentAt: Time)

  datatype Db = Db(contacts: seq<Contact>, sequences: seq<Sequence>, log: seq<LogRow>)

  const EMPTY: Db := Db([], [], [])

  // ---------------------------------------------------------------- queries

  // The contact holding a phone (`Contact.phone_e164 == phone`).
  function FindContact(contacts: seq<Contact>, phone: Phone): (r: Option<nat>)
    ensures r.Some? ==> r.value < |contacts| && contacts[r.value].phone == phone
    ensures r.None? ==> forall i :: 0 <= i < |contacts| ==> contacts[i].phone != phone
  {
    if contacts == [] then None
    else
      var n := |contacts| - 1;
      var r := FindContact(contacts[..n], phone);
      if r.Some? then r else if contacts[n].phone == phone then Some(n) else None
  }

  // The sequence of a contact in a campaign.
  function FindSequence(sequences: seq<Sequence>, contact: nat, campaign: CampaignId): (r: Option<nat>)
    ensures r.Some? ==>
      r.value < |sequences| && sequences[r.value].contact == contact && sequences[r.value].campaign == campaign
    ensures r.None? ==> forall i :: 0 <= i < |sequences| ==>
      sequences[i].contact != contact || sequences[i].campaign != campaign
  {
    if sequences == [] then None
    else
      var n := |sequences| - 1;
      var r := FindSequence(sequences[..n], contact, campaign);
      if r.Some? then r
      else if sequences[n].contact == contact && sequences[n].campaign == campaign then Some(n) else None
  }

  predicate HasKey(log: seq<LogRow>, key: Key) {
    exists i :: 0 <= i < |log| && log[i].key == key
  }

  // Outbound rows of one SIM since an instant: the engine's daily usage query.
  function CountSince(log: seq<LogRow>, sim: SimId, since: Time): nat {
    if log == [] then 0
    else
      var last := log[|log| - 1];
      CountSince(log[..|log| - 1], sim, since)
      + if last.sim == sim && last.direction == Outbound && last.sentAt >= since then 1 else 0
  }

  function DayStart(t: Time): Time {
    t - t % DAY
  }

  // -------------------------------------------------------- sequence creation

  datatype EnsureResult =
    | InvalidPhone
    | CampaignNotRunning
    | Blacklisted(phone: Phone)
    | ContactClosed(phone: Phone, contact: nat, status: ContactStatus)
    | Scheduled(phone: Phone, contact: nat, sequence: nat, created: bool)

  // `phone` is the normalised number, None when the text holds no phone.
  datatype EnsureRequest = EnsureRequest(
    phone: Option<Phone>,
    blacklisted: bool,
    campaignRunning: bool,
    campaign: CampaignId,
    listing: Option<nat>,
    context: map<string, string>,
    created: Time,
    now: Time)

  function EnsureContact(db: Db, phone: Phone): (r: (Db, nat))
    ensures r.1 < |r.0.contacts| && r.0.contacts[r.1].phone == phone
    ensures db.contacts <= r.0.contacts && r.0.sequences == db.sequences && r.0.log == db.log
    ensures FindContact(db.contacts, phone).Some? ==> r == (db, FindContact(db.contacts, phone).value)
    ensures FindContact(db.contacts, phone).None? ==>
      r.0.contacts == db.contacts + [Contact(phone, ContactActive)] && r.1 == |db.contacts|
  {
    match FindContact(db.contacts, phone)
    case Some(c) => (db, c)
    case None => (db.(contacts := db.contacts + [Contact(phone, ContactActive)]), |db.contacts|)
  }

  function EnsureSequence(db: Db, q: EnsureRequest): (Db, EnsureResult) {
    if q.phone.None? then (db, InvalidPhone)
    else if q.blacklisted then (db, Blacklisted(q.phone.value))
    else if !q.campaignRunning then (db, CampaignNotRunning)
    else
      var phone := q.phone.value;
      var (db1, c) := EnsureContact(db, phone);
      if db1.contacts[c].status != ContactActive then
        (db1, ContactClosed(phone, c, db1.contacts[c].status))
      else
        match FindSequence(db1.sequences, c, q.campaign)
        case None =>
          var row := Sequence(c, q.campaign, q.listing, q.context, -1, Some(q.now), Active, q.created);
          (db1.(sequences := db1.sequences + [row]), Scheduled(phone, c, |db1.sequences|, true))
        case Some(i) =>
          (SetSequence(db1, i, Enrich(db1.sequences[i], q)), Scheduled(phone, c, i, false))
  }

  function Enrich(s: Sequence, q: EnsureRequest): Sequence {
    s.(context := s.context + q.context, listing := if s.listing.None? then q.listing else s.listing)
  }

  function SetSequence(db: Db, i: nat, s: Sequence): Db
    requires i < |db.sequences|
  {
    db.(sequences := db.sequences[i := s])
  }

  // ------------------------------------------------------------ one due visit

  // An enabled template; `sendTime` is None when the stored text is not a valid HH:MM.
  datatype Template = Template(delayDays: int, sendTime: Option<int>)

  datatype Sim = Sim(id: SimId, active: bool)

  datatype Reply = Accepted | NotAccepted | Raised

  /** What the engine reads from outside while it handles one due sequence. `quota` is None when the
      campaign row is gone; `sims` is None when rendering the body or listing the SIMs raises;
      `followUp` holds the enabled templates of the next step; `sentAt` is the database clock. */
  datatype Visit = Visit(
    sequence: nat,
    quota: Option<int>,
    blacklisted: bool,
    sims: Option<seq<Sim>>,
    allowed: map<SimId, int>,
    followUp: seq<Template>,
    reply: Reply,
    sentAt: Time)

  // A message handed to the provider, with the provider's answer.
  datatype Send = Send(sequence: nat, step: int, sim: SimId, phone: Phone, reply: Reply)

  datatype NextDue = Unschedulable | Due(at: Option<Time>)

  function TemplateDue(t: Template, created: Time): NextDue {
    if t.sendTime.None? then Unschedulable
    else Due(Some(DayStart(created + t.delayDays * DAY) + t.sendTime.value))
  }

  // The due date after `step` was sent. Two templates for the next step make the query raise.
  function FollowUpDue(step: int, created: Time, followUp: seq<Template>): NextDue {
    if step + 1 >= STEPS then Due(None)
    else if |followUp| > 1 then Unschedulable
    else if |followUp| == 1 then TemplateDue(followUp[0], created)
    else Due(Some(created + (step + 1) * STEP_DELAY))
  }

  function SimQuota(quota: int, allowed: map<SimId, int>, id: SimId): int {
    if id in allowed && allowed[id] < quota then allowed[id] else quota
  }

  predicate SimEligible(log: seq<LogRow>, now: Time, quota: int, allowed: map<SimId, int>, sim: Sim) {
    && sim.active
    && (allowed == map[] || sim.id in allowed)
    && CountSince(log, sim.id, DayStart(now)) < SimQuota(quota, allowed, sim.id)
  }

  // The first eligible SIM in the provider's order.
  function FirstEligible(log: seq<LogRow>, now: Time, quota: int, allowed: map<SimId, int>,
                         sims: seq<Sim>): (r: Option<SimId>)
    ensures r.Some? ==> CountSince(log, r.value, DayStart(now)) < quota
  {
    if sims == [] then None
    else if SimEligible(log, now, quota, allowed, sims[0]) then Some(sims[0].id)
    else FirstEligible(log, now, quota, allowed, sims[1..])
  }

  // What one visit did: the rows it left, the message it handed over and the counters it moved.
  datatype Outcome = Outcome(db: Db, wire: seq<Send>, sent: nat, stopped: nat, aborted: bool)

  function Advance(s: Sequence, step: int, at: Option<Time>): Sequence {
    s.(step := step, due := at, status := if at.None? then Completed else Active)
  }

  function Close(db: Db, i: nat, status: SequenceStatus): Outcome
    requires i < |db.sequences|
  {
    Outcome(SetSequence(db, i, db.sequences[i].(status := status)), [], 0, 1, false)
  }

  function Process(db: Db, now: Time, v: Visit): Outcome
    requires v.sequence < |db.sequences|
  {
    var s := db.sequences[v.sequence];
    if s.contact >= |db.contacts| || v.quota.None? then Close(db, v.sequence, Cancelled)
    else if db.contacts[s.contact].status != ContactActive || v.blacklisted then Close(db, v.sequence, Cancelled)
    else if s.step + 1 >= STEPS then Close(db, v.sequence, Completed)
    else if v.sims.None? then Outcome(db, [], 0, 0, true)
    else
      match FirstEligible(db.log, now, v.quota.value, v.allowed, v.sims.value)
      case None => Outcome(db, [], 0, 0, false)
      case Some(sim) =>
        if HasKey(db.log, SequenceKey(v.sequence, s.step + 1)) then Replay(db, v)
        else Transmit(db, v, sim)
  }

  // The step is already logged: only the sequence row catches up, outside any exception handler.
  function Replay(db: Db, v: Visit): Outcome
    requires v.sequence < |db.sequences|
  {
    var s := db.sequences[v.sequence];
    match FollowUpDue(s.step + 1, s.created, v.followUp)
    case Unschedulable => Outcome(db, [], 0, 0, true)
    case Due(at) => Outcome(SetSequence(db, v.sequence, Advance(s, s.step + 1, at)), [], 0, 0, false)
  }

  function Transmit(db: Db, v: Visit, sim: SimId): Outcome
    requires v.sequence < |db.sequences| && db.sequences[v.sequence].contact < |db.contacts|
  {
    var s := db.sequences[v.sequence];
    var step := s.step + 1;
    var phone := db.contacts[s.contact].phone;
    var wire := [Send(v.sequence, step, sim, phone, v.reply)];
    if v.reply != Accepted then Outcome(db, wire, 0, 0, false)
    else
      var logged := db.(log := db.log + [LogRow(sim, phone, Outbound, SequenceKey(v.sequence, step), v.sentAt)]);
      match FollowUpDue(step, s.created, v.followUp)
      case Unschedulable => Outcome(SetSequence(logged, v.sequence, s.(step := step)), wire, 0, 0, false)
      case Due(at) => Outcome(SetSequence(logged, v.sequence, Advance(s, step, at)), wire, 1, 0, false)
  }

  // ----------------------------------------------------------------- one tick

  datatype Progress = Progress(db: Db, wire: seq<Send>, processed: nat, sent: nat, stopped: nat, aborted: bool)

  function Visits(db: Db, now: Time, vs: seq<Visit>): (r: Progress)
    requires forall v :: v in vs ==> v.sequence < |db.sequences|
    ensures |r.db.sequences| == |db.sequences|
  {
    if vs == [] then Progress(db, [], 0, 0, 0, false)
    else
      var n := |vs| - 1;
      var r := Visits(db, now, vs[..n]);
      if r.aborted then r
      else
        var o := Process(r.db, now, vs[n]);
        Progress(o.db, r.wire + o.wire, r.processed + 1, r.sent + o.sent, r.stopped + o.stopped, o.aborted)
  }

  // One run of the engine: a single transaction, rolled back when a visit raises.
  function Tick(db: Db, now: Time, parisHour: int, vs: seq<Visit>): Progress
    requires forall v :: v in vs ==> v.sequence < |db.sequences|
  {
    if !(SMS_HOUR_START <= parisHour < SMS_HOUR_END) then Progress(db, [], 0, 0, 0, false)
    else
      var r := Visits(db, now, vs);
      if r.aborted then r.(db := db) else r
  }

  predicate IsDue(s: Sequence, now: Time) {
    s.status == Active && s.due.Some? && s.due.value <= now
  }

  // Any choice of distinct due sequences, in any order, is a possible answer of the due query.
  ghost predicate ValidPick(db: Db, now: Time, vs: seq<Visit>) {
    && (forall i :: 0 <= i < |vs| ==>
          vs[i].sequence < |db.sequences| && IsDue(db.sequences[vs[i].sequence], now) && vs[i].sentAt >= now)
    && (forall i, j :: 0 <= i < j < |vs| ==> vs[i].sequence != vs[j].sequence)
  }

  // ----------------------------------------------------------- inbound replies

  function MutedStatus(kind: Classification): ContactStatus {
    match kind
    case Stop => DoNotContact
    case Invalid => ContactInvalid
    case _ => ContactPaused
  }

  // First transaction of a reply: log it and close the contact. A repeated event key is refused.
  function RecordInbound(db: Db, phone: Option<Phone>, sender: string, sim: SimId, kind: Classification,
                         event: string, at: Time): Db {
    if HasKey(db.log, InboundKey(event)) then db
    else if phone.None? then db.(log := db.log + [LogRow(sim, sender, Inbound, InboundKey(event), at)])
    else
      var (db1, c) := EnsureContact(db, phone.value);
      db1.(contacts := db1.contacts[c := db1.contacts[c].(status := MutedStatus(kind))],
           log := db1.log + [LogRow(sim, phone.value, Inbound, InboundKey(event), at)])
  }

  function StoppedRow(s: Sequence, contact: nat): Sequence {
    if s.contact == contact && s.status == Active then s.(status := Cancelled, due := None) else s
  }

  // Second transaction of a reply.
  function StopSequences(db: Db, contact: nat, status: ContactStatus): Db {
    db.(contacts :=
          if contact < |db.contacts| then db.contacts[contact := db.contacts[contact].(status := status)]
          else db.contacts,
        sequences := seq(|db.sequences|, i requires 0 <= i < |db.sequences| => StoppedRow(db.sequences[i], contact)))
  }

  // ------------------------------------------------------------------ whole runs

  datatype Event =
    | EnsureEvent(request: EnsureRequest)
    | TickEvent(now: Time, parisHour: int, visits: seq<Visit>)
    | ReplyEvent(phone: Option<Phone>, sender: string, sim: SimId, kind: Classification, event: string, at: Time)
    | StopEvent(contact: nat, kind: Classification)

  ghost predicate ValidEvent(db: Db, e: Event) {
    match e
    case EnsureEvent(q) => q.created <= q.now
    case TickEvent(now, _, vs) => ValidPick(db, now, vs)
    case ReplyEvent(_, _, _, _, _, _) => true
    case StopEvent(_, _) => true
  }

  // A state, and every message the provider was handed so far.
  datatype State = State(db: Db, wire: seq<Send>)

  function Step(st: State, e: Event): State
    requires e.TickEvent? ==> forall v :: v in e.visits ==> v.sequence < |st.db.sequences|
  {
    match e
    case EnsureEvent(q) => st.(db := EnsureSequence(st.db, q).0)
    case TickEvent(now, hour, vs) => var r := Tick(st.db, now, hour, vs); State(r.db, st.wire + r.wire)
    case ReplyEvent(phone, sender, sim, kind, event, at) =>
      st.(db := RecordInbound(st.db, phone, sender, sim, kind, event, at))
    case StopEvent(contact, kind) =>
      st.(db := StopSequences(st.db, contact, if kind == Stop then DoNotContact else ContactPaused))
  }

  // `trace[i]` is the state after the first i events.
  ghost predicate IsRun(trace: seq<State>, events: seq<Event>) {
    && |trace| == |events| + 1
    && forall i :: 0 <= i < |events| ==> ValidEvent(trace[i].db, events[i]) && trace[i + 1] == Step(trace[i], events[i])
  }
}
