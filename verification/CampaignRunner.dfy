/** One batch of a direct SMS campaign: a greedy allocation of listings to SIMs. */
module CampaignRunner {
  import opened Prelude
  import opened CampaignControl

  const BATCH_SIZE: nat := 200
  const DEFAULT_QUOTA: int := 15
  const MIN_GAP: int := 120

  type SimId = string

  datatype ListingStatus = Nouvelle | SmsEnvoye | OtherStatus

  datatype Listing = Listing(phone: Option<string>, campaign: Option<nat>, status: ListingStatus)

  datatype Campaign = Campaign(status: Status, sent: nat, failed: nat)

  datatype Workflow = Workflow(status: Status, progress: nat, batches: nat)

  // A log row written by the runner: one accepted message.
  datatype SentRow = SentRow(listing: nat, sim: SimId, campaign: nat, at: Time)

  datatype Board = Board(
    listings: seq<Listing>,
    log: seq<SentRow>,
    campaigns: map<nat, Campaign>,
    workflows: map<nat, Workflow>)

  // A SIM as the provider lists it; a missing remaining quota counts as 15.
  datatype Sim = Sim(id: SimId, active: bool, quota: Option<int>)

  datatype Reply = Accepted | Refused | NoCredit | Raised

  /** What the runner reads from outside while it handles one listing: the campaign and workflow
      statuses of the interruption check, the blacklist, the random gap, the clock, whether the
      template renders, the provider's reply and the time at which the log row is written. */
  datatype Probe = Probe(
    campaignSeen: Option<Status>,
    workflowSeen: Option<Status>,
    blacklisted: bool,
    gap: int,
    now: Time,
    renders: bool,
    reply: Reply,
    sentAt: Time)

  // `fetched` is the answer of the listing query, at most one row more than a batch.
  datatype Batch = Batch(
    campaign: nat,
    workflow: Option<nat>,
    inWindow: bool,
    fetched: seq<nat>,
    sims: Option<seq<Sim>>,
    probes: seq<Probe>)

  function BatchLength(b: Batch): (n: nat)
    ensures n <= BATCH_SIZE && n <= |b.fetched|
    ensures n == |b.fetched| || n == BATCH_SIZE
  {
    if |b.fetched| > BATCH_SIZE then BATCH_SIZE else |b.fetched|
  }

  // A probe for every listing of the batch.
  predicate Probed(b: Batch) {
    BatchLength(b) <= |b.probes|
  }

  // ------------------------------------------------------------ SIM allocation

  function Quota(quotas: map<SimId, int>, id: SimId): int {
    if id in quotas then quotas[id] else 0
  }

  function InitialQuotas(sims: seq<Sim>): (q: map<SimId, int>)
    ensures forall i :: 0 <= i < |sims| ==> sims[i].id in q
  {
    if sims == [] then map[]
    else
      var last := sims[|sims| - 1];
      InitialQuotas(sims[..|sims| - 1])[last.id := if last.quota.Some? then last.quota.value else DEFAULT_QUOTA]
  }

  // The first of the active SIMs with the most remaining quota, if any quota remains.
  function SelectBest(sims: seq<Sim>, quotas: map<SimId, int>): Option<SimId> {
    if sims == [] then None
    else
      var last := sims[|sims| - 1];
      var best := SelectBest(sims[..|sims| - 1], quotas);
      if !last.active || Quota(quotas, last.id) <= 0 then best
      else if best.Some? && Quota(quotas, last.id) <= Quota(quotas, best.value) then best
      else Some(last.id)
  }

  // Seconds to wait before the next send of a SIM whose last send was at `last`.
  function Delay(gap: int, last: Option<Time>, now: Time): int {
    if last.None? then gap
    else
      var elapsed := if now < last.value then 0 else (now - last.value) / SECOND;
      if gap > elapsed then gap - elapsed else 0
  }

  function LastSent(log: seq<SentRow>, sim: SimId): Option<Time> {
    if log == [] then None
    else
      var row := log[|log| - 1];
      var last := LastSent(log[..|log| - 1], sim);
      if row.sim != sim || (last.Some? && last.value > row.at) then last else Some(row.at)
  }

  // ------------------------------------------------------------------ the loop

  datatype Halt = Going | Interrupted(status: Status) | OutOfQuota | CreditGone | Crashed

  // `handled` counts the listings whose turn is over.
  datatype Loop = Loop(
    listings: seq<Listing>,
    log: seq<SentRow>,
    quotas: map<SimId, int>,
    handled: nat,
    sent: nat,
    failed: nat,
    halt: Halt)

  function Interruption(p: Probe): Option<Status> {
    if p.campaignSeen.None? || p.workflowSeen.None? then Some(Cancelled)
    else if p.campaignSeen.value == Paused || p.campaignSeen.value == Cancelled then p.campaignSeen
    else if p.workflowSeen.value == Paused || p.workflowSeen.value == Cancelled then p.workflowSeen
    else None
  }

  function Iterate(b: Batch, sims: seq<Sim>, l: Loop, id: nat, p: Probe): Loop {
    if b.workflow.Some? && Interruption(p).Some? then l.(halt := Interrupted(Interruption(p).value))
    else if p.blacklisted then l.(handled := l.handled + 1)
    else
      match SelectBest(sims, l.quotas)
      case None => l.(halt := OutOfQuota)
      case Some(sim) =>
        if !p.renders then l.(halt := Crashed)
        else
          match p.reply
          case Accepted => Deliver(b, l, id, sim, p)
          case Refused => l.(handled := l.handled + 1, failed := l.failed + 1)
          case Raised => l.(handled := l.handled + 1, failed := l.failed + 1)
          case NoCredit => l.(failed := l.failed + 1, halt := CreditGone)
  }

  function Deliver(b: Batch, l: Loop, id: nat, sim: SimId, p: Probe): Loop {
    l.(listings := if id < |l.listings| then l.listings[id := l.listings[id].(status := SmsEnvoye)] else l.listings,
       log := l.log + [SentRow(id, sim, b.campaign, p.sentAt)],
       quotas := l.quotas[sim := Quota(l.quotas, sim) - 1],
       handled := l.handled + 1,
       sent := l.sent + 1)
  }

  function Start(board: Board, sims: seq<Sim>): Loop {
    Loop(board.listings, board.log, InitialQuotas(sims), 0, 0, 0, Going)
  }

  // The loop over the first n listings of the batch.
  function Loops(b: Batch, sims: seq<Sim>, l: Loop, n: nat): Loop
    requires n <= BatchLength(b) && Probed(b)
  {
    if n == 0 then l
    else
      var r := Loops(b, sims, l, n - 1);
      if r.halt != Going then r else Iterate(b, sims, r, b.fetched[n - 1], b.probes[n - 1])
  }

  // ------------------------------------------------------------------ one batch

  datatype Outcome =
    | Deferred
    | NotFound
    | NotRunnable(status: Status)
    | Aborted
    | Done(status: Status, sent: nat, failed: nat)

  function FinalStatus(halt: Halt, hasMore: bool): Status {
    match halt
    case Interrupted(status) => status
    case CreditGone => Failed
    case OutOfQuota => Paused
    case _ => if hasMore then Running else Completed
  }

  function SetCampaign(board: Board, c: nat, campaign: Campaign): Board {
    board.(campaigns := board.campaigns[c := campaign])
  }

  function SetWorkflow(board: Board, w: Option<nat>, f: Workflow -> Workflow): Board {
    if w.Some? && w.value in board.workflows
    then board.(workflows := board.workflows[w.value := f(board.workflows[w.value])])
    else board
  }

  function Runnable(board: Board, c: nat): bool {
    c in board.campaigns && (board.campaigns[c].status == Pending || board.campaigns[c].status == Running)
  }

  function Opened(board: Board, b: Batch): Board
    requires b.campaign in board.campaigns
  {
    SetWorkflow(SetCampaign(board, b.campaign, board.campaigns[b.campaign].(status := Running)),
                b.workflow, (w: Workflow) => w.(status := Running))
  }

  function Closed(board: Board, b: Batch, l: Loop): Board
    requires b.campaign in board.campaigns
  {
    var status := FinalStatus(l.halt, |b.fetched| > BATCH_SIZE);
    var c := board.campaigns[b.campaign];
    SetWorkflow(SetCampaign(board, b.campaign, Campaign(status, c.sent + l.sent, c.failed + l.failed)),
                b.workflow,
                (w: Workflow) => Workflow(status, w.progress + l.sent + l.failed, w.batches + 1))
  }

  function RunBatch(board: Board, b: Batch): (Board, Outcome)
    requires Probed(b)
  {
    if !b.inWindow then (board, Deferred)
    else if b.campaign !in board.campaigns then (board, NotFound)
    else if !Runnable(board, b.campaign) then (board, NotRunnable(board.campaigns[b.campaign].status))
    else
      var board1 := Opened(board, b);
      if b.sims.None? then (board1, Aborted)
      else
        var l := Loops(b, b.sims.value, Start(board, b.sims.value), BatchLength(b));
        var after := board1.(listings := l.listings, log := l.log);
        if l.halt == Crashed then (after, Aborted)
        else (Closed(after, b, l), Done(FinalStatus(l.halt, |b.fetched| > BATCH_SIZE), l.sent, l.failed))
  }

  // ------------------------------------------------------------- the listing query

  predicate HasAssigned(listings: seq<Listing>, c: nat) {
    exists i :: 0 <= i < |listings| && listings[i].campaign == Some(c)
  }

  predicate Eligible(l: Listing, c: nat, owned: bool) {
    l.phone.Some? && l.status == Nouvelle && (owned ==> l.campaign == Some(c))
  }

  function EligibleCount(listings: seq<Listing>, c: nat, owned: bool): (n: nat)
    ensures n <= |listings|
  {
    if listings == [] then 0
    else
      EligibleCount(listings[..|listings| - 1], c, owned)
      + if Eligible(listings[|listings| - 1], c, owned) then 1 else 0
  }

  // Rows the query may return: distinct eligible listings, in any order.
  ghost predicate ValidFetch(board: Board, b: Batch) {
    && |b.fetched| <= BATCH_SIZE + 1
    && Distinct(b.fetched)
    && forall i :: 0 <= i < |b.fetched| ==>
         b.fetched[i] < |board.listings|
         && Eligible(board.listings[b.fetched[i]], b.campaign, HasAssigned(board.listings, b.campaign))
  }
}
