/** One batch of Leboncoin messages: listings are given to the least used account with quota left,
    and every (campaign, listing, step) is queued at most once. */
module LbcMessaging {
  import opened Prelude
  import opened CampaignControl

  const BATCH_SIZE: nat := 25
  const MAX_MESSAGES: nat := 3

  type AccountId = nat

  datatype Account = Account(id: AccountId, quota: int)

  datatype MessageStatus = Queued | Sent | FailedMessage

  // An outbound row; (campaign, listing, step) is its unique external key.
  datatype Message = Message(campaign: nat, listing: nat, step: nat, account: AccountId, status: MessageStatus)

  /** What the sender reads from outside for one listing: the commands issued since the listing before,
      whether an enabled template exists for the step, whether the text renders, and whether the browser
      task confirms delivery. */
  datatype Probe = Probe(commands: seq<Command>, hasTemplate: bool, renders: bool, delivered: bool)

  // `closing` holds the commands issued between the last check and the end of the batch.
  datatype Batch = Batch(
    campaign: nat,
    fetched: seq<nat>,
    accounts: seq<Account>,
    usage: map<AccountId, nat>,
    probes: seq<Probe>,
    closing: seq<Command>)

  datatype Halt = Going | Stopped | OutOfQuota | Crashed

  datatype Loop = Loop(
    messages: seq<Message>,
    usage: map<AccountId, nat>,
    control: Control,
    handled: nat,
    sent: nat,
    failed: nat,
    halt: Halt)

  function BatchLength(b: Batch): (n: nat)
    ensures n <= BATCH_SIZE && n <= |b.fetched|
    ensures n == |b.fetched| || n == BATCH_SIZE
  {
    if |b.fetched| > BATCH_SIZE then BATCH_SIZE else |b.fetched|
  }

  predicate Probed(b: Batch) {
    BatchLength(b) <= |b.probes|
  }

  function Usage(usage: map<AccountId, nat>, id: AccountId): nat {
    if id in usage then usage[id] else 0
  }

  predicate HasRoom(usage: map<AccountId, nat>, a: Account) {
    Usage(usage, a.id) < a.quota
  }

  // The first of the least used accounts that still have quota.
  function LeastUsed(accounts: seq<Account>, usage: map<AccountId, nat>): (r: Option<Account>)
    ensures r.Some? ==> r.value in accounts && HasRoom(usage, r.value)
  {
    if accounts == [] then None
    else
      var last := accounts[|accounts| - 1];
      var best := LeastUsed(accounts[..|accounts| - 1], usage);
      if !HasRoom(usage, last) then best
      else if best.Some? && Usage(usage, best.value.id) <= Usage(usage, last.id) then best
      else Some(last)
  }

  // Queued or sent messages of a listing, over all campaigns.
  function Live(messages: seq<Message>, listing: nat): nat {
    if messages == [] then 0
    else
      var m := messages[|messages| - 1];
      Live(messages[..|messages| - 1], listing) + if m.listing == listing && m.status != FailedMessage then 1 else 0
  }

  predicate HasKey(messages: seq<Message>, campaign: nat, listing: nat, step: nat) {
    exists i :: 0 <= i < |messages| && messages[i].campaign == campaign && messages[i].listing == listing
      && messages[i].step == step
  }

  // The turn of one listing, under the control the commands have left.
  function Turn(b: Batch, l0: Loop, listing: nat, p: Probe): Loop {
    var l := l0.(control := After(l0.control, p.commands));
    if l.control != RUNNING then l.(halt := Stopped)
    else
      match LeastUsed(b.accounts, l.usage)
      case None => l.(halt := OutOfQuota)
      case Some(account) =>
        var step := Live(l.messages, listing);
        if step > 0 && !p.hasTemplate then l.(handled := l.handled + 1)
        else if !p.renders then l.(halt := Crashed)
        else if HasKey(l.messages, b.campaign, listing, step) then l.(handled := l.handled + 1)
        else if p.delivered then
          l.(messages := l.messages + [Message(b.campaign, listing, step, account.id, Sent)],
             usage := l.usage[account.id := Usage(l.usage, account.id) + 1],
             handled := l.handled + 1, sent := l.sent + 1)
        else
          l.(messages := l.messages + [Message(b.campaign, listing, step, account.id, FailedMessage)],
             handled := l.handled + 1, failed := l.failed + 1)
  }

  // The loop over the first n listings of the batch.
  function Turns(b: Batch, l: Loop, n: nat): Loop
    requires n <= BatchLength(b) && Probed(b)
  {
    if n == 0 then l
    else
      var r := Turns(b, l, n - 1);
      if r.halt != Going then r else Turn(b, r, b.fetched[n - 1], b.probes[n - 1])
  }

  datatype Campaign = Campaign(control: Control, sent: nat, failed: nat)

  datatype Board = Board(messages: seq<Message>, campaigns: map<nat, Campaign>)

  // A batch opens by setting the campaign and its workflow to RUNNING.
  function Start(messages: seq<Message>, b: Batch): Loop {
    Loop(messages, b.usage, RUNNING, 0, 0, 0, Going)
  }

  function FinalStatus(b: Batch, control: Control): Status {
    if control.campaign == Paused || control.campaign == Cancelled then control.campaign
    else if |b.fetched| > BATCH_SIZE then Running
    else Completed
  }

  datatype Outcome = NotFound | NotRunnable | NoAccount | QuotaPause | Aborted | Done(status: Status)

  predicate Runnable(board: Board, c: nat) {
    c in board.campaigns && board.campaigns[c].control.campaign in {Running, Pending}
  }

  function SetCampaign(board: Board, c: nat, campaign: Campaign): Board {
    board.(campaigns := board.campaigns[c := campaign])
  }

  function SetControl(board: Board, c: nat, control: Control): Board
    requires c in board.campaigns
  {
    SetCampaign(board, c, board.campaigns[c].(control := control))
  }

  // Running out of quota returns, and an exception leaves, before the totals are written; the worker
  // marks what raised as FAILED.
  function RunBatch(board: Board, b: Batch): (Board, Outcome)
    requires Probed(b)
  {
    if b.campaign !in board.campaigns then (board, NotFound)
    else if !Runnable(board, b.campaign) then (board, NotRunnable)
    else if b.accounts == [] then (SetControl(board, b.campaign, Control(Paused, Failed)), NoAccount)
    else
      var l := Turns(b, Start(board.messages, b), BatchLength(b));
      var after := board.(messages := l.messages);
      if l.halt == OutOfQuota then (SetControl(after, b.campaign, Control(Paused, Paused)), QuotaPause)
      else if l.halt == Crashed then (SetControl(after, b.campaign, Control(Failed, Failed)), Aborted)
      else
        var c := board.campaigns[b.campaign];
        var final := FinalStatus(b, After(l.control, b.closing));
        (SetCampaign(after, b.campaign, Campaign(Control(final, final), c.sent + l.sent, c.failed + l.failed)),
         Done(final))
  }

  // Rows the listing query may return: distinct listings with fewer than three live messages.
  ghost predicate ValidFetch(messages: seq<Message>, b: Batch) {
    && |b.fetched| <= BATCH_SIZE + 1
    && Distinct(b.fetched)
    && forall i :: 0 <= i < |b.fetched| ==> Live(messages, b.fetched[i]) < MAX_MESSAGES
  }
}
