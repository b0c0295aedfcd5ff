/** What Leboncoin batches keep: account quotas and fairness, unique message keys, at most three live
    messages per listing, and when the campaign's totals agree with the message table. */
module LbcRuns {
  import opened Prelude
  import opened CampaignControl
  import opened LbcMessaging

  lemma LiveAppend(messages: seq<Message>, m: Message, listing: nat)
    ensures Live(messages + [m], listing) ==
      Live(messages, listing) + if m.listing == listing && m.status != FailedMessage then 1 else 0
  {
    assert (messages + [m])[..|messages|] == messages;
  }

  // A halted loop makes no further turns.
  lemma {:induction false} StoppedEarly(b: Batch, l: Loop, n: nat)
    requires Probed(b) && n <= BatchLength(b)
    requires n == BatchLength(b) || Turns(b, l, n).halt != Going
    ensures Turns(b, l, BatchLength(b)) == Turns(b, l, n)
    decreases BatchLength(b) - n
  {
    if n < BatchLength(b) {
      StoppedEarly(b, l, n + 1);
    }
  }

  // ---------------------------------------------------------------- allocation

  lemma {:induction false} LeastUsedIsMinimal(accounts: seq<Account>, usage: map<AccountId, nat>)
    ensures var r := LeastUsed(accounts, usage);
      forall i :: 0 <= i < |accounts| && HasRoom(usage, accounts[i]) ==>
        r.Some? && Usage(usage, r.value.id) <= Usage(usage, accounts[i].id)
  {
    if accounts != [] {
      var n := |accounts| - 1;
      LeastUsedIsMinimal(accounts[..n], usage);
      forall i | 0 <= i < n ensures accounts[i] == accounts[..n][i] {}
    }
  }

  // Sent messages of an account among the rows written since the batch started.
  function SentFrom(messages: seq<Message>, account: AccountId): nat {
    if messages == [] then 0
    else
      var m := messages[|messages| - 1];
      SentFrom(messages[..|messages| - 1], account) + if m.account == account && m.status == Sent then 1 else 0
  }

  lemma SentFromAppend(messages: seq<Message>, m: Message, account: AccountId)
    ensures SentFrom(messages + [m], account) ==
      SentFrom(messages, account) + if m.account == account && m.status == Sent then 1 else 0
  {
    assert (messages + [m])[..|messages|] == messages;
  }

  function NewRows(start: seq<Message>, l: Loop): seq<Message>
    requires |start| <= |l.messages|
  {
    l.messages[|start|..]
  }

  /** At every point of a batch: usage is the initial usage plus the sent rows of the account, it stays
      within the quota of every account that started within it, and every account used so far is
      within one of every account that still has quota. */
  ghost predicate Fair(b: Batch, start: seq<Message>, l: Loop) {
    start <= l.messages && UsageAgrees(b, NewRows(start, l), l) && WithinQuota(b, l) && Level(b, NewRows(start, l), l)
  }

  ghost predicate UsageAgrees(b: Batch, rows: seq<Message>, l: Loop) {
    forall id :: Usage(l.usage, id) == Usage(b.usage, id) + SentFrom(rows, id)
  }

  ghost predicate WithinQuota(b: Batch, l: Loop) {
    forall i :: 0 <= i < |b.accounts| && Usage(b.usage, b.accounts[i].id) <= b.accounts[i].quota ==>
      Usage(l.usage, b.accounts[i].id) <= b.accounts[i].quota
  }

  ghost predicate Level(b: Batch, rows: seq<Message>, l: Loop) {
    forall u, i :: SentFrom(rows, u) > 0 && 0 <= i < |b.accounts| && HasRoom(l.usage, b.accounts[i]) ==>
      Usage(l.usage, u) <= Usage(l.usage, b.accounts[i].id) + 1
  }

  // Account rows are read by primary key.
  ghost predicate AccountsUnique(accounts: seq<Account>) {
    forall i, j :: 0 <= i < j < |accounts| ==> accounts[i].id != accounts[j].id
  }

  function Charged(l: Loop, account: Account, m: Message): Loop {
    l.(messages := l.messages + [m], usage := l.usage[account.id := Usage(l.usage, account.id) + 1])
  }

  lemma ChargeKeepsQuota(b: Batch, l: Loop, account: Account, m: Message)
    requires WithinQuota(b, l) && AccountsUnique(b.accounts) && LeastUsed(b.accounts, l.usage) == Some(account)
    ensures WithinQuota(b, Charged(l, account, m))
  {
    var l' := Charged(l, account, m);
    var j :| 0 <= j < |b.accounts| && b.accounts[j] == account;
    forall i | 0 <= i < |b.accounts| && Usage(b.usage, b.accounts[i].id) <= b.accounts[i].quota
      ensures Usage(l'.usage, b.accounts[i].id) <= b.accounts[i].quota
    {
      assert Usage(l.usage, b.accounts[i].id) <= b.accounts[i].quota;
      if b.accounts[i].id == account.id {
        assert i == j;
      }
    }
  }

  lemma ChargeKeepsLevel(b: Batch, rows: seq<Message>, l: Loop, account: Account, m: Message)
    requires Level(b, rows, l) && LeastUsed(b.accounts, l.usage) == Some(account)
    requires m.account == account.id && m.status == Sent
    ensures Level(b, rows + [m], Charged(l, account, m))
  {
    var l' := Charged(l, account, m);
    LeastUsedIsMinimal(b.accounts, l.usage);
    forall u, i | SentFrom(rows + [m], u) > 0 && 0 <= i < |b.accounts| && HasRoom(l'.usage, b.accounts[i])
      ensures Usage(l'.usage, u) <= Usage(l'.usage, b.accounts[i].id) + 1
    {
      assert HasRoom(l.usage, b.accounts[i]);
      SentFromAppend(rows, m, u);
      if u != account.id {
        assert SentFrom(rows, u) > 0;
      }
    }
  }

  lemma SentRowIsFair(b: Batch, start: seq<Message>, l: Loop, account: Account, m: Message)
    requires Fair(b, start, l) && AccountsUnique(b.accounts) && LeastUsed(b.accounts, l.usage) == Some(account)
    requires m.account == account.id && m.status == Sent
    ensures Fair(b, start, Charged(l, account, m))
  {
    var l' := Charged(l, account, m);
    var rows := NewRows(start, l);
    assert NewRows(start, l') == rows + [m];
    forall id ensures Usage(l'.usage, id) == Usage(b.usage, id) + SentFrom(rows + [m], id) {
      SentFromAppend(rows, m, id);
      assert Usage(l.usage, id) == Usage(b.usage, id) + SentFrom(rows, id);
    }
    ChargeKeepsQuota(b, l, account, m);
    ChargeKeepsLevel(b, rows, l, account, m);
  }

  lemma FailedRowIsFair(b: Batch, start: seq<Message>, l: Loop, m: Message)
    requires Fair(b, start, l) && m.status == FailedMessage
    ensures Fair(b, start, l.(messages := l.messages + [m]))
  {
    var l' := l.(messages := l.messages + [m]);
    assert NewRows(start, l') == NewRows(start, l) + [m];
    forall id ensures SentFrom(NewRows(start, l'), id) == SentFrom(NewRows(start, l), id) {
      SentFromAppend(NewRows(start, l), m, id);
    }
  }

  lemma SameRowsAreFair(b: Batch, start: seq<Message>, l: Loop, l': Loop)
    requires Fair(b, start, l) && l'.messages == l.messages && l'.usage == l.usage
    ensures Fair(b, start, l')
  {
    assert NewRows(start, l') == NewRows(start, l);
  }

  lemma TurnIsFair(b: Batch, start: seq<Message>, l: Loop, listing: nat, p: Probe)
    requires Fair(b, start, l) && AccountsUnique(b.accounts)
    ensures Fair(b, start, Turn(b, l, listing, p))
  {
    var l' := Turn(b, l, listing, p);
    if l'.messages == l.messages {
      SameRowsAreFair(b, start, l, l');
    } else {
      var account := LeastUsed(b.accounts, l.usage).value;
      var m := l'.messages[|l.messages|];
      if m.status == Sent {
        SentRowIsFair(b, start, l, account, m);
        SameRowsAreFair(b, start, Charged(l, account, m), l');
      } else {
        FailedRowIsFair(b, start, l, m);
        SameRowsAreFair(b, start, l.(messages := l.messages + [m]), l');
      }
    }
  }

  lemma {:induction false} BatchIsFair(b: Batch, start: seq<Message>, n: nat)
    requires n <= BatchLength(b) && Probed(b) && AccountsUnique(b.accounts)
    ensures Fair(b, start, Turns(b, Start(start, b), n))
  {
    if n == 0 {
      assert NewRows(start, Start(start, b)) == [];
    } else {
      BatchIsFair(b, start, n - 1);
      var r := Turns(b, Start(start, b), n - 1);
      if r.halt == Going {
        TurnIsFair(b, start, r, b.fetched[n - 1], b.probes[n - 1]);
      }
    }
  }

  // ---------------------------------------------------------- keys and the cap

  ghost predicate KeysUnique(messages: seq<Message>) {
    forall i, j :: 0 <= i < j < |messages| ==>
      !(messages[i].campaign == messages[j].campaign && messages[i].listing == messages[j].listing
        && messages[i].step == messages[j].step)
  }

  ghost predicate Capped(messages: seq<Message>) {
    KeysUnique(messages) && forall listing: nat :: Live(messages, listing) <= MAX_MESSAGES
  }

  lemma TurnKeepsCap(b: Batch, l: Loop, listing: nat, p: Probe)
    requires Capped(l.messages) && Live(l.messages, listing) < MAX_MESSAGES
    ensures Capped(Turn(b, l, listing, p).messages)
    ensures forall other: nat :: other != listing ==>
      Live(Turn(b, l, listing, p).messages, other) == Live(l.messages, other)
  {
    var l' := Turn(b, l, listing, p);
    if l'.messages != l.messages {
      var m := l'.messages[|l.messages|];
      assert l'.messages == l.messages + [m];
      forall other: nat
        ensures Live(l'.messages, other) ==
          Live(l.messages, other) + if m.listing == other && m.status != FailedMessage then 1 else 0
      {
        LiveAppend(l.messages, m, other);
      }
    }
  }

  lemma {:induction false} BatchKeepsCap(b: Batch, start: seq<Message>, n: nat)
    requires n <= BatchLength(b) && Probed(b) && ValidFetch(start, b) && Capped(start)
    ensures var l := Turns(b, Start(start, b), n);
      && Capped(l.messages)
      && (forall k :: n <= k < |b.fetched| ==> Live(l.messages, b.fetched[k]) == Live(start, b.fetched[k]))
  {
    if n > 0 {
      BatchKeepsCap(b, start, n - 1);
      var r := Turns(b, Start(start, b), n - 1);
      if r.halt == Going {
        TurnKeepsCap(b, r, b.fetched[n - 1], b.probes[n - 1]);
      }
    }
  }

  // Batches of any campaigns, and commands between them.
  datatype Event = BatchEvent(batch: Batch) | CommandEvent(campaign: nat, command: Command)

  ghost predicate IsStep(board: Board, e: Event, board': Board) {
    match e
    case BatchEvent(b) =>
      Probed(b) && ValidFetch(board.messages, b) && AccountsUnique(b.accounts) && board' == RunBatch(board, b).0
    case CommandEvent(c, command) =>
      c in board.campaigns && board' == SetControl(board, c, Apply(board.campaigns[c].control, command))
  }

  ghost predicate IsRun(trace: seq<Board>, events: seq<Event>) {
    && |trace| == |events| + 1
    && forall i :: 0 <= i < |events| ==> IsStep(trace[i], events[i], trace[i + 1])
  }

  // A batch leaves the message table as it was, or as its turns leave it.
  lemma BatchMessages(board: Board, b: Batch)
    requires Probed(b)
    ensures var messages := RunBatch(board, b).0.messages;
      if Runnable(board, b.campaign) && b.accounts != []
      then messages == Turns(b, Start(board.messages, b), BatchLength(b)).messages
      else messages == board.messages
  {
  }

  /** Across sequential batches every (campaign, listing, step) has at most one outbound row and no
      listing ever has more than three queued or sent messages. */
  lemma {:induction false} RunKeepsCap(trace: seq<Board>, events: seq<Event>, n: nat)
    requires IsRun(trace, events) && n < |trace| && Capped(trace[0].messages)
    ensures Capped(trace[n].messages)
  {
    if n > 0 {
      RunKeepsCap(trace, events, n - 1);
      assert IsStep(trace[n - 1], events[n - 1], trace[n]);
      if events[n - 1].BatchEvent? {
        var b := events[n - 1].batch;
        BatchMessages(trace[n - 1], b);
        BatchKeepsCap(b, trace[n - 1].messages, BatchLength(b));
      }
    }
  }
}
