/** The Leboncoin sender in the form of the source: a row is queued, the message attempted, the row
    marked, and usage and counters updated inside one loop. Proved against LbcMessaging. */
module LbcSender {
  import opened Prelude
  import opened CampaignControl
  import opened LbcMessaging
  import opened LbcRuns

  predicate IsKeyOf(m: Message, campaign: nat, listing: nat, step: nat) {
    m.campaign == campaign && m.listing == listing && m.step == step
  }

  class MessageStore {
    var messages: seq<Message>
    var campaigns: map<nat, Campaign>

    function Rows(): Board
      reads this
    {
      Board(messages, campaigns)
    }

    constructor ()
      ensures Rows() == Board([], map[])
    {
      messages, campaigns := [], map[];
    }

    // Inserts a queued row unless its key exists.
    method QueueMessage(campaign: nat, listing: nat, step: nat, account: AccountId) returns (queued: bool)
      modifies this`messages
      ensures queued == !HasKey(old(messages), campaign, listing, step)
      ensures messages == if queued then old(messages) + [Message(campaign, listing, step, account, Queued)]
        else old(messages)
    {
      queued := !HasKey(messages, campaign, listing, step);
      if queued {
        messages := messages + [Message(campaign, listing, step, account, Queued)];
      }
    }

    // Updates the row with the key.
    method MarkMessage(campaign: nat, listing: nat, step: nat, mark: MessageStatus)
      modifies this`messages
      ensures |messages| == |old(messages)|
      ensures forall i :: 0 <= i < |messages| ==>
        messages[i] == if IsKeyOf(old(messages[i]), campaign, listing, step) then old(messages[i]).(status := mark)
          else old(messages[i])
    {
      var rows := messages;
      messages := seq(|rows|, i requires 0 <= i < |rows| =>
        if IsKeyOf(rows[i], campaign, listing, step) then rows[i].(status := mark) else rows[i]);
    }

    // The least used account with quota left; ties go to the first.
    method PickAccount(accounts: seq<Account>, usage: map<AccountId, nat>) returns (best: Option<Account>)
      ensures best == LeastUsed(accounts, usage)
    {
      best := None;
      var i := 0;
      while i < |accounts|
        invariant 0 <= i <= |accounts|
        invariant best == LeastUsed(accounts[..i], usage)
      {
        assert accounts[..i + 1][..i] == accounts[..i];
        if HasRoom(usage, accounts[i]) && (best.None? || Usage(usage, accounts[i].id) < Usage(usage, best.value.id)) {
          best := Some(accounts[i]);
        }
        i := i + 1;
      }
      assert accounts[..|accounts|] == accounts;
    }

    // Queues, attempts and marks one message.
    method SendOne(campaign: nat, listing: nat, step: nat, account: AccountId, delivered: bool) returns (queued: bool)
      modifies this`messages
      ensures queued == !HasKey(old(messages), campaign, listing, step)
      ensures messages ==
        if queued
        then old(messages) + [Message(campaign, listing, step, account, if delivered then Sent else FailedMessage)]
        else old(messages)
    {
      queued := QueueMessage(campaign, listing, step, account);
      if queued {
        MarkMessage(campaign, listing, step, if delivered then Sent else FailedMessage);
        assert messages == old(messages) +
          [Message(campaign, listing, step, account, if delivered then Sent else FailedMessage)];
      }
    }

    // The turn of one listing.
    method TakeTurn(b: Batch, listing: nat, p: Probe, l0: Loop) returns (l': Loop)
      requires l0.messages == messages && l0.halt == Going
      modifies this`messages
      ensures l' == Turn(b, l0, listing, p) && l'.messages == messages
    {
      var l := l0.(control := After(l0.control, p.commands));
      if l.control != RUNNING {
        return l.(halt := Stopped);
      }
      var account := PickAccount(b.accounts, l.usage);
      if account.None? {
        return l.(halt := OutOfQuota);
      }
      var step := Live(messages, listing);
      if step > 0 && !p.hasTemplate {
        return l.(handled := l.handled + 1);
      }
      if !p.renders {
        return l.(halt := Crashed);
      }
      var id := account.value.id;
      var queued := SendOne(b.campaign, listing, step, id, p.delivered);
      l' := l.(messages := messages, handled := l.handled + 1);
      if queued && p.delivered {
        l' := l'.(usage := l.usage[id := Usage(l.usage, id) + 1], sent := l.sent + 1);
      } else if queued {
        l' := l'.(failed := l.failed + 1);
      }
    }

    method SendBatch(b: Batch) returns (l: Loop)
      requires Probed(b)
      modifies this`messages
      ensures l == Turns(b, Start(old(messages), b), BatchLength(b)) && l.messages == messages
    {
      ghost var start := Start(messages, b);
      l := Loop(messages, b.usage, RUNNING, 0, 0, 0, Going);
      var n := 0;
      while l.halt == Going && n < BatchLength(b)
        invariant 0 <= n <= BatchLength(b) && l.messages == messages
        invariant l == Turns(b, start, n)
      {
        l := TakeTurn(b, b.fetched[n], b.probes[n], l);
        n := n + 1;
      }
      StoppedEarly(b, start, n);
    }

    // Writes the statuses of a campaign and its workflow.
    method MarkCampaign(campaign: nat, control: Control)
      requires campaign in campaigns
      modifies this`campaigns
      ensures Rows() == SetControl(old(Rows()), campaign, control)
    {
      campaigns := campaigns[campaign := campaigns[campaign].(control := control)];
    }

    // Settles the statuses and adds the batch's totals.
    method SettleCampaign(b: Batch, left: Control, sent: nat, failed: nat) returns (status: Status)
      requires b.campaign in campaigns
      modifies this`campaigns
      ensures status == FinalStatus(b, left)
      ensures var c := old(campaigns)[b.campaign];
        Rows() == SetCampaign(old(Rows()), b.campaign,
                              Campaign(Control(status, status), c.sent + sent, c.failed + failed))
    {
      status := if |b.fetched| > BATCH_SIZE then Running else Completed;
      if left.campaign == Paused || left.campaign == Cancelled {
        status := left.campaign;
      }
      var c := campaigns[b.campaign];
      campaigns := campaigns[b.campaign := Campaign(Control(status, status), c.sent + sent, c.failed + failed)];
    }

    method RunCampaignBatch(b: Batch) returns (o: Outcome)
      requires Probed(b)
      modifies this
      ensures (Rows(), o) == RunBatch(old(Rows()), b)
    {
      if b.campaign !in campaigns {
        return NotFound;
      }
      var c := campaigns[b.campaign];
      if c.control.campaign != Running && c.control.campaign != Pending {
        return NotRunnable;
      }
      if b.accounts == [] {
        MarkCampaign(b.campaign, Control(Paused, Failed));
        return NoAccount;
      }
      var l := SendBatch(b);
      if l.halt == OutOfQuota {
        MarkCampaign(b.campaign, Control(Paused, Paused));
        return QuotaPause;
      }
      if l.halt == Crashed {
        MarkCampaign(b.campaign, Control(Failed, Failed));
        return Aborted;
      }
      var status := SettleCampaign(b, After(l.control, b.closing), l.sent, l.failed);
      return Done(status);
    }
  }
}
