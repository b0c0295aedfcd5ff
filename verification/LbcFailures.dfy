/** What a failed Leboncoin message does to its listing: it keeps the key of its step, so the campaign is
    blocked until a message of another campaign reaches the listing. */
module LbcFailures {
  import opened Prelude
  import opened CampaignControl
  import opened LbcMessaging
  import opened LbcRuns
  import opened LbcTotals

  /** A turn writes a row if and only if the campaign and its workflow still run, an account has room, the
      step has a text that renders, and the key is unused. */
  lemma TurnWritesIff(b: Batch, l: Loop, listing: nat, p: Probe)
    ensures var step := Live(l.messages, listing);
      Turn(b, l, listing, p).messages != l.messages <==>
        && After(l.control, p.commands) == RUNNING
        && (exists i :: 0 <= i < |b.accounts| && HasRoom(l.usage, b.accounts[i]))
        && (step == 0 || p.hasTemplate) && p.renders && !HasKey(l.messages, b.campaign, listing, step)
  {
    LeastUsedIsMinimal(b.accounts, l.usage);
    var best := LeastUsed(b.accounts, l.usage);
    if best.Some? {
      var i :| 0 <= i < |b.accounts| && b.accounts[i] == best.value;
      assert HasRoom(l.usage, b.accounts[i]);
    }
  }

  // The campaign already has a row for the listing's current step.
  ghost predicate Blocked(messages: seq<Message>, campaign: nat, listing: nat) {
    HasKey(messages, campaign, listing, Live(messages, listing))
  }

  /** A message that is written and not delivered leaves its listing blocked: it keeps the key of its step,
      and does not count as a step made. */
  lemma FailureBlocks(b: Batch, l: Loop, listing: nat, p: Probe)
    requires Turn(b, l, listing, p).messages != l.messages && !p.delivered
    ensures Blocked(Turn(b, l, listing, p).messages, b.campaign, listing)
  {
    var l' := Turn(b, l, listing, p);
    var m := l'.messages[|l.messages|];
    assert l'.messages == l.messages + [m];
    LiveAppend(l.messages, m, listing);
    KeyAppend(l.messages, m, b.campaign, listing, Live(l.messages, listing));
  }

  // ------------------------------------------------------------------ rows and steps

  // No row is of a step its listing has not reached.
  ghost predicate StepsReached(messages: seq<Message>) {
    forall i :: 0 <= i < |messages| ==> messages[i].step <= Live(messages, messages[i].listing)
  }

  // What a turn adds: nothing, or a row of the listing's current step.
  lemma TurnAdds(b: Batch, l: Loop, listing: nat, p: Probe)
    ensures var l' := Turn(b, l, listing, p);
      l'.messages == l.messages
      || exists m: Message :: m.campaign == b.campaign && m.listing == listing && m.step == Live(l.messages, listing)
           && !HasKey(l.messages, b.campaign, listing, m.step) && l'.messages == l.messages + [m]
  {
    var l' := Turn(b, l, listing, p);
    if l'.messages != l.messages {
      var m := l'.messages[|l.messages|];
      assert l'.messages == l.messages + [m];
    }
  }

  // How a table grows in a batch of one campaign.
  ghost predicate Grows(messages: seq<Message>, messages': seq<Message>, campaign: nat) {
    && messages <= messages'
    && (forall i :: |messages| <= i < |messages'| ==> messages'[i].campaign == campaign)
    && (StepsReached(messages) ==> StepsReached(messages'))
  }

  lemma RowGrows(start: seq<Message>, messages: seq<Message>, m: Message, campaign: nat)
    requires Grows(start, messages, campaign) && m.campaign == campaign && m.step == Live(messages, m.listing)
    ensures Grows(start, messages + [m], campaign)
  {
    var more := messages + [m];
    forall i | 0 <= i < |more| && StepsReached(messages) ensures more[i].step <= Live(more, more[i].listing) {
      LiveAppend(messages, m, more[i].listing);
      if i < |messages| {
        assert more[i] == messages[i];
      }
    }
  }

  lemma {:induction false} TurnsGrow(b: Batch, start: seq<Message>, n: nat)
    requires n <= BatchLength(b) && Probed(b)
    ensures Grows(start, Turns(b, Start(start, b), n).messages, b.campaign)
  {
    if n > 0 {
      TurnsGrow(b, start, n - 1);
      var r := Turns(b, Start(start, b), n - 1);
      var l' := Turns(b, Start(start, b), n);
      TurnAdds(b, r, b.fetched[n - 1], b.probes[n - 1]);
      if l'.messages != r.messages {
        RowGrows(start, r.messages, l'.messages[|r.messages|], b.campaign);
      }
    }
  }

  // ------------------------------------------------------------------ who is reached

  // One of the first n listings is this one, and it is messaged.
  ghost predicate ReachedBy(b: Batch, messages: seq<Message>, listing: nat, n: nat)
    requires n <= BatchLength(b) && Probed(b)
  {
    exists k :: 0 <= k < n && b.fetched[k] == listing && Delivers(b, messages, k)
  }

  lemma TurnReaches(b: Batch, start: seq<Message>, l: Loop, n: nat, listing: nat)
    requires n < BatchLength(b) && Probed(b) && AccountsUnique(b.accounts) && OnCourse(b, start, l, n)
    ensures var l' := Turn(b, l, b.fetched[n], b.probes[n]);
      Live(l'.messages, listing) == Live(l.messages, listing)
        + if b.fetched[n] == listing && Stop(b, start, n) == Going && Delivers(b, start, n) then 1 else 0
  {
    var l' := Turn(b, l, b.fetched[n], b.probes[n]);
    TurnFollowsInputs(b, start, l, n);
    assert SameRows(start, l.messages, b.campaign, b.fetched[n]);
    if l'.messages != l.messages {
      LiveAppend(l.messages, l'.messages[|l.messages|], listing);
    }
  }

  lemma ReachedNext(b: Batch, messages: seq<Message>, listing: nat, n: nat)
    requires 0 < n <= BatchLength(b) && Probed(b) && Distinct(b.fetched)
    ensures ReachedBy(b, messages, listing, n) <==>
      ReachedBy(b, messages, listing, n - 1) || (b.fetched[n - 1] == listing && Delivers(b, messages, n - 1))
    ensures !(ReachedBy(b, messages, listing, n - 1) && b.fetched[n - 1] == listing)
  {
  }

  lemma {:induction false} LiveOnCourse(b: Batch, start: seq<Message>, n: nat, listing: nat)
    requires n <= BatchLength(b) && Probed(b) && ValidFetch(start, b) && AccountsUnique(b.accounts)
    requires NoneStops(b, start, n)
    ensures Live(Turns(b, Start(start, b), n).messages, listing) ==
      Live(start, listing) + if ReachedBy(b, start, listing, n) then 1 else 0
  {
    if n > 0 {
      LiveOnCourse(b, start, n - 1, listing);
      LoopGoesOn(b, start, n - 1);
      TurnReaches(b, start, Turns(b, Start(start, b), n - 1), n - 1, listing);
      ReachedNext(b, start, listing, n);
    }
  }

  // The listing is messaged before anything stops the loop.
  ghost predicate Reaches(b: Batch, messages: seq<Message>, listing: nat)
    requires Probed(b)
  {
    exists k :: 0 <= k < BatchLength(b) && b.fetched[k] == listing
      && NoneStops(b, messages, k + 1) && Delivers(b, messages, k)
  }

  // A batch messages a listing with success; read off the board and the batch.
  ghost predicate DeliversTo(board: Board, b: Batch, listing: nat)
    requires Probed(b)
  {
    Runnable(board, b.campaign) && b.accounts != [] && Reaches(b, board.messages, listing)
  }

  lemma LiveWhenStopped(b: Batch, start: seq<Message>, k: nat, listing: nat)
    requires k < BatchLength(b) && Probed(b) && ValidFetch(start, b) && AccountsUnique(b.accounts)
    requires FirstStop(b, start, k)
    ensures Live(Turns(b, Start(start, b), BatchLength(b)).messages, listing) ==
      Live(start, listing) + if ReachedBy(b, start, listing, k) then 1 else 0
  {
    var r := Turns(b, Start(start, b), k);
    LoopGoesOn(b, start, k);
    LiveOnCourse(b, start, k, listing);
    TurnReaches(b, start, r, k, listing);
    TurnFollowsInputs(b, start, r, k);
    StoppedEarly(b, Start(start, b), k + 1);
  }

  lemma ReachedBeforeStop(b: Batch, start: seq<Message>, k: nat, listing: nat)
    requires k <= BatchLength(b) && Probed(b) && NoneStops(b, start, k)
    requires k < BatchLength(b) ==> FirstStop(b, start, k)
    ensures Reaches(b, start, listing) <==> ReachedBy(b, start, listing, k)
  {
    if j :| 0 <= j < k && b.fetched[j] == listing && Delivers(b, start, j) {
      assert NoneStops(b, start, j + 1);
    }
  }

  lemma BatchReaches(board: Board, b: Batch, listing: nat)
    requires Probed(b) && ValidFetch(board.messages, b) && AccountsUnique(b.accounts)
    ensures Live(RunBatch(board, b).0.messages, listing) ==
      Live(board.messages, listing) + if DeliversTo(board, b, listing) then 1 else 0
  {
    BatchMessages(board, b);
    if Runnable(board, b.campaign) && b.accounts != [] {
      if NoneStops(b, board.messages, BatchLength(b)) {
        LiveOnCourse(b, board.messages, BatchLength(b), listing);
        ReachedBeforeStop(b, board.messages, BatchLength(b), listing);
      } else {
        var k := SomeFirstStop(b, board.messages, BatchLength(b));
        LiveWhenStopped(b, board.messages, k, listing);
        ReachedBeforeStop(b, board.messages, k, listing);
      }
    }
  }

  // ------------------------------------------------------------------ how long a block lasts

  // A batch of the blocked campaign itself does not reach the listing.
  lemma OwnBatchSkips(board: Board, b: Batch, listing: nat)
    requires Probed(b) && Blocked(board.messages, b.campaign, listing)
    ensures !DeliversTo(board, b, listing)
  {
  }

  lemma PrefixKeepsKey(messages: seq<Message>, messages': seq<Message>, campaign: nat, listing: nat, step: nat)
    requires messages <= messages' && HasKey(messages, campaign, listing, step)
    ensures HasKey(messages', campaign, listing, step)
  {
    var i :| 0 <= i < |messages| && messages[i].campaign == campaign && messages[i].listing == listing
      && messages[i].step == step;
    assert messages'[i] == messages[i];
  }

  /** A batch leaves a blocked listing blocked if and only if it does not reach the listing: then the block
      ends at once. */
  lemma BatchUnblocksIff(board: Board, b: Batch, campaign: nat, listing: nat)
    requires Probed(b) && ValidFetch(board.messages, b) && AccountsUnique(b.accounts)
    requires StepsReached(board.messages) && Blocked(board.messages, campaign, listing)
    ensures StepsReached(RunBatch(board, b).0.messages)
    ensures Blocked(RunBatch(board, b).0.messages, campaign, listing) <==> !DeliversTo(board, b, listing)
  {
    var before, after := board.messages, RunBatch(board, b).0.messages;
    BatchReaches(board, b, listing);
    BatchMessages(board, b);
    TurnsGrow(b, before, BatchLength(b));
    var step := Live(before, listing);
    if !DeliversTo(board, b, listing) {
      PrefixKeepsKey(before, after, campaign, listing, step);
    } else {
      if b.campaign == campaign {
        OwnBatchSkips(board, b, listing);
      }
      assert forall i :: 0 <= i < |before| ==> after[i] == before[i];
    }
  }

  // A batch of another campaign messages the listing with success.
  ghost predicate Frees(board: Board, e: Event, campaign: nat, listing: nat) {
    e.BatchEvent? && Probed(e.batch) && e.batch.campaign != campaign && DeliversTo(board, e.batch, listing)
  }

  lemma StepUnblocksIff(board: Board, e: Event, board': Board, campaign: nat, listing: nat)
    requires IsStep(board, e, board')
    requires StepsReached(board.messages) && Blocked(board.messages, campaign, listing)
    ensures StepsReached(board'.messages)
    ensures Blocked(board'.messages, campaign, listing) <==> !Frees(board, e, campaign, listing)
    ensures !Frees(board, e, campaign, listing) ==> Live(board'.messages, listing) == Live(board.messages, listing)
  {
    if e.BatchEvent? {
      BatchUnblocksIff(board, e.batch, campaign, listing);
      BatchReaches(board, e.batch, listing);
      if e.batch.campaign == campaign {
        OwnBatchSkips(board, e.batch, listing);
      }
    }
  }

  /** Over any run of batches of any campaigns, a listing whose step has failed stays blocked for its
      campaign, in every state, if and only if no batch of another campaign reaches it. */
  lemma {:induction false} FailureLastsIff(trace: seq<Board>, events: seq<Event>, campaign: nat, listing: nat, n: nat)
    requires IsRun(trace, events) && n < |trace|
    requires StepsReached(trace[0].messages) && Blocked(trace[0].messages, campaign, listing)
    ensures (forall k :: 0 <= k <= n ==> Blocked(trace[k].messages, campaign, listing)) <==>
      (forall k :: 0 <= k < n ==> !Frees(trace[k], events[k], campaign, listing))
    ensures (forall k :: 0 <= k <= n ==> Blocked(trace[k].messages, campaign, listing)) ==>
      StepsReached(trace[n].messages) && Live(trace[n].messages, listing) == Live(trace[0].messages, listing)
  {
    if n > 0 {
      FailureLastsIff(trace, events, campaign, listing, n - 1);
      assert IsStep(trace[n - 1], events[n - 1], trace[n]);
      if forall k :: 0 <= k <= n - 1 ==> Blocked(trace[k].messages, campaign, listing) {
        assert Blocked(trace[n - 1].messages, campaign, listing);
        StepUnblocksIff(trace[n - 1], events[n - 1], trace[n], campaign, listing);
      } else {
        var k :| 0 <= k < n - 1 && Frees(trace[k], events[k], campaign, listing);
      }
    }
  }

  // ------------------------------------------------------------------ the block ends

  // One listing, one account, one delivered message.
  function OneMessage(campaign: nat): Batch {
    Batch(campaign, [7], [Account(0, 15)], map[], [DELIVERED], [])
  }

  lemma OneDelivery(board: Board, campaign: nat)
    requires Runnable(board, campaign) && !HasKey(board.messages, campaign, 7, Live(board.messages, 7))
    ensures var step := Live(board.messages, 7);
      RunBatch(board, OneMessage(campaign)).0.messages == board.messages + [Message(campaign, 7, step, 0, Sent)]
  {
    var b := OneMessage(campaign);
    var l := Start(board.messages, b);
    assert b.accounts[..0] == [] && LeastUsed(b.accounts, l.usage) == Some(Account(0, 15));
    assert Turns(b, l, 1) == Turn(b, Turns(b, l, 0), 7, DELIVERED);
  }

  /** Campaign 0 is blocked on a listing, campaign 1 reaches it, and campaign 0 messages it again. */
  lemma OtherCampaignFrees()
    ensures
      var board := Board([Message(0, 7, 0, 0, FailedMessage)],
                         map[0 := Campaign(RUNNING, 0, 0), 1 := Campaign(RUNNING, 0, 0)]);
      var between := RunBatch(board, OneMessage(1)).0;
      && Blocked(board.messages, 0, 7)
      && RunBatch(between, OneMessage(0)).0.messages ==
        board.messages + [Message(1, 7, 0, 0, Sent), Message(0, 7, 1, 0, Sent)]
  {
    var failed, other := Message(0, 7, 0, 0, FailedMessage), Message(1, 7, 0, 0, Sent);
    var board := Board([failed], map[0 := Campaign(RUNNING, 0, 0), 1 := Campaign(RUNNING, 0, 0)]);
    assert [failed] == [] + [failed];
    LiveAppend([], failed, 7);
    KeyAppend([], failed, 0, 7, 0);
    KeyAppend([], failed, 1, 7, 0);
    OneDelivery(board, 1);
    var between := RunBatch(board, OneMessage(1)).0;
    LiveAppend([failed], other, 7);
    KeyAppend([failed], other, 0, 7, 1);
    KeyAppend([], failed, 0, 7, 1);
    OneDelivery(between, 0);
    assert [failed] + [other] + [Message(0, 7, 1, 0, Sent)] == [failed] + [other, Message(0, 7, 1, 0, Sent)];
  }
}
