/** Where a Leboncoin batch stops, read off its inputs: the room of its accounts, its probes, the message
    keys and the commands; and what that decides about its totals and its final status. */
module LbcTotals {
  import opened CampaignControl
  import opened LbcMessaging
  import opened LbcRuns

  // ------------------------------------------------------------------ room

  function Spare(usage: map<AccountId, nat>, a: Account): nat {
    if HasRoom(usage, a) then a.quota - Usage(usage, a.id) else 0
  }

  // How many more messages the accounts may send.
  function Room(accounts: seq<Account>, usage: map<AccountId, nat>): nat {
    if accounts == [] then 0
    else Room(accounts[..|accounts| - 1], usage) + Spare(usage, accounts[|accounts| - 1])
  }

  lemma {:induction false} OtherRoom(accounts: seq<Account>, usage: map<AccountId, nat>, id: AccountId, n: nat)
    requires forall i :: 0 <= i < |accounts| ==> accounts[i].id != id
    ensures Room(accounts, usage[id := n]) == Room(accounts, usage)
  {
    if accounts != [] {
      OtherRoom(accounts[..|accounts| - 1], usage, id, n);
    }
  }

  // A delivery takes one unit of room.
  lemma {:induction false} DeliveryTakesRoom(accounts: seq<Account>, usage: map<AccountId, nat>, a: Account)
    requires AccountsUnique(accounts) && a in accounts && HasRoom(usage, a)
    ensures Room(accounts, usage[a.id := Usage(usage, a.id) + 1]) == Room(accounts, usage) - 1
  {
    var n := |accounts| - 1;
    if accounts[n] == a {
      OtherRoom(accounts[..n], usage, a.id, Usage(usage, a.id) + 1);
    } else {
      assert a in accounts[..n];
      DeliveryTakesRoom(accounts[..n], usage, a);
    }
  }

  lemma {:induction false} NoRoomIff(accounts: seq<Account>, usage: map<AccountId, nat>)
    ensures LeastUsed(accounts, usage).None? <==> Room(accounts, usage) == 0
  {
    if accounts != [] {
      NoRoomIff(accounts[..|accounts| - 1], usage);
    }
  }

  // ------------------------------------------------------------------ where a batch stops

  // The commands issued before the check of listing n.
  function Commands(b: Batch, n: nat): seq<Command>
    requires n <= |b.probes|
  {
    if n == 0 then [] else Commands(b, n - 1) + b.probes[n - 1].commands
  }

  // The step of listing k has a text.
  predicate HasText(b: Batch, messages: seq<Message>, k: nat)
    requires k < BatchLength(b) && Probed(b)
  {
    Live(messages, b.fetched[k]) == 0 || b.probes[k].hasTemplate
  }

  // Listing k is messaged, if the loop gets that far with room left.
  predicate Delivers(b: Batch, messages: seq<Message>, k: nat)
    requires k < BatchLength(b) && Probed(b)
  {
    && HasText(b, messages, k) && b.probes[k].renders && b.probes[k].delivered
    && !HasKey(messages, b.campaign, b.fetched[k], Live(messages, b.fetched[k]))
  }

  function Delivered(b: Batch, messages: seq<Message>, n: nat): (r: nat)
    requires n <= BatchLength(b) && Probed(b)
    ensures r <= n
  {
    if n == 0 then 0 else Delivered(b, messages, n - 1) + if Delivers(b, messages, n - 1) then 1 else 0
  }

  // What happens to the loop at listing k, if it gets that far. `messages` is the table before the batch.
  function Stop(b: Batch, messages: seq<Message>, k: nat): Halt
    requires k < BatchLength(b) && Probed(b)
  {
    if Interrupting(Commands(b, k + 1)) then Stopped
    else if Delivered(b, messages, k) >= Room(b.accounts, b.usage) then OutOfQuota
    else if HasText(b, messages, k) && !b.probes[k].renders then Crashed
    else Going
  }

  ghost predicate NoneStops(b: Batch, messages: seq<Message>, n: nat)
    requires n <= BatchLength(b) && Probed(b)
  {
    forall k :: 0 <= k < n ==> Stop(b, messages, k) == Going
  }

  // Listing k is the first that stops the loop.
  ghost predicate FirstStop(b: Batch, messages: seq<Message>, k: nat)
    requires k < BatchLength(b) && Probed(b)
  {
    NoneStops(b, messages, k) && Stop(b, messages, k) != Going
  }

  lemma {:induction false} SomeFirstStop(b: Batch, messages: seq<Message>, n: nat) returns (k: nat)
    requires n <= BatchLength(b) && Probed(b) && !NoneStops(b, messages, n)
    ensures k < n && FirstStop(b, messages, k)
  {
    if NoneStops(b, messages, n - 1) {
      k := n - 1;
    } else {
      k := SomeFirstStop(b, messages, n - 1);
    }
  }

  // The rows of a listing read the same in both tables.
  ghost predicate SameRows(messages: seq<Message>, messages': seq<Message>, campaign: nat, listing: nat) {
    && Live(messages', listing) == Live(messages, listing)
    && forall step: nat :: HasKey(messages', campaign, listing, step) <==> HasKey(messages, campaign, listing, step)
  }

  lemma AddedRow(messages: seq<Message>, m: Message, campaign: nat, listing: nat)
    requires m.listing != listing
    ensures SameRows(messages, messages + [m], campaign, listing)
  {
    LiveAppend(messages, m, listing);
    forall step: nat
      ensures HasKey(messages + [m], campaign, listing, step) <==> HasKey(messages, campaign, listing, step)
    {
      KeyAppend(messages, m, campaign, listing, step);
    }
  }

  lemma KeyAppend(messages: seq<Message>, m: Message, campaign: nat, listing: nat, step: nat)
    ensures HasKey(messages + [m], campaign, listing, step) <==>
      HasKey(messages, campaign, listing, step) || (m.campaign == campaign && m.listing == listing && m.step == step)
  {
    var more := messages + [m];
    assert more[|messages|] == m;
    assert forall i :: 0 <= i < |messages| ==> more[i] == messages[i];
  }

  lemma TurnSparesOthers(b: Batch, l: Loop, listing: nat, p: Probe, other: nat)
    requires other != listing
    ensures SameRows(l.messages, Turn(b, l, listing, p).messages, b.campaign, other)
  {
    var l' := Turn(b, l, listing, p);
    if l'.messages != l.messages {
      var m := l'.messages[|l.messages|];
      assert l'.messages == l.messages + [m];
      AddedRow(l.messages, m, b.campaign, other);
    }
  }

  // The state of a loop that nothing has stopped in n turns.
  ghost predicate OnCourse(b: Batch, start: seq<Message>, l: Loop, n: nat)
    requires n <= BatchLength(b) && Probed(b)
  {
    && l.halt == Going && l.handled == n
    && l.sent == Delivered(b, start, n)
    && Room(b.accounts, l.usage) == Room(b.accounts, b.usage) - Delivered(b, start, n)
    && l.control == After(RUNNING, Commands(b, n))
    && forall k :: n <= k < |b.fetched| ==> SameRows(start, l.messages, b.campaign, b.fetched[k])
  }

  // The control under which listing n is checked.
  lemma TurnFollowsCommands(b: Batch, n: nat)
    requires n < BatchLength(b) && Probed(b)
    ensures After(After(RUNNING, Commands(b, n)), b.probes[n].commands) == After(RUNNING, Commands(b, n + 1))
    ensures After(RUNNING, Commands(b, n + 1)) == RUNNING <==> !Interrupting(Commands(b, n + 1))
  {
    AfterConcat(RUNNING, Commands(b, n), b.probes[n].commands);
    RunningUnlessInterrupted(Commands(b, n + 1));
  }

  // One turn, seen from the table before the batch.
  lemma TurnFollowsInputs(b: Batch, start: seq<Message>, l: Loop, n: nat)
    requires n < BatchLength(b) && Probed(b) && AccountsUnique(b.accounts) && OnCourse(b, start, l, n)
    ensures var l' := Turn(b, l, b.fetched[n], b.probes[n]);
      && l'.halt == Stop(b, start, n)
      && l'.control == After(RUNNING, Commands(b, n + 1))
      && (l'.halt != Going ==> l'.sent == l.sent && l'.handled == n)
      && (l'.halt == Going ==>
            && l'.handled == n + 1 && l'.sent == Delivered(b, start, n + 1)
            && Room(b.accounts, l'.usage) == Room(b.accounts, b.usage) - Delivered(b, start, n + 1))
  {
    TurnFollowsCommands(b, n);
    NoRoomIff(b.accounts, l.usage);
    var best := LeastUsed(b.accounts, l.usage);
    if best.Some? {
      DeliveryTakesRoom(b.accounts, l.usage, best.value);
    }
    assert SameRows(start, l.messages, b.campaign, b.fetched[n]);
  }

  lemma {:induction false} LoopGoesOn(b: Batch, start: seq<Message>, n: nat)
    requires n <= BatchLength(b) && Probed(b) && ValidFetch(start, b) && AccountsUnique(b.accounts)
    requires NoneStops(b, start, n)
    ensures OnCourse(b, start, Turns(b, Start(start, b), n), n)
  {
    if n > 0 {
      LoopGoesOn(b, start, n - 1);
      var r := Turns(b, Start(start, b), n - 1);
      TurnFollowsInputs(b, start, r, n - 1);
      forall k | n <= k < |b.fetched|
        ensures SameRows(start, Turns(b, Start(start, b), n).messages, b.campaign, b.fetched[k])
      {
        TurnSparesOthers(b, r, b.fetched[n - 1], b.probes[n - 1], b.fetched[k]);
        assert SameRows(start, r.messages, b.campaign, b.fetched[k]);
      }
    }
  }

  /** The loop stops at the first listing that stops it, for the reason read off the inputs, having
      delivered what was to be delivered before. */
  lemma LoopStopsAt(b: Batch, start: seq<Message>, k: nat)
    requires k < BatchLength(b) && Probed(b) && ValidFetch(start, b) && AccountsUnique(b.accounts)
    requires FirstStop(b, start, k)
    ensures var l := Turns(b, Start(start, b), BatchLength(b));
      && l.halt == Stop(b, start, k) && l.sent == Delivered(b, start, k) && l.handled == k
      && l.control == After(RUNNING, Commands(b, k + 1))
  {
    LoopGoesOn(b, start, k);
    TurnFollowsInputs(b, start, Turns(b, Start(start, b), k), k);
    StoppedEarly(b, Start(start, b), k + 1);
  }

  // ------------------------------------------------------------------ the totals

  // Sent messages of one campaign.
  function SentRows(messages: seq<Message>, campaign: nat): nat {
    if messages == [] then 0
    else
      var m := messages[|messages| - 1];
      SentRows(messages[..|messages| - 1], campaign) + if m.campaign == campaign && m.status == Sent then 1 else 0
  }

  lemma TurnCountsSent(b: Batch, l: Loop, listing: nat, p: Probe, c: nat)
    ensures var l' := Turn(b, l, listing, p);
      SentRows(l'.messages, c) == SentRows(l.messages, c) + if c == b.campaign then l'.sent - l.sent else 0
  {
    var l' := Turn(b, l, listing, p);
    if l'.messages != l.messages {
      assert l'.messages[..|l.messages|] == l.messages;
    }
  }

  lemma {:induction false} BatchCountsSent(b: Batch, start: seq<Message>, n: nat, c: nat)
    requires n <= BatchLength(b) && Probed(b)
    ensures var l := Turns(b, Start(start, b), n);
      SentRows(l.messages, c) == SentRows(start, c) + if c == b.campaign then l.sent else 0
  {
    if n > 0 {
      BatchCountsSent(b, start, n - 1, c);
      var r := Turns(b, Start(start, b), n - 1);
      if r.halt == Going {
        TurnCountsSent(b, r, b.fetched[n - 1], b.probes[n - 1], c);
      }
    }
  }

  ghost predicate TotalsAgree(board: Board) {
    forall c :: c in board.campaigns ==> board.campaigns[c].sent == SentRows(board.messages, c)
  }

  /** The batch will lose its totals: it runs, and the first listing that stops it finds no room left or has
      a text that does not render, after at least one delivery. Read off the board and the batch. */
  ghost predicate LosesTotals(board: Board, b: Batch)
    requires Probed(b)
  {
    && Runnable(board, b.campaign) && b.accounts != []
    && exists k :: 0 <= k < BatchLength(b) && FirstStop(b, board.messages, k)
         && Stop(b, board.messages, k) in {OutOfQuota, Crashed} && Delivered(b, board.messages, k) > 0
  }

  // Leaving before the totals are written keeps them right only when nothing was sent.
  lemma TotalsAfterExit(board: Board, c: nat, messages: seq<Message>, sent: nat, control: Control)
    requires TotalsAgree(board) && c in board.campaigns
    requires forall d: nat :: SentRows(messages, d) == SentRows(board.messages, d) + if d == c then sent else 0
    ensures TotalsAgree(SetControl(board.(messages := messages), c, control)) <==> sent == 0
  {
    var after := SetControl(board.(messages := messages), c, control);
    assert forall d :: d in after.campaigns <==> d in board.campaigns;
    assert forall d :: d in board.campaigns ==> after.campaigns[d].sent == board.campaigns[d].sent;
    assert board.campaigns[c].sent == SentRows(board.messages, c);
  }

  lemma TotalsAfterClose(board: Board, c: nat, messages: seq<Message>, sent: nat, campaign: Campaign)
    requires TotalsAgree(board) && c in board.campaigns && campaign.sent == board.campaigns[c].sent + sent
    requires forall d: nat :: SentRows(messages, d) == SentRows(board.messages, d) + if d == c then sent else 0
    ensures TotalsAgree(SetCampaign(board.(messages := messages), c, campaign))
  {
    var after := SetCampaign(board.(messages := messages), c, campaign);
    assert forall d :: d in after.campaigns <==> d in board.campaigns;
    assert forall d :: d in board.campaigns ==>
      after.campaigns[d].sent == board.campaigns[d].sent + if d == c then sent else 0;
  }

  // How the loop of a runnable batch ends.
  lemma BatchEnds(b: Batch, start: seq<Message>)
    requires Probed(b) && ValidFetch(start, b) && AccountsUnique(b.accounts)
    ensures var l := Turns(b, Start(start, b), BatchLength(b));
      (l.halt in {OutOfQuota, Crashed} && l.sent > 0) <==>
        exists k :: 0 <= k < BatchLength(b) && FirstStop(b, start, k)
          && Stop(b, start, k) in {OutOfQuota, Crashed} && Delivered(b, start, k) > 0
  {
    if NoneStops(b, start, BatchLength(b)) {
      LoopGoesOn(b, start, BatchLength(b));
    } else {
      var k := SomeFirstStop(b, start, BatchLength(b));
      LoopStopsAt(b, start, k);
    }
  }

  /** A batch keeps every campaign's sent total equal to its sent messages if and only if it will not lose
      its totals: exhausted quotas and exceptions both leave before they are written. */
  lemma BatchKeepsTotalsIff(board: Board, b: Batch)
    requires Probed(b) && ValidFetch(board.messages, b) && AccountsUnique(b.accounts) && TotalsAgree(board)
    ensures TotalsAgree(RunBatch(board, b).0) <==> !LosesTotals(board, b)
  {
    if Runnable(board, b.campaign) && b.accounts != [] {
      var l := Turns(b, Start(board.messages, b), BatchLength(b));
      var c := board.campaigns[b.campaign];
      forall d: nat
        ensures SentRows(l.messages, d) == SentRows(board.messages, d) + if d == b.campaign then l.sent else 0
      {
        BatchCountsSent(b, board.messages, BatchLength(b), d);
      }
      BatchEnds(b, board.messages);
      if l.halt == OutOfQuota {
        TotalsAfterExit(board, b.campaign, l.messages, l.sent, Control(Paused, Paused));
      } else if l.halt == Crashed {
        TotalsAfterExit(board, b.campaign, l.messages, l.sent, Control(Failed, Failed));
      } else {
        var final := FinalStatus(b, After(l.control, b.closing));
        TotalsAfterClose(board, b.campaign, l.messages, l.sent,
                         Campaign(Control(final, final), c.sent + l.sent, c.failed + l.failed));
      }
    } else {
      var board' := RunBatch(board, b).0;
      assert board'.messages == board.messages;
      assert forall d :: d in board'.campaigns ==>
        d in board.campaigns && board'.campaigns[d].sent == board.campaigns[d].sent;
    }
  }

  /** Over any run of batches and commands none of whose batches loses its totals, they stay right. */
  lemma {:induction false} RunKeepsTotals(trace: seq<Board>, events: seq<Event>, n: nat)
    requires IsRun(trace, events) && n < |trace| && TotalsAgree(trace[0])
    requires forall i :: 0 <= i < |events| && events[i].BatchEvent? && Probed(events[i].batch) ==>
      !LosesTotals(trace[i], events[i].batch)
    ensures TotalsAgree(trace[n])
  {
    if n > 0 {
      RunKeepsTotals(trace, events, n - 1);
      assert IsStep(trace[n - 1], events[n - 1], trace[n]);
      if events[n - 1].BatchEvent? {
        BatchKeepsTotalsIff(trace[n - 1], events[n - 1].batch);
      }
    }
  }

  // ------------------------------------------------------------------ completed early

  /** The batch will report COMPLETED with listings left: it holds the last of the backlog, the first
      listing that stops it is one before which somebody asked for a pause or a cancellation, and the
      commands up to the end of the batch take that back. Read off the board, the batch and its commands. */
  ghost predicate CompletesEarly(board: Board, b: Batch)
    requires Probed(b)
  {
    && Runnable(board, b.campaign) && b.accounts != [] && |b.fetched| <= BATCH_SIZE
    && exists k :: 0 <= k < BatchLength(b) && FirstStop(b, board.messages, k)
         && Stop(b, board.messages, k) == Stopped && After(RUNNING, Commands(b, k + 1) + b.closing) == TAKEN_BACK
  }

  lemma StillInterrupted(a: seq<Command>, b: seq<Command>)
    requires Interrupting(a)
    ensures Interrupting(a + b)
  {
    var i :| 0 <= i < |a| && (a[i].action == Pause || a[i].action == Cancel);
    assert (a + b)[i] == a[i];
  }

  // A batch that was interrupted is closed as COMPLETED exactly when the interruption was taken back.
  lemma ClosedAfterInterruption(b: Batch, history: seq<Command>)
    requires Interrupting(history)
    ensures FinalStatus(b, After(After(RUNNING, history), b.closing)) == Completed <==>
      |b.fetched| <= BATCH_SIZE && After(RUNNING, history + b.closing) == TAKEN_BACK
  {
    AfterConcat(RUNNING, history, b.closing);
    StillInterrupted(history, b.closing);
    RunningUnlessInterrupted(history + b.closing);
  }

  // Only one listing is the first to stop the loop.
  lemma FirstStopIsUnique(b: Batch, messages: seq<Message>, j: nat, k: nat)
    requires j < BatchLength(b) && k < BatchLength(b) && Probed(b)
    requires FirstStop(b, messages, j) && FirstStop(b, messages, k)
    ensures j == k
  {
  }

  lemma StoppedBatchIff(board: Board, b: Batch, k: nat)
    requires Probed(b) && ValidFetch(board.messages, b) && AccountsUnique(b.accounts)
    requires Runnable(board, b.campaign) && b.accounts != []
    requires k < BatchLength(b) && FirstStop(b, board.messages, k)
    ensures RunBatch(board, b).1 == Done(Completed) <==>
      && Stop(b, board.messages, k) == Stopped && |b.fetched| <= BATCH_SIZE
      && After(RUNNING, Commands(b, k + 1) + b.closing) == TAKEN_BACK
  {
    LoopStopsAt(b, board.messages, k);
    if Stop(b, board.messages, k) == Stopped {
      ClosedAfterInterruption(b, Commands(b, k + 1));
    }
  }

  lemma CompletedEarlyIff(board: Board, b: Batch)
    requires Probed(b) && ValidFetch(board.messages, b) && AccountsUnique(b.accounts)
    ensures var l := Turns(b, Start(board.messages, b), BatchLength(b));
      RunBatch(board, b).1 == Done(Completed) && l.handled < BatchLength(b) <==> CompletesEarly(board, b)
  {
    if NoneStops(b, board.messages, BatchLength(b)) {
      LoopGoesOn(b, board.messages, BatchLength(b));
    } else if Runnable(board, b.campaign) && b.accounts != [] {
      var k := SomeFirstStop(b, board.messages, BatchLength(b));
      LoopStopsAt(b, board.messages, k);
      StoppedBatchIff(board, b, k);
      forall j | 0 <= j < BatchLength(b) && FirstStop(b, board.messages, j) ensures j == k {
        FirstStopIsUnique(b, board.messages, j, k);
      }
    }
  }

  // ------------------------------------------------------------------ failing inputs

  const DELIVERED: Probe := Probe([], true, true, true)

  lemma NewListing(listing: nat)
    ensures Live([], listing) == 0 && forall step: nat :: !HasKey([], 0, listing, step)
  {
  }

  // Two new listings handed to one account.
  function TwoListings(quota: int, between: seq<Command>): Batch {
    Batch(0, [0, 1], [Account(0, quota)], map[], [DELIVERED, DELIVERED.(commands := between)], [])
  }

  lemma FirstOfTwo(quota: int, between: seq<Command>)
    requires quota >= 1
    ensures var b := TwoListings(quota, between);
      Room(b.accounts, b.usage) == quota && Stop(b, [], 0) == Going && Delivered(b, [], 1) == 1
      && Commands(b, 2) == between
  {
    var b := TwoListings(quota, between);
    assert b.accounts[..0] == [];
    NewListing(0);
    assert Commands(b, 0) == [] && b.probes[0].commands == [] && b.probes[1].commands == between;
    assert Commands(b, 1) == [];
    assert Commands(b, 2) == [] + between;
    assert Delivers(b, [], 0) && Delivered(b, [], 0) == 0;
  }

  /** One account with a quota of one: the first message leaves, the second finds no room, and the campaign
      still counts none. */
  lemma QuotaLosesTotal()
    ensures var b := TwoListings(1, []);
      var board := Board([], map[0 := Campaign(RUNNING, 0, 0)]);
      TotalsAgree(board) && LosesTotals(board, b) && !TotalsAgree(RunBatch(board, b).0)
  {
    var b := TwoListings(1, []);
    var board := Board([], map[0 := Campaign(RUNNING, 0, 0)]);
    FirstOfTwo(1, []);
    assert Stop(b, [], 1) == OutOfQuota && FirstStop(b, [], 1);
    BatchKeepsTotalsIff(board, b);
  }

  /** A pause and a resume during the first message: the second listing is dropped and the batch reports
      COMPLETED. */
  lemma ResumeCompletesEarly()
    ensures var b := TwoListings(15, [OnWorkflow(Pause), OnWorkflow(Resume)]);
      var board := Board([], map[0 := Campaign(RUNNING, 0, 0)]);
      CompletesEarly(board, b) && RunBatch(board, b).1 == Done(Completed)
  {
    var between := [OnWorkflow(Pause), OnWorkflow(Resume)];
    var b := TwoListings(15, between);
    var board := Board([], map[0 := Campaign(RUNNING, 0, 0)]);
    FirstOfTwo(15, between);
    PauseThenResume();
    assert Stop(b, [], 1) == Stopped && FirstStop(b, [], 1);
    assert Commands(b, 2) + b.closing == between;
    StoppedBatchIff(board, b, 1);
  }

  lemma PauseThenResume()
    ensures var between := [OnWorkflow(Pause), OnWorkflow(Resume)];
      Interrupting(between) && After(RUNNING, between) == TAKEN_BACK
  {
    var between := [OnWorkflow(Pause), OnWorkflow(Resume)];
    assert between[0].action == Pause;
    assert between[..1] == [OnWorkflow(Pause)] && [OnWorkflow(Pause)][..0] == [];
    assert After(RUNNING, []) == RUNNING;
    assert After(RUNNING, [OnWorkflow(Pause)]) == Control(Paused, Paused);
    assert After(RUNNING, between) == Apply(After(RUNNING, between[..1]), OnWorkflow(Resume));
  }
}
