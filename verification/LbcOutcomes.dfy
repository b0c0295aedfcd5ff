/** What a Leboncoin batch reports and writes, read off the board, the batch and its commands; and which
    account a message goes to. */
module LbcOutcomes {
  import opened Prelude
  import opened CampaignControl
  import opened LbcMessaging
  import opened LbcRuns
  import opened LbcTotals

  // ------------------------------------------------------------------ the account

  /** Among the accounts with quota left and the fewest messages the first is chosen; none is chosen exactly
      when no account has quota left. */
  lemma {:induction false} FirstLeastUsedWins(accounts: seq<Account>, usage: map<AccountId, nat>)
    ensures var r := LeastUsed(accounts, usage);
      && (r.None? <==> forall i :: 0 <= i < |accounts| ==> Usage(usage, accounts[i].id) >= accounts[i].quota)
      && (r.Some? ==> exists i :: 0 <= i < |accounts| && accounts[i] == r.value && IsFirstLeast(accounts, usage, i))
  {
    if accounts != [] {
      var n := |accounts| - 1;
      FirstLeastUsedWins(accounts[..n], usage);
      LeastUsedIsMinimal(accounts[..n], usage);
      assert forall i :: 0 <= i < n ==> accounts[..n][i] == accounts[i];
      var before, r := LeastUsed(accounts[..n], usage), LeastUsed(accounts, usage);
      if r.Some? {
        if before.Some? && r == before {
          var i :| 0 <= i < n && accounts[..n][i] == r.value && IsFirstLeast(accounts[..n], usage, i);
          assert accounts[i] == r.value && IsFirstLeast(accounts, usage, i);
        } else {
          assert accounts[n] == r.value && IsFirstLeast(accounts, usage, n);
        }
      }
    }
  }

  // Account i has room, no account has fewer messages and room, and none before it has as few.
  ghost predicate IsFirstLeast(accounts: seq<Account>, usage: map<AccountId, nat>, i: nat)
    requires i < |accounts|
  {
    && HasRoom(usage, accounts[i])
    && (forall j :: 0 <= j < i && HasRoom(usage, accounts[j]) ==>
          Usage(usage, accounts[j].id) > Usage(usage, accounts[i].id))
    && (forall j :: i < j < |accounts| && HasRoom(usage, accounts[j]) ==>
          Usage(usage, accounts[j].id) >= Usage(usage, accounts[i].id))
  }

  /** Over any run of batches and commands from an empty table, no listing has more than three queued or sent
      messages, and no two rows share campaign, listing and step. */
  lemma AtMostThree(trace: seq<Board>, events: seq<Event>, n: nat, listing: nat)
    requires IsRun(trace, events) && n < |trace| && trace[0].messages == []
    ensures Live(trace[n].messages, listing) <= 3 && KeysUnique(trace[n].messages)
  {
    RunKeepsCap(trace, events, n);
  }

  // ------------------------------------------------------------------ failures

  // Listing k is written and not delivered, if the loop gets that far with room left.
  predicate Fails(b: Batch, messages: seq<Message>, k: nat)
    requires k < BatchLength(b) && Probed(b)
  {
    && HasText(b, messages, k) && b.probes[k].renders && !b.probes[k].delivered
    && !HasKey(messages, b.campaign, b.fetched[k], Live(messages, b.fetched[k]))
  }

  function Failures(b: Batch, messages: seq<Message>, n: nat): nat
    requires n <= BatchLength(b) && Probed(b)
  {
    if n == 0 then 0 else Failures(b, messages, n - 1) + if Fails(b, messages, n - 1) then 1 else 0
  }

  lemma TurnFails(b: Batch, start: seq<Message>, l: Loop, n: nat)
    requires n < BatchLength(b) && Probed(b) && AccountsUnique(b.accounts) && OnCourse(b, start, l, n)
    ensures Turn(b, l, b.fetched[n], b.probes[n]).failed ==
      l.failed + if Stop(b, start, n) == Going && Fails(b, start, n) then 1 else 0
  {
    TurnFollowsInputs(b, start, l, n);
    assert SameRows(start, l.messages, b.campaign, b.fetched[n]);
  }

  lemma {:induction false} FailuresOnCourse(b: Batch, start: seq<Message>, n: nat)
    requires n <= BatchLength(b) && Probed(b) && ValidFetch(start, b) && AccountsUnique(b.accounts)
    requires NoneStops(b, start, n)
    ensures Turns(b, Start(start, b), n).failed == Failures(b, start, n)
  {
    if n > 0 {
      FailuresOnCourse(b, start, n - 1);
      LoopGoesOn(b, start, n - 1);
      TurnFails(b, start, Turns(b, Start(start, b), n - 1), n - 1);
      assert Stop(b, start, n - 1) == Going;
    }
  }

  lemma FailuresAtStop(b: Batch, start: seq<Message>, k: nat)
    requires k < BatchLength(b) && Probed(b) && ValidFetch(start, b) && AccountsUnique(b.accounts)
    requires FirstStop(b, start, k)
    ensures Turns(b, Start(start, b), BatchLength(b)).failed == Failures(b, start, k)
  {
    LoopGoesOn(b, start, k);
    FailuresOnCourse(b, start, k);
    TurnFails(b, start, Turns(b, Start(start, b), k), k);
    TurnFollowsInputs(b, start, Turns(b, Start(start, b), k), k);
    StoppedEarly(b, Start(start, b), k + 1);
  }

  // ------------------------------------------------------------------ outcomes

  predicate Runs(board: Board, b: Batch) {
    b.campaign in board.campaigns && board.campaigns[b.campaign].control.campaign in {Pending, Running}
  }

  /** A batch of an unknown campaign, or of one that is neither PENDING nor RUNNING, changes nothing. One
      without any active account leaves the campaign PAUSED and its workflow FAILED. */
  lemma DoesNotStartIff(board: Board, b: Batch)
    requires Probed(b)
    ensures var (board', o) := RunBatch(board, b);
      && (o.NotFound? <==> b.campaign !in board.campaigns)
      && (o.NotRunnable? <==> b.campaign in board.campaigns && !Runs(board, b))
      && (!Runs(board, b) ==> board' == board)
      && (o.NoAccount? <==> Runs(board, b) && b.accounts == [])
      && (o.NoAccount? ==>
            board' == SetControl(board, b.campaign, Control(Paused, Failed)))
  {
  }

  // What the end of a batch writes to its campaign.
  ghost predicate Ends(board: Board, b: Batch, board': Board, control: Control, sent: nat, failed: nat)
    requires b.campaign in board.campaigns
  {
    var c := board.campaigns[b.campaign];
    board'.campaigns == board.campaigns[b.campaign := Campaign(control, c.sent + sent, c.failed + failed)]
  }

  /** A batch that nothing stops reports RUNNING when the query returned more than 25 listings and COMPLETED
      otherwise, unless a command issued after its last check left the campaign PAUSED or CANCELLED, which
      it then reports; it adds what it delivered and what failed. */
  lemma EndsWithoutStop(board: Board, b: Batch)
    requires Probed(b) && ValidFetch(board.messages, b) && AccountsUnique(b.accounts)
    requires Runs(board, b) && b.accounts != [] && NoneStops(b, board.messages, BatchLength(b))
    ensures var (board', o) := RunBatch(board, b);
      var left := After(After(RUNNING, Commands(b, BatchLength(b))), b.closing).campaign;
      var final := if left in {Paused, Cancelled} then left else if |b.fetched| > 25 then Running else Completed;
      && o == Done(final)
      && Ends(board, b, board', Control(final, final), Delivered(b, board.messages, BatchLength(b)),
              Failures(b, board.messages, BatchLength(b)))
  {
    LoopGoesOn(b, board.messages, BatchLength(b));
    FailuresOnCourse(b, board.messages, BatchLength(b));
  }

  /** A batch stopped at listing k pauses campaign and workflow when quotas are spent and fails both when a
      text does not render, in both cases without adding anything; interrupted, it reports what the commands
      left, as a batch that nothing stops does. */
  lemma EndsAtStop(board: Board, b: Batch, k: nat)
    requires Probed(b) && ValidFetch(board.messages, b) && AccountsUnique(b.accounts)
    requires Runs(board, b) && b.accounts != [] && k < BatchLength(b) && FirstStop(b, board.messages, k)
    ensures var (board', o) := RunBatch(board, b);
      match Stop(b, board.messages, k)
      case Going => false
      case OutOfQuota => o == QuotaPause && Ends(board, b, board', Control(Paused, Paused), 0, 0)
      case Crashed => o == Aborted && Ends(board, b, board', Control(Failed, Failed), 0, 0)
      case Stopped =>
        var left := After(After(RUNNING, Commands(b, k + 1)), b.closing).campaign;
        var final := if left in {Paused, Cancelled} then left else if |b.fetched| > 25 then Running else Completed;
        && o == Done(final)
        && Ends(board, b, board', Control(final, final), Delivered(b, board.messages, k),
                Failures(b, board.messages, k))
  {
    LoopStopsAt(b, board.messages, k);
    FailuresAtStop(b, board.messages, k);
  }
}
