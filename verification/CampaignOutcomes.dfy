/** What a direct batch reports and writes, read off the campaign, the probes and the SIMs; and the exact
    choices inside its loop: quotas, ties and delays. */
module CampaignOutcomes {
  import opened Prelude
  import opened CampaignControl
  import opened CampaignRunner
  import opened CampaignRuns
  import opened CampaignTotals

  // ------------------------------------------------------------------ interruptions

  /** The interruption check reads PAUSED or CANCELLED off the campaign first and then off the workflow; a
      missing row counts as CANCELLED. */
  lemma InterruptionIff(p: Probe)
    ensures Interruption(p) == Some(Paused) <==>
      && p.campaignSeen.Some? && p.workflowSeen.Some?
      && (p.campaignSeen.value == Paused || (p.campaignSeen.value != Cancelled && p.workflowSeen.value == Paused))
    ensures Interruption(p) == Some(Cancelled) <==>
      || p.campaignSeen.None? || p.workflowSeen.None?
      || p.campaignSeen.value == Cancelled
      || (p.campaignSeen.value != Paused && p.workflowSeen.value == Cancelled)
    ensures Interruption(p) in {None, Some(Paused), Some(Cancelled)}
  {
  }

  // The check of listing k reads this status.
  ghost predicate InterruptedBy(b: Batch, k: nat, status: Status)
    requires k < BatchLength(b) && Probed(b)
  {
    b.workflow.Some? && Interruption(b.probes[k]) == Some(status)
  }

  // ------------------------------------------------------------------ counts over the probes

  // The messages refused, or raised on, among the first k listings.
  function Refusals(b: Batch, k: nat): nat
    requires k <= BatchLength(b) && Probed(b)
  {
    if k == 0 then 0
    else
      var p := b.probes[k - 1];
      Refusals(b, k - 1) + if !p.blacklisted && p.renders && (p.reply == Refused || p.reply == Raised) then 1 else 0
  }

  lemma {:induction false} RefusalsOnCourse(b: Batch, sims: seq<Sim>, board: Board, n: nat)
    requires n <= BatchLength(b) && Probed(b) && NoneStops(b, sims, n)
    ensures Loops(b, sims, Start(board, sims), n).failed == Refusals(b, n)
  {
    if n > 0 {
      RefusalsOnCourse(b, sims, board, n - 1);
      LoopGoesOn(b, sims, board, n - 1);
      var r := Loops(b, sims, Start(board, sims), n - 1);
      assert Stop(b, sims, n - 1) == Going;
      BestIsFullest(sims, r.quotas);
    }
  }

  lemma FailuresAtStop(b: Batch, sims: seq<Sim>, board: Board, k: nat)
    requires k < BatchLength(b) && Probed(b) && FirstStop(b, sims, k)
    ensures Loops(b, sims, Start(board, sims), BatchLength(b)).failed ==
      Refusals(b, k) + if Stop(b, sims, k) == CreditGone then 1 else 0
  {
    LoopGoesOn(b, sims, board, k);
    RefusalsOnCourse(b, sims, board, k);
    var r := Loops(b, sims, Start(board, sims), k);
    BestIsFullest(sims, r.quotas);
    HaltedEarly(b, sims, Start(board, sims), k + 1);
  }

  // ------------------------------------------------------------------ outcomes

  predicate Runs(board: Board, b: Batch) {
    && b.inWindow && b.campaign in board.campaigns
    && board.campaigns[b.campaign].status in {Pending, Running}
  }

  /** A batch does nothing at all exactly when it comes outside the window, or its campaign is unknown, or
      its campaign is neither PENDING nor RUNNING; and it says which. */
  lemma DoesNothingIff(board: Board, b: Batch)
    requires Probed(b)
    ensures var (board', o) := RunBatch(board, b);
      && (o.Deferred? <==> !b.inWindow)
      && (o.NotFound? <==> b.inWindow && b.campaign !in board.campaigns)
      && (o.NotRunnable? <==> b.inWindow && b.campaign in board.campaigns && !Runs(board, b))
      && (o.NotRunnable? ==> o.status == board.campaigns[b.campaign].status)
      && (!Runs(board, b) ==> board' == board)
  {
  }

  // What a batch that closes reports, and what it writes.
  ghost predicate Closes(board: Board, b: Batch, board': Board, o: Outcome, status: Status, sent: nat, failed: nat)
    requires b.campaign in board.campaigns
  {
    var c := board.campaigns[b.campaign];
    && o == Done(status, sent, failed)
    && board'.campaigns == board.campaigns[b.campaign := Campaign(status, c.sent + sent, c.failed + failed)]
    && (if b.workflow.Some? && b.workflow.value in board.workflows then
          var w := board.workflows[b.workflow.value];
          board'.workflows ==
            board.workflows[b.workflow.value := Workflow(status, w.progress + sent + failed, w.batches + 1)]
        else board'.workflows == board.workflows)
  }

  // A batch whose loop was not left by an exception closes with what the loop did.
  lemma ClosesWithLoop(board: Board, b: Batch, l: Loop)
    requires Probed(b) && Runs(board, b) && b.sims.Some?
    requires l == Loops(b, b.sims.value, Start(board, b.sims.value), BatchLength(b)) && l.halt != Crashed
    ensures var (board', o) := RunBatch(board, b);
      Closes(board, b, board', o, FinalStatus(l.halt, |b.fetched| > BATCH_SIZE), l.sent, l.failed)
  {
  }

  /** A batch that nothing stops reports RUNNING when the query returned more than 200 listings and
      COMPLETED otherwise, and adds the accepted and the refused messages to campaign and workflow. */
  lemma ClosesWithoutStop(board: Board, b: Batch)
    requires Probed(b) && Runs(board, b) && b.sims.Some? && NoneStops(b, b.sims.value, BatchLength(b))
    ensures var (board', o) := RunBatch(board, b);
      Closes(board, b, board', o, if |b.fetched| > 200 then Running else Completed,
             Taken(b, BatchLength(b)), Refusals(b, BatchLength(b)))
  {
    LoopGoesOn(b, b.sims.value, board, BatchLength(b));
    RefusalsOnCourse(b, b.sims.value, board, BatchLength(b));
    ClosesWithLoop(board, b, Loops(b, b.sims.value, Start(board, b.sims.value), BatchLength(b)));
  }

  /** A batch stopped at listing k reports the status its interruption reads, PAUSED for spent capacity and
      FAILED for a credit refusal, which counts as one more failure; an exception leaves before anything
      is written. */
  lemma ClosesAtStop(board: Board, b: Batch, k: nat)
    requires Probed(b) && Runs(board, b) && b.sims.Some?
    requires k < BatchLength(b) && FirstStop(b, b.sims.value, k)
    ensures var (board', o) := RunBatch(board, b);
      match Stop(b, b.sims.value, k)
      case Going => false
      case Interrupted(status) =>
        InterruptedBy(b, k, status) && Closes(board, b, board', o, status, Taken(b, k), Refusals(b, k))
      case OutOfQuota => Closes(board, b, board', o, Paused, Taken(b, k), Refusals(b, k))
      case CreditGone => Closes(board, b, board', o, Failed, Taken(b, k), Refusals(b, k) + 1)
      case Crashed => o == Aborted
  {
    LoopStopsAt(b, b.sims.value, board, k);
    FailuresAtStop(b, b.sims.value, board, k);
    var l := Loops(b, b.sims.value, Start(board, b.sims.value), BatchLength(b));
    if l.halt != Crashed {
      ClosesWithLoop(board, b, l);
    }
  }

  // The first listing that stops the batch does so for this reason.
  ghost predicate StopsFor(b: Batch, sims: seq<Sim>, halt: Halt)
    requires Probed(b)
  {
    exists k :: 0 <= k < BatchLength(b) && FirstStop(b, sims, k) && Stop(b, sims, k) == halt
  }

  ghost predicate Reports(o: Outcome, status: Status) {
    o.Done? && o.status == status
  }

  /** The status a batch reports, read off what first stops it: PAUSED for spent capacity or an interruption
      that reads PAUSED, FAILED for a credit refusal, CANCELLED for an interruption that reads so, RUNNING
      when nothing stops it and more than 200 listings were fetched, COMPLETED when nothing stops it and
      no more were. */
  lemma ReportIff(board: Board, b: Batch)
    requires Probed(b) && Runs(board, b) && b.sims.Some?
    ensures var o := RunBatch(board, b).1;
      var sims, done := b.sims.value, NoneStops(b, b.sims.value, BatchLength(b));
      && (Reports(o, Paused) <==> StopsFor(b, sims, OutOfQuota) || StopsFor(b, sims, Interrupted(Paused)))
      && (Reports(o, Failed) <==> StopsFor(b, sims, CreditGone))
      && (Reports(o, Cancelled) <==> StopsFor(b, sims, Interrupted(Cancelled)))
      && (Reports(o, Running) <==> done && |b.fetched| > 200)
      && (Reports(o, Completed) <==> done && |b.fetched| <= 200)
      && (o == Aborted <==> StopsFor(b, sims, Crashed))
  {
    var sims := b.sims.value;
    if NoneStops(b, sims, BatchLength(b)) {
      ClosesWithoutStop(board, b);
    } else {
      var k := SomeFirstStop(b, sims, BatchLength(b));
      ClosesAtStop(board, b, k);
      InterruptionIff(b.probes[k]);
      forall j | 0 <= j < BatchLength(b) && FirstStop(b, sims, j) ensures j == k {}
    }
  }

  // When the SIM list cannot be read the batch leaves campaign and workflow RUNNING.
  lemma NoSimList(board: Board, b: Batch)
    requires Probed(b) && Runs(board, b) && b.sims.None?
    ensures var (board', o) := RunBatch(board, b);
      && o == Aborted && board'.listings == board.listings && board'.log == board.log
      && board'.campaigns == board.campaigns[b.campaign := board.campaigns[b.campaign].(status := Running)]
  {
  }

  /** One SIM with a single message left and two listings: the campaign is PAUSED after one message. */
  lemma SpentQuotaPauses()
    ensures var b := UNTITLED.(probes := [GOOD, GOOD], sims := Some([Sim("s", true, Some(1))]));
      var board := Board(TWO, [], map[0 := Campaign(Running, 0, 0)], map[]);
      RunBatch(board, b).1 == Done(Paused, 1, 0)
  {
    var sims := [Sim("s", true, Some(1))];
    var b := UNTITLED.(probes := [GOOD, GOOD], sims := Some(sims));
    var board := Board(TWO, [], map[0 := Campaign(Running, 0, 0)], map[]);
    assert sims[..0] == [] && Capacity(sims, InitialQuotas(sims)) == 1;
    assert Taken(b, 0) == 0 && Taken(b, 1) == 1 && Refusals(b, 0) == 0 && Refusals(b, 1) == 0;
    assert Stop(b, sims, 0) == Going && Stop(b, sims, 1) == OutOfQuota && FirstStop(b, sims, 1);
    ClosesAtStop(board, b, 1);
  }

  // ------------------------------------------------------------------ inside the loop

  /** A SIM starts with the quota the provider reports, or 15 when it reports none; when an id is listed
      twice the last entry counts. */
  lemma {:induction false} StartsWithReported(sims: seq<Sim>, i: nat)
    requires i < |sims| && forall j :: i < j < |sims| ==> sims[j].id != sims[i].id
    ensures Quota(InitialQuotas(sims), sims[i].id) == if sims[i].quota.Some? then sims[i].quota.value else 15
  {
    var n := |sims| - 1;
    if i < n {
      StartsWithReported(sims[..n], i);
    }
  }

  /** Among the active SIMs with the most quota left the first in the provider's list is chosen. */
  lemma {:induction false} FirstFullestWins(sims: seq<Sim>, quotas: map<SimId, int>) returns (i: nat)
    requires SelectBest(sims, quotas).Some?
    ensures i < |sims| && SelectBest(sims, quotas) == Some(sims[i].id) && sims[i].active
    ensures forall j :: 0 <= j < i && sims[j].active ==> Quota(quotas, sims[j].id) < Quota(quotas, sims[i].id)
    ensures forall j :: i < j < |sims| && sims[j].active ==> Quota(quotas, sims[j].id) <= Quota(quotas, sims[i].id)
  {
    var n := |sims| - 1;
    BestIsFullest(sims[..n], quotas);
    if SelectBest(sims[..n], quotas).Some? {
      i := FirstFullestWins(sims[..n], quotas);
      if SelectBest(sims, quotas) != SelectBest(sims[..n], quotas) {
        i := n;
      }
    } else {
      i := n;
    }
  }

  /** The wait before a send makes the gap to the SIM's last send the random gap, within a second, and is
      none exactly when that gap has already passed; a SIM that never sent waits the whole gap, and so
      does one whose last send lies in the future. */
  lemma WaitIsExact(gap: int, last: Option<Time>, now: Time)
    requires gap >= 0
    ensures var wait := Delay(gap, last, now);
      && (last.None? || now < last.value ==> wait == gap)
      && (last.Some? && last.value <= now ==>
            && wait >= 0
            && (wait == 0 <==> now - last.value >= gap * SECOND)
            && (wait > 0 ==> gap * SECOND <= now + wait * SECOND - last.value < (gap + 1) * SECOND))
  {
  }

  /** A batch texts only listings that have a phone and are NOUVELLE, and only its own when any listing is
      assigned to its campaign. */
  lemma TextsOnlyEligible(board: Board, b: Batch, i: nat)
    requires Probed(b) && ValidFetch(board, b) && |board.log| <= i < |RunBatch(board, b).0.log|
    ensures var row := RunBatch(board, b).0.log[i];
      && row.campaign == b.campaign && row.listing < |board.listings|
      && board.listings[row.listing].phone.Some? && board.listings[row.listing].status == Nouvelle
      && ((exists l :: l in board.listings && l.campaign == Some(b.campaign)) ==>
            board.listings[row.listing].campaign == Some(b.campaign))
  {
    if Runs(board, b) && b.sims.Some? {
      RowsAreFetched(b, b.sims.value, board, BatchLength(b));
      assert RunBatch(board, b).0.log == Loops(b, b.sims.value, Start(board, b.sims.value), BatchLength(b)).log;
      if l :| l in board.listings && l.campaign == Some(b.campaign) {
        var j :| 0 <= j < |board.listings| && board.listings[j] == l;
        assert HasAssigned(board.listings, b.campaign);
      }
    }
  }

  lemma {:induction false} RowsAreFetched(b: Batch, sims: seq<Sim>, board: Board, n: nat)
    requires n <= BatchLength(b) && Probed(b)
    ensures var log := Loops(b, sims, Start(board, sims), n).log;
      && board.log <= log
      && forall i :: |board.log| <= i < |log| ==> log[i].campaign == b.campaign && log[i].listing in b.fetched
  {
    if n > 0 {
      RowsAreFetched(b, sims, board, n - 1);
      var r := Loops(b, sims, Start(board, sims), n - 1);
      if r.halt == Going {
        IterateIsTurn(b, sims, r, b.fetched[n - 1], b.probes[n - 1]);
      }
    }
  }
}
