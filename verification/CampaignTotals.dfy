/** When a batch stops, read off its probes, and what that decides about the campaign's counters. */
module CampaignTotals {
  import opened Prelude
  import opened CampaignControl
  import opened CampaignRunner
  import opened CampaignRuns

  // ------------------------------------------------------------------ where a batch stops

  predicate Interrupts(b: Batch, p: Probe) {
    b.workflow.Some? && Interruption(p).Some?
  }

  // The messages accepted among the first k listings, if the loop gets that far.
  function Taken(b: Batch, k: nat): (n: nat)
    requires k <= BatchLength(b) && Probed(b)
    ensures n <= k
  {
    if k == 0 then 0
    else
      var p := b.probes[k - 1];
      Taken(b, k - 1) + if !p.blacklisted && p.renders && p.reply == Accepted then 1 else 0
  }

  // What happens to the loop at listing k, if it gets that far.
  function Stop(b: Batch, sims: seq<Sim>, k: nat): Halt
    requires k < BatchLength(b) && Probed(b)
  {
    var p := b.probes[k];
    if Interrupts(b, p) then Interrupted(Interruption(p).value)
    else if p.blacklisted then Going
    else if Taken(b, k) >= Capacity(sims, InitialQuotas(sims)) then OutOfQuota
    else if !p.renders then Crashed
    else if p.reply == NoCredit then CreditGone
    else Going
  }

  ghost predicate NoneStops(b: Batch, sims: seq<Sim>, n: nat)
    requires n <= BatchLength(b) && Probed(b)
  {
    forall k :: 0 <= k < n ==> Stop(b, sims, k) == Going
  }

  // Listing k is the first that stops the loop.
  ghost predicate FirstStop(b: Batch, sims: seq<Sim>, k: nat)
    requires k < BatchLength(b) && Probed(b)
  {
    NoneStops(b, sims, k) && Stop(b, sims, k) != Going
  }

  // While nothing stops it, the loop has sent what was taken and spent as much capacity.
  lemma {:induction false} LoopGoesOn(b: Batch, sims: seq<Sim>, board: Board, n: nat)
    requires n <= BatchLength(b) && Probed(b) && NoneStops(b, sims, n)
    ensures var l := Loops(b, sims, Start(board, sims), n);
      && l.halt == Going && l.sent == Taken(b, n)
      && Capacity(sims, l.quotas) == Capacity(sims, InitialQuotas(sims)) - Taken(b, n)
  {
    BatchIsLevelled(b, sims, board, n);
    if n > 0 {
      LoopGoesOn(b, sims, board, n - 1);
      var r := Loops(b, sims, Start(board, sims), n - 1);
      assert Stop(b, sims, n - 1) == Going;
      BestIsFullest(sims, r.quotas);
    }
  }

  /** The loop stops at the first listing whose probe stops it, for the reason read off the probes, and has
      then sent what was taken before. */
  lemma LoopStopsAt(b: Batch, sims: seq<Sim>, board: Board, k: nat)
    requires k < BatchLength(b) && Probed(b) && FirstStop(b, sims, k)
    ensures var l := Loops(b, sims, Start(board, sims), BatchLength(b));
      l.halt == Stop(b, sims, k) && l.sent == Taken(b, k)
  {
    LoopGoesOn(b, sims, board, k);
    var r := Loops(b, sims, Start(board, sims), k);
    BestIsFullest(sims, r.quotas);
    var l := Loops(b, sims, Start(board, sims), k + 1);
    assert l.halt == Stop(b, sims, k) && l.sent == Taken(b, k);
    HaltedEarly(b, sims, Start(board, sims), k + 1);
  }

  lemma {:induction false} SomeFirstStop(b: Batch, sims: seq<Sim>, n: nat) returns (k: nat)
    requires n <= BatchLength(b) && Probed(b) && !NoneStops(b, sims, n)
    ensures k < n && FirstStop(b, sims, k)
  {
    if NoneStops(b, sims, n - 1) {
      k := n - 1;
    } else {
      k := SomeFirstStop(b, sims, n - 1);
    }
  }

  /** The quota pause of a batch, read off its probes: it pauses for quota if and only if the first listing
      that stops it comes when the messages taken have spent the capacity of the active SIMs. */
  lemma QuotaPauseIff(b: Batch, sims: seq<Sim>, board: Board)
    requires Probed(b)
    ensures Loops(b, sims, Start(board, sims), BatchLength(b)).halt == OutOfQuota <==>
      exists k :: 0 <= k < BatchLength(b) && FirstStop(b, sims, k) && Stop(b, sims, k) == OutOfQuota
  {
    if NoneStops(b, sims, BatchLength(b)) {
      LoopGoesOn(b, sims, board, BatchLength(b));
    } else {
      var k := SomeFirstStop(b, sims, BatchLength(b));
      LoopStopsAt(b, sims, board, k);
    }
  }

  // ------------------------------------------------------------------ the campaign's counters

  lemma TurnCountsRows(b: Batch, sims: seq<Sim>, l: Loop, id: nat, p: Probe, c: nat)
    ensures var l' := Iterate(b, sims, l, id, p);
      RowsOf(l'.log, c) == RowsOf(l.log, c) + if c == b.campaign then l'.sent - l.sent else 0
  {
    var l' := Iterate(b, sims, l, id, p);
    if l'.log != l.log {
      RowsOfAppend(l.log, l'.log[|l.log|], c);
    }
  }

  lemma {:induction false} BatchCountsRows(b: Batch, sims: seq<Sim>, board: Board, n: nat, c: nat)
    requires n <= BatchLength(b) && Probed(b)
    ensures var l := Loops(b, sims, Start(board, sims), n);
      RowsOf(l.log, c) == RowsOf(board.log, c) + if c == b.campaign then l.sent else 0
  {
    if n > 0 {
      BatchCountsRows(b, sims, board, n - 1, c);
      var r := Loops(b, sims, Start(board, sims), n - 1);
      if r.halt == Going {
        TurnCountsRows(b, sims, r, b.fetched[n - 1], b.probes[n - 1], c);
      }
    }
  }

  ghost predicate CountsAgree(board: Board) {
    forall c :: c in board.campaigns ==> board.campaigns[c].sent == RowsOf(board.log, c)
  }

  /** The batch will lose its counters: it runs, and the first listing that stops it is one the template
      cannot render, after at least one message was taken. Read off the campaign and the probes. */
  ghost predicate LosesCounts(board: Board, b: Batch)
    requires Probed(b)
  {
    && b.inWindow && Runnable(board, b.campaign) && b.sims.Some?
    && exists k :: 0 <= k < BatchLength(b) && FirstStop(b, b.sims.value, k)
         && Stop(b, b.sims.value, k) == Crashed && Taken(b, k) > 0
  }

  /** A batch keeps `campaign.sent` equal to the accepted messages of each campaign if and only if it will
      not lose its counters: an exception raised by a template leaves before they are written. */
  lemma BatchKeepsCountsIff(board: Board, b: Batch)
    requires Probed(b) && CountsAgree(board)
    ensures CountsAgree(RunBatch(board, b).0) <==> !LosesCounts(board, b)
  {
    if b.inWindow && Runnable(board, b.campaign) && b.sims.Some? {
      var sims := b.sims.value;
      var l := Loops(b, sims, Start(board, sims), BatchLength(b));
      BatchGrowsLog(board, b);
      if NoneStops(b, sims, BatchLength(b)) {
        LoopGoesOn(b, sims, board, BatchLength(b));
      } else {
        var k := SomeFirstStop(b, sims, BatchLength(b));
        LoopStopsAt(b, sims, board, k);
      }
      if l.halt == Crashed {
        CountsAfterAbort(board, b, l);
      } else {
        CountsAfterClose(board, b, l);
      }
    } else {
      var board' := RunBatch(board, b).0;
      assert board'.log == board.log;
      assert forall c :: c in board'.campaigns ==>
        c in board.campaigns && board'.campaigns[c].sent == board.campaigns[c].sent;
    }
  }

  // The log of a batch grows by its sends, all of them the batch's campaign's.
  lemma BatchGrowsLog(board: Board, b: Batch)
    requires Probed(b) && b.sims.Some?
    ensures var l := Loops(b, b.sims.value, Start(board, b.sims.value), BatchLength(b));
      |l.log| == |board.log| + l.sent
      && forall c: nat :: RowsOf(l.log, c) == RowsOf(board.log, c) + if c == b.campaign then l.sent else 0
  {
    BatchIsLevelled(b, b.sims.value, board, BatchLength(b));
    forall c: nat
      ensures var l := Loops(b, b.sims.value, Start(board, b.sims.value), BatchLength(b));
        RowsOf(l.log, c) == RowsOf(board.log, c) + if c == b.campaign then l.sent else 0
    {
      BatchCountsRows(b, b.sims.value, board, BatchLength(b), c);
    }
  }

  lemma CountsAfterAbort(board: Board, b: Batch, l: Loop)
    requires CountsAgree(board) && b.campaign in board.campaigns
    requires forall c: nat :: RowsOf(l.log, c) == RowsOf(board.log, c) + if c == b.campaign then l.sent else 0
    ensures CountsAgree(Opened(board, b).(listings := l.listings, log := l.log)) <==> l.sent == 0
  {
    var after := Opened(board, b).(listings := l.listings, log := l.log);
    assert forall c :: c in after.campaigns <==> c in board.campaigns;
    assert forall c :: c in board.campaigns ==> after.campaigns[c].sent == board.campaigns[c].sent;
    assert board.campaigns[b.campaign].sent == RowsOf(board.log, b.campaign);
  }

  lemma CountsAfterClose(board: Board, b: Batch, l: Loop)
    requires CountsAgree(board) && b.campaign in board.campaigns
    requires forall c: nat :: RowsOf(l.log, c) == RowsOf(board.log, c) + if c == b.campaign then l.sent else 0
    ensures CountsAgree(Closed(Opened(board, b).(listings := l.listings, log := l.log), b, l))
  {
    var after := Closed(Opened(board, b).(listings := l.listings, log := l.log), b, l);
    assert forall c :: c in after.campaigns <==> c in board.campaigns;
    assert forall c :: c in board.campaigns ==>
      after.campaigns[c].sent == board.campaigns[c].sent + if c == b.campaign then l.sent else 0;
  }

  // No batch of the run loses its counters.
  ghost predicate NoneLosesCounts(trace: seq<Board>, events: seq<Event>)
    requires IsRun(trace, events)
  {
    forall i :: 0 <= i < |events| && events[i].BatchEvent? && Probed(events[i].batch) ==>
      !LosesCounts(trace[i], events[i].batch)
  }

  /** Over any such run `campaign.sent` is the number of accepted messages logged for the campaign. */
  lemma {:induction false} RunKeepsCounts(trace: seq<Board>, events: seq<Event>, n: nat)
    requires IsRun(trace, events) && n < |trace| && CountsAgree(trace[0]) && NoneLosesCounts(trace, events)
    ensures CountsAgree(trace[n])
  {
    if n > 0 {
      RunKeepsCounts(trace, events, n - 1);
      assert IsStep(trace[n - 1], events[n - 1], trace[n]);
      if events[n - 1].BatchEvent? {
        BatchKeepsCountsIff(trace[n - 1], events[n - 1].batch);
      }
    }
  }

  // A listing that is texted, then one whose empty title the template `{title[0]}` cannot render.
  const GOOD: Probe := Probe(Some(Running), Some(Running), false, 120, 0, true, Accepted, 0)
  const UNTITLED: Batch :=
    Batch(0, None, true, [0, 1], Some([Sim("s", true, None)]), [GOOD, GOOD.(renders := false)])
  const TWO: seq<Listing> := [Listing(Some("p"), None, Nouvelle), Listing(Some("q"), None, Nouvelle)]

  /** One message leaves, the second listing does not render, and the campaign still counts none. */
  lemma UntitledListingLosesCount()
    ensures var board := Board(TWO, [], map[0 := Campaign(Running, 0, 0)], map[]);
      ValidFetch(board, UNTITLED) && CountsAgree(board)
      && LosesCounts(board, UNTITLED) && !CountsAgree(RunBatch(board, UNTITLED).0)
  {
    var board := Board(TWO, [], map[0 := Campaign(Running, 0, 0)], map[]);
    var sims := UNTITLED.sims.value;
    assert sims[..0] == [] && InitialQuotas(sims) == map["s" := DEFAULT_QUOTA];
    assert Capacity(sims, InitialQuotas(sims)) == 15;
    assert Taken(UNTITLED, 0) == 0 && Taken(UNTITLED, 1) == 1;
    assert Stop(UNTITLED, sims, 0) == Going && Stop(UNTITLED, sims, 1) == Crashed;
    assert FirstStop(UNTITLED, sims, 1);
    BatchKeepsCountsIff(board, UNTITLED);
  }
}
