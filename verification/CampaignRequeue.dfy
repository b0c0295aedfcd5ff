/** The requeue loop of a campaign: a batch that leaves a backlog is followed by another. */
module CampaignRequeue {
  import opened Prelude
  import opened CampaignControl
  import opened CampaignRunner
  import opened CampaignRuns

  // Runs batches while run_campaign_task requeues the campaign; returns how many were run.
  function Requeue(board: Board, batches: seq<Batch>): (Board, nat)
    requires forall i :: 0 <= i < |batches| ==> Probed(batches[i])
    decreases |batches|
  {
    if batches == [] then (board, 0)
    else
      var (board', o) := RunBatch(board, batches[0]);
      if o == Deferred || (o.Done? && o.status == Running) then
        var (last, n) := Requeue(board', batches[1..]);
        (last, n + 1)
      else (board', 1)
  }

  // Listings a campaign can still text.
  function Backlog(board: Board, c: nat): nat {
    EligibleCount(board.listings, c, HasAssigned(board.listings, c))
  }

  // A batch in which nothing goes wrong: no interruption, no blacklisted phone, every message accepted.
  ghost predicate Smooth(b: Batch) {
    && b.inWindow && Probed(b)
    && forall i :: 0 <= i < BatchLength(b) ==> SmoothTurn(b, b.probes[i])
  }

  // The query returns every eligible listing up to its limit, and the SIMs can carry the batch.
  ghost predicate GoodBatch(board: Board, c: nat, b: Batch) {
    && b.campaign == c && Smooth(b) && ValidFetch(board, b)
    && |b.fetched| == (if Backlog(board, c) > BATCH_SIZE then BATCH_SIZE + 1 else Backlog(board, c))
    && b.sims.Some? && Capacity(b.sims.value, InitialQuotas(b.sims.value)) >= BatchLength(b)
  }

  ghost predicate AllGood(board: Board, c: nat, batches: seq<Batch>)
    decreases |batches|
  {
    batches != [] ==>
      && GoodBatch(board, c, batches[0])
      && AllGood(RunBatch(board, batches[0]).0, c, batches[1..])
  }

  lemma {:induction false} UpdateLowersCount(listings: seq<Listing>, id: nat, c: nat, owned: bool)
    requires id < |listings| && Eligible(listings[id], c, owned)
    ensures EligibleCount(listings[id := listings[id].(status := SmsEnvoye)], c, owned) ==
      EligibleCount(listings, c, owned) - 1
  {
    var n := |listings| - 1;
    var after := listings[id := listings[id].(status := SmsEnvoye)];
    if id < n {
      UpdateLowersCount(listings[..n], id, c, owned);
      assert after[..n] == listings[..n][id := listings[id].(status := SmsEnvoye)];
    } else {
      assert after[..n] == listings[..n];
    }
  }

  ghost predicate SmoothTurn(b: Batch, p: Probe) {
    !p.blacklisted && p.renders && p.reply == Accepted && (b.workflow.Some? ==> Interruption(p).None?)
  }

  lemma SmoothTurnSends(b: Batch, sims: seq<Sim>, l: Loop, id: nat, p: Probe, owned: bool)
    requires SmoothTurn(b, p) && Capacity(sims, l.quotas) > 0
    requires id < |l.listings| && Eligible(l.listings[id], b.campaign, owned)
    ensures var l' := Iterate(b, sims, l, id, p);
      && l'.halt == l.halt && l'.sent == l.sent + 1 && l'.failed == l.failed
      && l'.listings == l.listings[id := l.listings[id].(status := SmsEnvoye)]
      && EligibleCount(l'.listings, b.campaign, owned) == EligibleCount(l.listings, b.campaign, owned) - 1
  {
    BestIsFullest(sims, l.quotas);
    UpdateLowersCount(l.listings, id, b.campaign, owned);
  }

  // After n turns of a smooth batch: n messages, the rest of the batch untouched, the backlog down by n.
  ghost predicate SmoothAfter(b: Batch, board: Board, l: Loop, owned: bool, n: nat) {
    && l.halt == Going && l.sent == n && l.failed == 0
    && |l.listings| == |board.listings|
    && (forall i :: 0 <= i < |l.listings| ==> l.listings[i].campaign == board.listings[i].campaign)
    && (forall k :: n <= k < |b.fetched| && b.fetched[k] < |board.listings| ==>
      l.listings[b.fetched[k]] == board.listings[b.fetched[k]])
    && EligibleCount(l.listings, b.campaign, owned) == EligibleCount(board.listings, b.campaign, owned) - n
  }

  // One more message: the listings still to come are other rows.
  lemma SmoothStep(b: Batch, board: Board, r: Loop, l: Loop, owned: bool, n: nat)
    requires SmoothAfter(b, board, r, owned, n) && n < |b.fetched| && Distinct(b.fetched)
    requires var id := b.fetched[n];
      && id < |r.listings| && l.listings == r.listings[id := r.listings[id].(status := SmsEnvoye)]
      && l.halt == r.halt && l.sent == r.sent + 1 && l.failed == r.failed
      && EligibleCount(l.listings, b.campaign, owned) == EligibleCount(r.listings, b.campaign, owned) - 1
    ensures SmoothAfter(b, board, l, owned, n + 1)
  {
  }

  // While everything goes well each turn sends one message and removes one listing from the backlog.
  lemma {:induction false} SmoothLoop(b: Batch, sims: seq<Sim>, board: Board, owned: bool, n: nat)
    requires n <= BatchLength(b) && Smooth(b) && ValidFetch(board, b)
    requires owned == HasAssigned(board.listings, b.campaign)
    requires Capacity(sims, InitialQuotas(sims)) >= BatchLength(b)
    ensures SmoothAfter(b, board, Loops(b, sims, Start(board, sims), n), owned, n)
  {
    if n > 0 {
      SmoothLoop(b, sims, board, owned, n - 1);
      var r := Loops(b, sims, Start(board, sims), n - 1);
      BatchIsLevelled(b, sims, board, n - 1);
      assert SmoothTurn(b, b.probes[n - 1]);
      SmoothTurnSends(b, sims, r, b.fetched[n - 1], b.probes[n - 1], owned);
      SmoothStep(b, board, r, Loops(b, sims, Start(board, sims), n), owned, n - 1);
    }
  }

  // A good batch texts min(200, backlog) listings and completes exactly when no backlog is left.
  lemma GoodBatchProgress(board: Board, c: nat, b: Batch)
    requires Runnable(board, c) && GoodBatch(board, c, b)
    ensures var (board', o) := RunBatch(board, b);
      var done := if Backlog(board, c) > BATCH_SIZE then BATCH_SIZE else Backlog(board, c);
      && o == Done(if Backlog(board, c) > BATCH_SIZE then Running else Completed, done, 0)
      && Backlog(board', c) == Backlog(board, c) - done
      && c in board'.campaigns && board'.campaigns[c].status == o.status
      && board'.campaigns[c].sent == board.campaigns[c].sent + done
  {
    var sims := b.sims.value;
    var owned := HasAssigned(board.listings, c);
    SmoothLoop(b, sims, board, owned, BatchLength(b));
    var l := Loops(b, sims, Start(board, sims), BatchLength(b));
    SameAssignment(board.listings, l.listings, c);
  }

  lemma SameAssignment(a: seq<Listing>, b: seq<Listing>, c: nat)
    requires |a| == |b| && forall i :: 0 <= i < |a| ==> b[i].campaign == a[i].campaign
    ensures HasAssigned(b, c) == HasAssigned(a, c)
  {
    if HasAssigned(a, c) {
      var i :| 0 <= i < |a| && a[i].campaign == Some(c);
      assert b[i].campaign == Some(c);
    }
  }

  // The batches a backlog needs: max(1, ceil(n / 200)).
  function BatchesFor(n: nat): (r: nat)
    ensures r >= 1
  {
    if n == 0 then 1 else (n + BATCH_SIZE - 1) / BATCH_SIZE
  }

  /** Termination: with N eligible listings, every send accepted and enough quota, requeueing ends
      COMPLETED after exactly max(1, ceil(N / 200)) batches, having texted all N. */
  lemma {:induction false} RequeueTerminates(board: Board, c: nat, batches: seq<Batch>)
    requires Runnable(board, c) && (forall i :: 0 <= i < |batches| ==> Probed(batches[i])) && AllGood(board, c, batches)
    requires |batches| >= BatchesFor(Backlog(board, c))
    ensures var (last, n) := Requeue(board, batches);
      && n == BatchesFor(Backlog(board, c))
      && Backlog(last, c) == 0
      && c in last.campaigns && last.campaigns[c].status == Completed
      && last.campaigns[c].sent == board.campaigns[c].sent + Backlog(board, c)
    decreases |batches|
  {
    GoodBatchProgress(board, c, batches[0]);
    var (board', o) := RunBatch(board, batches[0]);
    if Backlog(board, c) > BATCH_SIZE {
      RequeueTerminates(board', c, batches[1..]);
    }
  }
}
