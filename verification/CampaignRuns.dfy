/** What every batch and every run of batches keeps: fair and exact use of the SIM quotas, no listing
    texted twice, counters that agree with the log, spacing per SIM, and termination of requeueing. */
module CampaignRuns {
  import opened Prelude
  import opened CampaignRunner

  // ------------------------------------------------------------- total capacity

  predicate IsActive(sims: seq<Sim>, id: SimId) {
    exists i :: 0 <= i < |sims| && sims[i].active && sims[i].id == id
  }

  // The positive remaining quota of the active SIMs, each id counted once.
  function Capacity(sims: seq<Sim>, quotas: map<SimId, int>): nat {
    if sims == [] then 0
    else
      var n := |sims| - 1;
      var q := Quota(quotas, sims[n].id);
      Capacity(sims[..n], quotas)
      + if sims[n].active && !IsActive(sims[..n], sims[n].id) && q > 0 then q else 0
  }

  lemma ActivePrefix(sims: seq<Sim>, n: nat, id: SimId)
    requires n < |sims|
    ensures IsActive(sims[..n + 1], id) <==> IsActive(sims[..n], id) || (sims[n].active && sims[n].id == id)
  {
    if IsActive(sims[..n], id) {
      var i :| 0 <= i < n && sims[..n][i].active && sims[..n][i].id == id;
      assert sims[..n + 1][i] == sims[..n][i];
    }
    if IsActive(sims[..n + 1], id) {
      var i :| 0 <= i < n + 1 && sims[..n + 1][i].active && sims[..n + 1][i].id == id;
      assert i < n ==> sims[..n][i] == sims[..n + 1][i];
    }
    assert sims[..n + 1][n] == sims[n];
  }

  // Spending one unit of a SIM with remaining quota lowers the capacity by one.
  lemma {:induction false} SpendLowersCapacity(sims: seq<Sim>, quotas: map<SimId, int>, id: SimId)
    requires Quota(quotas, id) > 0
    ensures Capacity(sims, quotas[id := Quota(quotas, id) - 1]) ==
      Capacity(sims, quotas) - if IsActive(sims, id) then 1 else 0
  {
    if sims != [] {
      var n := |sims| - 1;
      SpendLowersCapacity(sims[..n], quotas, id);
      ActivePrefix(sims, n, id);
      assert sims[..n + 1] == sims;
    }
  }

  // The chosen SIM is active, has quota left, and no active SIM has more.
  lemma {:induction false} BestIsFullest(sims: seq<Sim>, quotas: map<SimId, int>)
    ensures var best := SelectBest(sims, quotas);
      && (best.Some? ==> IsActive(sims, best.value) && Quota(quotas, best.value) > 0)
      && (forall i :: 0 <= i < |sims| && sims[i].active ==>
            Quota(quotas, sims[i].id) <= if best.Some? then Quota(quotas, best.value) else 0)
    ensures SelectBest(sims, quotas).None? <==> Capacity(sims, quotas) == 0
  {
    if sims != [] {
      var n := |sims| - 1;
      BestIsFullest(sims[..n], quotas);
      forall i | 0 <= i < n ensures sims[i] == sims[..n][i] {}
      var best := SelectBest(sims, quotas);
      if best.Some? {
        ActivePrefix(sims, n, best.value);
      }
      assert sims[..n + 1] == sims;
      if IsActive(sims[..n], sims[n].id) {
        var i :| 0 <= i < n && sims[..n][i].active && sims[..n][i].id == sims[n].id;
        assert Quota(quotas, sims[i].id) == Quota(quotas, sims[n].id);
      }
    }
  }

  // ------------------------------------------------------------------ the batch

  // Rows of one SIM.
  function SentBy(rows: seq<SentRow>, sim: SimId): nat {
    if rows == [] then 0
    else SentBy(rows[..|rows| - 1], sim) + if rows[|rows| - 1].sim == sim then 1 else 0
  }

  lemma SentByAppend(rows: seq<SentRow>, row: SentRow, sim: SimId)
    ensures SentBy(rows + [row], sim) == SentBy(rows, sim) + if row.sim == sim then 1 else 0
  {
    assert (rows + [row])[..|rows|] == rows;
  }

  // Rows written since the batch started.
  function NewRows(l0: Loop, l: Loop): seq<SentRow>
    requires |l0.log| <= |l.log|
  {
    l.log[|l0.log|..]
  }

  /** At every point of a batch: the log only grows, each SIM's sends equal its initial minus its
      current quota, the remaining capacity accounts for every send, and every SIM used so far is
      within one of the fullest active SIM. */
  ghost predicate Levelled(sims: seq<Sim>, l0: Loop, l: Loop) {
    && l0.log <= l.log
    && |NewRows(l0, l)| == l.sent
    && (forall id :: SentBy(NewRows(l0, l), id) == Quota(l0.quotas, id) - Quota(l.quotas, id))
    && Capacity(sims, l.quotas) + l.sent == Capacity(sims, l0.quotas)
    && (forall u, t :: SentBy(NewRows(l0, l), u) > 0 && 0 <= t < |sims| && sims[t].active ==>
          Quota(l.quotas, sims[t].id) <= Quota(l.quotas, u) + 1)
  }

  lemma DeliverKeepsLevelled(b: Batch, sims: seq<Sim>, l0: Loop, l: Loop, id: nat, sim: SimId, p: Probe)
    requires Levelled(sims, l0, l) && SelectBest(sims, l.quotas) == Some(sim)
    ensures Levelled(sims, l0, Deliver(b, l, id, sim, p))
  {
    var l' := Deliver(b, l, id, sim, p);
    var row := SentRow(id, sim, b.campaign, p.sentAt);
    BestIsFullest(sims, l.quotas);
    SpendLowersCapacity(sims, l.quotas, sim);
    assert NewRows(l0, l') == NewRows(l0, l) + [row];
    forall s ensures SentBy(NewRows(l0, l'), s) == Quota(l0.quotas, s) - Quota(l'.quotas, s) {
      SentByAppend(NewRows(l0, l), row, s);
      assert SentBy(NewRows(l0, l), s) == Quota(l0.quotas, s) - Quota(l.quotas, s);
    }
    forall u, t | SentBy(NewRows(l0, l'), u) > 0 && 0 <= t < |sims| && sims[t].active
      ensures Quota(l'.quotas, sims[t].id) <= Quota(l'.quotas, u) + 1
    {
      SentByAppend(NewRows(l0, l), row, u);
      assert Quota(l.quotas, sims[t].id) <= Quota(l.quotas, sim);
      if u != sim {
        assert SentBy(NewRows(l0, l), u) > 0;
      }
    }
  }

  // A turn delivers a message, or leaves log, quotas and sends alone.
  ghost predicate TurnKind(b: Batch, sims: seq<Sim>, l: Loop, id: nat, p: Probe, l': Loop) {
    var best := SelectBest(sims, l.quotas);
    || (best.Some? && l' == Deliver(b, l, id, best.value, p))
    || (l'.log == l.log && l'.quotas == l.quotas && l'.sent == l.sent)
  }

  lemma IterateIsTurn(b: Batch, sims: seq<Sim>, l: Loop, id: nat, p: Probe)
    ensures TurnKind(b, sims, l, id, p, Iterate(b, sims, l, id, p))
  {
  }

  lemma TurnKeepsLevelled(b: Batch, sims: seq<Sim>, l0: Loop, l: Loop, id: nat, p: Probe, l': Loop)
    requires Levelled(sims, l0, l) && TurnKind(b, sims, l, id, p, l')
    ensures Levelled(sims, l0, l')
  {
    if l'.log == l.log && l'.quotas == l.quotas && l'.sent == l.sent {
      SameStandingIsLevelled(sims, l0, l, l');
    } else {
      DeliverKeepsLevelled(b, sims, l0, l, id, SelectBest(sims, l.quotas).value, p);
    }
  }

  lemma SameStandingIsLevelled(sims: seq<Sim>, l0: Loop, l: Loop, l': Loop)
    requires Levelled(sims, l0, l) && l'.log == l.log && l'.quotas == l.quotas && l'.sent == l.sent
    ensures Levelled(sims, l0, l')
  {
    assert NewRows(l0, l') == NewRows(l0, l);
  }

  lemma StartIsLevelled(sims: seq<Sim>, l0: Loop)
    requires l0.sent == 0
    ensures Levelled(sims, l0, l0)
  {
    assert NewRows(l0, l0) == [];
  }

  // A halted loop makes no further turns.
  lemma {:induction false} HaltedEarly(b: Batch, sims: seq<Sim>, l: Loop, n: nat)
    requires Probed(b) && n <= BatchLength(b)
    requires n == BatchLength(b) || Loops(b, sims, l, n).halt != Going
    ensures Loops(b, sims, l, BatchLength(b)) == Loops(b, sims, l, n)
    decreases BatchLength(b) - n
  {
    if n < BatchLength(b) {
      HaltedEarly(b, sims, l, n + 1);
    }
  }

  lemma {:induction false} HandledInStep(b: Batch, sims: seq<Sim>, board: Board, n: nat)
    requires n <= BatchLength(b) && Probed(b)
    ensures var l := Loops(b, sims, Start(board, sims), n);
      if l.halt == Going then l.handled == n else l.handled < n
  {
    if n > 0 {
      HandledInStep(b, sims, board, n - 1);
    }
  }

  lemma {:induction false} BatchIsLevelled(b: Batch, sims: seq<Sim>, board: Board, n: nat)
    requires n <= BatchLength(b) && Probed(b)
    ensures Levelled(sims, Start(board, sims), Loops(b, sims, Start(board, sims), n))
  {
    var l0 := Start(board, sims);
    if n == 0 {
      StartIsLevelled(sims, l0);
    } else {
      BatchIsLevelled(b, sims, board, n - 1);
      var r := Loops(b, sims, l0, n - 1);
      if r.halt == Going {
        var id, p := b.fetched[n - 1], b.probes[n - 1];
        IterateIsTurn(b, sims, r, id, p);
        TurnKeepsLevelled(b, sims, l0, r, id, p, Iterate(b, sims, r, id, p));
      }
    }
  }

  // Why the loop stopped tells how much capacity was left.
  lemma {:induction false} HaltTellsCapacity(b: Batch, sims: seq<Sim>, board: Board, n: nat)
    requires n <= BatchLength(b) && Probed(b)
    ensures var l := Loops(b, sims, Start(board, sims), n);
      && (l.halt == OutOfQuota ==> Capacity(sims, l.quotas) == 0)
      && (l.halt == CreditGone || l.halt == Crashed ==> Capacity(sims, l.quotas) > 0)
  {
    if n > 0 {
      HaltTellsCapacity(b, sims, board, n - 1);
      BestIsFullest(sims, Loops(b, sims, Start(board, sims), n - 1).quotas);
    }
  }

  /** A batch pauses for quota exactly when its sends equal the total positive quota of the active
      SIMs, listings remain, and no command interrupted it. */
  lemma PausesExactlyWhenSpent(b: Batch, sims: seq<Sim>, board: Board)
    requires Probed(b)
    ensures var l := Loops(b, sims, Start(board, sims), BatchLength(b));
      l.halt == OutOfQuota <==>
        l.sent == Capacity(sims, InitialQuotas(sims)) && l.handled < BatchLength(b) && !l.halt.Interrupted?
  {
    BatchIsLevelled(b, sims, board, BatchLength(b));
    HandledInStep(b, sims, board, BatchLength(b));
    HaltTellsCapacity(b, sims, board, BatchLength(b));
  }

  // ------------------------------------------------------- one text per listing

  ghost predicate TextedOnce(listings: seq<Listing>, log: seq<SentRow>) {
    && (forall i, j :: 0 <= i < j < |log| ==> log[i].listing != log[j].listing)
    && (forall i :: 0 <= i < |log| ==> log[i].listing < |listings| && listings[log[i].listing].status != Nouvelle)
  }

  // Accepted messages of a campaign.
  function RowsOf(log: seq<SentRow>, c: nat): nat {
    if log == [] then 0
    else RowsOf(log[..|log| - 1], c) + if log[|log| - 1].campaign == c then 1 else 0
  }

  lemma RowsOfAppend(log: seq<SentRow>, row: SentRow, c: nat)
    ensures RowsOf(log + [row], c) == RowsOf(log, c) + if row.campaign == c then 1 else 0
  {
    assert (log + [row])[..|log|] == log;
  }

  lemma {:induction false} BatchTextsOnce(b: Batch, sims: seq<Sim>, board: Board, n: nat)
    requires n <= BatchLength(b) && Probed(b) && ValidFetch(board, b) && TextedOnce(board.listings, board.log)
    ensures var l := Loops(b, sims, Start(board, sims), n);
      && TextedOnce(l.listings, l.log)
      && |l.listings| == |board.listings|
      && (forall i :: 0 <= i < |board.listings| ==>
            && l.listings[i].phone == board.listings[i].phone && l.listings[i].campaign == board.listings[i].campaign
            && (l.listings[i].status == board.listings[i].status || l.listings[i].status == SmsEnvoye))
      && (forall k :: n <= k < |b.fetched| ==> l.listings[b.fetched[k]] == board.listings[b.fetched[k]])
  {
    if n > 0 {
      BatchTextsOnce(b, sims, board, n - 1);
      var r := Loops(b, sims, Start(board, sims), n - 1);
      assert r.listings[b.fetched[n - 1]].status == Nouvelle;
      TurnTextsOnce(b, sims, r, b.fetched[n - 1], b.probes[n - 1]);
    }
  }

  // A turn texts its own listing at most, and only marks it.
  lemma TurnTextsOnce(b: Batch, sims: seq<Sim>, l: Loop, id: nat, p: Probe)
    requires TextedOnce(l.listings, l.log) && id < |l.listings| && l.listings[id].status == Nouvelle
    ensures var l' := Iterate(b, sims, l, id, p);
      TextedOnce(l'.listings, l'.log)
      && (l'.listings == l.listings || l'.listings == l.listings[id := l.listings[id].(status := SmsEnvoye)])
  {
  }

  // ------------------------------------------------------------- whole runs

  // Everything else in the system may add listings and campaigns and change statuses and phones, but
  // writes no row of the runner, no sent counter, and never makes a listing NOUVELLE again.
  ghost predicate OutsideOk(board: Board, board': Board) {
    && board'.log == board.log
    && |board.listings| <= |board'.listings|
    && (forall i :: 0 <= i < |board.listings| && board.listings[i].status != Nouvelle ==>
      board'.listings[i].status != Nouvelle)
    && (forall c :: c in board'.campaigns ==>
          board'.campaigns[c].sent == if c in board.campaigns then board.campaigns[c].sent else RowsOf(board.log, c))
  }

  datatype Event = BatchEvent(batch: Batch) | OutsideEvent(after: Board)

  ghost predicate IsStep(board: Board, e: Event, board': Board) {
    match e
    case BatchEvent(b) => Probed(b) && ValidFetch(board, b) && board' == RunBatch(board, b).0
    case OutsideEvent(after) => OutsideOk(board, after) && board' == after
  }

  ghost predicate IsRun(trace: seq<Board>, events: seq<Event>) {
    && |trace| == |events| + 1
    && forall i :: 0 <= i < |events| ==> IsStep(trace[i], events[i], trace[i + 1])
  }

  /** Over any run of batches, interleaved with anything else, no listing is texted twice. */
  lemma {:induction false} RunTextsOnce(trace: seq<Board>, events: seq<Event>, n: nat)
    requires IsRun(trace, events) && n < |trace| && TextedOnce(trace[0].listings, trace[0].log)
    ensures TextedOnce(trace[n].listings, trace[n].log)
  {
    if n > 0 {
      RunTextsOnce(trace, events, n - 1);
      assert IsStep(trace[n - 1], events[n - 1], trace[n]);
      var board := trace[n - 1];
      match events[n - 1]
      case BatchEvent(b) =>
        if b.inWindow && Runnable(board, b.campaign) && b.sims.Some? {
          BatchTextsOnce(b, b.sims.value, board, BatchLength(b));
        }
      case OutsideEvent(after) =>
        forall i | 0 <= i < |after.log|
          ensures after.log[i].listing < |after.listings| && after.listings[after.log[i].listing].status != Nouvelle {}
    }
  }

  // ------------------------------------------------------------------- spacing

  // The clock of a send: after every logged row, the computed delay is waited for, then the row is written.
  ghost predicate Timely(log: seq<SentRow>, sim: SimId, p: Probe) {
    && p.gap >= MIN_GAP
    && (forall i :: 0 <= i < |log| ==> log[i].at <= p.now)
    && p.sentAt >= p.now + Delay(p.gap, LastSent(log, sim), p.now) * SECOND
  }

  ghost predicate Spaced(log: seq<SentRow>) {
    forall i, j :: 0 <= i < j < |log| && log[i].sim == log[j].sim ==> log[j].at - log[i].at >= MIN_GAP * SECOND
  }

  lemma {:induction false} LastSentIsLatest(log: seq<SentRow>, sim: SimId)
    ensures var last := LastSent(log, sim);
      && (forall i :: 0 <= i < |log| && log[i].sim == sim ==> last.Some? && log[i].at <= last.value)
      && (last.Some? ==> exists i :: 0 <= i < |log| && log[i].sim == sim && log[i].at == last.value)
  {
    if log != [] {
      var n := |log| - 1;
      LastSentIsLatest(log[..n], sim);
      forall i | 0 <= i < n ensures log[i] == log[..n][i] {}
      var before := LastSent(log[..n], sim);
      if before.Some? {
        var i :| 0 <= i < n && log[..n][i].sim == sim && log[..n][i].at == before.value;
        assert log[i].at == before.value;
      }
    }
  }

  /** Despite the elapsed time being cut to whole seconds, a timely send is at least two minutes after
      the SIM's previous one. */
  lemma TimelySendIsSpaced(log: seq<SentRow>, row: SentRow, p: Probe)
    requires Spaced(log) && Timely(log, row.sim, p) && row.at == p.sentAt
    ensures Spaced(log + [row])
  {
    var more := log + [row];
    LastSentIsLatest(log, row.sim);
    forall i, j | 0 <= i < j < |more| && more[i].sim == more[j].sim
      ensures more[j].at - more[i].at >= MIN_GAP * SECOND
    {
      if j == |log| {
        var last := LastSent(log, row.sim).value;
        assert log[i].at <= last <= p.now;
        var elapsed := (p.now - last) / SECOND;
        assert elapsed * SECOND <= p.now - last;
        assert Delay(p.gap, Some(last), p.now) >= p.gap - elapsed;
      }
    }
  }

  // Every send of the batch follows the clock.
  ghost predicate TimelyBatch(b: Batch, sims: seq<Sim>, board: Board)
    requires Probed(b)
  {
    forall n :: 0 <= n < BatchLength(b) ==> TimelyAt(b, sims, board, n)
  }

  ghost predicate TimelyAt(b: Batch, sims: seq<Sim>, board: Board, n: nat)
    requires n < BatchLength(b) && Probed(b)
  {
    TimelyTurn(sims, Loops(b, sims, Start(board, sims), n), b.probes[n])
  }

  ghost predicate TimelyTurn(sims: seq<Sim>, l: Loop, p: Probe) {
    SelectBest(sims, l.quotas).Some? ==> Timely(l.log, SelectBest(sims, l.quotas).value, p)
  }

  lemma TurnIsSpaced(b: Batch, sims: seq<Sim>, l: Loop, id: nat, p: Probe)
    requires Spaced(l.log) && TimelyTurn(sims, l, p)
    ensures Spaced(Iterate(b, sims, l, id, p).log)
  {
    var best := SelectBest(sims, l.quotas);
    if best.Some? {
      TimelySendIsSpaced(l.log, SentRow(id, best.value, b.campaign, p.sentAt), p);
    }
  }

  lemma NextIsSpaced(b: Batch, sims: seq<Sim>, r: Loop, l: Loop, n: nat)
    requires n < BatchLength(b) && Probed(b) && Spaced(r.log) && TimelyTurn(sims, r, b.probes[n])
    requires l == if r.halt != Going then r else Iterate(b, sims, r, b.fetched[n], b.probes[n])
    ensures Spaced(l.log)
  {
    if r.halt == Going {
      TurnIsSpaced(b, sims, r, b.fetched[n], b.probes[n]);
    }
  }

  lemma {:induction false} BatchIsSpaced(b: Batch, sims: seq<Sim>, board: Board, n: nat)
    requires n <= BatchLength(b) && Probed(b) && Spaced(board.log) && TimelyBatch(b, sims, board)
    ensures Spaced(Loops(b, sims, Start(board, sims), n).log)
  {
    if n > 0 {
      var r := Loops(b, sims, Start(board, sims), n - 1);
      assert TimelyAt(b, sims, board, n - 1);
      BatchIsSpaced(b, sims, board, n - 1);
      NextIsSpaced(b, sims, r, Loops(b, sims, Start(board, sims), n), n - 1);
    }
  }

  ghost predicate TimelyEvent(board: Board, e: Event) {
    e.BatchEvent? && Probed(e.batch) && e.batch.sims.Some? ==> TimelyBatch(e.batch, e.batch.sims.value, board)
  }

  lemma StepIsSpaced(board: Board, e: Event, board': Board)
    requires IsStep(board, e, board') && Spaced(board.log) && TimelyEvent(board, e)
    ensures Spaced(board'.log)
  {
    if e.BatchEvent? && e.batch.inWindow && Runnable(board, e.batch.campaign) && e.batch.sims.Some? {
      BatchIsSpaced(e.batch, e.batch.sims.value, board, BatchLength(e.batch));
    }
  }

  /** Within sequential batches two sends from one SIM are at least 120 seconds apart. */
  lemma {:induction false} RunIsSpaced(trace: seq<Board>, events: seq<Event>, n: nat)
    requires IsRun(trace, events) && n < |trace| && Spaced(trace[0].log)
    requires forall i :: 0 <= i < |events| ==> TimelyEvent(trace[i], events[i])
    ensures Spaced(trace[n].log)
  {
    if n > 0 {
      RunIsSpaced(trace, events, n - 1);
      StepIsSpaced(trace[n - 1], events[n - 1], trace[n]);
    }
  }
}
