/** The batch sender in the form of the source: rows, quotas and counters updated inside one loop.
    Proved against the functions of CampaignRunner. */
module SmsCampaign {
  import opened Prelude
  import opened CampaignControl
  import opened CampaignRunner
  import opened CampaignRuns

  class CampaignStore {
    var listings: seq<Listing>
    var log: seq<SentRow>
    var campaigns: map<nat, Campaign>
    var workflows: map<nat, Workflow>

    function Rows(): Board
      reads this
    {
      Board(listings, log, campaigns, workflows)
    }

    constructor ()
      ensures Rows() == Board([], [], map[], map[])
    {
      listings, log, campaigns, workflows := [], [], map[], map[];
    }

    // The active SIM with the most remaining quota; ties go to the first in the provider's list.
    method SelectBestSim(sims: seq<Sim>, quotas: map<SimId, int>) returns (best: Option<SimId>)
      ensures best == SelectBest(sims, quotas)
    {
      best := None;
      var i := 0;
      while i < |sims|
        invariant 0 <= i <= |sims|
        invariant best == SelectBest(sims[..i], quotas)
      {
        assert sims[..i + 1][..i] == sims[..i];
        if sims[i].active && Quota(quotas, sims[i].id) > 0 {
          if best.None? || Quota(quotas, sims[i].id) > Quota(quotas, best.value) {
            best := Some(sims[i].id);
          }
        }
        i := i + 1;
      }
      assert sims[..|sims|] == sims;
    }

    // The sending loop over the fetched listings.
    method SendBatch(b: Batch, sims: seq<Sim>)
      returns (quotas: map<SimId, int>, handled: nat, sent: nat, failed: nat, halt: Halt)
      requires Probed(b)
      modifies this`listings, this`log
      ensures Loop(listings, log, quotas, handled, sent, failed, halt) ==
        Loops(b, sims, Start(old(Rows()), sims), BatchLength(b))
    {
      ghost var start := Start(Rows(), sims);
      quotas, handled, sent, failed, halt := InitialQuotas(sims), 0, 0, 0, Going;
      ghost var n := 0;
      while halt == Going && handled < BatchLength(b)
        invariant n <= BatchLength(b) && (halt == Going ==> n == handled)
        invariant Loop(listings, log, quotas, handled, sent, failed, halt) == Loops(b, sims, start, n)
        decreases BatchLength(b) - handled, halt == Going
      {
        var id, p := b.fetched[handled], b.probes[handled];
        n := n + 1;
        if b.workflow.Some? && Interruption(p).Some? {
          halt := Interrupted(Interruption(p).value);
        } else if p.blacklisted {
          handled := handled + 1;
        } else {
          var sim := SelectBestSim(sims, quotas);
          if sim.None? {
            halt := OutOfQuota;
          } else if !p.renders {
            halt := Crashed;
          } else {
            match p.reply {
              case Accepted =>
                sent := sent + 1;
                quotas := quotas[sim.value := Quota(quotas, sim.value) - 1];
                log := log + [SentRow(id, sim.value, b.campaign, p.sentAt)];
                if id < |listings| {
                  listings := listings[id := listings[id].(status := SmsEnvoye)];
                }
                handled := handled + 1;
              case Refused =>
                failed := failed + 1;
                handled := handled + 1;
              case NoCredit =>
                failed := failed + 1;
                halt := CreditGone;
              case Raised =>
                failed := failed + 1;
                handled := handled + 1;
            }
          }
        }
      }
      HaltedEarly(b, sims, start, n);
    }

    // Marks the campaign and its workflow as running.
    method Open(b: Batch)
      requires b.campaign in campaigns
      modifies this`campaigns, this`workflows
      ensures Rows() == Opened(old(Rows()), b)
    {
      campaigns := campaigns[b.campaign := campaigns[b.campaign].(status := Running)];
      if b.workflow.Some? && b.workflow.value in workflows {
        workflows := workflows[b.workflow.value := workflows[b.workflow.value].(status := Running)];
      }
    }

    // Adds the batch's counters and settles the status of the campaign and its workflow.
    method Close(b: Batch, halt: Halt, sent: nat, failed: nat, ghost l: Loop) returns (status: Status)
      requires b.campaign in campaigns && l.halt == halt && l.sent == sent && l.failed == failed
      modifies this`campaigns, this`workflows
      ensures Rows() == Closed(old(Rows()), b, l) && status == FinalStatus(halt, |b.fetched| > BATCH_SIZE)
    {
      status :=
        if halt.Interrupted? then halt.status
        else if halt == CreditGone then Failed
        else if halt == OutOfQuota then Paused
        else if |b.fetched| > BATCH_SIZE then Running
        else Completed;
      var c := campaigns[b.campaign];
      campaigns := campaigns[b.campaign := Campaign(status, c.sent + sent, c.failed + failed)];
      if b.workflow.Some? && b.workflow.value in workflows {
        var w := workflows[b.workflow.value];
        workflows := workflows[b.workflow.value := Workflow(status, w.progress + sent + failed, w.batches + 1)];
      }
    }

    method RunCampaign(b: Batch) returns (o: Outcome)
      requires Probed(b)
      modifies this
      ensures (Rows(), o) == RunBatch(old(Rows()), b)
    {
      if !b.inWindow {
        return Deferred;
      }
      if b.campaign !in campaigns {
        return NotFound;
      }
      if campaigns[b.campaign].status != Pending && campaigns[b.campaign].status != Running {
        return NotRunnable(campaigns[b.campaign].status);
      }
      Open(b);
      if b.sims.None? {
        return Aborted;
      }
      ghost var start := Start(Rows(), b.sims.value);
      assert start == Start(old(Rows()), b.sims.value);
      var quotas, handled, sent, failed, halt := SendBatch(b, b.sims.value);
      if halt == Crashed {
        return Aborted;
      }
      var status := Close(b, halt, sent, failed, Loop(listings, log, quotas, handled, sent, failed, halt));
      return Done(status, sent, failed);
    }
  }
}
