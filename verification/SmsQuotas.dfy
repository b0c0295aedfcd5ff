/** The daily quota of every SIM, over whole runs of the follow-up engine. */
module SmsQuotas {
  import opened Prelude
  import opened SmsSequence

  // Outbound rows of a SIM within the day that starts at `from`.
  function DayCount(log: seq<LogRow>, sim: SimId, from: Time): nat {
    if log == [] then 0
    else
      var last := log[|log| - 1];
      DayCount(log[..|log| - 1], sim, from)
      + if last.sim == sim && last.direction == Outbound && from <= last.sentAt < from + DAY then 1 else 0
  }

  ghost predicate WithinQuota(log: seq<LogRow>, most: nat) {
    forall sim, from :: from % DAY == 0 ==> DayCount(log, sim, from) <= most
  }

  lemma {:induction false} DayCountBelowSince(log: seq<LogRow>, sim: SimId, from: Time, since: Time)
    requires since <= from
    ensures DayCount(log, sim, from) <= CountSince(log, sim, since)
  {
    if log != [] {
      DayCountBelowSince(log[..|log| - 1], sim, from, since);
    }
  }

  lemma CountAppend(log: seq<LogRow>, row: LogRow, sim: SimId, t: Time)
    ensures CountSince(log + [row], sim, t) ==
      CountSince(log, sim, t) + if row.sim == sim && row.direction == Outbound && row.sentAt >= t then 1 else 0
    ensures DayCount(log + [row], sim, t) ==
      DayCount(log, sim, t) + if row.sim == sim && row.direction == Outbound && t <= row.sentAt < t + DAY then 1 else 0
  {
    assert (log + [row])[..|log|] == log;
  }

  lemma LaterDay(now: Time, from: Time, at: Time)
    requires from % DAY == 0 && now <= at < from + DAY
    ensures DayStart(now) <= from
  {
    var a, b := from / DAY, now / DAY;
    assert from == a * DAY && DayStart(now) == b * DAY;
    assert a >= b;
  }

  lemma QuotaRowFits(log: seq<LogRow>, row: LogRow, now: Time, most: nat)
    requires WithinQuota(log, most) && row.sentAt >= now && row.direction == Outbound
    requires CountSince(log, row.sim, DayStart(now)) < most
    ensures WithinQuota(log + [row], most)
  {
    forall sim, from | from % DAY == 0 ensures DayCount(log + [row], sim, from) <= most {
      CountAppend(log, row, sim, from);
      assert DayCount(log, sim, from) <= most;
      if row.sim == sim && from <= row.sentAt < from + DAY {
        LaterDay(now, from, row.sentAt);
        CountAppend(log, row, sim, DayStart(now));
        DayCountBelowSince(log + [row], sim, from, DayStart(now));
      }
    }
  }

  lemma InboundRowFits(log: seq<LogRow>, row: LogRow, most: nat)
    requires WithinQuota(log, most) && row.direction == Inbound
    ensures WithinQuota(log + [row], most)
  {
    forall sim, from | from % DAY == 0 ensures DayCount(log + [row], sim, from) <= most {
      CountAppend(log, row, sim, from);
      assert DayCount(log, sim, from) <= most;
    }
  }

  /** Whoever else writes to the log, an engine send leaves its SIM within the campaign's quota for
      the current day. */
  lemma SendRespectsQuota(db: Db, now: Time, v: Visit)
    requires v.sequence < |db.sequences| && v.sentAt >= now && v.quota.Some?
    requires Process(db, now, v).db.log != db.log
    ensures var log := Process(db, now, v).db.log;
      && log[..|log| - 1] == db.log
      && CountSince(log, log[|log| - 1].sim, DayStart(now)) <= v.quota.value
  {
    var log := Process(db, now, v).db.log;
    var row := log[|log| - 1];
    assert log == db.log + [row];
    CountAppend(db.log, row, row.sim, DayStart(now));
    assert DayStart(now) <= now;
  }

  ghost predicate QuotasAtMost(e: Event, most: nat) {
    e.TickEvent? ==> forall i :: 0 <= i < |e.visits| ==> e.visits[i].quota.Some? ==> e.visits[i].quota.value <= most
  }

  lemma ProcessWithinQuota(db: Db, now: Time, v: Visit, most: nat)
    requires v.sequence < |db.sequences| && v.sentAt >= now && WithinQuota(db.log, most)
    requires v.quota.Some? ==> v.quota.value <= most
    ensures WithinQuota(Process(db, now, v).db.log, most)
  {
    var log := Process(db, now, v).db.log;
    if log != db.log {
      var row := log[|log| - 1];
      assert log == db.log + [row];
      QuotaRowFits(db.log, row, now, most);
    }
  }

  lemma {:induction false} VisitsWithinQuota(db: Db, now: Time, vs: seq<Visit>, most: nat)
    requires ValidPick(db, now, vs) && WithinQuota(db.log, most) && QuotasAtMost(TickEvent(now, 0, vs), most)
    ensures WithinQuota(Visits(db, now, vs).db.log, most)
  {
    if vs != [] {
      var n := |vs| - 1;
      assert ValidPick(db, now, vs[..n]);
      VisitsWithinQuota(db, now, vs[..n], most);
      var r := Visits(db, now, vs[..n]);
      if !r.aborted {
        ProcessWithinQuota(r.db, now, vs[n], most);
      }
    }
  }

  /** If only the engine sends, no SIM's count for any day ever exceeds the largest quota of any campaign. */
  lemma {:induction false} RunWithinQuota(trace: seq<State>, events: seq<Event>, most: nat, n: nat)
    requires IsRun(trace, events) && n < |trace| && trace[0].db == EMPTY
    requires forall i :: 0 <= i < |events| ==> QuotasAtMost(events[i], most)
    ensures WithinQuota(trace[n].db.log, most)
  {
    if n > 0 {
      RunWithinQuota(trace, events, most, n - 1);
      var db := trace[n - 1].db;
      match events[n - 1]
      case EnsureEvent(q) =>
      case TickEvent(now, _, vs) => VisitsWithinQuota(db, now, vs, most);
      case ReplyEvent(phone, sender, sim, kind, event, at) =>
        var from := if phone.Some? then phone.value else sender;
        InboundRowFits(db.log, LogRow(sim, from, Inbound, InboundKey(event), at), most);
      case StopEvent(_, _) =>
    }
  }
}
