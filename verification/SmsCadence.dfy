/** When messages of a sequence may leave: the pace set by the delays of its campaign, and when a due
    date fails to move. */
module SmsCadence {
  import opened Prelude
  import opened SmsSequence
  import opened SmsSequenceRuns

  // How long after its creation each step of a sequence may leave at the earliest.
  ghost predicate IsPace(pace: seq<int>) {
    |pace| == STEPS && pace[0] <= 0 && forall i, j :: 0 <= i < j < STEPS ==> pace[i] <= pace[j]
  }

  // The step after the one about to be sent is scheduled, and not before its pace.
  predicate Paced(s: Sequence, followUp: seq<Template>, pace: seq<int>) {
    match FollowUpDue(s.step + 1, s.created, followUp)
    case Unschedulable => false
    case Due(at) => at.Some? && 0 <= s.step + 2 < |pace| ==> at.value >= s.created + pace[s.step + 2]
  }

  // The templates found when sequence `id` is visited keep its pace.
  ghost predicate KeepsPace(db: Db, e: Event, id: nat, pace: seq<int>)
    requires ValidEvent(db, e)
  {
    e.TickEvent? ==>
      forall i :: 0 <= i < |e.visits| && e.visits[i].sequence == id ==>
        Paced(db.sequences[id], e.visits[i].followUp, pace)
  }

  ghost predicate RowOnTime(db: Db, r: LogRow, id: nat, pace: seq<int>) {
    r.key.SequenceKey? ==>
      && r.key.sequence < |db.sequences|
      && (r.key.sequence == id ==>
            0 <= r.key.step < |pace| && r.sentAt >= db.sequences[id].created + pace[r.key.step])
  }

  ghost predicate DueOnTime(s: Sequence, pace: seq<int>) {
    s.status == Active && s.due.Some? && 0 <= s.step + 1 < |pace| ==> s.due.value >= s.created + pace[s.step + 1]
  }

  ghost predicate OnTime(db: Db, id: nat, pace: seq<int>) {
    && (id < |db.sequences| ==> DueOnTime(db.sequences[id], pace))
    && (forall i :: 0 <= i < |db.log| ==> RowOnTime(db, db.log[i], id, pace))
  }

  lemma ProcessOnTime(db: Db, now: Time, v: Visit, id: nat, pace: seq<int>)
    requires Inv(db) && IsPace(pace) && OnTime(db, id, pace)
    requires v.sequence < |db.sequences| && IsDue(db.sequences[v.sequence], now) && v.sentAt >= now
    requires v.sequence == id ==> Paced(db.sequences[id], v.followUp, pace)
    ensures OnTime(Process(db, now, v).db, id, pace)
  {
    var o := Process(db, now, v);
    ProcessKeepsInv(db, now, v);
    NextStepIsNew(db, v.sequence);
    assert RowOk(db, db.sequences[v.sequence]);
    forall i | 0 <= i < |o.db.log| ensures RowOnTime(o.db, o.db.log[i], id, pace) {
      if i < |db.log| {
        assert RowOnTime(db, db.log[i], id, pace);
      }
    }
  }

  lemma {:induction false} VisitsOnTime(db: Db, now: Time, vs: seq<Visit>, id: nat, pace: seq<int>)
    requires Inv(db) && IsPace(pace) && OnTime(db, id, pace) && ValidPick(db, now, vs)
    requires forall i :: 0 <= i < |vs| && vs[i].sequence == id ==> Paced(db.sequences[id], vs[i].followUp, pace)
    ensures OnTime(Visits(db, now, vs).db, id, pace)
  {
    if vs != [] {
      var n := |vs| - 1;
      LastVisit(db, now, vs);
      VisitsOnTime(db, now, vs[..n], id, pace);
      var r := Visits(db, now, vs[..n]);
      if !r.aborted {
        ProcessOnTime(r.db, now, vs[n], id, pace);
      }
    }
  }

  lemma StepOnTime(st: State, e: Event, id: nat, pace: seq<int>)
    requires Inv(st.db) && IsPace(pace) && OnTime(st.db, id, pace) && ValidEvent(st.db, e)
    requires KeepsPace(st.db, e, id, pace)
    ensures OnTime(Step(st, e).db, id, pace)
  {
    var db' := Step(st, e).db;
    StepKeepsInv(st, e);
    if e.TickEvent? {
      VisitsOnTime(st.db, e.now, e.visits, id, pace);
    } else {
      forall i | 0 <= i < |db'.log| ensures RowOnTime(db', db'.log[i], id, pace) {
        if i < |st.db.log| {
          OldRowOnTime(st.db, db', st.db.log[i], id, pace);
        }
      }
    }
  }

  lemma OldRowOnTime(db: Db, db': Db, r: LogRow, id: nat, pace: seq<int>)
    requires RowOnTime(db, r, id, pace) && |db.sequences| <= |db'.sequences|
    requires forall j :: 0 <= j < |db.sequences| ==> Evolves(db.sequences[j], db'.sequences[j])
    ensures RowOnTime(db', r, id, pace)
  {
    if r.key.SequenceKey? {
      assert Evolves(db.sequences[r.key.sequence], db'.sequences[r.key.sequence]);
    }
  }

  // In every state of a run that keeps the pace of a sequence, its rows and its due date are on time.
  lemma {:induction false} RunOnTime(trace: seq<State>, events: seq<Event>, n: nat, id: nat, pace: seq<int>)
    requires IsRun(trace, events) && n < |trace| && trace[0].db == EMPTY && IsPace(pace)
    requires forall i :: 0 <= i < |events| ==> KeepsPace(trace[i].db, events[i], id, pace)
    ensures OnTime(trace[n].db, id, pace)
  {
    if n > 0 {
      RunOnTime(trace, events, n - 1, id, pace);
      RunKeepsInv(trace, events, n - 1);
      assert ValidEvent(trace[n - 1].db, events[n - 1]) && trace[n] == Step(trace[n - 1], events[n - 1]);
      StepOnTime(trace[n - 1], events[n - 1], id, pace);
    }
  }

  // A message of sequence `id`.
  predicate IsMessage(r: LogRow, id: nat) {
    r.key.SequenceKey? && r.key.sequence == id
  }

  // Messages of a sequence sent no later than t.
  function MessagesBy(log: seq<LogRow>, id: nat, t: Time): nat {
    if log == [] then 0
    else
      var last := log[|log| - 1];
      MessagesBy(log[..|log| - 1], id, t)
      + if IsMessage(last, id) && last.sentAt <= t then 1 else 0
  }

  // When the steps of `id` are 0, 1, 2, ... and none beyond `last` was sent by t, at most last + 1 were.
  lemma {:induction false} FewMessages(log: seq<LogRow>, id: nat, t: Time, last: int)
    requires forall i :: 0 <= i < |LoggedSteps(log, id)| ==> LoggedSteps(log, id)[i] == i
    requires forall i :: 0 <= i < |log| && IsMessage(log[i], id) && log[i].sentAt <= t ==> log[i].key.step <= last
    ensures MessagesBy(log, id, t) <= |LoggedSteps(log, id)|
    ensures MessagesBy(log, id, t) <= if last < 0 then 0 else last + 1
  {
    if log != [] {
      var n := |log| - 1;
      var front := log[..n];
      assert front + [log[n]] == log;
      LoggedStepsAppend(front, log[n], id);
      forall i | 0 <= i < |LoggedSteps(front, id)| ensures LoggedSteps(front, id)[i] == i {
        assert LoggedSteps(log, id)[i] == LoggedSteps(front, id)[i];
      }
      FewMessages(front, id, t, last);
      if IsMessage(log[n], id) && log[n].sentAt <= t {
        var k := |LoggedSteps(front, id)|;
        assert LoggedSteps(log, id)[k] == log[n].key.step == k <= last;
      }
    }
  }

  /** A sequence whose visits keep a pace has sent at most k messages before step k may leave, and
      never more than eight. Nothing is asked of the visits of other sequences. */
  lemma PaceBound(trace: seq<State>, events: seq<Event>, n: nat, id: nat, pace: seq<int>, t: Time, k: nat)
    requires IsRun(trace, events) && n < |trace| && trace[0].db == EMPTY && id < |trace[n].db.sequences|
    requires IsPace(pace) && k < STEPS && t < trace[n].db.sequences[id].created + pace[k]
    requires forall i :: 0 <= i < |events| ==> KeepsPace(trace[i].db, events[i], id, pace)
    ensures MessagesBy(trace[n].db.log, id, t) <= k
  {
    var db := trace[n].db;
    RunKeepsInv(trace, events, n);
    RunOnTime(trace, events, n, id, pace);
    assert LoggedSteps(db.log, id) == ExpectedSteps(db, id);
    forall i | 0 <= i < |db.log| && IsMessage(db.log[i], id) && db.log[i].sentAt <= t
      ensures db.log[i].key.step <= k - 1
    {
      assert RowOnTime(db, db.log[i], id, pace);
    }
    FewMessages(db.log, id, t, k - 1);
  }

  lemma AtMostEight(trace: seq<State>, events: seq<Event>, n: nat, id: nat, t: Time)
    requires IsRun(trace, events) && n < |trace| && trace[0].db == EMPTY && id < |trace[n].db.sequences|
    ensures MessagesBy(trace[n].db.log, id, t) <= STEPS
  {
    var db := trace[n].db;
    RunKeepsInv(trace, events, n);
    assert RowOk(db, db.sequences[id]) && LoggedSteps(db.log, id) == ExpectedSteps(db, id);
    forall i | 0 <= i < |db.log| && IsMessage(db.log[i], id)
      ensures db.log[i].key.step <= STEPS - 1
    {
      assert HasKey(db.log, SequenceKey(id, db.log[i].key.step));
      HasKeyIsLogged(db.log, id, db.log[i].key.step);
    }
    FewMessages(db.log, id, t, STEPS - 1);
  }

  const WEEKLY: seq<int> := seq(STEPS, k => k * STEP_DELAY)

  // No template is enabled for the follow-up steps of sequence `id`.
  ghost predicate DefaultDelays(e: Event, id: nat) {
    e.TickEvent? ==> forall i :: 0 <= i < |e.visits| && e.visits[i].sequence == id ==> e.visits[i].followUp == []
  }

  lemma DefaultsKeepWeekly(db: Db, e: Event, id: nat)
    requires Inv(db) && ValidEvent(db, e) && DefaultDelays(e, id)
    ensures KeepsPace(db, e, id, WEEKLY)
  {
    if e.TickEvent? {
      forall i | 0 <= i < |e.visits| && e.visits[i].sequence == id
        ensures Paced(db.sequences[id], e.visits[i].followUp, WEEKLY)
      {
        assert RowOk(db, db.sequences[id]);
      }
    }
  }

  /** With the default delays a sequence has sent at most min(8, 1 + floor((t - created) / 7 days))
      messages by time t, and none before it was created. */
  lemma CadenceBound(trace: seq<State>, events: seq<Event>, n: nat, id: nat, t: Time)
    requires IsRun(trace, events) && n < |trace| && trace[0].db == EMPTY && id < |trace[n].db.sequences|
    requires forall i :: 0 <= i < |events| ==> DefaultDelays(events[i], id)
    ensures var created := trace[n].db.sequences[id].created;
      && MessagesBy(trace[n].db.log, id, t) <= 8
      && MessagesBy(trace[n].db.log, id, t) <= if t < created then 0 else 1 + (t - created) / STEP_DELAY
  {
    AtMostEight(trace, events, n, id, t);
    forall i | 0 <= i < |events| ensures KeepsPace(trace[i].db, events[i], id, WEEKLY) {
      RunKeepsInv(trace, events, i);
      DefaultsKeepWeekly(trace[i].db, events[i], id);
    }
    var created := trace[n].db.sequences[id].created;
    var k := if t < created then 0 else 1 + (t - created) / STEP_DELAY;
    if k < STEPS {
      assert WEEKLY[k] == k * STEP_DELAY;
      PaceBound(trace, events, n, id, WEEKLY, t, k);
    }
  }

  // The pace of a campaign whose step k waits `days[k]` days: a send time may fall up to a day earlier.
  function PaceOf(days: seq<int>): seq<int> {
    seq(|days|, k requires 0 <= k < |days| => if k == 0 then 0 else (days[k] - 1) * DAY)
  }

  ghost predicate IsPlan(days: seq<int>) {
    |days| == STEPS && days[1] >= 1 && forall i, j :: 1 <= i < j < STEPS ==> days[i] <= days[j]
  }

  // The one template found for the step after the next waits the planned number of days.
  predicate FollowsPlan(s: Sequence, followUp: seq<Template>, days: seq<int>) {
    0 <= s.step + 2 < |days| ==>
      |followUp| == 1 && followUp[0].delayDays == days[s.step + 2]
      && followUp[0].sendTime.Some? && followUp[0].sendTime.value >= 0
  }

  ghost predicate PlannedVisits(db: Db, e: Event, id: nat, days: seq<int>)
    requires ValidEvent(db, e)
  {
    e.TickEvent? ==>
      forall i :: 0 <= i < |e.visits| && e.visits[i].sequence == id ==>
        FollowsPlan(db.sequences[id], e.visits[i].followUp, days)
  }

  lemma PlanKeepsPace(s: Sequence, followUp: seq<Template>, days: seq<int>)
    requires IsPlan(days) && FollowsPlan(s, followUp, days) && -1 <= s.step <= 6
    ensures Paced(s, followUp, PaceOf(days))
  {
    if s.step + 2 < STEPS {
      var planned := s.created + days[s.step + 2] * DAY;
      assert DayStart(planned) > planned - DAY;
      assert PaceOf(days)[s.step + 2] == days[s.step + 2] * DAY - DAY;
    }
  }

  /** With one enabled template per step, a sequence has sent at most k messages until a day before the
      k-th template's delay has passed. */
  lemma TemplateCadence(trace: seq<State>, events: seq<Event>, n: nat, id: nat, days: seq<int>, t: Time, k: nat)
    requires IsRun(trace, events) && n < |trace| && trace[0].db == EMPTY && id < |trace[n].db.sequences|
    requires IsPlan(days) && 1 <= k < STEPS && t < trace[n].db.sequences[id].created + (days[k] - 1) * DAY
    requires forall i :: 0 <= i < |events| ==> PlannedVisits(trace[i].db, events[i], id, days)
    ensures MessagesBy(trace[n].db.log, id, t) <= k
  {
    var pace := PaceOf(days);
    forall i | 0 <= i < |events| ensures KeepsPace(trace[i].db, events[i], id, pace) {
      RunKeepsInv(trace, events, i);
      if events[i].TickEvent? {
        forall j | 0 <= j < |events[i].visits| && events[i].visits[j].sequence == id
          ensures Paced(trace[i].db.sequences[id], events[i].visits[j].followUp, pace)
        {
          assert PlannedVisits(trace[i].db, events[i], id, days);
          assert RowOk(trace[i].db, trace[i].db.sequences[id]);
          PlanKeepsPace(trace[i].db.sequences[id], events[i].visits[j].followUp, days);
        }
      }
    }
    assert pace[k] == (days[k] - 1) * DAY;
    PaceBound(trace, events, n, id, pace, t, k);
  }

  // The next step has at most one enabled template, and its send time can be read.
  predicate Schedulable(step: int, followUp: seq<Template>) {
    step + 1 >= STEPS || |followUp| == 0 || (|followUp| == 1 && followUp[0].sendTime.Some?)
  }

  /** A logged send moves the due date (or completes the sequence) exactly when the next step has a
      usable schedule; otherwise the sequence stays active and due, so the next message may leave at
      once, and the send is missing from the tick's `sent` counter. */
  lemma DueMovesIffSchedulable(db: Db, now: Time, v: Visit)
    requires Inv(db) && v.sequence < |db.sequences| && IsDue(db.sequences[v.sequence], now)
    requires Process(db, now, v).db.log != db.log
    ensures var o, before, step := Process(db, now, v), db.sequences[v.sequence], db.sequences[v.sequence].step + 1;
      && o.db.sequences[v.sequence].step == step
      && (Schedulable(step, v.followUp) <==> o.sent == 1)
      && (Schedulable(step, v.followUp) <==>
        FollowUpDue(step, before.created, v.followUp) == Due(o.db.sequences[v.sequence].due))
      && (!Schedulable(step, v.followUp) ==> IsDue(o.db.sequences[v.sequence], now))
  {
    NextStepIsNew(db, v.sequence);
  }

  // A single visit made inside the window.
  lemma OneVisit(db: Db, now: Time, v: Visit)
    requires v.sequence < |db.sequences|
    ensures Visits(db, now, [v]) ==
      var o := Process(db, now, v); Progress(o.db, o.wire, 1, o.sent, o.stopped, o.aborted)
  {
    assert [v][..0] == [];
    assert Visits(db, now, []) == Progress(db, [], 0, 0, 0, false);
    assert [] + Process(db, now, v).wire == Process(db, now, v).wire;
  }

  function LoneSequence(contact: nat): Sequence {
    Sequence(contact, 0, None, map[], -1, Some(0), Active, 0)
  }

  function AcceptedVisit(followUp: seq<Template>): Visit {
    Visit(0, Some(15), false, Some([Sim("s", true)]), map[], followUp, Accepted, 0)
  }

  // An accepted send of a lone sequence whose next step has two variants.
  lemma LoneSend(db: Db, v: Visit, t: Template)
    requires v == AcceptedVisit([t, t]) && db.contacts == [Contact("p", ContactActive)]
    requires |db.sequences| == 1 && -1 <= db.sequences[0].step < 6 && db.sequences[0].contact == 0
    requires !HasKey(db.log, SequenceKey(0, db.sequences[0].step + 1)) && CountSince(db.log, "s", 0) < 15
    ensures var step := db.sequences[0].step + 1;
      && Tick(db, 0, 9, [v]).db.log == db.log + [LogRow("s", "p", Outbound, SequenceKey(0, step), 0)]
      && Tick(db, 0, 9, [v]).db.contacts == db.contacts
      && Tick(db, 0, 9, [v]).db.sequences == [db.sequences[0].(step := step)]
  {
    OneVisit(db, 0, v);
    assert SimEligible(db.log, 0, 15, map[], Sim("s", true));
    assert FirstEligible(db.log, 0, 15, map[], v.sims.value) == Some("s");
    assert Process(db, 0, v) == Transmit(db, v, "s");
  }

  // Two enabled variants of step 1: both messages leave in the same instant.
  lemma TwoVariantsBurst(t: Template)
    ensures
      var v := AcceptedVisit([t, t]);
      var db0 := Db([Contact("p", ContactActive)], [LoneSequence(0)], []);
      var db1 := Tick(db0, 0, 9, [v]).db;
      ValidPick(db0, 0, [v]) && ValidPick(db1, 0, [v]) && MessagesBy(Tick(db1, 0, 9, [v]).db.log, 0, 0) == 2
  {
    var v := AcceptedVisit([t, t]);
    var db0 := Db([Contact("p", ContactActive)], [LoneSequence(0)], []);
    LoneSend(db0, v, t);
    var db1 := Tick(db0, 0, 9, [v]).db;
    var row0, row1 := LogRow("s", "p", Outbound, SequenceKey(0, 0), 0),
      LogRow("s", "p", Outbound, SequenceKey(0, 1), 0);
    assert db1.log == [row0] && [row0][..0] == [];
    assert CountSince([row0], "s", 0) == 1;
    LoneSend(db1, v, t);
    assert ([row0] + [row1])[..1] == [row0];
    assert MessagesBy([row0], 0, 0) == 1;
  }
}
