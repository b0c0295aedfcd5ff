/** Exact due dates, and what they give over runs: with the default delays a sequence that is served at
    its due dates has sent exactly what the calendar says. */
module SmsDues {
  import opened Prelude
  import opened SmsSequence
  import opened SmsSequenceRuns
  import opened SmsCadence
  import opened SmsWire

  /** The due date left by an accepted message of step k: without a template for the next step exactly
      7 (k + 1) days after creation; with one readable template its send time on the day its delay falls
      on; none after step 7, which completes the sequence; and the old one when the next step cannot be
      scheduled. */
  lemma DueAfterSend(db: Db, now: Time, v: Visit)
    requires Inv(db) && v.sequence < |db.sequences| && IsDue(db.sequences[v.sequence], now) && Accepts(db, now, v)
    ensures var before, after := db.sequences[v.sequence], Process(db, now, v).db.sequences[v.sequence];
      var k := before.step + 1;
      && after.step == k && after.created == before.created
      && (k == 7 ==> after.due == None && after.status == Completed)
      && (k < 7 ==> after.status == Active)
      && (k < 7 && v.followUp == [] ==> after.due == Some(before.created + 7 * (k + 1) * DAY))
      && (k < 7 && |v.followUp| == 1 && v.followUp[0].sendTime.Some? ==>
            IsSendTimeOn(after.due, v.followUp[0].sendTime.value, before.created + v.followUp[0].delayDays * DAY))
      && (k < 7 && !Schedulable(k, v.followUp) ==> after.due == before.due)
  {
    NextStepIsNew(db, v.sequence);
    assert RowOk(db, db.sequences[v.sequence]);
    var sim := FirstEligible(db.log, now, v.quota.value, v.allowed, v.sims.value).value;
    assert Process(db, now, v) == Transmit(db, v, sim);
  }

  // `due` is `sendTime` after the midnight that starts the day of `instant`.
  ghost predicate IsSendTimeOn(due: Option<Time>, sendTime: int, instant: Time) {
    && due.Some?
    && (due.value - sendTime) % DAY == 0
    && due.value - sendTime <= instant < due.value - sendTime + DAY
  }

  // A visit that is not accepted leaves step and due date alone.
  lemma DueWithoutSend(db: Db, now: Time, v: Visit)
    requires Inv(db) && v.sequence < |db.sequences| && IsDue(db.sequences[v.sequence], now) && !Accepts(db, now, v)
    ensures var before, after := db.sequences[v.sequence], Process(db, now, v).db.sequences[v.sequence];
      after == before.(status := after.status) && (after.status == before.status || after.status == Cancelled)
  {
    NextStepIsNew(db, v.sequence);
    assert RowOk(db, db.sequences[v.sequence]);
  }

  // ------------------------------------------------------------------ due dates over runs

  // After its first message an active sequence is due exactly at its next weekly date.
  ghost predicate DueExactly(db: Db, id: nat) {
    id < |db.sequences| && db.sequences[id].status == Active && db.sequences[id].step >= 0 ==>
      db.sequences[id].due == Some(db.sequences[id].created + 7 * (db.sequences[id].step + 1) * DAY)
  }

  lemma ProcessDueExactly(db: Db, now: Time, v: Visit, id: nat)
    requires Inv(db) && DueExactly(db, id) && v.sequence < |db.sequences| && IsDue(db.sequences[v.sequence], now)
    requires v.sequence == id ==> v.followUp == []
    ensures DueExactly(Process(db, now, v).db, id)
  {
    ProcessKeepsInv(db, now, v);
    if Accepts(db, now, v) {
      DueAfterSend(db, now, v);
    } else {
      DueWithoutSend(db, now, v);
    }
  }

  lemma {:induction false} VisitsDueExactly(db: Db, now: Time, vs: seq<Visit>, id: nat)
    requires Inv(db) && DueExactly(db, id) && ValidPick(db, now, vs)
    requires forall i :: 0 <= i < |vs| && vs[i].sequence == id ==> vs[i].followUp == []
    ensures DueExactly(Visits(db, now, vs).db, id)
  {
    if vs != [] {
      var n := |vs| - 1;
      LastVisit(db, now, vs);
      VisitsDueExactly(db, now, vs[..n], id);
      var r := Visits(db, now, vs[..n]);
      if !r.aborted {
        ProcessDueExactly(r.db, now, vs[n], id);
      }
    }
  }

  lemma StepDueExactly(st: State, e: Event, id: nat)
    requires Inv(st.db) && DueExactly(st.db, id) && ValidEvent(st.db, e) && DefaultDelays(e, id)
    ensures DueExactly(Step(st, e).db, id)
  {
    if e.TickEvent? {
      VisitsDueExactly(st.db, e.now, e.visits, id);
    }
  }

  /** In every state of a run with default delays for a sequence, once it has sent step k and is still active
      it is due exactly 7 (k + 1) days after its creation. */
  lemma {:induction false} RunDueExactly(trace: seq<State>, events: seq<Event>, n: nat, id: nat)
    requires IsRun(trace, events) && n < |trace| && trace[0].db == EMPTY
    requires forall i :: 0 <= i < |events| ==> DefaultDelays(events[i], id)
    ensures DueExactly(trace[n].db, id)
  {
    if n > 0 {
      RunDueExactly(trace, events, n - 1, id);
      RunKeepsInv(trace, events, n - 1);
      StepDueExactly(trace[n - 1], events[n - 1], id);
    }
  }

  // ------------------------------------------------------------------ served sequences

  // Visit i of a tick in which nothing raises has its message accepted.
  ghost predicate AcceptedVisitAt(db: Db, now: Time, vs: seq<Visit>, i: nat)
    requires ValidPick(db, now, vs) && i < |vs|
  {
    NoneRaises(db, vs) && vs[i].sequence < |Visits(db, now, vs[..i]).db.sequences|
    && Accepts(Visits(db, now, vs[..i]).db, now, vs[i])
  }

  lemma LastVisitAdvances(db: Db, now: Time, vs: seq<Visit>)
    requires Inv(db) && ValidPick(db, now, vs) && vs != [] && AcceptedVisitAt(db, now, vs, |vs| - 1)
    ensures var id := vs[|vs| - 1].sequence; Visits(db, now, vs).db.sequences[id].step == db.sequences[id].step + 1
  {
    var n := |vs| - 1;
    LastVisit(db, now, vs);
    AcceptedBefore(db, now, vs[..n]);
    NextVisit(db, now, vs);
    DueAfterSend(Visits(db, now, vs[..n]).db, now, vs[n]);
  }

  lemma LastVisitSparesOthers(db: Db, now: Time, vs: seq<Visit>, id: nat)
    requires Inv(db) && ValidPick(db, now, vs) && vs != [] && NoneRaises(db, vs)
    requires id < |db.sequences| && id != vs[|vs| - 1].sequence
    ensures Visits(db, now, vs).db.sequences[id] == Visits(db, now, vs[..|vs| - 1]).db.sequences[id]
  {
    var n := |vs| - 1;
    LastVisit(db, now, vs);
    AcceptedBefore(db, now, vs[..n]);
    NextVisit(db, now, vs);
    ProcessKeepsInv(Visits(db, now, vs[..n]).db, now, vs[n]);
  }

  lemma AcceptedInFront(db: Db, now: Time, vs: seq<Visit>, i: nat)
    requires ValidPick(db, now, vs) && i < |vs| - 1 && AcceptedVisitAt(db, now, vs, i)
    ensures var front := vs[..|vs| - 1];
      ValidPick(db, now, front) && front[i] == vs[i] && AcceptedVisitAt(db, now, front, i)
  {
    assert vs[..|vs| - 1][..i] == vs[..i];
  }

  lemma {:induction false} AcceptedVisitAdvances(db: Db, now: Time, vs: seq<Visit>, i: nat)
    requires Inv(db) && ValidPick(db, now, vs) && i < |vs| && AcceptedVisitAt(db, now, vs, i)
    ensures var id := vs[i].sequence; Visits(db, now, vs).db.sequences[id].step == db.sequences[id].step + 1
  {
    var n := |vs| - 1;
    if i == n {
      LastVisitAdvances(db, now, vs);
    } else {
      AcceptedInFront(db, now, vs, i);
      AcceptedVisitAdvances(db, now, vs[..n], i);
      LastVisitSparesOthers(db, now, vs, vs[i].sequence);
    }
  }

  // Event j is a tick made at the due date of sequence `id` that has its message accepted.
  ghost predicate ServesAtDue(st: State, e: Event, id: nat)
    requires ValidEvent(st.db, e)
  {
    && e.TickEvent? && SMS_HOUR_START <= e.parisHour < SMS_HOUR_END
    && id < |st.db.sequences| && st.db.sequences[id].due == Some(e.now)
    && exists i :: 0 <= i < |e.visits| && e.visits[i].sequence == id && AcceptedVisitAt(st.db, e.now, e.visits, i)
  }

  lemma ServiceAdvances(st: State, e: Event, id: nat)
    requires Inv(st.db) && ValidEvent(st.db, e) && ServesAtDue(st, e, id)
    ensures id < |Step(st, e).db.sequences|
    ensures Step(st, e).db.sequences[id].step == st.db.sequences[id].step + 1
  {
    var i :| 0 <= i < |e.visits| && e.visits[i].sequence == id && AcceptedVisitAt(st.db, e.now, e.visits, i);
    AcceptedBefore(st.db, e.now, e.visits);
    AcceptedVisitAdvances(st.db, e.now, e.visits, i);
  }

  ghost predicate Increasing(at: seq<nat>) {
    forall i, j :: 0 <= i < j < |at| ==> at[i] < at[j]
  }

  ghost predicate ServedAt(trace: seq<State>, events: seq<Event>, id: nat, at: seq<nat>)
    requires IsRun(trace, events)
  {
    forall k :: 0 <= k < |at| ==> at[k] < |events| && ServesAtDue(trace[at[k]], events[at[k]], id)
  }

  // Every service moves the sequence one step further.
  lemma {:induction false} ServicesCount(trace: seq<State>, events: seq<Event>, n: nat, id: nat, at: seq<nat>)
    requires IsRun(trace, events) && n < |trace| && trace[0].db == EMPTY && id < |trace[n].db.sequences|
    requires Increasing(at) && ServedAt(trace, events, id, at) && forall k :: 0 <= k < |at| ==> at[k] < n
    ensures trace[n].db.sequences[id].step + 1 >= |at|
  {
    RunKeepsInv(trace, events, n);
    assert RowOk(trace[n].db, trace[n].db.sequences[id]);
    if at != [] {
      var last := at[|at| - 1];
      var front := at[..|at| - 1];
      assert ServesAtDue(trace[last], events[last], id);
      assert forall k :: 0 <= k < |front| ==> front[k] == at[k];
      RunKeepsInv(trace, events, last);
      ServicesCount(trace, events, last, id, front);
      ServiceAdvances(trace[last], events[last], id);
      RunKeepsInv(trace, events, last + 1);
      ClosedIsFinal(trace, events, last + 1, n, id);
    }
  }

  // When every message of a sequence was sent by t, all its logged steps count.
  lemma {:induction false} AllMessagesCount(log: seq<LogRow>, id: nat, t: Time)
    requires forall i :: 0 <= i < |log| && IsMessage(log[i], id) ==> log[i].sentAt <= t
    ensures MessagesBy(log, id, t) == |LoggedSteps(log, id)|
  {
    if log != [] {
      AllMessagesCount(log[..|log| - 1], id, t);
    }
  }

  // How many of the dates created, created + 7 days, ... up to step 7 have come by t.
  function DatesBy(created: Time, t: Time): nat {
    if t < created then 0
    else
      var n := 1 + (t - created) / (7 * DAY);
      if n > 8 then 8 else n
  }

  /** The weekly cadence is met exactly: a sequence with default delays that is served at each of its due
      dates up to t has sent min(8, 1 + floor((t - created) / 7 days)) messages by t. */
  lemma CadenceMet(trace: seq<State>, events: seq<Event>, n: nat, id: nat, t: Time, at: seq<nat>)
    requires IsRun(trace, events) && n < |trace| && trace[0].db == EMPTY && id < |trace[n].db.sequences|
    requires forall i :: 0 <= i < |events| ==> DefaultDelays(events[i], id)
    requires forall i :: 0 <= i < |trace[n].db.log| && IsMessage(trace[n].db.log[i], id) ==>
      trace[n].db.log[i].sentAt <= t
    requires Increasing(at) && ServedAt(trace, events, id, at) && forall k :: 0 <= k < |at| ==> at[k] < n
    requires |at| >= DatesBy(trace[n].db.sequences[id].created, t)
    ensures MessagesBy(trace[n].db.log, id, t) == DatesBy(trace[n].db.sequences[id].created, t)
  {
    var db := trace[n].db;
    CadenceBound(trace, events, n, id, t);
    ServicesCount(trace, events, n, id, at);
    RunKeepsInv(trace, events, n);
    AllMessagesCount(db.log, id, t);
    assert LoggedSteps(db.log, id) == ExpectedSteps(db, id);
  }
}
