/** Messages accepted by the provider against the log: when a tick logs all of them, and what follows
    for whole runs. */
module SmsWire {
  import opened Prelude
  import opened SmsSequence
  import opened SmsSequenceRuns
  import opened SmsCadence

  // The (sequence, step) pairs the provider accepted, in order.
  function AcceptedSteps(wire: seq<Send>): seq<(nat, int)> {
    if wire == [] then []
    else
      var last := wire[|wire| - 1];
      AcceptedSteps(wire[..|wire| - 1]) + if last.reply == Accepted then [(last.sequence, last.step)] else []
  }

  // The (sequence, step) pairs in the log, in order.
  function LoggedSends(log: seq<LogRow>): seq<(nat, int)> {
    if log == [] then []
    else
      var last := log[|log| - 1];
      LoggedSends(log[..|log| - 1]) + if last.key.SequenceKey? then [(last.key.sequence, last.key.step)] else []
  }

  lemma {:induction false} AcceptedConcat(a: seq<Send>, b: seq<Send>)
    ensures AcceptedSteps(a + b) == AcceptedSteps(a) + AcceptedSteps(b)
  {
    if b == [] {
      assert a + b == a;
    } else {
      assert (a + b)[..|a + b| - 1] == a + b[..|b| - 1];
      AcceptedConcat(a, b[..|b| - 1]);
    }
  }

  lemma LoggedAppend(log: seq<LogRow>, row: LogRow)
    ensures LoggedSends(log + [row]) == LoggedSends(log)
      + if row.key.SequenceKey? then [(row.key.sequence, row.key.step)] else []
  {
    assert (log + [row])[..|log|] == log;
  }

  lemma TransmitLogsAccepted(db: Db, v: Visit, sim: SimId)
    requires v.sequence < |db.sequences| && db.sequences[v.sequence].contact < |db.contacts|
    ensures var o := Transmit(db, v, sim); LoggedSends(o.db.log) == LoggedSends(db.log) + AcceptedSteps(o.wire)
  {
    var s := db.sequences[v.sequence];
    var phone := db.contacts[s.contact].phone;
    LoggedAppend(db.log, LogRow(sim, phone, Outbound, SequenceKey(v.sequence, s.step + 1), v.sentAt));
    var wire := [Send(v.sequence, s.step + 1, sim, phone, v.reply)];
    assert Transmit(db, v, sim).wire == wire && wire[..0] == [];
  }

  lemma ProcessLogsAccepted(db: Db, now: Time, v: Visit)
    requires v.sequence < |db.sequences|
    ensures var o := Process(db, now, v); LoggedSends(o.db.log) == LoggedSends(db.log) + AcceptedSteps(o.wire)
  {
    var o := Process(db, now, v);
    if o.wire == [] {
      assert o.db.log == db.log;
    } else {
      var sim := FirstEligible(db.log, now, v.quota.value, v.allowed, v.sims.value).value;
      TransmitLogsAccepted(db, v, sim);
      assert o == Transmit(db, v, sim);
    }
  }

  lemma ConcatAssociative<T>(a: seq<T>, b: seq<T>, c: seq<T>)
    ensures (a + b) + c == a + (b + c)
  {
  }

  lemma NextVisit(db: Db, now: Time, vs: seq<Visit>)
    requires vs != [] && forall v :: v in vs ==> v.sequence < |db.sequences|
    requires !Visits(db, now, vs[..|vs| - 1]).aborted
    ensures var r := Visits(db, now, vs[..|vs| - 1]);
      var o := Process(r.db, now, vs[|vs| - 1]);
      Visits(db, now, vs).db == o.db && Visits(db, now, vs).wire == r.wire + o.wire
  {
  }

  lemma {:induction false} VisitsLogAccepted(db: Db, now: Time, vs: seq<Visit>)
    requires forall v :: v in vs ==> v.sequence < |db.sequences|
    ensures var r := Visits(db, now, vs); LoggedSends(r.db.log) == LoggedSends(db.log) + AcceptedSteps(r.wire)
  {
    if vs != [] {
      var n := |vs| - 1;
      VisitsLogAccepted(db, now, vs[..n]);
      var r := Visits(db, now, vs[..n]);
      if !r.aborted {
        var o := Process(r.db, now, vs[n]);
        ProcessLogsAccepted(r.db, now, vs[n]);
        AcceptedConcat(r.wire, o.wire);
        ConcatAssociative(LoggedSends(db.log), AcceptedSteps(r.wire), AcceptedSteps(o.wire));
        NextVisit(db, now, vs);
      }
    }
  }

  // A visit that reaches the provider's SIM list: a known campaign and an open contact.
  predicate IsOpen(db: Db, v: Visit)
    requires v.sequence < |db.sequences|
  {
    var s := db.sequences[v.sequence];
    && s.contact < |db.contacts| && v.quota.Some?
    && db.contacts[s.contact].status == ContactActive && !v.blacklisted
  }

  // Rendering the body or listing the SIMs raises.
  predicate Raises(db: Db, v: Visit)
    requires v.sequence < |db.sequences|
  {
    IsOpen(db, v) && v.sims.None?
  }

  // A SIM has quota left and the provider takes the message.
  predicate Accepts(db: Db, now: Time, v: Visit)
    requires v.sequence < |db.sequences|
  {
    && IsOpen(db, v) && v.sims.Some? && v.reply == Accepted
    && FirstEligible(db.log, now, v.quota.value, v.allowed, v.sims.value).Some?
  }

  // One visit raises, or has its message accepted, exactly when the guards say so.
  lemma VisitOutcome(db: Db, now: Time, v: Visit)
    requires Inv(db) && v.sequence < |db.sequences| && IsDue(db.sequences[v.sequence], now)
    ensures var o := Process(db, now, v);
      && (o.aborted <==> Raises(db, v))
      && (AcceptedSteps(o.wire) != [] <==> Accepts(db, now, v))
      && (o.aborted ==> o.wire == [])
      && (!Accepts(db, now, v) ==> o.db.log == db.log)
  {
    var o := Process(db, now, v);
    NextStepIsNew(db, v.sequence);
    assert RowOk(db, db.sequences[v.sequence]);
    if o.wire != [] {
      assert o.wire[..0] == [] && o.wire == [o.wire[0]];
    }
  }

  ghost predicate NoneRaises(db: Db, vs: seq<Visit>)
    requires forall v :: v in vs ==> v.sequence < |db.sequences|
  {
    forall i :: 0 <= i < |vs| ==> !Raises(db, vs[i])
  }

  ghost predicate SomeAccepts(db: Db, now: Time, vs: seq<Visit>)
    requires forall v :: v in vs ==> v.sequence < |db.sequences|
  {
    exists i :: 0 <= i < |vs| && Accepts(db, now, vs[i])
  }

  // Until a visit raises, the provider accepted something exactly when some visit is accepted on the
  // rows as the tick found them: the first accepted message meets the log unchanged.
  lemma {:induction false} AcceptedBefore(db: Db, now: Time, vs: seq<Visit>)
    requires Inv(db) && ValidPick(db, now, vs) && NoneRaises(db, vs)
    ensures var r := Visits(db, now, vs);
      && !r.aborted
      && (AcceptedSteps(r.wire) != [] <==> SomeAccepts(db, now, vs))
      && (!SomeAccepts(db, now, vs) ==> r.db.log == db.log)
  {
    if vs != [] {
      var n := |vs| - 1;
      var front := vs[..n];
      LastVisit(db, now, vs);
      AcceptedBefore(db, now, front);
      var r := Visits(db, now, front);
      VisitOutcome(r.db, now, vs[n]);
      assert Raises(r.db, vs[n]) == Raises(db, vs[n]);
      AcceptedConcat(r.wire, Process(r.db, now, vs[n]).wire);
      NextVisit(db, now, vs);
      SomeAcceptsNext(db, now, vs);
    }
  }

  lemma SomeAcceptsNext(db: Db, now: Time, vs: seq<Visit>)
    requires vs != [] && forall v :: v in vs ==> v.sequence < |db.sequences|
    ensures SomeAccepts(db, now, vs) <==> SomeAccepts(db, now, vs[..|vs| - 1]) || Accepts(db, now, vs[|vs| - 1])
  {
    var front := vs[..|vs| - 1];
    if i :| 0 <= i < |front| && Accepts(db, now, front[i]) {
      assert vs[i] == front[i];
    }
    if i :| 0 <= i < |vs| && Accepts(db, now, vs[i]) {
      assert i < |front| ==> front[i] == vs[i];
    }
  }

  /** The tick will lose rows: inside the window some visit raises, and a visit before the first that
      raises has its message accepted. Every part is read off the rows and the visits before the tick. */
  ghost predicate LosesRows(db: Db, now: Time, hour: int, vs: seq<Visit>)
    requires forall v :: v in vs ==> v.sequence < |db.sequences|
  {
    && SMS_HOUR_START <= hour < SMS_HOUR_END
    && exists k :: 0 <= k < |vs| && FirstRaise(db, vs, k) && SomeAccepts(db, now, vs[..k])
  }

  // Visit k is the first that raises.
  ghost predicate FirstRaise(db: Db, vs: seq<Visit>, k: nat)
    requires k < |vs| && forall v :: v in vs ==> v.sequence < |db.sequences|
  {
    Raises(db, vs[k]) && NoneRaises(db, vs[..k])
  }

  lemma {:induction false} SomeFirstRaise(db: Db, vs: seq<Visit>) returns (k: nat)
    requires (forall v :: v in vs ==> v.sequence < |db.sequences|) && !NoneRaises(db, vs)
    ensures k < |vs| && FirstRaise(db, vs, k)
  {
    var n := |vs| - 1;
    if NoneRaises(db, vs[..n]) {
      k := n;
      assert forall i :: 0 <= i < n ==> vs[..n][i] == vs[i];
    } else {
      k := SomeFirstRaise(db, vs[..n]);
      assert vs[..n][..k] == vs[..k];
    }
  }

  // The visits stop at the first that raises, having handed over what the visits before it did.
  lemma VisitsStopAt(db: Db, now: Time, vs: seq<Visit>, k: nat)
    requires Inv(db) && ValidPick(db, now, vs) && k < |vs| && FirstRaise(db, vs, k)
    ensures var r := Visits(db, now, vs); r.aborted && r.wire == Visits(db, now, vs[..k]).wire
  {
    var upto := vs[..k + 1];
    assert upto[..k] == vs[..k];
    assert ValidPick(db, now, upto);
    LastVisit(db, now, upto);
    AcceptedBefore(db, now, vs[..k]);
    var r := Visits(db, now, vs[..k]);
    VisitOutcome(r.db, now, vs[k]);
    NextVisit(db, now, upto);
    assert Visits(db, now, upto).aborted && Visits(db, now, upto).wire == r.wire;
    RaisedEarly(db, now, vs, k + 1);
  }

  /** One tick logs every message the provider accepted if and only if it will not lose rows: a visit that
      raises rolls back the rows of the messages accepted before it. */
  lemma TickLogsAcceptedIff(db: Db, now: Time, hour: int, vs: seq<Visit>)
    requires Inv(db) && ValidPick(db, now, vs)
    ensures var r := Tick(db, now, hour, vs);
      LoggedSends(r.db.log) == LoggedSends(db.log) + AcceptedSteps(r.wire) <==> !LosesRows(db, now, hour, vs)
  {
    VisitsLogAccepted(db, now, vs);
    if NoneRaises(db, vs) {
      AcceptedBefore(db, now, vs);
    } else {
      var k := SomeFirstRaise(db, vs);
      VisitsStopAt(db, now, vs, k);
      AcceptedBefore(db, now, vs[..k]);
      forall j: nat | j < |vs| && FirstRaise(db, vs, j) ensures j == k {
        assert forall i :: 0 <= i < k ==> vs[..k][i] == vs[i];
        assert forall i :: 0 <= i < j ==> vs[..j][i] == vs[i];
      }
    }
  }

  ghost predicate Clean(st: State, e: Event)
    requires ValidEvent(st.db, e)
  {
    e.TickEvent? ==> !LosesRows(st.db, e.now, e.parisHour, e.visits)
  }

  // Over any run whose ticks lose no rows the accepted messages are exactly the logged ones, in order.
  lemma {:induction false} WireMatchesLog(trace: seq<State>, events: seq<Event>, n: nat)
    requires IsRun(trace, events) && n < |trace| && trace[0] == State(EMPTY, [])
    requires forall i :: 0 <= i < |events| ==> Clean(trace[i], events[i])
    ensures AcceptedSteps(trace[n].wire) == LoggedSends(trace[n].db.log)
  {
    if n > 0 {
      WireMatchesLog(trace, events, n - 1);
      RunKeepsInv(trace, events, n - 1);
      assert Clean(trace[n - 1], events[n - 1]);
      StepMatchesLog(trace[n - 1], events[n - 1]);
    }
  }

  lemma StepMatchesLog(st: State, e: Event)
    requires Inv(st.db) && ValidEvent(st.db, e) && Clean(st, e)
    requires AcceptedSteps(st.wire) == LoggedSends(st.db.log)
    ensures AcceptedSteps(Step(st, e).wire) == LoggedSends(Step(st, e).db.log)
  {
    match e
    case EnsureEvent(q) =>
    case TickEvent(now, hour, vs) =>
      TickLogsAcceptedIff(st.db, now, hour, vs);
      AcceptedConcat(st.wire, Tick(st.db, now, hour, vs).wire);
    case ReplyEvent(phone, sender, sim, _, event, at) =>
      var from := if phone.Some? then phone.value else sender;
      var row := LogRow(sim, from, Inbound, InboundKey(event), at);
      LoggedAppend(st.db.log, row);
      assert Step(st, e).db.log in {st.db.log, st.db.log + [row]};
    case StopEvent(_, _) =>
  }

  /** Over any run whose ticks lose no rows, no step of any sequence is accepted twice. */
  lemma AcceptedOnce(trace: seq<State>, events: seq<Event>, n: nat)
    requires IsRun(trace, events) && n < |trace| && trace[0] == State(EMPTY, [])
    requires forall i :: 0 <= i < |events| ==> Clean(trace[i], events[i])
    ensures Distinct(AcceptedSteps(trace[n].wire))
  {
    WireMatchesLog(trace, events, n);
    RunKeepsInv(trace, events, n);
    var log := trace[n].db.log;
    forall id: nat ensures Distinct(LoggedSteps(log, id)) {
      assert LoggedSteps(log, id) == ExpectedSteps(trace[n].db, id);
    }
    SendsDistinct(log);
  }

  lemma {:induction false} SendsDistinct(log: seq<LogRow>)
    requires forall id: nat :: Distinct(LoggedSteps(log, id))
    ensures Distinct(LoggedSends(log))
    ensures forall i :: 0 <= i < |LoggedSends(log)| ==>
      HasKey(log, SequenceKey(LoggedSends(log)[i].0, LoggedSends(log)[i].1))
  {
    if log != [] {
      var n := |log| - 1;
      var front, row := log[..n], log[n];
      assert front + [row] == log;
      LoggedAppend(front, row);
      forall id: nat ensures Distinct(LoggedSteps(front, id)) {
        LoggedStepsAppend(front, row, id);
        assert Distinct(LoggedSteps(log, id));
        PrefixDistinct(LoggedSteps(front, id), LoggedSteps(log, id));
      }
      SendsDistinct(front);
      forall i | 0 <= i < |LoggedSends(log)|
        ensures HasKey(log, SequenceKey(LoggedSends(log)[i].0, LoggedSends(log)[i].1))
      {
        if i < |LoggedSends(front)| {
          assert HasKey(front, SequenceKey(LoggedSends(front)[i].0, LoggedSends(front)[i].1));
          var j :| 0 <= j < |front| && front[j].key == SequenceKey(LoggedSends(front)[i].0, LoggedSends(front)[i].1);
          assert log[j] == front[j];
        } else {
          assert log[n].key == SequenceKey(LoggedSends(log)[i].0, LoggedSends(log)[i].1);
        }
      }
      if row.key.SequenceKey? {
        LoggedStepsAppend(front, row, row.key.sequence);
        HasKeyIsLogged(front, row.key.sequence, row.key.step);
        var before := LoggedSteps(front, row.key.sequence);
        LastIsNew(before, row.key.step);
      }
    }
  }

  lemma LastIsNew<T>(a: seq<T>, x: T)
    requires Distinct(a + [x])
    ensures x !in a
  {
    forall k | 0 <= k < |a| ensures a[k] != x {
      assert (a + [x])[k] == a[k] && (a + [x])[|a|] == x;
    }
  }

  lemma PrefixDistinct<T>(a: seq<T>, b: seq<T>)
    requires a <= b && Distinct(b)
    ensures Distinct(a)
  {
    forall i, j | 0 <= i < j < |a| ensures a[i] != a[j] {
      assert b[i] == a[i] && b[j] == a[j];
    }
  }

  // A tick that raises on its second visit forgets the first message, and the next tick sends it again.
  lemma AbortedTickResends()
    ensures
      var ok := AcceptedVisit([]);
      var bad := ok.(sequence := 1, sims := None);
      var db := Db([Contact("p", ContactActive), Contact("q", ContactActive)], [LoneSequence(0), LoneSequence(1)], []);
      var first := Tick(db, 0, 9, [ok, bad]);
      var again := Tick(first.db, 0, 9, [ok]);
      && ValidPick(db, 0, [ok, bad]) && ValidPick(first.db, 0, [ok])
      && AcceptedSteps(first.wire) == AcceptedSteps(again.wire) == [(0, 0)]
  {
    var ok := AcceptedVisit([]);
    var bad := ok.(sequence := 1, sims := None);
    var db := Db([Contact("p", ContactActive), Contact("q", ContactActive)], [LoneSequence(0), LoneSequence(1)], []);
    OneVisit(db, 0, ok);
    assert FirstEligible(db.log, 0, 15, map[], ok.sims.value) == Some("s");
    var w := [Send(0, 0, "s", "p", Accepted)];
    var after := Process(db, 0, ok);
    assert after == Transmit(db, ok, "s") && after.wire == w;
    assert after.db.sequences[1] == LoneSequence(1) && after.db.contacts == db.contacts;
    assert Process(after.db, 0, bad) == Outcome(after.db, [], 0, 0, true);
    assert [ok, bad][..1] == [ok];
    assert Tick(db, 0, 9, [ok, bad]).wire == w + [] == w;
    assert w[..0] == [];
  }
}
