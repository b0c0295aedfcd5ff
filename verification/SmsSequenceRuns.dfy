/** What every run of the follow-up engine keeps: log and state agree, closed contacts stay silent, and a
    contact that refused messages keeps that status until a later reply overwrites it. */
module SmsSequenceRuns {
  import opened Prelude
  import opened SmsSequence

  // ------------------------------------------------------------ log and state

  // The steps logged for one sequence, oldest first.
  function LoggedSteps(log: seq<LogRow>, id: nat): seq<int> {
    if log == [] then []
    else
      var before := LoggedSteps(log[..|log| - 1], id);
      match log[|log| - 1].key
      case SequenceKey(s, k) => if s == id then before + [k] else before
      case InboundKey(_) => before
  }

  ghost predicate ContactsUnique(db: Db) {
    forall i, j :: 0 <= i < j < |db.contacts| ==> db.contacts[i].phone != db.contacts[j].phone
  }

  ghost predicate SequencesUnique(db: Db) {
    forall i, j :: 0 <= i < j < |db.sequences| ==>
      db.sequences[i].contact != db.sequences[j].contact || db.sequences[i].campaign != db.sequences[j].campaign
  }

  ghost predicate RowOk(db: Db, s: Sequence) {
    && s.contact < |db.contacts|
    && -1 <= s.step < STEPS
    && s.status != Paused
    && (s.status == Active ==> s.step <= 6 && s.due.Some?)
    && (s.status == Completed <==> s.step == 7)
  }

  ghost predicate RowsOk(db: Db) {
    forall i :: 0 <= i < |db.sequences| ==> RowOk(db, db.sequences[i])
  }

  function ExpectedSteps(db: Db, id: nat): seq<int> {
    if id < |db.sequences| && db.sequences[id].step >= -1 then UpTo(db.sequences[id].step + 1) else []
  }

  ghost predicate LogMatches(db: Db) {
    forall id: nat :: LoggedSteps(db.log, id) == ExpectedSteps(db, id)
  }

  ghost predicate Inv(db: Db) {
    ContactsUnique(db) && SequencesUnique(db) && RowsOk(db) && LogMatches(db)
  }

  lemma LoggedStepsAppend(log: seq<LogRow>, row: LogRow, id: nat)
    ensures LoggedSteps(log + [row], id) ==
      LoggedSteps(log, id) + if row.key.SequenceKey? && row.key.sequence == id then [row.key.step] else []
  {
    assert (log + [row])[..|log|] == log;
  }

  lemma {:induction false} HasKeyIsLogged(log: seq<LogRow>, id: nat, k: int)
    ensures HasKey(log, SequenceKey(id, k)) <==> k in LoggedSteps(log, id)
  {
    if log != [] {
      var n := |log| - 1;
      HasKeyIsLogged(log[..n], id, k);
      LoggedStepsAppend(log[..n], log[n], id);
      assert log[..n] + [log[n]] == log;
      if HasKey(log, SequenceKey(id, k)) && !HasKey(log[..n], SequenceKey(id, k)) {
        var i :| 0 <= i < |log| && log[i].key == SequenceKey(id, k);
        assert forall j :: 0 <= j < n ==> log[..n][j] == log[j];
      }
    }
  }

  // A visit touches one active row, never another row or a contact, and extends the log.
  ghost predicate OnlyRow(db: Db, id: nat, db': Db)
    requires id < |db.sequences|
  {
    && db'.contacts == db.contacts
    && |db'.sequences| == |db.sequences|
    && (forall j :: 0 <= j < |db.sequences| && j != id ==> db'.sequences[j] == db.sequences[j])
    && SameIdentity(db.sequences[id], db'.sequences[id])
    && db.log <= db'.log
  }

  predicate SameIdentity(s: Sequence, s': Sequence) {
    s'.contact == s.contact && s'.campaign == s.campaign && s'.created == s.created
  }

  lemma SetRowKeepsInv(db: Db, id: nat, s: Sequence)
    requires Inv(db) && id < |db.sequences|
    requires SameIdentity(db.sequences[id], s) && RowOk(db, s) && s.step == db.sequences[id].step
    ensures Inv(SetSequence(db, id, s))
  {
    var db' := SetSequence(db, id, s);
    forall k: nat ensures LoggedSteps(db'.log, k) == ExpectedSteps(db', k) {
      assert LoggedSteps(db.log, k) == ExpectedSteps(db, k);
    }
  }

  lemma LogStepKeepsInv(db: Db, id: nat, row: LogRow, s: Sequence)
    requires Inv(db) && id < |db.sequences|
    requires SameIdentity(db.sequences[id], s) && RowOk(db, s) && s.step == db.sequences[id].step + 1
    requires row.key == SequenceKey(id, s.step)
    ensures Inv(SetSequence(db.(log := db.log + [row]), id, s))
  {
    var db' := SetSequence(db.(log := db.log + [row]), id, s);
    forall k: nat ensures LoggedSteps(db'.log, k) == ExpectedSteps(db', k) {
      assert LoggedSteps(db.log, k) == ExpectedSteps(db, k);
      LoggedStepsAppend(db.log, row, k);
      assert k == id ==> UpTo(s.step) + [s.step] == UpTo(s.step + 1);
    }
  }

  // A log row that belongs to no sequence leaves the agreement alone.
  lemma InboundRowKeepsLog(db: Db, db': Db, row: LogRow)
    requires LogMatches(db) && db'.sequences == db.sequences
    requires row.key.InboundKey? && db'.log == db.log + [row]
    ensures LogMatches(db')
  {
    forall k: nat ensures LoggedSteps(db'.log, k) == ExpectedSteps(db', k) {
      assert LoggedSteps(db.log, k) == ExpectedSteps(db, k);
      LoggedStepsAppend(db.log, row, k);
    }
  }

  /** In a consistent state the step about to be sent is never logged and never beyond the last:
      the replay branch and the step-overflow branch of a visit are dead. */
  lemma NextStepIsNew(db: Db, id: nat)
    requires Inv(db) && id < |db.sequences| && db.sequences[id].status == Active
    ensures !HasKey(db.log, SequenceKey(id, db.sequences[id].step + 1))
    ensures db.sequences[id].step + 1 < STEPS
  {
    var step := db.sequences[id].step + 1;
    assert RowOk(db, db.sequences[id]);
    HasKeyIsLogged(db.log, id, step);
    assert LoggedSteps(db.log, id) == ExpectedSteps(db, id) == UpTo(step);
  }

  lemma ExtendVisits(db: Db, now: Time, vs: seq<Visit>, i: nat)
    requires forall v :: v in vs ==> v.sequence < |db.sequences|
    requires i < |vs| && !Visits(db, now, vs[..i]).aborted
    ensures var r := Visits(db, now, vs[..i]);
      var o := Process(r.db, now, vs[i]);
      Visits(db, now, vs[..i + 1]) ==
        Progress(o.db, r.wire + o.wire, r.processed + 1, r.sent + o.sent, r.stopped + o.stopped, o.aborted)
  {
    assert vs[..i + 1][..i] == vs[..i];
  }

  // Visits after one that raised are never made.
  lemma {:induction false} RaisedEarly(db: Db, now: Time, vs: seq<Visit>, n: nat)
    requires forall v :: v in vs ==> v.sequence < |db.sequences|
    requires n <= |vs| && Visits(db, now, vs[..n]).aborted
    ensures Visits(db, now, vs) == Visits(db, now, vs[..n])
  {
    if n == |vs| {
      assert vs[..n] == vs;
    } else {
      var front := vs[..|vs| - 1];
      assert front[..n] == vs[..n];
      RaisedEarly(db, now, front, n);
    }
  }

  lemma ProcessKeepsInv(db: Db, now: Time, v: Visit)
    requires Inv(db) && v.sequence < |db.sequences| && db.sequences[v.sequence].status == Active
    ensures Inv(Process(db, now, v).db) && OnlyRow(db, v.sequence, Process(db, now, v).db)
  {
    var s := db.sequences[v.sequence];
    assert RowOk(db, s);
    NextStepIsNew(db, v.sequence);
    if s.contact < |db.contacts| && v.quota.Some? && db.contacts[s.contact].status == ContactActive && !v.blacklisted {
      if v.sims.Some? {
        var pick := FirstEligible(db.log, now, v.quota.value, v.allowed, v.sims.value);
        if pick.Some? {
          TransmitKeepsInv(db, v, pick.value);
        }
      }
    } else {
      SetRowKeepsInv(db, v.sequence, s.(status := Cancelled));
    }
  }

  lemma TransmitKeepsInv(db: Db, v: Visit, sim: SimId)
    requires Inv(db) && v.sequence < |db.sequences| && db.sequences[v.sequence].status == Active
    ensures db.sequences[v.sequence].contact < |db.contacts|
    ensures Inv(Transmit(db, v, sim).db) && OnlyRow(db, v.sequence, Transmit(db, v, sim).db)
  {
    var s := db.sequences[v.sequence];
    assert RowOk(db, s);
    if v.reply == Accepted {
      var row := LogRow(sim, db.contacts[s.contact].phone, Outbound, SequenceKey(v.sequence, s.step + 1), v.sentAt);
      match FollowUpDue(s.step + 1, s.created, v.followUp)
      case Unschedulable => LogStepKeepsInv(db, v.sequence, row, s.(step := s.step + 1));
      case Due(at) => LogStepKeepsInv(db, v.sequence, row, Advance(s, s.step + 1, at));
    }
  }

  ghost predicate Unvisited(vs: seq<Visit>, j: nat) {
    forall i :: 0 <= i < |vs| ==> vs[i].sequence != j
  }

  // Rows keep their identity, and rows that were not visited do not change.
  ghost predicate OnlyVisited(db: Db, vs: seq<Visit>, db': Db) {
    && |db'.sequences| == |db.sequences|
    && forall j :: 0 <= j < |db.sequences| ==>
         && SameIdentity(db.sequences[j], db'.sequences[j])
         && (Unvisited(vs, j) ==> db'.sequences[j] == db.sequences[j])
  }

  lemma VisitMore(db: Db, mid: Db, db': Db, vs: seq<Visit>)
    requires vs != [] && OnlyVisited(db, vs[..|vs| - 1], mid)
    requires vs[|vs| - 1].sequence < |mid.sequences| && OnlyRow(mid, vs[|vs| - 1].sequence, db')
    ensures OnlyVisited(db, vs, db')
  {
    forall j: nat | Unvisited(vs, j) ensures Unvisited(vs[..|vs| - 1], j) && vs[|vs| - 1].sequence != j {}
  }

  lemma {:induction false} VisitsKeepInv(db: Db, now: Time, vs: seq<Visit>)
    requires Inv(db) && ValidPick(db, now, vs)
    ensures var r := Visits(db, now, vs);
      Inv(r.db) && r.db.contacts == db.contacts && db.log <= r.db.log && OnlyVisited(db, vs, r.db)
  {
    if vs != [] {
      var n := |vs| - 1;
      var front := vs[..n];
      assert ValidPick(db, now, front);
      VisitsKeepInv(db, now, front);
      var r := Visits(db, now, front);
      assert Unvisited(front, vs[n].sequence);
      if r.aborted {
        VisitMore(db, r.db, r.db, vs);
      } else {
        ProcessKeepsInv(r.db, now, vs[n]);
        VisitMore(db, r.db, Process(r.db, now, vs[n]).db, vs);
      }
    }
  }

  lemma EnsureContactKeepsInv(db: Db, phone: Phone)
    requires Inv(db)
    ensures Inv(EnsureContact(db, phone).0)
  {
    var db' := EnsureContact(db, phone).0;
    forall i | 0 <= i < |db'.sequences| ensures RowOk(db', db'.sequences[i]) {
      assert RowOk(db, db.sequences[i]);
    }
    forall k: nat ensures LoggedSteps(db'.log, k) == ExpectedSteps(db', k) {
      assert LoggedSteps(db.log, k) == ExpectedSteps(db, k);
    }
  }

  lemma NewSequenceKeepsInv(db: Db, c: nat, s: Sequence)
    requires Inv(db) && RowOk(db, s) && s.step == -1 && s.contact == c
    requires FindSequence(db.sequences, c, s.campaign).None?
    ensures Inv(db.(sequences := db.sequences + [s]))
  {
    var db' := db.(sequences := db.sequences + [s]);
    forall k: nat ensures LoggedSteps(db'.log, k) == ExpectedSteps(db', k) {
      assert LoggedSteps(db.log, k) == ExpectedSteps(db, k);
    }
  }

  lemma EnsureKeepsInv(db: Db, q: EnsureRequest)
    requires Inv(db)
    ensures Inv(EnsureSequence(db, q).0)
  {
    if q.phone.Some? && !q.blacklisted && q.campaignRunning {
      EnsureContactKeepsInv(db, q.phone.value);
      var (db1, c) := EnsureContact(db, q.phone.value);
      if db1.contacts[c].status == ContactActive {
        match FindSequence(db1.sequences, c, q.campaign)
        case None =>
          NewSequenceKeepsInv(db1, c,
                              Sequence(c, q.campaign, q.listing, q.context, -1, Some(q.now), Active, q.created));
        case Some(i) =>
          assert RowOk(db1, db1.sequences[i]);
          SetRowKeepsInv(db1, i, Enrich(db1.sequences[i], q));
      }
    }
  }

  lemma ReplyKeepsInv(db: Db, phone: Option<Phone>, sender: string, sim: SimId, kind: Classification, event: string,
                      at: Time)
    requires Inv(db)
    ensures Inv(RecordInbound(db, phone, sender, sim, kind, event, at))
  {
    var db' := RecordInbound(db, phone, sender, sim, kind, event, at);
    if db' != db {
      var row := LogRow(sim, if phone.Some? then phone.value else sender, Inbound, InboundKey(event), at);
      InboundRowKeepsLog(db, db', row);
      forall i | 0 <= i < |db'.sequences| ensures RowOk(db', db'.sequences[i]) {
        assert RowOk(db, db.sequences[i]);
      }
    }
  }

  lemma StopKeepsInv(db: Db, contact: nat, status: ContactStatus)
    requires Inv(db)
    ensures Inv(StopSequences(db, contact, status))
  {
    var db' := StopSequences(db, contact, status);
    assert forall i :: 0 <= i < |db.sequences| ==> db'.sequences[i] == StoppedRow(db.sequences[i], contact);
    forall i | 0 <= i < |db'.sequences| ensures RowOk(db', db'.sequences[i]) {
      assert RowOk(db, db.sequences[i]);
    }
    forall k: nat ensures LoggedSteps(db'.log, k) == ExpectedSteps(db', k) {
      assert LoggedSteps(db.log, k) == ExpectedSteps(db, k);
    }
  }

  // ---------------------------------------------------------------- every step

  // How many of the visited sequences end up cancelled.
  function CancelledAmong(db: Db, vs: seq<Visit>): nat
    requires forall v :: v in vs ==> v.sequence < |db.sequences|
  {
    if vs == [] then 0
    else
      CancelledAmong(db, vs[..|vs| - 1]) + if db.sequences[vs[|vs| - 1].sequence].status == Cancelled then 1 else 0
  }

  lemma {:induction false} SameCancelled(db: Db, db': Db, vs: seq<Visit>)
    requires forall v :: v in vs ==> v.sequence < |db.sequences| && v.sequence < |db'.sequences|
    requires forall v :: v in vs ==> db'.sequences[v.sequence] == db.sequences[v.sequence]
    ensures CancelledAmong(db', vs) == CancelledAmong(db, vs)
  {
    if vs != [] {
      SameCancelled(db, db', vs[..|vs| - 1]);
    }
  }

  lemma ProcessCounts(db: Db, now: Time, v: Visit)
    requires Inv(db) && v.sequence < |db.sequences| && db.sequences[v.sequence].status == Active
    ensures var o := Process(db, now, v);
      && |o.db.sequences| == |db.sequences|
      && o.stopped == (if o.db.sequences[v.sequence].status == Cancelled then 1 else 0)
      && o.sent <= |o.wire|
  {
    NextStepIsNew(db, v.sequence);
  }

  /** A batch of visits that does not raise counts every visit as processed, and as stopped exactly the
      sequences it cancelled; it never reports more messages than it handed over. */
  lemma {:induction false} CountersMatchRows(db: Db, now: Time, vs: seq<Visit>)
    requires Inv(db) && ValidPick(db, now, vs)
    ensures var r := Visits(db, now, vs);
      !r.aborted ==> r.processed == |vs| && r.stopped == CancelledAmong(r.db, vs) && r.sent <= |r.wire|
  {
    if vs != [] {
      var n := |vs| - 1;
      var front := vs[..n];
      var r := Visits(db, now, front);
      LastVisit(db, now, vs);
      CountersMatchRows(db, now, front);
      if !r.aborted {
        ProcessCounts(r.db, now, vs[n]);
        ProcessKeepsInv(r.db, now, vs[n]);
        SameCancelled(r.db, Visits(db, now, vs).db, front);
      }
    }
  }

  // SIM i is eligible and none before it is.
  predicate FirstAt(log: seq<LogRow>, now: Time, quota: int, allowed: map<SimId, int>, sims: seq<Sim>, i: nat)
    requires i < |sims|
  {
    SimEligible(log, now, quota, allowed, sims[i]) && forall j :: 0 <= j < i ==>
      !SimEligible(log, now, quota, allowed, sims[j])
  }

  // The SIM chosen is the first eligible one in the provider's order; none is chosen when none is eligible.
  lemma {:induction false} FirstEligibleIff(log: seq<LogRow>, now: Time, quota: int, allowed: map<SimId, int>,
                                            sims: seq<Sim>)
    ensures var r := FirstEligible(log, now, quota, allowed, sims);
      && (r.None? <==> forall i :: 0 <= i < |sims| ==> !SimEligible(log, now, quota, allowed, sims[i]))
      && (r.Some? ==>
            exists i :: 0 <= i < |sims| && sims[i].id == r.value && FirstAt(log, now, quota, allowed, sims, i))
  {
    if sims != [] && !SimEligible(log, now, quota, allowed, sims[0]) {
      FirstEligibleIff(log, now, quota, allowed, sims[1..]);
      var r := FirstEligible(log, now, quota, allowed, sims[1..]);
      assert forall i :: 1 <= i < |sims| ==> sims[i] == sims[1..][i - 1];
      if r.Some? {
        var i :| 0 <= i < |sims[1..]| && sims[1..][i].id == r.value && FirstAt(log, now, quota, allowed, sims[1..], i);
        assert sims[i + 1].id == r.value && FirstAt(log, now, quota, allowed, sims, i + 1);
      }
    } else if sims != [] {
      assert FirstAt(log, now, quota, allowed, sims, 0);
    }
  }

  // How one sequence row may evolve in one event: identity is kept, a step moves by at most one,
  // and a closed sequence keeps its status and its step.
  ghost predicate Evolves(s: Sequence, s': Sequence) {
    && SameIdentity(s, s')
    && s.step <= s'.step <= s.step + 1
    && (s.status != Active ==> s'.status == s.status && s'.step == s.step)
  }

  lemma ProcessEvolves(db: Db, now: Time, v: Visit)
    requires Inv(db) && v.sequence < |db.sequences| && db.sequences[v.sequence].status == Active
    ensures |Process(db, now, v).db.sequences| == |db.sequences|
    ensures Evolves(db.sequences[v.sequence], Process(db, now, v).db.sequences[v.sequence])
  {
    ProcessKeepsInv(db, now, v);
    NextStepIsNew(db, v.sequence);
  }

  // The last visit of a batch meets its row exactly as the batch found it: active and due.
  lemma LastVisit(db: Db, now: Time, vs: seq<Visit>)
    requires Inv(db) && ValidPick(db, now, vs) && vs != []
    ensures var front := vs[..|vs| - 1];
      && ValidPick(db, now, front)
      && var r := Visits(db, now, front);
         var id := vs[|vs| - 1].sequence;
         Inv(r.db) && r.db.contacts == db.contacts && r.db.sequences[id] == db.sequences[id]
           && IsDue(r.db.sequences[id], now)
  {
    var n := |vs| - 1;
    VisitsKeepInv(db, now, vs[..n]);
    assert forall i :: 0 <= i < n ==> vs[..n][i].sequence != vs[n].sequence;
  }

  lemma {:induction false} VisitsEvolve(db: Db, now: Time, vs: seq<Visit>, j: nat)
    requires Inv(db) && ValidPick(db, now, vs) && j < |db.sequences|
    ensures Evolves(db.sequences[j], Visits(db, now, vs).db.sequences[j])
  {
    if vs != [] {
      var n := |vs| - 1;
      LastVisit(db, now, vs);
      VisitsEvolve(db, now, vs[..n], j);
      var r := Visits(db, now, vs[..n]);
      if !r.aborted {
        ProcessKeepsInv(r.db, now, vs[n]);
        ProcessEvolves(r.db, now, vs[n]);
      }
    }
  }

  lemma StepKeepsInv(st: State, e: Event)
    requires Inv(st.db) && ValidEvent(st.db, e)
    ensures Inv(Step(st, e).db)
    ensures |st.db.sequences| <= |Step(st, e).db.sequences|
    ensures forall j :: 0 <= j < |st.db.sequences| ==> Evolves(st.db.sequences[j], Step(st, e).db.sequences[j])
    ensures st.db.log <= Step(st, e).db.log
    ensures |st.db.contacts| <= |Step(st, e).db.contacts|
    ensures forall c :: 0 <= c < |st.db.contacts| ==> Step(st, e).db.contacts[c].phone == st.db.contacts[c].phone
  {
    match e
    case EnsureEvent(q) => EnsureKeepsInv(st.db, q);
    case TickEvent(now, _, vs) =>
      VisitsKeepInv(st.db, now, vs);
      forall j | 0 <= j < |st.db.sequences|
        ensures Evolves(st.db.sequences[j], Visits(st.db, now, vs).db.sequences[j])
      {
        VisitsEvolve(st.db, now, vs, j);
      }
    case ReplyEvent(phone, sender, sim, kind, event, at) => ReplyKeepsInv(st.db, phone, sender, sim, kind, event, at);
    case StopEvent(contact, kind) => StopKeepsInv(st.db, contact, if kind == Stop then DoNotContact else ContactPaused);
  }

  /** Whole-run safety: in every state of every run from the empty database the steps logged for a
      sequence are exactly 0..step, once each and in order; active sequences have a due date and at
      most step 6; completion means step 7; contacts and (contact, campaign) pairs are unique. */
  lemma {:induction false} RunKeepsInv(trace: seq<State>, events: seq<Event>, n: nat)
    requires IsRun(trace, events) && trace[0].db == EMPTY && n < |trace|
    ensures Inv(trace[n].db)
  {
    if n == 0 {
      forall k: nat ensures LoggedSteps(EMPTY.log, k) == ExpectedSteps(EMPTY, k) {}
    } else {
      RunKeepsInv(trace, events, n - 1);
      StepKeepsInv(trace[n - 1], events[n - 1]);
    }
  }

  /** A completed or cancelled sequence never changes status or step again, and steps never go back. */
  lemma {:induction false} ClosedIsFinal(trace: seq<State>, events: seq<Event>, m: nat, n: nat, id: nat)
    requires IsRun(trace, events) && m <= n < |trace| && Inv(trace[m].db) && id < |trace[m].db.sequences|
    ensures Inv(trace[n].db) && id < |trace[n].db.sequences|
    ensures trace[m].db.sequences[id].step <= trace[n].db.sequences[id].step
    ensures trace[m].db.sequences[id].status != Active ==>
      && trace[n].db.sequences[id].status == trace[m].db.sequences[id].status
      && trace[n].db.sequences[id].step == trace[m].db.sequences[id].step
    decreases n - m
  {
    if m < n {
      ClosedIsFinal(trace, events, m, n - 1, id);
      StepKeepsInv(trace[n - 1], events[n - 1]);
      assert Evolves(trace[n - 1].db.sequences[id], trace[n].db.sequences[id]);
    }
  }

  // -------------------------------------------------------- silence after a reply

  // The phone belongs to a contact that is no longer active.
  ghost predicate Muted(db: Db, phone: Phone) {
    exists c :: 0 <= c < |db.contacts| && db.contacts[c].phone == phone && db.contacts[c].status != ContactActive
  }

  ghost predicate Unsent(wire: seq<Send>, phone: Phone) {
    forall i :: 0 <= i < |wire| ==> wire[i].phone != phone
  }

  lemma MutedVisitIsSilent(db: Db, now: Time, v: Visit, phone: Phone)
    requires Inv(db) && v.sequence < |db.sequences| && Muted(db, phone)
    ensures Unsent(Process(db, now, v).wire, phone)
  {
    var s := db.sequences[v.sequence];
    assert RowOk(db, s);
    if db.contacts[s.contact].phone == phone {
      assert db.contacts[s.contact].status != ContactActive;
    }
  }

  lemma {:induction false} MutedVisitsAreSilent(db: Db, now: Time, vs: seq<Visit>, phone: Phone)
    requires Inv(db) && ValidPick(db, now, vs) && Muted(db, phone)
    ensures Unsent(Visits(db, now, vs).wire, phone)
  {
    if vs != [] {
      var n := |vs| - 1;
      LastVisit(db, now, vs);
      MutedVisitsAreSilent(db, now, vs[..n], phone);
      MutedVisitIsSilent(Visits(db, now, vs[..n]).db, now, vs[n], phone);
    }
  }

  lemma StaysMuted(st: State, e: Event, phone: Phone)
    requires Inv(st.db) && ValidEvent(st.db, e) && Muted(st.db, phone)
    ensures Muted(Step(st, e).db, phone)
    ensures exists w :: Step(st, e).wire == st.wire + w && Unsent(w, phone)
  {
    var c :| 0 <= c < |st.db.contacts| && st.db.contacts[c].phone == phone && st.db.contacts[c].status != ContactActive;
    var st' := Step(st, e);
    StepKeepsInv(st, e);
    if e.TickEvent? {
      MutedVisitsAreSilent(st.db, e.now, e.visits, phone);
      VisitsKeepInv(st.db, e.now, e.visits);
      assert st'.wire == st.wire + Tick(st.db, e.now, e.parisHour, e.visits).wire;
    } else {
      assert st'.wire == st.wire + [];
    }
    assert st'.db.contacts[c].phone == phone && st'.db.contacts[c].status != ContactActive;
  }

  // Recording a reply from a valid phone mutes that phone, unless the event key was already used.
  lemma ReplyMutes(st: State, e: Event)
    requires Inv(st.db) && e.ReplyEvent? && e.phone.Some? && !HasKey(st.db.log, InboundKey(e.event))
    ensures Muted(Step(st, e).db, e.phone.value)
  {
    var c := EnsureContact(st.db, e.phone.value).1;
    assert Step(st, e).db.contacts[c].phone == e.phone.value;
  }

  /** Silence after a reply: once a reply from a valid phone is recorded, no continuation made of
      ticks, sequence creations, further replies and stops hands the provider a message for it. */
  lemma {:induction false} SilenceAfterReply(trace: seq<State>, events: seq<Event>, m: nat, n: nat)
    requires IsRun(trace, events) && m < n < |trace| && Inv(trace[m].db)
    requires events[m].ReplyEvent? && events[m].phone.Some? && !HasKey(trace[m].db.log, InboundKey(events[m].event))
    ensures Muted(trace[n].db, events[m].phone.value) && Inv(trace[n].db)
    ensures trace[m].wire <= trace[n].wire
    ensures Unsent(trace[n].wire[|trace[m].wire|..], events[m].phone.value)
    decreases n - m
  {
    var phone := events[m].phone.value;
    if n == m + 1 {
      ReplyMutes(trace[m], events[m]);
      StepKeepsInv(trace[m], events[m]);
    } else {
      SilenceAfterReply(trace, events, m, n - 1);
      StaysMuted(trace[n - 1], events[n - 1], phone);
      StepKeepsInv(trace[n - 1], events[n - 1]);
      var w :| trace[n].wire == trace[n - 1].wire + w && Unsent(w, phone);
      assert trace[n].wire[|trace[m].wire|..] == trace[n - 1].wire[|trace[m].wire|..] + w;
    }
  }

  ghost predicate NoActiveSequence(db: Db, contact: nat) {
    forall i :: 0 <= i < |db.sequences| && db.sequences[i].contact == contact ==> db.sequences[i].status != Active
  }

  /** After the stop step of a reply none of the contact's sequences is active, and none becomes
      active in any continuation, because nothing reopens a closed contact. */
  lemma {:induction false} StopIsFinal(trace: seq<State>, events: seq<Event>, m: nat, n: nat)
    requires IsRun(trace, events) && m < n < |trace| && Inv(trace[m].db)
    requires events[m].StopEvent? && events[m].contact < |trace[m].db.contacts|
    ensures Inv(trace[n].db) && events[m].contact < |trace[n].db.contacts|
    ensures trace[n].db.contacts[events[m].contact].status != ContactActive
    ensures NoActiveSequence(trace[n].db, events[m].contact)
    decreases n - m
  {
    var c := events[m].contact;
    StepKeepsInv(trace[n - 1], events[n - 1]) by {
      if n > m + 1 { StopIsFinal(trace, events, m, n - 1); }
    }
    if n == m + 1 {
      assert forall i :: 0 <= i < |trace[m].db.sequences| ==>
        trace[n].db.sequences[i] == StoppedRow(trace[m].db.sequences[i], c);
    } else {
      StopIsFinal(trace, events, m, n - 1);
      StillClosed(trace[n - 1], events[n - 1], c);
    }
  }

  lemma StillClosed(st: State, e: Event, c: nat)
    requires Inv(st.db) && ValidEvent(st.db, e) && c < |st.db.contacts|
    requires st.db.contacts[c].status != ContactActive && NoActiveSequence(st.db, c)
    ensures var db' := Step(st, e).db;
      c < |db'.contacts| && db'.contacts[c].status != ContactActive && NoActiveSequence(db', c)
  {
    var db' := Step(st, e).db;
    StepKeepsInv(st, e);
    if e.TickEvent? {
      VisitsKeepInv(st.db, e.now, e.visits);
    }
    forall i | 0 <= i < |db'.sequences| && db'.sequences[i].contact == c ensures db'.sequences[i].status != Active {
      if i < |st.db.sequences| {
        assert Evolves(st.db.sequences[i], db'.sequences[i]);
      }
    }
  }

  // ------------------------------------------------------------ the stop word

  // An event that turns the DO_NOT_CONTACT of contact c into PAUSED or INVALID: a reply from its phone
  // under a new event key, or the second transaction of a reply, that is not a stop itself.
  predicate Overwrites(db: Db, e: Event, c: nat)
    requires c < |db.contacts|
  {
    match e
    case ReplyEvent(phone, _, _, kind, event, _) =>
      phone == Some(db.contacts[c].phone) && kind != Stop && !HasKey(db.log, InboundKey(event))
    case StopEvent(contact, kind) => contact == c && kind != Stop
    case _ => false
  }

  predicate Refused(db: Db, c: nat)
    requires c < |db.contacts|
  {
    db.contacts[c].status == DoNotContact
  }

  /** A contact that refused further messages keeps that status through an event if and only if the
      event does not overwrite it. */
  lemma RefusalKeptIff(st: State, e: Event, c: nat)
    requires Inv(st.db) && ValidEvent(st.db, e) && c < |st.db.contacts| && Refused(st.db, c)
    ensures c < |Step(st, e).db.contacts|
    ensures Refused(Step(st, e).db, c) <==> !Overwrites(st.db, e, c)
  {
    StepKeepsInv(st, e);
    match e
    case EnsureEvent(q) =>
    case TickEvent(now, _, vs) => VisitsKeepInv(st.db, now, vs);
    case ReplyEvent(phone, _, _, _, _, _) =>
      if phone.Some? && FindContact(st.db.contacts, phone.value).Some? {
        assert FindContact(st.db.contacts, phone.value).value == c <==> phone.value == st.db.contacts[c].phone;
      }
    case StopEvent(_, _) =>
  }

  /** Over any run the status survives from one state to a later one, in every state between, if and
      only if no event between overwrites it. */
  lemma {:induction false} RefusalLastsIff(trace: seq<State>, events: seq<Event>, m: nat, n: nat, c: nat)
    requires IsRun(trace, events) && m <= n < |trace| && Inv(trace[m].db)
    requires c < |trace[m].db.contacts| && Refused(trace[m].db, c)
    ensures forall k :: m <= k <= n ==> Inv(trace[k].db) && c < |trace[k].db.contacts|
    ensures (forall k :: m <= k <= n ==> Refused(trace[k].db, c)) <==>
      (forall k :: m <= k < n ==> !Overwrites(trace[k].db, events[k], c))
    decreases n - m
  {
    if m < n {
      RefusalLastsIff(trace, events, m, n - 1, c);
      StepKeepsInv(trace[n - 1], events[n - 1]);
      assert trace[n] == Step(trace[n - 1], events[n - 1]);
      if forall k :: m <= k <= n - 1 ==> Refused(trace[k].db, c) {
        assert Refused(trace[n - 1].db, c);
        RefusalKeptIff(trace[n - 1], events[n - 1], c);
      } else {
        var k :| m <= k < n - 1 && Overwrites(trace[k].db, events[k], c);
      }
    }
  }

  /** A stop followed by an ordinary reply: DO_NOT_CONTACT becomes PAUSED. */
  lemma StopWordIsOverwritten(phone: Phone, sim: SimId)
    ensures
      var stopped := RecordInbound(EMPTY, Some(phone), phone, sim, Stop, "a", 0);
      var later := RecordInbound(stopped, Some(phone), phone, sim, Positive, "b", 1);
      stopped.contacts == [Contact(phone, DoNotContact)] && later.contacts == [Contact(phone, ContactPaused)]
  {
    var stopped := RecordInbound(EMPTY, Some(phone), phone, sim, Stop, "a", 0);
    assert stopped.log == [LogRow(sim, phone, Inbound, InboundKey("a"), 0)];
    assert FindContact(stopped.contacts, phone) == Some(0);
  }
}
