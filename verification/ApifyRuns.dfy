/** Imports and the follow-up engine together: consistency and silence over runs that mix them, and
    interrupted imports between whose attempts the engine keeps working. */
module ApifyRuns {
  import opened Prelude
  import Sms = SmsSequence
  import Runs = SmsSequenceRuns
  import opened ApifyIngestion
  import opened ApifyImports

  // ------------------------------------------------------------------ mixed runs

  // The tables, and every message the provider was handed so far.
  datatype State = State(store: Store, wire: seq<Sms.Send>)

  datatype Event =
    | EngineEvent(event: Sms.Event)
    | ImportEvent(ctx: Context, entries: seq<Entry>, clock: nat -> Time)

  function SmsOf(st: State): Sms.State {
    Sms.State(st.store.sms, st.wire)
  }

  ghost predicate IsStep(st: State, e: Event, st': State) {
    match e
    case EngineEvent(event) =>
      && Sms.ValidEvent(st.store.sms, event)
      && st' == State(st.store.(sms := Sms.Step(SmsOf(st), event).db), Sms.Step(SmsOf(st), event).wire)
    case ImportEvent(ctx, entries, clock) => st' == State(Import(st.store, ctx, entries, clock).store, st.wire)
  }

  ghost predicate IsRun(trace: seq<State>, events: seq<Event>) {
    && |trace| == |events| + 1
    && forall i :: 0 <= i < |events| ==> IsStep(trace[i], events[i], trace[i + 1])
  }

  lemma StepKeepsConsistent(st: State, e: Event, st': State)
    requires IsStep(st, e, st') && Consistent(st.store)
    ensures Consistent(st'.store)
  {
    match e
    case EngineEvent(event) => EngineKeepsConsistent(st.store, st.wire, event);
    case ImportEvent(ctx, entries, clock) => ImportKeepsConsistent(st.store, ctx, entries, clock);
  }

  /** Over any run that mixes imports, engine ticks, replies and stops, the tables stay consistent. */
  lemma {:induction false} RunKeepsConsistent(trace: seq<State>, events: seq<Event>, n: nat)
    requires IsRun(trace, events) && n < |trace| && Consistent(trace[0].store)
    ensures Consistent(trace[n].store)
  {
    if n > 0 {
      RunKeepsConsistent(trace, events, n - 1);
      StepKeepsConsistent(trace[n - 1], events[n - 1], trace[n]);
    }
  }

  lemma {:induction false} ImportKeepsMuted(st: Store, ctx: Context, entries: seq<Entry>, clock: nat -> Time,
                                            phone: string)
    requires Runs.Inv(st.sms) && Runs.Muted(st.sms, phone)
    ensures var after := Import(st, ctx, entries, clock).store.sms; Runs.Inv(after) && Runs.Muted(after, phone)
  {
    if entries != [] {
      var n := |entries| - 1;
      ImportKeepsMuted(st, ctx, entries[..n], clock, phone);
      NextImport(st, ctx, entries, clock);
      var mid := Import(st, ctx, entries[..n], clock).store;
      ImportOneIsEnsure(mid, ctx, entries[n], clock(n));
      if entries[n].lead.phone.Some? {
        var e := Sms.EnsureEvent(EntryRequest(mid, ctx, entries[n], clock(n)));
        Runs.StaysMuted(Sms.State(mid.sms, []), e, phone);
        Runs.StepKeepsInv(Sms.State(mid.sms, []), e);
      }
    }
  }

  // A message-free extension of the wire.
  ghost predicate SilentSince(wire: seq<Sms.Send>, wire': seq<Sms.Send>, phone: string) {
    wire <= wire' && Runs.Unsent(wire'[|wire|..], phone)
  }

  lemma SilentChain(a: seq<Sms.Send>, b: seq<Sms.Send>, c: seq<Sms.Send>, phone: string)
    requires SilentSince(a, b, phone) && SilentSince(b, c, phone)
    ensures SilentSince(a, c, phone)
  {
    assert c[|a|..] == b[|a|..] + c[|b|..];
  }

  lemma StepIsSilent(st: State, e: Event, st': State, phone: string)
    requires IsStep(st, e, st') && Runs.Inv(st.store.sms) && Runs.Muted(st.store.sms, phone)
    ensures Runs.Inv(st'.store.sms) && Runs.Muted(st'.store.sms, phone) && SilentSince(st.wire, st'.wire, phone)
  {
    match e
    case EngineEvent(event) =>
      Runs.StaysMuted(SmsOf(st), event, phone);
      Runs.StepKeepsInv(SmsOf(st), event);
      var w :| st'.wire == st.wire + w && Runs.Unsent(w, phone);
      assert st'.wire[|st.wire|..] == w;
    case ImportEvent(ctx, entries, clock) => ImportKeepsMuted(st.store, ctx, entries, clock, phone);
  }

  // Event m records a reply from a valid phone under a new event key.
  ghost predicate RecordsReply(st: State, e: Event, phone: string) {
    && e.EngineEvent? && e.event.ReplyEvent? && e.event.phone == Some(phone)
    && !Sms.HasKey(st.store.sms.log, Sms.InboundKey(e.event.event))
  }

  /** Silence after a reply, imports included: once a reply from a valid phone is recorded, no continuation
      made of imports, ticks, sequence creations, further replies and stops hands the provider a message
      for that phone. */
  lemma {:induction false} SilenceAfterReply(trace: seq<State>, events: seq<Event>, m: nat, n: nat, phone: string)
    requires IsRun(trace, events) && m < n < |trace| && Runs.Inv(trace[m].store.sms)
    requires RecordsReply(trace[m], events[m], phone)
    ensures Runs.Inv(trace[n].store.sms) && Runs.Muted(trace[n].store.sms, phone)
    ensures SilentSince(trace[m].wire, trace[n].wire, phone)
    decreases n
  {
    var st := trace[n - 1];
    assert IsStep(st, events[n - 1], trace[n]);
    if n == m + 1 {
      Runs.ReplyMutes(SmsOf(st), events[m].event);
      Runs.StepKeepsInv(SmsOf(st), events[m].event);
    } else {
      SilenceAfterReply(trace, events, m, n - 1, phone);
      StepIsSilent(st, events[n - 1], trace[n], phone);
      SilentChain(trace[m].wire, st.wire, trace[n].wire, phone);
    }
  }

  // ------------------------------------------------------------------ attempts with the engine between

  /** An attempt that stopped after its first `cut` entries, under the campaign status and blacklist of its
      own time, and whatever then happened to the messaging tables before the next attempt. */
  datatype Attempt = Attempt(ctx: Context, cut: nat, clock: nat -> Time, engine: Sms.Db -> Sms.Db)

  function Between(st: Store, a: Attempt): Store {
    st.(sms := a.engine(st.sms))
  }

  // The store after the attempts, each of which imports the dataset from its first entry.
  ghost function Resumed(st: Store, entries: seq<Entry>, attempts: seq<Attempt>): Store
    requires forall i :: 0 <= i < |attempts| ==> attempts[i].cut <= |entries|
  {
    if attempts == [] then st
    else
      var n := |attempts| - 1;
      var a := attempts[n];
      Between(Import(Resumed(st, entries, attempts[..n]), a.ctx, entries[..a.cut], a.clock).store, a)
  }

  // How far the attempts have come.
  function Mark(attempts: seq<Attempt>): nat {
    if attempts == [] then 0
    else
      var before, cut := Mark(attempts[..|attempts| - 1]), attempts[|attempts| - 1].cut;
      if cut > before then cut else before
  }

  // Importing the entries from `first` up to `cut`, each at its own time.
  function ImportFrom(st: Store, ctx: Context, entries: seq<Entry>, first: nat, cut: nat, clock: nat -> Time): Result
    requires cut <= |entries|
  {
    if cut <= first then Result(st, ZERO)
    else Next(ImportFrom(st, ctx, entries, first, cut - 1, clock), ctx, entries[cut - 1], clock(cut - 1))
  }

  // The same attempts, when each imports only the entries no attempt has reached before.
  ghost function Woven(st: Store, entries: seq<Entry>, attempts: seq<Attempt>): Store
    requires forall i :: 0 <= i < |attempts| ==> attempts[i].cut <= |entries|
  {
    if attempts == [] then st
    else
      var n := |attempts| - 1;
      var a := attempts[n];
      var before := Woven(st, entries, attempts[..n]);
      Between(ImportFrom(before, a.ctx, entries, Mark(attempts[..n]), a.cut, a.clock).store, a)
  }

  lemma {:induction false} MarkIsWithin(entries: seq<Entry>, attempts: seq<Attempt>)
    requires forall i :: 0 <= i < |attempts| ==> attempts[i].cut <= |entries|
    ensures Mark(attempts) <= |entries|
  {
    if attempts != [] {
      MarkIsWithin(entries, attempts[..|attempts| - 1]);
    }
  }

  lemma RecordedPrefix(items: seq<Item>, ctx: Context, entries: seq<Entry>, n: nat)
    requires n <= |entries| && Recorded(items, ctx, entries)
    ensures Recorded(items, ctx, entries[..n])
  {
    forall i | 0 <= i < n ensures FindItem(items, ctx, entries[..n][i]).Some? {
      assert entries[..n][i] == entries[i];
    }
  }

  // The entry handled next is the same, at the same time, from the same store.
  lemma SkipsNext(st: Store, ctx: Context, entries: seq<Entry>, cut: nat, m: nat, clock: nat -> Time)
    requires m < cut <= |entries|
    requires Import(st, ctx, entries[..cut - 1], clock).store == ImportFrom(st, ctx, entries, m, cut - 1, clock).store
    ensures Import(st, ctx, entries[..cut], clock).store == ImportFrom(st, ctx, entries, m, cut, clock).store
  {
    assert entries[..cut][..cut - 1] == entries[..cut - 1];
    NextImport(st, ctx, entries[..cut], clock);
    SameNext(Import(st, ctx, entries[..cut - 1], clock), ImportFrom(st, ctx, entries, m, cut - 1, clock),
             ctx, entries[cut - 1], clock(cut - 1));
  }

  lemma SameNext(r: Result, r': Result, ctx: Context, e: Entry, now: Time)
    requires r'.store == r.store
    ensures Next(r', ctx, e, now).store == Next(r, ctx, e, now).store
  {
  }

  // From a store that knows the first m entries, an import only does the rest.
  lemma {:induction false} ImportSkips(st: Store, ctx: Context, entries: seq<Entry>, cut: nat, m: nat,
                                       clock: nat -> Time)
    requires m <= |entries| && cut <= |entries| && Recorded(st.items, ctx, entries[..m])
    ensures Import(st, ctx, entries[..cut], clock).store == ImportFrom(st, ctx, entries, m, cut, clock).store
  {
    if cut > m {
      ImportSkips(st, ctx, entries, cut - 1, m, clock);
      SkipsNext(st, ctx, entries, cut, m, clock);
    } else {
      assert entries[..m][..cut] == entries[..cut];
      RecordedPrefix(st.items, ctx, entries[..m], cut);
      RecordedIsNoop(st, ctx, entries[..cut], clock);
    }
  }

  // An import of the first `cut` entries leaves the first `cut`, and the ones known before, recorded.
  lemma ImportRecords(st: Store, ctx: Context, entries: seq<Entry>, cut: nat, m: nat, clock: nat -> Time)
    requires m <= |entries| && cut <= |entries| && Recorded(st.items, ctx, entries[..m])
    ensures var items := Import(st, ctx, entries[..cut], clock).store.items;
      Recorded(items, ctx, entries[..if cut > m then cut else m])
  {
    CountersMatchItems(st, ctx, entries[..cut], clock);
    TallyStable(st.items, Import(st, ctx, entries[..cut], clock).store.items, ctx, entries[..m]);
  }

  ghost predicate OneRun(ctx: Context, attempts: seq<Attempt>) {
    forall i :: 0 <= i < |attempts| ==> attempts[i].ctx.account == ctx.account && attempts[i].ctx.run == ctx.run
  }

  /** Interrupted imports with the engine at work between them: whatever happens to the messaging tables
      after each attempt, and whatever the campaign and the blacklist have become, the attempts leave
      exactly the tables of an import that handles every entry once, in the attempt that first reaches it. */
  lemma {:induction false} AttemptsWeave(st: Store, ctx: Context, entries: seq<Entry>, attempts: seq<Attempt>)
    requires (forall i :: 0 <= i < |attempts| ==> attempts[i].cut <= |entries|) && OneRun(ctx, attempts)
    ensures Resumed(st, entries, attempts) == Woven(st, entries, attempts)
    ensures Mark(attempts) <= |entries|
    ensures Recorded(Resumed(st, entries, attempts).items, ctx, entries[..Mark(attempts)])
  {
    MarkIsWithin(entries, attempts);
    if attempts != [] {
      var n := |attempts| - 1;
      var a := attempts[n];
      var m := Mark(attempts[..n]);
      AttemptsWeave(st, ctx, entries, attempts[..n]);
      var before := Resumed(st, entries, attempts[..n]);
      SameRunSameRows(before.items, ctx, a.ctx, entries[..m]);
      ImportSkips(before, a.ctx, entries, a.cut, m, a.clock);
      ImportRecords(before, a.ctx, entries, a.cut, m, a.clock);
      SameRunSameRows(Import(before, a.ctx, entries[..a.cut], a.clock).store.items, a.ctx, ctx,
                      entries[..Mark(attempts)]);
    }
  }

  /** The full import that follows such attempts handles only what none of them reached, and returns the
      read, actionable and exception counters of the final item table. */
  lemma ResumeAfterEngine(st: Store, ctx: Context, entries: seq<Entry>, attempts: seq<Attempt>, clock: nat -> Time)
    requires (forall i :: 0 <= i < |attempts| ==> attempts[i].cut <= |entries|) && OneRun(ctx, attempts)
    ensures Mark(attempts) <= |entries|
    ensures var last := Import(Resumed(st, entries, attempts), ctx, entries, clock);
      var m := Mark(attempts);
      && last.store == ImportFrom(Woven(st, entries, attempts), ctx, entries, m, |entries|, clock).store
      && last.counters.(sequencesCreated := 0) == Tally(last.store.items, ctx, entries)
  {
    var m, before := Mark(attempts), Resumed(st, entries, attempts);
    AttemptsWeave(st, ctx, entries, attempts);
    assert entries[..|entries|] == entries;
    ImportSkips(before, ctx, entries, |entries|, m, clock);
    CountersMatchItems(before, ctx, entries, clock);
  }
}
