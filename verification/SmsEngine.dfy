/** The follow-up engine in the form of the source: rows updated in place, one visit after another.
    Every method is proved against the functions of SmsSequence, about which the runs are proved. */
module SmsEngine {
  import opened Prelude
  import opened SmsSequence
  import opened SmsSequenceRuns

  class MessagingStore {
    var contacts: seq<Contact>
    var sequences: seq<Sequence>
    var log: seq<LogRow>

    function Rows(): Db
      reads this
    {
      Db(contacts, sequences, log)
    }

    constructor ()
      ensures Rows() == EMPTY && Inv(Rows())
    {
      contacts, sequences, log := [], [], [];
      new;
      forall k: nat ensures LoggedSteps(log, k) == ExpectedSteps(Rows(), k) {}
    }

    // Creates or reuses the sequence of one contact in one campaign.
    method EnsureContactSequence(q: EnsureRequest) returns (r: EnsureResult)
      modifies this
      ensures Rows() == EnsureSequence(old(Rows()), q).0
      ensures r == EnsureSequence(old(Rows()), q).1
      ensures old(Inv(Rows())) ==> Inv(Rows())
    {
      ghost var before := Rows();
      if Inv(before) {
        EnsureKeepsInv(before, q);
      }
      if q.phone.None? {
        return InvalidPhone;
      }
      if q.blacklisted {
        return Blacklisted(q.phone.value);
      }
      if !q.campaignRunning {
        return CampaignNotRunning;
      }
      var phone := q.phone.value;
      var contact: nat;
      match FindContact(contacts, phone) {
        case None =>
          contact := |contacts|;
          contacts := contacts + [Contact(phone, ContactActive)];
        case Some(c) =>
          contact := c;
          if contacts[c].status != ContactActive {
            return ContactClosed(phone, c, contacts[c].status);
          }
      }
      match FindSequence(sequences, contact, q.campaign) {
        case None =>
          sequences := sequences + [Sequence(contact, q.campaign, q.listing, q.context, -1, Some(q.now), Active,
                                             q.created)];
          return Scheduled(phone, contact, |sequences| - 1, true);
        case Some(i) =>
          var s := sequences[i].(context := sequences[i].context + q.context);
          if s.listing.None? && q.listing.Some? {
            s := s.(listing := q.listing);
          }
          sequences := sequences[i := s];
          return Scheduled(phone, contact, i, false);
      }
    }

    // The first SIM that is active, allowed in the sector and under its quota for today.
    method PickSim(now: Time, quota: int, allowed: map<SimId, int>, sims: seq<Sim>) returns (r: Option<SimId>)
      ensures r == FirstEligible(log, now, quota, allowed, sims)
    {
      var i := 0;
      while i < |sims|
        invariant 0 <= i <= |sims|
        invariant FirstEligible(log, now, quota, allowed, sims) == FirstEligible(log, now, quota, allowed, sims[i..])
      {
        if SimEligible(log, now, quota, allowed, sims[i]) {
          return Some(sims[i].id);
        }
        i := i + 1;
      }
      return None;
    }

    // Handles one due sequence; `ok` is false when an exception leaves the loop.
    method Handle(now: Time, v: Visit) returns (wire: seq<Send>, sent: nat, stopped: nat, ok: bool)
      requires v.sequence < |sequences|
      modifies this
      ensures Outcome(Rows(), wire, sent, stopped, !ok) == Process(old(Rows()), now, v)
    {
      wire, sent, stopped, ok := [], 0, 0, true;
      var s := sequences[v.sequence];
      if s.contact >= |contacts| || v.quota.None? {
        sequences := sequences[v.sequence := s.(status := Cancelled)];
        stopped := 1;
        return;
      }
      if contacts[s.contact].status != ContactActive || v.blacklisted {
        sequences := sequences[v.sequence := s.(status := Cancelled)];
        stopped := 1;
        return;
      }
      var step := s.step + 1;
      if step >= STEPS {
        sequences := sequences[v.sequence := s.(status := Completed)];
        stopped := 1;
        return;
      }
      if v.sims.None? {
        ok := false;
        return;
      }
      var sim := PickSim(now, v.quota.value, v.allowed, v.sims.value);
      if sim.None? {
        return;
      }
      if HasKey(log, SequenceKey(v.sequence, step)) {
        var next := FollowUpDue(step, s.created, v.followUp);
        if next.Unschedulable? {
          ok := false;
        } else {
          sequences := sequences[v.sequence :=
            s.(step := step, due := next.at, status := if next.at.None? then Completed else Active)];
        }
        return;
      }
      var phone := contacts[s.contact].phone;
      wire := [Send(v.sequence, step, sim.value, phone, v.reply)];
      if v.reply != Accepted {
        return;
      }
      log := log + [LogRow(sim.value, phone, Outbound, SequenceKey(v.sequence, step), v.sentAt)];
      sequences := sequences[v.sequence := s.(step := step)];
      var next := FollowUpDue(step, s.created, v.followUp);
      if next.Unschedulable? {
        return;
      }
      sequences := sequences[v.sequence :=
        s.(step := step, due := next.at, status := if next.at.None? then Completed else Active)];
      sent := 1;
    }

    // The visits in order, up to the first that raises.
    method VisitAll(now: Time, vs: seq<Visit>) returns (r: Progress)
      requires forall v :: v in vs ==> v.sequence < |sequences|
      modifies this
      ensures r == Visits(old(Rows()), now, vs) && r.db == Rows()
    {
      ghost var before := Rows();
      r := Progress(Rows(), [], 0, 0, 0, false);
      var i := 0;
      while i < |vs| && !r.aborted
        invariant 0 <= i <= |vs|
        invariant r == Visits(before, now, vs[..i]) && r.db == Rows()
      {
        ExtendVisits(before, now, vs, i);
        var wire, sent, stopped, ok := Handle(now, vs[i]);
        r := Progress(Rows(), r.wire + wire, r.processed + 1, r.sent + sent, r.stopped + stopped, !ok);
        i := i + 1;
      }
      if i < |vs| {
        RaisedEarly(before, now, vs, i);
      } else {
        assert vs[..i] == vs;
      }
    }

    // One engine run over the due sequences the query returned; an exception rolls the rows back.
    method RunDueSequences(now: Time, parisHour: int, vs: seq<Visit>) returns (r: Progress)
      requires forall v :: v in vs ==> v.sequence < |sequences|
      modifies this
      ensures r == Tick(old(Rows()), now, parisHour, vs) && r.db == Rows()
      ensures old(Inv(Rows()) && ValidPick(Rows(), now, vs)) ==> Inv(Rows())
    {
      ghost var before := Rows();
      if Inv(before) && ValidPick(before, now, vs) {
        VisitsKeepInv(before, now, vs);
      }
      if !(SMS_HOUR_START <= parisHour < SMS_HOUR_END) {
        return Progress(Rows(), [], 0, 0, 0, false);
      }
      var contacts0, sequences0, log0 := contacts, sequences, log;
      r := VisitAll(now, vs);
      if r.aborted {
        contacts, sequences, log := contacts0, sequences0, log0;
        r := r.(db := Rows());
      }
    }

    method RecordInboundSms(phone: Option<Phone>, sender: string, sim: SimId, kind: Classification, event: string,
                            at: Time)
      modifies this
      ensures Rows() == RecordInbound(old(Rows()), phone, sender, sim, kind, event, at)
      ensures old(Inv(Rows())) ==> Inv(Rows())
    {
      ghost var before := Rows();
      if Inv(before) {
        ReplyKeepsInv(before, phone, sender, sim, kind, event, at);
      }
      if HasKey(log, InboundKey(event)) {
        return;
      }
      if phone.None? {
        log := log + [LogRow(sim, sender, Inbound, InboundKey(event), at)];
        return;
      }
      var contact: nat;
      match FindContact(contacts, phone.value) {
        case None =>
          contact := |contacts|;
          contacts := contacts + [Contact(phone.value, ContactActive)];
        case Some(c) =>
          contact := c;
      }
      log := log + [LogRow(sim, phone.value, Inbound, InboundKey(event), at)];
      var status :=
        if kind == Stop then DoNotContact
        else if kind == Invalid then ContactInvalid
        else ContactPaused;
      contacts := contacts[contact := contacts[contact].(status := status)];
    }

    method StopContactSequences(contact: nat, status: ContactStatus)
      modifies this
      ensures Rows() == StopSequences(old(Rows()), contact, status)
      ensures old(Inv(Rows())) ==> Inv(Rows())
    {
      ghost var before := Rows();
      if Inv(before) {
        StopKeepsInv(before, contact, status);
      }
      if contact < |contacts| {
        contacts := contacts[contact := contacts[contact].(status := status)];
      }
      var rows := sequences;
      sequences := seq(|rows|, i requires 0 <= i < |rows| =>
        if rows[i].contact == contact && rows[i].status == Active
        then rows[i].(status := Cancelled, due := None)
        else rows[i]);
      assert sequences == StopSequences(before, contact, status).sequences;
    }
  }
}
