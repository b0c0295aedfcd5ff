/** What single operations of the follow-up engine do, and exactly when: closing a sequence, handing over
    a message, scheduling a contact and settling a reply. */
module SmsEffects {
  import opened Prelude
  import opened SmsSequence
  import opened SmsSequenceRuns
  import opened SmsWire

  // ------------------------------------------------------------------ visits

  /** A visit cancels its sequence, and counts it as stopped, if and only if the contact or the campaign is
      gone, the contact is not active, or its phone is blacklisted; it then changes nothing else. */
  lemma CancelsIff(db: Db, now: Time, v: Visit)
    requires Inv(db) && v.sequence < |db.sequences| && IsDue(db.sequences[v.sequence], now)
    ensures var o, s := Process(db, now, v), db.sequences[v.sequence];
      var closed := v.quota.None? || v.blacklisted || db.contacts[s.contact].status != ContactActive;
      && |o.db.sequences| == |db.sequences|
      && (closed <==> o.db.sequences[v.sequence].status == Cancelled)
      && (closed <==> o.stopped == 1)
      && (closed ==>
            o.db == db.(sequences := db.sequences[v.sequence := s.(status := Cancelled)]) && o.wire == [] && !o.aborted)
  {
    NextStepIsNew(db, v.sequence);
    assert RowOk(db, db.sequences[v.sequence]);
  }

  /** A visit hands the provider a message if and only if contact and campaign are open and some SIM is
      eligible: the next step, to the contact's phone, from the first eligible SIM. An accepted message is
      logged with that SIM and phone, and no other visit logs anything. */
  lemma HandsOverIff(db: Db, now: Time, v: Visit)
    requires Inv(db) && v.sequence < |db.sequences| && IsDue(db.sequences[v.sequence], now)
    ensures var o, s := Process(db, now, v), db.sequences[v.sequence];
      && (o.wire != [] <==>
            && IsOpen(db, v) && v.sims.Some?
            && exists i :: 0 <= i < |v.sims.value|
                 && SimEligible(db.log, now, v.quota.value, v.allowed, v.sims.value[i]))
      && (o.wire != [] ==>
            && v.quota.Some? && v.sims.Some? && s.contact < |db.contacts|
            && |o.wire| == 1 && o.wire[0].sequence == v.sequence && o.wire[0].step == s.step + 1
            && o.wire[0].phone == db.contacts[s.contact].phone && o.wire[0].reply == v.reply
            && exists i :: 0 <= i < |v.sims.value| && v.sims.value[i].id == o.wire[0].sim
                 && FirstAt(db.log, now, v.quota.value, v.allowed, v.sims.value, i))
      && o.db.log == (if o.wire != [] && v.reply == Accepted
                      then db.log + [LogRow(o.wire[0].sim, o.wire[0].phone, Outbound,
                                            SequenceKey(v.sequence, s.step + 1), v.sentAt)]
                      else db.log)
  {
    NextStepIsNew(db, v.sequence);
    assert RowOk(db, db.sequences[v.sequence]);
    if IsOpen(db, v) && v.sims.Some? {
      FirstEligibleIff(db.log, now, v.quota.value, v.allowed, v.sims.value);
    }
  }

  /** A SIM is eligible if and only if it is active, has sent fewer messages today than the campaign's
      quota and, when the sector lists SIMs, is listed and under its own daily limit. */
  lemma EligibleIff(log: seq<LogRow>, now: Time, quota: int, allowed: map<SimId, int>, sim: Sim)
    ensures var used := CountSince(log, sim.id, now - now % DAY);
      SimEligible(log, now, quota, allowed, sim) <==>
        sim.active && used < quota && (allowed != map[] ==> sim.id in allowed && used < allowed[sim.id])
  {
    assert allowed == map[] ==> sim.id !in allowed;
  }

  /** A tick with something due visits it if and only if it is made from 8:00 to before 20:00, Paris time. */
  lemma TickRunsIff(db: Db, now: Time, hour: int, vs: seq<Visit>)
    requires ValidPick(db, now, vs) && vs != []
    ensures Tick(db, now, hour, vs).processed > 0 <==> 8 <= hour < 20
    ensures !(8 <= hour < 20) ==> Tick(db, now, hour, vs) == Progress(db, [], 0, 0, 0, false)
  {
    SomeVisit(db, now, vs);
  }

  lemma {:induction false} SomeVisit(db: Db, now: Time, vs: seq<Visit>)
    requires vs != [] && forall v :: v in vs ==> v.sequence < |db.sequences|
    ensures Visits(db, now, vs).processed > 0
  {
    if |vs| > 1 {
      SomeVisit(db, now, vs[..|vs| - 1]);
    }
  }

  // ------------------------------------------------------------------ scheduling

  // The contact holding the request's phone, if any.
  ghost predicate Holds(db: Db, q: EnsureRequest, c: nat) {
    c < |db.contacts| && q.phone == Some(db.contacts[c].phone)
  }

  ghost predicate HoldsClosed(db: Db, q: EnsureRequest, c: nat) {
    Holds(db, q, c) && db.contacts[c].status != ContactActive
  }

  ghost predicate Refused(q: EnsureRequest) {
    q.phone.None? || q.blacklisted || !q.campaignRunning
  }

  /** A request is refused, without any change, for the first of these reasons: the text holds no phone,
      the phone is blacklisted, the campaign is not running, the contact is known and not active. */
  lemma EnsureRefusesIff(db: Db, q: EnsureRequest)
    requires Inv(db)
    ensures var (db', r) := EnsureSequence(db, q);
      && (r.InvalidPhone? <==> q.phone.None?)
      && (r.Blacklisted? <==> q.phone.Some? && q.blacklisted)
      && (r.CampaignNotRunning? <==> q.phone.Some? && !q.blacklisted && !q.campaignRunning)
      && (r.ContactClosed? <==> !Refused(q) && exists c: nat :: HoldsClosed(db, q, c))
      && (r.ContactClosed? ==>
            Holds(db, q, r.contact) && r.status == db.contacts[r.contact].status && r.phone == q.phone.value)
      && (!r.Scheduled? ==> db' == db)
  {
    if !Refused(q) {
      var found := FindContact(db.contacts, q.phone.value);
      if found.Some? {
        assert HoldsClosed(db, q, found.value) <==> db.contacts[found.value].status != ContactActive;
        forall c: nat | Holds(db, q, c) ensures c == found.value {}
      }
    }
  }

  /** A scheduled request creates the contact when its phone is new, and then finds or creates the one
      sequence of contact and campaign: a new one starts active before step 0 and due at once; a known one
      keeps status, step and due date, takes the new context over the old, and gets a listing only if it
      has none. */
  lemma EnsureSchedules(db: Db, q: EnsureRequest)
    requires Inv(db) && EnsureSequence(db, q).1.Scheduled?
    ensures var (db', r) := EnsureSequence(db, q);
      && Holds(db', q, r.contact) && r.phone == q.phone.value && db'.log == db.log
      && (if exists c: nat :: Holds(db, q, c) then db'.contacts == db.contacts
          else db'.contacts == db.contacts + [Contact(q.phone.value, ContactActive)])
      && r.sequence < |db'.sequences|
      && db'.sequences[r.sequence].contact == r.contact && db'.sequences[r.sequence].campaign == q.campaign
      && (r.created ==>
            && db'.sequences[..|db.sequences|] == db.sequences && |db'.sequences| == |db.sequences| + 1
            && var s := db'.sequences[r.sequence];
               s.step == -1 && s.status == Active && s.due == Some(q.now) && s.created == q.created
               && s.listing == q.listing && s.context == q.context)
      && (!r.created ==>
            && |db'.sequences| == |db.sequences|
            && (forall i :: 0 <= i < |db.sequences| && i != r.sequence ==> db'.sequences[i] == db.sequences[i])
            && var was, s := db.sequences[r.sequence], db'.sequences[r.sequence];
               s.step == was.step && s.status == was.status && s.due == was.due && s.created == was.created
               && s.listing == (if was.listing.Some? then was.listing else q.listing)
               && s.context.Keys == was.context.Keys + q.context.Keys
               && forall k :: k in s.context ==>
                    s.context[k] == if k in q.context then q.context[k] else was.context[k])
  {
    if FindContact(db.contacts, q.phone.value).Some? {
      assert Holds(db, q, FindContact(db.contacts, q.phone.value).value);
    }
  }

  // ------------------------------------------------------------------ replies

  // What a reply of each kind makes of its contact, before its sequences are stopped.
  ghost predicate Settles(kind: Classification, status: ContactStatus) {
    && (status == DoNotContact <==> kind == Stop)
    && (status == ContactInvalid <==> kind == Invalid)
    && (status == ContactPaused <==> kind != Stop && kind != Invalid)
  }

  /** A reply under a new event key from a valid phone is logged as inbound and settles the contact of that
      phone, creating it if needed; every other contact, and every sequence, stays as it is. */
  lemma ReplySettles(db: Db, phone: Phone, sender: string, sim: SimId, kind: Classification, event: string, at: Time)
    requires Inv(db) && !HasKey(db.log, InboundKey(event))
    ensures var db' := RecordInbound(db, Some(phone), sender, sim, kind, event, at);
      && db'.log == db.log + [LogRow(sim, phone, Inbound, InboundKey(event), at)]
      && db'.sequences == db.sequences
      && (exists c :: 0 <= c < |db'.contacts| && db'.contacts[c].phone == phone)
      && (forall c :: 0 <= c < |db'.contacts| && db'.contacts[c].phone == phone ==>
            Settles(kind, db'.contacts[c].status))
      && (forall c :: 0 <= c < |db.contacts| && db.contacts[c].phone != phone ==>
            c < |db'.contacts| && db'.contacts[c] == db.contacts[c])
  {
    ReplyKeepsInv(db, Some(phone), sender, sim, kind, event, at);
    var db' := RecordInbound(db, Some(phone), sender, sim, kind, event, at);
    var c := EnsureContact(db, phone).1;
    assert db'.contacts[c].phone == phone;
  }

  /** A reply under a known event key changes nothing, and one from a sender without a valid phone is only
      logged, with the sender as it came. */
  lemma ReplyWithoutContact(db: Db, phone: Option<Phone>, sender: string, sim: SimId, kind: Classification,
                            event: string, at: Time)
    ensures var db' := RecordInbound(db, phone, sender, sim, kind, event, at);
      && (HasKey(db.log, InboundKey(event)) ==> db' == db)
      && (!HasKey(db.log, InboundKey(event)) && phone.None? ==>
            db' == db.(log := db.log + [LogRow(sim, sender, Inbound, InboundKey(event), at)]))
  {
  }

  /** Stopping a contact cancels its active sequences and clears their due dates, and nothing else changes
      but the contact's status: after both transactions of a reply it is DO_NOT_CONTACT for a stop and
      PAUSED for every other kind, INVALID included. */
  lemma StopSettles(st: State, contact: nat, kind: Classification)
    requires contact < |st.db.contacts|
    ensures var db, db' := st.db, Step(st, StopEvent(contact, kind)).db;
      && db'.log == db.log && |db'.sequences| == |db.sequences| && |db'.contacts| == |db.contacts|
      && db'.contacts[contact].status == (if kind == Stop then DoNotContact else ContactPaused)
      && (forall c :: 0 <= c < |db.contacts| && c != contact ==> db'.contacts[c] == db.contacts[c])
      && (forall i :: 0 <= i < |db.sequences| ==>
            if db.sequences[i].contact == contact && db.sequences[i].status == Active
            then db'.sequences[i].status == Cancelled && db'.sequences[i].due == None
            else db'.sequences[i] == db.sequences[i])
  {
  }
}
