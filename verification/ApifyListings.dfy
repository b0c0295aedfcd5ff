/** What imports do to listings: they add rows and fill gaps, and never change what a listing knows. */
module ApifyListings {
  import opened Prelude
  import Sms = SmsSequence
  import opened ApifyIngestion
  import opened ApifyImports

  // A listing keeps what it knows: an import only fills gaps.
  ghost predicate Gains(l: Listing, l': Listing) {
    && l'.url == l.url && l'.source == l.source
    && (l.campaign.Some? ==> l'.campaign == l.campaign)
    && (l.sector.Some? ==> l'.sector == l.sector)
    && (Truthy(l.title) ==> l'.title == l.title)
    && (Truthy(l.phone) ==> l'.phone == l.phone)
    && (l.contact.Some? ==> l'.contact.Some?)
  }

  ghost predicate AllGain(before: seq<Listing>, after: seq<Listing>) {
    |before| <= |after| && forall i :: 0 <= i < |before| ==> Gains(before[i], after[i])
  }

  lemma GainsCompose(a: seq<Listing>, b: seq<Listing>, c: seq<Listing>)
    requires AllGain(a, b) && AllGain(b, c)
    ensures AllGain(a, c)
  {
    forall i | 0 <= i < |a| ensures Gains(a[i], c[i]) {
      assert Gains(a[i], b[i]) && Gains(b[i], c[i]);
    }
  }

  lemma UpsertGains(listings: seq<Listing>, ctx: Context, e: Entry)
    ensures AllGain(listings, UpsertListing(listings, ctx, e).0)
  {
  }

  lemma LinkGains(listings: seq<Listing>, listing: Option<nat>, contact: nat)
    ensures AllGain(listings, LinkContact(listings, listing, contact))
  {
  }

  lemma ActionableGains(st: Store, ctx: Context, e: Entry, phone: string, now: Time)
    ensures AllGain(st.listings, ImportActionable(st, ctx, e, phone, now).0.listings)
  {
    var (listings, listing) := UpsertListing(st.listings, ctx, e);
    UpsertGains(st.listings, ctx, e);
    var result := Sms.EnsureSequence(st.sms, Request(ctx, phone, listing, e.lead.context, now)).1;
    if result.ContactClosed? || result.Scheduled? {
      LinkGains(listings, listing, result.contact);
      GainsCompose(st.listings, listings, LinkContact(listings, listing, result.contact));
    }
  }

  lemma ImportOneGains(st: Store, ctx: Context, e: Entry, now: Time)
    ensures AllGain(st.listings, ImportOne(st, ctx, e, now).0.listings)
  {
    if e.lead.phone.Some? {
      ActionableGains(st, ctx, e, e.lead.phone.value, now);
    }
  }

  /** Over any import, and so over any series of them, a listing never loses or changes a campaign, sector,
      title or phone it has; rows are only added. */
  lemma {:induction false} ListingsOnlyGain(st: Store, ctx: Context, entries: seq<Entry>, clock: nat -> Time)
    ensures AllGain(st.listings, Import(st, ctx, entries, clock).store.listings)
  {
    if entries != [] {
      var n := |entries| - 1;
      var mid := Import(st, ctx, entries[..n], clock).store;
      ListingsOnlyGain(st, ctx, entries[..n], clock);
      ImportOneGains(mid, ctx, entries[n], clock(n));
      NextImport(st, ctx, entries, clock);
      GainsCompose(st.listings, mid.listings, Import(st, ctx, entries, clock).store.listings);
    }
  }
}
