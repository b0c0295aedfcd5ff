/** Which phone of a payload is chosen, read off the places where its phones are: the path the profile
    maps, the contact paths of the schema, keys that name a phone, and everywhere else. */
module PhoneRanks {
  import opened Prelude
  import opened PayloadFlattening
  import opened PayloadOrder
  import opened PhoneChoice
  import opened PhoneOrder

  // The places of phones, best first.
  datatype Place = Mapped | InSchema | NamedKey | Elsewhere

  ghost predicate IsIn(path: string, rules: Rules, place: Place) {
    var mapped, schema, named := rules.preferred == Some(path), path in rules.schemaPaths, rules.phoneKey(path);
    match place
    case Mapped => mapped
    case InSchema => !mapped && schema
    case NamedKey => !mapped && !schema && named
    case Elsewhere => !mapped && !schema && !named
  }

  // The payload holds this phone at this path.
  ghost predicate PhoneAt(v: Json, rules: Rules, path: string, phone: string) {
    Lookup(Flat(v), path).Some? && rules.extract(Lookup(Flat(v), path).value) == Some(phone)
  }

  ghost predicate PhoneIn(v: Json, rules: Rules, place: Place, phone: string) {
    exists path :: PhoneAt(v, rules, path, phone) && IsIn(path, rules, place)
  }

  ghost predicate Better(a: Place, b: Place) {
    match b
    case Mapped => false
    case InSchema => a == Mapped
    case NamedKey => a == Mapped || a == InSchema
    case Elsewhere => a != Elsewhere
  }

  // The best place that holds a phone.
  ghost predicate IsBest(v: Json, rules: Rules, place: Place) {
    && (exists phone :: PhoneIn(v, rules, place, phone))
    && (forall other, phone :: Better(other, place) ==> !PhoneIn(v, rules, other, phone))
  }

  // The score reported for a phone of this place.
  function Reported(place: Place): int {
    match place
    case Mapped => 110
    case InSchema => 100
    case NamedKey => 80
    case Elsewhere => 40
  }

  // The candidates are the phones, each with the score of its place.
  lemma CandidatesByPlace(v: Json, rules: Rules)
    ensures var cs := Candidates(Flat(v), rules);
      && (forall c :: c in cs ==> PhoneAt(v, rules, c.path, c.value))
      && (forall c, place :: c in cs && IsIn(c.path, rules, place) ==> c.score == Reported(place))
      && (forall path, phone, place :: PhoneAt(v, rules, path, phone) && IsIn(path, rules, place) ==>
            Candidate(path, phone, Reported(place)) in cs)
  {
    LaterValueWins(v, "");
    CandidatesOfPaths(Flat(v), rules);
  }

  lemma SomePlace(path: string, rules: Rules) returns (place: Place)
    ensures IsIn(path, rules, place)
  {
    place :=
      if rules.preferred == Some(path) then Mapped
      else if path in rules.schemaPaths then InSchema
      else if rules.phoneKey(path) then NamedKey
      else Elsewhere;
  }

  // Every candidate is of the best place, or ten points behind it.
  lemma BestIsAhead(v: Json, rules: Rules, place: Place)
    requires IsBest(v, rules, place)
    ensures forall c :: c in Candidates(Flat(v), rules) ==>
      if IsIn(c.path, rules, place) then c.score == Reported(place) else c.score <= Reported(place) - 10
  {
    CandidatesByPlace(v, rules);
    forall c | c in Candidates(Flat(v), rules)
      ensures if IsIn(c.path, rules, place) then c.score == Reported(place) else c.score <= Reported(place) - 10
    {
      var own := SomePlace(c.path, rules);
      assert PhoneIn(v, rules, own, c.value);
      assert !Better(own, place);
    }
  }

  /** When the best place that holds a phone holds a single one, that phone is chosen over any phone
      elsewhere, with the score of its place: 110 for the mapped path, 100 for the schema, 80 for a key
      that names a phone, 40 for any other path. */
  lemma BestPhoneWins(v: Json, rules: Rules, place: Place, phone: string, choice: Choice)
    requires IsBest(v, rules, place) && PhoneIn(v, rules, place, phone)
    requires forall other :: PhoneIn(v, rules, place, other) ==> other == phone
    requires IsAnswer(Candidates(Flat(v), rules), choice)
    ensures choice.Chosen? && choice.phone.value == phone && IsIn(choice.phone.path, rules, place)
    ensures choice.phone.score == Reported(place)
  {
    var cs := Candidates(Flat(v), rules);
    CandidatesByPlace(v, rules);
    BestIsAhead(v, rules, place);
    var path :| PhoneAt(v, rules, path, phone) && IsIn(path, rules, place);
    var best := Candidate(path, phone, Reported(place));
    forall d | d in cs && d.value != phone ensures d.score <= best.score - 10 {
      if IsIn(d.path, rules, place) {
        assert PhoneIn(v, rules, place, d.value);
      }
    }
    assert Top(cs, best);
    CloseToAnyTop(cs, best);
  }

  /** When the best place that holds a phone holds two different ones, the lead is an exception, with the
      score of that place. */
  lemma TwoBestPhonesClash(v: Json, rules: Rules, place: Place, phone: string, other: string, choice: Choice)
    requires IsBest(v, rules, place) && phone != other
    requires PhoneIn(v, rules, place, phone) && PhoneIn(v, rules, place, other)
    requires IsAnswer(Candidates(Flat(v), rules), choice)
    ensures choice.Ambiguous? && IsIn(choice.top.path, rules, place)
    ensures choice.top.score == Reported(place)
  {
    var cs := Candidates(Flat(v), rules);
    CandidatesByPlace(v, rules);
    BestIsAhead(v, rules, place);
    var path :| PhoneAt(v, rules, path, phone) && IsIn(path, rules, place);
    var path' :| PhoneAt(v, rules, path', other) && IsIn(path', rules, place);
    var c, d := Candidate(path, phone, Reported(place)), Candidate(path', other, Reported(place));
    assert Top(cs, c) && d in cs;
    assert TooClose(cs);
  }

  /** No phone is chosen exactly when the payload holds none. */
  lemma NoPhoneIff(v: Json, rules: Rules, choice: Choice)
    requires IsAnswer(Candidates(Flat(v), rules), choice)
    ensures choice == NoPhone <==> forall path, phone :: !PhoneAt(v, rules, path, phone)
  {
    CandidatesByPlace(v, rules);
    var cs := Candidates(Flat(v), rules);
    if path, phone :| PhoneAt(v, rules, path, phone) {
      var place := SomePlace(path, rules);
      assert Candidate(path, phone, Reported(place)) in cs;
    } else if cs != [] {
      assert cs[0] in cs;
    }
  }
}
