/** Choice of the phone of a lead among scored candidates, with an ambiguity margin. */
module PhoneChoice {
  import opened Prelude
  import opened PayloadFlattening

  const MARGIN: int := 10

  datatype Candidate = Candidate(path: string, value: string, score: int)

  datatype Choice = NoPhone | Ambiguous(top: Candidate) | Chosen(phone: Candidate)

  // ----------------------------------------------------------------- candidates

  /** How phones are read: the phone in the text of a value, the contact paths of the schema, the path the
      profile maps, and whether the last key of a path names a phone. */
  datatype Rules = Rules(
    extract: Json -> Option<string>,
    schemaPaths: set<string>,
    preferred: Option<string>,
    phoneKey: string -> bool)

  // How recognizable a path is.
  function Score(path: string, rules: Rules): int {
    if rules.preferred == Some(path) then 110
    else if path in rules.schemaPaths then 100
    else if rules.phoneKey(path) then 80
    else 40
  }

  // One candidate per flattened path whose text holds a phone, in the order of the paths.
  function Candidates(flat: seq<Entry>, rules: Rules): seq<Candidate> {
    if flat == [] then []
    else
      var path, phone := flat[0].path, rules.extract(flat[0].value);
      (if phone.Some? then [Candidate(path, phone.value, Score(path, rules))] else [])
      + Candidates(flat[1..], rules)
  }

  // ------------------------------------------------------------ sort and dedupe

  // Insertion after every candidate that scores at least as much: a stable descending sort.
  function Insert(sorted: seq<Candidate>, c: Candidate): seq<Candidate> {
    if sorted == [] then [c]
    else if c.score > sorted[0].score then [c] + sorted
    else [sorted[0]] + Insert(sorted[1..], c)
  }

  function SortByScore(cs: seq<Candidate>): seq<Candidate> {
    if cs == [] then [] else Insert(SortByScore(cs[..|cs| - 1]), cs[|cs| - 1])
  }

  ghost predicate Descending(cs: seq<Candidate>) {
    forall i, j :: 0 <= i < j < |cs| ==> cs[i].score >= cs[j].score
  }

  lemma PutFirst(first: Candidate, rest: seq<Candidate>)
    requires Descending(rest) && forall d :: d in rest ==> d.score <= first.score
    ensures Descending([first] + rest)
  {
  }

  lemma {:induction false} InsertKeepsMembers(sorted: seq<Candidate>, c: Candidate)
    ensures forall d :: d in Insert(sorted, c) ==> d == c || d in sorted
  {
    if sorted != [] {
      InsertKeepsMembers(sorted[1..], c);
    }
  }

  lemma {:induction false} InsertKeepsOrder(sorted: seq<Candidate>, c: Candidate)
    requires Descending(sorted)
    ensures Descending(Insert(sorted, c))
    ensures multiset(Insert(sorted, c)) == multiset(sorted) + multiset{c}
  {
    if sorted != [] {
      assert sorted == [sorted[0]] + sorted[1..];
      if c.score <= sorted[0].score {
        InsertKeepsOrder(sorted[1..], c);
        InsertKeepsMembers(sorted[1..], c);
        PutFirst(sorted[0], Insert(sorted[1..], c));
      } else {
        PutFirst(c, sorted);
      }
    }
  }

  lemma {:induction false} SortSorts(cs: seq<Candidate>)
    ensures Descending(SortByScore(cs)) && multiset(SortByScore(cs)) == multiset(cs)
  {
    if cs != [] {
      var n := |cs| - 1;
      SortSorts(cs[..n]);
      InsertKeepsOrder(SortByScore(cs[..n]), cs[n]);
      assert cs[..n] + [cs[n]] == cs;
    }
  }

  lemma SortKeepsMembers(cs: seq<Candidate>, c: Candidate)
    ensures c in SortByScore(cs) <==> c in cs
  {
    SortSorts(cs);
    assert c in SortByScore(cs) <==> c in multiset(SortByScore(cs));
  }

  ghost predicate HasPhone(cs: seq<Candidate>, value: string) {
    exists i :: 0 <= i < |cs| && cs[i].value == value
  }

  lemma DescendingPrefix(sorted: seq<Candidate>, n: nat)
    requires Descending(sorted) && n <= |sorted|
    ensures Descending(sorted[..n])
  {
  }

  ghost predicate Names(seen: set<string>, unique: seq<Candidate>) {
    forall v :: v in seen <==> HasPhone(unique, v)
  }

  lemma NamesNext(seen: set<string>, unique: seq<Candidate>, c: Candidate)
    requires Names(seen, unique)
    ensures Names(seen + {c.value}, unique + [c])
  {
    forall v ensures HasPhone(unique + [c], v) <==> HasPhone(unique, v) || v == c.value {
      HasPhoneAppend(unique, c, v);
    }
  }

  /** Keeps the first candidate of each phone. */
  method Dedupe(sorted: seq<Candidate>) returns (unique: seq<Candidate>)
    requires Descending(sorted)
    ensures IsDeduped(sorted, unique)
  {
    unique := [];
    var seen: set<string> := {};
    var i := 0;
    while i < |sorted|
      invariant 0 <= i <= |sorted|
      invariant IsDeduped(sorted[..i], unique)
      invariant Names(seen, unique)
    {
      var c := sorted[i];
      assert sorted[..i + 1] == sorted[..i] + [c];
      DescendingPrefix(sorted, i + 1);
      if c.value !in seen {
        NewPhone(sorted[..i], unique, c);
        NamesNext(seen, unique, c);
        seen := seen + {c.value};
        unique := unique + [c];
      } else {
        KnownPhone(sorted[..i], unique, c);
      }
      i := i + 1;
    }
    assert sorted[..|sorted|] == sorted;
  }

  // `unique` holds one candidate per phone, the best of its phone, best first.
  ghost predicate IsDeduped(sorted: seq<Candidate>, unique: seq<Candidate>) {
    && From(sorted, unique)
    && PhonesDistinct(unique)
    && Descending(unique)
    && (forall c :: c in sorted ==> Covered(unique, c))
    && (sorted == [] <==> unique == [])
    && (sorted != [] ==> unique[0] == sorted[0])
  }

  ghost predicate From(sorted: seq<Candidate>, unique: seq<Candidate>) {
    forall i :: 0 <= i < |unique| ==> unique[i] in sorted
  }

  ghost predicate PhonesDistinct(unique: seq<Candidate>) {
    forall i, j :: 0 <= i < j < |unique| ==> unique[i].value != unique[j].value
  }

  ghost predicate Covered(unique: seq<Candidate>, c: Candidate) {
    exists i :: 0 <= i < |unique| && unique[i].value == c.value && unique[i].score >= c.score
  }

  lemma StaysCovered(unique: seq<Candidate>, c: Candidate, d: Candidate)
    requires Covered(unique, d)
    ensures Covered(unique + [c], d)
  {
    var i :| 0 <= i < |unique| && unique[i].value == d.value && unique[i].score >= d.score;
    assert (unique + [c])[i] == unique[i];
  }

  // Whatever was kept scores at least as much as the next candidate in order.
  lemma KeptScoresMore(sorted: seq<Candidate>, unique: seq<Candidate>, c: Candidate, i: nat)
    requires From(sorted, unique) && Descending(sorted + [c]) && i < |unique|
    ensures unique[i].score >= c.score
  {
    assert unique[i] in sorted;
    var k :| 0 <= k < |sorted| && sorted[k] == unique[i];
    assert (sorted + [c])[k] == unique[i] && (sorted + [c])[|sorted|] == c;
  }

  lemma KeptInOrder(sorted: seq<Candidate>, unique: seq<Candidate>, c: Candidate)
    requires From(sorted, unique) && Descending(unique) && Descending(sorted + [c])
    ensures Descending(unique + [c])
  {
    forall i | 0 <= i < |unique| ensures unique[i].score >= c.score {
      KeptScoresMore(sorted, unique, c, i);
    }
  }

  lemma NewPhone(sorted: seq<Candidate>, unique: seq<Candidate>, c: Candidate)
    requires IsDeduped(sorted, unique) && Descending(sorted + [c]) && !HasPhone(unique, c.value)
    ensures IsDeduped(sorted + [c], unique + [c])
  {
    var more, all := unique + [c], sorted + [c];
    KeptInOrder(sorted, unique, c);
    assert From(all, more) && PhonesDistinct(more);
    forall d | d in all ensures Covered(more, d) {
      if d in sorted {
        StaysCovered(unique, c, d);
      } else {
        assert more[|unique|] == c;
      }
    }
  }

  lemma HasPhoneAppend(unique: seq<Candidate>, c: Candidate, v: string)
    ensures HasPhone(unique + [c], v) <==> HasPhone(unique, v) || v == c.value
  {
    var more := unique + [c];
    if HasPhone(unique, v) {
      var i :| 0 <= i < |unique| && unique[i].value == v;
      assert more[i].value == v;
    }
    assert more[|unique|] == c;
  }

  lemma KnownPhone(sorted: seq<Candidate>, unique: seq<Candidate>, c: Candidate)
    requires IsDeduped(sorted, unique) && Descending(sorted + [c]) && HasPhone(unique, c.value)
    ensures IsDeduped(sorted + [c], unique)
  {
    var i :| 0 <= i < |unique| && unique[i].value == c.value;
    KeptScoresMore(sorted, unique, c, i);
    assert Covered(unique, c);
    forall u | 0 <= u < |unique| ensures unique[u] in sorted + [c] {
      assert unique[u] in sorted;
    }
  }

  // The choice made from the deduplicated candidates.
  function Pick(unique: seq<Candidate>): Choice {
    if |unique| > 1 && unique[0].score - unique[1].score < MARGIN then Ambiguous(unique[0])
    else if unique == [] then NoPhone
    else Chosen(unique[0])
  }

  // --------------------------------------------------- what the choice means

  ghost predicate Top(cs: seq<Candidate>, c: Candidate) {
    c in cs && forall d :: d in cs ==> d.score <= c.score
  }

  // Two different phones, one of them at the top, are closer than the margin.
  ghost predicate TooClose(cs: seq<Candidate>) {
    exists c, d :: Top(cs, c) && d in cs && d.value != c.value && c.score - d.score < MARGIN
  }

  // The phone at the top beats every other phone by the margin.
  ghost predicate Wins(cs: seq<Candidate>, c: Candidate) {
    Top(cs, c) && forall d :: d in cs && d.value != c.value ==> d.score <= c.score - MARGIN
  }

  // A choice that follows from the set of candidates alone.
  ghost predicate Justified(cs: seq<Candidate>, choice: Choice) {
    match choice
    case NoPhone => cs == []
    case Ambiguous(c) => Top(cs, c) && TooClose(cs)
    case Chosen(c) => Wins(cs, c)
  }

  ghost predicate SameMembers(cs: seq<Candidate>, cs': seq<Candidate>) {
    forall c :: c in cs <==> c in cs'
  }

  lemma SameMembersSameLaws(cs: seq<Candidate>, cs': seq<Candidate>, choice: Choice)
    requires SameMembers(cs, cs')
    ensures Justified(cs, choice) <==> Justified(cs', choice)
    ensures TooClose(cs) <==> TooClose(cs')
  {
    assert cs == [] <==> cs' == [] by {
      if cs != [] { assert cs[0] in cs'; }
      if cs' != [] { assert cs'[0] in cs; }
    }
    forall c ensures Top(cs, c) <==> Top(cs', c) {}
  }

  lemma FirstIsTop(sorted: seq<Candidate>, unique: seq<Candidate>)
    requires Descending(sorted) && IsDeduped(sorted, unique) && sorted != []
    ensures Top(sorted, unique[0])
    ensures |unique| > 1 ==> unique[1] in sorted && unique[1].value != unique[0].value
    ensures forall d :: d in sorted && d.value != unique[0].value ==> |unique| > 1 && d.score <= unique[1].score
  {
    forall d | d in sorted && d.value != unique[0].value ensures |unique| > 1 && d.score <= unique[1].score {
      assert Covered(unique, d);
      var i :| 0 <= i < |unique| && unique[i].value == d.value && unique[i].score >= d.score;
      assert i >= 1;
    }
  }

  lemma PickIsJustified(sorted: seq<Candidate>, unique: seq<Candidate>)
    requires Descending(sorted) && IsDeduped(sorted, unique)
    ensures Justified(sorted, Pick(unique))
    ensures Pick(unique).Ambiguous? <==> TooClose(sorted)
  {
    if sorted != [] {
      FirstIsTop(sorted, unique);
      CloseToAnyTop(sorted, unique[0]);
    }
  }

  lemma DedupedIsJustified(cs: seq<Candidate>, unique: seq<Candidate>)
    requires IsDeduped(SortByScore(cs), unique)
    ensures Justified(cs, Pick(unique))
    ensures Pick(unique).Ambiguous? <==> TooClose(cs)
  {
    SortSorts(cs);
    forall c ensures c in SortByScore(cs) <==> c in cs { SortKeepsMembers(cs, c); }
    PickIsJustified(SortByScore(cs), unique);
    SameMembersSameLaws(cs, SortByScore(cs), Pick(unique));
  }

  // Whether two phones are too close does not depend on which candidate at the top is looked at.
  lemma CloseToAnyTop(cs: seq<Candidate>, top: Candidate)
    requires Top(cs, top)
    ensures TooClose(cs) <==> exists d :: d in cs && d.value != top.value && top.score - d.score < MARGIN
  {
    if TooClose(cs) {
      var c, d :| Top(cs, c) && d in cs && d.value != c.value && c.score - d.score < MARGIN;
      assert c.score == top.score;
      if d.value != top.value {
        assert d in cs && top.score - d.score < MARGIN;
      } else {
        assert c.value != top.value && top.score - c.score < MARGIN;
      }
    }
  }

  ghost predicate IsAnswer(cs: seq<Candidate>, choice: Choice) {
    Justified(cs, choice) && (choice.Ambiguous? <==> TooClose(cs))
  }

  // The candidate whose path is reported as evidence.
  function Shown(choice: Choice): Candidate
    requires !choice.NoPhone?
  {
    if choice.Ambiguous? then choice.top else choice.phone
  }

  /** The phone of a lead: an exception exactly when the two best distinct phones are less than ten
      points apart, otherwise the phone that beats every other by at least ten. The evidence is the
      first candidate with the best score. */
  method ChoosePhone(cs: seq<Candidate>) returns (choice: Choice)
    ensures Justified(cs, choice)
    ensures choice.Ambiguous? <==> TooClose(cs)
    ensures cs != [] ==> SortByScore(cs) != [] && !choice.NoPhone? && Shown(choice) == SortByScore(cs)[0]
  {
    SortSorts(cs);
    var unique := Dedupe(SortByScore(cs));
    DedupedIsJustified(cs, unique);
    choice := Pick(unique);
    if cs != [] {
      SortKeepsMembers(cs, cs[0]);
    }
  }

  lemma {:induction false} CandidatesOfPaths(flat: seq<Entry>, rules: Rules)
    requires PathsDistinct(flat)
    ensures var cs := Candidates(flat, rules);
      && (forall c :: c in cs ==>
            && c.score == Score(c.path, rules)
            && Lookup(flat, c.path).Some? && rules.extract(Lookup(flat, c.path).value) == Some(c.value))
      && (forall path :: Lookup(flat, path).Some? && rules.extract(Lookup(flat, path).value).Some? ==>
            Candidate(path, rules.extract(Lookup(flat, path).value).value, Score(path, rules)) in cs)
  {
    if flat != [] {
      CandidatesOfPaths(flat[1..], rules);
      var rest := Candidates(flat[1..], rules);
      forall path | Lookup(flat[1..], path).Some? ensures path != flat[0].path {
        LookupIsPresent(flat[1..], path);
      }
    }
  }

  lemma {:induction false} LookupIsPresent(flat: seq<Entry>, path: string)
    requires Lookup(flat, path).Some?
    ensures exists i :: 0 <= i < |flat| && flat[i].path == path
  {
    if flat[0].path != path {
      LookupIsPresent(flat[1..], path);
      var i :| 0 <= i < |flat[1..]| && flat[1..][i].path == path;
      assert flat[i + 1].path == path;
    }
  }

  // A candidate ahead of every other by the margin is the answer.
  lemma ClearWinner(cs: seq<Candidate>, c: Candidate, choice: Choice)
    requires c in cs && (forall d :: d in cs ==> d == c || d.score <= c.score - MARGIN) && IsAnswer(cs, choice)
    ensures choice == Chosen(c)
  {
    assert Top(cs, c);
    CloseToAnyTop(cs, c);
  }

  lemma MappedIsAhead(payload: Json, rules: Rules, path: string, phone: string)
    requires rules.preferred == Some(path) && Lookup(Flat(payload), path).Some?
    requires rules.extract(Lookup(Flat(payload), path).value) == Some(phone)
    ensures Candidate(path, phone, 110) in Candidates(Flat(payload), rules)
    ensures forall c :: c in Candidates(Flat(payload), rules) ==> c == Candidate(path, phone, 110) || c.score <= 100
  {
    LaterValueWins(payload, path);
    CandidatesOfPaths(Flat(payload), rules);
    forall c | c in Candidates(Flat(payload), rules) ensures c == Candidate(path, phone, 110) || c.score <= 100 {
      assert c.score == Score(c.path, rules);
    }
  }

  /** A phone at the path the profile maps always wins, whatever else the payload holds. */
  lemma MappedPathWins(payload: Json, rules: Rules, path: string, choice: Choice)
    requires rules.preferred == Some(path)
    requires Lookup(Flat(payload), path).Some? && rules.extract(Lookup(Flat(payload), path).value).Some?
    requires IsAnswer(Candidates(Flat(payload), rules), choice)
    ensures choice == Chosen(Candidate(path, rules.extract(Lookup(Flat(payload), path).value).value, 110))
  {
    var phone := rules.extract(Lookup(Flat(payload), path).value).value;
    MappedIsAhead(payload, rules, path, phone);
    ClearWinner(Candidates(Flat(payload), rules), Candidate(path, phone, 110), choice);
  }
}
