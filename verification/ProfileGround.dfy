/** Why a `keep` never loses ground, along chains of decisions, and what marking duplicates counts. */
module ProfileGround {
  import opened Prelude
  import opened ProfileGate

  // --------------------------------------------------------- counting by item

  // The items of the rows that satisfy a test.
  function ItemsOf(rows: seq<Row>, test: Row -> bool): set<string> {
    if rows == [] then {}
    else
      var last := rows[|rows| - 1];
      ItemsOf(rows[..|rows| - 1], test) + if last.item.Some? && test(last) then {last.item.value} else {}
  }

  lemma {:induction false} ItemsOfIff(rows: seq<Row>, test: Row -> bool, k: string)
    ensures k in ItemsOf(rows, test) <==> exists i :: 0 <= i < |rows| && rows[i].item == Some(k) && test(rows[i])
  {
    if rows != [] {
      var n := |rows| - 1;
      ItemsOfIff(rows[..n], test, k);
      if k in ItemsOf(rows[..n], test) {
        var i :| 0 <= i < n && rows[..n][i].item == Some(k) && test(rows[..n][i]);
        assert rows[i] == rows[..n][i];
      }
      if i :| 0 <= i < |rows| && rows[i].item == Some(k) && test(rows[i]) {
        if i < n {
          assert rows[..n][i] == rows[i];
        }
      }
    }
  }

  // With distinct items, counting rows is counting items.
  lemma {:induction false} CountIsItems(rows: seq<Row>, test: Row -> bool)
    requires Keyed(rows)
    ensures Count(rows, test) == |ItemsOf(rows, test)|
  {
    if rows != [] {
      var n := |rows| - 1;
      CountIsItems(rows[..n], test);
      ItemsOfIff(rows[..n], test, rows[n].item.value);
      assert rows[n].item.value !in ItemsOf(rows[..n], test);
    }
  }

  // If every satisfying row of one list has a satisfying row for its item in the other, the count is no larger.
  lemma CountGrows(rows: seq<Row>, rows': seq<Row>, test: Row -> bool)
    requires SameCorpus(rows, rows')
    requires forall i, j :: 0 <= i < |rows| && 0 <= j < |rows'| && rows[i].item == rows'[j].item && test(rows[i]) ==>
      test(rows'[j])
    ensures Count(rows, test) <= Count(rows', test)
  {
    forall k | k in ItemsOf(rows, test) ensures k in ItemsOf(rows', test) {
      ItemsOfIff(rows, test, k);
      var i :| 0 <= i < |rows| && rows[i].item == Some(k) && test(rows[i]);
      assert HasItem(rows', rows[i].item);
      var j :| 0 <= j < |rows'| && rows'[j].item == rows[i].item;
      assert test(rows'[j]);
      ItemsOfIff(rows', test, k);
    }
    CountIsItems(rows, test);
    CountIsItems(rows', test);
    SubsetSize(ItemsOf(rows, test), ItemsOf(rows', test));
  }

  lemma {:induction false} SubsetSize(a: set<string>, b: set<string>)
    requires a <= b
    ensures |a| <= |b|
  {
    if a != {} {
      var x :| x in a;
      SubsetSize(a - {x}, b - {x});
    }
  }

  // ------------------------------------------------------------ keeping ground

  predicate Blacklisted(r: Row) { r.blacklisted }

  // Replayed rows flag the blacklist only where they found a phone.
  ghost predicate WellFormed(rows: seq<Row>) {
    forall i :: 0 <= i < |rows| && rows[i].blacklisted ==> HasPhone(rows[i])
  }

  // Every known phone is kept, coverage does not drop, and ambiguities, duplicates and blacklisted items do not grow.
  ghost predicate KeepsGround(before: seq<Row>, after: seq<Row>) {
    && SameCorpus(before, after)
    && ForEachItem(before, after, KeepsPhone)
    && ForEachItem(before, after, KeepsOffBlacklist)
    && Count(after, HasPhone) >= Count(before, HasPhone)
    && Count(after, IsAmbiguous) <= Count(before, IsAmbiguous)
    && Count(after, IsDuplicate) <= Count(before, IsDuplicate)
    && Count(after, Blacklisted) <= Count(before, Blacklisted)
  }

  lemma SameCorpusSymmetric(rows: seq<Row>, rows': seq<Row>)
    requires SameCorpus(rows, rows')
    ensures SameCorpus(rows', rows)
  {
  }

  // Phones and blacklist, item by item, settle the two counts.
  lemma ItemsSettleCounts(before: seq<Row>, after: seq<Row>)
    requires SameCorpus(before, after) && WellFormed(after)
    requires ForEachItem(before, after, KeepsPhone) && ForEachItem(before, after, KeepsOffBlacklist)
    ensures Count(after, HasPhone) >= Count(before, HasPhone)
    ensures Count(after, Blacklisted) <= Count(before, Blacklisted)
  {
    forall i, j | 0 <= i < |before| && 0 <= j < |after| && before[i].item == after[j].item && HasPhone(before[i])
      ensures HasPhone(after[j])
    {
      assert KeepsPhone(before[i], after[j]);
    }
    CountGrows(before, after, HasPhone);
    SameCorpusSymmetric(before, after);
    forall i, j | 0 <= i < |after| && 0 <= j < |before| && after[i].item == before[j].item && Blacklisted(after[i])
      ensures Blacklisted(before[j])
    {
      assert KeepsOffBlacklist(before[j], after[i]);
    }
    CountGrows(after, before, Blacklisted);
  }

  /** A `keep` decision never loses ground, the two row lists being matched by item in any order. */
  lemma KeepKeepsGround(baseline: seq<Row>, candidate: seq<Row>, minimum: int)
    requires WellFormed(candidate) && Compare(baseline, candidate, minimum).verdict == Keep
    ensures KeepsGround(baseline, candidate)
  {
    KeepIff(baseline, candidate, minimum);
    ItemsSettleCounts(baseline, candidate);
  }

  lemma StepsCompose(o: Row, m: Row, r: Row)
    requires KeepsPhone(o, m) && KeepsPhone(m, r) && KeepsOffBlacklist(o, m) && KeepsOffBlacklist(m, r)
    requires m.blacklisted ==> HasPhone(m)
    ensures KeepsPhone(o, r) && KeepsOffBlacklist(o, r)
  {
  }

  lemma KeepsGroundTransitive(a: seq<Row>, b: seq<Row>, c: seq<Row>)
    requires KeepsGround(a, b) && KeepsGround(b, c) && WellFormed(b) && WellFormed(c)
    ensures KeepsGround(a, c)
  {
    CoversTransitive(a, b, c);
    CoversTransitive(c, b, a);
    forall i, j | 0 <= i < |a| && 0 <= j < |c| && a[i].item == c[j].item
      ensures KeepsPhone(a[i], c[j]) && KeepsOffBlacklist(a[i], c[j])
    {
      assert HasItem(b, c[j].item);
      var k :| 0 <= k < |b| && b[k].item == c[j].item;
      StepsCompose(a[i], b[k], c[j]);
    }
  }

  lemma CoversTransitive(a: seq<Row>, b: seq<Row>, c: seq<Row>)
    requires Covers(a, b) && Covers(b, c)
    ensures Covers(a, c)
  {
    forall j | 0 <= j < |c| ensures HasItem(a, c[j].item) {
      assert HasItem(b, c[j].item);
      var k :| 0 <= k < |b| && b[k].item == c[j].item;
      assert HasItem(a, b[k].item);
    }
  }

  // Profile i + 1 of the chain was kept against profile i.
  ghost predicate KeptAfter(chain: seq<seq<Row>>, i: nat, minimum: int)
    requires i + 1 < |chain|
  {
    Compare(chain[i], chain[i + 1], minimum).verdict == Keep
  }

  /** Along any chain of `keep` decisions on one corpus, the last profile keeps the ground of the first. */
  lemma {:induction false} ChainKeepsGround(chain: seq<seq<Row>>, minimum: int)
    requires |chain| >= 2 && (forall i :: 0 <= i < |chain| ==> WellFormed(chain[i]))
    requires forall i :: 0 <= i < |chain| - 1 ==> KeptAfter(chain, i, minimum)
    ensures KeepsGround(chain[0], chain[|chain| - 1])
  {
    var n := |chain| - 1;
    assert KeptAfter(chain, n - 1, minimum);
    KeepKeepsGround(chain[n - 1], chain[n], minimum);
    if n > 1 {
      forall i | 0 <= i < n - 1 ensures KeptAfter(chain[..n], i, minimum) {
        assert KeptAfter(chain, i, minimum);
      }
      ChainKeepsGround(chain[..n], minimum);
      KeepsGroundTransitive(chain[0], chain[n - 1], chain[n]);
    }
  }

  /** A corpus compared with itself is kept if and only if it is large enough and its items are distinct. */
  lemma SelfComparison(rows: seq<Row>, minimum: int)
    ensures Compare(rows, rows, minimum).verdict == Keep <==> |rows| >= minimum && Keyed(rows)
  {
    KeepIff(rows, rows, minimum);
    if Keyed(rows) {
      assert forall i, j :: 0 <= i < |rows| && 0 <= j < |rows| && rows[i].item == rows[j].item ==> i == j;
      assert forall j :: 0 <= j < |rows| ==> HasItem(rows, rows[j].item);
      assert ForEachItem(rows, rows, KeepsPhone) && ForEachItem(rows, rows, KeepsOffBlacklist)
        && ForEachItem(rows, rows, HasEvidence);
    }
  }

  // -------------------------------------------------------------- duplicates

  // How many rows carry a phone.
  function Occurrences(rows: seq<Row>, phone: string): nat {
    if rows == [] then 0
    else
      var last := rows[|rows| - 1];
      Occurrences(rows[..|rows| - 1], phone) + if HasPhone(last) && last.phone.value == phone then 1 else 0
  }

  // A repeated phone flags every row but its first; other rows keep their flag.
  function MarkedRow(rows: seq<Row>, i: nat): Row
    requires i < |rows|
  {
    var r := rows[i];
    if HasPhone(r) && Occurrences(rows, r.phone.value) > 1
    then r.(duplicate := Occurrences(rows[..i], r.phone.value) > 0)
    else r
  }

  function Tally(counts: map<string, nat>, phone: string): nat {
    if phone in counts then counts[phone] else 0
  }

  ghost predicate Tallies(counts: map<string, nat>, rows: seq<Row>) {
    forall p :: Tally(counts, p) == Occurrences(rows, p)
  }

  // Tallies that are only kept for the phones that occur more than once in `all`.
  ghost predicate TalliesRepeated(seen: map<string, nat>, rows: seq<Row>, all: seq<Row>) {
    forall p :: Occurrences(all, p) > 1 ==> Tally(seen, p) == Occurrences(rows, p)
  }

  lemma OccurrencesAppend(rows: seq<Row>, r: Row, phone: string)
    ensures Occurrences(rows + [r], phone) ==
      Occurrences(rows, phone) + if HasPhone(r) && r.phone.value == phone then 1 else 0
  {
    assert (rows + [r])[..|rows|] == rows;
  }

  // The first pass.
  method CountPhones(rows: array<Row>) returns (counts: map<string, nat>)
    ensures Tallies(counts, rows[..])
  {
    counts := map[];
    var i := 0;
    while i < rows.Length
      invariant 0 <= i <= rows.Length
      invariant Tallies(counts, rows[..i])
    {
      CountNext(counts, rows[..i], rows[i]);
      assert rows[..i + 1] == rows[..i] + [rows[i]];
      if HasPhone(rows[i]) {
        var p := rows[i].phone.value;
        counts := counts[p := Tally(counts, p) + 1];
      }
      i := i + 1;
    }
    assert rows[..rows.Length] == rows[..];
  }

  lemma CountNext(counts: map<string, nat>, rows: seq<Row>, r: Row)
    requires Tallies(counts, rows)
    ensures Tallies(
      if HasPhone(r) then counts[r.phone.value := Tally(counts, r.phone.value) + 1] else counts, rows + [r])
  {
    forall p
      ensures Occurrences(rows + [r], p) == Tally(counts, p) + if HasPhone(r) && r.phone.value == p then 1 else 0
    {
      OccurrencesAppend(rows, r, p);
    }
  }

  lemma SeeNext(seen: map<string, nat>, rows: seq<Row>, all: seq<Row>, r: Row)
    requires TalliesRepeated(seen, rows, all)
    ensures TalliesRepeated(
      if HasPhone(r) && Occurrences(all, r.phone.value) > 1
      then seen[r.phone.value := Tally(seen, r.phone.value) + 1]
      else seen,
      rows + [r], all)
  {
    forall p
      ensures Occurrences(rows + [r], p) ==
        Occurrences(rows, p) + if HasPhone(r) && r.phone.value == p then 1 else 0
    {
      OccurrencesAppend(rows, r, p);
    }
  }

  /** The in-place two-pass marking: count every phone, then flag the repetitions. */
  method MarkDuplicates(rows: array<Row>)
    modifies rows
    ensures forall i :: 0 <= i < rows.Length ==> rows[i] == MarkedRow(old(rows[..]), i)
  {
    ghost var before := rows[..];
    var counts := CountPhones(rows);
    var seen: map<string, nat> := map[];
    var i := 0;
    while i < rows.Length
      invariant 0 <= i <= rows.Length
      invariant forall k :: 0 <= k < i ==> rows[k] == MarkedRow(before, k)
      invariant forall k :: i <= k < rows.Length ==> rows[k] == before[k]
      invariant TalliesRepeated(seen, before[..i], before)
    {
      SeeNext(seen, before[..i], before, before[i]);
      assert before[..i + 1] == before[..i] + [before[i]];
      var r := rows[i];
      if HasPhone(r) && Tally(counts, r.phone.value) > 1 {
        var p := r.phone.value;
        seen := seen[p := Tally(seen, p) + 1];
        rows[i] := r.(duplicate := seen[p] > 1);
      }
      i := i + 1;
    }
  }

  // The phones of the rows, in order.
  function Phones(rows: seq<Row>): seq<string> {
    if rows == [] then []
    else
      var last := rows[|rows| - 1];
      Phones(rows[..|rows| - 1]) + if HasPhone(last) then [last.phone.value] else []
  }

  // The circuit breaker's figure: phones minus distinct phones.
  function SurplusPhones(rows: seq<Row>): int {
    |Phones(rows)| - |PhoneSet(rows)|
  }

  function PhoneSet(rows: seq<Row>): set<string> {
    set p | p in Phones(rows)
  }

  lemma {:induction false} OccursIff(rows: seq<Row>, phone: string)
    ensures Occurrences(rows, phone) > 0 <==> phone in PhoneSet(rows)
  {
    if rows != [] {
      OccursIff(rows[..|rows| - 1], phone);
    }
  }

  lemma {:induction false} OccurrencesGrow(rows: seq<Row>, n: nat, phone: string)
    requires n <= |rows|
    ensures Occurrences(rows[..n], phone) <= Occurrences(rows, phone)
  {
    if n < |rows| {
      OccurrencesGrow(rows[..|rows| - 1], n, phone);
      assert rows[..|rows| - 1][..n] == rows[..n];
    } else {
      assert rows[..n] == rows;
    }
  }

  // On rows not marked before, a row ends up flagged exactly when an earlier row has its phone.
  lemma FlaggedIffSeen(rows: seq<Row>, i: nat)
    requires i < |rows| && !rows[i].duplicate
    ensures MarkedRow(rows, i).duplicate <==> HasPhone(rows[i]) && rows[i].phone.value in PhoneSet(rows[..i])
  {
    if HasPhone(rows[i]) {
      var p := rows[i].phone.value;
      OccursIff(rows[..i], p);
      OccurrencesGrow(rows, i + 1, p);
      assert rows[..i + 1][..i] == rows[..i];
    }
  }

  // Flagged rows among the first n.
  function Flagged(rows: seq<Row>, n: nat): nat
    requires n <= |rows|
  {
    if n == 0 then 0 else Flagged(rows, n - 1) + if MarkedRow(rows, n - 1).duplicate then 1 else 0
  }

  /** Marking flags exactly as many rows as there are surplus phones: the two ways of counting
      duplicates, at promotion time and in the circuit breaker, agree. */
  lemma {:induction false} FlaggedIsSurplus(rows: seq<Row>, n: nat)
    requires n <= |rows| && forall i :: 0 <= i < |rows| ==> !rows[i].duplicate
    ensures Flagged(rows, n) == SurplusPhones(rows[..n])
  {
    if n > 0 {
      FlaggedIsSurplus(rows, n - 1);
      FlaggedIffSeen(rows, n - 1);
      var front, last := rows[..n - 1], rows[n - 1];
      assert rows[..n][..n - 1] == front;
      if HasPhone(last) {
        assert PhoneSet(rows[..n]) == PhoneSet(front) + {last.phone.value};
      } else {
        assert PhoneSet(rows[..n]) == PhoneSet(front);
      }
    }
  }
}
