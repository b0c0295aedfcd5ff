/** The gates a candidate normalization profile must pass against the active one, and the marking of
    duplicate phones in a replayed corpus. */
module ProfileGate {
  import opened Prelude

  /** A replayed item. `item` is None when the row has no item key; a phone counts only when it is
      present and not empty. */
  datatype Row = Row(
    item: Option<string>,
    phone: Option<string>,
    status: string,
    ambiguous: bool,
    duplicate: bool,
    blacklisted: bool,
    signals: int,
    mappings: int)

  datatype Verdict = Keep | Discard | Crash

  datatype Reason =
    | InsufficientSample
    | InvalidCorpus
    | CorpusMismatch
    | StablePhoneRegression
    | BlacklistRegression
    | AmbiguityRegression
    | DuplicateRegression
    | InsufficientEvidence
    | ComplexityRegression
    | SafeNonRegression

  datatype Decision = Decision(verdict: Verdict, reason: Reason)

  predicate HasPhone(r: Row) {
    r.phone.Some? && r.phone.value != ""
  }

  predicate IsAmbiguous(r: Row) {
    r.ambiguous || r.status == "exception"
  }

  predicate IsDuplicate(r: Row) {
    r.duplicate || r.status == "duplicate"
  }

  // How many rows satisfy a test.
  function Count(rows: seq<Row>, test: Row -> bool): (n: nat)
    ensures n <= |rows|
  {
    if rows == [] then 0
    else Count(rows[..|rows| - 1], test) + if test(rows[|rows| - 1]) then 1 else 0
  }

  predicate AllKeyed(rows: seq<Row>) {
    forall i :: 0 <= i < |rows| ==> rows[i].item.Some?
  }

  // Rows by item; a later row replaces an earlier one.
  function ByItem(rows: seq<Row>): map<string, Row>
    requires AllKeyed(rows)
  {
    if rows == [] then map[]
    else
      var last := rows[|rows| - 1];
      ByItem(rows[..|rows| - 1])[last.item.value := last]
  }

  function Complexity(rows: seq<Row>): int {
    if rows == [] then 0
    else if |rows| == 1 then rows[0].mappings
    else
      var rest := Complexity(rows[..|rows| - 1]);
      if rows[|rows| - 1].mappings > rest then rows[|rows| - 1].mappings else rest
  }

  // ---------------------------------------------------------------------- gates

  // `o` is the baseline row of the same item.
  predicate PhoneChanged(o: Row, r: Row) {
    HasPhone(o) && o.phone != r.phone
  }

  predicate NewlyBlacklisted(o: Row, r: Row) {
    HasPhone(r) && r.blacklisted && !o.blacklisted
  }

  predicate UnsafeCoverage(o: Row, r: Row) {
    !HasPhone(o) && HasPhone(r) && r.signals < 2
  }

  predicate SameResult(o: Row, r: Row) {
    o.phone == r.phone && o.status == r.status
  }

  // A test against the baseline row of the same item.
  function Against(base: map<string, Row>, test: (Row, Row) -> bool): Row -> bool {
    (r: Row) => r.item.Some? && r.item.value in base && test(base[r.item.value], r)
  }

  function Compare(baseline: seq<Row>, candidate: seq<Row>, minimum: int): Decision {
    if |candidate| < minimum then Decision(Discard, InsufficientSample)
    else if !AllKeyed(baseline) || !AllKeyed(candidate) then Decision(Crash, InvalidCorpus)
    else
      var base, fresher := ByItem(baseline), ByItem(candidate);
      if |base| != |baseline| || |fresher| != |candidate| || base.Keys != fresher.Keys
        then Decision(Crash, CorpusMismatch)
      else if Count(candidate, Against(base, PhoneChanged)) > 0 then Decision(Discard, StablePhoneRegression)
      else if Count(candidate, Against(base, NewlyBlacklisted)) > 0 then Decision(Discard, BlacklistRegression)
      else if Count(candidate, IsAmbiguous) > Count(baseline, IsAmbiguous) then Decision(Discard, AmbiguityRegression)
      else if Count(candidate, IsDuplicate) > Count(baseline, IsDuplicate) then Decision(Discard, DuplicateRegression)
      else if Count(candidate, Against(base, UnsafeCoverage)) > 0 then Decision(Discard, InsufficientEvidence)
      else if Count(candidate, Against(base, SameResult)) == |candidate| && Complexity(candidate) > Complexity(baseline)
      then Decision(Discard, ComplexityRegression)
      else Decision(Keep, SafeNonRegression)
  }

  // ----------------------------------------------------- matching rows by item

  // Each row has an item and no two rows share one.
  ghost predicate Keyed(rows: seq<Row>) {
    AllKeyed(rows) && forall i, j :: 0 <= i < j < |rows| ==> rows[i].item != rows[j].item
  }

  ghost predicate HasItem(rows: seq<Row>, item: Option<string>) {
    exists i :: 0 <= i < |rows| && rows[i].item == item
  }

  ghost predicate Covers(rows: seq<Row>, rows': seq<Row>) {
    forall j :: 0 <= j < |rows'| ==> HasItem(rows, rows'[j].item)
  }

  // The two lists hold the same items, in any order.
  ghost predicate SameItems(rows: seq<Row>, rows': seq<Row>) {
    Covers(rows, rows') && Covers(rows', rows)
  }

  // Every entry of the dictionary is a row under its own item.
  lemma {:induction false} ByItemHoldsRows(rows: seq<Row>, k: string)
    requires AllKeyed(rows) && k in ByItem(rows)
    ensures exists i :: 0 <= i < |rows| && rows[i] == ByItem(rows)[k] && rows[i].item == Some(k)
  {
    var n := |rows| - 1;
    if rows[n].item != Some(k) {
      ByItemHoldsRows(rows[..n], k);
      var i :| 0 <= i < n && rows[..n][i] == ByItem(rows[..n])[k] && rows[..n][i].item == Some(k);
      assert rows[i] == rows[..n][i];
    }
  }

  lemma {:induction false} ByItemHasItem(rows: seq<Row>, i: nat)
    requires AllKeyed(rows) && i < |rows|
    ensures rows[i].item.value in ByItem(rows)
  {
    var n := |rows| - 1;
    if i < n {
      ByItemHasItem(rows[..n], i);
    }
  }

  lemma {:induction false} ByItemFinds(rows: seq<Row>, i: nat)
    requires Keyed(rows) && i < |rows|
    ensures rows[i].item.value in ByItem(rows) && ByItem(rows)[rows[i].item.value] == rows[i]
  {
    var n := |rows| - 1;
    if i < n {
      assert Keyed(rows[..n]);
      ByItemFinds(rows[..n], i);
    }
  }

  lemma AddKeySize(m: map<string, Row>, k: string, r: Row)
    ensures |m[k := r]| == |m| + if k in m then 0 else 1
  {
    if k in m {
      assert m[k := r].Keys == m.Keys;
      assert |m[k := r].Keys| == |m[k := r]| && |m.Keys| == |m|;
    } else {
      assert m[k := r].Keys == m.Keys + {k};
      assert |m[k := r].Keys| == |m[k := r]| && |m.Keys| == |m|;
    }
  }

  // The dictionary has as many entries as rows exactly when no two rows share an item.
  lemma {:induction false} ByItemSize(rows: seq<Row>)
    requires AllKeyed(rows)
    ensures |ByItem(rows)| <= |rows|
    ensures |ByItem(rows)| == |rows| <==> Keyed(rows)
  {
    if rows != [] {
      var n := |rows| - 1;
      var front, k := rows[..n], rows[n].item.value;
      ByItemSize(front);
      AddKeySize(ByItem(front), k, rows[n]);
      if k in ByItem(front) {
        ByItemHoldsRows(front, k);
        var i :| 0 <= i < n && front[i] == ByItem(front)[k] && front[i].item == Some(k);
        assert rows[i].item == rows[n].item;
      } else {
        forall i | 0 <= i < n ensures rows[i].item != rows[n].item {
          ByItemHasItem(front, i);
          assert front[i] == rows[i];
        }
        assert Keyed(front) ==> Keyed(rows);
        assert Keyed(rows) ==> Keyed(front);
      }
    }
  }

  lemma KeysCoverIff(rows: seq<Row>, rows': seq<Row>)
    requires Keyed(rows) && Keyed(rows')
    ensures ByItem(rows').Keys <= ByItem(rows).Keys <==> Covers(rows, rows')
  {
    if ByItem(rows').Keys <= ByItem(rows).Keys {
      forall j | 0 <= j < |rows'| ensures HasItem(rows, rows'[j].item) {
        var k := rows'[j].item.value;
        ByItemHasItem(rows', j);
        assert k in ByItem(rows).Keys;
        ByItemHoldsRows(rows, k);
      }
    }
    if Covers(rows, rows') {
      forall k | k in ByItem(rows') ensures k in ByItem(rows) {
        ByItemHoldsRows(rows', k);
        var j :| 0 <= j < |rows'| && rows'[j] == ByItem(rows')[k] && rows'[j].item == Some(k);
        assert HasItem(rows, rows'[j].item);
        var i :| 0 <= i < |rows| && rows[i].item == rows'[j].item;
        ByItemHasItem(rows, i);
      }
    }
  }

  lemma {:induction false} CountZeroIff(rows: seq<Row>, test: Row -> bool)
    ensures Count(rows, test) == 0 <==> forall i :: 0 <= i < |rows| ==> !test(rows[i])
    ensures Count(rows, test) == |rows| <==> forall i :: 0 <= i < |rows| ==> test(rows[i])
  {
    if rows != [] {
      CountZeroIff(rows[..|rows| - 1], test);
      assert forall i :: 0 <= i < |rows| - 1 ==> rows[..|rows| - 1][i] == rows[i];
    }
  }

  // ------------------------------------------------------ what a keep means

  // A relation between the rows of each item.
  ghost predicate ForEachItem(baseline: seq<Row>, candidate: seq<Row>, rel: (Row, Row) -> bool) {
    forall i, j :: 0 <= i < |baseline| && 0 <= j < |candidate| && baseline[i].item == candidate[j].item ==>
      rel(baseline[i], candidate[j])
  }

  predicate KeepsPhone(o: Row, r: Row) { !PhoneChanged(o, r) }

  predicate KeepsOffBlacklist(o: Row, r: Row) { !NewlyBlacklisted(o, r) }

  predicate HasEvidence(o: Row, r: Row) { !UnsafeCoverage(o, r) }

  lemma AgainstIsForEach(baseline: seq<Row>, candidate: seq<Row>, test: (Row, Row) -> bool, rel: (Row, Row) -> bool)
    requires Keyed(baseline) && Keyed(candidate) && SameItems(baseline, candidate)
    requires forall o, r :: rel(o, r) <==> !test(o, r)
    ensures Count(candidate, Against(ByItem(baseline), test)) == 0 <==> ForEachItem(baseline, candidate, rel)
  {
    var against := Against(ByItem(baseline), test);
    CountZeroIff(candidate, against);
    forall i, j | 0 <= i < |baseline| && 0 <= j < |candidate| && baseline[i].item == candidate[j].item
      ensures against(candidate[j]) <==> !rel(baseline[i], candidate[j])
    {
      ByItemFinds(baseline, i);
    }
    forall j | 0 <= j < |candidate| && ForEachItem(baseline, candidate, rel) ensures !against(candidate[j]) {
      assert HasItem(baseline, candidate[j].item);
      var i :| 0 <= i < |baseline| && baseline[i].item == candidate[j].item;
      assert rel(baseline[i], candidate[j]);
    }
  }

  lemma SameResultsIff(baseline: seq<Row>, candidate: seq<Row>)
    requires Keyed(baseline) && Keyed(candidate) && SameItems(baseline, candidate)
    ensures Count(candidate, Against(ByItem(baseline), SameResult)) == |candidate| <==>
      ForEachItem(baseline, candidate, SameResult)
  {
    var against := Against(ByItem(baseline), SameResult);
    CountZeroIff(candidate, against);
    forall i, j | 0 <= i < |baseline| && 0 <= j < |candidate| && baseline[i].item == candidate[j].item
      ensures against(candidate[j]) <==> SameResult(baseline[i], candidate[j])
    {
      ByItemFinds(baseline, i);
    }
    forall j | 0 <= j < |candidate| && ForEachItem(baseline, candidate, SameResult) ensures against(candidate[j]) {
      assert HasItem(baseline, candidate[j].item);
      var i :| 0 <= i < |baseline| && baseline[i].item == candidate[j].item;
      assert SameResult(baseline[i], candidate[j]);
    }
  }

  // Nothing known is lost for any item.
  ghost predicate NoItemLost(baseline: seq<Row>, candidate: seq<Row>) {
    && ForEachItem(baseline, candidate, KeepsPhone)
    && ForEachItem(baseline, candidate, KeepsOffBlacklist)
    && ForEachItem(baseline, candidate, HasEvidence)
  }

  ghost predicate SameCorpus(baseline: seq<Row>, candidate: seq<Row>) {
    Keyed(baseline) && Keyed(candidate) && SameItems(baseline, candidate)
  }

  lemma CorpusMatchesIff(baseline: seq<Row>, candidate: seq<Row>)
    requires AllKeyed(baseline) && AllKeyed(candidate)
    ensures |ByItem(baseline)| == |baseline| && |ByItem(candidate)| == |candidate|
      && ByItem(baseline).Keys == ByItem(candidate).Keys
      <==> SameCorpus(baseline, candidate)
  {
    ByItemSize(baseline);
    ByItemSize(candidate);
    if Keyed(baseline) && Keyed(candidate) {
      KeysCoverIff(baseline, candidate);
      KeysCoverIff(candidate, baseline);
    }
  }

  /** The decision is `keep` if and only if the sample is large enough, the corpora hold the same
      distinct items, no known phone changes, no item becomes blacklisted, new phones have two signals,
      ambiguities and duplicates do not grow, and complexity grows only with a change of results. */
  lemma KeepIff(baseline: seq<Row>, candidate: seq<Row>, minimum: int)
    ensures Compare(baseline, candidate, minimum).verdict == Keep <==>
      && |candidate| >= minimum
      && SameCorpus(baseline, candidate)
      && NoItemLost(baseline, candidate)
      && Count(candidate, IsAmbiguous) <= Count(baseline, IsAmbiguous)
      && Count(candidate, IsDuplicate) <= Count(baseline, IsDuplicate)
      && (ForEachItem(baseline, candidate, SameResult) ==> Complexity(candidate) <= Complexity(baseline))
  {
    if AllKeyed(baseline) && AllKeyed(candidate) {
      CorpusMatchesIff(baseline, candidate);
      if SameCorpus(baseline, candidate) {
        AgainstIsForEach(baseline, candidate, PhoneChanged, KeepsPhone);
        AgainstIsForEach(baseline, candidate, NewlyBlacklisted, KeepsOffBlacklist);
        AgainstIsForEach(baseline, candidate, UnsafeCoverage, HasEvidence);
        SameResultsIff(baseline, candidate);
      }
    }
  }
}
