/** The decision of the profile gate and its reason, on the fields of the rows: which gate fails first. */
module ProfileReasons {
  import opened Prelude
  import opened ProfileGate

  ghost predicate Known(r: Row) {
    r.phone.Some? && r.phone.value != ""
  }

  ghost predicate Matched(baseline: seq<Row>, candidate: seq<Row>, i: nat, j: nat) {
    i < |baseline| && j < |candidate| && baseline[i].item == candidate[j].item
  }

  // Every known phone is found again.
  ghost predicate PhonesStable(baseline: seq<Row>, candidate: seq<Row>) {
    forall i: nat, j: nat :: Matched(baseline, candidate, i, j) && Known(baseline[i]) ==>
      candidate[j].phone == baseline[i].phone
  }

  // No item with a phone becomes blacklisted.
  ghost predicate BlacklistStable(baseline: seq<Row>, candidate: seq<Row>) {
    forall i: nat, j: nat :: Matched(baseline, candidate, i, j) && Known(candidate[j]) && candidate[j].blacklisted ==>
      baseline[i].blacklisted
  }

  // A phone found for the first time has two independent signals.
  ghost predicate CoverageSafe(baseline: seq<Row>, candidate: seq<Row>) {
    forall i: nat, j: nat :: Matched(baseline, candidate, i, j) && !Known(baseline[i]) && Known(candidate[j]) ==>
      candidate[j].signals >= 2
  }

  ghost predicate ResultsSame(baseline: seq<Row>, candidate: seq<Row>) {
    forall i: nat, j: nat :: Matched(baseline, candidate, i, j) ==>
      baseline[i].phone == candidate[j].phone && baseline[i].status == candidate[j].status
  }

  ghost function Ambiguities(rows: seq<Row>): set<int> {
    set i | 0 <= i < |rows| && (rows[i].ambiguous || rows[i].status == "exception")
  }

  ghost function Duplicates(rows: seq<Row>): set<int> {
    set i | 0 <= i < |rows| && (rows[i].duplicate || rows[i].status == "duplicate")
  }

  // A sample of nothing has complexity 0, any other its largest number of mappings.
  ghost predicate IsComplexity(rows: seq<Row>, n: int) {
    if rows == [] then n == 0
    else (exists i :: 0 <= i < |rows| && rows[i].mappings == n) && forall i :: 0 <= i < |rows| ==> rows[i].mappings <= n
  }

  lemma {:induction false} ComplexityIsLargest(rows: seq<Row>)
    ensures IsComplexity(rows, Complexity(rows))
  {
    if |rows| == 1 {
      assert rows[0].mappings == Complexity(rows);
    } else if rows != [] {
      var n := |rows| - 1;
      ComplexityIsLargest(rows[..n]);
      var i :| 0 <= i < n && rows[..n][i].mappings == Complexity(rows[..n]);
      assert rows[i].mappings == Complexity(rows[..n]);
      assert rows[n].mappings <= Complexity(rows);
      forall k | 0 <= k < n ensures rows[k].mappings <= Complexity(rows) {
        assert rows[..n][k] == rows[k];
      }
    }
  }

  // The rows that satisfy a test.
  ghost function Where(rows: seq<Row>, test: Row -> bool): set<int> {
    set i | 0 <= i < |rows| && test(rows[i])
  }

  lemma {:induction false} CountIsSize(rows: seq<Row>, test: Row -> bool)
    ensures Count(rows, test) == |Where(rows, test)|
  {
    if rows == [] {
      assert Where(rows, test) == {};
    } else {
      var n := |rows| - 1;
      CountIsSize(rows[..n], test);
      assert Where(rows, test) == Where(rows[..n], test) + if test(rows[n]) then {n} else {};
    }
  }

  lemma FiguresAreSizes(rows: seq<Row>)
    ensures Count(rows, IsAmbiguous) == |Ambiguities(rows)| && Count(rows, IsDuplicate) == |Duplicates(rows)|
  {
    CountIsSize(rows, IsAmbiguous);
    CountIsSize(rows, IsDuplicate);
    assert Where(rows, IsAmbiguous) == Ambiguities(rows);
    assert Where(rows, IsDuplicate) == Duplicates(rows);
  }

  lemma GatesOnFields(baseline: seq<Row>, candidate: seq<Row>)
    ensures ForEachItem(baseline, candidate, KeepsPhone) <==> PhonesStable(baseline, candidate)
    ensures ForEachItem(baseline, candidate, KeepsOffBlacklist) <==> BlacklistStable(baseline, candidate)
    ensures ForEachItem(baseline, candidate, HasEvidence) <==> CoverageSafe(baseline, candidate)
    ensures ForEachItem(baseline, candidate, SameResult) <==> ResultsSame(baseline, candidate)
  {
    PhoneGateOnFields(baseline, candidate);
    BlacklistGateOnFields(baseline, candidate);
    EvidenceGateOnFields(baseline, candidate);
    ResultGateOnFields(baseline, candidate);
  }

  lemma PhoneGateOnFields(baseline: seq<Row>, candidate: seq<Row>)
    ensures ForEachItem(baseline, candidate, KeepsPhone) <==> PhonesStable(baseline, candidate)
  {
    if PhonesStable(baseline, candidate) {
      forall i, j | 0 <= i < |baseline| && 0 <= j < |candidate| && baseline[i].item == candidate[j].item
        ensures KeepsPhone(baseline[i], candidate[j])
      {
        assert Matched(baseline, candidate, i, j);
      }
    }
  }

  lemma BlacklistGateOnFields(baseline: seq<Row>, candidate: seq<Row>)
    ensures ForEachItem(baseline, candidate, KeepsOffBlacklist) <==> BlacklistStable(baseline, candidate)
  {
    if BlacklistStable(baseline, candidate) {
      forall i, j | 0 <= i < |baseline| && 0 <= j < |candidate| && baseline[i].item == candidate[j].item
        ensures KeepsOffBlacklist(baseline[i], candidate[j])
      {
        assert Matched(baseline, candidate, i, j);
      }
    }
  }

  lemma EvidenceGateOnFields(baseline: seq<Row>, candidate: seq<Row>)
    ensures ForEachItem(baseline, candidate, HasEvidence) <==> CoverageSafe(baseline, candidate)
  {
    if CoverageSafe(baseline, candidate) {
      forall i, j | 0 <= i < |baseline| && 0 <= j < |candidate| && baseline[i].item == candidate[j].item
        ensures HasEvidence(baseline[i], candidate[j])
      {
        assert Matched(baseline, candidate, i, j);
      }
    }
  }

  lemma ResultGateOnFields(baseline: seq<Row>, candidate: seq<Row>)
    ensures ForEachItem(baseline, candidate, SameResult) <==> ResultsSame(baseline, candidate)
  {
    if ResultsSame(baseline, candidate) {
      forall i, j | 0 <= i < |baseline| && 0 <= j < |candidate| && baseline[i].item == candidate[j].item
        ensures SameResult(baseline[i], candidate[j])
      {
        assert Matched(baseline, candidate, i, j);
      }
    }
  }

  // The gates on matched corpora, in order.
  lemma GateOrder(baseline: seq<Row>, candidate: seq<Row>, minimum: int)
    requires |candidate| >= minimum && SameCorpus(baseline, candidate)
    ensures Compare(baseline, candidate, minimum).reason ==
      if !ForEachItem(baseline, candidate, KeepsPhone) then StablePhoneRegression
      else if !ForEachItem(baseline, candidate, KeepsOffBlacklist) then BlacklistRegression
      else if Count(candidate, IsAmbiguous) > Count(baseline, IsAmbiguous) then AmbiguityRegression
      else if Count(candidate, IsDuplicate) > Count(baseline, IsDuplicate) then DuplicateRegression
      else if !ForEachItem(baseline, candidate, HasEvidence) then InsufficientEvidence
      else if ForEachItem(baseline, candidate, SameResult) && Complexity(candidate) > Complexity(baseline)
      then ComplexityRegression
      else SafeNonRegression
  {
    CorpusMatchesIff(baseline, candidate);
    AgainstIsForEach(baseline, candidate, PhoneChanged, KeepsPhone);
    AgainstIsForEach(baseline, candidate, NewlyBlacklisted, KeepsOffBlacklist);
    AgainstIsForEach(baseline, candidate, UnsafeCoverage, HasEvidence);
    SameResultsIff(baseline, candidate);
  }

  /** The reason of a decision is the first gate that fails: sample too small, a row without item, corpora
      that do not hold the same distinct items, a known phone changed, an item newly blacklisted, more
      ambiguities, more duplicates, new coverage on fewer than two signals, more mappings for the same
      results. */
  lemma ReasonIsFirstGate(baseline: seq<Row>, candidate: seq<Row>, minimum: int, before: int, after: int)
    requires IsComplexity(baseline, before) && IsComplexity(candidate, after)
    ensures Compare(baseline, candidate, minimum).reason ==
      if |candidate| < minimum then InsufficientSample
      else if !(forall r :: r in baseline + candidate ==> r.item.Some?) then InvalidCorpus
      else if !SameCorpus(baseline, candidate) then CorpusMismatch
      else if !PhonesStable(baseline, candidate) then StablePhoneRegression
      else if !BlacklistStable(baseline, candidate) then BlacklistRegression
      else if |Ambiguities(candidate)| > |Ambiguities(baseline)| then AmbiguityRegression
      else if |Duplicates(candidate)| > |Duplicates(baseline)| then DuplicateRegression
      else if !CoverageSafe(baseline, candidate) then InsufficientEvidence
      else if ResultsSame(baseline, candidate) && after > before then ComplexityRegression
      else SafeNonRegression
  {
    ComplexityIsLargest(baseline);
    ComplexityIsLargest(candidate);
    FiguresAreSizes(baseline);
    FiguresAreSizes(candidate);
    GatesOnFields(baseline, candidate);
    KeyedIff(baseline, candidate);
    if AllKeyed(baseline) && AllKeyed(candidate) {
      CorpusMatchesIff(baseline, candidate);
      if |candidate| >= minimum && SameCorpus(baseline, candidate) {
        GateOrder(baseline, candidate, minimum);
      }
    }
  }

  lemma KeyedIff(baseline: seq<Row>, candidate: seq<Row>)
    ensures (forall r :: r in baseline + candidate ==> r.item.Some?) <==> AllKeyed(baseline) && AllKeyed(candidate)
  {
    if forall r :: r in baseline + candidate ==> r.item.Some? {
      forall i | 0 <= i < |baseline| ensures baseline[i].item.Some? {
        assert baseline[i] in baseline + candidate;
      }
      forall i | 0 <= i < |candidate| ensures candidate[i].item.Some? {
        assert candidate[i] in baseline + candidate;
      }
    }
  }

  /** A decision is a keep exactly for the safe reason, a crash exactly when the corpora cannot be compared,
      and a discard for every failed gate. */
  lemma VerdictByReason(baseline: seq<Row>, candidate: seq<Row>, minimum: int)
    ensures var d := Compare(baseline, candidate, minimum);
      && (d.verdict == Keep <==> d.reason == SafeNonRegression)
      && (d.verdict == Crash <==> d.reason == InvalidCorpus || d.reason == CorpusMismatch)
  {
  }
}
