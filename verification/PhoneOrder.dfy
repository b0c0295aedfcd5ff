/** What the order of a payload decides about its phone: nothing about the answer when the payload is
    stable, and the evidence path when several candidates share the best score. */
module PhoneOrder {
  import opened Prelude
  import opened PayloadFlattening
  import opened PayloadOrder
  import opened PhoneChoice

  // ------------------------------------------------------------------ the answer

  // Same kind of answer, same phone, same score; the path shown as evidence may differ.
  predicate SameAnswer(a: Choice, b: Choice) {
    match (a, b)
    case (NoPhone, NoPhone) => true
    case (Ambiguous(c), Ambiguous(d)) => c.score == d.score
    case (Chosen(c), Chosen(d)) => c.value == d.value && c.score == d.score
    case _ => false
  }

  lemma SameMembersSameAnswer(cs: seq<Candidate>, cs': seq<Candidate>, a: Choice, b: Choice)
    requires SameMembers(cs, cs') && IsAnswer(cs, a) && IsAnswer(cs', b)
    ensures SameAnswer(a, b)
  {
    SameMembersSameLaws(cs, cs', b);
  }

  lemma SameFlatteningSameCandidates(v: Json, w: Json, rules: Rules)
    requires SameFlattening(v, w)
    ensures SameMembers(Candidates(Flat(v), rules), Candidates(Flat(w), rules))
  {
    LaterValueWins(v, "");
    LaterValueWins(w, "");
    CandidatesOfPaths(Flat(v), rules);
    CandidatesOfPaths(Flat(w), rules);
    forall c ensures c in Candidates(Flat(v), rules) <==> c in Candidates(Flat(w), rules) {
      assert Lookup(Flat(v), c.path) == Lookup(Flat(w), c.path);
    }
  }

  // Every order of the payload gives the same answer, under any rules.
  ghost predicate OneAnswer(v: Json) {
    forall w, rules, a, b ::
      Reordered(v, w) && IsAnswer(Candidates(Flat(v), rules), a) && IsAnswer(Candidates(Flat(w), rules), b) ==>
        SameAnswer(a, b)
  }

  /** The kind of answer, the phone and its score are the same for every order of a stable payload. */
  lemma OrderIndependent(v: Json, w: Json, rules: Rules, a: Choice, b: Choice)
    requires Stable(v) && Reordered(v, w)
    requires IsAnswer(Candidates(Flat(v), rules), a) && IsAnswer(Candidates(Flat(w), rules), b)
    ensures SameAnswer(a, b)
  {
    StableFlattening(v, w);
    SameFlatteningSameCandidates(v, w, rules);
    SameMembersSameAnswer(Candidates(Flat(v), rules), Candidates(Flat(w), rules), a, b);
  }

  lemma AnswerExists(cs: seq<Candidate>) returns (choice: Choice)
    ensures IsAnswer(cs, choice)
  {
    if cs == [] {
      choice := NoPhone;
    } else {
      var top := SomeTop(cs);
      CloseToAnyTop(cs, top);
      choice := if TooClose(cs) then Ambiguous(top) else Chosen(top);
      assert !TooClose(cs) ==> Wins(cs, top);
    }
  }

  lemma {:induction false} SomeTop(cs: seq<Candidate>) returns (top: Candidate)
    requires cs != []
    ensures Top(cs, top)
  {
    var n := |cs| - 1;
    if n == 0 {
      top := cs[0];
    } else {
      top := SomeTop(cs[..n]);
      assert forall d :: d in cs ==> d in cs[..n] || d == cs[n];
      if cs[n].score > top.score {
        top := cs[n];
      }
    }
  }

  // A value that is at a path in one order only can be made to decide the answer.
  lemma ValueDecides(v: Json, w: Json, path: string, x: Json)
    requires Reordered(v, w) && Lookup(Flat(w), path) == Some(x) && Lookup(Flat(v), path) != Some(x)
    ensures !OneAnswer(v)
  {
    var rules := Rules(j => if j == x then Some("+33612345678") else None, {}, Some(path), k => false);
    var a := AnswerExists(Candidates(Flat(v), rules));
    var b := AnswerExists(Candidates(Flat(w), rules));
    MappedPathWins(w, rules, path, b);
    NotMapped(v, rules, path);
    assert a.Chosen? ==> a.phone in Candidates(Flat(v), rules);
    assert !SameAnswer(a, b);
  }

  // Without a phone at the mapped path no candidate has the score of one.
  lemma NotMapped(v: Json, rules: Rules, path: string)
    requires rules.preferred == Some(path)
    requires Lookup(Flat(v), path).Some? ==> rules.extract(Lookup(Flat(v), path).value).None?
    ensures forall c :: c in Candidates(Flat(v), rules) ==> c.score != 110
  {
    LaterValueWins(v, path);
    CandidatesOfPaths(Flat(v), rules);
  }

  /** The answer does not depend on the order of the payload, whatever the rules, if and only if leaves
      that share a path agree on its value and no leaf can itself be reordered. */
  lemma OrderIndependentIff(v: Json)
    requires WellKeyed(v)
    ensures OneAnswer(v) <==> Stable(v)
  {
    if Stable(v) {
      forall w, rules, a, b |
        Reordered(v, w) && IsAnswer(Candidates(Flat(v), rules), a) && IsAnswer(Candidates(Flat(w), rules), b)
        ensures SameAnswer(a, b)
      {
        OrderIndependent(v, w, rules, a, b);
      }
    } else {
      var path, w, x, w', x' := UnstableFlattening(v);
      if Lookup(Flat(v), path) != Some(x) {
        ValueDecides(v, w, path, x);
      } else {
        ValueDecides(v, w', path, x');
      }
    }
  }

  const DOTTED: Field := Field("a.b", Scalar("1"))
  const NESTED: Field := Field("a", Object([Field("b", Scalar("2"))]))

  // Every scalar is a phone.
  const LITERAL: Rules := Rules((j: Json) => if j.Scalar? then Some(j.text) else None, {}, None, k => true)

  lemma TwoFieldLeaves(f: Field, g: Field)
    ensures Leaves(Node("", Object([f, g]), 0)) == Leaves(Node(f.key, f.value, 1)) + Leaves(Node(g.key, g.value, 1))
  {
    assert [f, g][1..] == [g] && [g][1..] == [];
    var a, b := Node(f.key, f.value, 1), Node(g.key, g.value, 1);
    assert FieldNodes("", [f, g], 1) == [a] + ([b] + []) == [a, b];
    assert [a, b][1..] == [b] && [b][1..] == [];
    assert LeavesOf([b]) == Leaves(b) + [];
  }

  lemma WitnessLeaves()
    ensures Leaves(Node(DOTTED.key, DOTTED.value, 1)) == [Entry("a.b", Scalar("1"))]
    ensures Leaves(Node(NESTED.key, NESTED.value, 1)) == [Entry("a.b", Scalar("2"))]
  {
    var inner := Node("a.b", Scalar("2"), 2);
    assert KeyPath("a", "b") == "a" + "." + "b" == "a.b";
    assert [Field("b", Scalar("2"))][1..] == [];
    assert Children(Node("a", NESTED.value, 1)) == [inner] + [] == [inner];
    assert [inner][1..] == [] && LeavesOf([inner]) == Leaves(inner) + [];
  }

  // Two leaves at one path: the second stays, and it is the phone.
  lemma SecondWins(f: Field, g: Field, first: string, second: string, choice: Choice)
    requires Leaves(Node(f.key, f.value, 1)) == [Entry("a.b", Scalar(first))]
    requires Leaves(Node(g.key, g.value, 1)) == [Entry("a.b", Scalar(second))]
    requires IsAnswer(Candidates(Flat(Object([f, g])), LITERAL), choice)
    ensures choice == Chosen(Candidate("a.b", second, 80))
  {
    TwoFieldLeaves(f, g);
    var x, y := Entry("a.b", Scalar(first)), Entry("a.b", Scalar(second));
    assert [x] + [y] == [x, y] && [x, y][1..] == [y] && [y][1..] == [] && [x][1..] == [];
    assert Put([], x) == [x] && Put([x], y) == [y] + [];
    assert PutAll([], [x, y]) == PutAll([x], [y]) == PutAll([y], []) == [y];
    var c := Candidate("a.b", second, 80);
    assert Candidates([y], LITERAL) == [c] + [] == [c];
    assert c in [c];
  }

  /** A dotted key that collides with a nested one: the phone changes with the order of two fields. */
  lemma CollisionFlipsPhone(a: Choice, b: Choice)
    requires IsAnswer(Candidates(Flat(Object([DOTTED, NESTED])), LITERAL), a)
    requires IsAnswer(Candidates(Flat(Object([NESTED, DOTTED])), LITERAL), b)
    ensures Reordered(Object([DOTTED, NESTED]), Object([NESTED, DOTTED]))
    ensures a == Chosen(Candidate("a.b", "2", 80)) && b == Chosen(Candidate("a.b", "1", 80))
  {
    WitnessLeaves();
    SecondWins(DOTTED, NESTED, "1", "2", a);
    SecondWins(NESTED, DOTTED, "2", "1", b);
    MovedIsWitness();
  }

  lemma MovedIsWitness()
    ensures Reordered(Object([DOTTED, NESTED]), Object([NESTED, DOTTED]))
  {
    assert "a.b" != "a" by { assert |"a.b"| == 3 && |"a"| == 1; }
    assert MovedLast([DOTTED, NESTED], 0, DOTTED.value) == [NESTED, DOTTED];
    MovedIsReordered([DOTTED, NESTED], 0, DOTTED.value);
  }

  // ------------------------------------------------------------------ the evidence

  // A candidate at the top that comes first stays first.
  lemma {:induction false} FirstTopStays(cs: seq<Candidate>)
    requires cs != [] && Top(cs, cs[0])
    ensures SortByScore(cs) != [] && SortByScore(cs)[0] == cs[0]
  {
    var n := |cs| - 1;
    if n > 0 {
      assert forall d :: d in cs[..n] ==> d in cs;
      FirstTopStays(cs[..n]);
      assert cs[n] in cs;
    } else {
      assert cs[..0] == [];
    }
  }

  lemma SortedFirstIsTop(cs: seq<Candidate>)
    requires cs != []
    ensures SortByScore(cs) != [] && Top(cs, SortByScore(cs)[0])
  {
    SortSorts(cs);
    SortKeepsMembers(cs, cs[0]);
    var sorted := SortByScore(cs);
    SortKeepsMembers(cs, sorted[0]);
    forall d | d in cs ensures d.score <= sorted[0].score {
      SortKeepsMembers(cs, d);
    }
  }

  // The candidate whose path is reported.
  function Evidence(cs: seq<Candidate>): Option<Candidate> {
    if SortByScore(cs) == [] then None else Some(SortByScore(cs)[0])
  }

  // Any candidate at the top is the evidence in some order.
  lemma TopCanBeShown(cs: seq<Candidate>, c: Candidate) returns (cs': seq<Candidate>)
    requires Top(cs, c)
    ensures multiset(cs') == multiset(cs) && Evidence(cs') == Some(c)
  {
    var i :| 0 <= i < |cs| && cs[i] == c;
    cs' := [c] + (cs[..i] + cs[i + 1..]);
    assert cs == cs[..i] + ([c] + cs[i + 1..]);
    forall d | d in cs' ensures d.score <= c.score {
      assert d in multiset(cs');
    }
    FirstTopStays(cs');
  }

  ghost predicate OneEvidence(cs: seq<Candidate>) {
    forall cs' :: multiset(cs') == multiset(cs) ==> Evidence(cs') == Evidence(cs)
  }

  ghost predicate OneTop(cs: seq<Candidate>) {
    forall c, d :: Top(cs, c) && Top(cs, d) ==> c == d
  }

  /** The evidence is the same for every order of the candidates if and only if a single candidate has
      the best score. */
  lemma EvidenceFixedIff(cs: seq<Candidate>)
    ensures OneEvidence(cs) <==> OneTop(cs)
  {
    if OneTop(cs) {
      forall cs' | multiset(cs') == multiset(cs) ensures Evidence(cs') == Evidence(cs) {
        if cs == [] {
          assert cs' == [] by { assert |multiset(cs')| == |cs'|; }
        } else {
          assert |multiset(cs')| == |multiset(cs)|;
          SortedFirstIsTop(cs);
          SortedFirstIsTop(cs');
          SameTop(cs, cs', SortByScore(cs')[0]);
        }
      }
    } else {
      var c, d :| Top(cs, c) && Top(cs, d) && c != d;
      var _ := TopCanBeShown(cs, c);
      var _ := TopCanBeShown(cs, d);
    }
  }

  lemma SameTop(cs: seq<Candidate>, cs': seq<Candidate>, c: Candidate)
    requires multiset(cs) == multiset(cs') && Top(cs', c)
    ensures Top(cs, c)
  {
    forall d ensures d in cs <==> d in cs' {
      assert d in cs <==> d in multiset(cs);
      assert d in cs' <==> d in multiset(cs');
    }
  }
}
