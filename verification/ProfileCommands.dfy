/** What each profile command answers and writes, on the rows it finds. */
module ProfileCommands {
  import opened Prelude
  import opened ProfileRegistry
  import Gate = ProfileGate

  // What the active profile of a binding maps.
  ghost predicate Inherits(r: Registry, binding: nat, key: string, path: string) {
    && binding in r.bindings && r.bindings[binding].Some? && r.bindings[binding].value < |r.profiles|
    && key in r.profiles[r.bindings[binding].value].mappings
    && r.profiles[r.bindings[binding].value].mappings[key] == path
  }

  /** A candidate is created exactly when the binding exists: the next version, not active, mapping what was
      inferred and, for the other fields, what the active profile maps. Nothing else changes. */
  lemma CreateIff(r: Registry, binding: nat, inferred: map<string, string>)
    requires Inv(r)
    ensures var (r', reply) := Execute(r, Create(binding, inferred));
      && (reply == BindingNotFound <==> binding !in r.bindings)
      && (binding !in r.bindings ==> r' == r)
      && (binding in r.bindings ==>
            && reply == Ok(|r.profiles|) && |r'.profiles| == |r.profiles| + 1
            && r' == r.(profiles := r.profiles + [r'.profiles[|r.profiles|]])
            && var row := r'.profiles[|r.profiles|];
               row.binding == binding && row.status == Candidate
               && row.version == |Versions(r.profiles, binding)| + 1
               && forall key, path :: key in row.mappings && row.mappings[key] == path <==>
                    if key in inferred then inferred[key] == path else Inherits(r, binding, key, path))
  {
    if binding in r.bindings {
      assert Consecutive(Versions(r.profiles, binding));
      MaxIsLast(r.profiles, binding);
    }
  }

  /** An evaluation is recorded exactly for a candidate of a known binding, against the profile that is active
      at that moment; a failed replay counts as a crash, any other as the gate decides. */
  lemma EvaluateIff(r: Registry, p: nat, replay: Replay, minimum: int)
    ensures var (r', reply) := Execute(r, Evaluate(p, replay, minimum));
      && (reply == ProfileNotFound <==> p >= |r.profiles|)
      && (reply == NotCandidate <==> p < |r.profiles| && r.profiles[p].status != Candidate)
      && (!reply.Ok? ==> r' == r)
      && (reply.Ok? ==>
            && p < |r.profiles| && r.profiles[p].binding in r.bindings
            && r'.bindings == r.bindings && r'.profiles == r.profiles
            && r'.latest.Keys == r.latest.Keys + {p}
            && (forall q :: q in r.latest && q != p ==> r'.latest[q] == r.latest[q])
            && r'.latest[p].baseline == r.bindings[r.profiles[p].binding] && r'.latest[p].replay == replay
            && (replay.Failed? ==> r'.latest[p].verdict == Gate.Crash)
            && (replay.Rows? ==> r'.latest[p].verdict == Gate.Compare(replay.before, replay.after, minimum).verdict))
  {
  }

  // The binding runs profile p; the profile it ran before, if another, is retired; no other row changed.
  ghost predicate Switched(r: Registry, r': Registry, binding: nat, p: nat)
    requires binding in r.bindings
  {
    && r'.bindings == r.bindings[binding := Some(p)] && r'.latest == r.latest
    && |r'.profiles| == |r.profiles| && p < |r.profiles|
    && r'.profiles[p] == r.profiles[p].(status := Active)
    && forall q :: 0 <= q < |r.profiles| && q != p ==>
         r'.profiles[q] == if r.bindings[binding] == Some(q) then r.profiles[q].(status := Retired) else r.profiles[q]
  }

  /** A profile is promoted exactly when it is a candidate of a known binding whose latest experiment kept it;
      it is refused for the first of: unknown profile, unknown binding, not a candidate, not approved. */
  lemma PromoteIff(r: Registry, p: nat)
    ensures var (r', reply) := Execute(r, Promote(p));
      var found := p < |r.profiles| && r.profiles[p].binding in r.bindings;
      && (reply == ProfileNotFound <==> p >= |r.profiles|)
      && (reply == BindingNotFound <==> p < |r.profiles| && r.profiles[p].binding !in r.bindings)
      && (reply == NotCandidate <==> found && r.profiles[p].status != Candidate)
      && (reply == Ok(p) <==>
            found && r.profiles[p].status == Candidate && p in r.latest && r.latest[p].verdict == Gate.Keep)
      && (reply == NotApproved <==>
            found && r.profiles[p].status == Candidate && !(p in r.latest && r.latest[p].verdict == Gate.Keep))
      && (reply.Ok? ==> Switched(r, r', r.profiles[p].binding, p))
      && (!reply.Ok? ==> r' == r)
  {
  }

  /** A binding is rolled back exactly to a profile of its own, whatever that profile's status. */
  lemma RollbackIff(r: Registry, binding: nat, p: nat)
    ensures var (r', reply) := Execute(r, Rollback(binding, p));
      && (reply == BindingNotFound <==> binding !in r.bindings)
      && (reply == Ok(p) <==> binding in r.bindings && p < |r.profiles| && r.profiles[p].binding == binding)
      && (reply == ProfileNotFound <==>
            binding in r.bindings && !(p < |r.profiles| && r.profiles[p].binding == binding))
      && (reply.Ok? ==> Switched(r, r', binding, p))
      && (!reply.Ok? ==> r' == r)
  {
  }
}
