/** The life of normalization profiles: creation, evaluation, promotion and rollback per binding. */
module ProfileRegistry {
  import opened Prelude
  import Gate = ProfileGate
  import Ground = ProfileGround

  datatype ProfileStatus = Candidate | Active | Retired

  // A profile row; its id is its index.
  datatype Profile = Profile(binding: nat, version: nat, mappings: map<string, string>, status: ProfileStatus)

  // The corpus of the binding replayed with the active profile and with the candidate.
  datatype Replay = Failed | Rows(before: seq<Gate.Row>, after: seq<Gate.Row>)

  datatype Experiment = Experiment(baseline: Option<nat>, replay: Replay, verdict: Gate.Verdict)

  // `bindings` maps a binding to its active profile; `latest` holds the latest experiment of each candidate.
  datatype Registry = Registry(bindings: map<nat, Option<nat>>, profiles: seq<Profile>, latest: map<nat, Experiment>)

  datatype Reply = BindingNotFound | ProfileNotFound | NotCandidate | NotApproved | Ok(profile: nat)

  datatype Command =
    | AddBinding(binding: nat)
    | Create(binding: nat, inferred: map<string, string>)
    | Evaluate(profile: nat, replay: Replay, minimum: int)
    | Promote(profile: nat)
    | Rollback(binding: nat, profile: nat)

  function MaxVersion(profiles: seq<Profile>, binding: nat): nat {
    if profiles == [] then 0
    else
      var last := profiles[|profiles| - 1];
      var rest := MaxVersion(profiles[..|profiles| - 1], binding);
      if last.binding == binding && last.version > rest then last.version else rest
  }

  function ActiveMappings(r: Registry, binding: nat): map<string, string>
    requires binding in r.bindings
  {
    if r.bindings[binding].Some? && r.bindings[binding].value < |r.profiles|
    then r.profiles[r.bindings[binding].value].mappings
    else map[]
  }

  function SetStatus(profiles: seq<Profile>, id: nat, status: ProfileStatus): seq<Profile> {
    if id < |profiles| then profiles[id := profiles[id].(status := status)] else profiles
  }

  // Makes `id` the active profile of its binding; the former one, if another, is retired.
  function Activate(r: Registry, binding: nat, id: nat): Registry
    requires binding in r.bindings
  {
    var retired :=
      if r.bindings[binding].Some? && r.bindings[binding].value != id
      then SetStatus(r.profiles, r.bindings[binding].value, Retired)
      else r.profiles;
    r.(profiles := SetStatus(retired, id, Active), bindings := r.bindings[binding := Some(id)])
  }

  // A replay that raises is a crash, and approves nothing.
  function Judge(replay: Replay, minimum: int): Gate.Verdict {
    match replay
    case Failed => Gate.Crash
    case Rows(before, after) => Gate.Compare(before, after, minimum).verdict
  }

  predicate IsApproved(latest: map<nat, Experiment>, p: nat) {
    p in latest && latest[p].verdict == Gate.Keep
  }

  function Execute(r: Registry, c: Command): (Registry, Reply) {
    match c
    case AddBinding(b) =>
      if b in r.bindings then (r, Ok(0)) else (r.(bindings := r.bindings[b := None]), Ok(0))
    case Create(b, inferred) =>
      if b !in r.bindings then (r, BindingNotFound)
      else
        var row := Profile(b, MaxVersion(r.profiles, b) + 1, ActiveMappings(r, b) + inferred, Candidate);
        (r.(profiles := r.profiles + [row]), Ok(|r.profiles|))
    case Evaluate(p, replay, minimum) =>
      if p >= |r.profiles| then (r, ProfileNotFound)
      else if r.profiles[p].status != Candidate then (r, NotCandidate)
      else if r.profiles[p].binding !in r.bindings then (r, BindingNotFound)
      else
        var experiment := Experiment(r.bindings[r.profiles[p].binding], replay, Judge(replay, minimum));
        (r.(latest := r.latest[p := experiment]), Ok(p))
    case Promote(p) =>
      if p >= |r.profiles| then (r, ProfileNotFound)
      else if r.profiles[p].binding !in r.bindings then (r, BindingNotFound)
      else if r.profiles[p].status != Candidate then (r, NotCandidate)
      else if !IsApproved(r.latest, p) then (r, NotApproved)
      else (Activate(r, r.profiles[p].binding, p), Ok(p))
    case Rollback(b, p) =>
      if b !in r.bindings then (r, BindingNotFound)
      else if p >= |r.profiles| || r.profiles[p].binding != b then (r, ProfileNotFound)
      else (Activate(r, b, p), Ok(p))
  }

  // ------------------------------------------------------------------ invariants

  // The versions of one binding, in order of creation.
  function Versions(profiles: seq<Profile>, binding: nat): seq<int> {
    if profiles == [] then []
    else
      var last := profiles[|profiles| - 1];
      Versions(profiles[..|profiles| - 1], binding) + if last.binding == binding then [last.version] else []
  }

  // 1, 2, ..., n.
  ghost predicate Consecutive(versions: seq<int>) {
    forall i :: 0 <= i < |versions| ==> versions[i] == i + 1
  }

  ghost predicate ActiveIffPointed(r: Registry) {
    && (forall p :: 0 <= p < |r.profiles| ==>
          && r.profiles[p].binding in r.bindings
          && (r.profiles[p].status == Active <==> r.bindings[r.profiles[p].binding] == Some(p)))
    && (forall b :: b in r.bindings && r.bindings[b].Some? ==>
          r.bindings[b].value < |r.profiles| && r.profiles[r.bindings[b].value].binding == b)
  }

  ghost predicate VersionsInOrder(r: Registry) {
    forall b: nat :: Consecutive(Versions(r.profiles, b))
  }

  ghost predicate Inv(r: Registry) {
    ActiveIffPointed(r) && VersionsInOrder(r)
  }

  lemma ActivateKeepsPointers(r: Registry, binding: nat, id: nat)
    requires ActiveIffPointed(r) && binding in r.bindings && id < |r.profiles| && r.profiles[id].binding == binding
    ensures ActiveIffPointed(Activate(r, binding, id))
    ensures |Activate(r, binding, id).profiles| == |r.profiles|
    ensures forall p :: 0 <= p < |r.profiles| ==>
      var q := Activate(r, binding, id).profiles[p];
      q == r.profiles[p].(status := q.status) && (q.status == r.profiles[p].status || q.status != Candidate)
  {
  }

  lemma {:induction false} SameVersions(a: seq<Profile>, a': seq<Profile>, binding: nat)
    requires |a| == |a'| && forall p :: 0 <= p < |a| ==> a'[p].binding == a[p].binding && a'[p].version == a[p].version
    ensures Versions(a', binding) == Versions(a, binding)
  {
    if a != [] {
      SameVersions(a[..|a| - 1], a'[..|a| - 1], binding);
    }
  }

  lemma {:induction false} MaxIsLast(profiles: seq<Profile>, binding: nat)
    requires Consecutive(Versions(profiles, binding))
    ensures MaxVersion(profiles, binding) == |Versions(profiles, binding)|
  {
    if profiles != [] {
      var n := |profiles| - 1;
      var before, all := Versions(profiles[..n], binding), Versions(profiles, binding);
      assert forall i :: 0 <= i < |before| ==> before[i] == all[i];
      MaxIsLast(profiles[..n], binding);
      if profiles[n].binding == binding {
        assert all[|before|] == profiles[n].version;
      }
    }
  }

  lemma CreateKeepsInv(r: Registry, row: Profile)
    requires Inv(r) && row.binding in r.bindings && row.version == MaxVersion(r.profiles, row.binding) + 1
      && row.status == Candidate
    ensures Inv(r.(profiles := r.profiles + [row]))
  {
    var r' := r.(profiles := r.profiles + [row]);
    assert r'.profiles[..|r.profiles|] == r.profiles;
    forall b: nat ensures Consecutive(Versions(r'.profiles, b)) {
      assert Consecutive(Versions(r.profiles, b));
      if b == row.binding {
        MaxIsLast(r.profiles, b);
      }
    }
  }

  // Profiles keep their identity, and none returns to candidate.
  ghost predicate Evolves(r: Registry, r': Registry) {
    && |r.profiles| <= |r'.profiles|
    && forall p :: 0 <= p < |r.profiles| ==>
         && r'.profiles[p].binding == r.profiles[p].binding && r'.profiles[p].version == r.profiles[p].version
         && r'.profiles[p].mappings == r.profiles[p].mappings
         && (r'.profiles[p].status == Candidate ==> r.profiles[p].status == Candidate)
  }

  lemma ExecuteKeepsInv(r: Registry, c: Command)
    requires Inv(r)
    ensures Inv(Execute(r, c).0) && Evolves(r, Execute(r, c).0)
  {
    var r' := Execute(r, c).0;
    match c
    case AddBinding(b) =>
      forall b: nat ensures Consecutive(Versions(r'.profiles, b)) {
        assert Consecutive(Versions(r.profiles, b));
      }
    case Create(b, inferred) =>
      if b in r.bindings {
        CreateKeepsInv(r, r'.profiles[|r.profiles|]);
      }
    case Evaluate(p, _, _) =>
      forall b: nat ensures Consecutive(Versions(r'.profiles, b)) {
        assert Consecutive(Versions(r.profiles, b));
      }
    case Promote(p) =>
      if r' != r {
        ActivationKeepsInv(r, r.profiles[p].binding, p);
      }
    case Rollback(b, p) =>
      if r' != r {
        ActivationKeepsInv(r, b, p);
      }
  }

  lemma ActivationKeepsInv(r: Registry, binding: nat, id: nat)
    requires Inv(r) && binding in r.bindings && id < |r.profiles| && r.profiles[id].binding == binding
    ensures Inv(Activate(r, binding, id)) && Evolves(r, Activate(r, binding, id))
  {
    var r' := Activate(r, binding, id);
    ActivateKeepsPointers(r, binding, id);
    forall b: nat ensures Consecutive(Versions(r'.profiles, b)) {
      SameVersions(r.profiles, r'.profiles, b);
      assert Consecutive(Versions(r.profiles, b));
    }
  }

  const EMPTY: Registry := Registry(map[], [], map[])

  // The registry after a list of commands.
  function Run(commands: seq<Command>): Registry {
    if commands == [] then EMPTY else Execute(Run(commands[..|commands| - 1]), commands[|commands| - 1]).0
  }

  /** Over any run of commands a profile is active if and only if its own binding points to it, the
      versions of each binding are exactly 1..n in order of creation, and every prefix of the run
      evolves into the next: no profile becomes a candidate again. */
  lemma {:induction false} RunKeepsInv(commands: seq<Command>)
    ensures Inv(Run(commands))
    ensures commands != [] ==> Evolves(Run(commands[..|commands| - 1]), Run(commands))
  {
    if commands != [] {
      RunKeepsInv(commands[..|commands| - 1]);
      ExecuteKeepsInv(Run(commands[..|commands| - 1]), commands[|commands| - 1]);
    }
  }

  /** At most one profile of a binding is active. */
  lemma OneActivePerBinding(commands: seq<Command>, p: nat, q: nat)
    requires p < |Run(commands).profiles| && q < |Run(commands).profiles|
    requires Run(commands).profiles[p].binding == Run(commands).profiles[q].binding
    requires Run(commands).profiles[p].status == Active && Run(commands).profiles[q].status == Active
    ensures p == q
  {
    RunKeepsInv(commands);
  }

  // Every profile that ever left the candidate state has an approving experiment.
  ghost predicate Approved(r: Registry) {
    forall p :: 0 <= p < |r.profiles| && r.profiles[p].status != Candidate ==> IsApproved(r.latest, p)
  }

  // A rollback that would activate a candidate nobody approved.
  predicate SkipsApproval(r: Registry, c: Command) {
    && c.Rollback? && c.binding in r.bindings && c.profile < |r.profiles| && r.profiles[c.profile].binding == c.binding
    && r.profiles[c.profile].status == Candidate
    && !IsApproved(r.latest, c.profile)
  }

  /** A command keeps every used profile approved if and only if it is not a rollback to an unapproved
      candidate: promotion checks the decision, rollback does not look at the target's status. */
  lemma ApprovalKeptIff(r: Registry, c: Command)
    requires Inv(r) && Approved(r)
    ensures Approved(Execute(r, c).0) <==> !SkipsApproval(r, c)
  {
    var r' := Execute(r, c).0;
    ExecuteKeepsInv(r, c);
    if SkipsApproval(r, c) {
      assert r'.profiles[c.profile].status == Active;
    } else if c.Promote? && r' != r {
      OnlyActivated(r, r.profiles[c.profile].binding, c.profile);
    } else if c.Rollback? && r' != r {
      OnlyActivated(r, c.binding, c.profile);
    }
  }

  // Besides its target, an activation touches only profiles that were active.
  lemma OnlyActivated(r: Registry, binding: nat, id: nat)
    requires Inv(r) && binding in r.bindings && id < |r.profiles| && r.profiles[id].binding == binding
    ensures var r' := Activate(r, binding, id);
      forall p :: 0 <= p < |r.profiles| && p != id && r.profiles[p].status == Candidate ==>
        r'.profiles[p].status == Candidate
  {
  }

  /** Over any run whose rollbacks never target an unapproved candidate, every active or retired profile was
      approved. */
  lemma {:induction false} RunStaysApproved(commands: seq<Command>)
    requires forall i :: 0 <= i < |commands| ==> !SkipsApproval(Run(commands[..i]), commands[i])
    ensures Approved(Run(commands))
  {
    if commands != [] {
      var n := |commands| - 1;
      forall i | 0 <= i < n ensures !SkipsApproval(Run(commands[..n][..i]), commands[..n][i]) {
        assert commands[..n][..i] == commands[..i];
        assert !SkipsApproval(Run(commands[..i]), commands[i]);
      }
      RunStaysApproved(commands[..n]);
      RunKeepsInv(commands[..n]);
      ApprovalKeptIff(Run(commands[..n]), commands[n]);
    }
  }

  // A kept experiment really compared two replays of one corpus.
  ghost predicate HonestExperiments(r: Registry) {
    forall p :: p in r.latest && r.latest[p].verdict == Gate.Keep ==>
      r.latest[p].replay.Rows? && exists minimum :: Judge(r.latest[p].replay, minimum) == Gate.Keep
  }

  lemma {:induction false} RunIsHonest(commands: seq<Command>)
    ensures HonestExperiments(Run(commands))
  {
    if commands != [] {
      RunIsHonest(commands[..|commands| - 1]);
      var r, c := Run(commands[..|commands| - 1]), commands[|commands| - 1];
      if c.Evaluate? && Judge(c.replay, c.minimum) == Gate.Keep {
        assert c.replay.Rows?;
      }
    }
  }

  /** Over any run whose rollbacks never target an unapproved candidate, whatever profile a binding runs
      lost no ground on the corpus it was evaluated on: every phone of the baseline replay is kept,
      coverage does not drop, and ambiguities, duplicates and blacklisted items do not grow. */
  lemma ActiveKeptGround(commands: seq<Command>, binding: nat)
    requires forall i :: 0 <= i < |commands| ==> !SkipsApproval(Run(commands[..i]), commands[i])
    requires binding in Run(commands).bindings && Run(commands).bindings[binding].Some?
    ensures var r := Run(commands);
      var p := r.bindings[binding].value;
      && p < |r.profiles| && r.profiles[p].binding == binding && r.profiles[p].status == Active
      && p in r.latest && r.latest[p].replay.Rows?
      && (Ground.WellFormed(r.latest[p].replay.after) ==>
        Ground.KeepsGround(r.latest[p].replay.before, r.latest[p].replay.after))
  {
    var r := Run(commands);
    var p := r.bindings[binding].value;
    RunKeepsInv(commands);
    RunStaysApproved(commands);
    RunIsHonest(commands);
    assert IsApproved(r.latest, p);
    var replay := r.latest[p].replay;
    var minimum :| Judge(replay, minimum) == Gate.Keep;
    if Ground.WellFormed(replay.after) {
      Ground.KeepKeepsGround(replay.before, replay.after, minimum);
    }
  }

  // Two commands are enough to activate a profile that was never evaluated.
  lemma RollbackActivatesCandidate()
    ensures var r := Run([AddBinding(0), Create(0, map[]), Rollback(0, 0)]);
      r.profiles == [Profile(0, 1, map[], Active)] && r.bindings == map[0 := Some(0)] && r.latest == map[]
  {
    var all := [AddBinding(0), Create(0, map[]), Rollback(0, 0)];
    var two := [AddBinding(0), Create(0, map[])];
    assert all[..2] == two && two[..1] == [AddBinding(0)] && [AddBinding(0)][..0] == [];
    assert Run([AddBinding(0)]) == EMPTY.(bindings := map[0 := None]);
    assert Run(two).profiles == [Profile(0, 1, map[], Candidate)];
  }
}
