/** The profile tables in the form of the source: rows updated in place by one transaction per command.
    Every method is proved against ProfileRegistry, about which the runs are proved. */
module ProfileStore {
  import opened Prelude
  import opened ProfileRegistry

  class ProfileTables {
    var bindings: map<nat, Option<nat>>
    var profiles: seq<Profile>
    var latest: map<nat, Experiment>

    function Tables(): Registry
      reads this
    {
      Registry(bindings, profiles, latest)
    }

    constructor ()
      ensures Tables() == EMPTY && Inv(Tables())
    {
      bindings, profiles, latest := map[], [], map[];
      new;
      RunKeepsInv([]);
    }

    method CreateCandidate(binding: nat, inferred: map<string, string>) returns (reply: Reply)
      modifies this
      ensures (Tables(), reply) == Execute(old(Tables()), Create(binding, inferred))
      ensures old(Inv(Tables())) ==> Inv(Tables())
    {
      ghost var before := Tables();
      if Inv(before) {
        ExecuteKeepsInv(before, Create(binding, inferred));
      }
      if binding !in bindings {
        return BindingNotFound;
      }
      var version := 0;
      var i := 0;
      while i < |profiles|
        invariant 0 <= i <= |profiles|
        invariant version == MaxVersion(profiles[..i], binding)
        invariant Tables() == before
      {
        assert profiles[..i + 1][..i] == profiles[..i];
        if profiles[i].binding == binding && profiles[i].version > version {
          version := profiles[i].version;
        }
        i := i + 1;
      }
      assert profiles[..i] == profiles;
      var mappings := ActiveMappings(Tables(), binding) + inferred;
      profiles := profiles + [Profile(binding, version + 1, mappings, Candidate)];
      return Ok(|profiles| - 1);
    }

    method EvaluateCandidate(profile: nat, replay: Replay, minimum: int) returns (reply: Reply)
      modifies this`latest
      ensures (Tables(), reply) == Execute(old(Tables()), Evaluate(profile, replay, minimum))
      ensures old(Inv(Tables())) ==> Inv(Tables())
    {
      ghost var before := Tables();
      if Inv(before) {
        ExecuteKeepsInv(before, Evaluate(profile, replay, minimum));
      }
      if profile >= |profiles| {
        return ProfileNotFound;
      }
      if profiles[profile].status != Candidate {
        return NotCandidate;
      }
      if profiles[profile].binding !in bindings {
        return BindingNotFound;
      }
      latest := latest[profile := Experiment(bindings[profiles[profile].binding], replay, Judge(replay, minimum))];
      return Ok(profile);
    }

    method SetProfileStatus(id: nat, status: ProfileStatus)
      modifies this`profiles
      ensures profiles == SetStatus(old(profiles), id, status)
    {
      if id < |profiles| {
        profiles := profiles[id := profiles[id].(status := status)];
      }
    }

    method PromoteProfile(profile: nat) returns (reply: Reply)
      modifies this`profiles, this`bindings
      ensures (Tables(), reply) == Execute(old(Tables()), Promote(profile))
      ensures old(Inv(Tables())) ==> Inv(Tables())
    {
      ghost var before := Tables();
      if Inv(before) {
        ExecuteKeepsInv(before, Promote(profile));
      }
      if profile >= |profiles| {
        return ProfileNotFound;
      }
      var binding := profiles[profile].binding;
      if binding !in bindings {
        return BindingNotFound;
      }
      if profiles[profile].status != Candidate {
        return NotCandidate;
      }
      if !IsApproved(latest, profile) {
        return NotApproved;
      }
      if bindings[binding].Some? {
        SetProfileStatus(bindings[binding].value, Retired);
      }
      SetProfileStatus(profile, Active);
      bindings := bindings[binding := Some(profile)];
      assert profiles == Activate(before, binding, profile).profiles;
      return Ok(profile);
    }

    method RollbackProfile(binding: nat, profile: nat) returns (reply: Reply)
      modifies this`profiles, this`bindings
      ensures (Tables(), reply) == Execute(old(Tables()), Rollback(binding, profile))
      ensures old(Inv(Tables())) ==> Inv(Tables())
    {
      ghost var before := Tables();
      if Inv(before) {
        ExecuteKeepsInv(before, Rollback(binding, profile));
      }
      if binding !in bindings {
        return BindingNotFound;
      }
      if profile >= |profiles| || profiles[profile].binding != binding {
        return ProfileNotFound;
      }
      if bindings[binding].Some? && bindings[binding].value != profile {
        SetProfileStatus(bindings[binding].value, Retired);
      }
      SetProfileStatus(profile, Active);
      bindings := bindings[binding := Some(profile)];
      return Ok(profile);
    }
  }
}
