/**
 * The scoring engine's control state and the pure steps of a scoring round
 * (scoring/scoring.go): building a team's address from a VM's ip-schema,
 * composing and splitting "box_service" names, and choosing which services
 * of which teams a round scores.
 */
module Scoring {
  import opened Wrappers
  import opened Text
  import opened Enum
  import IpSchema

  /** The engine's two control flags and its four transitions. */
  class Engine {
    var scoringEnabled: bool
    var scoringPaused: bool

    /** The engine is never paused without being enabled. */
    predicate Valid()
      reads this
    {
      scoringPaused ==> scoringEnabled
    }

    /** Go's zero values: stopped. */
    constructor ()
      ensures Valid()
      ensures !scoringEnabled && !scoringPaused
      ensures State() == "stopped"
    {
      scoringEnabled, scoringPaused := false, false;
    }

    /** GetEngineState. */
    function State(): (s: string)
      reads this
      ensures s == "paused" <==> scoringEnabled && scoringPaused
      ensures s == "running" <==> scoringEnabled && !scoringPaused
      ensures s == "stopped" <==> !scoringEnabled
    {
      if scoringEnabled then (if scoringPaused then "paused" else "running") else "stopped"
    }

    /** StartEngine: a stopped engine starts running; an enabled one is left as it is. */
    method Start()
      requires Valid()
      modifies this
      ensures Valid()
      ensures old(scoringEnabled) ==> scoringEnabled == old(scoringEnabled) && scoringPaused == old(scoringPaused)
      ensures !old(scoringEnabled) ==> State() == "running"
    {
      if scoringEnabled {
        return;
      }
      scoringEnabled := true;
      scoringPaused := false;
    }

    /** StopEngine: a running or paused engine stops; a stopped one is left as it is. */
    method Stop()
      requires Valid()
      modifies this
      ensures Valid()
      ensures !scoringEnabled && !scoringPaused
      ensures State() == "stopped"
    {
      if !scoringEnabled {
        return;
      }
      scoringEnabled := false;
      scoringPaused := false;
    }

    /** PauseEngine: only a running engine pauses. */
    method Pause()
      requires Valid()
      modifies this
      ensures Valid()
      ensures old(State()) == "running" ==> State() == "paused"
      ensures old(State()) != "running" ==> scoringEnabled == old(scoringEnabled) && scoringPaused == old(scoringPaused)
    {
      if !scoringEnabled {
        return;
      }
      if scoringPaused {
        return;
      }
      scoringPaused := true;
    }

    /** ResumeEngine: only a paused engine resumes. */
    method Resume()
      requires Valid()
      modifies this
      ensures Valid()
      ensures old(State()) == "paused" ==> State() == "running"
      ensures old(State()) != "paused" ==> scoringEnabled == old(scoringEnabled) && scoringPaused == old(scoringPaused)
    {
      if !scoringEnabled {
        return;
      }
      if !scoringPaused {
        return;
      }
      scoringPaused := false;
    }
  }

  /**
   * constructIPAddress: a schema of four dot-separated parts becomes the
   * team's address by putting the decimal team id in place of the first
   * "t" and then of the first "T".
   */
  function ConstructIPAddress(schema: string, teamID: int): (r: Result<string, string>)
    ensures r.Err? <==> |Split(schema, '.')| != 4
    ensures r.Ok? && 't' !in schema && 'T' !in schema ==> r.value == schema
  {
    if |Split(schema, '.')| != 4 then Err("invalid IP schema format: " + schema)
    else
      var id := Decimal(teamID);
      Ok(ReplaceFirst(ReplaceFirst(schema, 't', id), 'T', id))
  }

  /** The decimal form of a team id has no team letter. */
  lemma DecimalHasNoTeamLetter(n: int)
    ensures 't' !in Decimal(n) && 'T' !in Decimal(n)
  {
    var d := Decimal(n);
    forall i | 0 <= i < |d| ensures d[i] != 't' && d[i] != 'T' {
      assert IsDigit(d[i]) || d[i] == '-';
    }
  }

  /** A schema whose only team letter is the one marked gets the team id there and nowhere else. */
  lemma {:induction false} SubstitutesTheLetter(pre: string, letter: char, post: string, teamID: int)
    requires letter == 't' || letter == 'T'
    requires |Split(pre + [letter] + post, '.')| == 4
    requires 't' !in pre && 'T' !in pre && 't' !in post && 'T' !in post
    ensures ConstructIPAddress(pre + [letter] + post, teamID) == Ok(pre + Decimal(teamID) + post)
  {
    var s := pre + [letter] + post;
    var id := Decimal(teamID);
    DecimalHasNoTeamLetter(teamID);
    assert s[|pre|] == letter;
    assert forall j :: 0 <= j < |pre| ==> s[j] == pre[j];
    assert s[..|pre|] == pre && s[|pre| + 1..] == post;
    if letter == 't' {
      assert IndexOf(s, 't') == |pre|;
      var s1 := pre + id + post;
      assert ReplaceFirst(s, 't', id) == s1;
      assert 'T' !in s1;
    } else {
      assert 't' !in s;
      assert IndexOf(s, 'T') == |pre|;
    }
  }

  /** A schema of four dot-separated parts is those parts joined by dots. */
  lemma FourParts(schema: string)
    requires |Split(schema, '.')| == 4
    ensures var p := Split(schema, '.');
            schema == p[0] + "." + p[1] + "." + p[2] + "." + p[3]
  {
    var p := Split(schema, '.');
    SplitJoin(schema, '.');
    assert p == [p[0], p[1], p[2], p[3]];
    JoinFour(p[0], p[1], p[2], p[3], ".");
  }

  /** No letter t or T. */
  predicate NoTeamLetter(s: string)
  {
    't' !in s && 'T' !in s
  }

  /** Four parts, at most one of the last two a team letter and no other t or T anywhere. */
  lemma AddressOfParts(a: string, b: string, c: string, d: string, teamID: int)
    requires NoTeamLetter(a) && NoTeamLetter(b)
    requires !(IsTeamLetter(c) && IsTeamLetter(d))
    requires IsTeamLetter(c) || NoTeamLetter(c)
    requires IsTeamLetter(d) || NoTeamLetter(d)
    requires |Split(a + "." + b + "." + c + "." + d, '.')| == 4
    ensures var id := Decimal(teamID);
            ConstructIPAddress(a + "." + b + "." + c + "." + d, teamID) ==
              Ok(a + "." + b + "." + (if IsTeamLetter(c) then id else c) + "." + (if IsTeamLetter(d) then id else d))
  {
    if IsTeamLetter(c) {
      ThirdIsLetter(a, b, c, d, teamID);
    } else if IsTeamLetter(d) {
      FourthIsLetter(a, b, c, d, teamID);
    } else {
      NoLetterConcat(a, b, c, d);
    }
  }

  lemma ThirdIsLetter(a: string, b: string, c: string, d: string, teamID: int)
    requires NoTeamLetter(a) && NoTeamLetter(b) && IsTeamLetter(c) && NoTeamLetter(d)
    requires |Split(a + "." + b + "." + c + "." + d, '.')| == 4
    ensures ConstructIPAddress(a + "." + b + "." + c + "." + d, teamID) ==
              Ok(a + "." + b + "." + Decimal(teamID) + "." + d)
  {
    var pre, post := a + "." + b + ".", "." + d;
    var id := Decimal(teamID);
    assert c == [c[0]];
    RegroupThird(a, b, c, d);
    RegroupThird(a, b, id, d);
    assert NoTeamLetter(pre) && NoTeamLetter(post);
    SubstitutesTheLetter(pre, c[0], post, teamID);
  }

  /** The third part of a dotted address sits between its first two parts and its last. */
  lemma RegroupThird(a: string, b: string, x: string, d: string)
    ensures a + "." + b + "." + x + "." + d == (a + "." + b + ".") + x + ("." + d)
  {
  }

  lemma FourthIsLetter(a: string, b: string, c: string, d: string, teamID: int)
    requires NoTeamLetter(a) && NoTeamLetter(b) && NoTeamLetter(c) && IsTeamLetter(d)
    requires |Split(a + "." + b + "." + c + "." + d, '.')| == 4
    ensures ConstructIPAddress(a + "." + b + "." + c + "." + d, teamID) ==
              Ok(a + "." + b + "." + c + "." + Decimal(teamID))
  {
    var pre := a + "." + b + "." + c + ".";
    assert a + "." + b + "." + c + "." + d == pre + [d[0]] + "" by {
      assert d == [d[0]];
    }
    assert NoTeamLetter(pre);
    var id := Decimal(teamID);
    assert pre + id + "" == a + "." + b + "." + c + "." + id;
    SubstitutesTheLetter(pre, d[0], "", teamID);
  }

  lemma NoLetterConcat(a: string, b: string, c: string, d: string)
    requires NoTeamLetter(a) && NoTeamLetter(b) && NoTeamLetter(c) && NoTeamLetter(d)
    ensures NoTeamLetter(a + "." + b + "." + c + "." + d)
  {
    var s := a + "." + b + "." + c + "." + d;
    forall i | 0 <= i < |s| ensures s[i] != 't' && s[i] != 'T' {
      if i < |a| { assert s[i] == a[i]; }
      else if i == |a| { }
      else if i < |a| + 1 + |b| { assert s[i] == b[i - |a| - 1]; }
      else if i == |a| + 1 + |b| { }
      else if i < |a| + 2 + |b| + |c| { assert s[i] == c[i - |a| - |b| - 2]; }
      else if i == |a| + 2 + |b| + |c| { }
      else { assert s[i] == d[i - |a| - |b| - |c| - 3]; }
    }
  }

  /**
   * A schema validateIPSchema accepts yields the address whose four parts
   * are the schema's, with the team id in place of the team letter.
   */
  lemma ValidSchemaAddress(schema: string, teamID: int)
    requires IpSchema.ValidSchema(schema)
    ensures ConstructIPAddress(schema, teamID).Ok?
    ensures var p := Split(schema, '.');
            var id := Decimal(teamID);
            ConstructIPAddress(schema, teamID).value ==
              p[0] + "." + p[1] + "." + (if IsTeamLetter(p[2]) then id else p[2]) + "." +
              (if IsTeamLetter(p[3]) then id else p[3])
  {
    var p := Split(schema, '.');
    FourParts(schema);
    IpSchema.AtoiHasNoTeamLetter(p[0]);
    IpSchema.AtoiHasNoTeamLetter(p[1]);
    if !IsTeamLetter(p[2]) {
      IpSchema.AtoiHasNoTeamLetter(p[2]);
    }
    if !IsTeamLetter(p[3]) {
      IpSchema.AtoiHasNoTeamLetter(p[3]);
    }
    AddressOfParts(p[0], p[1], p[2], p[3], teamID);
  }

  /** The unique services-table name of a VM's service: box name, "_", service name. */
  function FullServiceName(vmName: string, serviceName: string): (full: string)
    ensures |full| == |vmName| + 1 + |serviceName| && full[|vmName|] == '_'
  {
    vmName + "_" + serviceName
  }

  /** The service part of a full name: what follows its first "_"; None when it has none. */
  function ServiceNameOf(fullName: string): (r: Option<string>)
    ensures r.None? <==> '_' !in fullName
    ensures r.Some? ==> exists vm :: '_' !in vm && fullName == FullServiceName(vm, r.value)
  {
    var parts := SplitN2(fullName, '_');
    if |parts| != 2 then None
    else
      assert fullName == FullServiceName(parts[0], parts[1]);
      Some(parts[1])
  }

  /** Splitting a composed name gives the service back when the box name has no "_". */
  lemma NameRoundTrip(vmName: string, serviceName: string)
    requires '_' !in vmName
    ensures ServiceNameOf(FullServiceName(vmName, serviceName)) == Some(serviceName)
  {
    var full := FullServiceName(vmName, serviceName);
    assert full[|vmName|] == '_';
    assert forall j :: 0 <= j < |vmName| ==> full[j] == vmName[j];
    assert IndexOf(full, '_') == |vmName|;
    assert full[|vmName| + 1..] == serviceName;
  }

  /** What a round hands to serviceSelector for one team service. */
  datatype Target = Target(team: ScoringTeam, service: ScoringService, serviceName: string,
                           config: Service, vm: VirtualMachine)

  /**
   * The skip rules of score for one service: disabled, no such VM in the
   * configuration, a name without "_", or no such service on that VM.
   */
  function TargetOf(team: ScoringTeam, s: ScoringService, vms: map<string, VirtualMachine>): (r: Option<Target>)
    ensures r.Some? <==> !s.disabled && s.vmName in vms && ServiceNameOf(s.name).Some?
                         && ServiceNameOf(s.name).value in vms[s.vmName].services
    ensures r.Some? ==> r.value.team == team && r.value.service == s && r.value.vm == vms[s.vmName]
                        && r.value.serviceName == ServiceNameOf(s.name).value
                        && r.value.config == vms[s.vmName].services[r.value.serviceName]
  {
    if s.disabled then None
    else if s.vmName !in vms then None
    else
      var name := ServiceNameOf(s.name);
      if name.None? then None
      else if name.value !in vms[s.vmName].services then None
      else Some(Target(team, s, name.value, vms[s.vmName].services[name.value], vms[s.vmName]))
  }

  /** The targets of one team, in the order of its services. */
  function TeamTargets(team: ScoringTeam, services: seq<ScoringService>, vms: map<string, VirtualMachine>): (r: seq<Target>)
    ensures |r| <= |services|
    ensures forall k :: 0 <= k < |r| ==> r[k].team == team && !r[k].service.disabled
  {
    if services == [] then []
    else
      var last := TargetOf(team, services[|services| - 1], vms);
      TeamTargets(team, services[..|services| - 1], vms) + (if last.Some? then [last.value] else [])
  }

  datatype RoundError = TeamsUnavailable | ServicesUnavailable(teamID: int)

  /** The outcome of a round: the targets handed to serviceSelector, and the error that ended it. */
  datatype Round = Round(targets: seq<Target>, error: Option<RoundError>)

  /**
   * A round over the teams in order; the first team whose services cannot be
   * read ends it with an error, after the earlier teams were scored.
   */
  function RoundOf(teams: seq<ScoringTeam>, teamServices: map<int, seq<ScoringService>>,
                   vms: map<string, VirtualMachine>): (r: Round)
    ensures r.error.None? ==> forall k :: 0 <= k < |teams| ==> teams[k].id in teamServices
    ensures r.error.Some? ==> exists k :: 0 <= k < |teams| && teams[k].id !in teamServices
                                        && r.error.value == ServicesUnavailable(teams[k].id)
  {
    if teams == [] then Round([], None)
    else
      var prev := RoundOf(teams[..|teams| - 1], teamServices, vms);
      var team := teams[|teams| - 1];
      assert forall k :: 0 <= k < |teams| - 1 ==> teams[..|teams| - 1][k] == teams[k];
      if prev.error.Some? then prev
      else if team.id !in teamServices then Round(prev.targets, Some(ServicesUnavailable(team.id)))
      else Round(prev.targets + TeamTargets(team, teamServices[team.id], vms), None)
  }

  /** Once a team's services cannot be read, the later teams change nothing. */
  lemma {:induction false} RoundErrorSticks(teams: seq<ScoringTeam>, i: nat,
                                            teamServices: map<int, seq<ScoringService>>,
                                            vms: map<string, VirtualMachine>)
    requires i <= |teams| && RoundOf(teams[..i], teamServices, vms).error.Some?
    ensures RoundOf(teams, teamServices, vms) == RoundOf(teams[..i], teamServices, vms)
  {
    if i < |teams| {
      assert teams[..|teams| - 1][..i] == teams[..i];
      RoundErrorSticks(teams[..|teams| - 1], i, teamServices, vms);
    } else {
      assert teams[..i] == teams;
    }
  }

  /**
   * score: for each team, for each of its services, skip what cannot be
   * scored and hand the rest to serviceSelector. The teams query and each
   * team's services query are inputs; None / a missing key is a failed query.
   */
  method Score(teams: Option<seq<ScoringTeam>>, teamServices: map<int, seq<ScoringService>>,
               vms: map<string, VirtualMachine>) returns (round: Round)
    ensures teams.None? ==> round == Round([], Some(TeamsUnavailable))
    ensures teams.Some? ==> round == RoundOf(teams.value, teamServices, vms)
  {
    if teams.None? {
      return Round([], Some(TeamsUnavailable));
    }
    var all := teams.value;
    var targets := [];
    for i := 0 to |all|
      invariant RoundOf(all[..i], teamServices, vms) == Round(targets, None)
    {
      var team := all[i];
      assert all[..i + 1][..i] == all[..i];
      if team.id !in teamServices {
        RoundErrorSticks(all, i + 1, teamServices, vms);
        return Round(targets, Some(ServicesUnavailable(team.id)));
      }
      var teamTargets := ScoreTeam(team, teamServices[team.id], vms);
      targets := targets + teamTargets;
    }
    assert all[..|all|] == all;
    return Round(targets, None);
  }

  /** The inner loop of score: one team's services, skipping what cannot be scored. */
  method ScoreTeam(team: ScoringTeam, services: seq<ScoringService>, vms: map<string, VirtualMachine>)
    returns (targets: seq<Target>)
    ensures targets == TeamTargets(team, services, vms)
  {
    targets := [];
    for j := 0 to |services|
      invariant targets == TeamTargets(team, services[..j], vms)
    {
      assert services[..j + 1][..j] == services[..j];
      var service := services[j];
      if service.disabled {
        continue;
      }
      if service.vmName !in vms {
        continue;
      }
      var vmConfig := vms[service.vmName];
      var parts := SplitN2(service.name, '_');
      if |parts| != 2 {
        continue;
      }
      var serviceName := parts[1];
      if serviceName !in vmConfig.services {
        continue;
      }
      targets := targets + [Target(team, service, serviceName, vmConfig.services[serviceName], vmConfig)];
    }
    assert services[..|services|] == services;
  }

  /** Every target of a team is an enabled service of it whose name and configuration resolve. */
  lemma {:induction false} TeamTargetsSound(team: ScoringTeam, services: seq<ScoringService>,
                                            vms: map<string, VirtualMachine>, t: Target)
    requires t in TeamTargets(team, services, vms)
    ensures t.team == team && t.service in services && !t.service.disabled
    ensures t.service.vmName in vms && t.vm == vms[t.service.vmName]
    ensures ServiceNameOf(t.service.name) == Some(t.serviceName)
    ensures t.serviceName in t.vm.services && t.config == t.vm.services[t.serviceName]
  {
    var init := services[..|services| - 1];
    if t !in TeamTargets(team, init, vms) {
      assert TargetOf(team, services[|services| - 1], vms) == Some(t);
    } else {
      TeamTargetsSound(team, init, vms, t);
    }
  }

  /** Every enabled, resolvable service of a team is a target. */
  lemma {:induction false} TeamTargetsComplete(team: ScoringTeam, services: seq<ScoringService>,
                                               vms: map<string, VirtualMachine>, k: nat)
    requires k < |services| && TargetOf(team, services[k], vms).Some?
    ensures TargetOf(team, services[k], vms).value in TeamTargets(team, services, vms)
  {
    if k < |services| - 1 {
      TeamTargetsComplete(team, services[..|services| - 1], vms, k);
    }
  }

  /**
   * serviceSelector up to the call of the scoring function: the team's
   * address, then the dispatch lookup; the probe itself is not modelled.
   */
  function SelectService(team: ScoringTeam, serviceName: string, vm: VirtualMachine): (r: Result<string, string>)
    ensures r.Ok? <==> |Split(vm.ipSchema, '.')| == 4 && serviceName in ScoringDispatch
    ensures r.Ok? ==> r.value == ConstructIPAddress(vm.ipSchema, team.id).value
  {
    var address := ConstructIPAddress(vm.ipSchema, team.id);
    if address.Err? then Err("failed to construct IP address: " + address.error)
    else if serviceName !in ScoringDispatch then Err("unknown service " + serviceName)
    else Ok(address.value)
  }
}
