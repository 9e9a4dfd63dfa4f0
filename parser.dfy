/**
 * The checks ParseYAML (parser/yamlParsing.go) applies to an already
 * decoded configuration: the required sections, team ids, the official
 * VMs, and per VM its ip-schema and services, inline or from the VM's
 * own services file.
 */
module Parser {
  import opened Wrappers
  import opened Text
  import opened Enum
  import IpSchema

  datatype ParseError =
    | MissingVirtualMachines
    | MissingOfficialVirtualMachines
    | MissingTeams
    | BadTeamId
    | NoVirtualMachines
    | TooFewOfficialVirtualMachines
    | MissingOfficial(message: string)
    | BadIPSchema(vm: string, schemaError: IpSchema.SchemaError)
    | NoServiceSource(vm: string)
    | ConfigUnreadable(path: string, vm: string)
    | NoServices(vm: string)
    | UnknownService(service: string, vm: string)
    | NoPort(service: string, vm: string)

  /** The official VMs every configuration names, in the order they are reported. */
  const RequiredOfficial: seq<string> := ["router", "scorer", "dns"]

  /** The names the official section lacks, in the order given. */
  function Absent(names: seq<string>, official: map<string, OfficialVirtualMachine>): (m: seq<string>)
    ensures forall n :: n in m <==> n in names && n !in official
    ensures |m| <= |names|
  {
    if names == [] then []
    else
      var last := names[|names| - 1];
      Absent(names[..|names| - 1], official) + (if last !in official then [last] else [])
  }

  /** The required official VMs the configuration lacks, in the required order. */
  function Missing(official: map<string, OfficialVirtualMachine>): seq<string>
  {
    Absent(RequiredOfficial, official)
  }

  /** Absent distributes over concatenation, so it keeps the order of the names. */
  lemma {:induction false} AbsentAppend(a: seq<string>, b: seq<string>, official: map<string, OfficialVirtualMachine>)
    ensures Absent(a + b, official) == Absent(a, official) + Absent(b, official)
    decreases |b|
  {
    if b == [] {
      assert a + b == a;
    } else {
      var ab := a + b;
      var init := b[..|b| - 1];
      var tail := if b[|b| - 1] !in official then [b[|b| - 1]] else [];
      assert ab[|ab| - 1] == b[|b| - 1];
      assert ab[..|ab| - 1] == a + init;
      calc {
        Absent(ab, official);
        { AbsentLast(ab, official); }
        Absent(a + init, official) + tail;
        { AbsentAppend(a, init, official); }
        Absent(a, official) + Absent(init, official) + tail;
        { AbsentLast(b, official); }
        Absent(a, official) + Absent(b, official);
      }
    }
  }

  /** One unfolding of Absent: the last name is checked after the others. */
  lemma AbsentLast(names: seq<string>, official: map<string, OfficialVirtualMachine>)
    requires names != []
    ensures Absent(names, official) ==
              Absent(names[..|names| - 1], official)
              + (if names[|names| - 1] !in official then [names[|names| - 1]] else [])
  {
  }

  /** Absent of one name: that name if the official section lacks it. */
  lemma AbsentOne(n: string, official: map<string, OfficialVirtualMachine>)
    ensures Absent([n], official) == if n !in official then [n] else []
  {
    assert [n][..0] == [];
  }

  /** The missing names are reported router first, then scorer, then dns. */
  lemma MissingInOrder(official: map<string, OfficialVirtualMachine>)
    ensures Missing(official) ==
              (if "router" !in official then ["router"] else [])
              + (if "scorer" !in official then ["scorer"] else [])
              + (if "dns" !in official then ["dns"] else [])
  {
    assert RequiredOfficial == ["router"] + ["scorer"] + ["dns"];
    AbsentAppend(["router"] + ["scorer"], ["dns"], official);
    AbsentAppend(["router"], ["scorer"], official);
    AbsentOne("router", official);
    AbsentOne("scorer", official);
    AbsentOne("dns", official);
  }

  /** Each name in single quotes. */
  function Quoted(names: seq<string>): (q: seq<string>)
    ensures |q| == |names|
    ensures forall i :: 0 <= i < |names| ==> q[i] == "'" + names[i] + "'"
  {
    if names == [] then [] else Quoted(names[..|names| - 1]) + ["'" + names[|names| - 1] + "'"]
  }

  /** The message listing the missing official VMs. */
  function MissingMessage(missing: seq<string>): string
  {
    "missing official VMs " + Join(Quoted(missing), ", ") + " in config"
  }

  /** The three top-level sections are all present. */
  predicate SectionsPresent(cfg: YamlConfig)
  {
    cfg.virtualMachines.Some? && cfg.officialVirtualMachines.Some? && cfg.teams.Some?
  }

  /** Every team id is positive. */
  predicate TeamIdsOk(teams: map<string, TeamConfig>)
  {
    forall k :: k in teams ==> teams[k].id > 0
  }

  /** A configuration that passes every top-level check. */
  predicate SectionsOk(cfg: YamlConfig)
  {
    SectionsPresent(cfg) && TeamIdsOk(cfg.teams.value) && |cfg.virtualMachines.value| > 0
    && forall n :: n in RequiredOfficial ==> n in cfg.officialVirtualMachines.value
  }

  /** An official section with fewer than three VMs lacks one of the three required names. */
  lemma FewLacksRequired(official: map<string, OfficialVirtualMachine>)
    requires |official| < 3
    ensures exists n :: n in RequiredOfficial && n !in official
  {
    var required := {"router", "scorer", "dns"};
    assert |required| == 3;
    if required <= official.Keys {
      SubsetCard(required, official.Keys);
    }
    var n :| n in required && n !in official.Keys;
    assert n in RequiredOfficial;
  }

  lemma SubsetCard(a: set<string>, b: set<string>)
    requires a <= b
    ensures |a| <= |b|
  {
    assert b == a + (b - a);
  }

  /**
   * The top-level checks, in the order the source makes them: a
   * configuration passes exactly when SectionsOk holds, and a failing one
   * reports the first check it fails.
   */
  function SectionError(cfg: YamlConfig): (e: Option<ParseError>)
    ensures e.None? <==> SectionsOk(cfg)
    ensures cfg.virtualMachines.None? ==> e == Some(MissingVirtualMachines)
    ensures cfg.virtualMachines.Some? && cfg.officialVirtualMachines.None? ==> e == Some(MissingOfficialVirtualMachines)
    ensures cfg.virtualMachines.Some? && cfg.officialVirtualMachines.Some? && cfg.teams.None? ==> e == Some(MissingTeams)
    ensures SectionsPresent(cfg) && !TeamIdsOk(cfg.teams.value) ==> e == Some(BadTeamId)
    ensures SectionsPresent(cfg) && TeamIdsOk(cfg.teams.value) && |cfg.virtualMachines.value| == 0 ==>
              e == Some(NoVirtualMachines)
    ensures (SectionsPresent(cfg) && TeamIdsOk(cfg.teams.value) && |cfg.virtualMachines.value| > 0
             && |cfg.officialVirtualMachines.value| < 3) ==> e == Some(TooFewOfficialVirtualMachines)
    ensures (SectionsPresent(cfg) && TeamIdsOk(cfg.teams.value) && |cfg.virtualMachines.value| > 0
             && |cfg.officialVirtualMachines.value| >= 3 && Missing(cfg.officialVirtualMachines.value) != []) ==>
              e == Some(MissingOfficial(MissingMessage(Missing(cfg.officialVirtualMachines.value))))
  {
    if cfg.virtualMachines.None? then Some(MissingVirtualMachines)
    else if cfg.officialVirtualMachines.None? then Some(MissingOfficialVirtualMachines)
    else if cfg.teams.None? then Some(MissingTeams)
    else if exists k :: k in cfg.teams.value && cfg.teams.value[k].id <= 0 then Some(BadTeamId)
    else if |cfg.virtualMachines.value| == 0 then Some(NoVirtualMachines)
    else if |cfg.officialVirtualMachines.value| < 3 then
      FewLacksRequired(cfg.officialVirtualMachines.value);
      Some(TooFewOfficialVirtualMachines)
    else
      var missing := Missing(cfg.officialVirtualMachines.value);
      if missing != [] then
        assert missing[0] in missing;
        Some(MissingOfficial(MissingMessage(missing)))
      else None
  }

  /** A service validateServices accepts: one the dispatch table knows, with a port. */
  predicate ServiceOk(name: string, service: Service)
  {
    name in ScoringDispatch && service.port != 0
  }

  /** A services map validateServices accepts. */
  predicate ServicesOk(services: map<string, Service>)
  {
    |services| > 0 && forall n :: n in services ==> ServiceOk(n, services[n])
  }

  /** The error for a service validateServices refuses. */
  function ServiceError(name: string, vmName: string): ParseError
  {
    if name !in ScoringDispatch then UnknownService(name, vmName) else NoPort(name, vmName)
  }

  /** The errors validateServices may report, whichever bad service the map order reaches first. */
  predicate IsServicesError(services: map<string, Service>, vmName: string, e: ParseError)
  {
    (|services| == 0 && e == NoServices(vmName))
    || exists n :: n in services && !ServiceOk(n, services[n]) && e == ServiceError(n, vmName)
  }

  /** validateServices refuses a map exactly when it has an error to report. */
  lemma ServicesRejectedIff(services: map<string, Service>, vmName: string)
    ensures !ServicesOk(services) <==> exists e :: IsServicesError(services, vmName, e)
  {
    if !ServicesOk(services) {
      if |services| == 0 {
        assert IsServicesError(services, vmName, NoServices(vmName));
      } else {
        var n :| n in services && !ServiceOk(n, services[n]);
        assert IsServicesError(services, vmName, ServiceError(n, vmName));
      }
    }
  }

  /**
   * validateServices: empty maps, unknown services and services without a
   * port are refused; map order decides which bad service is reported.
   */
  method ValidateServices(services: map<string, Service>, vmName: string) returns (err: Option<ParseError>)
    ensures err.None? <==> ServicesOk(services)
    ensures err.Some? ==> IsServicesError(services, vmName, err.value)
  {
    if |services| == 0 {
      return Some(NoServices(vmName));
    }
    var valid := false;
    var remaining := services.Keys;
    while remaining != {}
      invariant remaining <= services.Keys
      invariant forall n :: n in services && n !in remaining ==> ServiceOk(n, services[n])
      invariant valid <==> remaining != services.Keys
      decreases |remaining|
    {
      var name :| name in remaining;
      var service := services[name];
      if name !in ScoringDispatch {
        return Some(UnknownService(name, vmName));
      }
      if service.port == 0 {
        return Some(NoPort(name, vmName));
      }
      // The default award goes to this copy only; the map keeps award 0.
      if service.award == 0 {
        service := service.(award := 1);
      }
      valid := true;
      remaining := remaining - {name};
    }
    // The source's trailing "no service with a port" error cannot be reached.
    assert valid;
    return None;
  }

  /**
   * loadServicesFromConfig: the decoded services file of a VM, keyed by its
   * config path; a path missing from files is a file that could not be
   * read or decoded.
   */
  method LoadServicesFromConfig(path: string, vmName: string, files: map<string, map<string, Service>>)
    returns (r: Result<map<string, Service>, ParseError>)
    ensures path !in files ==> r == Err(ConfigUnreadable(path, vmName))
    ensures path in files ==> (r.Ok? <==> ServicesOk(files[path]))
    ensures r.Ok? ==> path in files && r.value == files[path]
    ensures r.Err? && path in files ==> IsServicesError(files[path], vmName, r.error)
  {
    if path !in files {
      return Err(ConfigUnreadable(path, vmName));
    }
    var services := files[path];
    var err := ValidateServices(services, vmName);
    if err.Some? {
      return Err(err.value);
    }
    return Ok(services);
  }

  /** A VM the loop accepts: a valid ip-schema and acceptable services, inline or from its file. */
  predicate VmOk(name: string, vm: VirtualMachine, files: map<string, map<string, Service>>)
  {
    IpSchema.ValidSchema(vm.ipSchema)
    && if |vm.services| == 0 then vm.config != "" && vm.config in files && ServicesOk(files[vm.config])
       else ServicesOk(vm.services)
  }

  /** The errors the loop may report for a VM. */
  predicate IsVmError(name: string, vm: VirtualMachine, files: map<string, map<string, Service>>, e: ParseError)
  {
    if !IpSchema.ValidSchema(vm.ipSchema) then e == BadIPSchema(name, IpSchema.SchemaCheck(vm.ipSchema).value)
    else if |vm.services| == 0 then
      if vm.config == "" then e == NoServiceSource(name)
      else if vm.config !in files then e == ConfigUnreadable(vm.config, name)
      else IsServicesError(files[vm.config], name, e)
    else IsServicesError(vm.services, name, e)
  }

  /** A VM is refused exactly when it has an error to report. */
  lemma VmRejectedIff(name: string, vm: VirtualMachine, files: map<string, map<string, Service>>)
    ensures !VmOk(name, vm, files) <==> exists e :: IsVmError(name, vm, files, e)
  {
    if IpSchema.ValidSchema(vm.ipSchema) {
      if |vm.services| == 0 && vm.config != "" && vm.config in files {
        ServicesRejectedIff(files[vm.config], name);
        if !VmOk(name, vm, files) {
          var e :| IsServicesError(files[vm.config], name, e);
          assert IsVmError(name, vm, files, e);
        }
      } else if |vm.services| > 0 {
        ServicesRejectedIff(vm.services, name);
        if !VmOk(name, vm, files) {
          var e :| IsServicesError(vm.services, name, e);
          assert IsVmError(name, vm, files, e);
        }
      } else if vm.config == "" {
        assert IsVmError(name, vm, files, NoServiceSource(name));
      } else {
        assert IsVmError(name, vm, files, ConfigUnreadable(vm.config, name));
      }
    } else {
      assert IsVmError(name, vm, files, BadIPSchema(name, IpSchema.SchemaCheck(vm.ipSchema).value));
    }
  }

  /** A VM after the loop: with no inline services, the ones loaded from its file. */
  function LoadedVm(vm: VirtualMachine, files: map<string, map<string, Service>>): VirtualMachine
  {
    if |vm.services| == 0 && vm.config in files then vm.(services := files[vm.config]) else vm
  }

  /** The VM section after the loop. */
  function Loaded(vms: map<string, VirtualMachine>, files: map<string, map<string, Service>>): map<string, VirtualMachine>
  {
    map n | n in vms :: LoadedVm(vms[n], files)
  }

  /** The team-id loop: every team id must be positive. */
  method CheckTeamIds(teams: map<string, TeamConfig>) returns (ok: bool)
    ensures ok <==> forall k :: k in teams ==> teams[k].id > 0
  {
    var teamKeys := teams.Keys;
    while teamKeys != {}
      invariant teamKeys <= teams.Keys
      invariant forall k :: k in teams && k !in teamKeys ==> teams[k].id > 0
      decreases |teamKeys|
    {
      var k :| k in teamKeys;
      if teams[k].id <= 0 {
        return false;
      }
      teamKeys := teamKeys - {k};
    }
    return true;
  }

  /** The missing-name loop, then the quoting: the message, if any official VM is missing. */
  method MissingOfficialMessage(official: map<string, OfficialVirtualMachine>) returns (msg: Option<string>)
    ensures Missing(official) == [] ==> msg.None?
    ensures Missing(official) != [] ==> msg == Some(MissingMessage(Missing(official)))
  {
    var missing := [];
    for i := 0 to |RequiredOfficial|
      invariant missing == Absent(RequiredOfficial[..i], official)
    {
      assert RequiredOfficial[..i + 1][..i] == RequiredOfficial[..i];
      if RequiredOfficial[i] !in official {
        missing := missing + [RequiredOfficial[i]];
      }
    }
    assert RequiredOfficial[..|RequiredOfficial|] == RequiredOfficial;
    if |missing| == 0 {
      return None;
    }
    var quoted := QuoteAll(missing);
    return Some("missing official VMs " + Join(quoted, ", ") + " in config");
  }

  /** The quoting loop. */
  method QuoteAll(missing: seq<string>) returns (quoted: seq<string>)
    ensures quoted == Quoted(missing)
  {
    quoted := [];
    for i := 0 to |missing|
      invariant quoted == Quoted(missing[..i])
    {
      assert missing[..i + 1][..i] == missing[..i];
      quoted := quoted + ["'" + missing[i] + "'"];
    }
    assert missing[..|missing|] == missing;
  }

  /** The section checks of ParseYAML, up to the VM loop. */
  method CheckSections(cfg: YamlConfig) returns (err: Option<ParseError>)
    ensures err == SectionError(cfg)
  {
    if cfg.virtualMachines.None? {
      return Some(MissingVirtualMachines);
    }
    if cfg.officialVirtualMachines.None? {
      return Some(MissingOfficialVirtualMachines);
    }
    if cfg.teams.None? {
      return Some(MissingTeams);
    }
    var idsOk := CheckTeamIds(cfg.teams.value);
    if !idsOk {
      return Some(BadTeamId);
    }
    if |cfg.virtualMachines.value| == 0 {
      return Some(NoVirtualMachines);
    }
    if |cfg.officialVirtualMachines.value| < 3 {
      return Some(TooFewOfficialVirtualMachines);
    }
    var msg := MissingOfficialMessage(cfg.officialVirtualMachines.value);
    if msg.Some? {
      return Some(MissingOfficial(msg.value));
    }
    return None;
  }

  /** One VM of the loop: the error to report, or the VM as the loop leaves it. */
  method CheckVm(name: string, vm: VirtualMachine, files: map<string, map<string, Service>>)
    returns (r: Result<VirtualMachine, ParseError>)
    ensures r.Ok? <==> VmOk(name, vm, files)
    ensures r.Ok? ==> r.value == LoadedVm(vm, files)
    ensures r.Err? ==> IsVmError(name, vm, files, r.error)
  {
    var schemaErr := IpSchema.ValidateIPSchema(vm.ipSchema);
    if schemaErr.Some? {
      return Err(BadIPSchema(name, schemaErr.value));
    }
    if |vm.services| == 0 {
      if vm.config == "" {
        return Err(NoServiceSource(name));
      }
      var loaded := LoadServicesFromConfig(vm.config, name, files);
      if loaded.Err? {
        return Err(loaded.error);
      }
      return Ok(vm.(services := loaded.value));
    } else {
      var err := ValidateServices(vm.services, name);
      if err.Some? {
        return Err(err.value);
      }
      return Ok(vm);
    }
  }

  /** The VM section part-way through the loop: the VMs not yet reached are as decoded. */
  function Overlay(vms: map<string, VirtualMachine>, remaining: set<string>, files: map<string, map<string, Service>>)
    : map<string, VirtualMachine>
  {
    map n | n in vms :: if n in remaining then vms[n] else LoadedVm(vms[n], files)
  }

  lemma OverlayStep(vms: map<string, VirtualMachine>, remaining: set<string>, files: map<string, map<string, Service>>,
                    name: string)
    requires name in remaining && name in vms
    ensures Overlay(vms, remaining, files)[name := LoadedVm(vms[name], files)] == Overlay(vms, remaining - {name}, files)
  {
  }

  lemma OverlayDone(vms: map<string, VirtualMachine>, files: map<string, map<string, Service>>)
    ensures Overlay(vms, {}, files) == Loaded(vms, files)
  {
  }

  /** The VM loop: each VM in map order, loaded services written back in place. */
  method CheckVms(vms: map<string, VirtualMachine>, files: map<string, map<string, Service>>)
    returns (r: Result<map<string, VirtualMachine>, ParseError>)
    ensures r.Ok? <==> forall n :: n in vms ==> VmOk(n, vms[n], files)
    ensures r.Ok? ==> r.value == Loaded(vms, files)
    ensures r.Err? ==> exists n :: n in vms && IsVmError(n, vms[n], files, r.error)
  {
    var out := vms;
    var remaining := vms.Keys;
    assert out == Overlay(vms, remaining, files);
    while remaining != {}
      invariant remaining <= vms.Keys
      invariant forall n :: n in vms && n !in remaining ==> VmOk(n, vms[n], files)
      invariant out == Overlay(vms, remaining, files)
      decreases |remaining|
    {
      var name :| name in remaining;
      var checked := CheckVm(name, vms[name], files);
      if checked.Err? {
        return Err(checked.error);
      }
      OverlayStep(vms, remaining, files, name);
      out := out[name := checked.value];
      remaining := remaining - {name};
    }
    OverlayDone(vms, files);
    return Ok(out);
  }

  /**
   * ParseYAML after decoding: the section checks in order, then each VM in
   * map order, the first failure ending the parse. files holds the decoded
   * services files by config path.
   */
  method ParseYAML(cfg: YamlConfig, files: map<string, map<string, Service>>) returns (r: Result<YamlConfig, ParseError>)
    ensures SectionError(cfg).Some? ==> r == Err(SectionError(cfg).value)
    ensures SectionError(cfg).None? ==>
              (r.Ok? <==> forall n :: n in cfg.virtualMachines.value ==> VmOk(n, cfg.virtualMachines.value[n], files))
    ensures r.Ok? ==> r.value == cfg.(virtualMachines := Some(Loaded(cfg.virtualMachines.value, files)))
    ensures r.Err? && SectionError(cfg).None? ==>
              exists n :: n in cfg.virtualMachines.value && IsVmError(n, cfg.virtualMachines.value[n], files, r.error)
  {
    var err := CheckSections(cfg);
    if err.Some? {
      return Err(err.value);
    }
    var vms := CheckVms(cfg.virtualMachines.value, files);
    if vms.Err? {
      return Err(vms.error);
    }
    return Ok(cfg.(virtualMachines := Some(vms.value)));
  }

  /**
   * Every VM of an accepted configuration has a valid ip-schema and at
   * least one service, each known to the dispatch table and with a port.
   */
  lemma AcceptedVmsAreScorable(vms: map<string, VirtualMachine>, files: map<string, map<string, Service>>)
    requires forall n :: n in vms ==> VmOk(n, vms[n], files)
    ensures forall n :: n in Loaded(vms, files) ==>
              IpSchema.ValidSchema(Loaded(vms, files)[n].ipSchema) && ServicesOk(Loaded(vms, files)[n].services)
  {
  }

  /** The award default as written: an accepted VM keeps a zero award through the parse. */
  lemma ZeroAwardSurvives(vms: map<string, VirtualMachine>, files: map<string, map<string, Service>>,
                          n: string, s: string)
    requires n in vms && s in vms[n].services && vms[n].services[s].award == 0
    ensures s in Loaded(vms, files)[n].services && Loaded(vms, files)[n].services[s].award == 0
  {
  }

  /** Four dot-free parts joined by dots split back into them. */
  lemma DottedSplitsText(a: string, b: string, c: string, d: string)
    requires '.' !in a && '.' !in b && '.' !in c && '.' !in d
    ensures Split(a + "." + b + "." + c + "." + d, '.') == [a, b, c, d]
  {
    JoinFour(a, b, c, d, ".");
    JoinSplit([a, b, c, d], '.');
  }

  /** The award default as evidently intended: a zero award becomes 1. */
  function DefaultAwards(services: map<string, Service>): (r: map<string, Service>)
    ensures r.Keys == services.Keys
    ensures forall n :: n in r ==> r[n].award != 0
    ensures forall n :: n in r && services[n].award != 0 ==> r[n] == services[n]
    ensures forall n :: n in r && services[n].award == 0 ==> r[n] == services[n].(award := 1)
  {
    map n | n in services :: if services[n].award == 0 then services[n].(award := 1) else services[n]
  }

  /** The corrected parse result: the loaded VM section with every award defaulted. */
  function LoadedWithDefaults(vms: map<string, VirtualMachine>, files: map<string, map<string, Service>>)
    : (r: map<string, VirtualMachine>)
    ensures r.Keys == vms.Keys
    ensures forall n, s :: n in r && s in r[n].services ==> r[n].services[s].award != 0
  {
    map n | n in vms :: var vm := LoadedVm(vms[n], files); vm.(services := DefaultAwards(vm.services))
  }

  /**
   * The corrected parse keeps what the one as written guarantees: every
   * accepted VM stays scorable, and only the zero awards change.
   */
  lemma DefaultsKeepAccepted(vms: map<string, VirtualMachine>, files: map<string, map<string, Service>>)
    requires forall n :: n in vms ==> VmOk(n, vms[n], files)
    ensures forall n :: n in LoadedWithDefaults(vms, files) ==>
              IpSchema.ValidSchema(LoadedWithDefaults(vms, files)[n].ipSchema)
              && ServicesOk(LoadedWithDefaults(vms, files)[n].services)
    ensures forall n, s :: n in vms && s in Loaded(vms, files)[n].services && Loaded(vms, files)[n].services[s].award != 0 ==>
              s in LoadedWithDefaults(vms, files)[n].services
              && LoadedWithDefaults(vms, files)[n].services[s] == Loaded(vms, files)[n].services[s]
  {
    var fixed := LoadedWithDefaults(vms, files);
    forall n | n in fixed
      ensures IpSchema.ValidSchema(fixed[n].ipSchema) && ServicesOk(fixed[n].services)
    {
      DefaultsKeepVm(n, vms[n], files);
    }
  }

  /** One VM of the corrected parse: its schema and services stay acceptable. */
  lemma DefaultsKeepVm(n: string, vm: VirtualMachine, files: map<string, map<string, Service>>)
    requires VmOk(n, vm, files)
    ensures var fixed := LoadedVm(vm, files).(services := DefaultAwards(LoadedVm(vm, files).services));
            IpSchema.ValidSchema(fixed.ipSchema) && ServicesOk(fixed.services)
  {
    var loaded := LoadedVm(vm, files).services;
    assert ServicesOk(loaded);
    assert DefaultAwards(loaded).Keys == loaded.Keys;
  }
}
