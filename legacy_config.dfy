/**
 * The older configuration checker, Parse in config/yamlParsing.go: its own
 * record types, only the virtual-machines and teams sections, and a
 * services check that asks for ports but not for known service names.
 */
module LegacyConfig {
  import opened Wrappers
  import IpSchema

  datatype Service = Service(port: int, dbName: string, dbPath: string, award: string)

  datatype VirtualMachine = VirtualMachine(ipSchema: string, services: map<string, Service>, config: string)

  datatype Team = Team(id: int, name: string, password: string, color: string)

  /** A nil section is None. */
  datatype Config = Config(virtualMachines: Option<map<string, VirtualMachine>>, teams: Option<map<string, Team>>)

  datatype ConfigError =
    | MissingVirtualMachines
    | MissingTeams
    | NoVirtualMachines
    | BadIPSchema(vm: string, schemaError: IpSchema.SchemaError)
    | NoServiceSource(vm: string)
    | ConfigUnreadable(path: string, vm: string)
    | NoServices(vm: string)
    | NoPort(service: string, vm: string)

  /** The section checks, in order. */
  function SectionError(cfg: Config): (e: Option<ConfigError>)
    ensures e.None? <==> cfg.virtualMachines.Some? && cfg.teams.Some? && |cfg.virtualMachines.value| > 0
    ensures cfg.virtualMachines.None? ==> e == Some(MissingVirtualMachines)
    ensures cfg.virtualMachines.Some? && cfg.teams.None? ==> e == Some(MissingTeams)
  {
    if cfg.virtualMachines.None? then Some(MissingVirtualMachines)
    else if cfg.teams.None? then Some(MissingTeams)
    else if |cfg.virtualMachines.value| == 0 then Some(NoVirtualMachines)
    else None
  }

  /** A services map this validateServices accepts: non-empty, every port set; names are not checked. */
  predicate ServicesOk(services: map<string, Service>)
  {
    |services| > 0 && forall n :: n in services ==> services[n].port != 0
  }

  /** The errors this validateServices may report, whichever portless service the map order reaches first. */
  predicate IsServicesError(services: map<string, Service>, vmName: string, e: ConfigError)
  {
    (|services| == 0 && e == NoServices(vmName))
    || exists n :: n in services && services[n].port == 0 && e == NoPort(n, vmName)
  }

  /** validateServices refuses a map exactly when it has an error to report. */
  lemma ServicesRejectedIff(services: map<string, Service>, vmName: string)
    ensures !ServicesOk(services) <==> exists e :: IsServicesError(services, vmName, e)
  {
    if !ServicesOk(services) {
      if |services| == 0 {
        assert IsServicesError(services, vmName, NoServices(vmName));
      } else {
        var n :| n in services && services[n].port == 0;
        assert IsServicesError(services, vmName, NoPort(n, vmName));
      }
    }
  }

  /** validateServices: the valid flag over the services in map order. */
  method ValidateServices(services: map<string, Service>, vmName: string) returns (err: Option<ConfigError>)
    ensures err.None? <==> ServicesOk(services)
    ensures err.Some? ==> IsServicesError(services, vmName, err.value)
  {
    if |services| == 0 {
      return Some(NoServices(vmName));
    }
    var valid := false;
    var remaining := services.Keys;
    while remaining != {}
      invariant remaining <= services.Keys
      invariant forall n :: n in services && n !in remaining ==> services[n].port != 0
      invariant valid <==> remaining != services.Keys
      decreases |remaining|
    {
      var name :| name in remaining;
      if services[name].port != 0 {
        valid := true;
      } else {
        return Some(NoPort(name, vmName));
      }
      remaining := remaining - {name};
    }
    // The source's trailing "no service with a port" error cannot be reached.
    assert valid;
    return None;
  }

  /** loadServicesFromConfig; a path missing from files could not be read or decoded. */
  method LoadServicesFromConfig(path: string, vmName: string, files: map<string, map<string, Service>>)
    returns (r: Result<map<string, Service>, ConfigError>)
    ensures path !in files ==> r == Err(ConfigUnreadable(path, vmName))
    ensures path in files ==> (r.Ok? <==> ServicesOk(files[path]))
    ensures r.Ok? ==> path in files && r.value == files[path]
    ensures r.Err? && path in files ==> IsServicesError(files[path], vmName, r.error)
  {
    if path !in files {
      return Err(ConfigUnreadable(path, vmName));
    }
    var err := ValidateServices(files[path], vmName);
    if err.Some? {
      return Err(err.value);
    }
    return Ok(files[path]);
  }

  /** A VM the loop accepts. */
  predicate VmOk(vm: VirtualMachine, files: map<string, map<string, Service>>)
  {
    IpSchema.ValidSchema(vm.ipSchema)
    && if |vm.services| == 0 then vm.config != "" && vm.config in files && ServicesOk(files[vm.config])
       else ServicesOk(vm.services)
  }

  /** The errors the loop may report for a VM. */
  predicate IsVmError(name: string, vm: VirtualMachine, files: map<string, map<string, Service>>, e: ConfigError)
  {
    if !IpSchema.ValidSchema(vm.ipSchema) then e == BadIPSchema(name, IpSchema.SchemaCheck(vm.ipSchema).value)
    else if |vm.services| == 0 then
      if vm.config == "" then e == NoServiceSource(name)
      else if vm.config !in files then e == ConfigUnreadable(vm.config, name)
      else IsServicesError(files[vm.config], name, e)
    else IsServicesError(vm.services, name, e)
  }

  /** A VM after the loop: with no inline services, the ones loaded from its file. */
  function LoadedVm(vm: VirtualMachine, files: map<string, map<string, Service>>): VirtualMachine
  {
    if |vm.services| == 0 && vm.config in files then vm.(services := files[vm.config]) else vm
  }

  /** The VM section part-way through the loop. */
  function Overlay(vms: map<string, VirtualMachine>, remaining: set<string>, files: map<string, map<string, Service>>)
    : map<string, VirtualMachine>
  {
    map n | n in vms :: if n in remaining then vms[n] else LoadedVm(vms[n], files)
  }

  lemma OverlayStep(vms: map<string, VirtualMachine>, remaining: set<string>, files: map<string, map<string, Service>>,
                    name: string)
    requires name in remaining && name in vms
    ensures Overlay(vms, remaining, files)[name := LoadedVm(vms[name], files)] == Overlay(vms, remaining - {name}, files)
  {
  }

  /** One VM of the loop. */
  method CheckVm(name: string, vm: VirtualMachine, files: map<string, map<string, Service>>)
    returns (r: Result<VirtualMachine, ConfigError>)
    ensures r.Ok? <==> VmOk(vm, files)
    ensures r.Ok? ==> r.value == LoadedVm(vm, files)
    ensures r.Err? ==> IsVmError(name, vm, files, r.error)
  {
    var schemaErr := IpSchema.ValidateIPSchema(vm.ipSchema);
    if schemaErr.Some? {
      return Err(BadIPSchema(name, schemaErr.value));
    }
    if |vm.services| == 0 {
      if vm.config == "" {
        return Err(NoServiceSource(name));
      }
      var loaded := LoadServicesFromConfig(vm.config, name, files);
      if loaded.Err? {
        return Err(loaded.error);
      }
      return Ok(vm.(services := loaded.value));
    } else {
      var err := ValidateServices(vm.services, name);
      if err.Some? {
        return Err(err.value);
      }
      return Ok(vm);
    }
  }

  /**
   * Parse after decoding: the section checks, then each VM in map order,
   * loaded services written back in place; the first failure ends the parse.
   */
  method Parse(cfg: Config, files: map<string, map<string, Service>>) returns (r: Result<Config, ConfigError>)
    ensures SectionError(cfg).Some? ==> r == Err(SectionError(cfg).value)
    ensures SectionError(cfg).None? ==>
              (r.Ok? <==> forall n :: n in cfg.virtualMachines.value ==> VmOk(cfg.virtualMachines.value[n], files))
    ensures r.Ok? ==> r.value == cfg.(virtualMachines := Some(Overlay(cfg.virtualMachines.value, {}, files)))
    ensures r.Err? && SectionError(cfg).None? ==>
              exists n :: n in cfg.virtualMachines.value && IsVmError(n, cfg.virtualMachines.value[n], files, r.error)
  {
    if cfg.virtualMachines.None? {
      return Err(MissingVirtualMachines);
    }
    if cfg.teams.None? {
      return Err(MissingTeams);
    }
    var vms := cfg.virtualMachines.value;
    if |vms| == 0 {
      return Err(NoVirtualMachines);
    }
    var out := vms;
    var remaining := vms.Keys;
    assert out == Overlay(vms, remaining, files);
    while remaining != {}
      invariant remaining <= vms.Keys
      invariant forall n :: n in vms && n !in remaining ==> VmOk(vms[n], files)
      invariant out == Overlay(vms, remaining, files)
      decreases |remaining|
    {
      var name :| name in remaining;
      var checked := CheckVm(name, vms[name], files);
      if checked.Err? {
        return Err(checked.error);
      }
      OverlayStep(vms, remaining, files, name);
      out := out[name := checked.value];
      remaining := remaining - {name};
    }
    return Ok(cfg.(virtualMachines := Some(out)));
  }
}
