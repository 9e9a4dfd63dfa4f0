/**
 * Record shapes of the scoring engine's configuration (enum/enum.go) and
 * the key set of the service dispatch table (services/services.go).
 * A Go map that may be nil is an Option of a map: None is nil.
 */
module Enum {
  import opened Wrappers

  datatype Service = Service(
    port: int,
    user: string,
    password: string,
    queryFile: string,
    queryDir: string,
    award: int,
    partial: bool)

  datatype VirtualMachine = VirtualMachine(ipSchema: string, services: map<string, Service>, config: string)

  datatype OfficialVirtualMachine = OfficialVirtualMachine(ip: string)

  datatype TeamConfig = TeamConfig(id: int, name: string, password: string, color: string)

  datatype YamlConfig = YamlConfig(
    virtualMachines: Option<map<string, VirtualMachine>>,
    officialVirtualMachines: Option<map<string, OfficialVirtualMachine>>,
    teams: Option<map<string, TeamConfig>>)

  /** A services row as the scorer reads it. */
  datatype ScoringService = ScoringService(id: int, name: string, vmName: string, disabled: bool)

  /** A teams row as the scorer reads it. */
  datatype ScoringTeam = ScoringTeam(id: int, name: string, color: string)

  /** The service names services.ScoringDispatch has a scoring function for. */
  const ScoringDispatch: set<string> := {"ftp"}
}
