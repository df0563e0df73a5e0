/** The rows of the gateway's PostgreSQL schema and the JSON snapshot stored in
    a configuration version. Times are microseconds on one clock. */
module Tables {
  import opened Prelude

  type Id = string

  datatype Policy = Policy(rate: int, burst: int, quota: int, threshold: int, openMs: int)

  // ------------------------------------------------- the JSON of a snapshot

  datatype RawService = RawService(id: Id, enabled: bool)
  datatype RawVersion = RawVersion(id: Id, serviceId: Id, healthPath: string, timeoutMs: int, maxBytes: int, enabled: bool)
  datatype RawUpstream = RawUpstream(
    id: Id, versionId: Id, scheme: string, address: string, port: int, weight: int, healthPath: string, enabled: bool)
  datatype RawListener = RawListener(
    id: Id, port: int, versionId: Id, permission: string, methods: seq<string>, contentTypes: seq<string>,
    regex: string, status: ListenerStatus, policy: Policy)
  datatype RawSnapshot = RawSnapshot(
    environment: string, services: seq<RawService>, versions: seq<RawVersion>,
    upstreams: seq<RawUpstream>, listeners: seq<RawListener>)

  function EmptySnapshot(environment: string): RawSnapshot {
    RawSnapshot(environment, [], [], [], [])
  }

  // ------------------------------------------------------------- the tables

  datatype ServiceRow = ServiceRow(environment: string, name: string, enabled: bool, rowVersion: nat)
  datatype VersionRow = VersionRow(
    serviceId: Id, version: string, healthPath: string, timeoutMs: int, maxBytes: int, enabled: bool, rowVersion: nat)
  datatype UpstreamRow = UpstreamRow(
    versionId: Id, scheme: string, address: string, port: int, weight: int, healthPath: string, enabled: bool, rowVersion: nat)

  datatype PortStatus = Available | Reserved | Active | Draining | Cooldown | Blocked
  datatype PortRow = PortRow(status: PortStatus, listener: Option<Id>)

  datatype ListenerStatus = Reserved | Active | Draining | Disabled
  datatype ListenerRow = ListenerRow(
    environment: string, versionId: Id, port: int, permission: string, methods: seq<string>, contentTypes: seq<string>,
    regex: string, status: ListenerStatus, configuration: Option<nat>, rowVersion: nat, policy: Policy)

  datatype ConfigurationStatus = Draft | Validated | Current | Superseded
  datatype ConfigurationRow = ConfigurationRow(
    environment: string, status: ConfigurationStatus, snapshot: RawSnapshot, source: Option<nat>, createdBy: string)

  datatype ConsumerRow = ConsumerRow(environment: string, name: string, enabled: bool, rowVersion: nat, updatedAt: nat)
  datatype KeyRow = KeyRow(
    consumer: Id, name: string, prefix: string, verifier: seq<bv8>, expiresAt: Option<nat>, revokedAt: Option<nat>,
    rotatedFrom: Option<Id>, createdAt: nat)

  type Slot = (string, int)

  /** services, service_versions and upstreams. */
  datatype Catalog = Catalog(services: map<Id, ServiceRow>, versions: map<Id, VersionRow>, upstreams: map<Id, UpstreamRow>)
  /** port_inventory and listeners. */
  datatype Assignments = Assignments(ports: map<Slot, PortRow>, listeners: map<Id, ListenerRow>)
  /** configuration_versions with its BIGSERIAL sequence, and configuration_approvals. */
  datatype Configurations = Configurations(rows: map<nat, ConfigurationRow>, nextId: nat, approvals: set<(nat, string)>)
  /** permissions, consumers, consumer_permissions and api_keys. */
  datatype Access = Access(
    permissions: map<Id, string>, consumers: map<Id, ConsumerRow>, grants: set<(Id, Id)>, keys: map<Id, KeyRow>)

  datatype Database = Database(
    environments: set<string>, catalog: Catalog, assignments: Assignments, configurations: Configurations, access: Access)
}
