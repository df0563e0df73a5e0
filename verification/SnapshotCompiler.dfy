/** internal/dataplane/snapshot.go: turning a stored configuration and the live
    credentials into the routing tables of one replica. */
module SnapshotCompiler {
  import opened Prelude
  import opened Tables

  /** What the compiler asks of libraries: address parsing, regular expressions and letter case. */
  datatype Platform = Platform(
    parseAddress: string -> Option<string>, regexCompiles: string -> bool, upper: string -> string, lower: string -> string)

  /** A CIDR prefix, as the set of addresses it contains. */
  type Prefix = string -> bool

  datatype Upstream = Upstream(id: Id, scheme: string, address: string, port: int, weight: int, healthPath: string)
  datatype Listener = Listener(
    id: Id, port: int, permission: string, methods: set<string>, contentTypes: set<string>, regex: Option<string>,
    timeoutMs: int, maxBytes: int, upstreams: seq<Upstream>, policy: Policy)
  datatype CredentialRecord = CredentialRecord(
    id: Id, consumer: Id, prefix: string, verifier: seq<bv8>, expiresAt: Option<nat>, permissions: seq<string>)
  datatype Credential = Credential(
    id: Id, consumer: Id, prefix: string, verifier: seq<bv8>, expiresAt: Option<nat>, permissions: set<string>)
  datatype Snapshot = Snapshot(
    version: nat, environment: string, listeners: map<int, Listener>, credentials: map<string, Credential>)

  datatype BuildError =
    | EnvironmentMismatch
    | InvalidHealthPath(id: Id)
    | InvalidScheme(id: Id)
    | OutsideAllowlist(id: Id)
    | UnavailableVersion(id: Id)
    | NoUpstreams(id: Id)
    | InvalidPort(id: Id)
    | DuplicatedPort(port: int)
    | NoMethods(id: Id)
    | InvalidRegex(id: Id)
    | InvalidPolicy(id: Id)
    | InvalidCredential(id: Id)

  // --------------------------------------------------- row by row decisions

  function WithDefaultPath(v: RawVersion): RawVersion {
    if v.healthPath == "" then v.(healthPath := "/health") else v
  }

  predicate VersionPathOk(v: RawVersion) { HasPrefix(WithDefaultPath(v).healthPath, "/") }

  predicate Usable(v: RawVersion, enabled: map<Id, bool>) {
    v.enabled && v.serviceId in enabled && enabled[v.serviceId] && v.timeoutMs > 0 && v.maxBytes > 0
  }

  predicate AddressAllowed(address: string, allowlist: seq<Prefix>) {
    exists i | 0 <= i < |allowlist| :: allowlist[i](address)
  }

  function SchemeOf(u: RawUpstream): string { if u.scheme == "" then "http" else u.scheme }

  predicate InRange(u: RawUpstream) { u.enabled && 1 <= u.port <= 65535 && u.weight >= 1 }

  function PathOf(u: RawUpstream, inherited: string): string { if u.healthPath == "" then inherited else u.healthPath }

  function CompileUpstream(u: RawUpstream, versions: map<Id, RawVersion>, platform: Platform, allowlist: seq<Prefix>)
    : Result<Option<Upstream>, BuildError>
  {
    if SchemeOf(u) != "http" && SchemeOf(u) != "https" then Err(InvalidScheme(u.id))
    else if !InRange(u) then Ok(None)
    else
      var parsed := platform.parseAddress(u.address);
      if parsed == None || !AddressAllowed(parsed.value, allowlist) then Err(OutsideAllowlist(u.id))
      else if u.versionId !in versions then Ok(None)
      else
        var path := PathOf(u, versions[u.versionId].healthPath);
        if !HasPrefix(path, "/") then Err(InvalidHealthPath(u.id))
        else Ok(Some(Upstream(u.id, SchemeOf(u), parsed.value, u.port, u.weight, path)))
  }

  predicate Live(l: RawListener) { l.status != Disabled && l.status != ListenerStatus.Draining }

  predicate RegexOk(regex: string, platform: Platform) {
    regex == "" || (|regex| <= 2048 && '\0' !in regex && '\r' !in regex && '\n' !in regex && platform.regexCompiles(regex))
  }

  predicate PolicyOk(p: Policy) { p.rate >= 0 && p.burst >= 0 && p.quota >= 0 && p.threshold >= 0 && p.openMs >= 0 }

  const DefaultContentTypes: seq<string> :=
    ["application/json", "application/xml", "text/xml", "application/x-www-form-urlencoded"]

  function CompileListener(
    l: RawListener, versions: map<Id, RawVersion>, pools: map<Id, seq<Upstream>>, taken: set<int>, platform: Platform)
    : Result<Listener, BuildError>
  {
    if l.versionId !in versions then Err(UnavailableVersion(l.id))
    else if l.versionId !in pools || pools[l.versionId] == [] then Err(NoUpstreams(l.id))
    else if l.port < 1 || l.port > 65535 then Err(InvalidPort(l.id))
    else if l.port in taken then Err(DuplicatedPort(l.port))
    else if l.methods == [] then Err(NoMethods(l.id))
    else if !RegexOk(l.regex, platform) then Err(InvalidRegex(l.id))
    else if !PolicyOk(l.policy) then Err(InvalidPolicy(l.id))
    else Ok(ListenerValue(l, versions[l.versionId], SortPool(pools[l.versionId]), platform))
  }

  function ListenerValue(l: RawListener, version: RawVersion, pool: seq<Upstream>, platform: Platform): Listener {
    var types := if l.contentTypes == [] then DefaultContentTypes else l.contentTypes;
    Listener(
      l.id, l.port, l.permission, (set m | m in l.methods :: platform.upper(m)), (set c | c in types :: platform.lower(c)),
      if l.regex == "" then None else Some(l.regex), version.timeoutMs, version.maxBytes, pool, l.policy)
  }

  predicate CredentialOk(r: CredentialRecord) { |r.verifier| == 32 && r.prefix != "" }

  function CredentialValue(r: CredentialRecord): Credential {
    Credential(r.id, r.consumer, r.prefix, r.verifier, r.expiresAt, set p | p in r.permissions)
  }

  // ------------------------------------------------ ordering a pool by id

  predicate PoolSorted(pool: seq<Upstream>) {
    forall i, j | 0 <= i < j < |pool| :: !TextBefore(pool[j].id, pool[i].id)
  }

  function Insert(u: Upstream, pool: seq<Upstream>): (r: seq<Upstream>)
    requires PoolSorted(pool)
    ensures PoolSorted(r) && multiset(r) == multiset([u]) + multiset(pool)
  {
    if pool == [] then [u]
    else if !TextBefore(pool[0].id, u.id) then
      InsertFront(u, pool);
      [u] + pool
    else
      var rest := Insert(u, pool[1..]);
      InsertLater(u, pool, rest);
      assert pool == [pool[0]] + pool[1..];
      [pool[0]] + rest
  }

  lemma InsertFront(u: Upstream, pool: seq<Upstream>)
    requires pool != [] && PoolSorted(pool) && !TextBefore(pool[0].id, u.id)
    ensures PoolSorted([u] + pool)
  {
    forall i | 0 <= i < |pool| ensures !TextBefore(pool[i].id, u.id) {
      if TextBefore(pool[i].id, u.id) {
        TextOrderIsTotal(pool[0].id, pool[i].id);
        TextOrderIsTotal(pool[0].id, u.id);
        if pool[0].id != pool[i].id { TextOrderIsTransitive(pool[0].id, pool[i].id, u.id); }
      }
    }
    var r := [u] + pool;
    forall i, j | 0 <= i < j < |r| ensures !TextBefore(r[j].id, r[i].id) {
      assert r[j] == pool[j - 1];
      if i > 0 { assert r[i] == pool[i - 1]; }
    }
  }

  lemma InsertLater(u: Upstream, pool: seq<Upstream>, rest: seq<Upstream>)
    requires pool != [] && PoolSorted(pool) && TextBefore(pool[0].id, u.id)
    requires PoolSorted(rest) && multiset(rest) == multiset([u]) + multiset(pool[1..])
    ensures PoolSorted([pool[0]] + rest)
  {
    TextOrderIsTotal(pool[0].id, u.id);
    forall x | x in rest ensures !TextBefore(x.id, pool[0].id) {
      assert x in multiset(rest);
      assert x == u || x in multiset(pool[1..]);
      if x != u {
        var k :| 0 <= k < |pool[1..]| && pool[1..][k] == x;
        assert pool[k + 1] == x;
      }
    }
  }

  /** sort.Slice by id. */
  function SortPool(pool: seq<Upstream>): (r: seq<Upstream>)
    ensures PoolSorted(r) && multiset(r) == multiset(pool)
  {
    if pool == [] then []
    else
      assert pool == [pool[0]] + pool[1..];
      Insert(pool[0], SortPool(pool[1..]))
  }

  // ----------------------------------------- the loops, from one position on

  function ServicesFrom(services: seq<RawService>, acc: map<Id, bool>): map<Id, bool> {
    if services == [] then acc
    else ServicesFrom(services[1..], acc[services[0].id := services[0].enabled])
  }

  function VersionsFrom(versions: seq<RawVersion>, enabled: map<Id, bool>, acc: map<Id, RawVersion>)
    : Result<map<Id, RawVersion>, BuildError>
  {
    if versions == [] then Ok(acc)
    else
      var v := WithDefaultPath(versions[0]);
      if !HasPrefix(v.healthPath, "/") then Err(InvalidHealthPath(v.id))
      else VersionsFrom(versions[1..], enabled, if Usable(v, enabled) then acc[v.id := v] else acc)
  }

  function AddTo(pools: map<Id, seq<Upstream>>, versionId: Id, u: Upstream): map<Id, seq<Upstream>> {
    pools[versionId := (if versionId in pools then pools[versionId] else []) + [u]]
  }

  function PoolsFrom(
    upstreams: seq<RawUpstream>, versions: map<Id, RawVersion>, platform: Platform, allowlist: seq<Prefix>,
    acc: map<Id, seq<Upstream>>): Result<map<Id, seq<Upstream>>, BuildError>
  {
    if upstreams == [] then Ok(acc)
    else
      match CompileUpstream(upstreams[0], versions, platform, allowlist)
      case Err(e) => Err(e)
      case Ok(None) => PoolsFrom(upstreams[1..], versions, platform, allowlist, acc)
      case Ok(Some(u)) => PoolsFrom(upstreams[1..], versions, platform, allowlist, AddTo(acc, upstreams[0].versionId, u))
  }

  function ListenersFrom(
    listeners: seq<RawListener>, versions: map<Id, RawVersion>, pools: map<Id, seq<Upstream>>, platform: Platform,
    acc: map<int, Listener>): Result<map<int, Listener>, BuildError>
  {
    if listeners == [] then Ok(acc)
    else if !Live(listeners[0]) then ListenersFrom(listeners[1..], versions, pools, platform, acc)
    else
      match CompileListener(listeners[0], versions, pools, acc.Keys, platform)
      case Err(e) => Err(e)
      case Ok(l) => ListenersFrom(listeners[1..], versions, pools, platform, acc[l.port := l])
  }

  function CredentialsFrom(records: seq<CredentialRecord>, acc: map<string, Credential>)
    : Result<map<string, Credential>, BuildError>
  {
    if records == [] then Ok(acc)
    else if !CredentialOk(records[0]) then Err(InvalidCredential(records[0].id))
    else CredentialsFrom(records[1..], acc[records[0].prefix := CredentialValue(records[0])])
  }

  /** The value buildSnapshot computes. */
  function Build(
    version: nat, environment: string, raw: RawSnapshot, records: seq<CredentialRecord>, platform: Platform,
    allowlist: seq<Prefix>): Result<Snapshot, BuildError>
  {
    if raw.environment != environment then Err(EnvironmentMismatch)
    else
      match VersionsFrom(raw.versions, ServicesFrom(raw.services, map[]), map[])
      case Err(e) => Err(e)
      case Ok(versions) =>
        match PoolsFrom(raw.upstreams, versions, platform, allowlist, map[])
        case Err(e) => Err(e)
        case Ok(pools) =>
          match ListenersFrom(raw.listeners, versions, pools, platform, map[])
          case Err(e) => Err(e)
          case Ok(listeners) =>
            match CredentialsFrom(records, map[])
            case Err(e) => Err(e)
            case Ok(credentials) => Ok(Snapshot(version, environment, listeners, credentials))
  }

  // ------------------------------------------------- the code's own loops

  method AllowedAddress(address: string, allowlist: seq<Prefix>) returns (allowed: bool)
    ensures allowed <==> AddressAllowed(address, allowlist)
  {
    for i := 0 to |allowlist|
      invariant forall k | 0 <= k < i :: !allowlist[k](address)
    {
      if allowlist[i](address) { return true; }
    }
    return false;
  }

  method CollectVersions(raw: RawSnapshot) returns (r: Result<map<Id, RawVersion>, BuildError>)
    ensures r == VersionsFrom(raw.versions, ServicesFrom(raw.services, map[]), map[])
  {
    var enabled: map<Id, bool> := map[];
    for i := 0 to |raw.services|
      invariant ServicesFrom(raw.services[i..], enabled) == ServicesFrom(raw.services, map[])
    {
      enabled := enabled[raw.services[i].id := raw.services[i].enabled];
      assert raw.services[i..][1..] == raw.services[i + 1..];
    }
    var versions: map<Id, RawVersion> := map[];
    for i := 0 to |raw.versions|
      invariant VersionsFrom(raw.versions[i..], enabled, versions)
             == VersionsFrom(raw.versions, ServicesFrom(raw.services, map[]), map[])
    {
      var version := raw.versions[i];
      assert raw.versions[i..][1..] == raw.versions[i + 1..];
      if version.healthPath == "" {
        version := version.(healthPath := "/health");
      }
      if !HasPrefix(version.healthPath, "/") {
        return Err(InvalidHealthPath(version.id));
      }
      if version.enabled && version.serviceId in enabled && enabled[version.serviceId] && version.timeoutMs > 0 && version.maxBytes > 0 {
        versions := versions[version.id := version];
      }
    }
    return Ok(versions);
  }

  method CollectPools(raw: RawSnapshot, versions: map<Id, RawVersion>, platform: Platform, allowlist: seq<Prefix>)
    returns (r: Result<map<Id, seq<Upstream>>, BuildError>)
    ensures r == PoolsFrom(raw.upstreams, versions, platform, allowlist, map[])
  {
    var pools: map<Id, seq<Upstream>> := map[];
    for i := 0 to |raw.upstreams|
      invariant PoolsFrom(raw.upstreams[i..], versions, platform, allowlist, pools)
             == PoolsFrom(raw.upstreams, versions, platform, allowlist, map[])
    {
      var item := raw.upstreams[i];
      assert raw.upstreams[i..][1..] == raw.upstreams[i + 1..];
      var scheme := item.scheme;
      if scheme == "" { scheme := "http"; }
      if scheme != "http" && scheme != "https" { return Err(InvalidScheme(item.id)); }
      if !item.enabled || item.port < 1 || item.port > 65535 || item.weight < 1 { continue; }
      var address := platform.parseAddress(item.address);
      if address == None { return Err(OutsideAllowlist(item.id)); }
      var allowed := AllowedAddress(address.value, allowlist);
      if !allowed { return Err(OutsideAllowlist(item.id)); }
      if item.versionId !in versions { continue; }
      var path := item.healthPath;
      if path == "" { path := versions[item.versionId].healthPath; }
      if !HasPrefix(path, "/") { return Err(InvalidHealthPath(item.id)); }
      var pool := if item.versionId in pools then pools[item.versionId] else [];
      pools := pools[item.versionId := pool + [Upstream(item.id, scheme, address.value, item.port, item.weight, path)]];
    }
    return Ok(pools);
  }

  method CollectListeners(
    raw: RawSnapshot, versions: map<Id, RawVersion>, pools: map<Id, seq<Upstream>>, platform: Platform)
    returns (r: Result<map<int, Listener>, BuildError>)
    ensures r == ListenersFrom(raw.listeners, versions, pools, platform, map[])
  {
    var listeners: map<int, Listener> := map[];
    for i := 0 to |raw.listeners|
      invariant ListenersFrom(raw.listeners[i..], versions, pools, platform, listeners)
             == ListenersFrom(raw.listeners, versions, pools, platform, map[])
    {
      var item := raw.listeners[i];
      assert raw.listeners[i..][1..] == raw.listeners[i + 1..];
      if item.status == Disabled || item.status == ListenerStatus.Draining { continue; }
      if item.versionId !in versions { return Err(UnavailableVersion(item.id)); }
      var version := versions[item.versionId];
      var pool := if item.versionId in pools then pools[item.versionId] else [];
      if |pool| == 0 { return Err(NoUpstreams(item.id)); }
      if item.port < 1 || item.port > 65535 { return Err(InvalidPort(item.id)); }
      if item.port in listeners { return Err(DuplicatedPort(item.port)); }
      var methods := UpperCased(item.methods, platform);
      if methods == {} { return Err(NoMethods(item.id)); }
      var types := item.contentTypes;
      if |types| == 0 { types := DefaultContentTypes; }
      var contentTypes := LowerCased(types, platform);
      var regex: Option<string> := None;
      if item.regex != "" {
        if |item.regex| > 2048 || '\0' in item.regex || '\r' in item.regex || '\n' in item.regex {
          return Err(InvalidRegex(item.id));
        }
        if !platform.regexCompiles(item.regex) { return Err(InvalidRegex(item.id)); }
        regex := Some(item.regex);
      }
      pool := SortPool(pool);
      if item.policy.rate < 0 || item.policy.burst < 0 || item.policy.quota < 0 || item.policy.threshold < 0 || item.policy.openMs < 0 {
        return Err(InvalidPolicy(item.id));
      }
      listeners := listeners[item.port := Listener(
        item.id, item.port, item.permission, methods, contentTypes, regex, version.timeoutMs, version.maxBytes, pool, item.policy)];
    }
    return Ok(listeners);
  }

  method UpperCased(values: seq<string>, platform: Platform) returns (r: set<string>)
    ensures r == set m | m in values :: platform.upper(m)
    ensures r == {} <==> values == []
  {
    r := {};
    for i := 0 to |values|
      invariant r == set m | m in values[..i] :: platform.upper(m)
      invariant i > 0 ==> r != {}
    {
      assert values[..i + 1] == values[..i] + [values[i]];
      r := r + {platform.upper(values[i])};
    }
    assert values[..|values|] == values;
  }

  method LowerCased(values: seq<string>, platform: Platform) returns (r: set<string>)
    ensures r == set c | c in values :: platform.lower(c)
  {
    r := {};
    for i := 0 to |values|
      invariant r == set c | c in values[..i] :: platform.lower(c)
    {
      assert values[..i + 1] == values[..i] + [values[i]];
      r := r + {platform.lower(values[i])};
    }
    assert values[..|values|] == values;
  }

  /** buildSnapshot. */
  method BuildSnapshot(
    version: nat, environment: string, raw: RawSnapshot, records: seq<CredentialRecord>, platform: Platform,
    allowlist: seq<Prefix>) returns (r: Result<Snapshot, BuildError>)
    ensures r == Build(version, environment, raw, records, platform, allowlist)
  {
    if raw.environment != environment { return Err(EnvironmentMismatch); }
    var versions := CollectVersions(raw);
    if versions.Err? { return Err(versions.error); }
    var pools := CollectPools(raw, versions.value, platform, allowlist);
    if pools.Err? { return Err(pools.error); }
    var listeners := CollectListeners(raw, versions.value, pools.value, platform);
    if listeners.Err? { return Err(listeners.error); }
    var credentials: map<string, Credential> := map[];
    for i := 0 to |records|
      invariant CredentialsFrom(records[i..], credentials) == CredentialsFrom(records, map[])
    {
      var record := records[i];
      assert records[i..][1..] == records[i + 1..];
      if |record.verifier| != 32 || record.prefix == "" { return Err(InvalidCredential(record.id)); }
      credentials := credentials[record.prefix := Credential(
        record.id, record.consumer, record.prefix, record.verifier, record.expiresAt, set p | p in record.permissions)];
    }
    return Ok(Snapshot(version, environment, listeners.value, credentials));
  }
}
