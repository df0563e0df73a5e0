/** internal/dataplane/handler.go, authenticate and keyPrefix, joined to the
    keys the control plane issued. */
module Authentication {
  import opened Prelude
  import opened Tables
  import opened SnapshotCompiler
  import opened SnapshotMeaning
  import opened ControlPlane
  import opened TableRules
  import opened Loading
  import opened KeyChains

  /** The characters keyPrefix lets through after "shn_". */
  predicate KeyCharacter(c: char) { c == '.' || '0' <= c <= '9' || 'a' <= c <= 'f' }

  function KeyPrefix(raw: string): Option<string> {
    if |raw| != 69 || !HasPrefix(raw, "shn_") || raw[16] != '.' then None
    else if exists i | 4 <= i < 69 :: !KeyCharacter(raw[i]) then None
    else Some(raw[4..16])
  }

  function Authenticate(s: Snapshot, g: Settings, raw: string, now: nat): Option<Credential> {
    match KeyPrefix(raw)
    case None => None
    case Some(prefix) =>
      if prefix !in s.credentials then None
      else
        var c := s.credentials[prefix];
        if !Unexpired(c.expiresAt, now) || g.mac(raw) != c.verifier then None else Some(c)
  }

  /** Exactly the strings that have a prefix: shn_, twelve characters that are the prefix, a dot, and 52 more; all of them dots,
      digits or the letters a to f. */
  lemma KeyPrefixMeans(raw: string, p: string)
    ensures KeyPrefix(raw) == Some(p) <==>
      && |raw| == 69 && |p| == 12 && raw == "shn_" + p + "." + raw[17..]
      && forall c | c in p + raw[17..] :: c == '.' || '0' <= c <= '9' || 'a' <= c <= 'f'
  {
    if |raw| == 69 {
      assert raw == raw[..4] + raw[4..16] + [raw[16]] + raw[17..];
      if raw == "shn_" + p + "." + raw[17..] && |p| == 12 {
        assert raw[..4] == "shn_" && raw[4..16] == p && raw[16] == '.';
        forall i | 4 <= i < 69
          ensures (forall c | c in p + raw[17..] :: c == '.' || '0' <= c <= '9' || 'a' <= c <= 'f') ==> KeyCharacter(raw[i])
        {
          if i < 16 { assert raw[i] == p[i - 4] && p[i - 4] in p + raw[17..]; }
          if i > 16 { assert raw[i] == raw[17..][i - 17] && raw[17..][i - 17] in p + raw[17..]; }
        }
      }
      if KeyPrefix(raw) == Some(p) {
        forall c | c in p + raw[17..] ensures KeyCharacter(c) {
          if c in p {
            var i :| 0 <= i < 12 && p[i] == c;
            assert raw[i + 4] == c;
          } else {
            var i :| 0 <= i < 52 && raw[17..][i] == c;
            assert raw[i + 17] == c;
          }
        }
      }
    }
  }

  /** generateKey then keyPrefix: the prefix stored with a key is the one read back from its raw form. */
  lemma PrefixRoundTrip(secret: Secret)
    ensures |RawKey(secret)| == 69 && KeyPrefix(RawKey(secret)) == Some(secret[..12])
  {
    var raw := RawKey(secret);
    assert raw[..4] == "shn_";
    assert raw[16] == '.';
    forall i | 4 <= i < 69 ensures KeyCharacter(raw[i]) {
      if i < 16 { assert raw[i] == secret[i - 4] && secret[i - 4] in secret; }
      else if i > 16 { assert raw[i] == secret[i - 5] && secret[i - 5] in secret; }
    }
    assert raw[4..16] == secret[..12];
  }

  /** The raw form determines the secret. */
  lemma RawKeyIsInjective(a: Secret, b: Secret)
    ensures RawKey(a) == RawKey(b) <==> a == b
  {
    if RawKey(a) == RawKey(b) {
      assert a[..12] == RawKey(a)[4..16] && b[..12] == RawKey(b)[4..16];
      assert a[12..] == RawKey(a)[17..] && b[12..] == RawKey(b)[17..];
      assert a == a[..12] + a[12..] && b == b[..12] + b[12..];
    }
  }

  /** The credentials of a built snapshot are the records it was built from. */
  lemma BuiltCredentials(
    version: nat, environment: string, raw: RawSnapshot, records: seq<CredentialRecord>, platform: Platform, allowlist: seq<Prefix>)
    requires DistinctIds(records, (r: CredentialRecord) => r.prefix)
    requires Build(version, environment, raw, records, platform, allowlist).Ok?
    ensures HoldsExactly(Build(version, environment, raw, records, platform, allowlist).value.credentials, records)
  {
    CredentialTable(records);
  }

  /** The MAC tells the presented key from every other key handed out. */
  ghost predicate NoCollision(g: Settings, ledger: seq<Issued>, raw: string) {
    forall i | 0 <= i < |ledger| :: g.mac(ledger[i].raw) == g.mac(raw) ==> ledger[i].raw == raw
  }

  /** raw was handed out as key k. */
  ghost predicate IsRawFormOf(ledger: seq<Issued>, raw: string, k: Id) {
    exists i :: 0 <= i < |ledger| && ledger[i] == Issued(k, raw)
  }

  lemma IssuedKeyIsFound(
    x: Access, g: Settings, environment: string, ledger: seq<Issued>, s: Snapshot, raw: string, k: Id, loaded: nat, now: nat)
    requires AccessSound(x) && LedgerSound(x, g, ledger) && loaded <= now
    requires HoldsExactly(s.credentials, Records(x, environment, loaded))
    requires IsRawFormOf(ledger, raw, k) && Selected(x, environment, now, k)
    ensures Authenticate(s, g, raw, now) == Some(CredentialValue(RecordOf(x, k)))
  {
    hide KeyPrefix, Records, GrantedNames, LinkOk, UniqueNames, UniquePrefixes, HoldsExactly;
    HeldCredentials(s.credentials, Records(x, environment, loaded));
    var i :| 0 <= i < |ledger| && ledger[i] == Issued(k, raw);
    assert KeyMatches(g, x.keys[ledger[i].id], ledger[i].raw);
    var secret: Secret :| raw == RawKey(secret) && x.keys[k].prefix == secret[..12] && x.keys[k].verifier == g.mac(raw);
    PrefixRoundTrip(secret);
    RecordsAreSelectedKeys(x, environment, loaded, RecordOf(x, k));
  }

  lemma FoundKeyWasIssued(
    x: Access, g: Settings, environment: string, ledger: seq<Issued>, s: Snapshot, raw: string, loaded: nat, now: nat)
    requires AccessSound(x) && LedgerSound(x, g, ledger) && loaded <= now && NoCollision(g, ledger, raw)
    requires HoldsExactly(s.credentials, Records(x, environment, loaded))
    requires Authenticate(s, g, raw, now).Some?
    ensures var c := Authenticate(s, g, raw, now).value;
      IsRawFormOf(ledger, raw, c.id) && Selected(x, environment, now, c.id) && c == CredentialValue(RecordOf(x, c.id))
  {
    hide KeyPrefix, Records, GrantedNames, LinkOk, UniqueNames, UniquePrefixes, HoldsExactly;
    HeldCredentials(s.credentials, Records(x, environment, loaded));
    var c := Authenticate(s, g, raw, now).value;
    var r :| r in Records(x, environment, loaded) && r.prefix == KeyPrefix(raw).value;
    RecordsAreSelectedKeys(x, environment, loaded, r);
    assert c == CredentialValue(r) && c.id == r.id;
    var i :| 0 <= i < |ledger| && ledger[i].id == r.id;
    assert KeyMatches(g, x.keys[ledger[i].id], ledger[i].raw);
    assert g.mac(ledger[i].raw) == g.mac(raw);
    assert ledger[i] == Issued(c.id, raw);
  }

  /** The credential of key c.id: its row's consumer, prefix, MAC and expiry, and exactly the names granted to the consumer. */
  ghost predicate CredentialSays(x: Access, c: Credential) {
    && c.id in x.keys && c.consumer == x.keys[c.id].consumer && c.prefix == x.keys[c.id].prefix
    && c.verifier == x.keys[c.id].verifier && c.expiresAt == x.keys[c.id].expiresAt
    && forall name :: name in c.permissions <==> Granted(x, c.consumer, name)
  }

  lemma CredentialIsItsRow(x: Access, c: Credential)
    ensures CredentialSays(x, c) <==> c.id in x.keys && c == CredentialValue(RecordOf(x, c.id))
  {
    hide GrantedNames, Granted;
    if c.id in x.keys {
      var d := CredentialValue(RecordOf(x, c.id));
      forall name ensures name in d.permissions <==> Granted(x, d.consumer, name) { PermissionIsGranted(x, d.consumer, name); }
      if CredentialSays(x, c) { assert c.permissions == d.permissions; }
    }
  }

  lemma PermissionIsGranted(x: Access, consumer: Id, name: string)
    ensures name in GrantedNames(x, consumer) <==> Granted(x, consumer, name)
  {
    GrantedNamesMean(x, consumer, name);
  }

  lemma InForceIsSelected(x: Access, environment: string, k: Id, now: nat)
    ensures InForce(x, environment, k, now) <==> Selected(x, environment, now, k)
    ensures InForce(x, environment, k, now) ==> k in x.keys
  {
  }

  /** After a load, a string authenticates at a later moment exactly when it is the raw form of an issued key whose consumer is
      enabled and of the environment, which was not revoked and has not expired; it then carries that consumer's permissions. */
  lemma AuthenticatesIffIssuedAndLive(
    x: Access, g: Settings, environment: string, ledger: seq<Issued>, s: Snapshot, raw: string, loaded: nat, now: nat, c: Credential)
    requires AccessSound(x) && LedgerSound(x, g, ledger) && loaded <= now && NoCollision(g, ledger, raw)
    requires HoldsExactly(s.credentials, Records(x, environment, loaded))
    ensures Authenticate(s, g, raw, now) == Some(c)
       <==> IsRawFormOf(ledger, raw, c.id) && InForce(x, environment, c.id, now) && CredentialSays(x, c)
  {
    hide *;
    InForceIsSelected(x, environment, c.id, now);
    CredentialIsItsRow(x, c);
    if Authenticate(s, g, raw, now) == Some(c) {
      FoundKeyWasIssued(x, g, environment, ledger, s, raw, loaded, now);
    }
    if IsRawFormOf(ledger, raw, c.id) && InForce(x, environment, c.id, now) && CredentialSays(x, c) {
      IssuedKeyIsFound(x, g, environment, ledger, s, raw, c.id, loaded, now);
    }
  }

  /** From issue to authentication over every run: what a replica freshly loaded from state n accepts. */
  lemma IssueToAuthenticate(
    history: seq<Database>, g: Settings, requests: seq<Request>, n: nat, environment: string, raw: string, loaded: nat, now: nat)
    requires Sane(g) && IsRun(history, g, requests) && n < |history| && loaded <= now
    requires NoCollision(g, Ledger(history, g, requests, n), raw)
    requires LoadedSnapshot(history[n], g, environment, loaded).Some?
    ensures var x, ledger := history[n].access, Ledger(history, g, requests, n);
      var accepted := Authenticate(LoadedSnapshot(history[n], g, environment, loaded).value, g, raw, now);
      && (accepted.Some? <==> exists k :: IsRawFormOf(ledger, raw, k) && InForce(x, environment, k, now))
      && (accepted.Some? ==> IsRawFormOf(ledger, raw, accepted.value.id) && CredentialSays(x, accepted.value))
      && (accepted.Some? ==> InForce(x, environment, accepted.value.id, now))
  {
    hide *;
    RunStarts(history, g, requests);
    LoadedCredentials(history, g, requests, n, environment, loaded);
    LedgerAlwaysSound(history, g, requests, n);
    var x, s, ledger := history[n].access, LoadedSnapshot(history[n], g, environment, loaded).value, Ledger(history, g, requests, n);
    var accepted := Authenticate(s, g, raw, now);
    if accepted.Some? {
      AuthenticatesIffIssuedAndLive(x, g, environment, ledger, s, raw, loaded, now, accepted.value);
    }
    if k :| IsRawFormOf(ledger, raw, k) && InForce(x, environment, k, now) {
      InForceIsSelected(x, environment, k, now);
      IssuedKeyIsFound(x, g, environment, ledger, s, raw, k, loaded, now);
    }
  }

  lemma LoadedCredentials(
    history: seq<Database>, g: Settings, requests: seq<Request>, n: nat, environment: string, loaded: nat)
    requires Sane(g) && IsRun(history, g, requests) && n < |history| && LoadedSnapshot(history[n], g, environment, loaded).Some?
    ensures AccessSound(history[n].access)
    ensures HoldsExactly(LoadedSnapshot(history[n], g, environment, loaded).value.credentials,
      Records(history[n].access, environment, loaded))
  {
    hide Records, HoldsExactly, IsRun, Sane;
    AlwaysRowsSound(history, g, requests, n);
    var db := history[n];
    var id := ActiveId(db.configurations, environment).value;
    var records := Records(db.access, environment, loaded);
    RecordsAreSound(db.access, environment, loaded);
    BuiltCredentials(id, environment, db.configurations.rows[id].snapshot, records, g.platform, g.allowlist);
  }

  /** One raw form belongs to one key. */
  lemma RawFormsAreUnique(x: Access, g: Settings, ledger: seq<Issued>, raw: string, j: Id, k: Id)
    requires AccessSound(x) && LedgerSound(x, g, ledger) && IsRawFormOf(ledger, raw, j) && IsRawFormOf(ledger, raw, k)
    ensures j == k && k in x.keys
  {
    hide KeyPrefix, LinkOk, RawKey;
    var a :| 0 <= a < |ledger| && ledger[a] == Issued(j, raw);
    var b :| 0 <= b < |ledger| && ledger[b] == Issued(k, raw);
    assert KeyMatches(g, x.keys[ledger[a].id], ledger[a].raw) && KeyMatches(g, x.keys[ledger[b].id], ledger[b].raw);
    var s: Secret :| raw == RawKey(s) && x.keys[j].prefix == s[..12];
    var t: Secret :| raw == RawKey(t) && x.keys[k].prefix == t[..12];
    RawKeyIsInjective(s, t);
  }

  /** A revoked key never works again: no replica that has loaded the state of its revocation, or any later one, accepts it. */
  lemma RevokedKeysStayOut(
    history: seq<Database>, g: Settings, requests: seq<Request>, m: nat, n: nat, environment: string, raw: string, k: Id,
    loaded: nat, now: nat)
    requires Sane(g) && IsRun(history, g, requests) && m <= n < |history| && loaded <= now
    requires NoCollision(g, Ledger(history, g, requests, n), raw) && IsRawFormOf(Ledger(history, g, requests, n), raw, k)
    requires k in history[m].access.keys && history[m].access.keys[k].revokedAt.Some?
    requires LoadedSnapshot(history[n], g, environment, loaded).Some?
    ensures Authenticate(LoadedSnapshot(history[n], g, environment, loaded).value, g, raw, now) == None
  {
    hide LoadedSnapshot, Authenticate, Ledger, IsRun, NoCollision, LedgerSound, CatalogSound, ListenersSound, AccessSound, GrantedNames,
      CredentialSays;
    var s, x := LoadedSnapshot(history[n], g, environment, loaded).value, history[n].access;
    RunStarts(history, g, requests);
    AlwaysRowsSound(history, g, requests, n);
    LedgerAlwaysSound(history, g, requests, n);
    KeysAreKept(history, g, requests, m, n);
    if Authenticate(s, g, raw, now).Some? {
      var c := Authenticate(s, g, raw, now).value;
      IssueToAuthenticate(history, g, requests, n, environment, raw, loaded, now);
      RawFormsAreUnique(x, g, Ledger(history, g, requests, n), raw, c.id, k);
    }
  }
}
