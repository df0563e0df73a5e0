/** A run of four requests in which a poll skips a revocation: the revoking
    transaction began before another one that committed ahead of it. */
module LateCommit {
  import opened Prelude
  import opened Tables
  import opened SnapshotCompiler
  import opened SnapshotMeaning
  import opened ControlPlane
  import opened TableRules
  import opened Loading
  import opened Authentication
  import opened Generations
  import opened ReplicaRefresh
  import opened FreshInstallation

  /** The requests in commit order, each with the time its transaction began: consumer c, its key k, then the revocation of k
      begins, consumer d is created and committed, and only then the revocation commits. */
  function Creation(): Request { Request(Development, DoCreateConsumer("c", "consumer", []), 10) }
  function Issue(secret: Secret): Request { Request(Development, DoIssueKey("k", "c", secret, "key", [], None), 11) }
  function Overtaking(): Request { Request(Development, DoCreateConsumer("d", "other", []), 13) }
  function Revocation(): Request { Request(Development, DoRevokeKey("k"), 12) }
  function Requests(secret: Secret): seq<Request> { [Creation(), Issue(secret), Overtaking(), Revocation()] }

  function Owner(): ConsumerRow { ConsumerRow(Development, "consumer", true, 1, 10) }
  function Other(): ConsumerRow { ConsumerRow(Development, "other", true, 1, 13) }

  function IssuedKey(g: Settings, secret: Secret, revokedAt: Option<nat>): KeyRow {
    KeyRow("c", "key", secret[..12], g.mac(RawKey(secret)), None, revokedAt, None, 11)
  }

  function WithConsumer(): Database { Fresh().(access := Access(map[], map["c" := Owner()], {}, map[])) }

  function WithKey(g: Settings, secret: Secret): Database {
    Fresh().(access := Access(map[], map["c" := Owner()], {}, map["k" := IssuedKey(g, secret, None)]))
  }

  function WithBoth(g: Settings, secret: Secret, revokedAt: Option<nat>): Database {
    Fresh().(access := Access(map[], map["c" := Owner(), "d" := Other()], {}, map["k" := IssuedKey(g, secret, revokedAt)]))
  }

  function History(g: Settings, secret: Secret): seq<Database> {
    [Fresh(), WithConsumer(), WithKey(g, secret), WithBoth(g, secret, None), WithBoth(g, secret, Some(12))]
  }

  lemma NothingAssigned(x: Access, g: Settings, consumer: Id)
    ensures AssignPermissions(x, g, consumer, []) == Ok(x)
  {
    assert x.grants + (set p | p in x.permissions && x.permissions[p] in [] :: (consumer, p)) == x.grants;
  }

  lemma ConsumerIsCreated(g: Settings)
    requires g.serviceName("consumer")
    ensures Next(Fresh(), g, Creation()) == WithConsumer()
  {
    hide AssignPermissions;
    NothingAssigned(WithConsumer().access, g, "c");
  }

  lemma KeyIsIssued(g: Settings, secret: Secret)
    ensures Next(WithConsumer(), g, Issue(secret)) == WithKey(g, secret)
  {
    hide AssignPermissions, RawKey;
    NothingAssigned(WithConsumer().access, g, "c");
  }

  lemma AnotherIsCreated(g: Settings, secret: Secret)
    requires g.serviceName("other")
    ensures Next(WithKey(g, secret), g, Overtaking()) == WithBoth(g, secret, None)
  {
    hide AssignPermissions, RawKey, IssuedKey;
    NothingAssigned(WithBoth(g, secret, None).access, g, "d");
    assert WithKey(g, secret).access.consumers["d" := Other()] == WithBoth(g, secret, None).access.consumers;
  }

  lemma KeyIsRevoked(g: Settings, secret: Secret)
    ensures RevokeKey(WithBoth(g, secret, None), Development, "k", 12) == Ok(WithBoth(g, secret, Some(12)))
    ensures Next(WithBoth(g, secret, None), g, Revocation()) == WithBoth(g, secret, Some(12))
  {
    hide RawKey;
    var db := WithBoth(g, secret, None);
    assert KeyIn(db.access, Development, "k");
    assert db.access.keys["k" := IssuedKey(g, secret, Some(12))] == WithBoth(g, secret, Some(12)).access.keys;
  }

  lemma ItIsARun(g: Settings, secret: Secret)
    requires g.serviceName("consumer") && g.serviceName("other")
    ensures IsRun(History(g, secret), g, Requests(secret))
  {
    hide Next, WithConsumer, WithKey, WithBoth, Fresh, FreshSchema, Creation, Issue, Overtaking, Revocation;
    ConsumerIsCreated(g);
    KeyIsIssued(g, secret);
    AnotherIsCreated(g, secret);
    KeyIsRevoked(g, secret);
    FreshIsFresh();
    var h, requests := History(g, secret), Requests(secret);
    assert StepsAt(h, g, requests, 0) && StepsAt(h, g, requests, 1) && StepsAt(h, g, requests, 2) && StepsAt(h, g, requests, 3);
    forall i | 0 <= i < 4 ensures StepsAt(h, g, requests, i) {}
  }

  lemma LatestStampIsTheOvertaking(g: Settings, secret: Secret)
    ensures Generation(WithBoth(g, secret, None).access, Development) == 13
  {
    hide RawKey;
    var x := WithBoth(g, secret, None).access;
    assert ConsumerIn(x, Development, "d");
    assert x.consumers["d"].updatedAt in ConsumerStamps(x, Development);
    assert 13 in Stamps(x, Development);
    forall t | t in Stamps(x, Development) ensures t <= 13 {}
  }

  lemma ItsKeysAreSound(g: Settings, secret: Secret)
    requires Sane(g)
    ensures AccessSound(WithBoth(g, secret, None).access)
    ensures Selected(WithBoth(g, secret, None).access, Development, 14, "k")
  {
    hide RawKey;
    assert KeyRowOk(WithBoth(g, secret, None).access, IssuedKey(g, secret, None));
  }

  /** The bootstrap version loads with any sound credentials, and holds them. */
  lemma BootstrapHolds(db: Database, g: Settings, now: nat)
    requires db.configurations == Fresh().configurations && AccessSound(db.access)
    ensures LoadedSnapshot(db, g, Development, now).Some?
    ensures HoldsExactly(LoadedSnapshot(db, g, Development, now).value.credentials, Records(db.access, Development, now))
  {
    hide AccessSound, Records, ActiveId, HoldsExactly, CredentialsFrom, Fresh;
    BootstrapIsActive(db);
    RecordsAreSound(db.access, Development, now);
    CredentialTable(Records(db.access, Development, now));
  }

  /** What a replica holds that loaded, at 14, the state with both consumers and the live key. */
  function Loaded(g: Settings, secret: Secret): Replica {
    AfterLoad(Replica(None, 0, 0), Some(WithBoth(g, secret, None)), g, Development, 14)
  }

  lemma TheKeyWorks(g: Settings, secret: Secret)
    requires Sane(g)
    ensures Loaded(g, secret).current.Some?
    ensures Authenticate(Loaded(g, secret).current.value, g, RawKey(secret), 14).Some?
  {
    hide WithBoth, Records, RawKey, AccessSound, KeyPrefix, LoadedSnapshot, Generation, HoldsExactly;
    KeyLooksUp(g, secret);
  }

  lemma KeyLooksUp(g: Settings, secret: Secret)
    requires Sane(g)
    ensures LoadedSnapshot(WithBoth(g, secret, None), g, Development, 14).Some?
    ensures Authenticate(LoadedSnapshot(WithBoth(g, secret, None), g, Development, 14).value, g, RawKey(secret), 14).Some?
  {
    hide Records, RawKey, AccessSound, KeyPrefix, LoadedSnapshot, GrantedNames, Fresh;
    var db := WithBoth(g, secret, None);
    ItsKeysAreSound(g, secret);
    BootstrapHolds(db, g, 14);
    RecordsAreSelectedKeys(db.access, Development, 14, RecordOf(db.access, "k"));
    PrefixRoundTrip(secret);
  }

  lemma ThePollSkips(g: Settings, secret: Secret)
    requires Sane(g)
    ensures LooksUnchanged(Loaded(g, secret), WithBoth(g, secret, Some(12)), WithBoth(g, secret, Some(12)), Development)
    ensures Records(WithBoth(g, secret, Some(12)).access, Development, 14) != Records(WithBoth(g, secret, None).access, Development, 14)
  {
    hide WithBoth, LoadedSnapshot, Records, Generation, ActiveId, RawKey, AccessSound, Selected, Authenticate;
    KeyLooksUp(g, secret);
    ItsKeysAreSound(g, secret);
    LatestStampIsTheOvertaking(g, secret);
    KeyIsRevoked(g, secret);
    LoadedVersion(WithBoth(g, secret, None), g, Development, 14);
    LateCommitIsMissed(WithBoth(g, secret, None), Development, "k", 12, 14);
  }

  /** The revocation began after the key it names was issued, and was overtaken by the creation of a second consumer: a replica
      that loaded in between skips its poll although the credentials differ, and goes on accepting the revoked key. */
  lemma ARevocationIsSkipped(g: Settings, secret: Secret)
    requires Sane(g) && g.serviceName("consumer") && g.serviceName("other")
    ensures var h, requests := History(g, secret), Requests(secret);
      && IsRun(h, g, requests) && !StampsIncrease(h, g, requests)
      && requests[0].now < requests[1].now < requests[3].now < requests[2].now
      && "k" in h[4].access.keys && h[4].access.keys["k"].revokedAt == Some(12)
      && LooksUnchanged(Loaded(g, secret), h[4], h[4], Development)
      && Records(h[4].access, Development, 14) != Records(h[3].access, Development, 14)
      && Loaded(g, secret).current.Some? && Authenticate(Loaded(g, secret).current.value, g, RawKey(secret), 14).Some?
  {
    hide Loaded, Authenticate, Records, RawKey, LooksUnchanged, IsRun, StampsIncrease;
    ItIsARun(g, secret);
    TheStampsFall(g, secret);
    ThePollSkips(g, secret);
    TheKeyWorks(g, secret);
  }

  lemma TheStampsFall(g: Settings, secret: Secret)
    requires g.serviceName("other")
    ensures !StampsIncrease(History(g, secret), g, Requests(secret))
  {
    hide RawKey, AssignPermissions;
    var h, requests := History(g, secret), Requests(secret);
    NothingAssigned(WithBoth(g, secret, None).access, g, "d");
    assert WithKey(g, secret).access.consumers["d" := Other()] == WithBoth(g, secret, None).access.consumers;
    KeyIsRevoked(g, secret);
    assert Commits(h, g, requests, 2) && Commits(h, g, requests, 3);
  }
}
