/** Configuration versions: one active version per environment, statuses that
    only move forward, and where an active snapshot came from. */
module ConfigurationLifecycle {
  import opened Prelude
  import opened Tables
  import opened SnapshotCompiler
  import opened ControlPlane
  import opened Frames

  // ------------------------------------------------------ exactly one active

  ghost predicate InSequence(k: Configurations, environments: set<string>) {
    forall id | id in k.rows :: 1 <= id < k.nextId && k.rows[id].environment in environments
  }

  ghost predicate IsCurrent(k: Configurations, environment: string, id: nat) {
    id in k.rows && k.rows[id].environment == environment && k.rows[id].status == Current
  }

  ghost predicate ExactlyOneCurrent(k: Configurations, environment: string) {
    && (exists id :: IsCurrent(k, environment, id))
    && (forall i, j | IsCurrent(k, environment, i) && IsCurrent(k, environment, j) :: i == j)
  }

  ghost predicate OneCurrentEach(k: Configurations, environments: set<string>) {
    forall e | e in environments :: ExactlyOneCurrent(k, e)
  }

  /** The MAX over active rows is that one row. */
  lemma ActiveIdIsTheCurrentOne(k: Configurations, environment: string, id: nat)
    requires ExactlyOneCurrent(k, environment)
    ensures ActiveId(k, environment) == Some(id) <==> IsCurrent(k, environment, id)
  {
    var c :| IsCurrent(k, environment, c);
    assert c in CurrentIds(k, environment);
    var active := ActiveId(k, environment);
    assert active.value in CurrentIds(k, environment);
    assert IsCurrent(k, environment, active.value);
  }

  // --------------------------------------------------------- moving forward

  function Stage(s: ConfigurationStatus): nat {
    match s
    case Draft => 0
    case Validated => 1
    case Current => 2
    case Superseded => 3
  }

  /** Between two states: nothing is lost or rewritten, and no status goes back. */
  ghost predicate Forward(j: Configurations, k: Configurations) {
    && j.nextId <= k.nextId && j.approvals <= k.approvals
    && forall id | id in j.rows ::
        && id in k.rows
        && k.rows[id] == j.rows[id].(status := k.rows[id].status)
        && Stage(j.rows[id].status) <= Stage(k.rows[id].status)
  }

  // -------------------------------------------------------------- provenance

  ghost predicate WasActive(row: ConfigurationRow) { row.status == Current || row.status == Superseded }

  /** Reviewed by enough people, none of them its author. */
  ghost predicate Reviewed(k: Configurations, required: int, id: nat)
    requires id in k.rows
  {
    |Approvers(k, id)| >= required && k.rows[id].createdBy !in Approvers(k, id)
  }

  ghost predicate Accounted(k: Configurations, required: int, boot: set<nat>, id: nat)
    requires id in k.rows
  {
    match k.rows[id].source
    case None => id in boot || Reviewed(k, required, id)
    case Some(s) =>
      && s < id && s in k.rows && WasActive(k.rows[s])
      && k.rows[s].snapshot == k.rows[id].snapshot && k.rows[s].environment == k.rows[id].environment
  }

  ghost predicate Provenance(k: Configurations, required: int, boot: set<nat>) {
    && (forall id {:trigger Accounted(k, required, boot, id)} | id in k.rows && WasActive(k.rows[id]) :: Accounted(k, required, boot, id))
    && DraftsHaveNoSource(k) && ApprovalsAreForeign(k)
  }

  ghost predicate DraftsHaveNoSource(k: Configurations) {
    forall id | id in k.rows && !WasActive(k.rows[id]) :: k.rows[id].source == None
  }

  ghost predicate ApprovalsAreForeign(k: Configurations) {
    forall p | p in k.approvals :: p.0 in k.rows && k.rows[p.0].createdBy != p.1
  }

  ghost predicate Sound(k: Configurations, environments: set<string>, required: int, boot: set<nat>) {
    InSequence(k, environments) && OneCurrentEach(k, environments) && Provenance(k, required, boot)
  }

  // ---------------------------------------------------------- every request

  lemma SubsetSize<T>(a: set<T>, b: set<T>)
    requires a <= b
    ensures |a| <= |b|
  {
    assert b == a + (b - a);
  }

  lemma ReviewsAccumulate(j: Configurations, k: Configurations, required: int, id: nat)
    requires id in j.rows && Forward(j, k) && Reviewed(j, required, id)
    requires ApprovalsAreForeign(k)
    ensures Reviewed(k, required, id)
  {
    forall a | a in Approvers(j, id) ensures a in Approvers(k, id) {
      assert (id, a) in k.approvals;
      assert (id, a).1 in Approvers(k, id);
    }
    SubsetSize(Approvers(j, id), Approvers(k, id));
  }

  /** Accounts stay valid when the tables move forward. */
  lemma AccountsAccumulate(j: Configurations, k: Configurations, required: int, boot: set<nat>, id: nat)
    requires id in j.rows && WasActive(j.rows[id]) && Provenance(j, required, boot) && Forward(j, k)
    requires ApprovalsAreForeign(k)
    ensures Accounted(k, required, boot, id)
  {
    assert Accounted(j, required, boot, id);
    if j.rows[id].source == None && id !in boot { ReviewsAccumulate(j, k, required, id); }
  }

  lemma CurrentUnchanged(j: Configurations, k: Configurations, environment: string)
    requires ExactlyOneCurrent(j, environment)
    requires forall id :: IsCurrent(k, environment, id) <==> IsCurrent(j, environment, id)
    ensures ExactlyOneCurrent(k, environment)
  {
  }

  /** Both states have the same active and superseded rows. */
  ghost predicate SameActivations(j: Configurations, k: Configurations) {
    && (forall id | id in j.rows && WasActive(j.rows[id]) :: id in k.rows && k.rows[id] == j.rows[id])
    && (forall id | id in k.rows && WasActive(k.rows[id]) :: id in j.rows && WasActive(j.rows[id]))
  }

  lemma SameActivationsKeep(
    j: Configurations, k: Configurations, environments: set<string>, required: int, boot: set<nat>)
    requires Sound(j, environments, required, boot) && SameActivations(j, k) && Forward(j, k)
    requires InSequence(k, environments) && DraftsHaveNoSource(k) && ApprovalsAreForeign(k)
    ensures Sound(k, environments, required, boot)
  {
    forall e | e in environments ensures ExactlyOneCurrent(k, e) { CurrentUnchanged(j, k, e); }
    forall id {:trigger Accounted(k, required, boot, id)} | id in k.rows && WasActive(k.rows[id]) ensures Accounted(k, required, boot, id) {
      AccountsAccumulate(j, k, required, boot, id);
    }
  }

  lemma CreationKeeps(db: Database, environment: string, actor: string, required: int, boot: set<nat>)
    requires Sound(db.configurations, db.environments, required, boot)
    ensures var r := CreateConfiguration(db, environment, actor);
      r.Ok? ==> Sound(r.value.configurations, db.environments, required, boot) && Forward(db.configurations, r.value.configurations)
  {
    hide Capture;
    if environment in db.environments {
      var row := ConfigurationRow(environment, Draft, Capture(db, environment), None, actor);
      AddingADraftKeeps(db.configurations, row, db.environments, required, boot);
    }
  }

  lemma AddingADraftKeeps(
    j: Configurations, row: ConfigurationRow, environments: set<string>, required: int, boot: set<nat>)
    requires Sound(j, environments, required, boot)
    requires row.environment in environments && row.status == Draft && row.source == None
    ensures var k := j.(rows := j.rows[j.nextId := row], nextId := j.nextId + 1);
      Sound(k, environments, required, boot) && Forward(j, k)
  {
    var k := j.(rows := j.rows[j.nextId := row], nextId := j.nextId + 1);
    hide Accounted, ExactlyOneCurrent;
    SameActivationsKeep(j, k, environments, required, boot);
  }

  lemma ValidationKeeps(db: Database, environment: string, version: nat, required: int, boot: set<nat>)
    requires Sound(db.configurations, db.environments, required, boot)
    ensures var r := ValidateConfiguration(db, environment, version);
      r.Ok? ==> Sound(r.value.configurations, db.environments, required, boot) && Forward(db.configurations, r.value.configurations)
  {
    hide TablesPublishable, Accounted, ExactlyOneCurrent;
    var r := ValidateConfiguration(db, environment, version);
    if r.Ok? { SameActivationsKeep(db.configurations, r.value.configurations, db.environments, required, boot); }
  }

  lemma ApprovalKeeps(db: Database, environment: string, version: nat, actor: string, required: int, boot: set<nat>)
    requires Sound(db.configurations, db.environments, required, boot)
    ensures var r := ApproveConfiguration(db, environment, version, actor);
      r.Ok? ==> Sound(r.value.configurations, db.environments, required, boot) && Forward(db.configurations, r.value.configurations)
  {
    hide Accounted, ExactlyOneCurrent;
    var r := ApproveConfiguration(db, environment, version, actor);
    if r.Ok? { SameActivationsKeep(db.configurations, r.value.configurations, db.environments, required, boot); }
  }

  /** Superseding and then installing id leaves one active version everywhere. */
  lemma InstallationKeepsOneCurrent(
    j: Configurations, k: Configurations, environments: set<string>, environment: string, id: nat, row: ConfigurationRow)
    requires OneCurrentEach(j, environments)
    requires row.environment == environment && row.status == Current
    requires id in j.rows ==> j.rows[id].environment == environment
    requires k.rows == Supersede(j.rows, environment)[id := row]
    ensures OneCurrentEach(k, environments)
  {
    forall e | e in environments ensures ExactlyOneCurrent(k, e) {
      if e == environment {
        assert IsCurrent(k, e, id);
      } else {
        CurrentUnchanged(j, k, e);
      }
    }
  }

  /** Superseding the environment's active rows and then writing row id. */
  ghost predicate Installs(j: Configurations, k: Configurations, environment: string, id: nat, row: ConfigurationRow) {
    && k.rows == Supersede(j.rows, environment)[id := row] && k.approvals == j.approvals && j.nextId <= k.nextId
    && row.environment == environment && row.status == Current
    && (id in j.rows ==> j.rows[id].status == Validated && row == j.rows[id].(status := Current))
  }

  lemma InstallationMovesForward(
    j: Configurations, k: Configurations, environment: string, id: nat, row: ConfigurationRow)
    requires Installs(j, k, environment, id, row)
    ensures Forward(j, k)
  {
    forall i | i in j.rows
      ensures i in k.rows && k.rows[i] == j.rows[i].(status := k.rows[i].status) && Stage(j.rows[i].status) <= Stage(k.rows[i].status)
    {
      assert i in Supersede(j.rows, environment);
    }
  }

  lemma InstallationKeepsProvenance(
    j: Configurations, k: Configurations, environment: string, id: nat, row: ConfigurationRow, required: int, boot: set<nat>)
    requires Installs(j, k, environment, id, row) && Provenance(j, required, boot)
    requires Accounted(k, required, boot, id)
    requires forall p | p in j.approvals :: p.0 in k.rows && k.rows[p.0].createdBy != p.1
    ensures Provenance(k, required, boot)
  {
    InstallationMovesForward(j, k, environment, id, row);
    forall i | i in k.rows && i != id ensures i in j.rows && (WasActive(k.rows[i]) <==> WasActive(j.rows[i])) {
      assert i in Supersede(j.rows, environment);
    }
    forall i {:trigger Accounted(k, required, boot, i)} | i in k.rows && WasActive(k.rows[i]) ensures Accounted(k, required, boot, i) {
      if i != id { AccountsAccumulate(j, k, required, boot, i); }
    }
  }

  lemma ApprovalsStayForeign(j: Configurations, k: Configurations, required: int, boot: set<nat>)
    requires Provenance(j, required, boot) && Forward(j, k)
    ensures forall p | p in j.approvals :: p.0 in k.rows && k.rows[p.0].createdBy != p.1
  {
  }

  lemma ActivationKeeps(
    db: Database, g: Settings, environment: string, version: nat, expectedActive: Option<nat>, boot: set<nat>)
    requires Sound(db.configurations, db.environments, g.requiredApprovals, boot)
    ensures var r := ActivateConfiguration(db, g, environment, version, expectedActive);
      r.Ok? ==>
        && Sound(r.value.configurations, db.environments, g.requiredApprovals, boot)
        && Forward(db.configurations, r.value.configurations)
  {
    var j, r := db.configurations, ActivateConfiguration(db, g, environment, version, expectedActive);
    if r.Ok? {
      var k := r.value.configurations;
      var row := j.rows[version].(status := Current);
      InstallationMovesForward(j, k, environment, version, row);
      InstallationKeepsOneCurrent(j, k, db.environments, environment, version, row);
      ApprovalsStayForeign(j, k, g.requiredApprovals, boot);
      assert Reviewed(k, g.requiredApprovals, version) by {
        assert Approvers(k, version) == Approvers(j, version);
        forall a | a in Approvers(j, version) ensures a != row.createdBy { assert (version, a) in j.approvals; }
      }
      InstallationKeepsProvenance(j, k, environment, version, row, g.requiredApprovals, boot);
    }
  }

  lemma RollbackKeeps(db: Database, environment: string, source: nat, actor: string, required: int, boot: set<nat>)
    requires Sound(db.configurations, db.environments, required, boot)
    ensures var r := RollbackConfiguration(db, environment, source, actor);
      r.Ok? ==> Sound(r.value.configurations, db.environments, required, boot) && Forward(db.configurations, r.value.configurations)
  {
    var j, r := db.configurations, RollbackConfiguration(db, environment, source, actor);
    if r.Ok? {
      var k := r.value.configurations;
      var row := ConfigurationRow(environment, Current, j.rows[source].snapshot, Some(source), actor);
      InstallationMovesForward(j, k, environment, j.nextId, row);
      InstallationKeepsOneCurrent(j, k, db.environments, environment, j.nextId, row);
      ApprovalsStayForeign(j, k, required, boot);
      InstallationKeepsProvenance(j, k, environment, j.nextId, row, required, boot);
    }
  }

  lemma SkippingKeeps(db: Database, skipped: nat, required: int, boot: set<nat>)
    requires Sound(db.configurations, db.environments, required, boot)
    ensures var k := db.configurations.(nextId := db.configurations.nextId + skipped);
      Sound(k, db.environments, required, boot) && Forward(db.configurations, k)
  {
    hide Accounted, ExactlyOneCurrent;
    var j := db.configurations;
    SameActivationsKeep(j, j.(nextId := j.nextId + skipped), db.environments, required, boot);
  }

  lemma ConfigurationRequestKeeps(db: Database, g: Settings, r: Request, boot: set<nat>)
    requires Sound(db.configurations, db.environments, g.requiredApprovals, boot) && ConfigurationRequest(r.op)
    ensures var n := Next(db, g, r);
      Sound(n.configurations, db.environments, g.requiredApprovals, boot) && Forward(db.configurations, n.configurations)
  {
    hide Sound, Forward, CreateConfiguration, ValidateConfiguration, ApproveConfiguration, ActivateConfiguration, RollbackConfiguration;
    ForwardIsReflexive(db.configurations);
    match r.op
    case DoCreateConfiguration(actor) => CreationKeeps(db, r.environment, actor, g.requiredApprovals, boot);
    case DoValidateConfiguration(version) => ValidationKeeps(db, r.environment, version, g.requiredApprovals, boot);
    case DoApproveConfiguration(version, actor) => ApprovalKeeps(db, r.environment, version, actor, g.requiredApprovals, boot);
    case DoActivateConfiguration(version, expected) => ActivationKeeps(db, g, r.environment, version, expected, boot);
    case DoRollbackConfiguration(version, actor) => RollbackKeeps(db, r.environment, version, actor, g.requiredApprovals, boot);
    case SkipVersionIds(skipped) => SkippingKeeps(db, skipped, g.requiredApprovals, boot);
  }

  lemma EveryRequestKeeps(db: Database, g: Settings, r: Request, boot: set<nat>)
    requires Sound(db.configurations, db.environments, g.requiredApprovals, boot)
    ensures var n := Next(db, g, r);
      && n.environments == db.environments
      && Sound(n.configurations, n.environments, g.requiredApprovals, boot) && Forward(db.configurations, n.configurations)
  {
    EveryRequestHasAKind(r.op);
    if CatalogRequest(r.op) { CatalogFrame(db, g, r); }
    else if AccessRequest(r.op) { AccessFrame(db, g, r); }
    else if AssignmentRequest(r.op) { AssignmentFrame(db, g, r); }
    else {
      ConfigurationFrame(db, g, r);
      ConfigurationRequestKeeps(db, g, r, boot);
    }
  }

  lemma FreshIsSound(db: Database, required: int)
    requires FreshSchema(db)
    ensures Sound(db.configurations, db.environments, required, db.configurations.rows.Keys)
  {
    var k := db.configurations;
    forall e | e in db.environments ensures ExactlyOneCurrent(k, e) {
      var id :| id in k.rows && k.rows[id].environment == e;
      assert IsCurrent(k, e, id);
    }
  }

  // ------------------------------------------------------------- over runs

  lemma {:induction false} AlwaysSound(history: seq<Database>, g: Settings, requests: seq<Request>, n: nat)
    requires IsRun(history, g, requests) && n < |history|
    ensures history[n].environments == history[0].environments
    ensures Sound(history[n].configurations, history[n].environments, g.requiredApprovals, history[0].configurations.rows.Keys)
  {
    hide *;
    var boot := history[0].configurations.rows.Keys;
    RunStarts(history, g, requests);
    if n == 0 {
      FreshIsSound(history[0], g.requiredApprovals);
    } else {
      RunStep(history, g, requests, n);
      AlwaysSound(history, g, requests, n - 1);
      EveryRequestKeeps(history[n - 1], g, requests[n - 1], boot);
    }
  }

  lemma ForwardIsReflexive(k: Configurations)
    ensures Forward(k, k)
  {
  }

  lemma ForwardIsTransitive(i: Configurations, j: Configurations, k: Configurations)
    requires Forward(i, j) && Forward(j, k)
    ensures Forward(i, k)
  {
  }

  lemma {:induction false} AlwaysForward(history: seq<Database>, g: Settings, requests: seq<Request>, m: nat, n: nat)
    requires IsRun(history, g, requests) && m <= n < |history|
    ensures Forward(history[m].configurations, history[n].configurations)
  {
    hide *;
    if m == n {
      ForwardIsReflexive(history[m].configurations);
    } else {
      RunStep(history, g, requests, n);
      AlwaysForward(history, g, requests, m, n - 1);
      AlwaysSound(history, g, requests, n - 1);
      EveryRequestKeeps(history[n - 1], g, requests[n - 1], history[0].configurations.rows.Keys);
      ForwardIsTransitive(history[m].configurations, history[n - 1].configurations, history[n].configurations);
    }
  }

  /** In every reachable state each environment has exactly one active version. */
  lemma ExactlyOneActiveVersion(
    history: seq<Database>, g: Settings, requests: seq<Request>, n: nat, environment: string)
    requires IsRun(history, g, requests) && n < |history| && environment in history[n].environments
    ensures var k := history[n].configurations;
      exists id :: ActiveId(k, environment) == Some(id) && CurrentIds(k, environment) == {id}
  {
    AlwaysSound(history, g, requests, n);
    var k := history[n].configurations;
    var id :| IsCurrent(k, environment, id);
    ActiveIdIsTheCurrentOne(k, environment, id);
    assert id in CurrentIds(k, environment);
    forall c | c in CurrentIds(k, environment) ensures c == id { assert IsCurrent(k, environment, c); }
  }

  /** An id is active over one unbroken stretch of the run, and its row never changes but for the status. */
  lemma ActiveAtMostOnce(history: seq<Database>, g: Settings, requests: seq<Request>, l: nat, m: nat, n: nat, id: nat)
    requires IsRun(history, g, requests) && l <= m <= n < |history|
    requires id in history[l].configurations.rows && history[l].configurations.rows[id].status == Current
    requires id in history[n].configurations.rows && history[n].configurations.rows[id].status == Current
    ensures id in history[m].configurations.rows
    ensures history[m].configurations.rows[id] == history[l].configurations.rows[id] == history[n].configurations.rows[id]
  {
    AlwaysForward(history, g, requests, l, m);
    AlwaysForward(history, g, requests, m, n);
  }

  lemma ActivationRetires(db: Database, g: Settings, environment: string, id: nat, expected: nat)
    requires ActivateConfiguration(db, g, environment, id, Some(expected)).Ok?
    ensures var rows := ActivateConfiguration(db, g, environment, id, Some(expected)).value.configurations.rows;
      expected in rows && rows[expected].status == Superseded
  {
    assert expected in CurrentIds(db.configurations, environment);
    assert expected in Supersede(db.configurations.rows, environment);
  }

  /** Compare-and-swap: of all the activations of a run that expect the same active version at most one succeeds, however
      they are interleaved with other requests; the later ones are answered with a conflict. */
  lemma CompareAndSwapSucceedsOnce(
    history: seq<Database>, g: Settings, requests: seq<Request>, i: nat, j: nat, expected: nat)
    requires IsRun(history, g, requests) && i < j < |requests|
    requires requests[i].op.DoActivateConfiguration? && requests[i].op.expectedActive == Some(expected)
    requires requests[j].op.DoActivateConfiguration? && requests[j].op.expectedActive == Some(expected)
    requires requests[j].environment == requests[i].environment
    requires Apply(history[i], g, requests[i].environment, requests[i].op, requests[i].now).Ok?
    ensures Apply(history[j], g, requests[j].environment, requests[j].op, requests[j].now) == Err(Conflict)
  {
    hide FreshSchema, ActiveId, GoLive, Approvers;
    ActivationRetires(history[i], g, requests[i].environment, requests[i].op.configuration, expected);
    RunStep(history, g, requests, i + 1);
    AlwaysForward(history, g, requests, i + 1, j);
    AlwaysSound(history, g, requests, i);
    AlwaysSound(history, g, requests, j);
    ActiveIdIsCurrent(history[j].configurations, requests[j].environment);
  }

  lemma ActiveIdIsCurrent(k: Configurations, environment: string)
    ensures ActiveId(k, environment).Some? ==> IsCurrent(k, environment, ActiveId(k, environment).value)
  {
    if ActiveId(k, environment).Some? { assert ActiveId(k, environment).value in CurrentIds(k, environment); }
  }

  // ------------------------------------------------------- tracing a snapshot

  /** The versions from id back to the one that was not rolled back from another. */
  ghost function Chain(k: Configurations, required: int, boot: set<nat>, id: nat): (chain: seq<nat>)
    requires Provenance(k, required, boot) && id in k.rows && WasActive(k.rows[id])
    ensures chain != [] && chain[0] == id
    decreases id
  {
    match k.rows[id].source
    case None => [id]
    case Some(s) =>
      assert Accounted(k, required, boot, id);
      [id] + Chain(k, required, boot, s)
  }

  /** Every link of the chain is a rollback, ids strictly fall, all carry one snapshot and were active in one environment,
      and the last is a root: bootstrap, or activated with the required number of approvals by people other than its author. */
  lemma {:induction false} ChainEndsInAReviewedRoot(k: Configurations, required: int, boot: set<nat>, id: nat)
    requires Provenance(k, required, boot) && id in k.rows && WasActive(k.rows[id])
    ensures var chain := Chain(k, required, boot, id);
      && (forall i | 0 <= i < |chain| :: SameOrigin(k, id, chain[i]))
      && (forall i | 0 <= i < |chain| - 1 :: k.rows[chain[i]].source == Some(chain[i + 1]) && chain[i + 1] < chain[i])
      && IsReviewedRoot(k, required, boot, chain[|chain| - 1])
    decreases id
  {
    assert Accounted(k, required, boot, id);
    if k.rows[id].source.Some? {
      ChainEndsInAReviewedRoot(k, required, boot, k.rows[id].source.value);
    }
  }

  /** c was active itself, in id's environment and with id's snapshot. */
  ghost predicate SameOrigin(k: Configurations, id: nat, c: nat)
    requires id in k.rows
  {
    && c in k.rows && WasActive(k.rows[c])
    && k.rows[c].snapshot == k.rows[id].snapshot && k.rows[c].environment == k.rows[id].environment
  }

  ghost predicate IsReviewedRoot(k: Configurations, required: int, boot: set<nat>, root: nat) {
    root in k.rows && k.rows[root].source == None && (root in boot || Reviewed(k, required, root))
  }

  /** Provenance over every run: whatever version was ever active, the last version of its chain was itself active, in the
      same environment with the same snapshot, and is a bootstrap version or was approved by the required number of distinct other people. */
  lemma SnapshotsAreReviewed(history: seq<Database>, g: Settings, requests: seq<Request>, n: nat, id: nat)
    requires IsRun(history, g, requests) && n < |history|
    requires id in history[n].configurations.rows && WasActive(history[n].configurations.rows[id])
    ensures var k, boot := history[n].configurations, history[0].configurations.rows.Keys;
      && Provenance(k, g.requiredApprovals, boot)
      && var chain := Chain(k, g.requiredApprovals, boot, id);
      && SameOrigin(k, id, chain[|chain| - 1]) && chain[|chain| - 1] <= id
      && IsReviewedRoot(k, g.requiredApprovals, boot, chain[|chain| - 1])
  {
    hide IsRun, Accounted, SameOrigin, IsReviewedRoot;
    AlwaysSound(history, g, requests, n);
    var k, boot := history[n].configurations, history[0].configurations.rows.Keys;
    ChainEndsInAReviewedRoot(k, g.requiredApprovals, boot, id);
    ChainFalls(k, g.requiredApprovals, boot, id, |Chain(k, g.requiredApprovals, boot, id)| - 1);
  }

  lemma {:induction false} ChainFalls(k: Configurations, required: int, boot: set<nat>, id: nat, i: nat)
    requires Provenance(k, required, boot) && id in k.rows && WasActive(k.rows[id])
    requires i < |Chain(k, required, boot, id)|
    ensures Chain(k, required, boot, id)[i] <= id
    decreases id
  {
    if i > 0 {
      assert Accounted(k, required, boot, id);
      ChainFalls(k, required, boot, k.rows[id].source.value, i - 1);
    }
  }
}
