/** Who made, approved and published a configuration, by the requests of the run
    and not by what the rows say of themselves. */
module Authorship {
  import opened Prelude
  import opened Tables
  import opened ControlPlane
  import opened TableRules
  import opened LastWrites
  import opened ConfigurationLifecycle

  /** Request i, of this actor, made the draft. */
  ghost predicate Drafted(history: seq<Database>, g: Settings, requests: seq<Request>, i: nat, id: nat, actor: string)
    requires |history| == |requests| + 1
  {
    && i < |requests| && requests[i].op == DoCreateConfiguration(actor) && Succeeds(history[i], g, requests[i])
    && id == history[i].configurations.nextId
  }

  /** Request j, of this actor, approved the version. */
  ghost predicate Approved(history: seq<Database>, g: Settings, requests: seq<Request>, j: nat, id: nat, actor: string)
    requires |history| == |requests| + 1
  {
    j < |requests| && requests[j].op == DoApproveConfiguration(id, actor) && Succeeds(history[j], g, requests[j])
  }

  lemma NothingApprovedAtFirst(db: Database, id: nat, actor: string)
    requires FreshSchema(db)
    ensures !Present(db, AnApproval(id, actor))
  {
  }

  lemma ApproversArePresent(db: Database, id: nat, actor: string)
    ensures actor in Approvers(db.configurations, id) <==> Present(db, AnApproval(id, actor))
  {
    if (id, actor) in db.configurations.approvals { assert (id, actor).1 in Approvers(db.configurations, id); }
  }

  /** A version's approvers are exactly the actors whose approval requests succeeded, and approvals are never lost. */
  lemma ApproversAreWhoApproved(history: seq<Database>, g: Settings, requests: seq<Request>, n: nat, id: nat, actor: string)
    requires Sane(g) && IsRun(history, g, requests) && |history| == |requests| + 1 && n < |history|
    ensures actor in Approvers(history[n].configurations, id)
      <==> exists j :: 0 <= j < n && Approved(history, g, requests, j, id, actor)
  {
    hide IsRun, Sane, FreshSchema, Succeeds;
    var p := AnApproval(id, actor);
    RunStarts(history, g, requests);
    EverythingIsAsLastWritten(history, g, requests, n, p);
    NothingApprovedAtFirst(history[0], id, actor);
    ApproversArePresent(history[n], id, actor);
    if Present(history[n], p) {
      var i: nat :| LastWrite(history, g, requests, i, n, p);
      assert Approved(history, g, requests, i, id, actor);
    }
    if j: nat :| j < n && Approved(history, g, requests, j, id, actor) { ApprovalStays(history, g, requests, j, n, id, actor); }
  }

  lemma ApprovalStays(history: seq<Database>, g: Settings, requests: seq<Request>, j: nat, n: nat, id: nat, actor: string)
    requires Sane(g) && IsRun(history, g, requests) && |history| == |requests| + 1 && j < n < |history|
    requires Approved(history, g, requests, j, id, actor)
    ensures actor in Approvers(history[n].configurations, id)
  {
    hide IsRun, Sane, Succeeds, StepMeans;
    RunStep(history, g, requests, j + 1);
    RunFits(history, g, requests, j);
    ApprovalStep(history[j], g, requests[j], id, actor);
    ApprovalWritten(history[j], g, requests[j], history[j + 1], id, actor);
    AlwaysForward(history, g, requests, j + 1, n);
    ApproversArePresent(history[n], id, actor);
  }

  lemma ApprovalWritten(db: Database, g: Settings, r: Request, n: Database, id: nat, actor: string)
    requires StepMeans(db, g, r, n, AnApproval(id, actor)) && r.op == DoApproveConfiguration(id, actor) && Succeeds(db, g, r)
    ensures (id, actor) in n.configurations.approvals
  {
    hide Succeeds;
  }

  /** The draft a request made is its actor's for good, and that actor never is among its approvers. */
  lemma AuthorsNeverApprove(
    history: seq<Database>, g: Settings, requests: seq<Request>, i: nat, n: nat, id: nat, actor: string)
    requires Sane(g) && IsRun(history, g, requests) && |history| == |requests| + 1 && i < n < |history|
    requires Drafted(history, g, requests, i, id, actor)
    ensures id in history[n].configurations.rows && history[n].configurations.rows[id].createdBy == actor
    ensures actor !in Approvers(history[n].configurations, id)
  {
    hide IsRun, Sane, Succeeds, StepMeans, Capture;
    RunStep(history, g, requests, i + 1);
    RunFits(history, g, requests, i);
    VersionRowStep(history[i], g, requests[i], id);
    DraftWritten(history[i], g, requests[i], history[i + 1], id, actor);
    AlwaysForward(history, g, requests, i + 1, n);
    AlwaysSound(history, g, requests, n);
    ApproversArePresent(history[n], id, actor);
  }

  lemma DraftWritten(db: Database, g: Settings, r: Request, n: Database, id: nat, actor: string)
    requires StepMeans(db, g, r, n, AConfiguration(id)) && r.op == DoCreateConfiguration(actor) && Succeeds(db, g, r)
    requires id == db.configurations.nextId
    ensures id in n.configurations.rows && n.configurations.rows[id].createdBy == actor
  {
    hide Succeeds, Capture;
  }

  /** Every version that is not a rollback and was not there from the start was drafted by a request of the run. */
  lemma RootsWereDrafted(history: seq<Database>, g: Settings, requests: seq<Request>, n: nat, id: nat) returns (i: nat)
    requires Sane(g) && IsRun(history, g, requests) && |history| == |requests| + 1 && n < |history|
    requires id in history[n].configurations.rows && history[n].configurations.rows[id].source == None
    requires id !in history[0].configurations.rows
    ensures i < n && requests[i].op.DoCreateConfiguration? && Drafted(history, g, requests, i, id, requests[i].op.actor)
  {
    hide IsRun, Sane, Succeeds, Capture;
    var p := AConfiguration(id);
    EverythingIsAsLastWritten(history, g, requests, n, p);
    i :| LastWrite(history, g, requests, i, n, p);
  }

  /** Provenance by requests: the version at the end of the chain of whatever was ever active is a bootstrap version, or some
      request of the run drafted it, and at least the required number of actors, none of them the one who drafted it, approved it
      by requests of their own. */
  lemma SnapshotsWereReviewedByOthers(history: seq<Database>, g: Settings, requests: seq<Request>, n: nat, id: nat)
    returns (root: nat, i: nat)
    requires Sane(g) && IsRun(history, g, requests) && |history| == |requests| + 1 && n < |history|
    requires id in history[n].configurations.rows && WasActive(history[n].configurations.rows[id])
    ensures SameOrigin(history[n].configurations, id, root)
    ensures root in history[0].configurations.rows || ReviewedByOthers(history, g, requests, i, n, root)
  {
    hide IsRun, Sane, Accounted, SameOrigin, Drafted, Approved, Approvers;
    var k, boot, required := history[n].configurations, history[0].configurations.rows.Keys, g.requiredApprovals;
    SnapshotsAreReviewed(history, g, requests, n, id);
    var chain := Chain(k, required, boot, id);
    root := chain[|chain| - 1];
    i := 0;
    OriginIsARow(k, id, root);
    if root !in boot {
      i := RootsWereDrafted(history, g, requests, n, root);
      AuthorsNeverApprove(history, g, requests, i, n, root, requests[i].op.actor);
      forall a | a in Approvers(k, root) ensures exists j :: 0 <= j < n && Approved(history, g, requests, j, root, a) {
        ApproversAreWhoApproved(history, g, requests, n, root, a);
      }
    }
  }

  lemma OriginIsARow(k: Configurations, id: nat, c: nat)
    requires id in k.rows && SameOrigin(k, id, c)
    ensures c in k.rows
  {
  }

  /** Request i drafted the version, and enough others approved it. */
  ghost predicate ReviewedByOthers(history: seq<Database>, g: Settings, requests: seq<Request>, i: nat, n: nat, root: nat)
    requires |history| == |requests| + 1 && n < |history|
  {
    && i < n && requests[i].op.DoCreateConfiguration? && Drafted(history, g, requests, i, root, requests[i].op.actor)
    && |Approvers(history[n].configurations, root)| >= g.requiredApprovals
    && forall a | a in Approvers(history[n].configurations, root) ::
      a != requests[i].op.actor && exists j :: 0 <= j < n && Approved(history, g, requests, j, root, a)
  }
}
