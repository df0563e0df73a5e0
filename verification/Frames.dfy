/** Which tables a request can touch. */
module Frames {
  import opened Tables
  import opened ControlPlane

  predicate CatalogRequest(op: Operation) {
    op.DoCreateService? || op.DoUpdateService? || op.DoCreateServiceVersion? || op.DoUpdateServiceVersion?
    || op.DoCreateUpstream? || op.DoUpdateUpstream?
  }

  predicate AssignmentRequest(op: Operation) {
    op.DoUpdatePortStatus? || op.DoAllocateListener? || op.DoUpdateListener? || op.DoUpdateListenerPolicies?
  }

  predicate AccessRequest(op: Operation) {
    op.DoCreatePermission? || op.DoDeletePermission? || op.DoCreateConsumer? || op.DoUpdateConsumer? || op.DoDeleteConsumer?
    || op.DoIssueKey? || op.DoRotateKey? || op.DoRevokeKey?
  }

  predicate ConfigurationRequest(op: Operation) {
    op.DoCreateConfiguration? || op.DoValidateConfiguration? || op.DoApproveConfiguration? || op.DoActivateConfiguration?
    || op.DoRollbackConfiguration? || op.SkipVersionIds?
  }

  lemma EveryRequestHasAKind(op: Operation)
    ensures CatalogRequest(op) || AssignmentRequest(op) || AccessRequest(op) || ConfigurationRequest(op)
  {
  }

  lemma CatalogFrame(db: Database, g: Settings, r: Request)
    requires CatalogRequest(r.op)
    ensures Next(db, g, r) == db.(catalog := Next(db, g, r).catalog)
  {
    match r.op
    case DoCreateService(_, _) =>
    case DoUpdateService(_, _, _) =>
    case DoCreateServiceVersion(_, _, _, _, _, _) =>
    case DoUpdateServiceVersion(_, _, _, _, _, _, _) =>
    case DoCreateUpstream(_, _, _, _, _, _, _) =>
    case DoUpdateUpstream(_, _, _, _, _, _, _, _) =>
  }

  lemma AssignmentFrame(db: Database, g: Settings, r: Request)
    requires AssignmentRequest(r.op)
    ensures Next(db, g, r) == db.(assignments := Next(db, g, r).assignments)
  {
    match r.op
    case DoUpdatePortStatus(_, _) =>
    case DoAllocateListener(_, _) =>
    case DoUpdateListener(_, _, _) =>
    case DoUpdateListenerPolicies(_, _, _, _) =>
  }

  lemma AccessFrame(db: Database, g: Settings, r: Request)
    requires AccessRequest(r.op)
    ensures Next(db, g, r) == db.(access := Next(db, g, r).access)
  {
    match r.op
    case DoCreatePermission(_, _) =>
    case DoDeletePermission(_) =>
    case DoCreateConsumer(_, _, _) =>
    case DoUpdateConsumer(_, _, _, _) =>
    case DoDeleteConsumer(_) =>
    case DoIssueKey(_, _, _, _, _, _) =>
    case DoRotateKey(_, _, _) =>
    case DoRevokeKey(_) =>
  }

  lemma ConfigurationFrame(db: Database, g: Settings, r: Request)
    requires ConfigurationRequest(r.op)
    ensures var n := Next(db, g, r);
      n == db.(configurations := n.configurations, assignments := n.assignments)
    ensures !r.op.DoActivateConfiguration? ==> Next(db, g, r).assignments == db.assignments
  {
    match r.op
    case DoCreateConfiguration(_) =>
    case DoValidateConfiguration(_) =>
    case DoApproveConfiguration(_, _) =>
    case DoActivateConfiguration(_, _) =>
    case DoRollbackConfiguration(_, _) =>
    case SkipVersionIds(_) =>
  }
}
