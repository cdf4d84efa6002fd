/** `runIamAudit` of agents/workflow.ts: reset the audit transaction, run it
    through the engine of engine/stateMachine.ts, and report. On a rejection
    it overrides the state to `RolledBack` and makes sure the report carries a
    violation list and an applied list. */
module Workflow {
  import opened Outcomes
  import opened EngineTypes
  import opened Ledger
  import opened IamAuditor
  import Engine

  /** What `runIamAudit` resolves to: `{ state, context }`, plus `error` after a rejection. */
  datatype AuditReport = AuditReport(state: TxState, error: Option<Error>, context: IamContext)

  /** The repair applied to the context after a rejection: a missing violation
      list is recomputed from the policies (or the fixed policies when those are
      missing too); a missing applied list becomes empty. Lists already present
      are kept. */
  function Repaired(ctx: IamContext): (r: IamContext)
    ensures r.violations.Some? && r.applied.Some?
    ensures ctx.violations.Some? ==> r.violations == ctx.violations
    ensures ctx.violations.None? ==> r.violations == Some(Wildcards(ctx.policies.GetOr(FixedPolicies)))
    ensures ctx.violations.None? ==>
      forall p :: p in r.violations.value <==> p in ctx.policies.GetOr(FixedPolicies) && '*' in p.document
    ensures ctx.applied.Some? ==> r.applied == ctx.applied
    ensures ctx.applied.None? ==> r.applied == Some([])
    ensures r.policies == ctx.policies && r.proposed == ctx.proposed
  {
    ctx.(violations := if ctx.violations.Some? then ctx.violations else Some(Wildcards(ctx.policies.GetOr(FixedPolicies))),
         applied := if ctx.applied.Some? then ctx.applied else Some([]))
  }

  /** `runIamAudit()` on the audit transaction `tx`, logging to `ledger`. */
  method RunIamAudit(tx: Transaction<IamContext>, ledger: AuditLedger<IamContext>) returns (report: AuditReport)
    modifies tx`state, tx`context, ledger
    ensures var r := Engine.Execution(tx.id, tx.steps, EmptyContext);
      && ledger.entries == old(ledger.entries) + r.evidence
      && report.state == tx.state && report.context == tx.context
      && (r.outcome.Ok? <==> report.error.None?)
      && (r.outcome.Ok? ==> report == AuditReport(Committed, None, r.context))
      && (r.outcome.Thrown? ==> report == AuditReport(RolledBack, Some(r.outcome.error), Repaired(r.context)))
    ensures tx.steps == IamAuditSteps ==>
      report == AuditReport(RolledBack, Some(ViolationDetected), Flagged.(applied := Some([])))
  {
    tx.state := Pending;
    tx.context := EmptyContext;
    var engine := new Engine.TransactionEngine(tx, ledger);
    var result := engine.Execute();
    if result.Thrown? {
      tx.state := RolledBack;
      tx.context := Repaired(tx.context);
      report := AuditReport(tx.state, Some(result.error), tx.context);
    } else {
      report := AuditReport(tx.state, None, tx.context);
    }
    Engine.StepsSettle(tx.id, tx.steps, 0, EmptyContext);
    if tx.steps == IamAuditSteps {
      IamAuditRollsBack(tx.id);
    }
  }
}
