/** The IAM policy auditor of agents/iamAuditor.ts: four steps over a shared
    context (enumerate the policies, flag those with a wildcard, propose a
    restriction per flagged policy, apply the proposals) and the transaction
    that runs them through the engine of engine/stateMachine.ts. */
module IamAuditor {
  import opened Outcomes
  import opened EngineTypes
  import Ledger
  import Engine

  datatype Policy = Policy(id: string, document: string)

  datatype Proposal = Proposal(id: string, action: string)

  /** The audit context; a field the steps have not written yet is `None`
      (JavaScript's `undefined`). */
  datatype IamContext = IamContext(
    policies: Option<seq<Policy>>,
    violations: Option<seq<Policy>>,
    proposed: Option<seq<Proposal>>,
    applied: Option<seq<Proposal>>)

  /** The context `{}` the audit starts from. */
  const EmptyContext := IamContext(None, None, None, None)

  /** The policies the enumeration step reports; nothing is read from a cloud account. */
  const Policy1 := Policy("policy1", "{\"Effect\":\"Allow\",\"Action\":\"*\"}")
  const Policy2 := Policy("policy2", "{\"Effect\":\"Allow\",\"Action\":\"s3:*\"}")
  const FixedPolicies := [Policy1, Policy2]

  const ViolationDetected: Error := "Policy violation detected"
  const RestrictAction := "restrict"

  /** What reading a field of `undefined` throws (`context.policies.filter`,
      `context.violations.map`). */
  const MissingFieldError: Error := "TypeError: Cannot read properties of undefined"

  /** The policies whose document contains `*`, in their original order. */
  function Wildcards(ps: seq<Policy>): (r: seq<Policy>)
    ensures |r| <= |ps|
    ensures forall p :: p in r <==> p in ps && '*' in p.document
  {
    if ps == [] then []
    else (if '*' in ps[0].document then [ps[0]] else []) + Wildcards(ps[1..])
  }

  /** Filtering distributes over concatenation, so it keeps relative order. */
  lemma {:induction false} WildcardsAppend(a: seq<Policy>, b: seq<Policy>)
    ensures Wildcards(a + b) == Wildcards(a) + Wildcards(b)
    decreases |a|
  {
    if a == [] {
      assert a + b == b;
    } else {
      assert (a + b)[1..] == a[1..] + b;
      WildcardsAppend(a[1..], b);
    }
  }

  /** One `restrict` proposal per violation, for the same policy id, in order. */
  function Restrictions(vs: seq<Policy>): (r: seq<Proposal>)
    ensures |r| == |vs|
    ensures forall i :: 0 <= i < |vs| ==> r[i].id == vs[i].id && r[i].action == RestrictAction
  {
    if vs == [] then [] else [Proposal(vs[0].id, RestrictAction)] + Restrictions(vs[1..])
  }

  // ---------------------------------------------------------------------------
  // The steps' `execute` and `compensate`

  /** `enumeratePolicies.execute`: sets the policy list and never throws. */
  function Enumerate(ctx: IamContext): (r: StepResult<IamContext>)
    ensures r.Done? && r.context.policies == Some(FixedPolicies)
    ensures r.context.(policies := ctx.policies) == ctx
  {
    Done(ctx.(policies := Some(FixedPolicies)))
  }

  /** `validatePolicies.execute`: records the violations, then throws if there is
      any; without a policy list it throws before recording anything. */
  function Validate(ctx: IamContext): (r: StepResult<IamContext>)
    ensures r.Threw? <==> ctx.policies.None? || exists p :: p in ctx.policies.value && '*' in p.document
    ensures ctx.policies.None? ==> r == Threw(ctx, MissingFieldError)
    ensures ctx.policies.Some? ==>
      && r.context.violations.Some?
      && r.context.violations == Some(Wildcards(ctx.policies.value))
      && (forall p :: p in r.context.violations.value <==> p in ctx.policies.value && '*' in p.document)
      && r.context.(violations := ctx.violations) == ctx
      && (r.Threw? ==> r.error == ViolationDetected)
  {
    match ctx.policies
    case None => Threw(ctx, MissingFieldError)
    case Some(ps) =>
      var violations := Wildcards(ps);
      var next := ctx.(violations := Some(violations));
      if |violations| > 0 then
        assert violations[0] in violations;
        Threw(next, ViolationDetected)
      else Done(next)
  }

  /** `validatePolicies.compensate`: does nothing. */
  function KeepContext(ctx: IamContext): (r: StepResult<IamContext>)
    ensures r == Done(ctx)
  {
    Done(ctx)
  }

  /** `proposeChanges.execute`: a restriction per violation; without a violation
      list it throws. */
  function Propose(ctx: IamContext): (r: StepResult<IamContext>)
    ensures r.Threw? <==> ctx.violations.None?
    ensures r.Threw? ==> r == Threw(ctx, MissingFieldError)
    ensures r.Done? ==>
      && r.context.proposed.Some?
      && |r.context.proposed.value| == |ctx.violations.value|
      && (forall i :: 0 <= i < |ctx.violations.value| ==>
            r.context.proposed.value[i] == Proposal(ctx.violations.value[i].id, RestrictAction))
      && r.context.(proposed := ctx.proposed) == ctx
  {
    match ctx.violations
    case None => Threw(ctx, MissingFieldError)
    case Some(vs) => Done(ctx.(proposed := Some(Restrictions(vs))))
  }

  /** `applyChanges.execute`: the applied changes become the proposed ones
      (absent if nothing was proposed); never throws. */
  function Apply(ctx: IamContext): (r: StepResult<IamContext>)
    ensures r.Done? && r.context.applied == ctx.proposed
    ensures r.context.(applied := ctx.applied) == ctx
  {
    Done(ctx.(applied := ctx.proposed))
  }

  /** `applyChanges.compensate`: nothing is applied any more; never throws. */
  function Unapply(ctx: IamContext): (r: StepResult<IamContext>)
    ensures r.Done? && r.context.applied == Some([])
    ensures r.context.(applied := ctx.applied) == ctx
  {
    Done(ctx.(applied := Some([])))
  }

  // ---------------------------------------------------------------------------
  // The steps and the transaction

  const EnumeratePolicies := TransactionStep("enumerate", Pure, Enumerate, None, "enumerate-1")
  const ValidatePolicies := TransactionStep("validate", Reversible, Validate, Some(KeepContext), "validate-1")
  const ProposeChanges := TransactionStep("propose", Pure, Propose, None, "propose-1")
  const ApplyChanges := TransactionStep("apply", Reversible, Apply, Some(Unapply), "apply-1")

  const IamAuditId := "iam-audit-1"
  const IamAuditSteps := [EnumeratePolicies, ValidatePolicies, ProposeChanges, ApplyChanges]

  /** `iamAuditTransaction`: `Pending`, empty context, the four steps in order. */
  method NewIamAuditTransaction() returns (t: Transaction<IamContext>)
    ensures fresh(t)
    ensures t.id == IamAuditId && t.steps == IamAuditSteps && t.state == Pending && t.context == EmptyContext
  {
    t := new Transaction(IamAuditId, IamAuditSteps, Pending, EmptyContext);
  }

  /** Both fixed policies carry a wildcard, so both are violations. */
  lemma FixedPoliciesAllViolate()
    ensures Wildcards(FixedPolicies) == FixedPolicies
  {
    assert Policy1.document[28] == '*';
    assert Policy2.document[31] == '*';
    assert FixedPolicies[1..] == [Policy2];
    assert FixedPolicies[1..][1..] == [];
  }

  /** The context after enumeration and validation: both policies listed and flagged. */
  const Flagged := IamContext(Some(FixedPolicies), Some(FixedPolicies), None, None)

  /** Running the audit steps from `{}` (under any transaction id): enumeration completes, validation flags both
      policies and throws, so the engine rolls back over every step with a
      `compensate` (`apply`, which never ran, then `validate`); proposals are
      never made, nothing stays applied, the transaction ends `RolledBack`, the
      ledger gets `input`, `policy`/`output` for enumerate, `policy` for validate
      and the two rollback entries, and the validation error is rethrown. */
  lemma IamAuditRollsBack(id: string)
    ensures var r := Engine.Execution(id, IamAuditSteps, EmptyContext);
      && r.state == Some(RolledBack)
      && r.outcome == Thrown(ViolationDetected)
      && r.context == Flagged.(applied := Some([]))
      && r.events == [Executed(0), Executed(1), Compensated(3), Compensated(1)]
      && r.evidence == [
           Ledger.InputEntry(id, EmptyContext),
           Ledger.PolicyEntry(id, "enumerate"),
           Ledger.StepOutputEntry(id, "enumerate", EmptyContext.(policies := Some(FixedPolicies))),
           Ledger.PolicyEntry(id, "validate"),
           Ledger.StateEntry(id, RolledBack),
           Ledger.SignatureEntry(id, RolledBack, Ledger.RollbackSignature)]
  {
    FixedPoliciesAllViolate();
    var all := IamAuditSteps;
    var listed := EmptyContext.(policies := Some(FixedPolicies));
    assert all[0].execute(EmptyContext) == Done(listed);
    assert all[1].execute(listed) == Threw(Flagged, ViolationDetected);
    var final := Flagged.(applied := Some([]));
    assert Engine.Unwind(all, 0, final) == Engine.Unwound(final, None, []);
    assert Engine.Unwind(all, 1, final) == Engine.Unwound(final, None, []);
    assert Engine.Unwind(all, 2, final) == Engine.Unwound(final, None, [Compensated(1)]);
    assert Engine.Unwind(all, 3, final) == Engine.Unwound(final, None, [Compensated(1)]);
    assert Engine.Unwind(all, 4, Flagged) == Engine.Unwound(final, None, [Compensated(3), Compensated(1)]);
    var r1 := Engine.Steps(id, all, 1, listed);
    assert r1.events == [Executed(1), Compensated(3), Compensated(1)];
  }
}
