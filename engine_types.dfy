/** The transaction shapes of the evidence-emitting engines (ops-console/web/src/engine/types.ts,
    which engine/stateMachine.ts imports under the same names). */
module EngineTypes {
  import opened Outcomes

  datatype TxState = Pending | Committed | RolledBack | Halted

  datatype StepType = Pure | Reversible | Irreversible

  /** What a step's `execute` or `compensate` does to the shared context: it may
      change the context and then either complete or throw. */
  datatype StepResult<C> = Done(context: C) | Threw(context: C, error: Error)

  datatype TransactionStep<!C> = TransactionStep(
    id: string,
    kind: StepType,
    execute: C -> StepResult<C>,
    compensate: Option<C -> StepResult<C>>,
    idempotencyKey: string)

  /** A transaction: its state and context are updated in place by the engine. */
  class Transaction<C> {
    const id: string
    var steps: seq<TransactionStep<C>>
    var state: TxState
    var context: C

    constructor (id: string, steps: seq<TransactionStep<C>>, state: TxState, context: C)
      ensures this.id == id && this.steps == steps && this.state == state && this.context == context
    {
      this.id := id;
      this.steps := steps;
      this.state := state;
      this.context := context;
    }
  }

  /** What an engine invokes: the `execute` or the `compensate` of the step at an index. */
  datatype Event = Executed(step: nat) | Compensated(step: nat)
}
