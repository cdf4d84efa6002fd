/** The audit-evidence ledger the engines append to, as an in-memory append-only
    sequence. Database ids and timestamps are not modelled: an entry's position
    in the sequence is its chronological order. */
module Ledger {
  import opened Outcomes
  import opened EngineTypes

  datatype EvidenceType = Input | Output | Policy | Signature | Replay

  /** The payloads the engines record. */
  datatype EvidenceData<C> =
    | ContextData(context: C)                        // the starting context
    | PolicyData(step: string, policy: string)       // `{ step, policy }`
    | StepOutputData(step: string, context: C)       // `{ step, context }`
    | HaltData(error: Error, state: TxState)         // `{ error, state: 'Halted' }`
    | StateData(state: TxState)                      // `{ state }`
    | SignatureData(state: TxState, signature: string)

  datatype Evidence<C> = Evidence(
    transactionId: string,
    evidenceType: EvidenceType,
    data: EvidenceData<C>,
    version: string)

  const Version := "v1"
  const PolicyPlaceholder := "Policy evaluated: TODO"
  const CommitSignature := "TODO: sign transaction"
  const RollbackSignature := "TODO: sign rollback"

  function InputEntry<C>(id: string, context: C): Evidence<C> {
    Evidence(id, Input, ContextData(context), Version)
  }

  function PolicyEntry<C>(id: string, step: string): Evidence<C> {
    Evidence(id, Policy, PolicyData(step, PolicyPlaceholder), Version)
  }

  function StepOutputEntry<C>(id: string, step: string, context: C): Evidence<C> {
    Evidence(id, Output, StepOutputData(step, context), Version)
  }

  function HaltEntry<C>(id: string, error: Error): Evidence<C> {
    Evidence(id, Output, HaltData(error, Halted), Version)
  }

  function StateEntry<C>(id: string, state: TxState): Evidence<C> {
    Evidence(id, Output, StateData(state), Version)
  }

  function SignatureEntry<C>(id: string, state: TxState, signature: string): Evidence<C> {
    Evidence(id, Signature, SignatureData(state, signature), Version)
  }

  /** An `output` entry recording that step `step` completed. */
  ghost predicate IsStepOutput<C>(e: Evidence<C>, id: string, step: string) {
    e.transactionId == id && e.evidenceType == Output && e.data.StepOutputData? && e.data.step == step
  }

  /** The ledger: entries are only ever appended. */
  class AuditLedger<C> {
    var entries: seq<Evidence<C>>

    constructor ()
      ensures entries == []
    {
      entries := [];
    }

    method Append(entry: Evidence<C>)
      modifies this
      ensures entries == old(entries) + [entry]
    {
      entries := entries + [entry];
    }
  }
}
