# Transactional AI control plane — a Dafny model of its transaction core

This project models the sequential transaction logic of the transactional AI
control plane:

- **The resumable saga** (`engine/Transaction.ts`, module `Saga`). A
  `Transaction` runs a workflow of named steps. Each step has a `do` and an
  `undo`. A step whose name is in the history loaded from storage is skipped and
  returns its cached result. A fresh step runs `do` and saves a checkpoint list.
  On the first error, `run` undoes the stacked steps in reverse. Each undo is
  isolated. `run` then clears the storage, empties the stack and rethrows the
  original error. The workflow callback is a sequence of step calls. A ghost
  trace records every `do` and `undo` invocation.
- **The storage adapter** (`engine/Storage.ts`, module `Storage`). A mutable map
  from transaction id to checkpoint list, with `save`, `load` and `clear`.
- **The evidence-emitting engine** (`engine/stateMachine.ts`, modules `Engine`,
  `EngineTypes` and `Ledger`). It runs a transaction's steps in order over a
  shared context. It appends `input`, `policy`, `output` and `signature`
  evidence to an append-only ledger. It commits, or on a failure rolls back or
  halts. Every failure is rethrown.
- **The console copy of that engine** (`ops-console/web/src/engine/stateMachine.ts`,
  module `ConsoleEngine`). It swallows every step failure, keeps going, never
  sets the state, and has a rollback that does nothing.
- **The IAM audit agent** (`agents/iamAuditor.ts` and `agents/workflow.ts`,
  modules `IamAuditor` and `Workflow`). Four concrete steps over a record-shaped
  context, the audit transaction, and `runIamAudit`, which resets, executes and
  repairs the result.

Each engine operation is a method on a class whose fields it updates. The
transaction's steps, state and context, the ledger's entries, the storage's map
and the saga's stack and history are all such fields. Each method is proved
against a pure specification function: `Saga.Advance`/`Saga.Drive`,
`Engine.Steps`/`Engine.Unwind`, and `ConsoleEngine.Sweeps`. The lemmas state the
source's promises about those functions.

Where the code and its own tests disagree, the model follows the code:

- `engine/stateMachine.ts:41` rethrows after a rollback.
  `engine/__tests__/stateMachine.test.ts:43-44` expects `execute` to return
  `'RolledBack'` instead. `Engine.CompensatedFailureIsRethrown` states what the
  code does.
- The checkpoint of an earlier step that ran fresh in the same run carries no
  result (`engine/Transaction.ts:87`). This is modelled as written;
  `Saga.SameRunResultDropped` and `Saga.ResumeAfterQuirkYieldsUndefined` state
  its consequence.

Calls into code outside the core become data:

- A saga step's `do` is an `Action`: it returns a result or throws.
- A saga step's `undo` is an `UndoBehaviour`: it returns or throws.
- An engine step's `execute` and `compensate` are total functions from the
  context to a `StepResult`. The step may change the context, then it either
  completes or throws.

## Model

| member | source | states |
|---|---|---|
| Storage.MemoryStorage.constructor | test/Transaction.test.ts:5-6 | a new store holds no transaction |
| Storage.MemoryStorage.Save | engine/Storage.ts:4 | the id's list is replaced whole by the saved list; every other id is unchanged |
| Storage.MemoryStorage.Load | engine/Storage.ts:5 | absent (null, not an error) exactly when the id was never saved or was cleared; otherwise exactly the saved list |
| Storage.MemoryStorage.Clear | engine/Storage.ts:6 | the id is gone afterwards, even if it was absent before; every other id is unchanged |
| Saga.Transaction.constructor | engine/Transaction.ts:33-38 | `cleanupOnSuccess` is true unless the option is given as false; empty stack and history |
| Saga.Transaction.LoadHistory | engine/Transaction.ts:42-49 | with storage, the history becomes the saved list for this id loaded in order; without storage, or with nothing saved, it is unchanged |
| Saga.LoadedKeys | engine/Transaction.ts:46 | loading adds exactly the saved names and keeps every other entry |
| Saga.LoadedLast | engine/Transaction.ts:46 | a loaded name maps to the result of the last saved entry with that name |
| Saga.LoadedFresh | engine/Transaction.ts:42-49 | a fresh transaction's history holds exactly the saved name-to-result pairs |
| Saga.Checkpoints | engine/Transaction.ts:84-91 | one `completed` entry per stack entry, in stack order; the entry of the step just run holds its fresh result, any other holds what the history holds for its name |
| Saga.Transaction.Step | engine/Transaction.ts:65-95 | a step in the history never invokes `do`, returns the cached result and still pushes an undo bound to it; a fresh step invokes `do` once and pushes its undo only when `do` returns, then saves the checkpoints |
| Saga.FreshStepCheckpoint | engine/Transaction.ts:84-91 | after a fresh step with storage, the saved list matches the stack entry by entry, all `completed`, and the new entry holds the fresh result |
| Saga.SameRunResultDropped | engine/Transaction.ts:87 | two fresh steps `a` then `b` save `a`'s entry without a result, although `a`'s undo is bound to its result |
| Saga.ResumeAfterQuirkYieldsUndefined | engine/Transaction.ts:85-91 | resuming from that checkpoint maps `a` to no result and `b` to its result |
| Saga.FirstFailure | engine/Transaction.ts:52-53 | the workflow stops at the first call that is not in the history and whose `do` throws; every earlier call succeeds |
| Saga.Transaction.Perform | engine/Transaction.ts:53 | the calls are made in order up to and including the first failing one, whose error is returned; no later call runs |
| Saga.DriveTrace | engine/Transaction.ts:66-78 | `do` is invoked exactly for the calls absent from the history, once each, in call order |
| Saga.InvocationsSkipHistory | engine/Transaction.ts:67-74 | no `do` invocation is for a name in the history |
| Saga.DriveStack | engine/Transaction.ts:72-81 | without failures, each call pushes one entry in call order, bound to its cached or fresh result |
| Saga.DriveStore | engine/Transaction.ts:84-92 | steps save only under the transaction's own id, and nothing without storage |
| Saga.ReversedIndex | engine/Transaction.ts:98 | the reversed copy holds the stack's entries last to first |
| Saga.UndoWalkIndex | engine/Transaction.ts:99-102 | the walk invokes each entry's undo once, in walk order, whether or not it throws |
| Saga.RollbackIsLifo | engine/Transaction.ts:98-103 | rollback invokes every stacked undo exactly once in strict reverse order, each bound to its argument; a throwing undo does not stop the rest |
| Saga.Transaction.Rollback | engine/Transaction.ts:97-107 | the trace gains exactly the LIFO undo walk; storage for the id is cleared; the stack is empty |
| Saga.Transaction.Run | engine/Transaction.ts:40-63 | on success the stack and trace are the workflow's, and storage is cleared iff `cleanupOnSuccess`, otherwise the last checkpoint list is kept; on the first failure the trace ends with that `do` and the LIFO undo walk, the stack is emptied, storage for the id is cleared, and the step's own error is rethrown |
| Saga.ResumeSkipsCheckpointedStep | test/Transaction.test.ts:87-112 | with `step-1` checkpointed, only `step-2` invokes `do`, and the stack holds `step-1` bound to the cached result |
| Saga.ResumeThenFailureUndoesSkippedStep | engine/Transaction.ts:67-73 | a skipped step's undo still runs, bound to the cached result, when a later step fails |
| Saga.FailureUndoesCompletedStepsOnly | engine/Transaction.test.ts:33-58 | `do 1`, `do 2 (fail)`, `undo 1`: the failing step is never undone, and its error is the one rethrown |
| Saga.DoubleFaultKeepsOriginalError | engine/Transaction.test.ts:61-84 | a throwing undo is still invoked, and the error rethrown is the original step's |
| Saga.HappyPathRun | engine/Transaction.test.ts:15-31 | through `run` on a new transaction without storage: both `do`s run in order, no undo runs, and `run` fulfils |
| Saga.RollbackRun | engine/Transaction.test.ts:33-58 | through `run`: `do 1`, `do 2`, `undo 1` in that order, and `run` rejects with the failing step's error |
| Saga.DoubleFaultRun | engine/Transaction.test.ts:61-84 | through `run`: the throwing undo of step 1 is invoked and `run` rejects with step 2's original error |
| Saga.ResumeRun | test/Transaction.test.ts:87-113 | through `run` with `step-1` saved beforehand: only `step-2`'s `do` runs, `run` fulfils, and `load` then yields null |
| Saga.ResumeFailureRun | engine/Transaction.ts:40-63 | through `run` with `A` saved beforehand and `B` throwing: `B`'s `do` runs, `A`'s undo runs bound to the cached result, `run` rejects with `B`'s error, and `load` then yields null |
| EngineTypes.Transaction.constructor | ops-console/web/src/engine/types.ts:11-17 | a transaction holds exactly the given id, steps, state and context |
| Ledger.AuditLedger.constructor | engine/auditEvidence.ts:1-3 | the model's own fresh ledger holds no entries; the database the client opens may already hold some, and every engine contract is stated relative to the entries already present |
| Ledger.AuditLedger.Append | engine/auditEvidence.ts:7-23 | the entry is added at the end; earlier entries are unchanged |
| Engine.TransactionEngine.constructor | engine/stateMachine.ts:7-9 | the engine wraps the given transaction and ledger |
| Engine.TransactionEngine.Execute | engine/stateMachine.ts:11-71 | the ledger gains exactly the specified evidence, the context, state and invocations are the specified ones, and the result is the specified return value or rethrown error |
| Engine.TransactionEngine.RunSteps | engine/stateMachine.ts:19-70 | the step loop after the `input` entry matches its specification |
| Engine.TransactionEngine.RunStep | engine/stateMachine.ts:20-53 | one step: a `policy` entry, one `execute`, then an `output` entry naming the step, or the failure branch |
| Engine.TransactionEngine.Abort | engine/stateMachine.ts:37-52 | with `compensate`: roll back and rethrow; without: `Halted`, one `output` entry with the error, rethrow |
| Engine.TransactionEngine.Commit | engine/stateMachine.ts:55-70 | state `Committed`, then `output{Committed}` and `signature` entries, and `Committed` returned |
| Engine.TransactionEngine.Rollback | engine/stateMachine.ts:73-95 | compensations as specified; the rollback entries and `RolledBack` only when none throws |
| Engine.TransactionEngine.Compensations | engine/stateMachine.ts:75-79 | the reverse walk over all steps calls each `compensate` present on the shared context; the first throw ends it |
| Engine.UnwindDescending | engine/stateMachine.ts:75-79 | only steps that have a `compensate` are compensated, each at most once, in strictly decreasing definition order |
| Engine.UnwindComplete | engine/stateMachine.ts:75-79 | when no compensation throws, every step that has a `compensate` is compensated: steps that never ran too |
| Engine.UnwindAborted | engine/stateMachine.ts:75-79 | with no isolation, a throwing compensation is the last one invoked: it is the compensation of that step applied to the context the walk had reached, and its error and context are the walk's; every step above it with a `compensate` was compensated first |
| Engine.StepsPrefix | engine/stateMachine.ts:19-36 | while steps complete, each is executed once, in order, with exactly one `policy` then one `output` entry naming it |
| Engine.StepsSettle | engine/stateMachine.ts:41-70 | `execute` fulfils only by committing: a fulfilled run returns and records `Committed`; a rejected one never commits |
| Engine.ExecutionCommits | engine/stateMachine.ts:13-70 | all steps complete: first entry `input` with the starting context, a `policy`/`output` pair per step, last two `output{Committed}` then `signature`; 2n+3 entries; `Committed` returned; nothing compensated |
| Engine.ExecutionHalts | engine/stateMachine.ts:42-51 | step k fails without `compensate`: `Halted`, last entry `output` with the error and `Halted`, nothing compensated, no later step executed, the error rethrown |
| Engine.ExecutionRollsBack | engine/stateMachine.ts:37-41 | step k fails with `compensate`: no later step executed; the rollback walk over all steps follows; `RolledBack` and the two rollback entries if no compensation throws; the error is rethrown |
| Engine.CompensatedFailureIsRethrown | engine/stateMachine.ts:38-41 | a single step that fails and compensates cleanly ends `RolledBack` but `execute` rejects with the step's error |
| ConsoleEngine.ConsoleTransactionEngine.constructor | ops-console/web/src/engine/stateMachine.ts:7-9 | the engine wraps the given transaction and ledger |
| ConsoleEngine.ConsoleTransactionEngine.Execute | ops-console/web/src/engine/stateMachine.ts:11-45 | the ledger, context and invocations are the console's specified ones; the state is unchanged and returned as it was on entry |
| ConsoleEngine.ConsoleTransactionEngine.RunSteps | ops-console/web/src/engine/stateMachine.ts:19-43 | the swallowing step loop matches its specification |
| ConsoleEngine.ConsoleTransactionEngine.RunStep | ops-console/web/src/engine/stateMachine.ts:20-42 | one step: a `policy` entry, one `execute`, and an `output` entry only if it completed |
| ConsoleEngine.ConsoleTransactionEngine.Rollback | ops-console/web/src/engine/stateMachine.ts:47-49 | changes nothing |
| ConsoleEngine.SweepsAttemptEveryStep | ops-console/web/src/engine/stateMachine.ts:19-42 | every step is executed exactly once, in definition order, whatever earlier steps threw; nothing is compensated |
| ConsoleEngine.SweepsEvidenceCounts | ops-console/web/src/engine/stateMachine.ts:22-36 | one `policy` entry per step, one `output` entry per completed step, no `signature` entry |
| ConsoleEngine.ConsoleExecutionCounts | ops-console/web/src/engine/stateMachine.ts:13-36 | the first entry is `input` with the context; the ledger grows by 1 + n + (completed steps) |
| ConsoleEngine.ConsoleMatchesEngineOnSuccess | ops-console/web/src/engine/stateMachine.ts:11-45 | when every step completes, the console logs what engine/stateMachine.ts logs, minus its two commit entries, and leaves the same context |
| IamAuditor.Enumerate | agents/iamAuditor.ts:6-11 | `policies` becomes exactly `policy1` then `policy2`; nothing else changes; never throws |
| IamAuditor.Wildcards | agents/iamAuditor.ts:19 | exactly the policies whose document contains `*` |
| IamAuditor.WildcardsAppend | agents/iamAuditor.ts:19 | the filter keeps the policies' relative order |
| IamAuditor.Validate | agents/iamAuditor.ts:18-22 | `violations` becomes exactly the wildcard policies in their original order (`Wildcards`); throws `Policy violation detected` iff there is one; without a policy list, throws before setting anything |
| IamAuditor.KeepContext | agents/iamAuditor.ts:23 | the compensation of `validate` leaves the context unchanged |
| IamAuditor.Restrictions | agents/iamAuditor.ts:31 | one `restrict` proposal per violation, same id, same order |
| IamAuditor.Propose | agents/iamAuditor.ts:30-32 | `proposed` becomes one `restrict` per violation; without a violation list it throws |
| IamAuditor.Apply | agents/iamAuditor.ts:39-41 | `applied` becomes `proposed`; never throws |
| IamAuditor.Unapply | agents/iamAuditor.ts:42-44 | `applied` becomes empty; never throws |
| IamAuditor.NewIamAuditTransaction | agents/iamAuditor.ts:48-54 | id `iam-audit-1`, steps enumerate, validate, propose, apply; `Pending`; empty context |
| IamAuditor.FixedPoliciesAllViolate | agents/iamAuditor.ts:7-10 | both fixed documents contain `*`, so both are violations |
| IamAuditor.IamAuditRollsBack | agents/__tests__/iamAuditor.test.ts:4-11 | end to end with the engine: `RolledBack`, two violations, nothing proposed, `applied` empty because `apply`'s compensation runs although `apply` never executed, the validation error rethrown, and the exact ledger |
| Workflow.Repaired | agents/workflow.ts:17-29 | both lists present afterwards; a missing violation list is exactly the order-preserving wildcard filter (`Wildcards`) of the policies, or of the fixed policies when those are missing; a missing applied list is empty; present lists are kept |
| Workflow.RunIamAudit | agents/workflow.ts:5-32 | state and context are reset first; success returns the engine's state and context; a rejection returns `RolledBack`, the error and the repaired context; for the audit's own steps the report is `RolledBack` with both policies flagged and nothing applied |

## Left out

- Asynchrony: every `await` is a sequential call.
- Console output: `console.log` and `console.error`, and the messages they print.
- Database ids and timestamps of evidence entries. An entry's position in the ledger is its order.
- The Prisma client behind the ledger, and the file and Redis storage adapters. A ledger append and every storage call always succeed in the model, and Redis TTL expiry is not modelled.
- A corrupt file that FileStorage reads back as missing is not modelled. The storage map holds only well-formed lists.
- Replay and drift detection, whose implementations are not part of this model.
- The `logs` field of a transaction. No core operation reads or writes it.
- The saga workflow callback is a fixed sequence of step calls that stops at the first failing step. A workflow that chooses its next step from an earlier result, that throws outside a step, or that catches a step's error and goes on, is not modelled.
- The engine's `idempotencyKey` and step `type` are carried but never consulted, as in the source. Policy evaluation is the `Policy evaluated: TODO` placeholder.
- JavaScript's error text for reading a field of `undefined` is represented by one constant message.
- The halt entry (`engine/stateMachine.ts:48`) records `String(err)`, which for an `Error` object is `"Error: <message>"`. The model's `HaltEntry` holds the error itself, since only the message of an error is modelled.
- Step contexts and results are opaque values, except in the IAM agent, where the context is a record of optional lists.
