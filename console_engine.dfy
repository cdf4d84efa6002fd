/** The copy of the engine in ops-console/web/src/engine/stateMachine.ts.

    Its `execute` logs the same `input`, `policy` and per-step `output` entries as
    engine/stateMachine.ts, but a step that throws is swallowed: with a
    `compensate` it calls `rollback`, which does nothing, and either way the loop
    goes on with the next step. Nothing sets the state, nothing is logged at the
    end, and `execute` returns the state the transaction already had. */
module ConsoleEngine {
  import opened Outcomes
  import opened EngineTypes
  import opened Ledger
  import Engine

  /** The effect of the console's step loop: context, entries appended, steps invoked. */
  datatype Sweep<C> = Sweep(context: C, evidence: seq<Evidence<C>>, events: seq<Event>)

  /** The entries the console logs for one step: `policy`, then `output` only if
      the step completed. */
  function StepEntries<C>(id: string, s: TransactionStep<C>, res: StepResult<C>): seq<Evidence<C>> {
    if res.Done? then [PolicyEntry(id, s.id), StepOutputEntry(id, s.id, res.context)]
    else [PolicyEntry(id, s.id)]
  }

  /** The console's step loop from step `i` on: every step is attempted. */
  function Sweeps<C>(id: string, all: seq<TransactionStep<C>>, i: nat, ctx: C): Sweep<C>
    requires i <= |all|
    decreases |all| - i
  {
    if i == |all| then Sweep(ctx, [], [])
    else
      var res := all[i].execute(ctx);
      var rest := Sweeps(id, all, i + 1, res.context);
      PrependSweep(StepEntries(id, all[i], res), [Executed(i)], rest)
  }

  /** `s` preceded by the entries `evidence` and the invocations `events`. */
  function PrependSweep<C>(evidence: seq<Evidence<C>>, events: seq<Event>, s: Sweep<C>): (a: Sweep<C>)
    ensures a.context == s.context
    ensures |a.evidence| == |evidence| + |s.evidence| && |a.events| == |events| + |s.events|
  {
    s.(evidence := evidence + s.evidence, events := events + s.events)
  }

  /** The console's `execute`: the `input` entry, then the loop. */
  function ConsoleExecution<C>(id: string, all: seq<TransactionStep<C>>, ctx: C): Sweep<C> {
    PrependSweep([InputEntry(id, ctx)], [], Sweeps(id, all, 0, ctx))
  }

  /** Reference: how many of steps `i`.. complete, each run on the context the
      previous one left. */
  function Completions<C>(all: seq<TransactionStep<C>>, i: nat, ctx: C): nat
    requires i <= |all|
    decreases |all| - i
  {
    if i == |all| then 0
    else
      var res := all[i].execute(ctx);
      (if res.Done? then 1 else 0) + Completions(all, i + 1, res.context)
  }

  /** The number of entries of `ev` of type `t`. */
  function CountOf<C>(ev: seq<Evidence<C>>, t: EvidenceType): (n: nat)
    ensures n <= |ev|
  {
    if ev == [] then 0
    else (if ev[0].evidenceType == t then 1 else 0) + CountOf(ev[1..], t)
  }

  lemma {:induction false} CountOfAppend<C>(a: seq<Evidence<C>>, b: seq<Evidence<C>>, t: EvidenceType)
    ensures CountOf(a + b, t) == CountOf(a, t) + CountOf(b, t)
    decreases |a|
  {
    if a == [] {
      assert a + b == b;
    } else {
      assert (a + b)[1..] == a[1..] + b;
      CountOfAppend(a[1..], b, t);
    }
  }

  /** Every step from `i` on is executed exactly once, in definition order, and
      none is ever compensated, whatever the steps throw. */
  lemma {:induction false} SweepsAttemptEveryStep<C>(id: string, all: seq<TransactionStep<C>>, i: nat, ctx: C)
    requires i <= |all|
    ensures var s := Sweeps(id, all, i, ctx);
      && |s.events| == |all| - i
      && forall j :: 0 <= j < |s.events| ==> s.events[j] == Executed(i + j)
    decreases |all| - i
  {
    if i < |all| {
      var res := all[i].execute(ctx);
      SweepsAttemptEveryStep(id, all, i + 1, res.context);
      var rest := Sweeps(id, all, i + 1, res.context);
      assert Sweeps(id, all, i, ctx).events == [Executed(i)] + rest.events;
    }
  }

  /** The loop logs one `policy` entry per step, one `output` entry per step that
      completes, and never an `input`, `signature` or `replay` entry. */
  lemma {:induction false} SweepsEvidenceCounts<C>(id: string, all: seq<TransactionStep<C>>, i: nat, ctx: C)
    requires i <= |all|
    ensures var ev := Sweeps(id, all, i, ctx).evidence;
      && CountOf(ev, Policy) == |all| - i
      && CountOf(ev, Output) == Completions(all, i, ctx)
      && CountOf(ev, Input) == 0
      && CountOf(ev, Signature) == 0
      && CountOf(ev, Replay) == 0
      && |ev| == (|all| - i) + Completions(all, i, ctx)
    decreases |all| - i
  {
    if i < |all| {
      var res := all[i].execute(ctx);
      SweepsEvidenceCounts(id, all, i + 1, res.context);
      var rest := Sweeps(id, all, i + 1, res.context);
      var head := StepEntries(id, all[i], res);
      assert Sweeps(id, all, i, ctx).evidence == head + rest.evidence;
      forall t ensures CountOf(head + rest.evidence, t) == CountOf(head, t) + CountOf(rest.evidence, t) {
        CountOfAppend(head, rest.evidence, t);
      }
      if res.Done? {
        assert head[1..] == [StepOutputEntry(id, all[i].id, res.context)];
        assert head[1..][1..] == [];
      } else {
        assert head[1..] == [];
      }
    }
  }

  /** The console's `execute` logs `input` with the starting context first, and
      grows the ledger by exactly 1 + n + (number of steps that complete). */
  lemma ConsoleExecutionCounts<C>(id: string, all: seq<TransactionStep<C>>, ctx: C)
    ensures var ev := ConsoleExecution(id, all, ctx).evidence;
      && ev[0] == InputEntry(id, ctx)
      && |ev| == 1 + |all| + Completions(all, 0, ctx)
      && CountOf(ev, Input) == 1
      && CountOf(ev, Policy) == |all|
      && CountOf(ev, Output) == Completions(all, 0, ctx)
      && CountOf(ev, Signature) == 0
  {
    var rest := Sweeps(id, all, 0, ctx).evidence;
    SweepsEvidenceCounts(id, all, 0, ctx);
    assert ([InputEntry(id, ctx)] + rest)[1..] == rest;
  }

  /** When every step completes, the console logs exactly what the engine in
      engine/stateMachine.ts logs, except the engine's final
      `output{Committed}` and `signature` entries, and leaves the same context. */
  lemma {:induction false} ConsoleMatchesEngineOnSuccess<C>(id: string, all: seq<TransactionStep<C>>, i: nat, ctx: C)
    requires i <= |all| && Engine.Reach(all, i, |all|, ctx).Some?
    ensures var s := Sweeps(id, all, i, ctx);
      var r := Engine.Steps(id, all, i, ctx);
      && r.evidence == s.evidence + [StateEntry(id, Committed), SignatureEntry(id, Committed, CommitSignature)]
      && r.events == s.events
      && r.context == s.context
    decreases |all| - i
  {
    if i < |all| {
      var res := all[i].execute(ctx);
      ConsoleMatchesEngineOnSuccess(id, all, i + 1, res.context);
    }
  }

  lemma SweepsStep<C>(id: string, all: seq<TransactionStep<C>>, i: nat, ctx: C)
    requires i < |all|
    ensures var res := all[i].execute(ctx);
      Sweeps(id, all, i, ctx) == PrependSweep(StepEntries(id, all[i], res), [Executed(i)], Sweeps(id, all, i + 1, res.context))
  {
  }

  /** Prepending twice is prepending the concatenations. */
  lemma PrependSweepTwice<C>(e1: seq<Evidence<C>>, v1: seq<Event>, e2: seq<Evidence<C>>, v2: seq<Event>, s: Sweep<C>)
    ensures PrependSweep(e1, v1, PrependSweep(e2, v2, s)) == PrependSweep(e1 + e2, v1 + v2, s)
  {
  }

  class ConsoleTransactionEngine<C> {
    const transaction: Transaction<C>
    const ledger: AuditLedger<C>
    ghost var events: seq<Event>

    constructor (transaction: Transaction<C>, ledger: AuditLedger<C>)
      ensures this.transaction == transaction && this.ledger == ledger && events == []
    {
      this.transaction := transaction;
      this.ledger := ledger;
      events := [];
    }

    /** `execute()`: attempt every step, log evidence, swallow failures, and
        return the state as it was. */
    method Execute() returns (state: TxState)
      modifies this`events, transaction`context, ledger
      ensures var s := ConsoleExecution(transaction.id, transaction.steps, old(transaction.context));
        && ledger.entries == old(ledger.entries) + s.evidence
        && events == old(events) + s.events
        && transaction.context == s.context
      ensures state == transaction.state == old(transaction.state)
    {
      ledger.Append(InputEntry(transaction.id, transaction.context));
      RunSteps();
      return transaction.state;
    }

    /** The console's step loop, after the `input` entry. */
    method RunSteps()
      modifies this`events, transaction`context, ledger
      ensures var s := Sweeps(transaction.id, transaction.steps, 0, old(transaction.context));
        && ledger.entries == old(ledger.entries) + s.evidence
        && events == old(events) + s.events
        && transaction.context == s.context
    {
      var id := transaction.id;
      var steps := transaction.steps;
      ghost var full := Sweeps(id, steps, 0, transaction.context);
      ghost var logged: seq<Evidence<C>> := [];
      ghost var done: seq<Event> := [];
      for i := 0 to |steps|
        invariant ledger.entries == old(ledger.entries) + logged
        invariant events == old(events) + done
        invariant full == PrependSweep(logged, done, Sweeps(id, steps, i, transaction.context))
        modifies this`events, transaction`context, ledger
      {
        var step := steps[i];
        ghost var before := transaction.context;
        ghost var res := step.execute(transaction.context);
        RunStep(i);
        SweepsStep(id, steps, i, before);
        PrependSweepTwice(logged, done, StepEntries(id, step, res), [Executed(i)], Sweeps(id, steps, i + 1, res.context));
        logged := logged + StepEntries(id, step, res);
        done := done + [Executed(i)];
      }
    }

    /** One pass of the console's step loop, for step `i`. */
    method RunStep(i: nat)
      requires i < |transaction.steps|
      modifies this`events, transaction`context, ledger
      ensures var s := transaction.steps[i];
        var res := s.execute(old(transaction.context));
        && ledger.entries == old(ledger.entries) + StepEntries(transaction.id, s, res)
        && events == old(events) + [Executed(i)]
        && transaction.context == res.context
    {
      var step := transaction.steps[i];
      ledger.Append(PolicyEntry(transaction.id, step.id));
      events := events + [Executed(i)];
      var res := step.execute(transaction.context);
      transaction.context := res.context;
      if res.Done? {
        ledger.Append(StepOutputEntry(transaction.id, step.id, transaction.context));
      } else if step.compensate.Some? {
        Rollback();
      }
    }

    /** `rollback()`: does nothing. */
    method Rollback()
      ensures unchanged(transaction, ledger)
    {
    }
  }
}
