/** The evidence-emitting engine of engine/stateMachine.ts.

    `execute` records an `input` entry, then for each step a `policy` entry, the
    step's `execute`, and an `output` entry when it completes. A failing step with
    a `compensate` triggers `rollback`, which calls the `compensate` of EVERY step
    that has one, in reverse definition order (the failing step and the steps that
    never ran included), without isolating a compensation that throws; a failing
    step without one halts the transaction. Either way the error is rethrown. */
module Engine {
  import opened Outcomes
  import opened EngineTypes
  import opened Ledger

  // ---------------------------------------------------------------------------
  // The specification of `rollback`

  /** The effect of a (partial) rollback walk. */
  datatype Unwound<C> = Unwound(context: C, error: Option<Error>, events: seq<Event>)

  /** The walk over `all[n - 1]`, ..., `all[0]`: each step with a `compensate` is
      compensated; the first compensation that throws ends the walk. */
  function Unwind<C>(all: seq<TransactionStep<C>>, n: nat, ctx: C): Unwound<C>
    requires n <= |all|
    decreases n
  {
    if n == 0 then Unwound(ctx, None, [])
    else
      match all[n - 1].compensate
      case None => Unwind(all, n - 1, ctx)
      case Some(comp) =>
        match comp(ctx)
        case Done(c) =>
          var u := Unwind(all, n - 1, c);
          u.(events := [Compensated(n - 1)] + u.events)
        case Threw(c, e) => Unwound(c, Some(e), [Compensated(n - 1)])
  }

  /** `u` preceded by the compensations `done`. */
  function PrependCompensations<C>(done: seq<Event>, u: Unwound<C>): (b: Unwound<C>)
    ensures b.context == u.context && b.error == u.error
    ensures |b.events| == |done| + |u.events|
  {
    u.(events := done + u.events)
  }

  /** Prepending twice is prepending the concatenations. */
  lemma PrependCompensationsTwice<C>(d1: seq<Event>, d2: seq<Event>, u: Unwound<C>)
    ensures PrependCompensations(d1, PrependCompensations(d2, u)) == PrependCompensations(d1 + d2, u)
  {
  }

  /** The entries rollback appends: `output{RolledBack}` then `signature{RolledBack}`,
      once every compensation has run; nothing if one threw. */
  function RollbackEvidence<C>(id: string, u: Unwound<C>): seq<Evidence<C>> {
    if u.error.None? then [StateEntry(id, RolledBack), SignatureEntry(id, RolledBack, RollbackSignature)]
    else []
  }

  /** Every entry of `ev` is a compensation of a step below `n` that has a `compensate`. */
  ghost predicate CompensationsBelow<C>(ev: seq<Event>, all: seq<TransactionStep<C>>, n: nat)
  {
    forall j :: 0 <= j < |ev| ==> ev[j].Compensated? && ev[j].step < n && ev[j].step < |all| && all[ev[j].step].compensate.Some?
  }

  /** The step numbers of `ev` strictly decrease. */
  ghost predicate Descending(ev: seq<Event>)
  {
    forall a, b :: 0 <= a < b < |ev| ==> ev[a].step > ev[b].step
  }

  /** The rollback walk compensates only steps that have a `compensate`, each
      below the walk's start, in strictly decreasing step order (so each step at
      most once). */
  lemma {:induction false} UnwindDescending<C>(all: seq<TransactionStep<C>>, n: nat, ctx: C)
    requires n <= |all|
    ensures CompensationsBelow(Unwind(all, n, ctx).events, all, n)
    ensures Descending(Unwind(all, n, ctx).events)
    decreases n
  {
    if n > 0 {
      match all[n - 1].compensate
      case None =>
        UnwindDescending(all, n - 1, ctx);
        assert Unwind(all, n, ctx) == Unwind(all, n - 1, ctx);
      case Some(comp) =>
        match comp(ctx)
        case Done(c) =>
          UnwindDescending(all, n - 1, c);
          var ev := Unwind(all, n - 1, c).events;
          var ev' := Unwind(all, n, ctx).events;
          assert ev' == [Compensated(n - 1)] + ev;
          forall j | 0 <= j < |ev'|
            ensures ev'[j].Compensated? && ev'[j].step < n && ev'[j].step < |all| && all[ev'[j].step].compensate.Some?
          {
            if j > 0 { assert ev'[j] == ev[j - 1]; }
          }
          forall a, b | 0 <= a < b < |ev'| ensures ev'[a].step > ev'[b].step {
            assert ev'[b] == ev[b - 1];
            if a > 0 { assert ev'[a] == ev[a - 1]; }
          }
        case Threw(c, e) =>
    }
  }

  /** If no compensation throws, every step below the walk's start that has a
      `compensate` is compensated. */
  lemma {:induction false} UnwindComplete<C>(all: seq<TransactionStep<C>>, n: nat, ctx: C)
    requires n <= |all|
    requires Unwind(all, n, ctx).error.None?
    ensures forall j :: 0 <= j < n && all[j].compensate.Some? ==> Compensated(j) in Unwind(all, n, ctx).events
    decreases n
  {
    if n > 0 {
      match all[n - 1].compensate
      case None =>
        UnwindComplete(all, n - 1, ctx);
      case Some(comp) =>
        match comp(ctx)
        case Done(c) =>
          UnwindComplete(all, n - 1, c);
          assert Unwind(all, n, ctx).events == [Compensated(n - 1)] + Unwind(all, n - 1, c).events;
        case Threw(c, e) =>
    }
  }

  /** Reference: the context the walk from `n` holds when it reaches step `m`
      (steps `n - 1` down to `m + 1` compensated in turn), or `None` if one of
      those compensations throws first. */
  function UnwindReach<C>(all: seq<TransactionStep<C>>, n: nat, m: nat, ctx: C): Option<C>
    requires m < n <= |all|
    decreases n
  {
    if n - 1 == m then Some(ctx)
    else
      match all[n - 1].compensate
      case None => UnwindReach(all, n - 1, m, ctx)
      case Some(comp) =>
        match comp(ctx)
        case Done(c) => UnwindReach(all, n - 1, m, c)
        case Threw(_, _) => None
  }

  /** If a compensation throws, the walk ends there: the last compensation
      invoked is the one that threw, on the context the walk had reached; its
      error and context are the walk's; and every step above it that has a
      `compensate` was compensated first. */
  lemma {:induction false} UnwindAborted<C>(all: seq<TransactionStep<C>>, n: nat, ctx: C)
    requires n <= |all|
    requires Unwind(all, n, ctx).error.Some?
    ensures var u := Unwind(all, n, ctx);
      && u.events != []
      && var m := u.events[|u.events| - 1].step;
      && m < n
      && UnwindReach(all, n, m, ctx).Some?
      && all[m].compensate.Some?
      && var thrown := all[m].compensate.value(UnwindReach(all, n, m, ctx).value);
      && thrown.Threw?
      && u.error == Some(thrown.error)
      && u.context == thrown.context
      && forall j :: m < j < n && all[j].compensate.Some? ==> Compensated(j) in u.events
    decreases n
  {
    if n > 0 {
      match all[n - 1].compensate
      case None =>
        UnwindAborted(all, n - 1, ctx);
        assert Unwind(all, n, ctx) == Unwind(all, n - 1, ctx);
      case Some(comp) =>
        match comp(ctx)
        case Done(c) =>
          UnwindAborted(all, n - 1, c);
          var u := Unwind(all, n - 1, c);
          assert Unwind(all, n, ctx).events == [Compensated(n - 1)] + u.events;
          UnwindDescending(all, n - 1, c);
        case Threw(c, e) =>
    }
  }

  // ---------------------------------------------------------------------------
  // The specification of `execute`

  /** The effect of `execute`: the new state (`None`: left as it was), the context,
      the entries appended, the steps invoked, and the value returned or thrown. */
  datatype ExecEffect<C> = ExecEffect(
    state: Option<TxState>,
    context: C,
    evidence: seq<Evidence<C>>,
    events: seq<Event>,
    outcome: Result<TxState>)

  /** The step loop from step `i` on, with context `ctx`. */
  function Steps<C>(id: string, all: seq<TransactionStep<C>>, i: nat, ctx: C): ExecEffect<C>
    requires i <= |all|
    decreases |all| - i
  {
    if i == |all| then
      ExecEffect(Some(Committed), ctx,
          [StateEntry(id, Committed), SignatureEntry(id, Committed, CommitSignature)],
          [], Ok(Committed))
    else
      var s := all[i];
      match s.execute(ctx)
      case Done(c) =>
        var rest := Steps(id, all, i + 1, c);
        rest.(evidence := [PolicyEntry(id, s.id), StepOutputEntry(id, s.id, c)] + rest.evidence,
              events := [Executed(i)] + rest.events)
      case Threw(c, e) =>
        if s.compensate.Some? then
          var u := Unwind(all, |all|, c);
          ExecEffect(if u.error.None? then Some(RolledBack) else None,
              u.context,
              [PolicyEntry(id, s.id)] + RollbackEvidence(id, u),
              [Executed(i)] + u.events,
              Thrown(if u.error.Some? then u.error.value else e))
        else
          ExecEffect(Some(Halted), c, [PolicyEntry(id, s.id), HaltEntry(id, e)], [Executed(i)], Thrown(e))
  }

  /** `execute` of a transaction `id` with steps `all` and starting context `ctx`. */
  function Execution<C>(id: string, all: seq<TransactionStep<C>>, ctx: C): ExecEffect<C> {
    var r := Steps(id, all, 0, ctx);
    r.(evidence := [InputEntry(id, ctx)] + r.evidence)
  }

  /** One completed step of the loop: its two entries and its invocation come
      before the rest of the loop. */
  lemma StepsDone<C>(id: string, all: seq<TransactionStep<C>>, i: nat, ctx: C)
    requires i < |all| && all[i].execute(ctx).Done?
    ensures var c := all[i].execute(ctx).context;
      Steps(id, all, i, ctx)
        == PrependEffect([PolicyEntry(id, all[i].id), StepOutputEntry(id, all[i].id, c)], [Executed(i)], Steps(id, all, i + 1, c))
  {
  }

  /** `r` preceded by the entries `evidence` and the invocations `events`. */
  function PrependEffect<C>(evidence: seq<Evidence<C>>, events: seq<Event>, r: ExecEffect<C>): (g: ExecEffect<C>)
    ensures g.state == r.state && g.context == r.context && g.outcome == r.outcome
    ensures |g.evidence| == |evidence| + |r.evidence| && |g.events| == |events| + |r.events|
  {
    r.(evidence := evidence + r.evidence, events := events + r.events)
  }

  /** Prepending twice is prepending the concatenations. */
  lemma PrependEffectTwice<C>(e1: seq<Evidence<C>>, v1: seq<Event>, e2: seq<Evidence<C>>, v2: seq<Event>, r: ExecEffect<C>)
    ensures PrependEffect(e1, v1, PrependEffect(e2, v2, r)) == PrependEffect(e1 + e2, v1 + v2, r)
  {
  }

  /** The ledger and events hold the whole run `full` once they hold the loop's
      entries and invocations so far followed by the rest `r` of the run. */
  lemma LoggedEffect<C>(e0: seq<Evidence<C>>, entries: seq<Evidence<C>>, logged: seq<Evidence<C>>,
                  v0: seq<Event>, events: seq<Event>, done: seq<Event>, r: ExecEffect<C>, full: ExecEffect<C>)
    requires full == PrependEffect(logged, done, r)
    requires entries == e0 + logged + r.evidence && events == v0 + done + r.events
    ensures entries == e0 + full.evidence && events == v0 + full.events
  {
  }

  /** The loop fulfils only by committing: a fulfilled run always returns and
      records `Committed`; a rejected one never commits. */
  lemma {:induction false} StepsSettle<C>(id: string, all: seq<TransactionStep<C>>, i: nat, ctx: C)
    requires i <= |all|
    ensures var r := Steps(id, all, i, ctx);
      && (r.outcome.Ok? <==> r.state == Some(Committed))
      && (r.outcome.Ok? ==> r.outcome.value == Committed)
    decreases |all| - i
  {
    if i < |all| {
      match all[i].execute(ctx)
      case Done(c) =>
        StepsSettle(id, all, i + 1, c);
      case Threw(_, _) =>
    }
  }

  /** Reference: the context after steps `i`..`k - 1` all complete, or `None` if one throws. */
  function Reach<C>(all: seq<TransactionStep<C>>, i: nat, k: nat, ctx: C): Option<C>
    requires i <= k <= |all|
    decreases k - i
  {
    if i == k then Some(ctx)
    else
      match all[i].execute(ctx)
      case Done(c) => Reach(all, i + 1, k, c)
      case Threw(_, _) => None
  }

  /** Entries `start + 2j` and `start + 2j + 1` are the `policy` and `output`
      entries of step `i + j`. */
  ghost predicate StepLogged<C>(ev: seq<Evidence<C>>, start: nat, id: string, all: seq<TransactionStep<C>>, i: nat, j: nat)
  {
    && start + 2 * j + 1 < |ev|
    && i + j < |all|
    && ev[start + 2 * j] == PolicyEntry(id, all[i + j].id)
    && IsStepOutput(ev[start + 2 * j + 1], id, all[i + j].id)
  }

  /** While steps `i`..`k - 1` complete, each is executed once, in order, and logs
      one `policy` then one `output` entry; what follows is the loop from step `k`. */
  lemma {:induction false} StepsPrefix<C>(id: string, all: seq<TransactionStep<C>>, i: nat, k: nat, ctx: C)
    requires i <= k <= |all| && Reach(all, i, k, ctx).Some?
    ensures var r := Steps(id, all, i, ctx);
      var s := Steps(id, all, k, Reach(all, i, k, ctx).value);
      && |r.evidence| == 2 * (k - i) + |s.evidence|
      && r.evidence[2 * (k - i)..] == s.evidence
      && (forall j :: 0 <= j < k - i ==> StepLogged(r.evidence, 0, id, all, i, j))
      && |r.events| == (k - i) + |s.events|
      && r.events[k - i..] == s.events
      && (forall j :: 0 <= j < k - i ==> r.events[j] == Executed(i + j))
      && r.state == s.state && r.context == s.context && r.outcome == s.outcome
    decreases k - i
  {
    if i < k {
      match all[i].execute(ctx)
      case Done(c) =>
        StepsPrefix(id, all, i + 1, k, c);
        var r := Steps(id, all, i, ctx);
        var r' := Steps(id, all, i + 1, c);
        assert r.evidence == [PolicyEntry(id, all[i].id), StepOutputEntry(id, all[i].id, c)] + r'.evidence;
        assert r.events == [Executed(i)] + r'.events;
        forall j | 0 <= j < k - i ensures StepLogged(r.evidence, 0, id, all, i, j) {
          if j > 0 {
            assert StepLogged(r'.evidence, 0, id, all, i + 1, j - 1);
          }
        }
      case Threw(_, _) =>
    }
  }

  /** Putting one entry in front of the ledger shifts every step's logged pair by one. */
  lemma LoggedShift<C>(ev: seq<Evidence<C>>, x: Evidence<C>, id: string, all: seq<TransactionStep<C>>, n: nat)
    requires forall j :: 0 <= j < n ==> StepLogged(ev, 0, id, all, 0, j)
    ensures forall j :: 0 <= j < n ==> StepLogged([x] + ev, 1, id, all, 0, j)
  {
    forall j | 0 <= j < n ensures StepLogged([x] + ev, 1, id, all, 0, j) {
      assert StepLogged(ev, 0, id, all, 0, j);
    }
  }

  /** When every step completes: each step is executed exactly once, in definition
      order, nothing is compensated, state becomes `Committed` and is returned, and
      the ledger grows by exactly 2n + 3 entries: `input` with the starting context,
      a `policy` then an `output` entry per step, then `output{Committed}` and
      `signature`. */
  lemma ExecutionCommits<C>(id: string, all: seq<TransactionStep<C>>, ctx: C)
    requires Reach(all, 0, |all|, ctx).Some?
    ensures var r := Execution(id, all, ctx);
      var n := |all|;
      && r.outcome == Ok(Committed)
      && r.state == Some(Committed)
      && r.context == Reach(all, 0, n, ctx).value
      && |r.events| == n
      && (forall j :: 0 <= j < n ==> r.events[j] == Executed(j))
      && |r.evidence| == 2 * n + 3
      && r.evidence[0] == InputEntry(id, ctx)
      && (forall j :: 0 <= j < n ==> StepLogged(r.evidence, 1, id, all, 0, j))
      && r.evidence[2 * n + 1] == StateEntry(id, Committed)
      && r.evidence[2 * n + 2] == SignatureEntry(id, Committed, CommitSignature)
  {
    StepsPrefix(id, all, 0, |all|, ctx);
    var r := Steps(id, all, 0, ctx);
    LoggedShift(r.evidence, InputEntry(id, ctx), id, all, |all|);
  }

  /** When steps before `k` complete and step `k` throws without a `compensate`:
      state becomes `Halted`, nothing is compensated, no step after `k` runs, the
      ledger ends with `k`'s `policy` entry and one `output` entry carrying the
      error and `Halted`, and that error is rethrown. */
  lemma ExecutionHalts<C>(id: string, all: seq<TransactionStep<C>>, ctx: C, k: nat)
    requires k < |all| && Reach(all, 0, k, ctx).Some?
    requires all[k].execute(Reach(all, 0, k, ctx).value).Threw?
    requires all[k].compensate.None?
    ensures var r := Execution(id, all, ctx);
      var failed := all[k].execute(Reach(all, 0, k, ctx).value);
      && r.outcome == Thrown(failed.error)
      && r.state == Some(Halted)
      && r.context == failed.context
      && |r.events| == k + 1
      && (forall j :: 0 <= j <= k ==> r.events[j] == Executed(j))
      && |r.evidence| == 2 * k + 3
      && r.evidence[0] == InputEntry(id, ctx)
      && (forall j :: 0 <= j < k ==> StepLogged(r.evidence, 1, id, all, 0, j))
      && r.evidence[2 * k + 1] == PolicyEntry(id, all[k].id)
      && r.evidence[2 * k + 2] == HaltEntry(id, failed.error)
  {
    StepsPrefix(id, all, 0, k, ctx);
    var r := Steps(id, all, 0, ctx);
    LoggedShift(r.evidence, InputEntry(id, ctx), id, all, k);
  }

  /** When steps before `k` complete and step `k` throws with a `compensate`: after
      `k` is executed, the rollback walk runs over ALL steps (see `UnwindDescending`,
      `UnwindComplete` and `UnwindAborted`),
      no step after `k` is executed, and the step's error is rethrown. If no
      compensation throws, state becomes `RolledBack` and the ledger ends with
      `output{RolledBack}` and `signature{RolledBack}`; if one throws, the state is
      left as it was, nothing more is logged, and that compensation's error escapes. */
  lemma ExecutionRollsBack<C>(id: string, all: seq<TransactionStep<C>>, ctx: C, k: nat)
    requires k < |all| && Reach(all, 0, k, ctx).Some?
    requires all[k].execute(Reach(all, 0, k, ctx).value).Threw?
    requires all[k].compensate.Some?
    ensures var r := Execution(id, all, ctx);
      var failed := all[k].execute(Reach(all, 0, k, ctx).value);
      var u := Unwind(all, |all|, failed.context);
      && r.outcome == Thrown(if u.error.Some? then u.error.value else failed.error)
      && r.state == (if u.error.None? then Some(RolledBack) else None)
      && r.context == u.context
      && |r.events| == k + 1 + |u.events|
      && (forall j :: 0 <= j <= k ==> r.events[j] == Executed(j))
      && r.events[k + 1..] == u.events
      && |r.evidence| == 2 * k + 2 + |RollbackEvidence(id, u)|
      && r.evidence[0] == InputEntry(id, ctx)
      && (forall j :: 0 <= j < k ==> StepLogged(r.evidence, 1, id, all, 0, j))
      && r.evidence[2 * k + 1] == PolicyEntry(id, all[k].id)
      && r.evidence[2 * k + 2..] == RollbackEvidence(id, u)
  {
    StepsPrefix(id, all, 0, k, ctx);
    var r := Steps(id, all, 0, ctx);
    LoggedShift(r.evidence, InputEntry(id, ctx), id, all, k);
  }

  /** The single-step case of engine/__tests__/stateMachine.test.ts: a step that
      throws and compensates cleanly leaves the transaction `RolledBack`, but
      `execute` rejects with the step's error instead of returning `RolledBack`. */
  lemma CompensatedFailureIsRethrown<C>(id: string, s: TransactionStep<C>, ctx: C)
    requires s.execute(ctx).Threw? && s.compensate.Some?
    requires s.compensate.value(s.execute(ctx).context).Done?
    ensures var r := Execution(id, [s], ctx);
      && r.outcome == Thrown(s.execute(ctx).error)
      && r.state == Some(RolledBack)
      && r.events == [Executed(0), Compensated(0)]
  {
    var c := s.execute(ctx).context;
    assert Unwind([s], 0, s.compensate.value(c).context).events == [];
  }

  // ---------------------------------------------------------------------------
  // The engine object

  class TransactionEngine<C> {
    const transaction: Transaction<C>
    const ledger: AuditLedger<C>
    ghost var events: seq<Event>

    constructor (transaction: Transaction<C>, ledger: AuditLedger<C>)
      ensures this.transaction == transaction && this.ledger == ledger && events == []
    {
      this.transaction := transaction;
      this.ledger := ledger;
      events := [];
    }

    /** `rollback()`: compensate every step that has a `compensate`, in reverse
        definition order; a throwing compensation ends the walk and escapes
        (returned here as `thrown`), otherwise state becomes `RolledBack` and the
        rollback entries are appended. */
    method Rollback() returns (thrown: Option<Error>)
      modifies this`events, transaction`state, transaction`context, ledger
      ensures var u := Unwind(transaction.steps, |transaction.steps|, old(transaction.context));
        && thrown == u.error
        && transaction.context == u.context
        && events == old(events) + u.events
        && ledger.entries == old(ledger.entries) + RollbackEvidence(transaction.id, u)
        && transaction.state == (if u.error.None? then RolledBack else old(transaction.state))
    {
      thrown := Compensations();
      if thrown.None? {
        transaction.state := RolledBack;
        ledger.Append(StateEntry(transaction.id, RolledBack));
        ledger.Append(SignatureEntry(transaction.id, RolledBack, RollbackSignature));
      }
    }

    /** The compensation walk of `rollback()`, over the steps from last to first. */
    method Compensations() returns (thrown: Option<Error>)
      modifies this`events, transaction`context
      ensures var u := Unwind(transaction.steps, |transaction.steps|, old(transaction.context));
        && thrown == u.error
        && transaction.context == u.context
        && events == old(events) + u.events
    {
      var steps := transaction.steps;
      ghost var full := Unwind(steps, |steps|, transaction.context);
      ghost var done: seq<Event> := [];
      var i := |steps|;
      while i > 0
        invariant 0 <= i <= |steps|
        invariant events == old(events) + done
        invariant full == PrependCompensations(done, Unwind(steps, i, transaction.context))
        modifies this`events, transaction`context
      {
        var step := steps[i - 1];
        ghost var before := transaction.context;
        if step.compensate.Some? {
          events := events + [Compensated(i - 1)];
          var res := step.compensate.value(transaction.context);
          transaction.context := res.context;
          if res.Threw? {
            return Some(res.error);
          }
          PrependCompensationsTwice(done, [Compensated(i - 1)], Unwind(steps, i - 1, res.context));
          done := done + [Compensated(i - 1)];
        }
        i := i - 1;
      }
      thrown := None;
    }

    /** The failure branch of `execute`: step `i` threw `error`. */
    method Abort(i: nat, error: Error) returns (out: Result<TxState>)
      requires i < |transaction.steps|
      modifies this`events, transaction`state, transaction`context, ledger
      ensures var s := transaction.steps[i];
        if s.compensate.Some? then
          var u := Unwind(transaction.steps, |transaction.steps|, old(transaction.context));
          && ledger.entries == old(ledger.entries) + RollbackEvidence(transaction.id, u)
          && events == old(events) + u.events
          && transaction.context == u.context
          && transaction.state == (if u.error.None? then RolledBack else old(transaction.state))
          && out == Thrown(if u.error.Some? then u.error.value else error)
        else
          && ledger.entries == old(ledger.entries) + [HaltEntry(transaction.id, error)]
          && events == old(events)
          && transaction.context == old(transaction.context)
          && transaction.state == Halted
          && out == Thrown(error)
    {
      if transaction.steps[i].compensate.Some? {
        var thrown := Rollback();
        if thrown.Some? {
          return Thrown(thrown.value);
        }
        return Thrown(error);
      } else {
        transaction.state := Halted;
        ledger.Append(HaltEntry(transaction.id, error));
        return Thrown(error);
      }
    }

    /** One pass of the step loop for step `i`: `Some` with what `execute` returns
        or throws when the step fails, `None` when it completes. */
    method RunStep(i: nat) returns (failed: Option<Result<TxState>>)
      requires i < |transaction.steps|
      modifies this`events, transaction`state, transaction`context, ledger
      ensures var s := transaction.steps[i];
        var res := s.execute(old(transaction.context));
        && failed.None? == res.Done?
        && (failed.None? ==>
              && ledger.entries == old(ledger.entries) + [PolicyEntry(transaction.id, s.id), StepOutputEntry(transaction.id, s.id, res.context)]
              && events == old(events) + [Executed(i)]
              && transaction.context == res.context
              && transaction.state == old(transaction.state))
      ensures failed.Some? ==>
        var r := Steps(transaction.id, transaction.steps, i, old(transaction.context));
        && ledger.entries == old(ledger.entries) + r.evidence
        && events == old(events) + r.events
        && transaction.context == r.context
        && transaction.state == (if r.state.Some? then r.state.value else old(transaction.state))
        && failed.value == r.outcome
    {
      var id := transaction.id;
      var step := transaction.steps[i];
      ledger.Append(PolicyEntry(id, step.id));
      events := events + [Executed(i)];
      var res := step.execute(transaction.context);
      transaction.context := res.context;
      if res.Threw? {
        ghost var beforeEvents := events;
        ghost var beforeEntries := ledger.entries;
        var out := Abort(i, res.error);
        ghost var rest := Steps(id, transaction.steps, i, old(transaction.context));
        assert rest.events == [Executed(i)] + events[|beforeEvents|..];
        assert rest.evidence == [PolicyEntry(id, step.id)] + ledger.entries[|beforeEntries|..];
        return Some(out);
      }
      ledger.Append(StepOutputEntry(id, step.id, transaction.context));
      return None;
    }

    /** `execute()`: run the steps in order, logging evidence; commit, or roll
        back or halt on the first failure and rethrow (returned here as `Thrown`). */
    method Execute() returns (out: Result<TxState>)
      modifies this`events, transaction`state, transaction`context, ledger
      ensures var r := Execution(transaction.id, transaction.steps, old(transaction.context));
        && ledger.entries == old(ledger.entries) + r.evidence
        && events == old(events) + r.events
        && transaction.context == r.context
        && transaction.state == (if r.state.Some? then r.state.value else old(transaction.state))
        && out == r.outcome
      // the ledger is only appended to
      ensures old(ledger.entries) <= ledger.entries
    {
      ledger.Append(InputEntry(transaction.id, transaction.context));
      out := RunSteps();
    }

    /** The step loop of `execute()`, after the `input` entry. */
    method RunSteps() returns (out: Result<TxState>)
      modifies this`events, transaction`state, transaction`context, ledger
      ensures var r := Steps(transaction.id, transaction.steps, 0, old(transaction.context));
        && ledger.entries == old(ledger.entries) + r.evidence
        && events == old(events) + r.events
        && transaction.context == r.context
        && transaction.state == (if r.state.Some? then r.state.value else old(transaction.state))
        && out == r.outcome
    {
      var id := transaction.id;
      var steps := transaction.steps;
      ghost var full := Steps(id, steps, 0, transaction.context);
      ghost var logged: seq<Evidence<C>> := [];
      ghost var done: seq<Event> := [];
      var i := 0;
      while i < |steps|
        invariant 0 <= i <= |steps|
        invariant ledger.entries == old(ledger.entries) + logged
        invariant events == old(events) + done
        invariant transaction.state == old(transaction.state)
        invariant full == PrependEffect(logged, done, Steps(id, steps, i, transaction.context))
        modifies this`events, transaction`state, transaction`context, ledger
      {
        ghost var before := transaction.context;
        ghost var beforeEvents := events;
        var failed := RunStep(i);
        if failed.Some? {
          LoggedEffect(old(ledger.entries), ledger.entries, logged, old(events), events, done,
            Steps(id, steps, i, before), full);
          return failed.value;
        }
        StepsDone(id, steps, i, before);
        PrependEffectTwice(logged, done, [PolicyEntry(id, steps[i].id), StepOutputEntry(id, steps[i].id, transaction.context)],
          [Executed(i)], Steps(id, steps, i + 1, transaction.context));
        logged := logged + [PolicyEntry(id, steps[i].id), StepOutputEntry(id, steps[i].id, transaction.context)];
        done := done + [Executed(i)];
        i := i + 1;
      }
      ghost var last := transaction.context;
      out := Commit();
      LoggedEffect(old(ledger.entries), ledger.entries, logged, old(events), events, done,
        Steps(id, steps, |steps|, last), full);
    }

    /** The end of the step loop when every step completed. */
    method Commit() returns (out: Result<TxState>)
      modifies transaction`state, ledger
      ensures var r := Steps(transaction.id, transaction.steps, |transaction.steps|, transaction.context);
        && ledger.entries == old(ledger.entries) + r.evidence
        && r.events == []
        && transaction.state == r.state.value
        && out == r.outcome
    {
      transaction.state := Committed;
      ledger.Append(StateEntry(transaction.id, Committed));
      ledger.Append(SignatureEntry(transaction.id, Committed, CommitSignature));
      return Ok(transaction.state);
    }
  }
}
