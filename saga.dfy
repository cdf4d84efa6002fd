/** The resumable saga of engine/Transaction.ts.

    A workflow is the sequence of `tx.step(name, definition)` calls it makes; each
    definition's `do` either returns a result or throws, and its `undo` either
    returns or throws. A ghost trace records every `do` invocation (`Did`) and
    every `undo` invocation (`Undid`, with the argument the undo closure was bound
    to and whether it threw), so that ordering can be stated. */
module Saga {
  import opened Outcomes
  import opened Storage

  /** What a step's `do` action does when invoked. */
  datatype Action<R> = Returns(result: R) | Throws(error: Error)

  /** What a step's `undo` action does when invoked. */
  datatype UndoBehaviour = UndoReturns | UndoThrows(error: Error)

  datatype StepDefinition<R> = StepDefinition(perform: Action<R>, undo: UndoBehaviour)

  /** One `tx.step(name, definition)` call made by the workflow. */
  datatype StepCall<R> = StepCall(name: string, definition: StepDefinition<R>)

  /** A compensation-stack entry: the step's `undo` bound to `argument`. */
  datatype RecordedStep<R> = RecordedStep(name: string, argument: Option<R>, undo: UndoBehaviour)

  datatype Event<R> =
    | Did(name: string)
    | Undid(name: string, argument: Option<R>, failed: bool)

  /** Step name to previously checkpointed result (`undefined` is `None`). */
  type History<R> = map<string, Option<R>>

  // ---------------------------------------------------------------------------
  // Loading the history

  /** The history after `saved.forEach(s => history.set(s.name, s.result))`. */
  function Loaded<R>(h: History<R>, saved: seq<StepContext<R>>): History<R>
    decreases |saved|
  {
    if saved == [] then h
    else
      var last := saved[|saved| - 1];
      Loaded(h, saved[..|saved| - 1])[last.name := last.result]
  }

  ghost function Names<R>(saved: seq<StepContext<R>>): set<string> {
    set j | 0 <= j < |saved| :: saved[j].name
  }

  /** No entry after position `j` repeats the name of entry `j`. */
  ghost predicate LastWithName<R>(saved: seq<StepContext<R>>, j: int)
    requires 0 <= j < |saved|
  {
    forall j' :: j < j' < |saved| ==> saved[j'].name != saved[j].name
  }

  lemma NamesSnoc<R>(saved: seq<StepContext<R>>)
    requires saved != []
    ensures Names(saved) == Names(saved[..|saved| - 1]) + {saved[|saved| - 1].name}
  {
    var init := saved[..|saved| - 1];
    forall x | x in Names(saved) ensures x in Names(init) + {saved[|saved| - 1].name} {
      var j :| 0 <= j < |saved| && saved[j].name == x;
      if j < |saved| - 1 { assert init[j] == saved[j]; }
    }
    forall x | x in Names(init) ensures x in Names(saved) {
      var j :| 0 <= j < |init| && init[j].name == x;
      assert saved[j] == init[j];
    }
  }

  /** After loading, the history holds exactly the old names plus the loaded ones,
      and a name that was not loaded keeps its old result. */
  lemma {:induction false} LoadedKeys<R>(h: History<R>, saved: seq<StepContext<R>>)
    ensures Loaded(h, saved).Keys == h.Keys + Names(saved)
    ensures forall k :: k in h && k !in Names(saved) ==> Loaded(h, saved)[k] == h[k]
    decreases |saved|
  {
    if saved != [] {
      LoadedKeys(h, saved[..|saved| - 1]);
      NamesSnoc(saved);
    }
  }

  /** A loaded name maps to the result of the last saved entry with that name. */
  lemma {:induction false} LoadedLast<R>(h: History<R>, saved: seq<StepContext<R>>)
    ensures forall j :: 0 <= j < |saved| && LastWithName(saved, j) ==>
              saved[j].name in Loaded(h, saved) && Loaded(h, saved)[saved[j].name] == saved[j].result
    decreases |saved|
  {
    if saved != [] {
      var init := saved[..|saved| - 1];
      LoadedLast(h, init);
      forall j | 0 <= j < |saved| && LastWithName(saved, j)
        ensures saved[j].name in Loaded(h, saved) && Loaded(h, saved)[saved[j].name] == saved[j].result
      {
        if j < |saved| - 1 {
          assert saved[|saved| - 1].name != saved[j].name;
          assert init[j] == saved[j];
          assert LastWithName(init, j);
        }
      }
    }
  }

  /** Loading into an empty history (a fresh transaction) yields exactly the
      name-to-result pairs of the saved list. */
  lemma LoadedFresh<R>(saved: seq<StepContext<R>>)
    ensures Loaded(map[], saved).Keys == Names(saved)
    ensures forall j :: 0 <= j < |saved| && LastWithName(saved, j) ==>
              Loaded(map[], saved)[saved[j].name] == saved[j].result
  {
    LoadedKeys(map[], saved);
    LoadedLast(map[], saved);
  }

  // ---------------------------------------------------------------------------
  // Checkpoints

  /** `history.get(name)`: the stored result, absent for an unknown name. */
  function Lookup<R>(history: History<R>, name: string): Option<R> {
    if name in history then history[name] else None
  }

  /** The list `step` saves after running `name` fresh with `result`: the stack
      mapped to `completed` entries, where an entry named `name` carries `result`
      and any other entry carries what `history` holds for its name. */
  function Checkpoints<R>(stack: seq<RecordedStep<R>>, name: string, result: R, history: History<R>)
    : (cs: seq<StepContext<R>>)
    ensures |cs| == |stack|
    ensures forall i :: 0 <= i < |stack| ==> cs[i].name == stack[i].name && cs[i].status == Completed
    ensures forall i :: 0 <= i < |stack| && stack[i].name == name ==> cs[i].result == Some(result)
    ensures forall i :: 0 <= i < |stack| && stack[i].name != name ==>
              cs[i].result == Lookup(history, stack[i].name)
  {
    if stack == [] then []
    else
      var s := stack[0];
      [StepContext(s.name, if s.name == name then Some(result) else Lookup(history, s.name), Completed)]
      + Checkpoints(stack[1..], name, result, history)
  }

  // ---------------------------------------------------------------------------
  // The specification of `step` and of the step loop of `run`

  /** The state one `step` call changes: the stack, the store, the trace. */
  datatype Progress<R> = Progress(
    stack: seq<RecordedStep<R>>,
    store: map<string, seq<StepContext<R>>>,
    trace: seq<Event<R>>)

  /** A call whose name is not in the history and whose `do` throws. */
  predicate Fails<R>(h: History<R>, c: StepCall<R>) {
    c.name !in h && c.definition.perform.Throws?
  }

  /** The argument the undo of a non-failing call is bound to. */
  function Bound<R>(h: History<R>, c: StepCall<R>): Option<R> {
    if c.name in h then h[c.name]
    else if c.definition.perform.Returns? then Some(c.definition.perform.result)
    else None
  }

  /** One `step` call, for the transaction `id`, saving checkpoints when `persist`. */
  function Advance<R>(id: string, persist: bool, h: History<R>, p: Progress<R>, c: StepCall<R>): Progress<R> {
    if c.name in h then
      p.(stack := p.stack + [RecordedStep(c.name, h[c.name], c.definition.undo)])
    else
      match c.definition.perform
      case Throws(_) => p.(trace := p.trace + [Did(c.name)])
      case Returns(r) =>
        var stack := p.stack + [RecordedStep(c.name, Some(r), c.definition.undo)];
        Progress(stack,
                 if persist then p.store[id := Checkpoints(stack, c.name, r, h)] else p.store,
                 p.trace + [Did(c.name)])
  }

  /** The calls, one `step` after another. */
  function Drive<R>(id: string, persist: bool, h: History<R>, p: Progress<R>, calls: seq<StepCall<R>>): Progress<R>
    decreases |calls|
  {
    if calls == [] then p
    else Advance(id, persist, h, Drive(id, persist, h, p, calls[..|calls| - 1]), calls[|calls| - 1])
  }

  /** The index of the first call that fails, or `|calls|` if none does. */
  function FirstFailure<R>(h: History<R>, calls: seq<StepCall<R>>): (k: nat)
    ensures k <= |calls|
    ensures forall j :: 0 <= j < k ==> !Fails(h, calls[j])
    ensures k < |calls| ==> Fails(h, calls[k])
  {
    if calls == [] then 0
    else if Fails(h, calls[0]) then 0
    else 1 + FirstFailure(h, calls[1..])
  }

  /** Reference: the `do` invocations the calls make, one per call whose name is
      not in the history, in call order. */
  function Invocations<R>(h: History<R>, calls: seq<StepCall<R>>): seq<Event<R>> {
    if calls == [] then []
    else (if calls[0].name in h then [] else [Did(calls[0].name)]) + Invocations(h, calls[1..])
  }

  /** Reference: the stack entries of calls none of which fails. */
  function Stacked<R>(h: History<R>, calls: seq<StepCall<R>>): seq<RecordedStep<R>> {
    if calls == [] then []
    else [RecordedStep(calls[0].name, Bound(h, calls[0]), calls[0].definition.undo)] + Stacked(h, calls[1..])
  }

  lemma {:induction false} InvocationsAppend<R>(h: History<R>, a: seq<StepCall<R>>, b: seq<StepCall<R>>)
    ensures Invocations(h, a + b) == Invocations(h, a) + Invocations(h, b)
  {
    if a != [] {
      assert (a + b)[1..] == a[1..] + b;
      InvocationsAppend(h, a[1..], b);
    } else {
      assert a + b == b;
    }
  }

  lemma {:induction false} StackedAppend<R>(h: History<R>, a: seq<StepCall<R>>, b: seq<StepCall<R>>)
    ensures Stacked(h, a + b) == Stacked(h, a) + Stacked(h, b)
  {
    if a != [] {
      assert (a + b)[1..] == a[1..] + b;
      StackedAppend(h, a[1..], b);
    } else {
      assert a + b == b;
    }
  }

  /** Driving the calls invokes `do` exactly for the calls whose name is not in
      the history, in call order, and never for one whose name is. */
  lemma {:induction false} DriveTrace<R>(id: string, persist: bool, h: History<R>, p: Progress<R>, calls: seq<StepCall<R>>)
    ensures Drive(id, persist, h, p, calls).trace == p.trace + Invocations(h, calls)
    decreases |calls|
  {
    if calls != [] {
      var init := calls[..|calls| - 1];
      var last := calls[|calls| - 1];
      assert calls == init + [last];
      DriveTrace(id, persist, h, p, init);
      InvocationsAppend(h, init, [last]);
      assert [last][1..] == [];
    }
  }

  /** When no call fails, each call pushes one entry, in call order, bound to its
      historical result if it was skipped and to its fresh result otherwise. */
  lemma {:induction false} DriveStack<R>(id: string, persist: bool, h: History<R>, p: Progress<R>, calls: seq<StepCall<R>>)
    requires forall j :: 0 <= j < |calls| ==> !Fails(h, calls[j])
    ensures Drive(id, persist, h, p, calls).stack == p.stack + Stacked(h, calls)
    decreases |calls|
  {
    if calls != [] {
      var init := calls[..|calls| - 1];
      var last := calls[|calls| - 1];
      assert calls == init + [last];
      assert forall j :: 0 <= j < |init| ==> init[j] == calls[j];
      DriveStack(id, persist, h, p, init);
      StackedAppend(h, init, [last]);
      assert [last][1..] == [];
      assert !Fails(h, last);
    }
  }

  /** Steps save only under the transaction's own id, and only with storage. */
  lemma {:induction false} DriveStore<R>(id: string, persist: bool, h: History<R>, p: Progress<R>, calls: seq<StepCall<R>>)
    ensures !persist ==> Drive(id, persist, h, p, calls).store == p.store
    ensures Drive(id, persist, h, p, calls).store - {id} == p.store - {id}
    decreases |calls|
  {
    if calls != [] {
      DriveStore(id, persist, h, p, calls[..|calls| - 1]);
    }
  }

  /** Every `do` invocation recorded for the calls is for a name absent from the history. */
  lemma {:induction false} InvocationsSkipHistory<R>(h: History<R>, calls: seq<StepCall<R>>)
    ensures forall e :: e in Invocations(h, calls) ==> e.Did? && e.name !in h
    ensures |Invocations(h, calls)| <= |calls|
  {
    if calls != [] {
      InvocationsSkipHistory(h, calls[1..]);
    }
  }

  /** After a fresh step that returns `r`, with storage, the list saved for the
      transaction has one `completed` entry per stack entry, in stack order, and
      the entry for the step just run (the top of the stack) carries `r`. */
  lemma FreshStepCheckpoint<R>(id: string, h: History<R>, p: Progress<R>, c: StepCall<R>)
    requires c.name !in h && c.definition.perform.Returns?
    ensures var q := Advance(id, true, h, p, c);
      && id in q.store
      && |q.store[id]| == |q.stack| == |p.stack| + 1
      && (forall i :: 0 <= i < |q.stack| ==>
            q.store[id][i].name == q.stack[i].name && q.store[id][i].status == Completed)
      && q.store[id][|p.stack|] == StepContext(c.name, Some(c.definition.perform.result), Completed)
  {
  }

  /** As written, a checkpoint for an earlier step that ran fresh in the same run
      carries no result: two fresh steps `a` then `b` save `a` with `undefined`. */
  lemma SameRunResultDropped<R>(id: string, a: string, b: string, ra: R, rb: R)
    requires a != b
    ensures var calls := [StepCall(a, StepDefinition(Returns(ra), UndoReturns)),
                          StepCall(b, StepDefinition(Returns(rb), UndoReturns))];
      var q := Drive(id, true, map[], Progress([], map[], []), calls);
      && q.stack[0].argument == Some(ra)
      && q.store[id] == [StepContext(a, None, Completed), StepContext(b, Some(rb), Completed)]
  {
    var calls := [StepCall(a, StepDefinition(Returns(ra), UndoReturns)),
                  StepCall(b, StepDefinition(Returns(rb), UndoReturns))];
    var p0: Progress<R> := Progress([], map[], []);
    assert calls[..1][..0] == [];
    var q1 := Advance(id, true, map[], p0, calls[0]);
    assert Drive(id, true, map[], p0, calls[..1]) == q1;
    var q2 := Advance(id, true, map[], q1, calls[1]);
    assert Drive(id, true, map[], p0, calls) == q2;
    assert q2.stack == [RecordedStep(a, Some(ra), UndoReturns), RecordedStep(b, Some(rb), UndoReturns)];
    var cs := Checkpoints(q2.stack, b, rb, map[]);
    assert q2.store[id] == cs;
    assert cs[0] == StepContext(a, None, Completed);
    assert cs[1] == StepContext(b, Some(rb), Completed);
  }

  // ---------------------------------------------------------------------------
  // Rollback

  function Reversed<T>(s: seq<T>): seq<T>
    decreases |s|
  {
    if s == [] then [] else [s[|s| - 1]] + Reversed(s[..|s| - 1])
  }

  lemma {:induction false} ReversedIndex<T>(s: seq<T>)
    ensures |Reversed(s)| == |s|
    ensures forall i :: 0 <= i < |s| ==> Reversed(s)[i] == s[|s| - 1 - i]
    decreases |s|
  {
    if s != [] {
      ReversedIndex(s[..|s| - 1]);
    }
  }

  /** The invocation of one entry's undo, whether it returns or throws. */
  function UndoEvent<R>(s: RecordedStep<R>): Event<R> {
    Undid(s.name, s.argument, s.undo.UndoThrows?)
  }

  /** The undo invocations of a walk over `steps`, in walk order. */
  function UndoWalk<R>(steps: seq<RecordedStep<R>>): seq<Event<R>> {
    if steps == [] then [] else [UndoEvent(steps[0])] + UndoWalk(steps[1..])
  }

  /** Walking one more entry appends that entry's undo invocation. */
  lemma {:induction false} UndoWalkAppend<R>(steps: seq<RecordedStep<R>>, s: RecordedStep<R>)
    ensures UndoWalk(steps + [s]) == UndoWalk(steps) + [UndoEvent(s)]
  {
    if steps != [] {
      assert (steps + [s])[1..] == steps[1..] + [s];
      UndoWalkAppend(steps[1..], s);
    } else {
      assert steps + [s] == [s];
    }
  }

  /** The undo invocations rollback makes for a stack. */
  function RollbackTrace<R>(stack: seq<RecordedStep<R>>): seq<Event<R>> {
    UndoWalk(Reversed(stack))
  }

  lemma {:induction false} UndoWalkIndex<R>(steps: seq<RecordedStep<R>>)
    ensures |UndoWalk(steps)| == |steps|
    ensures forall i :: 0 <= i < |steps| ==> UndoWalk(steps)[i] == UndoEvent(steps[i])
  {
    if steps != [] {
      UndoWalkIndex(steps[1..]);
    }
  }

  /** Rollback invokes the undo of every stacked entry exactly once, in strict
      reverse (LIFO) order, bound to the entry's argument; an undo that throws does
      not stop the walk: the entries below it are still undone. */
  lemma RollbackIsLifo<R>(stack: seq<RecordedStep<R>>)
    ensures |RollbackTrace(stack)| == |stack|
    ensures forall i :: 0 <= i < |stack| ==>
              RollbackTrace(stack)[i] ==
                Undid(stack[|stack| - 1 - i].name, stack[|stack| - 1 - i].argument,
                      stack[|stack| - 1 - i].undo.UndoThrows?)
    ensures forall e :: e in RollbackTrace(stack) ==> e.Undid?
  {
    ReversedIndex(stack);
    UndoWalkIndex(Reversed(stack));
  }

  // ---------------------------------------------------------------------------
  // The transaction object

  class Transaction<R> {
    var stepStack: seq<RecordedStep<R>>
    var history: History<R>
    const id: string
    const storage: MemoryStorage?<R>
    const cleanupOnSuccess: bool
    ghost var trace: seq<Event<R>>

    /** The store as this transaction sees it (empty when it has no storage). */
    ghost function Store(): map<string, seq<StepContext<R>>>
      reads this, storage
    {
      if storage == null then map[] else storage.data
    }

    ghost function Snapshot(): Progress<R>
      reads this, storage
    {
      Progress(stepStack, Store(), trace)
    }

    /** `cleanupOnSuccess` defaults to true when the option is not given. */
    constructor (id: string, storage: MemoryStorage?<R>, cleanupOnSuccess: Option<bool>)
      ensures this.id == id && this.storage == storage
      ensures this.cleanupOnSuccess == (cleanupOnSuccess.None? || cleanupOnSuccess.value)
      ensures stepStack == [] && history == map[] && trace == []
    {
      this.id := id;
      this.storage := storage;
      this.cleanupOnSuccess := cleanupOnSuccess.GetOr(true);
      stepStack := [];
      history := map[];
      trace := [];
    }

    /** `step(name, definition)`: skip a step already in the history, or run its `do`. */
    method Step(name: string, definition: StepDefinition<R>) returns (r: Result<Option<R>>)
      modifies this`stepStack, this`trace, storage
      ensures Snapshot() == Advance(id, storage != null, history, old(Snapshot()), StepCall(name, definition))
      // a skipped step never invokes `do`, returns its historical result, and
      // still pushes an undo bound to that result
      ensures name in history ==>
                && r == Ok(history[name])
                && stepStack == old(stepStack) + [RecordedStep(name, history[name], definition.undo)]
                && trace == old(trace)
                && Store() == old(Store())
      // a fresh step invokes `do` once; its undo is pushed only if `do` returns
      ensures name !in history ==> trace == old(trace) + [Did(name)]
      ensures name !in history && definition.perform.Throws? ==>
                && r == Thrown(definition.perform.error)
                && stepStack == old(stepStack)
                && Store() == old(Store())
      ensures name !in history && definition.perform.Returns? ==>
                && r == Ok(Some(definition.perform.result))
                && stepStack == old(stepStack) + [RecordedStep(name, Some(definition.perform.result), definition.undo)]
                && (storage != null ==>
                      storage.data == old(storage.data)[id := Checkpoints(stepStack, name, definition.perform.result, history)])
    {
      if name in history {
        var result := history[name];
        stepStack := stepStack + [RecordedStep(name, result, definition.undo)];
        return Ok(result);
      }
      trace := trace + [Did(name)];
      match definition.perform
      case Throws(e) =>
        return Thrown(e);
      case Returns(result) =>
        stepStack := stepStack + [RecordedStep(name, Some(result), definition.undo)];
        if storage != null {
          var currentHistory := Checkpoints(stepStack, name, result, history);
          storage.Save(id, currentHistory);
        }
        return Ok(Some(result));
    }

    /** The reverse walk over the stack; each undo is isolated, so a throwing undo
        does not stop the others. Afterwards storage is cleared and the stack emptied. */
    method Rollback()
      modifies this`stepStack, this`trace, storage
      ensures trace == old(trace) + RollbackTrace(old(stepStack))
      ensures stepStack == []
      ensures storage != null ==> storage.data == old(storage.data) - {id}
    {
      var stepsToUndo := Reversed(stepStack);
      ghost var start := trace;
      var i := 0;
      while i < |stepsToUndo|
        invariant 0 <= i <= |stepsToUndo|
        invariant trace == start + UndoWalk(stepsToUndo[..i])
        modifies this`trace
      {
        var step := stepsToUndo[i];
        // the undo runs; if it throws, the error is logged and the walk goes on
        trace := trace + [UndoEvent(step)];
        UndoWalkAppend(stepsToUndo[..i], step);
        assert stepsToUndo[..i + 1] == stepsToUndo[..i] + [step];
        i := i + 1;
      }
      assert stepsToUndo[..i] == stepsToUndo;
      if storage != null {
        storage.Clear(id);
      }
      stepStack := [];
    }

    /** The loading part of `run`: with storage, every saved checkpoint of this
        transaction is set into the history, in list order. */
    method LoadHistory()
      modifies this`history
      ensures storage == null ==> history == old(history)
      ensures storage != null ==>
                history == (if id in storage.data then Loaded(old(history), storage.data[id]) else old(history))
    {
      if storage != null {
        var savedState := storage.Load(id);
        if savedState.Some? {
          var saved := savedState.value;
          var j := 0;
          while j < |saved|
            invariant 0 <= j <= |saved|
            invariant history == Loaded(old(history), saved[..j])
          {
            assert saved[..j + 1][..j] == saved[..j];
            history := history[saved[j].name := saved[j].result];
            j := j + 1;
          }
          assert saved[..j] == saved;
        }
      }
    }

    /** `await workflow(this)`: the calls in order, until the first one that throws;
        returns its index (`|calls|` when none throws) and the error it threw. */
    method Perform(calls: seq<StepCall<R>>) returns (k: nat, failure: Option<Error>)
      modifies this`stepStack, this`trace, storage
      ensures k == FirstFailure(history, calls)
      ensures failure.None? <==> k == |calls|
      ensures k == |calls| ==> Snapshot() == Drive(id, storage != null, history, old(Snapshot()), calls)
      ensures k < |calls| ==>
                && failure == Some(calls[k].definition.perform.error)
                && var q := Drive(id, storage != null, history, old(Snapshot()), calls[..k]);
                   Snapshot() == q.(trace := q.trace + [Did(calls[k].name)])
    {
      ghost var p0 := Snapshot();
      assert calls[..0] == [];
      k := 0;
      failure := None;
      while k < |calls| && failure.None?
        invariant 0 <= k <= |calls|
        invariant forall j :: 0 <= j < k ==> !Fails(history, calls[j])
        invariant failure.None? ==> Snapshot() == Drive(id, storage != null, history, p0, calls[..k])
        invariant failure.Some? ==>
                    && k < |calls| && Fails(history, calls[k])
                    && failure.value == calls[k].definition.perform.error
                    && var q := Drive(id, storage != null, history, p0, calls[..k]);
                       Snapshot() == q.(trace := q.trace + [Did(calls[k].name)])
        decreases |calls| - k, if failure.None? then 1 else 0
      {
        var r := Step(calls[k].name, calls[k].definition);
        assert calls[..k + 1][..k] == calls[..k];
        if r.Thrown? {
          failure := Some(r.error);
        } else {
          k := k + 1;
        }
      }
      if failure.None? {
        assert calls[..k] == calls;
      }
    }

    /** `run(workflow)`: load the history, make the calls, and on the first error
        roll back and rethrow that error. */
    method Run(calls: seq<StepCall<R>>) returns (out: Result<()>)
      modifies this, storage
      ensures storage == null ==> history == old(history)
      ensures storage != null ==>
                history == (if id in old(storage.data) then Loaded(old(history), old(storage.data)[id]) else old(history))
      ensures var k := FirstFailure(history, calls);
              var p0 := Progress(old(stepStack), old(Store()), old(trace));
              && (out.Ok? <==> k == |calls|)
              && (k == |calls| ==>
                    var q := Drive(id, storage != null, history, p0, calls);
                    && stepStack == q.stack
                    && trace == q.trace
                    && (storage != null ==>
                          storage.data == if cleanupOnSuccess then old(storage.data) - {id} else q.store))
              && (k < |calls| ==>
                    var q := Drive(id, storage != null, history, p0, calls[..k]);
                    && out == Thrown(calls[k].definition.perform.error)
                    && stepStack == []
                    && trace == q.trace + [Did(calls[k].name)] + RollbackTrace(q.stack)
                    && (storage != null ==> storage.data == old(storage.data) - {id}))
    {
      LoadHistory();
      var k, failure := Perform(calls);
      DriveStore(id, storage != null, history, Progress(old(stepStack), old(Store()), old(trace)), calls[..k]);
      if failure.None? {
        assert calls[..k] == calls;
        if storage != null && cleanupOnSuccess {
          storage.Clear(id);
        }
        out := Ok(());
      } else {
        Rollback();
        out := Thrown(failure.value);
      }
    }
  }

  // ---------------------------------------------------------------------------
  // The scenarios the test suites exercise, stated on the specification of `run`

  /** Resuming with `step-1` checkpointed: `step-1` is skipped, `step-2` runs once,
      and the stack holds both, `step-1` bound to its cached result. */
  lemma ResumeSkipsCheckpointedStep(id: string, cached: string, result2: string, d1: Action<string>)
    ensures var h := Loaded(map[], [StepContext("step-1", Some(cached), Completed)]);
      var calls := [StepCall("step-1", StepDefinition(d1, UndoReturns)),
                    StepCall("step-2", StepDefinition(Returns(result2), UndoReturns))];
      var q := Drive(id, true, h, Progress([], map[id := [StepContext("step-1", Some(cached), Completed)]], []), calls);
      && FirstFailure(h, calls) == |calls|
      && q.trace == [Did("step-2")]
      && q.stack == [RecordedStep("step-1", Some(cached), UndoReturns), RecordedStep("step-2", Some(result2), UndoReturns)]
  {
    var saved := [StepContext("step-1", Some(cached), Completed)];
    assert saved[..0] == [];
    assert Loaded(map[], saved[..0]) == map[];
    var h := Loaded(map[], saved);
    assert h == map["step-1" := Some(cached)];
    assert "step-1" in h && "step-2" !in h;
    var calls := [StepCall("step-1", StepDefinition(d1, UndoReturns)),
                  StepCall("step-2", StepDefinition(Returns(result2), UndoReturns))];
    var p0 := Progress([], map[id := saved], []);
    DriveTrace(id, true, h, p0, calls);
    assert !Fails(h, calls[0]) && !Fails(h, calls[1]);
    DriveStack(id, true, h, p0, calls);
    assert calls[1..][1..] == [];
    assert Invocations(h, calls[1..]) == [Did("step-2")];
    assert Stacked(h, calls[1..]) == [RecordedStep("step-2", Some(result2), UndoReturns)];
  }

  /** Resuming with `A` checkpointed when `B` then fails: `A`'s `do` is not invoked
      again, `B`'s is, and `A`'s undo still runs, bound to the cached result. */
  lemma ResumeThenFailureUndoesSkippedStep(id: string, cached: string, e: Error)
    ensures var saved := [StepContext("A", Some(cached), Completed)];
      var h := Loaded(map[], saved);
      var calls := [StepCall("A", StepDefinition(Returns("unused"), UndoReturns)),
                    StepCall("B", StepDefinition(Throws(e), UndoReturns))];
      var k := FirstFailure(h, calls);
      var q := Drive(id, true, h, Progress([], map[id := saved], []), calls[..k]);
      && k == 1
      && q.trace + [Did(calls[k].name)] + RollbackTrace(q.stack) == [Did("B"), Undid("A", Some(cached), false)]
  {
    var saved := [StepContext("A", Some(cached), Completed)];
    assert saved[..0] == [];
    assert Loaded(map[], saved[..0]) == map[];
    var h := Loaded(map[], saved);
    assert h == map["A" := Some(cached)];
    var calls := [StepCall("A", StepDefinition(Returns("unused"), UndoReturns)),
                  StepCall("B", StepDefinition(Throws(e), UndoReturns))];
    var p0: Progress<string> := Progress([], map[id := saved], []);
    assert calls[..1] == [calls[0]];
    assert calls[..1][..0] == [];
    var q := Advance(id, true, h, p0, calls[0]);
    assert Drive(id, true, h, p0, calls[..1]) == q;
    assert q.stack == [RecordedStep("A", Some(cached), UndoReturns)];
    RollbackIsLifo(q.stack);
  }

  /** A run without storage whose second step throws: `do 1`, `do 2`, then `undo 1`;
      the failing step is never undone, and the error rethrown is that step's. */
  lemma FailureUndoesCompletedStepsOnly(id: string, r1: string, e: Error)
    ensures var calls := [StepCall("step1", StepDefinition(Returns(r1), UndoReturns)),
                          StepCall("step2", StepDefinition(Throws(e), UndoReturns))];
      var k := FirstFailure(map[], calls);
      var q := Drive(id, false, map[], Progress([], map[], []), calls[..k]);
      && k == 1
      && calls[k].definition.perform.error == e
      && q.trace + [Did(calls[k].name)] + RollbackTrace(q.stack) ==
           [Did("step1"), Did("step2"), Undid("step1", Some(r1), false)]
  {
    var calls := [StepCall("step1", StepDefinition(Returns(r1), UndoReturns)),
                  StepCall("step2", StepDefinition(Throws(e), UndoReturns))];
    var p0: Progress<string> := Progress([], map[], []);
    assert calls[..1] == [calls[0]];
    assert calls[..1][..0] == [];
    var q := Advance(id, false, map[], p0, calls[0]);
    assert Drive(id, false, map[], p0, calls[..1]) == q;
    RollbackIsLifo(q.stack);
  }

  /** A double fault: the undo of `step1` throws while rolling back the failure of
      `step2`; the undo is still invoked, and the error surfaced is `step2`'s. */
  lemma DoubleFaultKeepsOriginalError(id: string, r1: string, original: Error, undoError: Error)
    ensures var calls := [StepCall("step1", StepDefinition(Returns(r1), UndoThrows(undoError))),
                          StepCall("step2", StepDefinition(Throws(original), UndoReturns))];
      var k := FirstFailure(map[], calls);
      var q := Drive(id, false, map[], Progress([], map[], []), calls[..k]);
      && k == 1
      && calls[k].definition.perform.error == original
      && q.trace + [Did(calls[k].name)] + RollbackTrace(q.stack) ==
           [Did("step1"), Did("step2"), Undid("step1", Some(r1), true)]
  {
    var calls := [StepCall("step1", StepDefinition(Returns(r1), UndoThrows(undoError))),
                  StepCall("step2", StepDefinition(Throws(original), UndoReturns))];
    var p0: Progress<string> := Progress([], map[], []);
    assert calls[..1] == [calls[0]];
    assert calls[..1][..0] == [];
    var q := Advance(id, false, map[], p0, calls[0]);
    assert Drive(id, false, map[], p0, calls[..1]) == q;
    RollbackIsLifo(q.stack);
  }

  /** Resuming after the same-run quirk: the result of a step that ran fresh before
      another fresh step was saved as `undefined`, so on resume that step is skipped
      and returns `undefined` rather than its original result. */
  lemma ResumeAfterQuirkYieldsUndefined<R>(id: string, a: string, b: string, ra: R, rb: R)
    requires a != b
    ensures var calls := [StepCall(a, StepDefinition(Returns(ra), UndoReturns)),
                          StepCall(b, StepDefinition(Returns(rb), UndoReturns))];
      var q := Drive(id, true, map[], Progress([], map[], []), calls);
      var h := Loaded(map[], q.store[id]);
      && a in h && h[a] == None
      && b in h && h[b] == Some(rb)
  {
    SameRunResultDropped(id, a, b, ra, rb);
    var saved := [StepContext(a, None, Completed), StepContext(b, Some(rb), Completed)];
    assert saved[..1] == [saved[0]];
    assert saved[..1][..0] == [];
  }

  // ---------------------------------------------------------------------------
  // The same scenarios, run through `Transaction.run` on fresh objects

  /** A run without storage whose two steps return: both `do`s run, in order,
      and no undo runs. */
  method HappyPathRun(r1: string, r2: string) returns (out: Result<()>, ghost trace: seq<Event<string>>)
    ensures out == Ok(())
    ensures trace == [Did("step1"), Did("step2")]
  {
    var tx := new Transaction<string>("test-tx-1", null, None);
    var calls := [StepCall("step1", StepDefinition(Returns(r1), UndoReturns)),
                  StepCall("step2", StepDefinition(Returns(r2), UndoReturns))];
    out := tx.Run(calls);
    assert tx.history == map[];
    assert calls[1..][1..] == [];
    assert FirstFailure(map[], calls) == |calls|;
    assert out.value == ();
    DriveTrace("test-tx-1", false, map[], Progress([], map[], []), calls);
    assert Invocations(map[], calls[1..]) == [Did("step2")];
    trace := tx.trace;
  }

  /** A run without storage whose second step throws `e`: `do 1`, `do 2`, then
      `undo 1`, and `run` rejects with `e`. */
  method RollbackRun(r1: string, e: Error) returns (out: Result<()>, ghost trace: seq<Event<string>>)
    ensures out == Thrown(e)
    ensures trace == [Did("step1"), Did("step2"), Undid("step1", Some(r1), false)]
  {
    var tx := new Transaction<string>("test-tx-2", null, None);
    var calls := [StepCall("step1", StepDefinition(Returns(r1), UndoReturns)),
                  StepCall("step2", StepDefinition(Throws(e), UndoReturns))];
    out := tx.Run(calls);
    FailureUndoesCompletedStepsOnly("test-tx-2", r1, e);
    trace := tx.trace;
  }

  /** A run without storage whose first undo throws while rolling back the second
      step's failure: the undo is still invoked and `run` rejects with the
      original error. */
  method DoubleFaultRun(r1: string, original: Error, undoError: Error) returns (out: Result<()>, ghost trace: seq<Event<string>>)
    ensures out == Thrown(original)
    ensures trace == [Did("step1"), Did("step2"), Undid("step1", Some(r1), true)]
  {
    var tx := new Transaction<string>("test-tx-3", null, None);
    var calls := [StepCall("step1", StepDefinition(Returns(r1), UndoThrows(undoError))),
                  StepCall("step2", StepDefinition(Throws(original), UndoReturns))];
    out := tx.Run(calls);
    DoubleFaultKeepsOriginalError("test-tx-3", r1, original, undoError);
    trace := tx.trace;
  }

  /** Resuming `tx-resume` with `step-1` saved as completed: only `step-2`'s `do`
      runs, the run succeeds, and afterwards nothing is stored for the id. */
  method ResumeRun(d1: Action<string>) returns (out: Result<()>, loaded: Option<seq<StepContext<string>>>, ghost trace: seq<Event<string>>)
    ensures out == Ok(())
    ensures loaded == None
    ensures trace == [Did("step-2")]
  {
    var storage := new MemoryStorage<string>();
    var saved := [StepContext("step-1", Some("cached-result"), Completed)];
    storage.Save("tx-resume", saved);
    var tx := new Transaction<string>("tx-resume", storage, None);
    var calls := [StepCall("step-1", StepDefinition(d1, UndoReturns)),
                  StepCall("step-2", StepDefinition(Returns("fresh"), UndoReturns))];
    out := tx.Run(calls);
    ResumeSkipsCheckpointedStep("tx-resume", "cached-result", "fresh", d1);
    assert tx.history == Loaded(map[], saved);
    assert out.value == ();
    loaded := storage.Load("tx-resume");
    trace := tx.trace;
  }

  /** Resuming with `A` saved as completed when `B` then throws `e`: `B`'s `do`
      runs, `A`'s undo runs bound to the cached result, `run` rejects with `e`,
      and nothing stays stored for the id. */
  method ResumeFailureRun(e: Error) returns (out: Result<()>, loaded: Option<seq<StepContext<string>>>, ghost trace: seq<Event<string>>)
    ensures out == Thrown(e)
    ensures loaded == None
    ensures trace == [Did("B"), Undid("A", Some("cached"), false)]
  {
    var storage := new MemoryStorage<string>();
    var saved := [StepContext("A", Some("cached"), Completed)];
    storage.Save("tx-resume-fail", saved);
    var tx := new Transaction<string>("tx-resume-fail", storage, None);
    var calls := [StepCall("A", StepDefinition(Returns("unused"), UndoReturns)),
                  StepCall("B", StepDefinition(Throws(e), UndoReturns))];
    out := tx.Run(calls);
    ResumeThenFailureUndoesSkippedStep("tx-resume-fail", "cached", e);
    loaded := storage.Load("tx-resume-fail");
    trace := tx.trace;
  }
}
