/** What a run does, stated against the sequence of outcomes the procedure
    produces, independently of how `RunTries` is written. */
module RetryProperties {
  import opened Exceptions
  import opened RetryFailure
  import opened Retries

  /** The outcomes of `n` consecutive invocations starting in state `world`,
      and the state after them. */
  function Invocations<S, V>(procedure: Procedure<S, V>, world: S, n: nat): (r: (seq<Outcome<V>>, S))
    ensures |r.0| == n
    ensures n > 0 ==> r.0[0] == procedure(world).0
  {
    if n == 0 then ([], world)
    else
      var (o, world') := procedure(world);
      var (rest, last) := Invocations(procedure, world', n - 1);
      ([o] + rest, last)
  }

  /** The object an outcome threw, if any. */
  function ErrorOf<V>(o: Outcome<V>): seq<Throwable> {
    if o.Threw? then [o.error] else []
  }

  /** The thrown objects among `outs`, in order. */
  function Errors<V>(outs: seq<Outcome<V>>): seq<Throwable> {
    if |outs| == 0 then [] else ErrorOf(outs[0]) + Errors(outs[1..])
  }

  /** `n` copies of `x`. */
  function Repeat(x: int, n: nat): (s: seq<int>)
    ensures |s| == n
    ensures forall i :: 0 <= i < n ==> s[i] == x
  {
    if n == 0 then [] else [x] + Repeat(x, n - 1)
  }

  function Sum(s: seq<int>): int {
    if s == [] then 0 else s[0] + Sum(s[1..])
  }

  lemma {:induction false} SumRepeat(x: int, n: nat)
    ensures Sum(Repeat(x, n)) == n * x
  {
    if n > 0 {
      assert Repeat(x, n)[1..] == Repeat(x, n - 1);
      SumRepeat(x, n - 1);
    }
  }

  /** Invoking `m` times yields the first `m` of the outcomes of invoking
      `n >= m` times: the outcome sequence does not depend on how far one
      looks. */
  lemma {:induction false} InvocationsPrefix<S, V>(procedure: Procedure<S, V>, world: S, m: nat, n: nat)
    requires m <= n
    ensures Invocations(procedure, world, n).0[..m] == Invocations(procedure, world, m).0
  {
    if m > 0 {
      var world' := procedure(world).1;
      InvocationsPrefix(procedure, world', m - 1, n - 1);
      assert Invocations(procedure, world, n).0[1..] == Invocations(procedure, world', n - 1).0;
    }
  }

  /** With `outs` the outcomes of the attempts a run made, starting from
      executor state `r`: every attempt but the last threw an exception of
      the accepted class, and the run ended as the last outcome says. */
  ghost predicate Ends<S, V>(r: Retry<S, V>, outs: seq<Outcome<V>>, t: Trace<S, V>)
    requires |outs| >= 1
  {
    RetriedBeforeLast(r, outs) && LastDecides(r, outs, t)
  }

  ghost predicate RetriedBeforeLast<S, V>(r: Retry<S, V>, outs: seq<Outcome<V>>) {
    forall i :: 0 <= i < |outs| - 1 ==> r.Retryable(outs[i])
  }

  /** The last outcome decides the result; the suppressed list grows by the
      recorded exceptions. */
  ghost predicate LastDecides<S, V>(r: Retry<S, V>, outs: seq<Outcome<V>>, t: Trace<S, V>)
    requires |outs| >= 1
  {
    var k := |outs|;
    var last := outs[k - 1];
    && (last.Returned? ==>
          && t.result == Success(last.value)
          && t.executor.suppressedExceptions == r.suppressedExceptions + Errors(outs[..k - 1]))
    && (last.Threw? && !r.Retryable(last) ==>
          && t.result == Propagated(last.error)
          && t.executor.suppressedExceptions == r.suppressedExceptions + Errors(outs[..k - 1]))
    && (r.Retryable(last) ==>
          && r.try + k >= r.tryAmount
          && t.executor.suppressedExceptions == r.suppressedExceptions + Errors(outs)
          && t.result == Exhausted(NewRetryFailureException(t.executor.suppressedExceptions)))
  }

  /** One unfolding of `RunTries` when the first attempt is retried. */
  lemma RetriedOnce<S, V>(r: Retry<S, V>, world: S, waits: seq<int>)
    requires r.Retryable(r.procedure(world).0) && r.try + 1 < r.tryAmount
    ensures var (o, world1) := r.procedure(world);
      r.RunTries(world, waits) == r.Recorded(o.error).RunTries(world1, waits + [r.waitTime])
  {
  }

  lemma InvocationsCons<S, V>(procedure: Procedure<S, V>, world: S, n: nat)
    requires n >= 1
    ensures Invocations(procedure, world, n).0
      == [procedure(world).0] + Invocations(procedure, procedure(world).1, n - 1).0
    ensures Invocations(procedure, world, n).1 == Invocations(procedure, procedure(world).1, n - 1).1
  {
  }

  lemma InvocationsOne<S, V>(procedure: Procedure<S, V>, world: S)
    ensures Invocations(procedure, world, 1) == ([procedure(world).0], procedure(world).1)
  {
    assert Invocations(procedure, procedure(world).1, 0) == ([], procedure(world).1);
    assert [procedure(world).0] + [] == [procedure(world).0];
  }

  /** A run of `k` attempts advances the procedure's state by `k`
      invocations and appends `k - 1` waits of `waitTime` to the log: one
      between consecutive attempts, none after the last. */
  lemma {:induction false} RunTriesEffects<S, V>(r: Retry<S, V>, world: S, waits: seq<int>)
    ensures var t := r.RunTries(world, waits);
      var k := t.executor.try - r.try;
      && t.world == Invocations(r.procedure, world, k).1
      && t.waits == waits + Repeat(r.waitTime, k - 1)
    decreases r.tryAmount - r.try
  {
    var (o, world1) := r.procedure(world);
    if r.Retryable(o) && r.try + 1 < r.tryAmount {
      var r2, waits2 := r.Recorded(o.error), waits + [r.waitTime];
      RunTriesEffects(r2, world1, waits2);
      RetriedOnce(r, world, waits);
      var t := r.RunTries(world, waits);
      assert t == r2.RunTries(world1, waits2);
      EffectsStep(r.procedure, world, r.waitTime, waits, t.executor.try - r.try, t);
    } else {
      InvocationsOne(r.procedure, world);
    }
  }

  /** Prepending one retried attempt to a run of `k - 1` attempts. */
  lemma EffectsStep<S, V>(p: Procedure<S, V>, world: S, w: int, waits: seq<int>, k: nat, t: Trace<S, V>)
    requires k >= 2
    requires t.world == Invocations(p, p(world).1, k - 1).1
    requires t.waits == (waits + [w]) + Repeat(w, k - 2)
    ensures t.world == Invocations(p, world, k).1
    ensures t.waits == waits + Repeat(w, k - 1)
  {
    InvocationsCons(p, world, k);
    RepeatCons(w, k - 1);
    assert (waits + [w]) + Repeat(w, k - 2) == waits + ([w] + Repeat(w, k - 2));
  }

  lemma RepeatCons(x: int, n: nat)
    requires n >= 1
    ensures Repeat(x, n) == [x] + Repeat(x, n - 1)
  {
  }

  /** A run of `k` attempts ends as the procedure's first `k` outcomes
      say. */
  lemma {:induction false} RunTriesEnds<S, V>(r: Retry<S, V>, world: S, waits: seq<int>)
    ensures var t := r.RunTries(world, waits);
      Ends(r, Invocations(r.procedure, world, t.executor.try - r.try).0, t)
    decreases r.tryAmount - r.try
  {
    var (o, world1) := r.procedure(world);
    if r.Retryable(o) && r.try + 1 < r.tryAmount {
      var r2, waits2 := r.Recorded(o.error), waits + [r.waitTime];
      RunTriesEnds(r2, world1, waits2);
      RetriedOnce(r, world, waits);
      var t := r.RunTries(world, waits);
      assert t == r2.RunTries(world1, waits2);
      var k := t.executor.try - r.try;
      InvocationsCons(r.procedure, world, k);
      EndsStep(r, o, Invocations(r.procedure, world1, k - 1).0, t);
    } else {
      InvocationsOne(r.procedure, world);
      if o.Threw? {
        assert Errors([o]) == [o.error];
      }
    }
  }

  /** Prepending one retried attempt to the outcomes of a run. */
  lemma EndsStep<S, V>(r: Retry<S, V>, o: Outcome<V>, outs2: seq<Outcome<V>>, t: Trace<S, V>)
    requires r.Retryable(o) && |outs2| >= 1
    requires Ends(r.Recorded(o.error), outs2, t)
    ensures Ends(r, [o] + outs2, t)
  {
    RetriedStep(r, r.Recorded(o.error), o, outs2);
    LastDecidesStep(r, o, outs2, t);
  }

  lemma RetriedStep<S, V>(r: Retry<S, V>, r2: Retry<S, V>, o: Outcome<V>, outs2: seq<Outcome<V>>)
    requires r.Retryable(o)
    requires r2.acceptedException == r.acceptedException
    requires RetriedBeforeLast(r2, outs2)
    ensures RetriedBeforeLast(r, [o] + outs2)
  {
    var outs := [o] + outs2;
    forall i | 0 <= i < |outs| - 1
      ensures r.Retryable(outs[i])
    {
      if i > 0 {
        assert outs[i] == outs2[i - 1];
      }
    }
  }

  lemma LastDecidesStep<S, V>(r: Retry<S, V>, o: Outcome<V>, outs2: seq<Outcome<V>>, t: Trace<S, V>)
    requires r.Retryable(o) && |outs2| >= 1
    requires LastDecides(r.Recorded(o.error), outs2, t)
    ensures LastDecides(r, [o] + outs2, t)
  {
    var outs := [o] + outs2;
    var k := |outs|;
    assert outs[..k - 1] == [o] + outs2[..k - 2];
    ErrorsCons(o, outs2[..k - 2]);
    ErrorsCons(o, outs2);
    assert outs[k - 1] == outs2[k - 2];
  }

  lemma ErrorsCons<V>(o: Outcome<V>, outs: seq<Outcome<V>>)
    requires o.Threw?
    ensures Errors([o] + outs) == [o.error] + Errors(outs)
  {
    assert ([o] + outs)[1..] == outs;
  }

  /** `run()` as a whole. With `k` attempts made and `outs` the procedure's
      first `k` outcomes: at least one and at most `max(tryAmount, 1)`
      attempts; the procedure's state has advanced by exactly `k`
      invocations; every attempt but the last threw an accepted exception;
      `k - 1` waits of `waitTime`; and the run ends as the last outcome
      says — its value returned, its non-accepted throwable rethrown, or,
      when it too is accepted and the budget is spent, a
      `RetryFailureException` holding all `k` exceptions in attempt order,
      which is also the executor's suppressed list. */
  lemma RunSpec<S, V>(r: Retry<S, V>, world: S)
    ensures var t := r.Execution(world);
      var k := t.executor.try;
      && 1 <= k <= r.Budget()
      && t.executor.SameSettings(r)
      && var (outs, world') := Invocations(r.procedure, world, k);
      && t.world == world'
      && (forall i :: 0 <= i < k - 1 ==> r.Retryable(outs[i]))
      && t.waits == Repeat(r.waitTime, k - 1)
      && (outs[k - 1].Returned? ==>
            t.result == Success(outs[k - 1].value) && t.executor.suppressedExceptions == Errors(outs[..k - 1]))
      && (outs[k - 1].Threw? && !r.Retryable(outs[k - 1]) ==>
            t.result == Propagated(outs[k - 1].error) && t.executor.suppressedExceptions == Errors(outs[..k - 1]))
      && (r.Retryable(outs[k - 1]) ==>
            && k == r.Budget()
            && t.executor.suppressedExceptions == Errors(outs)
            && t.result == Exhausted(NewRetryFailureException(Errors(outs))))
  {
    RunTriesEffects(r.Reset(), world, []);
    RunTriesEnds(r.Reset(), world, []);
  }

  /** The thrown objects of outcomes that all threw are those objects, one
      per outcome, in order. */
  lemma {:induction false} ErrorsAllThrown<V>(outs: seq<Outcome<V>>)
    requires forall i :: 0 <= i < |outs| ==> outs[i].Threw?
    ensures |Errors(outs)| == |outs|
    ensures forall i :: 0 <= i < |outs| ==> Errors(outs)[i] == outs[i].error
  {
    if outs != [] {
      ErrorsAllThrown(outs[1..]);
    }
  }

  /** Every outcome in an invocation sequence is one the procedure produces
      in some state. */
  lemma {:induction false} InvocationOutcome<S, V>(procedure: Procedure<S, V>, world: S, n: nat, i: nat)
    requires i < n
    ensures exists s :: Invocations(procedure, world, n).0[i] == procedure(s).0
  {
    if i == 0 {
      assert Invocations(procedure, world, n).0[0] == procedure(world).0;
    } else {
      var world' := procedure(world).1;
      InvocationOutcome(procedure, world', n - 1, i - 1);
      assert Invocations(procedure, world, n).0[i] == Invocations(procedure, world', n - 1).0[i - 1];
    }
  }

  /** The suppressed list holds, in attempt order, exactly the exceptions
      that were recorded: one per failed attempt but the last, plus the last
      when it too was accepted. */
  lemma SuppressedInAttemptOrder<S, V>(r: Retry<S, V>, world: S)
    ensures var t := r.Execution(world);
      var k := t.executor.try;
      var outs := Invocations(r.procedure, world, k).0;
      var recorded := if r.Retryable(outs[k - 1]) then k else k - 1;
      && |t.executor.suppressedExceptions| == recorded
      && forall i :: 0 <= i < recorded ==> outs[i] == Threw(t.executor.suppressedExceptions[i])
  {
    var t := r.Execution(world);
    var r0 := r.Reset();
    RunTriesEnds(r0, world, []);
    RecordedInOrder(r0, Invocations(r.procedure, world, t.executor.try).0, t);
  }

  /** A run that started with nothing suppressed suppressed exactly the
      thrown objects of the attempts it recorded, in attempt order. */
  lemma RecordedInOrder<S, V>(r: Retry<S, V>, outs: seq<Outcome<V>>, t: Trace<S, V>)
    requires |outs| >= 1 && Ends(r, outs, t) && r.suppressedExceptions == []
    ensures var k := |outs|;
      var recorded := if r.Retryable(outs[k - 1]) then k else k - 1;
      && |t.executor.suppressedExceptions| == recorded
      && forall i :: 0 <= i < recorded ==> outs[i] == Threw(t.executor.suppressedExceptions[i])
  {
    var k := |outs|;
    if r.Retryable(outs[k - 1]) {
      ErrorsAllThrown(outs);
    } else {
      ErrorsAllThrown(outs[..k - 1]);
    }
  }

  /** The first attempt returns: one invocation, its value returned as is,
      no wait, nothing suppressed. */
  lemma FirstAttemptReturns<S, V>(r: Retry<S, V>, world: S)
    requires r.procedure(world).0.Returned?
    ensures var t := r.Execution(world);
      && t.result == Success(r.procedure(world).0.value)
      && t.executor.try == 1
      && t.world == r.procedure(world).1
      && t.waits == []
      && t.executor.suppressedExceptions == []
  {
    RunSpec(r, world);
    var t := r.Execution(world);
    assert Invocations(r.procedure, r.procedure(world).1, 0).1 == r.procedure(world).1;
    assert Errors<V>([]) == [];
  }

  /** A throwable that is not retried (of another class, or not an
      `Exception` at all) leaves the run unchanged after the first attempt:
      no further attempt, no wait, nothing recorded, no aggregate error. */
  lemma NotAcceptedPropagates<S, V>(r: Retry<S, V>, world: S)
    requires r.procedure(world).0.Threw? && !r.Retryable(r.procedure(world).0)
    ensures var t := r.Execution(world);
      && t.result == Propagated(r.procedure(world).0.error)
      && !t.result.Exhausted?
      && t.executor.try == 1
      && t.world == r.procedure(world).1
      && t.waits == []
      && t.executor.suppressedExceptions == []
  {
    RunSpec(r, world);
    assert Invocations(r.procedure, r.procedure(world).1, 0).1 == r.procedure(world).1;
    assert Errors<V>([]) == [];
  }

  /** A procedure that always throws an accepted exception is invoked
      `max(tryAmount, 1)` times; `run()` throws a `RetryFailureException`
      holding those exceptions in attempt order, the same list the executor
      suppressed; it waited `waitTime` between consecutive attempts only. */
  lemma AlwaysFailingExhausts<S, V>(r: Retry<S, V>, world: S)
    requires forall s :: r.Retryable(r.procedure(s).0)
    ensures var t := r.Execution(world);
      var outs := Invocations(r.procedure, world, r.Budget()).0;
      && t.executor.try == r.Budget()
      && t.world == Invocations(r.procedure, world, r.Budget()).1
      && t.result.Exhausted?
      && t.result.failure.GetOriginalExceptions() == t.executor.suppressedExceptions
      && |t.result.failure.GetOriginalExceptions()| == r.Budget()
      && (forall i :: 0 <= i < r.Budget() ==> outs[i] == Threw(t.result.failure.GetOriginalExceptions()[i]))
      && t.waits == Repeat(r.waitTime, r.Budget() - 1)
      && Sum(t.waits) == (r.Budget() - 1) * r.waitTime
  {
    RunSpec(r, world);
    var k := r.Execution(world).executor.try;
    var outs := Invocations(r.procedure, world, k).0;
    AllInvocationsRetryable(r, world, k);
    ErrorsAllThrown(outs);
    SumRepeat(r.waitTime, k - 1);
  }

  lemma AllInvocationsRetryable<S, V>(r: Retry<S, V>, world: S, n: nat)
    requires forall s :: r.Retryable(r.procedure(s).0)
    ensures forall i :: 0 <= i < n ==> r.Retryable(Invocations(r.procedure, world, n).0[i])
  {
    forall i | 0 <= i < n
      ensures r.Retryable(Invocations(r.procedure, world, n).0[i])
    {
      InvocationOutcome(r.procedure, world, n, i);
    }
  }

  /** `j` accepted failures followed by a return, with `j < tryAmount`:
      `j + 1` invocations, the value returned, `j` waits, and the `j`
      failures suppressed in order. */
  lemma SucceedsAfterFailures<S, V>(r: Retry<S, V>, world: S, j: nat, outs: seq<Outcome<V>>)
    requires j < r.tryAmount
    requires outs == Invocations(r.procedure, world, j + 1).0
    requires forall i :: 0 <= i < j ==> r.Retryable(outs[i])
    requires outs[j].Returned?
    ensures var t := r.Execution(world);
      && t.result == Success(outs[j].value)
      && t.executor.try == j + 1
      && t.world == Invocations(r.procedure, world, j + 1).1
      && t.waits == Repeat(r.waitTime, j)
      && |t.executor.suppressedExceptions| == j
      && (forall i :: 0 <= i < j ==> outs[i] == Threw(t.executor.suppressedExceptions[i]))
  {
    RunSpec(r, world);
    var t := r.Execution(world);
    var k := t.executor.try;
    if k < j + 1 {
      InvocationsPrefix(r.procedure, world, k, j + 1);
      assert false;
    } else if k > j + 1 {
      InvocationsPrefix(r.procedure, world, j + 1, k);
      assert false;
    }
    ErrorsAllThrown(outs[..j]);
  }

  /** `run()` depends on the settings and the procedure only: the counter
      and suppressed list left by earlier runs make no difference. */
  lemma RunIgnoresEarlierRuns<S, V>(r1: Retry<S, V>, r2: Retry<S, V>, world: S)
    requires r1.SameSettings(r2)
    ensures r1.Execution(world) == r2.Execution(world)
  {
    assert r1.Reset() == r2.Reset();
  }

  /** When `run()` throws the aggregate error, its list is the executor's
      suppressed list and holds only exceptions of the accepted class. */
  lemma ExhaustedHoldsAcceptedExceptions<S, V>(r: Retry<S, V>, world: S)
    ensures var t := r.Execution(world);
      var list := if t.result.Exhausted? then t.result.failure.GetOriginalExceptions() else [];
      t.result.Exhausted? ==>
        && list == t.executor.suppressedExceptions
        && forall i :: 0 <= i < |list| ==> IsException(list[i]) && r.IsAcceptedException(list[i])
  {
    var t := r.Execution(world);
    if t.result.Exhausted? {
      var r0 := r.Reset();
      RunTriesEnds(r0, world, []);
      var outs := Invocations(r.procedure, world, t.executor.try).0;
      RetryableErrors(r0, outs);
    }
  }

  /** The recorded exceptions of a run that ended exhausted are all of the
      accepted class. */
  lemma RetryableErrors<S, V>(r: Retry<S, V>, outs: seq<Outcome<V>>)
    requires |outs| >= 1 && RetriedBeforeLast(r, outs) && r.Retryable(outs[|outs| - 1])
    ensures forall i :: 0 <= i < |Errors(outs)| ==>
      IsException(Errors(outs)[i]) && r.IsAcceptedException(Errors(outs)[i])
  {
    ErrorsAllThrown(outs);
  }

  /** Acceptance is `is_a`: configuring a class accepts its subclasses. */
  lemma AcceptanceIsSubtypeInclusive<S, V>(r: Retry<S, V>, e: Throwable, k: Kind)
    requires IsA(k, r.acceptedException) && Subkind(e.kind, k)
    ensures r.IsAcceptedException(e)
  {
    IsAInherited(e.kind, k, r.acceptedException);
  }

  /** Whether `catch (c $e)` around `run()` catches how the run ended. */
  predicate CaughtAs<V>(result: RunResult<V>, c: ClassName) {
    match result
    case Success(_) => false
    case Propagated(e) => IsA(e.kind, c)
    case Exhausted(_) => IsA(RetryFailureExceptionKind, c)
  }

  /** A procedure that throws only `Exception`s makes every throwing run
      end in an `Exception`, so `catch (Exception $e)` around `run()`
      catches it. */
  lemma CatchAllCatchesEveryFailure<S, V>(r: Retry<S, V>, world: S)
    requires forall s :: r.procedure(s).0.Threw? ==> IsException(r.procedure(s).0.error)
    ensures var t := r.Execution(world);
      !t.result.Success? ==> CaughtAs(t.result, ExceptionName)
  {
    RunSpec(r, world);
    RetryFailureExceptionIsRuntimeException();
    var t := r.Execution(world);
    var k := t.executor.try;
    InvocationOutcome(r.procedure, world, k, k - 1);
  }
}
