/** The scenarios of the repository's test suite, stated over concrete
    procedures. Each procedure's state is the number of times it has been
    invoked, and the objects it throws are numbered by that count, so the
    suppressed lists can be read off in attempt order. */
module RetryExamples {
  import opened Exceptions
  import opened RetryFailure
  import opened Retries
  import opened RetryProperties

  /** Counts its invocations and always throws a new object of kind `k`. */
  function Throwing(k: Kind): Procedure<nat, ()> {
    (count: nat) => (Threw(Throwable(count, k)), count + 1)
  }

  /** Counts its invocations and returns normally. */
  function Counting(count: nat): (Outcome<()>, nat) {
    (Returned(()), count + 1)
  }

  lemma {:induction false} ThrowingInvocations(k: Kind, count: nat, n: nat)
    ensures Invocations(Throwing(k), count, n).1 == count + n
    ensures forall i :: 0 <= i < n ==>
      Invocations(Throwing(k), count, n).0[i] == Threw(Throwable(count + i, k))
    decreases n
  {
    if n > 0 {
      ThrowingInvocations(k, count + 1, n - 1);
      var outs := Invocations(Throwing(k), count, n).0;
      forall i | 0 <= i < n
        ensures outs[i] == Threw(Throwable(count + i, k))
      {
        if i > 0 {
          assert outs[i] == Invocations<nat, ()>(Throwing(k), count + 1, n - 1).0[i - 1];
        }
      }
    }
  }

  /** A procedure that always throws class `c`'s objects, under an executor
      accepting a class `c`'s kind is an instance of, fails every attempt. */
  lemma AlwaysRetryable(r: Retry<nat, ()>, k: Kind)
    requires r.procedure == Throwing(k)
    requires IsA(k, ExceptionName) && IsA(k, r.acceptedException)
    ensures forall s :: r.Retryable(r.procedure(s).0)
  {
  }

  /** An executor whose procedure always throws an accepted exception, run
      from invocation count `count`: `Budget()` further invocations, and an
      aggregate error listing their objects in order. */
  lemma ExhaustsFrom(r: Retry<nat, ()>, k: Kind, count: nat)
    requires r.procedure == Throwing(k)
    requires IsA(k, ExceptionName) && IsA(k, r.acceptedException)
    ensures var t := r.Execution(count);
      && t.world == count + r.Budget()
      && t.result.Exhausted?
      && |t.result.failure.GetOriginalExceptions()| == r.Budget()
      && forall i :: 0 <= i < r.Budget() ==>
           t.result.failure.GetOriginalExceptions()[i] == Throwable(count + i, k)
  {
    AlwaysRetryable(r, k);
    AlwaysFailingExhausts(r, count);
    ThrowingInvocations(k, count, r.Budget());
  }

  /** Two runs of one executor over an always-failing procedure with budget
      `n`: the counters are reset, so the procedure is invoked `2n` times in
      all and each run reports exactly its own `n` exceptions. */
  lemma RunTwiceResetsCounters(n: int)
    requires n >= 1
    ensures var r := NewRetry(Throwing(RuntimeExceptionKind)).SetTryAmount(n);
      var t1 := r.Execution(0);
      var t2 := t1.executor.Execution(t1.world);
      && t1.world == n && t2.world == 2 * n
      && t1.result.Exhausted? && t2.result.Exhausted?
      && |t1.result.failure.GetOriginalExceptions()| == n
      && |t2.result.failure.GetOriginalExceptions()| == n
      && (forall i :: 0 <= i < n ==> t1.result.failure.GetOriginalExceptions()[i].id == i)
      && (forall i :: 0 <= i < n ==> t2.result.failure.GetOriginalExceptions()[i].id == n + i)
  {
    StandardKinds();
    var r := NewRetry(Throwing(RuntimeExceptionKind)).SetTryAmount(n);
    ExhaustsFrom(r, RuntimeExceptionKind, 0);
    var t1 := r.Execution(0);
    RunSpec(r, 0);
    ExhaustsFrom(t1.executor, RuntimeExceptionKind, n);
  }

  /** Budgets 3 and 1 (the data provider), and also 0 and below: the
      procedure is invoked `max(n, 1)` times. */
  lemma InvokedUntilTryAmountReached(n: int)
    ensures var r := NewRetry(Throwing(RuntimeExceptionKind)).SetTryAmount(n);
      && r.Execution(0).world == (if n < 1 then 1 else n)
      && r.Execution(0).result.Exhausted?
  {
    StandardKinds();
    ExhaustsFrom(NewRetry(Throwing(RuntimeExceptionKind)).SetTryAmount(n), RuntimeExceptionKind, 0);
  }

  /** Budget 2, accepting `Exception`, over a procedure throwing plain
      `Exception`s: the aggregate error holds two of them. */
  lemma FailureHoldsOriginalExceptions()
    ensures var r := NewRetry(Throwing(ExceptionKind)).SetTryAmount(2).SetAcceptedException(ExceptionName);
      var t := r.Execution(0);
      && t.result.Exhausted?
      && t.result.failure.GetOriginalExceptions() == [Throwable(0, ExceptionKind), Throwable(1, ExceptionKind)]
  {
    var r := NewRetry(Throwing(ExceptionKind)).SetTryAmount(2).SetAcceptedException(ExceptionName);
    ExhaustsFrom(r, ExceptionKind, 0);
  }

  /** A procedure that returns is invoked once and nothing waits. */
  lemma CalledOnceWithoutException()
    ensures var t := NewRetry(Counting).Execution(0);
      t.world == 1 && t.result == Success(()) && t.waits == []
  {
    FirstAttemptReturns(NewRetry(Counting), 0);
  }

  /** Under the default budget and wait time of 2 seconds, an always-failing
      procedure makes the run wait 2 * 2 seconds in all. */
  lemma WaitsBetweenTrials()
    ensures var t := NewRetry(Throwing(RuntimeExceptionKind)).SetWaitTime(2).Execution(0);
      t.waits == [2, 2] && Sum(t.waits) == 2 * 2
  {
    StandardKinds();
    var r := NewRetry(Throwing(RuntimeExceptionKind)).SetWaitTime(2);
    AlwaysRetryable(r, RuntimeExceptionKind);
    AlwaysFailingExhausts(r, 0);
  }

  /** The default accepts `RuntimeException` only: a `LogicException`
      propagates unchanged from the first attempt. */
  lemma LogicExceptionNotAcceptedByDefault()
    ensures var t := NewRetry(Throwing(LogicExceptionKind)).Execution(0);
      t.result == Propagated(Throwable(0, LogicExceptionKind)) && t.world == 1
  {
    StandardKinds();
    NotAcceptedPropagates(NewRetry(Throwing(LogicExceptionKind)), 0);
  }

  /** Accepting `LogicException` makes it retried over the full default
      budget of 3 attempts. */
  lemma ProvidedExceptionAccepted()
    ensures var t := NewRetry(Throwing(LogicExceptionKind)).SetAcceptedException(LogicExceptionName).Execution(0);
      t.world == 3 && t.result.Exhausted?
  {
    StandardKinds();
    ExhaustsFrom(NewRetry(Throwing(LogicExceptionKind)).SetAcceptedException(LogicExceptionName), LogicExceptionKind, 0);
  }

  /** Chained setters: budget 3, wait 4, accepting `RuntimeException`: two
      waits of 4 seconds, 2 * 4 in all, and the failure is caught as an
      `Exception`. */
  lemma SetterChain()
    ensures var r := NewRetry(Throwing(RuntimeExceptionKind))
        .SetTryAmount(3).SetWaitTime(4).SetAcceptedException(RuntimeExceptionName);
      var t := r.Execution(0);
      && r.tryAmount == 3 && r.waitTime == 4 && r.acceptedException == RuntimeExceptionName
      && t.waits == [4, 4] && Sum(t.waits) == 2 * 4
      && CaughtAs(t.result, ExceptionName)
  {
    StandardKinds();
    RetryFailureExceptionIsRuntimeException();
    var r := NewRetry(Throwing(RuntimeExceptionKind))
      .SetTryAmount(3).SetWaitTime(4).SetAcceptedException(RuntimeExceptionName);
    AlwaysRetryable(r, RuntimeExceptionKind);
    AlwaysFailingExhausts(r, 0);
  }
}
