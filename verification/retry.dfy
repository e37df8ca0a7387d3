/** The retry executor `Retries\Retry`.

The wrapped procedure is a total step function over a state it owns: one
invocation yields an outcome (a returned value or a thrown object) and the
procedure's next state. That state stands for whatever the callable closes
over (the counters of the test suite, say); the executor only threads it
through. `sleep` is recorded as an appended entry in a wait log.
 */
module Retries {
  import opened Exceptions
  import opened RetryFailure

  /** What one invocation of the procedure does. */
  datatype Outcome<V> = Returned(value: V) | Threw(error: Throwable)

  /** The callable and its effect on its own state. */
  type Procedure<!S, V> = S -> (Outcome<V>, S)

  /** How a call to `run()` ends. */
  datatype RunResult<V> =
    | Success(value: V)                            // the procedure returned
    | Propagated(error: Throwable)                 // rethrown unchanged
    | Exhausted(failure: RetryFailureException)    // budget spent

  const DefaultTryAmount: int := 3
  const DefaultWaitTime: int := 1
  const DefaultAcceptedException: ClassName := RuntimeExceptionName

  /** The executor: three settings, the procedure, and the call-scoped
      attempt counter and suppressed-exception list. */
  datatype Retry<!S, V> = Retry(
    procedure: Procedure<S, V>,
    tryAmount: int,
    waitTime: int,
    acceptedException: ClassName,
    try: int,
    suppressedExceptions: seq<Throwable>)
  {
    /** `setTryAmount`: any integer is taken, including zero and negatives. */
    function SetTryAmount(n: int): (r: Retry<S, V>)
      ensures r.tryAmount == n
      ensures r.waitTime == waitTime && r.acceptedException == acceptedException
      ensures r.procedure == procedure
      ensures r.try == try && r.suppressedExceptions == suppressedExceptions
    {
      this.(tryAmount := n)
    }

    /** `setWaitTime`, in seconds. */
    function SetWaitTime(seconds: int): (r: Retry<S, V>)
      ensures r.waitTime == seconds
      ensures r.tryAmount == tryAmount && r.acceptedException == acceptedException
      ensures r.procedure == procedure
      ensures r.try == try && r.suppressedExceptions == suppressedExceptions
    {
      this.(waitTime := seconds)
    }

    /** `setAcceptedException`: the class whose instances (and subclass
        instances) are retried. */
    function SetAcceptedException(c: ClassName): (r: Retry<S, V>)
      ensures r.acceptedException == c
      ensures r.tryAmount == tryAmount && r.waitTime == waitTime
      ensures r.procedure == procedure
      ensures r.try == try && r.suppressedExceptions == suppressedExceptions
    {
      this.(acceptedException := c)
    }

    /** The procedure and the three settings are those of `other`. */
    ghost predicate SameSettings(other: Retry<S, V>) {
      && procedure == other.procedure
      && tryAmount == other.tryAmount
      && waitTime == other.waitTime
      && acceptedException == other.acceptedException
    }

    /** `_reset`: a run starts with no attempt made and nothing suppressed. */
    function Reset(): (r: Retry<S, V>)
      ensures r.try == 0 && r.suppressedExceptions == []
      ensures r.SameSettings(this)
    {
      this.(try := 0, suppressedExceptions := [])
    }

    /** `_isAcceptedException`: `is_a` against the configured class. */
    function IsAcceptedException(e: Throwable): (b: bool)
      ensures acceptedException == e.kind.Name() ==> b   // its own class
      ensures acceptedException == ThrowableName ==> b   // the root accepts all
    {
      IsA(e.kind, acceptedException)
    }

    /** `_shouldTryAgain`: once an attempt has been made, another is
        allowed exactly while fewer than `Budget()` attempts were made. */
    function ShouldTryAgain(): (b: bool)
      ensures 1 <= try ==> (b <==> try < Budget())
    {
      try < tryAmount
    }

    /** An outcome that is caught, recorded and possibly retried: an
        `Exception` (so `catch (Exception ...)` catches it) of the accepted
        class. */
    predicate Retryable(o: Outcome<V>) {
      o.Threw? && IsException(o.error) && IsAcceptedException(o.error)
    }

    /** The most attempts one run can make. */
    function Budget(): int {
      if tryAmount < 1 then 1 else tryAmount
    }

    /** One attempt made (the increment of `_tryProcedure`) that threw
        the accepted exception `e`, now recorded (`_handleException`). */
    function Recorded(e: Throwable): (r: Retry<S, V>)
      ensures r.try == try + 1
      ensures |r.suppressedExceptions| == |suppressedExceptions| + 1
      ensures r.suppressedExceptions[..|suppressedExceptions|] == suppressedExceptions
      ensures r.suppressedExceptions[|suppressedExceptions|] == e
      ensures r.SameSettings(this)
    {
      this.(try := try + 1, suppressedExceptions := suppressedExceptions + [e])
    }

    /** `_runTries` with `_tryAgainIfPossible` and `_handleException`
        inlined: one attempt, then stop or recurse. `waits` is the log of
        `sleep` calls made so far. */
    function RunTries(world: S, waits: seq<int>): (t: Trace<S, V>)
      ensures try < t.executor.try
      ensures try + 1 < t.executor.try ==> t.executor.try <= tryAmount
      ensures t.executor.SameSettings(this)
      decreases tryAmount - try
    {
      var (outcome, world') := procedure(world);   // _tryProcedure
      match outcome
      case Returned(v) => Trace(Success(v), this.(try := try + 1), world', waits)
      case Threw(e) =>
        // an `Error` escapes `catch (Exception $exception)`; an exception
        // of another class is rethrown by _handleException unrecorded
        if !Retryable(outcome) then
          Trace(Propagated(e), this.(try := try + 1), world', waits)
        else
          var next := Recorded(e);
          if next.ShouldTryAgain() then
            next.RunTries(world', waits + [waitTime])   // _wait, then retry
          else
            Trace(Exhausted(NewRetryFailureException(next.suppressedExceptions)), next, world', waits)
    }

    /** `run()`: reset, then the attempts. */
    function Execution(world: S): (t: Trace<S, V>)
      ensures 1 <= t.executor.try
    {
      Reset().RunTries(world, [])
    }

    /** `run()` as a loop: the iterative form of the recursion in `RunTries`. */
    method Run(world: S) returns (t: Trace<S, V>)
      ensures t == Execution(world)
      ensures 1 <= t.executor.try <= Budget()
      ensures |t.waits| == t.executor.try - 1
    {
      var r := Reset();
      var w := world;
      var waits: seq<int> := [];
      while true
        invariant r.RunTries(w, waits) == Execution(world)
        invariant r.SameSettings(this)
        invariant 0 <= r.try && (r.try > 0 ==> r.try < tryAmount)
        invariant |r.suppressedExceptions| == r.try
        invariant |waits| == r.try
        decreases tryAmount - r.try
      {
        r := r.(try := r.try + 1);
        var (outcome, w') := r.procedure(w);
        w := w';
        match outcome {
          case Returned(v) =>
            return Trace(Success(v), r, w, waits);
          case Threw(e) =>
            if !r.Retryable(outcome) {
              return Trace(Propagated(e), r, w, waits);
            }
            r := r.(suppressedExceptions := r.suppressedExceptions + [e]);
            if !r.ShouldTryAgain() {
              return Trace(Exhausted(NewRetryFailureException(r.suppressedExceptions)), r, w, waits);
            }
            waits := waits + [r.waitTime];
        }
      }
    }
  }

  /** Everything a run leaves behind: how it ended, the executor's fields,
      the procedure's state and the log of waits. */
  datatype Trace<!S, V> = Trace(result: RunResult<V>, executor: Retry<S, V>, world: S, waits: seq<int>)

  /** `new Retry($procedure)`: the defaults. The call-scoped fields are only
      read after `_reset`; they start out as after a reset. */
  function NewRetry<S, V>(procedure: Procedure<S, V>): (r: Retry<S, V>)
    ensures r.tryAmount == 3 && r.waitTime == 1 && r.acceptedException == RuntimeExceptionName
    ensures r.procedure == procedure
    ensures r.try == 0 && r.suppressedExceptions == []
  {
    Retry(procedure, DefaultTryAmount, DefaultWaitTime, DefaultAcceptedException, 0, [])
  }
}
