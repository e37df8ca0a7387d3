# Retries: a Dafny model of `Retries\Retry`

The library wraps a zero-argument procedure and runs it. Each `run()` does the following:

- It resets its attempt counter and its list of suppressed exceptions, then invokes the procedure.
- A returned value is passed back as it is.
- An `Exception` of the accepted class is recorded. `is_a` decides acceptance, so subclasses are accepted too.
- After a recorded exception, the executor sleeps `waitTime` seconds and tries again, but only while the counter is below `tryAmount`.
- Once the budget is spent, it throws a `RetryFailureException` that carries every recorded exception in attempt order.
- Any other throwable is rethrown unchanged and is not recorded.

The model has these files:

- `exceptions.dfy` (module `Exceptions`): throwables and the class hierarchy.
  - A kind is the chain of classes from the root (`Throwable`) down to the object's own class.
  - `is_a` is membership in that chain.
  - "Subclass of" is the prefix order on chains.
  - `catch (Exception $e)` catches exactly the kinds whose chain contains `Exception`.
- `retry_failure.dfy` (module `RetryFailure`): the aggregate error, its constructor with the default empty list, its accessor, and its place under `RuntimeException`.
- `retry.dfy` (module `Retries`): the executor `Retry`, covering the defaults, the three setters, `_reset`, `_isAcceptedException` and `_shouldTryAgain`.
  - `RunTries` is the recursion of `_runTries`/`_tryAgainIfPossible`/`_handleException`.
  - `Execution` is `run()` as a function.
  - `Run` is `run()` as a `while` loop, proved equal to `Execution`.
- `retry_properties.dfy` (module `RetryProperties`): what a run does, stated against the procedure's outcome sequence `Invocations(procedure, world, n)`. The main results are the general characterisation `RunTriesEffects`/`RunTriesEnds`/`RunSpec` and its consequences.
- `retry_examples.dfy` (module `RetryExamples`): the scenarios of the test suite, over concrete procedures that count their invocations.

How the source's dependencies are represented:

- **The procedure.** It is a total step function `S -> (Outcome<V>, S)` over a state the procedure owns. That state stands for what the PHP closure captures, such as the tests' `$count`. The executor only threads it through.
- **`sleep`.** It appends `waitTime` to a wait log that is returned with the result.
- **Errors that are not exceptions.** PHP `Error`s (kinds without `Exception` in their chain) are not caught by `catch (Exception ...)`. They propagate unrecorded, whatever the accepted class is.

Two consequences of the code are easy to miss:

- **No wait after the last failure.** `_wait()` sits inside the `_shouldTryAgain()` branch (src/Retry.php:63-65). So no wait follows the final failure, and a run of `k` attempts waits `k - 1` times. The tests assert the same totals (tests/RetryTest.php:93, tests/RetryTest.php:126).
- **At least one attempt.** `setTryAmount` accepts any integer (src/Retry.php:23). With `tryAmount <= 0`, the procedure is still invoked once, because `_tryProcedure` runs before `_shouldTryAgain` is first consulted. `Budget()` is `max(tryAmount, 1)`.

## Model

| member | source | states |
|---|---|---|
| Exceptions.IsA | src/Retry.php:83 | `is_a` holds for an object's own class and for the root `Throwable` |
| Exceptions.IsException | src/Retry.php:51 | `catch (Exception $exception)` catches every subclass of `Exception` and does not catch an `Error` |
| Exceptions.SubkindReflexive | src/Retry.php:82-84 | every kind is a subkind of itself: the subclass relation `is_a` follows is reflexive |
| Exceptions.IsAInherited | src/Retry.php:82-84 | an instance of a subclass `is_a` every class its superclass is an instance of |
| Exceptions.SubkindTransitive | src/Retry.php:82-84 | the subclass relation `is_a` follows is transitive |
| Exceptions.StandardKinds | tests/RetryTest.php:96-113 | `RuntimeException` and `LogicException` are both `Exception`s and neither is an instance of the other; an `Error` is not an `Exception` |
| RetryFailure.NewRetryFailureException | src/RetryFailureException.php:11-17 | the accessor returns exactly the list given to the constructor |
| RetryFailure.DefaultIsEmpty | src/RetryFailureException.php:11 | constructing without an argument gives an empty list |
| RetryFailure.RetryFailureException.GetOriginalExceptions | src/RetryFailureException.php:15-17 | the accessor returns the error's whole list: rebuilding an error from it gives back the same error |
| RetryFailure.RetryFailureExceptionIsRuntimeException | src/RetryFailureException.php:7 | the aggregate error is a subclass of `RuntimeException`, so it is an instance of `RuntimeException` and of `Exception` |
| Retries.NewRetry | src/Retry.php:12-21 | a fresh executor has budget 3, wait 1 and accepted class `RuntimeException`, and holds the given procedure |
| Retries.Retry.SetTryAmount | src/Retry.php:23-26 | sets the budget to any integer and leaves every other field as it was |
| Retries.Retry.SetWaitTime | src/Retry.php:28-31 | sets the wait time and leaves every other field as it was |
| Retries.Retry.SetAcceptedException | src/Retry.php:33-36 | sets the accepted class and leaves every other field as it was |
| Retries.Retry.Reset | src/Retry.php:43-46 | `_reset` zeroes the counter and empties the suppressed list, and keeps the procedure and the three settings |
| Retries.Retry.IsAcceptedException | src/Retry.php:82-84 | the configured class accepts its own instances, and accepting `Throwable` matches every object |
| Retries.Retry.ShouldTryAgain | src/Retry.php:78-80 | once an attempt has been made, another is allowed exactly while fewer than `max(tryAmount, 1)` attempts were made |
| Retries.Retry.Recorded | src/Retry.php:71-76 | recording an accepted exception counts the attempt (the increment at src/Retry.php:57) and appends that exact object to the end of the suppressed list, leaving the earlier entries and the settings as they were |
| Retries.Retry.RunTries | src/Retry.php:48-69 | every call of `_runTries` makes at least one attempt, so the counter strictly increases; it makes a second attempt only if the counter stays within `tryAmount`; the procedure and the settings are never changed |
| Retries.Retry.Execution | src/Retry.php:38-46 | `run()` always invokes the procedure at least once |
| Retries.Retry.Run | src/Retry.php:38-88 | the loop computes exactly the recursive `run()`; it makes between 1 and `max(tryAmount, 1)` attempts and waits one time fewer than it attempts |
| RetryProperties.RunTriesEffects | src/Retry.php:48-69 | from any counter and wait log, a run of `k` attempts advances the procedure's state by exactly `k` invocations and appends `k - 1` waits of `waitTime`, one before each further attempt and none after the last |
| RetryProperties.RunTriesEnds | src/Retry.php:48-80 | from any counter and list, every attempt of a run but the last threw an accepted `Exception`, and the run ends as the last outcome says: value returned, or throwable rethrown with the list unchanged, or budget spent and the aggregate error built from the whole list |
| RetryProperties.RunSpec | src/Retry.php:38-88 | `run()` makes `k` attempts with `1 <= k <= max(tryAmount, 1)` and waits `waitTime` exactly `k - 1` times. Every attempt but the last threw an accepted exception. A returned value is passed back unchanged. A non-accepted throwable is rethrown unchanged and not recorded. An accepted last failure means `k` equals the budget, and `run()` throws a `RetryFailureException` whose list is all `k` exceptions in order, identical to the executor's suppressed list |
| RetryProperties.SuppressedInAttemptOrder | src/Retry.php:75 | the suppressed list has one entry per recorded failure (`k - 1` or `k` of them), each the object thrown by that attempt, in attempt order |
| RetryProperties.FirstAttemptReturns | src/Retry.php:48-58 | if the first attempt returns, the procedure is invoked once, its value is returned unchanged, nothing waits and nothing is suppressed |
| RetryProperties.NotAcceptedPropagates | src/Retry.php:71-74 | a first throwable that is not an accepted `Exception` is rethrown unchanged after one invocation, unrecorded, with no wait and no aggregate error |
| RetryProperties.AlwaysFailingExhausts | src/Retry.php:61-80 | a procedure that always throws an accepted exception is invoked `max(tryAmount, 1)` times; `run()` throws the aggregate error holding those exceptions in attempt order, the same list the executor suppressed; the total wait is `(max(tryAmount, 1) - 1) * waitTime` |
| RetryProperties.SucceedsAfterFailures | src/Retry.php:57-80 | after `j < tryAmount` accepted failures, a returning attempt ends the run: `j + 1` invocations, its value returned, `j` waits, the `j` failures suppressed in order |
| RetryProperties.RunIgnoresEarlierRuns | src/Retry.php:38-46 | the outcome of `run()` depends only on the settings and the procedure, not on the counter or list left by earlier runs |
| RetryProperties.ExhaustedHoldsAcceptedExceptions | src/Retry.php:67 | the aggregate error's list is the executor's suppressed list at exhaustion, and every element is an `Exception` of the accepted class |
| RetryProperties.AcceptanceIsSubtypeInclusive | src/Retry.php:82-84 | configuring a class accepts the instances of its subclasses |
| RetryProperties.CatchAllCatchesEveryFailure | tests/RetryTest.php:129-135 | if the procedure throws only `Exception`s, every run that does not return ends in an `Exception`, rethrown or aggregate, so `catch (Exception $e)` catches it |
| RetryExamples.RunTwiceResetsCounters | tests/RetryTest.php:28-41 | two runs with budget `n` over an always-failing procedure invoke it `2n` times in all; each run's aggregate error holds exactly its own `n` exceptions, numbered `0..n-1` and `n..2n-1` |
| RetryExamples.InvokedUntilTryAmountReached | tests/RetryTest.php:53-75 | with budget `n`, an always-failing procedure is invoked `n` times when `n >= 1` and once otherwise, and the run ends in the aggregate error |
| RetryExamples.FailureHoldsOriginalExceptions | tests/RetryTest.php:9-26 | budget 2 with `Exception` accepted: the aggregate error holds the two thrown `Exception`s in order |
| RetryExamples.CalledOnceWithoutException | tests/RetryTest.php:43-51 | a procedure that returns is invoked exactly once and nothing waits |
| RetryExamples.WaitsBetweenTrials | tests/RetryTest.php:85-94 | default budget with wait 2: waits `[2, 2]`, 2 * 2 seconds in all |
| RetryExamples.LogicExceptionNotAcceptedByDefault | tests/RetryTest.php:96-102 | by default a `LogicException` is rethrown unchanged from the first and only invocation |
| RetryExamples.ProvidedExceptionAccepted | tests/RetryTest.php:104-113 | with `LogicException` accepted, it is retried over the full default budget of 3 invocations |
| RetryExamples.SetterChain | tests/RetryTest.php:115-127 | chained setters take effect together: waits `[4, 4]`, 2 * 4 seconds in all, and the failure is caught as an `Exception` |

## Left out

- Real sleeping and wall-clock time: `sleep` becomes an entry in the wait log, and the tests' `time()` differences become sums of that log.
- `call_user_func` and the procedure's own effects: the procedure is a total step function over a state it owns. Side effects outside that state are not modelled.
- Object identity: `Retry` is an immutable value, so "each setter returns `$this`" becomes "each setter returns the executor with only that field changed".
- `is_a` details: interfaces other than the root `Throwable`, case-insensitive class names, leading backslashes, and autoloading are not modelled. A class name not in an object's chain simply does not match.
- Retries.Retry.RunTries: a negative wait time is logged like any other; PHP's `sleep()` rejecting a negative argument is not modelled.
- Retries.NewRetry: PHP leaves the counter and the suppressed list `null` until the first `run()`; the model starts them at 0 and empty. This is not observable, because `run()` resets both before reading them.
- Throwables' messages, codes and previous-exception chains: a throwable is its kind plus a number telling instances apart. The aggregate error's own message is not modelled.
- PHP integer width: the counter never exceeds `max(tryAmount, 1)`, so 64-bit overflow of `_try` cannot arise in the model and is not modelled.
- Recursion depth: the recursion is modelled as a function and proved equal to a loop, so stack growth does not arise.
- Concurrency: there is none in the library. Concurrent `run()` calls on one executor are outside the model.
- The PHPUnit test runner and its data provider: their cases appear as the lemmas of `RetryExamples`.
