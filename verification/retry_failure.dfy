/** The aggregate error thrown once every attempt has failed: a
    `RuntimeException` that carries the suppressed exceptions in attempt
    order. */
module RetryFailure {
  import opened Exceptions

  const RetryFailureExceptionName: ClassName := "Retries\\RetryFailureException"

  /** `RetryFailureException extends RuntimeException`. */
  const RetryFailureExceptionKind := Kind(RuntimeExceptionKind.lineage + [RetryFailureExceptionName])

  datatype RetryFailureException = RetryFailureException(suppressedExceptions: seq<Throwable>) {

    /** The accessor callers use to inspect the suppressed exceptions. */
    function GetOriginalExceptions(): (xs: seq<Throwable>)
      ensures RetryFailureException(xs) == this   // the list determines the error
    {
      suppressedExceptions
    }
  }

  /** The constructor; its argument defaults to the empty list. */
  function NewRetryFailureException(suppressedExceptions: seq<Throwable> := []): (e: RetryFailureException)
    ensures e.GetOriginalExceptions() == suppressedExceptions
  {
    RetryFailureException(suppressedExceptions)
  }

  /** Constructing without an argument gives an empty list. */
  lemma DefaultIsEmpty()
    ensures NewRetryFailureException().GetOriginalExceptions() == []
  {
  }

  /** The aggregate error is a `RuntimeException`, hence an `Exception`, so a
      `catch (Exception $e)` catches it. */
  lemma RetryFailureExceptionIsRuntimeException()
    ensures Subkind(RetryFailureExceptionKind, RuntimeExceptionKind)
    ensures IsA(RetryFailureExceptionKind, RuntimeExceptionName)
    ensures IsA(RetryFailureExceptionKind, ExceptionName)
    ensures RetryFailureExceptionKind.Name() == RetryFailureExceptionName
  {
    assert RetryFailureExceptionKind.lineage
        == [ThrowableName, ExceptionName, RuntimeExceptionName, RetryFailureExceptionName];
  }
}
