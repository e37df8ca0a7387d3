/** Throwable objects and the class hierarchy that PHP's `is_a` consults.

PHP classes have single inheritance, so the classes an object is an instance
of form a chain. A kind is that chain, written from the root of the hierarchy
down to the object's own class. `Throwable` (an interface in PHP, implemented
by every exception and error) is taken as the common root.
 */
module Exceptions {

  type ClassName = string

  /** A chain of classes from the root `Throwable` down. */
  type Lineage = s: seq<ClassName> | |s| > 0 && s[0] == ThrowableName witness [ThrowableName]

  datatype Kind = Kind(lineage: Lineage) {

    /** The object's own class: the last link of the chain. */
    function Name(): ClassName {
      lineage[|lineage| - 1]
    }
  }

  /** `is_a($object, $class)`: the object's class is `c` or extends `c`. */
  function IsA(k: Kind, c: ClassName): (b: bool)
    ensures c == k.Name() ==> b          // an object is an instance of its own class
    ensures c == ThrowableName ==> b     // every thrown object is a `Throwable`
  {
    c in k.lineage
  }

  /** `a` is `b` or a (direct or indirect) subclass of `b`. */
  predicate Subkind(a: Kind, b: Kind) {
    b.lineage <= a.lineage
  }

  const ThrowableName: ClassName := "Throwable"
  const ExceptionName: ClassName := "Exception"
  const ErrorName: ClassName := "Error"
  const RuntimeExceptionName: ClassName := "RuntimeException"
  const LogicExceptionName: ClassName := "LogicException"

  const ExceptionKind := Kind([ThrowableName, ExceptionName])
  const ErrorKind := Kind([ThrowableName, ErrorName])
  const RuntimeExceptionKind := Kind(ExceptionKind.lineage + [RuntimeExceptionName])
  const LogicExceptionKind := Kind(ExceptionKind.lineage + [LogicExceptionName])

  /** A thrown object. `id` tells apart distinct instances of the same class;
      messages and other payload are not modelled. */
  datatype Throwable = Throwable(id: nat, kind: Kind)

  /** What `catch (Exception $e)` catches. PHP `Error`s are not caught. */
  function IsException(t: Throwable): (b: bool)
    ensures Subkind(t.kind, ExceptionKind) ==> b
    ensures t.kind == ErrorKind ==> !b
  {
    assert ExceptionKind.lineage[1] == ExceptionName;
    IsA(t.kind, ExceptionName)
  }

  /** Every kind is a subkind of itself, so `is_a` accepts a class's own
      instances. */
  lemma SubkindReflexive(a: Kind)
    ensures Subkind(a, a)
  {
  }

  lemma SubkindTransitive(a: Kind, b: Kind, c: Kind)
    requires Subkind(a, b) && Subkind(b, c)
    ensures Subkind(a, c)
  {
    assert a.lineage[..|c.lineage|] == b.lineage[..|c.lineage|];
  }

  /** `is_a` is inherited: an instance of a subclass is an instance of every
      class its superclass is an instance of. */
  lemma IsAInherited(a: Kind, b: Kind, c: ClassName)
    requires Subkind(a, b) && IsA(b, c)
    ensures IsA(a, c)
  {
    var i :| 0 <= i < |b.lineage| && b.lineage[i] == c;
    assert a.lineage[i] == c;
  }

  lemma StandardKinds()
    ensures Subkind(RuntimeExceptionKind, ExceptionKind)
    ensures Subkind(LogicExceptionKind, ExceptionKind)
    ensures IsA(RuntimeExceptionKind, ExceptionName) && IsA(LogicExceptionKind, ExceptionName)
    ensures !IsA(LogicExceptionKind, RuntimeExceptionName)
    ensures !IsA(RuntimeExceptionKind, LogicExceptionName)
    ensures !IsA(ErrorKind, ExceptionName)
  {
    assert RuntimeExceptionKind.lineage == [ThrowableName, ExceptionName, RuntimeExceptionName];
    assert LogicExceptionKind.lineage == [ThrowableName, ExceptionName, LogicExceptionName];
  }
}
