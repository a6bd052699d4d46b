/**
 * The compiler's semantic types.  The source keeps a type in a small bit
 * set whose layout lives in a header that is not part of this model; the
 * model assumes the layout that the source's own bit arithmetic implies:
 * array = 1, boolean = 2, integer = 4, callable = 8, and "no type" = 0.
 * Masking with 6 therefore keeps the base kind (boolean or integer).
 */
module ValTypes {

  type ValType = bv4

  const TypeNone: ValType := 0
  const TypeArray: ValType := 1
  const TypeBoolean: ValType := 2
  const TypeInteger: ValType := 4
  const TypeCallable: ValType := 8

  /** Mask that keeps the base kind of a type. */
  const BaseMask: ValType := 6

  /** IS_ARRAY and IS_ARRAY_TYPE: the array modifier is set. */
  predicate IsArray(t: ValType) {
    t & TypeArray != 0
  }

  /** IS_BOOLEAN_TYPE: the boolean base kind is set. */
  predicate IsBooleanType(t: ValType) {
    t & TypeBoolean != 0
  }

  /** IS_INTEGER_TYPE: the integer base kind is set. */
  predicate IsIntegerType(t: ValType) {
    t & TypeInteger != 0
  }

  /** IS_CALLABLE_TYPE: the type belongs to a subroutine name. */
  predicate IsCallableType(t: ValType) {
    t & TypeCallable != 0
  }

  /** IS_FUNCTION: a callable with a return (base) type. */
  predicate IsFunction(t: ValType) {
    IsCallableType(t) && t & BaseMask != 0
  }

  /** IS_PROCEDURE: a callable without a return type. */
  predicate IsProcedure(t: ValType) {
    IsCallableType(t) && t & BaseMask == 0
  }

  /** SET_RETURN_TYPE: drop the callable flag, keeping base kind and array flag. */
  function SetReturnType(t: ValType): (r: ValType)
    ensures !IsCallableType(r)
    ensures r | TypeCallable == t | TypeCallable
  {
    t & !TypeCallable
  }

  /** The element type of an indexed array (`type & 6`). */
  function ElementType(t: ValType): (r: ValType)
    ensures !IsArray(r) && !IsCallableType(r)
    ensures IsBooleanType(r) == IsBooleanType(t) && IsIntegerType(r) == IsIntegerType(t)
  {
    t & BaseMask
  }

  /** The type of a function-call factor (`(type & 6) ^ TYPE_CALLABLE`). */
  function CallResultType(t: ValType): (r: ValType)
    ensures IsCallableType(r) && !IsArray(r)
    ensures IsBooleanType(r) == IsBooleanType(t) && IsIntegerType(r) == IsIntegerType(t)
    ensures IsFunction(t) ==> IsFunction(r)
  {
    (t & BaseMask) ^ TypeCallable
  }

  /** A type built by the `type` production: one base kind, maybe an array. */
  predicate IsDeclaredType(t: ValType) {
    t in {TypeBoolean, TypeInteger, TypeBoolean | TypeArray, TypeInteger | TypeArray}
  }

  /** A function and a procedure are never the same thing. */
  lemma FunctionXorProcedure(t: ValType)
    requires IsCallableType(t)
    ensures IsFunction(t) != IsProcedure(t)
  {
  }

  /** Comparing after SET_RETURN_TYPE ignores only the callable flag. */
  lemma SetReturnTypeEquality(a: ValType, b: ValType)
    ensures SetReturnType(a) == SetReturnType(b) <==> a | TypeCallable == b | TypeCallable
  {
  }

  /** A declared type is a plain value type: not callable, and of exactly one base kind. */
  lemma DeclaredTypeShape(t: ValType)
    requires IsDeclaredType(t)
    ensures !IsCallableType(t) && IsBooleanType(t) != IsIntegerType(t)
  {
  }
}
