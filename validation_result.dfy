/**
 * The outcome of validating a request: either the accepted number and
 * operation keys, or the error message. Java's `null` for an absent field is
 * `None` here.
 */
module Validation {
  import JavaText

  /** The two ways a `ValidationResult` is built: by `success` or by `error`. */
  datatype ValidationResult =
    | Accepted(number: JavaText.Int32, operations: set<string>)
    | Rejected(errorMessage: string)

  /** `getErrorMessage`: null for an accepted result; a message identifies the rejection. */
  function GetErrorMessage(v: ValidationResult): (r: JavaText.Option<string>)
    ensures r.None? <==> v.Accepted?
    ensures r.Some? ==> v == Rejected(r.value)
  {
    if v.Rejected? then JavaText.Some(v.errorMessage) else JavaText.None
  }

  /** `isValid`: the flag is set exactly when there is no error message. */
  predicate IsValid(v: ValidationResult)
    ensures IsValid(v) <==> GetErrorMessage(v).None?
  {
    v.Accepted?
  }

  /** `getOperations`: present exactly for a valid result. */
  function GetOperations(v: ValidationResult): (r: JavaText.Option<set<string>>)
    ensures r.Some? <==> IsValid(v)
    ensures r.Some? ==> r.value == v.operations
  {
    if v.Accepted? then JavaText.Some(v.operations) else JavaText.None
  }

  /** `getNumber`: 0 for a rejected result; with the operations, it rebuilds an accepted one. */
  function GetNumber(v: ValidationResult): (r: JavaText.Int32)
    ensures !IsValid(v) ==> r == 0
    ensures IsValid(v) ==> v == Accepted(r, GetOperations(v).value)
  {
    if v.Accepted? then v.number else 0
  }

  /** `success(number, operations)`: valid, with no error message, and its getters give back the arguments. */
  function Success(number: JavaText.Int32, operations: set<string>): (v: ValidationResult)
    ensures IsValid(v)
    ensures GetErrorMessage(v) == JavaText.None
    ensures GetNumber(v) == number && GetOperations(v) == JavaText.Some(operations)
  {
    Accepted(number, operations)
  }

  /** `error(message)`: not valid, carries the message, number 0 and no operations. */
  function Error(errorMessage: string): (v: ValidationResult)
    ensures !IsValid(v)
    ensures GetErrorMessage(v) == JavaText.Some(errorMessage)
    ensures GetNumber(v) == 0 && GetOperations(v) == JavaText.None
  {
    Rejected(errorMessage)
  }

  /**
   * Every result is one the two factories build, and the getters recover the
   * factory's arguments: a valid result has no error message, an invalid one
   * number 0 and no operations.
   */
  lemma FactoriesCover(v: ValidationResult)
    ensures IsValid(v) <==> GetErrorMessage(v).None?
    ensures IsValid(v) ==> GetOperations(v).Some? && v == Success(GetNumber(v), GetOperations(v).value)
    ensures !IsValid(v) ==> GetNumber(v) == 0 && GetOperations(v).None?
    ensures !IsValid(v) ==> v == Error(GetErrorMessage(v).value)
  {
  }
}
