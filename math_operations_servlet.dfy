/**
 * The computation part of the servlet: validating the request parameters,
 * running every requested operation with errors kept per key, and the display
 * title of each key. Reading the request and writing the HTML page are not
 * part of this model.
 */
module Servlet {
  import opened JavaText
  import opened Operations
  import Validation

  const NUMBER_REQUIRED: string := "Number is required"
  const INVALID_FORMAT: string := "Invalid number format"
  const NOT_POSITIVE: string := "Number must be positive"
  const NO_OPERATIONS: string := "At least one operation must be selected"

  /** The distinct elements of the operations array, as the stream collects them into a set. */
  function ElementSet(operations: seq<string>): (r: set<string>)
    ensures forall k :: k in r <==> k in operations
  {
    set k | k in operations
  }

  /**
   * `validateInput`. The checks run in order and the first failure wins: a
   * missing or blank number, then a number that `Integer.parseInt` rejects
   * after trimming, then a number that is not positive, then a missing or
   * empty operations array.
   */
  function ValidateInput(numberParam: Option<string>, operations: Option<seq<string>>): (v: Validation.ValidationResult)
    ensures Validation.IsValid(v) <==>
      numberParam.Some? && ParseInt(Trim(numberParam.value)).Some? && ParseInt(Trim(numberParam.value)).value > 0
      && operations.Some? && |operations.value| > 0
    ensures Validation.IsValid(v) ==>
      ParseInt(Trim(numberParam.value)) == Some(Validation.GetNumber(v) as int) && Validation.GetNumber(v) > 0
      && Validation.GetOperations(v) == Some(ElementSet(operations.value))
  {
    if numberParam.None? || Trim(numberParam.value) == [] then
      Validation.Error(NUMBER_REQUIRED)
    else
      match ParseInt(Trim(numberParam.value))
      case None => Validation.Error(INVALID_FORMAT)
      case Some(number) =>
        if number <= 0 then Validation.Error(NOT_POSITIVE)
        else if operations.None? || |operations.value| == 0 then Validation.Error(NO_OPERATIONS)
        else Validation.Success(number, ElementSet(operations.value))
  }

  /** Which error `validateInput` reports, for each way the number can be bad. */
  lemma NumberErrors(numberParam: Option<string>, operations: Option<seq<string>>)
    ensures numberParam.None? ==> ValidateInput(numberParam, operations) == Validation.Error(NUMBER_REQUIRED)
    ensures numberParam.Some? && (forall i :: 0 <= i < |numberParam.value| ==> IsBlank(numberParam.value[i])) ==>
      ValidateInput(numberParam, operations) == Validation.Error(NUMBER_REQUIRED)
    ensures numberParam.Some? && Trim(numberParam.value) != [] && ParseInt(Trim(numberParam.value)).None? ==>
      ValidateInput(numberParam, operations) == Validation.Error(INVALID_FORMAT)
    ensures numberParam.Some? && ParseInt(Trim(numberParam.value)).Some? && ParseInt(Trim(numberParam.value)).value <= 0 ==>
      ValidateInput(numberParam, operations) == Validation.Error(NOT_POSITIVE)
  {
    if numberParam.Some? {
      TrimEmptyIffBlank(numberParam.value);
      if ParseInt(Trim(numberParam.value)).Some? {
        ParseIntNonEmpty(Trim(numberParam.value));
      }
    }
  }

  /** Text that parses is not empty. */
  lemma ParseIntNonEmpty(s: string)
    requires ParseInt(s).Some?
    ensures s != []
  {
  }

  /**
   * The number is checked before the operations: when the number is bad, the
   * error is the number's whatever the operations are.
   */
  lemma NumberCheckedFirst(numberParam: Option<string>, operations: Option<seq<string>>, others: Option<seq<string>>)
    requires !Validation.IsValid(ValidateInput(numberParam, operations))
    requires Validation.GetErrorMessage(ValidateInput(numberParam, operations)) != Some(NO_OPERATIONS)
    ensures ValidateInput(numberParam, others) == ValidateInput(numberParam, operations)
  {
  }

  /** A good number with no operations, or an empty array of them, is refused for the operations. */
  lemma OperationsRequired(numberParam: Option<string>, operations: Option<seq<string>>)
    requires numberParam.Some? && ParseInt(Trim(numberParam.value)).Some? && ParseInt(Trim(numberParam.value)).value > 0
    requires operations.None? || operations.value == []
    ensures ValidateInput(numberParam, operations) == Validation.Error(NO_OPERATIONS)
  {
    ParseIntNonEmpty(Trim(numberParam.value));
  }

  /**
   * A positive number written in decimal, with any blank padding around it,
   * and a non-empty operations array are accepted, with that number and the
   * distinct operation keys.
   */
  lemma AcceptsPaddedNumber(before: string, n: Int32, after: string, operations: seq<string>)
    requires forall i :: 0 <= i < |before| ==> IsBlank(before[i])
    requires forall i :: 0 <= i < |after| ==> IsBlank(after[i])
    requires n > 0 && |operations| > 0
    ensures ValidateInput(Some(before + IntToString(n) + after), Some(operations))
      == Validation.Success(n, ElementSet(operations))
  {
    var text := IntToString(n);
    IntToStringShape(n);
    TrimPadded(before, text, after);
    ParseIntOfIntToString(n);
  }

  /** What `processOperations` puts under a key: the operation's message, or "Error: " and the lookup failure. */
  function ResultFor(number: Int32, key: string, cubeRoot: Int32 -> string): string {
    match Resolve(key)
    case Success(op) => Operations.Report(op, number, cubeRoot)
    case Failure(message) => "Error: " + message
  }

  /** A registered key gets the message of its own operation. */
  lemma ResultForKnown(number: Int32, op: Operation, cubeRoot: Int32 -> string)
    ensures ResultFor(number, Key(op), cubeRoot) == Operations.Report(op, number, cubeRoot)
  {
    ResolveKey(op);
  }

  /** Any other key gets the error from the lookup, and no operation runs for it. */
  lemma ResultForUnknown(number: Int32, key: string, cubeRoot: Int32 -> string)
    requires key !in KnownKeys
    ensures ResultFor(number, key, cubeRoot) == "Error: " + ("Unsupported operation: " + key)
  {
  }

  /**
   * `getOperationTitle`: the display title of the five known keys; any
   * other key is shown as it is.
   */
  function GetOperationTitle(operationType: string): (r: string)
    ensures operationType in KnownKeys ==> r == Name(Registry()[operationType])
    ensures operationType !in KnownKeys ==> r == operationType
  {
    if operationType == "factorial" then "Factorial"
    else if operationType == "palindrome" then "Palindrome Check"
    else if operationType == "fibonacci" then "Fibonacci Series"
    else if operationType == "prime" then "Prime Number Check"
    else if operationType == "cubeRoot" then "Cube Root"
    else operationType
  }

  /** The title of a key is the name the operation registered under it gives itself. */
  lemma TitleIsOperationName(op: Operation)
    ensures GetOperationTitle(Key(op)) == Name(op)
  {
  }

  /** Keys that are not registered are shown unchanged. */
  lemma TitleOfUnknownKey(operationType: string)
    requires operationType !in KnownKeys
    ensures GetOperationTitle(operationType) == operationType
  {
  }

  /** The servlet holds the operation factory it builds once. */
  class MathOperationsServlet {
    const operationFactory: OperationFactory

    ghost predicate Valid()
      reads this, operationFactory
    {
      operationFactory.Valid()
    }

    constructor ()
      ensures Valid()
    {
      operationFactory := new OperationFactory();
    }

    /**
     * `processOperations`: look up and run every requested operation. A key
     * that fails gets its error text and the loop goes on with the others;
     * the map has one entry per requested key.
     */
    method ProcessOperations(number: Int32, operations: set<string>, cubeRoot: Int32 -> string)
      returns (results: map<string, string>)
      requires Valid()
      ensures results.Keys == operations
      ensures forall k :: k in operations ==> results[k] == ResultFor(number, k, cubeRoot)
    {
      results := map[];
      var remaining := operations;
      while remaining != {}
        invariant remaining <= operations
        invariant results.Keys == operations - remaining
        invariant forall k :: k in results ==> results[k] == ResultFor(number, k, cubeRoot)
        decreases remaining
      {
        var operationType :| operationType in remaining;
        var operation := operationFactory.GetOperation(operationType);
        var result: string;
        match operation {
          case Success(op) =>
            result := Operations.Execute(op, number, cubeRoot);
          case Failure(message) =>
            result := "Error: " + message;
        }
        results := results[operationType := result];
        remaining := remaining - {operationType};
      }
    }
  }
}
