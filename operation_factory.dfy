/**
 * The five operations, the registry that maps their keys to them, and the
 * dispatch from an operation to its `execute`.
 */
module Operations {
  import opened JavaText
  import FactorialOperation
  import PalindromeOperation
  import FibonacciOperation
  import PrimeOperation

  /** The operations a request can name; one variant per implementation of `MathOperation`. */
  datatype Operation = Factorial | Palindrome | Fibonacci | Prime | CubeRoot

  /** The key an operation is registered under. */
  function Key(op: Operation): string {
    match op
    case Factorial => "factorial"
    case Palindrome => "palindrome"
    case Fibonacci => "fibonacci"
    case Prime => "prime"
    case CubeRoot => "cubeRoot"
  }

  /** `getOperationName`: the display name of each operation, which is never its key. */
  function Name(op: Operation): (r: string)
    ensures |r| > 0 && r != Key(op)
  {
    match op
    case Factorial => "Factorial"
    case Palindrome => "Palindrome Check"
    case Fibonacci => "Fibonacci Series"
    case Prime => "Prime Number Check"
    case CubeRoot => "Cube Root"
  }

  /** Different operations have different display names. */
  lemma NamesDistinct(a: Operation, b: Operation)
    ensures Name(a) == Name(b) <==> a == b
  {
  }

  const KnownKeys: set<string> := {"factorial", "palindrome", "fibonacci", "prime", "cubeRoot"}

  /** What `initializeOperations` puts into the registry: each key mapped to its own operation. */
  function Registry(): (r: map<string, Operation>)
    ensures r.Keys == KnownKeys
    ensures forall k :: k in r ==> Key(r[k]) == k
  {
    map["factorial" := Factorial, "palindrome" := Palindrome, "fibonacci" := Fibonacci,
        "prime" := Prime, "cubeRoot" := CubeRoot]
  }

  /** Different operations have different keys, so the registry loses none of them. */
  lemma KeysDistinct(a: Operation, b: Operation)
    ensures Key(a) == Key(b) <==> a == b
  {
  }

  /** Every operation is registered, under its own key. */
  lemma EveryOperationRegistered(op: Operation)
    ensures Key(op) in Registry() && Registry()[Key(op)] == op
  {
    KeysDistinct(op, Registry()[Key(op)]);
  }

  /** The failure message of `getOperation` for a key that is not registered. */
  function UnsupportedMessage(key: string): string {
    "Unsupported operation: " + key
  }

  /** What `getOperation` gives for a key: the registered operation, or the failure. */
  function Resolve(key: string): (r: Result<Operation>)
    ensures r.Success? <==> key in KnownKeys
    ensures r.Success? ==> Key(r.value) == key
    ensures r.Failure? ==> r.error == UnsupportedMessage(key)
  {
    if key in Registry() then Success(Registry()[key]) else Failure(UnsupportedMessage(key))
  }

  /** Looking up the key of an operation gives back that operation. */
  lemma ResolveKey(op: Operation)
    ensures Resolve(Key(op)) == Success(op)
  {
    EveryOperationRegistered(op);
  }

  /** The registry of operations, filled once when the factory is built. */
  class OperationFactory {
    var operations: map<string, Operation>

    /** The registry holds exactly the five operations, each under its own key. */
    ghost predicate Valid()
      reads this
    {
      operations == Registry()
    }

    /** Start from an empty map and fill it with `InitializeOperations`. */
    constructor ()
      ensures Valid()
    {
      operations := map[];
      new;
      InitializeOperations();
    }

    /** `initializeOperations`: put the five operations under their keys. */
    method InitializeOperations()
      modifies this
      ensures operations == old(operations) + Registry()
    {
      operations := operations["factorial" := Factorial];
      operations := operations["palindrome" := Palindrome];
      operations := operations["fibonacci" := Fibonacci];
      operations := operations["prime" := Prime];
      operations := operations["cubeRoot" := CubeRoot];
    }

    /** `getOperation`: the registered operation, or the failure `IllegalArgumentException` carries. */
    method GetOperation(operationType: string) returns (r: Result<Operation>)
      requires Valid()
      ensures r.Success? <==> operationType in KnownKeys
      ensures r.Success? ==> Key(r.value) == operationType
      ensures r.Failure? ==> r.error == "Unsupported operation: " + operationType
      ensures r == Resolve(operationType)
    {
      if operationType !in operations {
        return Failure("Unsupported operation: " + operationType);
      }
      return Success(operations[operationType]);
    }

    /** `getAvailableOperations`: the key set of the registry, which is the five known keys. */
    method GetAvailableOperations() returns (keys: set<string>)
      requires Valid()
      ensures keys == KnownKeys
    {
      keys := operations.Keys;
    }
  }

  /**
   * What `execute` of an operation answers for `n`. The cube root works in
   * floating point, which this model does not cover: its text is given as
   * `cubeRoot`.
   */
  function Report(op: Operation, n: Int32, cubeRoot: Int32 -> string): string {
    match op
    case Factorial => FactorialOperation.Report(n)
    case Palindrome => PalindromeOperation.Report(n)
    case Fibonacci => FibonacciOperation.Report(n)
    case Prime => PrimeOperation.Report(n)
    case CubeRoot => cubeRoot(n)
  }

  /** `MathOperation.execute`: run the operation's own `execute`. */
  method Execute(op: Operation, number: Int32, cubeRoot: Int32 -> string) returns (msg: string)
    ensures msg == Report(op, number, cubeRoot)
  {
    match op
    case Factorial => msg := FactorialOperation.Execute(number);
    case Palindrome => msg := PalindromeOperation.Execute(number);
    case Fibonacci => msg := FibonacciOperation.Execute(number);
    case Prime => msg := PrimeOperation.Execute(number);
    case CubeRoot => msg := cubeRoot(number);
  }
}
