/**
 The four operations of the calculator and its choice-to-operation table.
 Python's mixed arithmetic is kept: `int` with `int` gives an `int` for
 `+`, `-` and `*`; any `float` operand gives a `float`; true division
 always gives a `float`.
 */
module Arithmetic {
  import opened Wrappers
  import opened Numbers

  /** The only failure the operations raise: `ZeroDivisionError`. */
  datatype Error = DivisionByZero

  /** The operation functions the table can hold. */
  datatype OpKind = Plus | Minus | Times | Over

  /** One entry of the operations table: a display symbol bound to an operation. */
  datatype Operation = Operation(symbol: char, kind: OpKind)

  /**
   Reference meaning of a symbol over exact reals, independent of the
   operation functions: `None` where the symbol is undefined on the operands.
   */
  function Exact(symbol: char, x: real, y: real): Option<real> {
    if symbol == '+' then Some(x + y)
    else if symbol == '-' then Some(x - y)
    else if symbol == '*' then Some(x * y)
    else if symbol == '/' && y != 0.0 then Some(x / y)
    else None
  }

  function Add(a: Num, b: Num): (r: Num)
    ensures Value(r) == Value(a) + Value(b)
    ensures r.Int? <==> a.Int? && b.Int?
  {
    if a.Int? && b.Int? then Int(a.i + b.i) else Frac(Value(a) + Value(b))
  }

  function Subtract(a: Num, b: Num): (r: Num)
    ensures Value(r) == Value(a) - Value(b)
    ensures r.Int? <==> a.Int? && b.Int?
  {
    if a.Int? && b.Int? then Int(a.i - b.i) else Frac(Value(a) - Value(b))
  }

  function Multiply(a: Num, b: Num): (r: Num)
    ensures Value(r) == Value(a) * Value(b)
    ensures r.Int? <==> a.Int? && b.Int?
  {
    if a.Int? && b.Int? then Int(a.i * b.i) else Frac(Value(a) * Value(b))
  }

  /** True division: raises exactly when the divisor is zero (`0` or `0.0`). */
  function Divide(a: Num, b: Num): (r: Result<Num, Error>)
    ensures r.Failure? <==> Value(b) == 0.0
    ensures r.Success? ==> r.value.Frac? && Value(r.value) * Value(b) == Value(a)
  {
    if Value(b) == 0.0 then Failure(DivisionByZero) else Success(Frac(Value(a) / Value(b)))
  }

  /** Calls the operation function `kind` names, as `func(a, b)` does. */
  function Apply(kind: OpKind, a: Num, b: Num): (r: Result<Num, Error>)
    ensures r.Failure? <==> kind == Over && Value(b) == 0.0
  {
    match kind
    case Plus => Success(Add(a, b))
    case Minus => Success(Subtract(a, b))
    case Times =>
      Success(Multiply(a, b))
    case Over => Divide(a, b)
  }

  /** The value of a successful call, `None` for a raised error. */
  function ValueOf(r: Result<Num, Error>): Option<real> {
    match r
    case Success(n) => Some(Value(n))
    case Failure(_) => None
  }

  /** The menu selector that chooses each operation. */
  function ChoiceOf(kind: OpKind): string {
    match kind
    case Plus => "1"
    case Minus => "2"
    case Times => "3"
    case Over => "4"
  }

  /** The display symbol of each operation. */
  function SymbolOf(kind: OpKind): char {
    match kind
    case Plus => '+'
    case Minus => '-'
    case Times => '*'
    case Over => '/'
  }

  /**
   The `operations` dictionary: a lookup by the trimmed choice text. Only
   the four selectors `1`..`4` are keys, and each names an operation whose
   symbol is the one that operation computes.
   */
  function Operations(choice: string): (r: Option<Operation>)
    ensures r.Some? <==> choice in {"1", "2", "3", "4"}
    ensures r.Some? ==> r.value.symbol == SymbolOf(r.value.kind) && ChoiceOf(r.value.kind) == choice
  {
    if choice == "1" then Some(Operation('+', Plus))
    else if choice == "2" then Some(Operation('-', Minus))
    else if choice == "3" then Some(Operation('*', Times))
    else if choice == "4" then Some(Operation('/', Over))
    else None
  }

  /** Each operation is reachable from exactly its own selector. */
  lemma ChoiceRoundTrip(kind: OpKind, choice: string)
    ensures Operations(ChoiceOf(kind)) == Some(Operation(SymbolOf(kind), kind))
    ensures Operations(choice).Some? && Operations(choice).value.kind == kind ==> choice == ChoiceOf(kind)
  {
  }

  /**
   Each operation computes what its symbol means over exact values: it
   raises exactly where the symbol is undefined (a zero divisor) and
   otherwise returns the exact sum, difference, product or quotient.
   */
  lemma ApplyMeansSymbol(kind: OpKind, a: Num, b: Num)
    ensures ValueOf(Apply(kind, a, b)) == Exact(SymbolOf(kind), Value(a), Value(b))
  {
    match kind
    case Plus =>
    case Minus =>
    case Times => ProductMeansTimes(a, b);
    case Over =>
  }

  /** The product is what `*` means. */
  lemma ProductMeansTimes(a: Num, b: Num)
    ensures ValueOf(Success(Multiply(a, b))) == Exact('*', Value(a), Value(b))
  {
    ExactTimes(Value(a), Value(b));
  }

  /** Multiplication over plain reals, apart from any number representation. */
  lemma ExactTimes(x: real, y: real)
    ensures Exact('*', x, y) == Some(x * y)
  {
  }
}
