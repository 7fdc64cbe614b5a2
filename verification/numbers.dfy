/**
 The calculator's numbers. Python hands the program either an `int` or a
 `float`; the model keeps that distinction as a tag and reads a float as an
 exact real (rounding, infinities and NaN are not modelled).
 */
module Numbers {

  /** A number as the program handles it: either a Python integer or a Python float. */
  datatype Num = Int(i: int) | Frac(x: real)

  /** The numeric value a number denotes, whatever its tag. */
  function Value(n: Num): real {
    match n
    case Int(i) => i as real
    case Frac(x) => x
  }

  /** Python's `float.is_integer()`: the value has no fractional part. */
  predicate IsWhole(x: real) {
    x.Floor as real == x
  }

  /** Normal form: a whole value is never carried as a float (`5`, not `5.0`). */
  predicate Normal(n: Num) {
    n.Frac? ==> !IsWhole(n.x)
  }

  /**
   The normalisation the calculator applies to a parsed operand and to a
   result: a float with zero fractional part becomes the `int` of the same
   value; anything else is left alone.
   */
  function Normalize(n: Num): (r: Num)
    ensures Value(r) == Value(n)
    ensures Normal(r)
    ensures n.Int? ==> r == n
    ensures r.Frac? ==> r == n
  {
    match n
    case Int(_) => n
    case Frac(x) => if IsWhole(x) then Int(x.Floor) else n
  }

  /** A value has exactly one normal form. */
  lemma NormalUnique(m: Num, n: Num)
    requires Normal(m) && Normal(n)
    requires Value(m) == Value(n)
    ensures m == n
  {
  }

  /** Normalising is idempotent, and a number is normal exactly when normalising leaves it alone. */
  lemma NormalizeFixpoint(n: Num)
    ensures Normalize(Normalize(n)) == Normalize(n)
    ensures Normal(n) <==> Normalize(n) == n
  {
  }
}
