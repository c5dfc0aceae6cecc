/**
 * Vocabulary shared by every module of the model: optional values, the time
 * units the app computes with, and Kotlin's integer division.
 *
 * Time is an epoch-millisecond `int` throughout; the device's zone is taken to
 * be UTC with 24-hour days, so "the local day" of an instant is the Euclidean
 * quotient by DAY_MS (which agrees with java.time's floor for negative instants).
 */
module Common {

  datatype Option<T> = None | Some(value: T)

  const SECOND_MS: int := 1000
  const MINUTE_MS: int := 60_000
  const HOUR_MS: int := 3_600_000
  const DAY_MS: int := 86_400_000

  const INT_MIN: int := -0x8000_0000
  const INT_MAX: int := 0x7fff_ffff

  /** The range of a Kotlin `Int`. */
  predicate IsInt32(n: int) {
    INT_MIN <= n <= INT_MAX
  }

  /** Kotlin's `a / b` on `Int` and `Long` for a positive divisor: the quotient truncated toward zero. */
  function Quot(a: int, b: int): (q: int)
    requires b > 0
    ensures a >= 0 ==> 0 <= q * b <= a < q * b + b
    ensures a < 0 ==> q * b - b < a <= q * b <= 0
  {
    if a >= 0 then
      DivBounds(a, b);
      a / b
    else
      DivBounds(-a, b);
      NegatedProduct((-a) / b, b);
      -((-a) / b)
  }

  /** Euclidean division of a natural number: the quotient times the divisor is at most it, by less than one divisor. */
  lemma DivBounds(a: int, b: int)
    requires a >= 0 && b > 0
    ensures 0 <= (a / b) * b <= a < (a / b) * b + b
  {
    var q, r := a / b, a % b;
    assert a == q * b + r && 0 <= r < b;
    NonNegativeProduct(q, b);
  }

  lemma NonNegativeProduct(x: int, y: int)
    requires x >= 0 && y > 0
    ensures x * y >= 0
  {
  }

  lemma NegatedProduct(x: int, y: int)
    ensures (-x) * y == -(x * y)
  {
  }

  /** Kotlin's `a % b` for a positive divisor: the remainder takes the sign of the dividend. */
  function Rem(a: int, b: int): (r: int)
    requires b > 0
    ensures a == Quot(a, b) * b + r
    ensures a >= 0 ==> 0 <= r < b
    ensures a < 0 ==> -b < r <= 0
  {
    a - Quot(a, b) * b
  }

  /** A non-empty set of integers has an element (what a `:|` choice out of it needs). */
  lemma SomeElement(s: set<int>)
    requires s != {}
    ensures exists x :: x in s
  {
    assert (forall x :: x !in s) ==> s == {};
  }

  /** The same for a set of strings. */
  lemma SomeString(s: set<string>)
    requires s != {}
    ensures exists x :: x in s
  {
    assert (forall x :: x !in s) ==> s == {};
  }
}
