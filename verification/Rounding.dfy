/** The two roundings money goes through: Python's `round`, and the NUMERIC(20, 8) columns of the ledger. */
module Rounding {

  datatype Option<+T> = None | Some(value: T)

  /** Nearest integer, ties to the even neighbour. */
  function NearestEven(x: real): (n: int)
    ensures -0.5 <= n as real - x <= 0.5
  {
    var f := x.Floor;
    var rest := x - f as real;
    if rest < 0.5 || (rest == 0.5 && f % 2 == 0) then f else f + 1
  }

  /** Nearest integer, ties away from zero. */
  function NearestAway(x: real): (n: int)
    ensures -0.5 <= n as real - x <= 0.5
  {
    if x >= 0.0 then (x + 0.5).Floor else -((0.5 - x).Floor)
  }

  /** `round(x, 2)`. */
  function Round2(x: real): (r: real)
    ensures -0.005 <= r - x <= 0.005
  {
    NearestEven(x * 100.0) as real / 100.0
  }

  /** `round(x, 4)`. */
  function Round4(x: real): (r: real)
    ensures -0.00005 <= r - x <= 0.00005
  {
    NearestEven(x * 10000.0) as real / 10000.0
  }

  /** What a NUMERIC(20, 8) column keeps of `x`. */
  function Column(x: real): (r: real)
    ensures -0.000000005 <= r - x <= 0.000000005
  {
    NearestAway(x * 100000000.0) as real / 100000000.0
  }

  function ColumnOption(x: Option<real>): Option<real> {
    match x
    case None => None
    case Some(v) => Some(Column(v))
  }

  predicate Stored(x: real) {
    Column(x) == x
  }

  lemma NearestAwayOfInteger(n: int)
    ensures NearestAway(n as real) == n
  {
    if n >= 0 {
      assert (n as real + 0.5).Floor == n;
    } else {
      assert (0.5 - n as real).Floor == -n;
    }
  }

  lemma ColumnOfHundredMillionths(n: int)
    ensures Column(n as real / 100000000.0) == n as real / 100000000.0
  {
    NearestAwayOfInteger(n);
    assert n as real / 100000000.0 * 100000000.0 == n as real;
  }

  /** Writing a value that came out of a column changes nothing. */
  lemma ColumnTwice(x: real)
    ensures Stored(Column(x))
  {
    ColumnOfHundredMillionths(NearestAway(x * 100000000.0));
  }

  /** Rounding cents to cents changes nothing. */
  lemma Round2Twice(x: real)
    ensures Round2(Round2(x)) == Round2(x)
  {
    var cents := NearestEven(x * 100.0);
    assert cents as real / 100.0 * 100.0 == cents as real;
    NearestEvenOfInteger(cents);
  }

  lemma NearestEvenOfInteger(n: int)
    ensures NearestEven(n as real) == n
  {
  }

  lemma ColumnOptionTwice(x: Option<real>)
    ensures ColumnOption(ColumnOption(x)) == ColumnOption(x)
  {
    if x.Some? {
      ColumnTwice(x.value);
    }
  }

  /** Amounts rounded to cents or to basis points fit a column exactly. */
  lemma ColumnKeepsRounded(x: real)
    ensures Stored(Round2(x)) && Stored(Round4(x))
  {
    var cents := NearestEven(x * 100.0);
    ColumnOfHundredMillionths(cents * 1000000);
    assert (cents * 1000000) as real / 100000000.0 == cents as real / 100.0;
    var points := NearestEven(x * 10000.0);
    ColumnOfHundredMillionths(points * 10000);
    assert (points * 10000) as real / 100000000.0 == points as real / 10000.0;
  }

  function Max(x: real, y: real): real {
    if x < y then y else x
  }

  function Min(x: real, y: real): real {
    if x < y then x else y
  }

  function Abs(x: real): real {
    if x < 0.0 then -x else x
  }

  /** `math.isclose(a, b, rel_tol=1e-9, abs_tol=0.01)`. */
  predicate IsClose(a: real, b: real) {
    Abs(a - b) <= Max(0.000000001 * Max(Abs(a), Abs(b)), 0.01)
  }

  lemma ProductPositive(x: real, y: real)
    requires x > 0.0 && y > 0.0
    ensures x * y > 0.0
  {
  }

  lemma ProductNonnegative(x: real, y: real)
    requires x >= 0.0 && y >= 0.0
    ensures x * y >= 0.0
  {
  }
}
