/** Shared vocabulary: results that carry the source's exceptions, exact real
    arithmetic in place of doubles, and finite sums over an index range. */
module Prelude {

  /** A returned value, or the fault of a C++ `throw` / Python `raise`. */
  datatype Result<+T, +E> = Ok(value: T) | Err(error: E)

  datatype Option<+T> = None | Some(value: T)

  type Byte = b: nat | b < 256

  function Abs(x: real): real {
    if x < 0.0 then -x else x
  }

  function Max(x: real, y: real): real {
    if x < y then y else x
  }

  function Min(x: real, y: real): real {
    if y < x then y else x
  }

  /** A product under a name, so that proofs which only compare products can hide the
      multiplication and stay linear. */
  function Product(x: real, y: real): real { x * y }

  /** `std::clamp` for `low <= high`. */
  function Clamp(x: real, low: real, high: real): real {
    if x < low then low else if high < x then high else x
  }

  function Zeros(n: nat): (r: seq<real>)
    ensures |r| == n && forall j :: 0 <= j < n ==> r[j] == 0.0
  {
    seq(n, _ => 0.0)
  }

  /** The sum of `f(0) .. f(n-1)`, accumulated left to right as the source's loops do. */
  function Sum(n: nat, f: int -> real): real {
    if n == 0 then 0.0 else Sum(n - 1, f) + f(n - 1)
  }

  lemma {:induction false} SumExt(n: nat, f: int -> real, g: int -> real)
    requires forall i :: 0 <= i < n ==> f(i) == g(i)
    ensures Sum(n, f) == Sum(n, g)
  {
    if n > 0 {
      SumExt(n - 1, f, g);
    }
  }

  lemma {:induction false} SumAdd(n: nat, f: int -> real, g: int -> real, h: int -> real)
    requires forall i :: 0 <= i < n ==> h(i) == f(i) + g(i)
    ensures Sum(n, h) == Sum(n, f) + Sum(n, g)
  {
    if n > 0 {
      SumAdd(n - 1, f, g, h);
    }
  }

  lemma {:induction false} SumScale(n: nat, c: real, f: int -> real, h: int -> real)
    requires forall i :: 0 <= i < n ==> h(i) == Product(c, f(i))
    ensures Sum(n, h) == Product(c, Sum(n, f))
  {
    if n > 0 {
      SumScale(n - 1, c, f, h);
      Distribute(c, Sum(n - 1, f), f(n - 1));
    }
  }

  lemma Distribute(c: real, x: real, y: real)
    ensures Product(c, x + y) == Product(c, x) + Product(c, y)
    ensures Product(x + y, c) == Product(x, c) + Product(y, c)
  {
  }

  lemma NonNegativeProduct(x: real, y: real)
    requires x >= 0.0 && y >= 0.0
    ensures x * y >= 0.0
  {
  }

  lemma PositiveProduct(x: real, y: real)
    requires x > 0.0 && y > 0.0
    ensures x * y > 0.0
  {
  }

  lemma SquareNonNegative(x: real)
    ensures x * x >= 0.0
  {
    if x < 0.0 {
      NonNegativeProduct(-x, -x);
    }
  }

  lemma ZeroTimes(x: real)
    ensures Product(x, 0.0) == 0.0 && Product(0.0, x) == 0.0
  {
  }

  lemma OneTimes(x: real)
    ensures Product(1.0, x) == x && Product(x, 1.0) == x
  {
  }

  /** Comparing a quotient with a bound. */
  lemma QuotientAtLeast(x: real, y: real, c: real)
    requires y > 0.0
    ensures c <= x / y <==> Product(c, y) <= x
  {
    var q := x / y;
    assert q * y == x;
    if q < c {
      PositiveProduct(c - q, y);
    } else {
      NonNegativeProduct(q - c, y);
    }
  }

  lemma Commute(x: real, y: real)
    ensures Product(x, y) == Product(y, x)
  {
  }

  lemma Associate(x: real, y: real, z: real)
    ensures Product(x, Product(y, z)) == Product(Product(x, y), z)
  {
  }

  /** Exchange of a double sum. */
  lemma {:induction false} SumSwap(m: nat, n: nat, f: (int, int) -> real)
    ensures Sum(m, i => Sum(n, j => f(i, j))) == Sum(n, j => Sum(m, i => f(i, j)))
  {
    var rows := i => Sum(n, j => f(i, j));
    if m == 0 {
      SumZero(n, j => Sum(m, i => f(i, j)));
    } else {
      SumSwap(m - 1, n, f);
      var before := j => Sum(m - 1, i => f(i, j));
      var last := j => f(m - 1, j);
      var after := j => Sum(m, i => f(i, j));
      forall j | 0 <= j < n ensures after(j) == before(j) + last(j) {
        SumExt(m - 1, i => f(i, j), i => f(i, j));
      }
      SumAdd(n, before, last, after);
      SumExt(n, last, j => f(m - 1, j));
    }
  }

  lemma {:induction false} SumZero(n: nat, f: int -> real)
    requires forall i :: 0 <= i < n ==> f(i) == 0.0
    ensures Sum(n, f) == 0.0
  {
    if n > 0 {
      SumZero(n - 1, f);
    }
  }

  /** One index holds a value, every other index holds zero. */
  lemma {:induction false} SumSingle(n: nat, k: nat, f: int -> real)
    requires k < n
    requires forall i :: 0 <= i < n && i != k ==> f(i) == 0.0
    ensures Sum(n, f) == f(k)
  {
    if k == n - 1 {
      SumZero(n - 1, f);
    } else {
      SumSingle(n - 1, k, f);
    }
  }

  /** Leaving one index out of a sum. */
  lemma {:induction false} SumWithout(n: nat, k: nat, f: int -> real, g: int -> real)
    requires k < n
    requires g(k) == 0.0
    requires forall i :: 0 <= i < n && i != k ==> g(i) == f(i)
    ensures Sum(n, f) == f(k) + Sum(n, g)
  {
    if k == n - 1 {
      SumExt(n - 1, f, g);
    } else {
      SumWithout(n - 1, k, f, g);
    }
  }

  lemma {:induction false} SumNonNegative(n: nat, f: int -> real)
    requires forall i :: 0 <= i < n ==> f(i) >= 0.0
    ensures Sum(n, f) >= 0.0
  {
    if n > 0 {
      SumNonNegative(n - 1, f);
    }
  }

  lemma {:induction false} SumNonPositive(n: nat, f: int -> real)
    requires forall i :: 0 <= i < n ==> f(i) <= 0.0
    ensures Sum(n, f) <= 0.0
  {
    if n > 0 {
      SumNonPositive(n - 1, f);
    }
  }

  /** The triangle inequality with a pointwise bound. */
  lemma {:induction false} SumAbs(n: nat, f: int -> real, bound: int -> real)
    requires forall i :: 0 <= i < n ==> Abs(f(i)) <= bound(i)
    ensures Abs(Sum(n, f)) <= Sum(n, bound)
  {
    if n > 0 {
      SumAbs(n - 1, f, bound);
    }
  }
}
