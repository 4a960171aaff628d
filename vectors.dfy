/**
 * One-dimensional real vectors (`seq<real>`): the tensor entries, rewards and
 * returns of both experiment scripts. Floating point is modelled by `real`.
 */
module Vectors {

  type Vector = seq<real>

  /** The sum of the entries of `s`; 0 for the empty sequence. */
  function Sum(s: Vector): real
  {
    if s == [] then 0.0 else s[0] + Sum(s[1..])
  }

  /**
   * Python's built-in `sum(s, start)`: `((start + s[0]) + s[1]) + ...`, a left
   * fold, which adds up the entries to `start`.
   */
  function FoldSum(s: Vector, start: real): (r: real)
    ensures r == start + Sum(s)
  {
    if s == [] then start else FoldSum(s[1..], start + s[0])
  }

  /** A suffix sum is its first entry plus the suffix sum after it. */
  lemma SumSuffix(s: Vector, t: nat)
    requires t < |s|
    ensures Sum(s[t..]) == s[t] + Sum(s[t + 1..])
  {
    assert s[t..][1..] == s[t + 1..];
  }

  /** Summation distributes over concatenation. */
  lemma {:induction false} SumConcat(a: Vector, b: Vector)
    ensures Sum(a + b) == Sum(a) + Sum(b)
  {
    if a == [] {
      assert a + b == b;
    } else {
      assert (a + b)[1..] == a[1..] + b;
      SumConcat(a[1..], b);
    }
  }

  /** A sum of non-negative entries is non-negative. */
  lemma {:induction false} SumNonNegative(s: Vector)
    requires forall i :: 0 <= i < |s| ==> s[i] >= 0.0
    ensures Sum(s) >= 0.0
  {
    if s != [] {
      SumNonNegative(s[1..]);
    }
  }

  /** A sum of zeros is zero. */
  lemma {:induction false} SumZeros(s: Vector)
    requires forall i :: 0 <= i < |s| ==> s[i] == 0.0
    ensures Sum(s) == 0.0
  {
    if s != [] {
      SumZeros(s[1..]);
    }
  }

  /** `x ** n` for a natural exponent; `0 ** 0` is 1 as in Python. */
  function Pow(x: real, n: nat): real
  {
    if n == 0 then 1.0 else x * Pow(x, n - 1)
  }

  /** One more factor: `x^(n+1) == x * x^n`. */
  lemma PowStep(x: real, n: nat)
    ensures Pow(x, n + 1) == x * Pow(x, n)
  {
  }

  /** A power of 1 is 1, and a power of a factor in `[0, 1]` stays in `[0, 1]`. */
  lemma {:induction false} PowBounds(x: real, n: nat)
    ensures x == 1.0 ==> Pow(x, n) == 1.0
    ensures 0.0 <= x ==> 0.0 <= Pow(x, n)
    ensures 0.0 <= x <= 1.0 ==> Pow(x, n) <= 1.0
  {
    if n > 0 {
      PowBounds(x, n - 1);
      ProductBounds(x, Pow(x, n - 1));
    }
  }

  /** A product of non-negative factors is non-negative, and of factors in `[0, 1]` is in `[0, 1]`. */
  lemma ProductBounds(a: real, b: real)
    ensures 0.0 <= a && 0.0 <= b ==> 0.0 <= a * b
    ensures 0.0 <= a <= 1.0 && 0.0 <= b <= 1.0 ==> a * b <= 1.0
  {
    if 0.0 <= a <= 1.0 && 0.0 <= b <= 1.0 {
      assert a * b <= a * 1.0;
    }
  }

  /** Element-wise sum of two tensors of one shape. */
  function Add(x: Vector, y: Vector): (r: Vector)
    requires |x| == |y|
    ensures |r| == |x|
    ensures forall j :: 0 <= j < |r| ==> r[j] == x[j] + y[j]
  {
    seq(|x|, j requires 0 <= j < |x| => x[j] + y[j])
  }

  /** Element-wise difference of two tensors of one shape. */
  function Sub(x: Vector, y: Vector): (r: Vector)
    requires |x| == |y|
    ensures |r| == |x|
    ensures forall j :: 0 <= j < |r| ==> r[j] == x[j] - y[j]
  {
    seq(|x|, j requires 0 <= j < |x| => x[j] - y[j])
  }

  /** A tensor times a scalar. */
  function Scale(c: real, x: Vector): (r: Vector)
    ensures |r| == |x|
    ensures forall j :: 0 <= j < |r| ==> r[j] == c * x[j]
  {
    seq(|x|, j requires 0 <= j < |x| => c * x[j])
  }

  /** Element-wise product of two tensors of one shape. */
  function Mul(x: Vector, y: Vector): (r: Vector)
    requires |x| == |y|
    ensures |r| == |x|
    ensures forall j :: 0 <= j < |r| ==> r[j] == x[j] * y[j]
  {
    seq(|x|, j requires 0 <= j < |x| => x[j] * y[j])
  }

  /** The inner product `x @ y` of two one-dimensional tensors: the sum of the products. */
  function Dot(x: Vector, y: Vector): (r: real)
    requires |x| == |y|
    ensures r == Sum(Mul(x, y))
  {
    if x == [] then 0.0
    else
      MulTail(x, y);
      x[0] * y[0] + Dot(x[1..], y[1..])
  }

  /** The products after the first are the products of the tails. */
  lemma MulTail(x: Vector, y: Vector)
    requires |x| == |y| > 0
    ensures Mul(x, y)[1..] == Mul(x[1..], y[1..])
  {
    assert |Mul(x, y)[1..]| == |Mul(x[1..], y[1..])|;
    forall j | 0 <= j < |x| - 1
      ensures Mul(x, y)[1..][j] == Mul(x[1..], y[1..])[j]
    {
      assert Mul(x, y)[1..][j] == Mul(x, y)[j + 1];
    }
  }

  /** The inner product is linear in its left operand under subtraction. */
  lemma {:induction false} DotSubLeft(x: Vector, z: Vector, y: Vector)
    requires |x| == |z| == |y|
    ensures Dot(Sub(x, z), y) == Dot(x, y) - Dot(z, y)
  {
    if x != [] {
      assert Sub(x, z)[1..] == Sub(x[1..], z[1..]);
      DotSubLeft(x[1..], z[1..], y[1..]);
    }
  }

  /** The inner product with an all-zero vector is zero. */
  lemma {:induction false} DotZeroLeft(x: Vector, y: Vector)
    requires |x| == |y|
    requires forall j :: 0 <= j < |x| ==> x[j] == 0.0
    ensures Dot(x, y) == 0.0
  {
    if x != [] {
      DotZeroLeft(x[1..], y[1..]);
    }
  }
}
