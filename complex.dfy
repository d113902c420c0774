/** Complex numbers with real components (the program uses `f64`). */
module Complexes {

  datatype Complex = Complex(r: real, i: real)

  const Zero: Complex := Complex(0.0, 0.0)

  /** `impl Add for Complex`: subtracting b from the sum gives a back. */
  function Add(a: Complex, b: Complex): (s: Complex)
    ensures Complex(s.r - b.r, s.i - b.i) == a
  {
    Complex(a.r + b.r, a.i + b.i)
  }

  /** `impl Mul for Complex`: a real factor scales both components, and
      i * i is -1. With MulDistributes, these fix the product. */
  function Mul(a: Complex, b: Complex): (p: Complex)
    ensures a.i == 0.0 ==> p == Complex(a.r * b.r, a.r * b.i)
    ensures a == Complex(0.0, 1.0) && b == a ==> p == Complex(-1.0, 0.0)
  {
    Complex(a.r * b.r - a.i * b.i, a.r * b.i + a.i * b.r)
  }

  /** r^2 + i^2, the radicand of `norm`. */
  function NormSquared(a: Complex): (s: real)
    ensures s >= 0.0
  {
    a.r * a.r + a.i * a.i
  }

  /** n is `norm(a)`: the non-negative square root of r^2 + i^2. */
  ghost predicate IsNorm(a: Complex, n: real): (b: bool)
    ensures b ==> (n == 0.0 <==> a == Zero)
    ensures b ==> a.r * a.r <= n * n && a.i * a.i <= n * n
  {
    ZeroSquare(n); ZeroSquare(a.r); ZeroSquare(a.i);
    n >= 0.0 && n * n == NormSquared(a)
  }

  /** Only zero squares to zero. */
  lemma ZeroSquare(x: real)
    ensures x * x >= 0.0
    ensures x * x == 0.0 ==> x == 0.0
  {
    if x != 0.0 {
      if x > 0.0 {
        SquareMonotone(0.0, x);
      } else {
        SquareMonotone(0.0, -x);
        assert (-x) * (-x) == x * x;
      }
    }
  }

  lemma AddCommutes(a: Complex, b: Complex)
    ensures Add(a, b) == Add(b, a)
  {
  }

  lemma AddZeroIsIdentity(a: Complex)
    ensures Add(Zero, a) == a && Add(a, Zero) == a
  {
  }

  lemma MulCommutes(a: Complex, b: Complex)
    ensures Mul(a, b) == Mul(b, a)
  {
  }

  /** Multiplication distributes over addition. */
  lemma MulDistributes(a: Complex, b: Complex, c: Complex)
    ensures Mul(a, Add(b, c)) == Add(Mul(a, b), Mul(a, c))
  {
    assert a.r * (b.r + c.r) == a.r * b.r + a.r * c.r;
    assert a.i * (b.i + c.i) == a.i * b.i + a.i * c.i;
    assert a.r * (b.i + c.i) == a.r * b.i + a.r * c.i;
    assert a.i * (b.r + c.r) == a.i * b.r + a.i * c.r;
  }

  /** The squared norm of a product is the product of the squared norms. */
  lemma MulNormSquared(a: Complex, b: Complex)
    ensures NormSquared(Mul(a, b)) == NormSquared(a) * NormSquared(b)
  {
    var (x, y, u, w) := (a.r, a.i, b.r, b.i);
    assert (x * u - y * w) * (x * u - y * w) == x * x * u * u - 2.0 * x * u * y * w + y * y * w * w;
    assert (x * w + y * u) * (x * w + y * u) == x * x * w * w + 2.0 * x * w * y * u + y * y * u * u;
    assert (x * x + y * y) * (u * u + w * w) == x * x * u * u + x * x * w * w + y * y * u * u + y * y * w * w;
  }

  lemma MulZeroIsZero(a: Complex)
    ensures Mul(Zero, a) == Zero && Mul(a, Zero) == Zero
  {
  }

  /** Squaring is strictly monotone on the non-negative reals. */
  lemma SquareMonotone(x: real, y: real)
    requires 0.0 <= x < y
    ensures x * x < y * y
  {
    var d := y - x;
    assert d > 0.0;
    assert y * y == (x + d) * (x + d) == x * x + (x + x + d) * d;
    assert (x + x + d) * d > 0.0;
  }

  /** Comparing a norm with a non-negative bound is comparing its square. */
  lemma NormCompare(a: Complex, n: real, k: real)
    requires IsNorm(a, n) && k >= 0.0
    ensures n > k <==> NormSquared(a) > k * k
  {
    if n > k {
      SquareMonotone(k, n);
    } else if n < k {
      SquareMonotone(n, k);
    }
  }

  /** The escape test `norm(z) > 2` is the test `r^2 + i^2 > 4`. */
  lemma NormExceedsTwo(a: Complex, n: real)
    requires IsNorm(a, n)
    ensures n > 2.0 <==> NormSquared(a) > 4.0
  {
    NormCompare(a, n, 2.0);
  }

  /** At most one real is the norm of a complex number. */
  lemma NormUnique(a: Complex, m: real, n: real)
    requires IsNorm(a, m) && IsNorm(a, n)
    ensures m == n
  {
    if m < n {
      SquareMonotone(m, n);
    } else if n < m {
      SquareMonotone(n, m);
    }
  }
}
