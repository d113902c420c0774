/** The escape-time functions and the colour ramp. An escape function maps a
    plane point and an iteration budget to -1 (did not escape) or the step at
    which the orbit left the disc of radius 2. */
module Escape {
  import opened Machine
  import opened Complexes

  // ---------------------------------------------------------------------
  // The Mandelbrot iteration

  /** The k-th iterate of z -> z*z + c started at 0. */
  function Orbit(c: Complex, k: nat): (z: Complex)
    ensures c == Zero ==> z == Zero
    ensures c.i == 0.0 ==> z.i == 0.0
  {
    if k == 0 then Zero else var z := Orbit(c, k - 1); Add(Mul(z, z), c)
  }

  /** Step k (counting from 0) computes the iterate z_(k+1); the orbit
      escapes at step k when that iterate has r^2 + i^2 > 4, which is
      `norm(z) > 2` by Complexes.NormExceedsTwo. */
  predicate EscapesAt(c: Complex, k: nat): (e: bool)
    ensures k == 0 ==> (e <==> NormSquared(c) > 4.0)
    ensures c == Zero ==> !e
  {
    NextIterate(c, k);
    NormSquared(Orbit(c, k + 1)) > 4.0
  }

  /** Iterate 1 is c, and the orbit of 0 has squared norm 0 throughout. */
  lemma NextIterate(c: Complex, k: nat)
    ensures k == 0 ==> Orbit(c, k + 1) == c
    ensures c == Zero ==> NormSquared(Orbit(c, k + 1)) == 0.0
  {
    if k == 0 {
      FirstIterateIsPoint(c);
    }
    if c == Zero {
      NormSquaredOf(Orbit(c, k + 1), 0.0, 0.0);
    }
  }

  /** With n the norm of iterate k + 1, step k escapes exactly when
      `z.norm() > 2.`, as the naive loop tests it. */
  lemma EscapesAtNorm(c: Complex, k: nat, n: real)
    requires IsNorm(Orbit(c, k + 1), n)
    ensures EscapesAt(c, k) <==> n > 2.0
  {
    NormExceedsTwo(Orbit(c, k + 1), n);
  }

  /** The first step in [from, n) at which the orbit escapes, if any. */
  function FirstEscape(c: Complex, from: nat, n: nat): (e: Option<nat>)
    ensures e.Some? ==> from <= e.value < n && EscapesAt(c, e.value)
    ensures e.Some? ==> forall j :: from <= j < e.value ==> !EscapesAt(c, j)
    ensures e.None? ==> forall j :: from <= j < n ==> !EscapesAt(c, j)
    decreases n - from
  {
    if from >= n then None
    else if EscapesAt(c, from) then Some(from)
    else FirstEscape(c, from + 1, n)
  }

  /** What both Mandelbrot functions return: -1 when no step below the
      budget escapes, otherwise the first escaping step cast `as i32`. */
  function MandelbrotResult(c: Complex, iterations: u32): (r: i32)
    ensures r == -1 <==> forall j :: 0 <= j < iterations as int ==> !EscapesAt(c, j)
    ensures r >= 0 ==> r as int < iterations as int && EscapesAt(c, r as int)
    ensures r >= 0 ==> forall j :: 0 <= j < r as int ==> !EscapesAt(c, j)
    ensures iterations as int <= 0x8000_0000 ==> r >= -1
  {
    match FirstEscape(c, 0, iterations as int)
    case None => -1
    case Some(k) => U32AsI32(k as u32)
  }

  /** Each iterate is the square of the previous one plus c. */
  lemma OrbitStep(c: Complex, k: nat, z: Complex)
    requires z == Orbit(c, k)
    ensures Orbit(c, k + 1) == Add(Mul(z, z), c)
  {
  }

  /** The first iterate is c itself. */
  lemma FirstIterateIsPoint(c: Complex)
    ensures Orbit(c, 1) == c
  {
    OrbitStep(c, 0, Zero);
    assert Mul(Zero, Zero) == Zero;
  }

  /** With no budget nothing escapes. */
  lemma NoBudgetNoEscape(c: Complex)
    ensures MandelbrotResult(c, 0) == -1
  {
  }

  /** The component update of `mandelbrot_optimized` is one step z*z + c. */
  lemma ComponentStep(x: real, y: real, c: Complex)
    ensures Complex(x * x - y * y + c.r, (x + x) * y + c.i) == Add(Mul(Complex(x, y), Complex(x, y)), c)
  {
  }

  /** The result once the search has reached step i with nothing found before it. */
  lemma ResultFound(c: Complex, iterations: u32, i: nat)
    requires i < iterations as int && EscapesAt(c, i)
    requires forall j :: 0 <= j < i ==> !EscapesAt(c, j)
    ensures MandelbrotResult(c, iterations) == U32AsI32(i as u32)
  {
    FirstEscapeUnique(c, 0, iterations as int, i);
  }

  lemma {:induction false} FirstEscapeUnique(c: Complex, from: nat, n: nat, i: nat)
    requires from <= i < n && EscapesAt(c, i)
    requires forall j :: from <= j < i ==> !EscapesAt(c, j)
    ensures FirstEscape(c, from, n) == Some(i)
    decreases i - from
  {
    if from < i {
      FirstEscapeUnique(c, from + 1, n, i);
    }
  }

  /** The result once the search has run out of budget. */
  lemma ResultNotFound(c: Complex, iterations: u32)
    requires forall j :: 0 <= j < iterations as int ==> !EscapesAt(c, j)
    ensures MandelbrotResult(c, iterations) == -1
  {
  }

  /** `mandelbrot_naive`: iterate in complex arithmetic and test the norm. */
  method MandelbrotNaive(c: Complex, iterations: u32) returns (r: i32)
    ensures r == MandelbrotResult(c, iterations)
  {
    var z := Zero;
    var i: nat := 0;
    while i < iterations as int
      invariant i <= iterations as int
      invariant z == Orbit(c, i)
      invariant forall j :: 0 <= j < i ==> !EscapesAt(c, j)
    {
      OrbitStep(c, i, z);
      z := Add(Mul(z, z), c);
      if NormSquared(z) > 4.0 {
        ResultFound(c, iterations, i);
        return U32AsI32(i as u32);
      }
      i := i + 1;
    }
    ResultNotFound(c, iterations);
    return -1;
  }

  /** The update `y = (x + x) * y + c.i; x = x2 - y2 + c.r` of
      `mandelbrot_optimized`, with x2 and y2 the squares of x and y, is one
      step of the orbit. */
  lemma OptimizedUpdate(c: Complex, i: nat, x: real, y: real, x2: real, y2: real)
    requires Complex(x, y) == Orbit(c, i) && x2 == x * x && y2 == y * y
    ensures Complex(x2 - y2 + c.r, (x + x) * y + c.i) == Orbit(c, i + 1)
  {
    OrbitStep(c, i, Complex(x, y));
    ComponentStep(x, y, c);
  }

  /** The test `x2 + y2 > 4` on the new iterate is the escape test of the step. */
  lemma OptimizedTest(c: Complex, i: nat, x: real, y: real)
    requires Complex(x, y) == Orbit(c, i + 1)
    ensures EscapesAt(c, i) <==> x * x + y * y > 4.0
  {
    var z := Orbit(c, i + 1);
    assert EscapesAt(c, i) == (NormSquared(z) > 4.0);
    NormSquaredOf(z, x, y);
  }

  lemma NormSquaredOf(z: Complex, x: real, y: real)
    requires z == Complex(x, y)
    ensures NormSquared(z) == x * x + y * y
  {
  }

  /** `mandelbrot_optimized`: carry x, y and their squares, test x^2 + y^2 > 4. */
  method MandelbrotOptimized(c: Complex, iterations: u32) returns (r: i32)
    ensures r == MandelbrotResult(c, iterations)
  {
    var x, y, x2, y2 := 0.0, 0.0, 0.0, 0.0;
    var i: nat := 0;
    while i < iterations as int
      invariant i <= iterations as int
      invariant Complex(x, y) == Orbit(c, i)
      invariant x2 == x * x && y2 == y * y
      invariant forall j :: 0 <= j < i ==> !EscapesAt(c, j)
    {
      OptimizedUpdate(c, i, x, y, x2, y2);
      y := (x + x) * y + c.i;
      x := x2 - y2 + c.r;
      x2 := x * x;
      y2 := y * y;
      OptimizedTest(c, i, x, y);
      if x2 + y2 > 4.0 {
        ResultFound(c, iterations, i);
        return U32AsI32(i as u32);
      }
      i := i + 1;
    }
    ResultNotFound(c, iterations);
    return -1;
  }

  // ---------------------------------------------------------------------
  // The circle reference function

  /** The integer part of the square root of s, found by counting up from k. */
  function FloorSqrtFrom(s: real, k: nat): (m: nat)
    requires (k * k) as real <= s
    ensures k <= m
    ensures (m * m) as real <= s < ((m + 1) * (m + 1)) as real
    decreases s.Floor - k
  {
    assert k + 1 <= (k + 1) * (k + 1);
    if ((k + 1) * (k + 1)) as real <= s then FloorSqrtFrom(s, k + 1) else k
  }

  /** floor(sqrt(s)). */
  function FloorSqrt(s: real): (m: nat)
    requires s >= 0.0
    ensures (m * m) as real <= s < ((m + 1) * (m + 1)) as real
  {
    FloorSqrtFrom(s, 0)
  }

  /** The floor of the norm is the integer square root of its radicand. */
  lemma FloorOfNorm(c: Complex, d: real)
    requires IsNorm(c, d)
    ensures d.Floor == FloorSqrt(NormSquared(c))
  {
    var m := FloorSqrt(NormSquared(c));
    if d < m as real {
      SquareMonotone(d, m as real);
      assert false;
    }
    if d >= (m + 1) as real {
      if d > (m + 1) as real {
        SquareMonotone((m + 1) as real, d);
      }
      assert false;
    }
  }

  /** `iterations - d.floor() as u32` does not underflow; otherwise it
      panics in debug builds and wraps in release builds. */
  predicate CircleDefined(c: Complex, iterations: u32)
  {
    NormSquared(c) <= 1.0 || FloorSqrt(NormSquared(c)) <= iterations as int
  }

  /** `circle`, with d = norm(c) compared through its square and floored
      through FloorSqrt. */
  function Circle(c: Complex, iterations: u32): (r: i32)
    requires CircleDefined(c, iterations)
    ensures r == -1 <==> NormSquared(c) <= 1.0
    ensures iterations as int <= 0x8000_0000 && r != -1 ==> 0 <= r as int < iterations as int
  {
    if NormSquared(c) <= 1.0 then -1
    else U32AsI32(iterations - FloorSqrt(NormSquared(c)) as u32)
  }

  /** `circle` stated with the norm itself, as the program writes it. */
  lemma CircleOfNorm(c: Complex, iterations: u32, d: real)
    requires IsNorm(c, d)
    requires d <= 1.0 || d.Floor <= iterations as int
    ensures CircleDefined(c, iterations)
    ensures Circle(c, iterations) == if d <= 1.0 then -1 else U32AsI32(iterations - d.Floor as u32)
  {
    NormCompare(c, d, 1.0);
    FloorOfNorm(c, d);
  }

  // ---------------------------------------------------------------------
  // Colours

  /** An RGBA pixel. */
  type Color = c: seq<u8> | |c| == 4 witness [0, 0, 0, 255]

  const Black: Color := [0, 0, 0, 255]

  /** `((255. / steps as f64) * z as f64) as u8`. With steps == 0 the
      quotient is +infinity, and the product saturates to 255 for z > 0 and
      to 0 otherwise (0 * infinity is NaN, which casts to 0). */
  function RedChannel(z: i32, steps: u32): (red: u8)
    ensures z <= 0 ==> red == 0
    ensures steps as int <= z as int && z > 0 ==> red == 255
  {
    if steps == 0 then (if z > 0 then 255 else 0)
    else
      var q := (255.0 / steps as real) * z as real;
      RampQuotient(z as int, steps as int);
      if z as int < steps as int then RealAsU8(q)
      else QuotientAtLeast(255 * z as int, steps as int, 255); RealAsU8(q)
  }

  /** A quotient of reals is at least b when the dividend is at least b * d. */
  lemma QuotientAtLeast(n: int, d: int, b: int)
    requires d > 0 && n >= b * d
    ensures n as real / d as real >= b as real
  {
    assert n as real >= b as real * d as real;
  }

  /** `z_to_color`: a red ramp on opaque black. */
  function ZToColor(z: i32, steps: u32): (color: Color)
    ensures color[1] == 0 && color[2] == 0 && color[3] == 255
    ensures z == -1 ==> color == Black
  {
    if z == -1 then Black else [RedChannel(z, steps), 0, 0, 255]
  }

  /** Real division of naturals, floored, is integer division. */
  lemma FloorOfQuotient(n: int, d: int)
    requires n >= 0 && d > 0
    ensures (n as real / d as real).Floor == n / d
  {
    var q, m := n / d, n % d;
    assert n as real == q as real * d as real + m as real;
    assert n as real / d as real == q as real + m as real / d as real;
    assert 0.0 <= m as real / d as real < 1.0;
  }

  /** The ramp's product, written as one quotient. */
  lemma RampQuotient(z: int, d: int)
    requires d > 0
    ensures (255.0 / d as real) * z as real == (255 * z) as real / d as real
  {
  }

  /** A quotient of naturals below a bound b, when the dividend is below b * d. */
  lemma QuotientBelow(n: int, d: int, b: int)
    requires d > 0 && n < b * d
    ensures n as real / d as real < b as real
  {
    assert n as real < b as real * d as real;
  }

  /** For an escape step below the budget, red is floor(255 * z / steps),
      which is never full intensity. */
  lemma RedRamp(z: i32, steps: u32)
    requires 0 <= z as int < steps as int
    ensures ZToColor(z, steps)[0] as int == (255 * z as int) / steps as int
    ensures ZToColor(z, steps)[0] < 255
  {
    var n, d := 255 * z as int, steps as int;
    RampQuotient(z as int, d);
    QuotientBelow(n, d, 255);
    FloorOfQuotient(n, d);
  }

  lemma RampMonotone(z1: int, z2: int, steps: int)
    requires steps > 0 && z1 <= z2
    ensures (255.0 / steps as real) * z1 as real <= (255.0 / steps as real) * z2 as real
  {
    var k := 255.0 / steps as real;
    assert k > 0.0;
    assert k * z2 as real - k * z1 as real == k * (z2 - z1) as real;
  }

  lemma RedChannelMonotone(z1: i32, z2: i32, steps: u32)
    requires z1 <= z2
    ensures RedChannel(z1, steps) <= RedChannel(z2, steps)
  {
    if steps > 0 {
      RampMonotone(z1 as int, z2 as int, steps as int);
      RealAsU8Monotone((255.0 / steps as real) * z1 as real, (255.0 / steps as real) * z2 as real);
    }
  }

  /** A later escape is never a darker red. */
  lemma RedMonotone(z1: i32, z2: i32, steps: u32)
    requires 0 <= z1 <= z2
    ensures ZToColor(z1, steps)[0] <= ZToColor(z2, steps)[0]
  {
    RedChannelMonotone(z1, z2, steps);
  }

  // ---------------------------------------------------------------------
  // Choosing the escape function

  datatype Evaluator = CircleFunction | MandelbrotFunction

  /** `settings::FUNCTION == "CIRCLE"` picks `circle`, anything else
      `mandelbrot_optimized`. */
  function SelectEvaluator(name: string): (e: Evaluator)
    ensures e == CircleFunction <==> name == "CIRCLE"
  {
    if name == "CIRCLE" then CircleFunction else MandelbrotFunction
  }

  predicate Defined(e: Evaluator, c: Complex, iterations: u32)
  {
    e == MandelbrotFunction || CircleDefined(c, iterations)
  }

  /** The selected escape function; for Mandelbrot this is the value that
      MandelbrotOptimized is proved to return. */
  function Evaluate(e: Evaluator, c: Complex, iterations: u32): (r: i32)
    requires Defined(e, c, iterations)
    ensures e == MandelbrotFunction ==>
      (r == -1 <==> forall j :: 0 <= j < iterations as int ==> !EscapesAt(c, j))
    ensures e == CircleFunction ==> (r == -1 <==> NormSquared(c) <= 1.0)
  {
    match e
    case CircleFunction => Circle(c, iterations)
    case MandelbrotFunction => MandelbrotResult(c, iterations)
  }
}
