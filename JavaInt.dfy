/** Java `int` arithmetic: 32-bit two's-complement wrap-around and division
    that truncates toward zero (JLS 15.17.2), on Dafny's unbounded `int`. */
module JavaInt {

  const IntMin: int := -0x8000_0000
  const IntMax: int := 0x7fff_ffff
  const Modulus: int := 0x1_0000_0000

  /** The values a Java `int` can hold. */
  predicate IsInt32(x: int) {
    IntMin <= x <= IntMax
  }

  /** The `int` a Java expression yields when its exact value is `x`. */
  function Wrap32(x: int): (r: int)
    ensures IsInt32(r)
    ensures (x - r) % Modulus == 0
    ensures IsInt32(x) ==> r == x
  {
    (x - IntMin) % Modulus + IntMin
  }

  function JAdd(a: int, b: int): (r: int)
    requires IsInt32(a) && IsInt32(b)
    ensures IsInt32(r)
    ensures IsInt32(a + b) ==> r == a + b
  {
    Wrap32(a + b)
  }

  function JSub(a: int, b: int): (r: int)
    requires IsInt32(a) && IsInt32(b)
    ensures IsInt32(r)
    ensures IsInt32(a - b) ==> r == a - b
  {
    Wrap32(a - b)
  }

  function JMul(a: int, b: int): (r: int)
    requires IsInt32(a) && IsInt32(b)
    ensures IsInt32(r)
    ensures IsInt32(a * b) ==> r == a * b
  {
    Wrap32(a * b)
  }

  function Abs(x: int): nat {
    if x < 0 then -x else x
  }

  /** Separates the sign of a quotient of naturals from the rest of `JDiv`'s proof. */
  lemma DivNonnegative(n: nat, d: nat)
    requires 0 < d
    ensures 0 <= n / d
  {
  }

  /** Java's `a / b`: the magnitude is the quotient of the magnitudes, rounded
      down, and the sign is negative exactly when the operands' signs differ. */
  function JDiv(a: int, b: int): (q: int)
    requires b != 0
    ensures Abs(q) == Abs(a) / Abs(b)
    ensures q != 0 ==> ((q < 0) <==> ((a < 0) != (b < 0)))
  {
    var m: int := Abs(a) / Abs(b);
    assert 0 <= m by { DivNonnegative(Abs(a), Abs(b)); }
    if (a < 0) == (b < 0) then m else -m
  }

  /** On a non-negative dividend and a positive divisor Java's division is Dafny's. */
  lemma JDivAgreesOnNonnegative(a: int, b: int)
    requires 0 <= a && 0 < b
    ensures JDiv(a, b) == a / b
  {
  }

  /** Halving an even number is exact under either rounding. */
  lemma JDivOfEven(k: int)
    ensures JDiv(2 * k, 2) == k
    ensures (2 * k) / 2 == k
  {
  }

  /** Halving a negative odd number is where truncation and Dafny's Euclidean division part: -3 / 2 is -1 in Java, -2 under Dafny's Euclidean `/`. */
  lemma JDivNegativeOdd(a: int)
    requires a < 0 && a % 2 == 1
    ensures JDiv(a, 2) == a / 2 + 1
  {
  }

  /** A doubled `int` is even even after it wraps, so Java's half of it is
      Dafny's half too. */
  lemma JDivOfWrappedDouble(r: int)
    requires IsInt32(r)
    ensures JDiv(JMul(r, 2), 2) == JMul(r, 2) / 2
  {
    var d := JMul(r, 2);
    assert (2 * r - d) % Modulus == 0;
    assert d % 2 == 0;
    JDivOfEven(d / 2);
  }

  /** Halving a Java `int` never leaves the `int` range. */
  lemma JDivHalfInRange(a: int)
    requires IsInt32(a)
    ensures IsInt32(JDiv(a, 2))
    ensures -0x4000_0000 <= JDiv(a, 2) <= 0x3fff_ffff
  {
  }
}
