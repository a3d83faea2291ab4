/**
 * Machine-integer helpers shared by the model: the widths of the target
 * (an ESP32, where `usize` and `u32` are 32 bits wide) and C++'s integer
 * division, which truncates toward zero where Dafny's `/` is Euclidean.
 */
module CInt {
  const U16_MODULUS: int := 0x1_0000
  const U32_MODULUS: int := 0x1_0000_0000
  const U64_MODULUS: int := 0x1_0000_0000_0000_0000

  const I32_MIN: int := -0x8000_0000
  const I32_MAX: int := 0x7FFF_FFFF

  type U8 = x: int | 0 <= x < 0x100
  type U16 = x: int | 0 <= x < U16_MODULUS
  type U32 = x: int | 0 <= x < U32_MODULUS
  type I8 = x: int | -0x80 <= x < 0x80
  type I32 = x: int | I32_MIN <= x <= I32_MAX

  /** Conversion of any integer to `u32` (and to a 32-bit `usize`). */
  function ToU32(x: int): (r: U32)
    ensures 0 <= x < U32_MODULUS ==> r == x
    ensures (r - x) % U32_MODULUS == 0
  {
    x % U32_MODULUS
  }

  function Abs(x: int): nat { if x < 0 then -x else x }

  /** C++ integer division: the quotient is truncated toward zero. */
  function Div(a: int, b: int): (q: int)
    requires b != 0
    ensures Abs(q) == Abs(a) / Abs(b)
    ensures q < 0 ==> (a < 0) != (b < 0)
    ensures q > 0 ==> (a < 0) == (b < 0)
    ensures 0 <= a && 0 < b ==> q == a / b
  {
    var q0 := Abs(a) / Abs(b);
    assert q0 >= 0 by { DivNonNegative(Abs(a), Abs(b)); }
    if (a < 0) == (b < 0) then q0 else -q0
  }

  lemma DivNonNegative(x: nat, y: nat)
    requires y > 0
    ensures x / y >= 0
  {
  }

  /** Dividing by a positive divisor never increases a magnitude. */
  lemma DivShrinks(x: nat, y: nat)
    requires y > 0
    ensures x / y <= x
  {
    var q := x / y;
    assert q * y + x % y == x;
    DivNonNegative(x, y);
    assert q <= q * y by { MulMonotone(q, y); }
  }

  lemma MulMonotone(q: nat, y: nat)
    requires y > 0
    ensures q <= q * y
  {
  }

  /** Truncating division undoes multiplication by the same nonzero divisor. */
  lemma ExactDivision(x: int, s: int)
    requires s != 0
    ensures Div(x * s, s) == x
  {
    var m := Abs(x) * Abs(s);
    assert Abs(x * s) == m by { AbsMul(x, s); }
    assert m / Abs(s) == Abs(x) by { MulDiv(Abs(x), Abs(s)); }
  }

  lemma AbsMul(x: int, s: int)
    ensures Abs(x * s) == Abs(x) * Abs(s)
  {
    if x < 0 && s < 0 { assert x * s == (-x) * (-s); }
    else if x < 0 { assert x * s == -((-x) * s); }
    else if s < 0 { assert x * s == -(x * (-s)); }
  }

  lemma MulDiv(a: nat, b: nat)
    requires b > 0
    ensures (a * b) / b == a
  {
    var q, r := (a * b) / b, (a * b) % b;
    assert a * b == q * b + r && 0 <= r < b;
    assert (a - q) * b == r;
    SmallMultiple(a - q, b);
  }

  lemma SmallMultiple(k: int, b: int)
    requires b > 0 && 0 <= k * b < b
    ensures k == 0
  {
  }

  /** Adding a multiple of `n` does not change the remainder modulo `n`. */
  lemma ModShift(x: int, j: int, n: int)
    requires n > 0
    ensures (x + j * n) % n == x % n
  {
    var q, r := x / n, x % n;
    var q2, r2 := (x + j * n) / n, (x + j * n) % n;
    assert x == q * n + r && x + j * n == q2 * n + r2;
    assert (q + j - q2) * n == r2 - r;
    BoundedMultiple(q + j - q2, n);
  }

  lemma ModSmall(x: int, n: int)
    requires 0 <= x < n
    ensures x % n == x
  {
    var q := x / n;
    assert x == q * n + x % n;
    BoundedMultiple(q, n);
  }

  lemma BoundedMultiple(k: int, b: int)
    requires b > 0 && -b < k * b < b
    ensures k == 0
  {
    if k * b >= 0 {
      SmallMultiple(k, b);
    } else {
      assert (-k) * b == -(k * b);
      SmallMultiple(-k, b);
    }
  }

  /** A square is never negative, and zero only for zero. */
  lemma Square(v: int)
    ensures v * v >= 0
    ensures v * v == 0 <==> v == 0
  {
    if v < 0 { assert v * v == (-v) * (-v); }
  }
}
