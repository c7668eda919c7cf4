/** Java's 32-bit `int` as the model needs it: the value range, the wrap-around of
    `int` multiplication, the unsigned bit pattern of a value and bitwise xor. */
module JavaInt {

  /** 2^32, the number of distinct `int` bit patterns. */
  const Modulus: int := 0x1_0000_0000

  const MinInt: int := -0x8000_0000
  const MaxInt: int := 0x7FFF_FFFF

  /** The values a Java `int` can hold. */
  type Int32 = x: int | MinInt <= x <= MaxInt

  /** The result of a Java `int` operation whose exact value is `x`: the unique
      `int` congruent to `x` modulo 2^32. */
  function Wrap(x: int): (r: Int32)
    ensures (r - x) % Modulus == 0
    ensures MinInt <= x <= MaxInt ==> r == x
  {
    (x - MinInt) % Modulus + MinInt
  }

  /** The bit pattern of an `int`, read as an unsigned number in [0, 2^32). */
  function Bits(x: int): (r: nat)
    ensures r < Modulus
    ensures (r - x) % Modulus == 0
  {
    x % Modulus
  }

  function Pow2(n: nat): (r: nat)
    ensures r > 0
  {
    if n == 0 then 1 else 2 * Pow2(n - 1)
  }

  /** Bitwise exclusive or of two non-negative numbers, lowest bit first. */
  function Xor(a: nat, b: nat): nat
    decreases a + b
  {
    if a == 0 && b == 0 then 0
    else (if a % 2 == b % 2 then 0 else 1) + 2 * Xor(a / 2, b / 2)
  }

  lemma Pow2Is2To32()
    ensures Pow2(32) == Modulus
  {
    assert Pow2(8) == 0x100;
    assert Pow2(16) == 0x1_0000;
    assert Pow2(24) == 0x100_0000;
  }

  /** Xor of two `width`-bit numbers is a `width`-bit number. */
  lemma {:induction false} XorBound(a: nat, b: nat, width: nat)
    requires a < Pow2(width) && b < Pow2(width)
    ensures Xor(a, b) < Pow2(width)
    decreases width
  {
    if width > 0 && (a != 0 || b != 0) {
      XorBound(a / 2, b / 2, width - 1);
    }
  }

  lemma {:induction false} XorSelf(a: nat)
    ensures Xor(a, a) == 0
    decreases a
  {
    if a != 0 {
      XorSelf(a / 2);
    }
  }

  /** With one operand fixed, xor is injective. */
  lemma {:induction false} XorInjective(a: nat, b: nat, c: nat)
    requires Xor(a, b) == Xor(a, c)
    ensures b == c
    decreases a + b + c
  {
    if a == 0 && b == 0 {
      XorZeroLeft(c);
    } else if a == 0 && c == 0 {
      XorZeroLeft(b);
    } else {
      var hb, hc := Xor(a / 2, b / 2), Xor(a / 2, c / 2);
      var lb, lc := (if a % 2 == b % 2 then 0 else 1), (if a % 2 == c % 2 then 0 else 1);
      assert Xor(a, b) == lb + 2 * hb;
      assert Xor(a, c) == lc + 2 * hc;
      assert lb == lc && hb == hc;
      XorInjective(a / 2, b / 2, c / 2);
      assert b % 2 == c % 2;
    }
  }

  lemma {:induction false} XorZeroLeft(b: nat)
    ensures Xor(0, b) == b
    decreases b
  {
    if b != 0 {
      XorZeroLeft(b / 2);
    }
  }

  /** Xor facts for two 32-bit patterns, as Java's `^` computes them. */
  lemma Xor32Facts(a: nat, b: nat, c: nat)
    requires a < Modulus && b < Modulus
    ensures Xor(a, b) < Modulus
    ensures Xor(a, b) == Xor(a, c) ==> b == c
    ensures Xor(a, b) == 0 <==> a == b
  {
    Pow2Is2To32();
    XorBound(a, b, 32);
    XorSelf(a);
    if Xor(a, b) == Xor(a, c) {
      XorInjective(a, b, c);
    }
    if Xor(a, b) == 0 {
      XorInjective(a, b, a);
    }
  }

  /** Two `int`s with the same bit pattern are the same `int`. */
  lemma BitsInjective(x: Int32, y: Int32)
    requires Bits(x) == Bits(y)
    ensures x == y
  {
  }

  lemma ModAddLeft(a: int, b: int)
    ensures (a % Modulus + b) % Modulus == (a + b) % Modulus
  {
  }
}
