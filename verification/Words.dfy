/** Fixed-width unsigned words as integers: halves of a 32-bit word, powers of
    two, and the bitwise OR that the arithmetic routines use to paste fields. */
module Words {
  const B: int := 0x1_0000
  const W: int := 0x1_0000_0000
  const Q: int := 0x1_0000_0000_0000_0000

  type digit = x: int | 0 <= x < 0x1_0000
  type word = x: int | 0 <= x < 0x1_0000_0000
  type quad = x: int | 0 <= x < 0x1_0000_0000_0000_0000
  type int64 = x: int | -0x8000_0000_0000_0000 <= x < 0x8000_0000_0000_0000

  function Abs(x: int): nat { if x < 0 then -x else x }
  function Min(a: int, b: int): int { if a <= b then a else b }

  /** HHALF, LHALF and LHUP of common/gcc-millicode/longlong.h. */
  function HHalf(x: word): digit { x / B }
  function LHalf(x: word): digit { x % B }
  function LHup(x: word): word { x * B % W }

  /** Unsigned reduction to 32 and 64 bits. */
  function Word(x: int): word { x % W }
  function Quad(x: int): quad { x % Q }

  /** Unsigned 32-bit multiplication and negation. */
  function MulWord(a: word, b: word): word { var x: int, y: int := a, b; Word(x * y) }
  function NegWord(a: word): word { if a == 0 then 0 else W - a }

  /** Reducing a summand first does not change the reduced sum. */
  lemma WordAdd(x: int, y: int)
    ensures Word(Word(x) + y) == Word(x + y)
  {}

  lemma QuadAdd(x: int, y: int)
    ensures Quad(Quad(x) + y) == Quad(x + y)
  {}

  /** Two's complement negation of a 64-bit pattern. */
  function Neg(x: quad): quad { if x == 0 then 0 else Q - x }

  lemma Halves(x: word)
    ensures HHalf(x) * B + LHalf(x) == x
  {}

  /** The two's complement reading of a 64-bit pattern. */
  function Signed(x: quad): int { if x < Q / 2 then x else x - Q }

  /** The same for a word. */
  function SignedWord(x: word): int { if x < W / 2 then x else x - W }

  function Pow2(k: nat): (p: nat)
    ensures p >= 1
  {
    if k == 0 then 1 else 2 * Pow2(k - 1)
  }

  lemma {:induction false} Pow2Add(a: nat, b: nat)
    ensures Pow2(a + b) == Pow2(a) * Pow2(b)
  {
    if a > 0 {
      Pow2Add(a - 1, b);
      assert Pow2(a + b) == 2 * Pow2(a - 1 + b);
      assert 2 * (Pow2(a - 1) * Pow2(b)) == (2 * Pow2(a - 1)) * Pow2(b);
    }
  }

  lemma Pow2Half()
    ensures Pow2(16) == B
  {
    assert Pow2(8) == 256;
    Pow2Add(8, 8);
  }

  /** Bitwise inclusive OR, bit by bit from the low end. */
  function BitOr(a: nat, b: nat): nat
    decreases a + b
  {
    if a == 0 then b
    else if b == 0 then a
    else (if a % 2 == 1 || b % 2 == 1 then 1 else 0) + 2 * BitOr(a / 2, b / 2)
  }

  /** OR of two operands with no bit in common is their sum: `hi` has its low
      k bits clear and `lo` fits in k bits. */
  lemma {:induction false} BitOrDisjoint(hi: nat, lo: nat, k: nat)
    requires hi % Pow2(k) == 0
    requires lo < Pow2(k)
    ensures BitOr(hi, lo) == hi + lo
  {
    if hi != 0 && lo != 0 {
      var p := Pow2(k - 1);
      var c := hi / Pow2(k);
      assert hi == 2 * (p * c);
      assert hi / 2 == p * c;
      MultipleMod(p, c);
      BitOrDisjoint(hi / 2, lo / 2, k - 1);
    }
  }

  lemma MultipleMod(p: nat, c: nat)
    requires p > 0
    ensures (p * c) % p == 0
    ensures (p * c) / p == c
  {
    DivModUnique(p * c, p, c, 0);
  }

  /** Division with remainder is unique. */
  lemma DivModUnique(x: int, y: int, q: int, r: int)
    requires 0 <= r < y
    requires x == q * y + r
    ensures x / y == q && x % y == r
  {
    var d := x / y - q;
    assert x == (x / y) * y + x % y;
    assert (x / y) * y == q * y + d * y;
    NonzeroMultiple(d, y);
  }

  lemma SmallMod(x: nat, y: nat)
    requires x < y
    ensures x % y == x
  {}

  /** Reduction modulo 2^64 commutes with negation. */
  lemma NegQuad(x: int)
    ensures Neg(Quad(x)) == Quad(-x)
  {}

  lemma DivShrinks(x: nat, y: nat)
    requires y > 0
    ensures 0 <= x / y <= x
    ensures 0 <= x % y <= x
  {
    var q, r := x / y, x % y;
    assert x == q * y + r;
    NonzeroMultiple(q, y);
    if q > 0 { NonzeroMultiple(y, q); }
  }

  lemma DivLess(n: nat, b: nat)
    requires b >= 2 && n >= b
    ensures 0 < n / b < n
  {}

  lemma MulMono(a: int, b: int, y: int)
    requires a <= b && y >= 0
    ensures a * y <= b * y
  {}

  lemma MulCancel(a: int, b: int, y: int)
    requires y >= 0 && a * y < b * y
    ensures a < b
  {}

  lemma NonzeroMultiple(d: int, y: int)
    requires y > 0
    ensures d >= 1 ==> d * y >= y
    ensures d <= -1 ==> d * y <= -y
  {}
}
