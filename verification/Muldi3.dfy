/** common/gcc-millicode/muldi3.c: 64-bit multiplication from 16-bit products
    (Knuth, section 4.3.3), in wrapping 32-bit arithmetic. */
module Muldi3 {
  import opened Words

  function Diff(a: int, b: int): nat { if a >= b then a - b else b - a }

  /** The double word (h, l), reduced: only the low half of what has weight 2^32
      is kept. */
  lemma ReduceHigh(t: int, l: word)
    ensures Quad(t * W + l) == Word(t) * W + l
  {}

  /** Adds x << 16 into the double word (h, l), with the carry read off from
      wrap-around. */
  method AddHalfShifted(h: word, l: word, x: word) returns (h': word, l': word)
    ensures h' * W + l' == Quad(h * W + l + x * B)
  {
    l' := Word(l + LHup(x));
    var carry := if l' < l then 1 else 0;
    h' := Word(h + HHalf(x) + carry);
    ShiftedWord(x);
    ReduceHigh(h + HHalf(x) + carry, l');
  }

  method SubHalfShifted(h: word, l: word, x: word) returns (h': word, l': word)
    ensures h' * W + l' == Quad(h * W + l - x * B)
  {
    l' := Word(l - LHup(x));
    var borrow := if l' > l then 1 else 0;
    h' := Word(h - (HHalf(x) + borrow));
    ShiftedWord(x);
    ReduceHigh(h - (HHalf(x) + borrow), l');
  }

  lemma ShiftedWord(x: word)
    ensures x * B == HHalf(x) * W + LHup(x)
  {}

  /** The identity behind both routines: with r the radix,
      (u1 r + u0)(v1 r + v0) from three products. */
  lemma Karatsuba(u1: int, u0: int, v1: int, v0: int, r: int)
    ensures (u1 * r + u0) * (v1 * r + v0)
            == u1 * v1 * r * r + (u1 * v1 + (u1 - u0) * (v0 - v1) + u0 * v0) * r + u0 * v0
  {}

  lemma MidProduct(u1: int, u0: int, v1: int, v0: int)
    ensures (u1 - u0) * (v0 - v1)
            == (if (u1 >= u0) == (v0 >= v1) then 1 else -1) * (Diff(u1, u0) * Diff(v0, v1))
  {}

  lemma DigitProduct(a: nat, b: nat)
    requires a < B && b < B
    ensures 0 <= a * b <= (B - 1) * (B - 1)
    ensures MulWord(a, b) == a * b
  {
    MulMono(0, a, b);
    MulMono(a, B - 1, b);
    MulMono(b, B - 1, B - 1);
    SmallMod(a * b, W);
  }

  lemma WordProduct(u: word, v: word)
    ensures 0 <= u * v < Q
  {
    MulMono(u, W - 1, v);
    MulMono(0, u, v);
  }

  /** The middle product with its sign. */
  function Mid(u1: int, u0: int, v1: int, v0: int): int {
    if (u1 < u0) != (v0 < v1) then -(Diff(u1, u0) * Diff(v0, v1)) else Diff(u1, u0) * Diff(v0, v1)
  }

  lemma ThreeProducts(u1: int, u0: int, v1: int, v0: int, r: int)
    ensures (u1 * r + u0) * (v1 * r + v0)
            == u1 * v1 * r * r + u1 * v1 * r + Mid(u1, u0, v1, v0) * r + u0 * v0 * r + u0 * v0
  {
    Karatsuba(u1, u0, v1, v0, r);
    MidProduct(u1, u0, v1, v0);
    var a, m, d := u1 * v1, Mid(u1, u0, v1, v0), u0 * v0;
    assert (a + m + d) * r == a * r + m * r + d * r;
  }

  /** __lmulq: the exact 64-bit product of any two 32-bit words, although the
      partial sums wrap. */
  method LMulQ(u: word, v: word) returns (prod: quad)
    ensures prod == u * v
  {
    var u1: word, u0: word, v1: word, v0: word := HHalf(u), LHalf(u), HHalf(v), LHalf(v);
    DigitProduct(u0, v0);
    var low := MulWord(u0, v0);
    Halves(u);
    Halves(v);
    if u1 == 0 && v1 == 0 {
      return low;
    }
    var neg := u1 < u0;
    if v0 < v1 { neg := !neg; }
    var mid := MulWord(Diff(u1, u0), Diff(v0, v1));
    var high := MulWord(u1, v1);
    DigitProduct(u1, v1);
    DigitProduct(Diff(u1, u0), Diff(v0, v1));
    ThreeProducts(u1, u0, v1, v0, B);
    WordProduct(u, v);
    prod := Assemble(high, mid, low, neg, u * v);
  }

  /** (high << 32) + (high << 16) +- (mid << 16) + (low << 16) + low, which is
      known to be the number p below 2^64. */
  method Assemble(high: word, mid: word, low: word, neg: bool, ghost p: int) returns (prod: quad)
    requires 0 <= p < Q
    requires p == high * W + high * B + (if neg then -(mid * B) else mid * B) + low * B + low
    ensures prod == p
  {
    var prodh: word, prodl: word := Word(high + HHalf(high)), LHup(high);
    StartValue(high);
    if neg {
      prodh, prodl := SubHalfShifted(prodh, prodl, mid);
    } else {
      prodh, prodl := AddHalfShifted(prodh, prodl, mid);
    }
    prodh, prodl := AddHalfShifted(prodh, prodl, low);
    prodh, prodl := AddWord(prodh, prodl, low);
    QuadSum(high * W + high * B, if neg then -(mid * B) else mid * B, low * B, low);
    SmallMod(p, Q);
    prod := prodh * W + prodl;
  }

  /** Reducing after each addition gives the reduced sum. */
  lemma QuadSum(a: int, b: int, c: int, d: int)
    ensures Quad(Quad(Quad(Quad(a) + b) + c) + d) == Quad(a + b + c + d)
  {
    QuadAdd(a, b);
    QuadAdd(a + b, c);
    QuadAdd(a + b + c, d);
  }

  lemma StartValue(high: word)
    ensures Word(high + HHalf(high)) * W + LHup(high) == Quad(high * W + high * B)
  {
    ShiftedWord(high);
    ReduceHigh(high + HHalf(high), LHup(high));
  }

  /** The last step: prodl += low, with the carry tested against low. */
  method AddWord(h: word, l: word, x: word) returns (h': word, l': word)
    ensures h' * W + l' == Quad(h * W + l + x)
  {
    h', l' := h, Word(l + x);
    var carry := if l' < x then 1 else 0;
    if l' < x { h' := Word(h + 1); }
    ReduceHigh(h + carry, l');
  }

  /** Everything of weight 2^32 in the product, in wrapping word arithmetic. */
  function HighWord(u1: word, u0: word, v1: word, v0: word, low: quad): word {
    var mid := MulWord(Diff(u1, u0), Diff(v0, v1));
    var negmid := (u1 < u0) != (v0 < v1);
    var x: int, y: int := MulWord(u1, v1), if negmid then NegWord(mid) else mid;
    Word(x + y + low % W + low / W)
  }

  lemma HighWordValue(u1: word, u0: word, v1: word, v0: word, low: quad)
    ensures HighWord(u1, u0, v1, v0, low) == Word(u1 * v1 + Mid(u1, u0, v1, v0) + low + low / W)
  {
    var a, d, m := u1 * v1, Diff(u1, u0) * Diff(v0, v1), Mid(u1, u0, v1, v0);
    var mid := MulWord(Diff(u1, u0), Diff(v0, v1));
    var y: int := if (u1 < u0) != (v0 < v1) then NegWord(mid) else mid;
    assert y == Word(m) by { NegWordValue(d); }
    var l: int := low;
    WordAdd(a, y + l % W + l / W);
    WordAdd(m, a + l % W + l / W);
    WordAdd(l, a + m + l / W);
  }

  lemma NegWordValue(d: int)
    ensures NegWord(Word(d)) == Word(-d)
  {}

  /** The unsigned part of __muldi3. */
  method MulQuads(u: quad, v: quad) returns (prod: quad)
    ensures prod == Quad(u * v)
  {
    var u1: word, u0: word, v1: word, v0: word := u / W, u % W, v / W, v % W;
    var low := LMulQ(u0, v0);
    if u1 == 0 && v1 == 0 {
      SmallMod(low, Q);
      prod := low;
    } else {
      ProductMod(u1, u0, v1, v0, low, u * v);
      prod := HighWord(u1, u0, v1, v0, low) * W + low % W;
    }
  }

  lemma ProductMod(u1: word, u0: word, v1: word, v0: word, low: quad, p: int)
    requires low == u0 * v0 && p == (u1 * W + u0) * (v1 * W + v0)
    ensures Quad(p) == HighWord(u1, u0, v1, v0, low) * W + low % W
  {
    var a, m, l: int := u1 * v1, Mid(u1, u0, v1, v0), low;
    var t := a + m + l + l / W;
    HighWordValue(u1, u0, v1, v0, low);
    ThreeProducts(u1, u0, v1, v0, W);
    assert p == a * Q + (t * W + l % W);
    ReduceHigh(t, l % W);
    DivModUnique(p, Q, a + (t * W + l % W) / Q, Quad(t * W + l % W));
  }

  /** __muldi3: the product modulo 2^64 of all signed operands, MIN included,
      read back as a signed number. */
  method MulDi3(a: int64, b: int64) returns (r: int64)
    ensures r == Signed(Quad(a * b))
  {
    var u: quad, v: quad := Abs(a), Abs(b);
    var negall := (a < 0) != (b < 0);
    var prod := MulQuads(u, v);
    SignedProduct(a, b);
    if negall {
      NegQuad(u * v);
      prod := Neg(prod);
    }
    r := Signed(prod);
  }

  lemma SignedProduct(a: int, b: int)
    ensures a * b == if (a < 0) != (b < 0) then -(Abs(a) * Abs(b)) else Abs(a) * Abs(b)
  {}
}
