/** Numbers in base B = 2^16, most significant digit first. */
module Digits {
  import opened Words

  function PowB(k: nat): (p: nat)
    ensures p >= 1
  {
    if k == 0 then 1 else B * PowB(k - 1)
  }

  /** The number spelled by digits s[lo..hi]. */
  function Num(s: seq<digit>, lo: nat, hi: nat): nat
    requires hi <= |s|
    decreases hi
  {
    if hi <= lo then 0 else Num(s, lo, hi - 1) * B + s[hi - 1]
  }

  lemma {:induction false} NumCons(s: seq<digit>, lo: nat, hi: nat)
    requires lo < hi <= |s|
    ensures Num(s, lo, hi) == s[lo] * PowB(hi - lo - 1) + Num(s, lo + 1, hi)
  {
    if lo + 1 < hi {
      NumCons(s, lo, hi - 1);
      OneMorePlace(s[lo], PowB(hi - lo - 2), Num(s, lo + 1, hi - 1));
    }
  }

  lemma {:induction false} NumBound(s: seq<digit>, lo: nat, hi: nat)
    requires lo <= hi <= |s|
    ensures Num(s, lo, hi) < PowB(hi - lo)
  {
    if lo < hi { NumBound(s, lo, hi - 1); }
  }

  lemma OneMorePlace(a: int, p: int, n: int)
    ensures (a * p + n) * B == a * (B * p) + n * B
  {
    assert (a * p) * B == a * (B * p);
  }

  lemma {:induction false} NumSplit(s: seq<digit>, lo: nat, mid: nat, hi: nat)
    requires lo <= mid <= hi <= |s|
    ensures Num(s, lo, hi) == Num(s, lo, mid) * PowB(hi - mid) + Num(s, mid, hi)
  {
    if mid < hi {
      NumSplit(s, lo, mid, hi - 1);
      OneMorePlace(Num(s, lo, mid), PowB(hi - mid - 1), Num(s, mid, hi - 1));
    }
  }

  lemma {:induction false} NumSame(s: seq<digit>, t: seq<digit>, lo: nat, hi: nat)
    requires hi <= |s| && hi <= |t|
    requires forall i :: lo <= i < hi ==> s[i] == t[i]
    ensures Num(s, lo, hi) == Num(t, lo, hi)
  {
    if lo < hi { NumSame(s, t, lo, hi - 1); }
  }

  /** Leading zero digits do not change the number. */
  lemma {:induction false} NumLeadingZeros(s: seq<digit>, lo: nat, mid: nat, hi: nat)
    requires lo <= mid <= hi <= |s|
    requires forall i :: lo <= i < mid ==> s[i] == 0
    ensures Num(s, lo, hi) == Num(s, mid, hi)
    decreases mid - lo
  {
    if lo < mid {
      NumCons(s, lo, hi);
      NumLeadingZeros(s, lo + 1, mid, hi);
    }
  }

  /** A number below B^(len-1) has a zero leading digit. */
  lemma NumSmallHead(s: seq<digit>, lo: nat, hi: nat)
    requires lo < hi <= |s|
    requires Num(s, lo, hi) < PowB(hi - lo - 1)
    ensures s[lo] == 0
  {}

  /** The first k digits bracket a number. */
  lemma NumBracket(s: seq<digit>, lo: nat, mid: nat, hi: nat)
    requires lo <= mid <= hi <= |s|
    ensures Num(s, lo, mid) * PowB(hi - mid) <= Num(s, lo, hi) < (Num(s, lo, mid) + 1) * PowB(hi - mid)
  {
    NumSplit(s, lo, mid, hi);
    NumBound(s, mid, hi);
    BracketArith(Num(s, lo, hi), Num(s, lo, mid), PowB(hi - mid), Num(s, mid, hi));
  }

  lemma BracketArith(n: int, a: int, p: int, b: int)
    requires n == a * p + b && 0 <= b < p
    ensures a * p <= n < (a + 1) * p
  {}

  lemma NumTwo(s: seq<digit>, lo: nat)
    requires lo + 2 <= |s|
    ensures Num(s, lo, lo + 2) == s[lo] * B + s[lo + 1]
  {
    assert Num(s, lo, lo + 1) == s[lo];
  }

  lemma NumThree(s: seq<digit>, lo: nat)
    requires lo + 3 <= |s|
    ensures Num(s, lo, lo + 3) == (s[lo] * B + s[lo + 1]) * B + s[lo + 2]
  {
    NumTwo(s, lo);
  }

  lemma NumFour(s: seq<digit>, lo: nat)
    requires lo + 4 <= |s|
    ensures Num(s, lo, lo + 4) == ((s[lo] * B + s[lo + 1]) * B + s[lo + 2]) * B + s[lo + 3]
  {
    NumThree(s, lo);
  }
}

/** common/gcc-millicode/qdivrem.c: 64-bit unsigned division by Knuth's
    Algorithm D, and the signed wrappers built on it. */
module Qdivrem {
  import opened Common
  import opened Words
  import opened Digits

  /** Outcome of a division: the trap raised by dividing by zero, or the
      quotient with the remainder when the caller asked for one. */
  datatype Outcome = Trap | Quotient(q: nat, r: Option<nat>)

  /** COMBINE: two digits pasted into one word. */
  function Combine(a: digit, b: digit): (w: word)
    ensures w == a * B + b
  {
    Pow2Half();
    BitOrDisjoint(a * B, b, 16);
    BitOr(a * B, b)
  }

  // ---------------------------------------------------------------- shifts

  /** With p * c == B, a digit times p splits at the digit boundary. */
  lemma SplitDigit(x: digit, p: nat, c: nat)
    requires p > 0 && c > 0 && p * c == B
    ensures x * p / B == x / c
    ensures x * p % B == x % c * p
    ensures x / c < p
    ensures x % c * p <= B - p
  {}

  lemma ShiftFacts(sh: nat)
    requires 0 < sh < 16
    ensures Pow2(sh) * Pow2(16 - sh) == B
  {
    Pow2Add(sh, 16 - sh);
    Pow2Half();
  }

  /** LHALF(x << sh) and x >> (16 - sh): the two parts of x * 2^sh. */
  function LowShift(x: digit, sh: nat): digit { x * Pow2(sh) % B }
  function HighShift(x: digit, sh: nat): digit
    requires sh < 16
  {
    DivShrinks(x, Pow2(16 - sh));
    x / Pow2(16 - sh)
  }

  lemma ShiftParts(x: digit, next: digit, sh: nat)
    requires 0 < sh < 16
    ensures x * Pow2(sh) == HighShift(x, sh) * B + LowShift(x, sh)
    ensures LowShift(x, sh) % Pow2(sh) == 0
    ensures HighShift(next, sh) < Pow2(sh)
    ensures LowShift(x, sh) + HighShift(next, sh) < B
  {
    var p, c := Pow2(sh), Pow2(16 - sh);
    ShiftFacts(sh);
    SplitDigit(x, p, c);
    SplitDigit(next, p, c);
    MultipleMod(p, x % c);
  }

  /** One digit of a left shift: LHALF(x << sh) | next >> (16 - sh). */
  function ShlDigit(x: digit, next: digit, sh: nat): (r: digit)
    requires 0 < sh < 16
    ensures r == LowShift(x, sh) + HighShift(next, sh)
  {
    ShiftParts(x, next, sh);
    BitOrDisjoint(LowShift(x, sh), HighShift(next, sh), sh);
    BitOr(LowShift(x, sh), HighShift(next, sh))
  }

  lemma ShlStep(prefix: nat, oldPrefix: nat, lo: int, p: nat, hi: int, x: int, lo': int)
    requires prefix * B + lo == oldPrefix * p
    requires x * p == hi * B + lo'
    ensures (prefix * B + (lo + hi)) * B + lo' == (oldPrefix * B + x) * p
  {}

  /** The loop of shl after i rounds: digit k < i has lost its high bits and
      taken those of digit k + 1; the rest is as it was. */
  ghost predicate ShiftedLeft(now: seq<digit>, s: seq<digit>, at: nat, i: nat, sh: nat)
    requires |now| == |s| && at + i < |s| && sh < 16
  {
    (forall k :: 0 <= k < at || at + i <= k < |s| ==> now[k] == s[k]) &&
    Num(now, at, at + i) * B + LowShift(s[at + i], sh) == Num(s, at, at + i + 1) * Pow2(sh)
  }

  lemma ShiftedLeftStart(s: seq<digit>, at: nat, sh: nat)
    requires at < |s| && sh < 16
    requires s[at] * Pow2(sh) < B
    ensures ShiftedLeft(s, s, at, 0, sh)
  {
    SmallMod(s[at] * Pow2(sh), B);
    assert Num(s, at, at) == 0;
  }

  lemma ShiftedLeftStep(now: seq<digit>, s: seq<digit>, at: nat, i: nat, sh: nat)
    requires |now| == |s| && at + i + 1 < |s| && 0 < sh < 16
    requires ShiftedLeft(now, s, at, i, sh)
    ensures ShiftedLeft(now[at + i := ShlDigit(now[at + i], now[at + i + 1], sh)], s, at, i + 1, sh)
  {
    var x, y := s[at + i], s[at + i + 1];
    var next := now[at + i := ShlDigit(x, y, sh)];
    NumSame(next, now, at, at + i);
    ShiftParts(y, y, sh);
    ShlStep(Num(now, at, at + i), Num(s, at, at + i + 1), LowShift(x, sh), Pow2(sh),
            HighShift(y, sh), y, LowShift(y, sh));
  }

  lemma TopDigit(x: digit, next: digit, sh: nat)
    requires 0 < sh < 16 && x * Pow2(sh) < B
    ensures x * Pow2(sh) <= ShlDigit(x, next, sh) < x * Pow2(sh) + Pow2(sh)
  {
    ShiftParts(x, next, sh);
    SmallMod(x * Pow2(sh), B);
  }

  /** shl: shifts digits a[at..at+len] left by sh bits. The number they spell
      is multiplied by 2^sh, provided nothing falls out at the left. */
  method Shl(a: array<digit>, at: nat, len: nat, sh: nat)
    requires at + len < a.Length
    requires 0 < sh < 16
    requires a[at] * Pow2(sh) < B
    modifies a
    ensures Num(a[..], at, at + len + 1) == old(Num(a[..], at, at + len + 1)) * Pow2(sh)
    ensures forall k :: 0 <= k < at || at + len < k < a.Length ==> a[k] == old(a[k])
    ensures len > 0 ==> old(a[at]) * Pow2(sh) <= a[at] < old(a[at]) * Pow2(sh) + Pow2(sh)
  {
    ghost var s := a[..];
    ShiftedLeftStart(s, at, sh);
    var i := 0;
    while i < len
      invariant 0 <= i <= len
      invariant ShiftedLeft(a[..], s, at, i, sh)
      invariant i > 0 ==> a[at] == ShlDigit(s[at], s[at + 1], sh)
    {
      ShiftedLeftStep(a[..], s, at, i, sh);
      ghost var before := a[..];
      a[at + i] := ShlDigit(a[at + i], a[at + i + 1], sh);
      assert a[..] == before[at + i := a[at + i]];
      i := i + 1;
    }
    ghost var before := a[..];
    if len > 0 { TopDigit(s[at], s[at + 1], sh); }
    a[at + len] := LowShift(a[at + len], sh);
    NumSame(a[..], before, at, at + len);
  }

  // ------------------------------------------------ D3: estimating a digit

  /** The running state of D3's correction loop. */
  ghost predicate Trial(qh: int, rhat: int, tooBig: bool,
                        u0: digit, u1: digit, u2: digit, v1: digit, v2: digit)
    requires v1 > 0
  {
    var u3, vv := (u0 * B + u1) * B + u2, v1 * B + v2;
    0 <= qh <= B && 0 <= rhat &&
    qh * v1 + rhat == u0 * B + u1 &&
    Min(u3 / vv, B - 1) <= qh &&
    (if tooBig then rhat < B && (qh == B || qh * vv > u3) else qh < B && qh * vv <= u3)
  }

  /** Step D3. `u0 u1 u2` are the leading digits of the running remainder and
      `v1 v2` those of the divisor. The trial quotient that comes out is the
      exact quotient of the leading digits, capped at B - 1, and with v1
      normalised the correction loop runs at most twice. */
  method EstimateDigit(u0: digit, u1: digit, u2: digit, v1: digit, v2: digit)
    returns (qhat: digit, passes: nat)
    requires u0 <= v1 && v1 > 0
    ensures qhat == Min(((u0 * B + u1) * B + u2) / (v1 * B + v2), B - 1)
    ensures v1 >= B / 2 ==> passes <= 2
  {
    var qh: word, rhat: word;
    var tooBig: bool;
    if u0 == v1 {
      TrialStartsEqual(u0, u1, u2, v2);
      qh := B;
      rhat := u1;
      tooBig := true;
    } else {
      var nn := Combine(u0, u1);
      TwoByOne(u0, u1, v1);
      qh := nn / v1;
      rhat := nn % v1;
      tooBig := Word(v2 * qh) > Combine(rhat, u2);
      TrialStarts(qh, rhat, u0, u1, u2, v1, v2);
    }
    passes := 0;
    while tooBig
      invariant Trial(qh, rhat, tooBig, u0, u1, u2, v1, v2)
      invariant tooBig && v1 >= B / 2 ==> passes == 0 || (passes == 1 && rhat >= v1)
      invariant v1 >= B / 2 ==> passes <= 2
      decreases qh
    {
      TrialStep(qh, rhat, u0, u1, u2, v1, v2);
      qh := qh - 1;
      rhat := rhat + v1;
      passes := passes + 1;
      assert rhat < B ==> Word(v2 * qh) == v2 * qh;
      tooBig := rhat < B && Word(v2 * qh) > Combine(rhat, u2);
    }
    TrialEnds(qh, rhat, u0, u1, u2, v1, v2);
    qhat := qh;
  }

  lemma SmallProduct(x: digit, q: int)
    requires 0 <= q < B
    ensures Word(x * q) == x * q
  {
    MulMono(q, B - 1, x);
    MulMono(0, q, x);
    SmallMod(x * q, W);
  }

  lemma TrialStartsEqual(u0: digit, u1: digit, u2: digit, v2: digit)
    requires u0 > 0
    ensures Trial(B, u1, true, u0, u1, u2, u0, v2)
  {}

  lemma TrialStarts(qh: int, rhat: int, u0: digit, u1: digit, u2: digit, v1: digit, v2: digit)
    requires v1 > 0 && 0 <= rhat < v1 && 0 <= qh < B
    requires qh * v1 + rhat == u0 * B + u1
    ensures Word(v2 * qh) == v2 * qh
    ensures Trial(qh, rhat, v2 * qh > rhat * B + u2, u0, u1, u2, v1, v2)
  {
    SmallProduct(v2, qh);
    TrialTest(qh, rhat, u0, u1, u2, v1, v2);
    TrialNotBelow(qh, rhat, u0, u1, u2, v1, v2);
  }

  lemma TrialStep(qh: int, rhat: int, u0: digit, u1: digit, u2: digit, v1: digit, v2: digit)
    requires v1 > 0 && Trial(qh, rhat, true, u0, u1, u2, v1, v2)
    ensures qh > 0 && Word(v2 * (qh - 1)) == v2 * (qh - 1)
    ensures Trial(qh - 1, rhat + v1, rhat + v1 < B && v2 * (qh - 1) > (rhat + v1) * B + u2,
                  u0, u1, u2, v1, v2)
  {
    var u3, vv := (u0 * B + u1) * B + u2, v1 * B + v2;
    if qh < B { QuotientBelow(qh, vv, u3); }
    SmallProduct(v2, qh - 1);
    assert (qh - 1) * v1 + v1 == qh * v1;
    TrialTest(qh - 1, rhat + v1, u0, u1, u2, v1, v2);
    if rhat + v1 >= B { LargeRemainder(qh - 1, rhat + v1, u0, u1, u2, v1, v2); }
  }

  lemma TrialEnds(qh: int, rhat: int, u0: digit, u1: digit, u2: digit, v1: digit, v2: digit)
    requires v1 > 0 && Trial(qh, rhat, false, u0, u1, u2, v1, v2)
    ensures qh == Min(((u0 * B + u1) * B + u2) / (v1 * B + v2), B - 1)
  {
    QuotientAtMost(qh, v1 * B + v2, (u0 * B + u1) * B + u2);
  }

  lemma TwoByOne(u0: digit, u1: digit, v1: digit)
    requires u0 < v1
    ensures 0 <= (u0 * B + u1) / v1 < B
    ensures (u0 * B + u1) / v1 * v1 + (u0 * B + u1) % v1 == u0 * B + u1
  {}

  /** The loop test of D3 compares qhat * (v1 v2) with (u0 u1 u2). */
  lemma TrialTest(qh: int, rhat: int, u0: digit, u1: digit, u2: digit, v1: digit, v2: digit)
    requires qh * v1 + rhat == u0 * B + u1
    ensures v2 * qh > rhat * B + u2 <==> qh * (v1 * B + v2) > (u0 * B + u1) * B + u2
  {}

  lemma TrialNotBelow(qh: int, rhat: int, u0: digit, u1: digit, u2: digit, v1: digit, v2: digit)
    requires v1 > 0 && 0 <= rhat < v1 && 0 <= qh
    requires qh * v1 + rhat == u0 * B + u1
    ensures ((u0 * B + u1) * B + u2) / (v1 * B + v2) <= qh
  {
    var vv, u3 := v1 * B + v2, (u0 * B + u1) * B + u2;
    assert (qh + 1) * vv == (qh * v1) * B + v1 * B + (qh + 1) * v2;
    assert u3 < (qh * v1) * B + v1 * B;
    assert (qh + 1) * v2 >= 0;
    QuotientBelow(qh + 1, vv, u3);
  }

  /** Once rhat >= B the test cannot succeed any more. */
  lemma LargeRemainder(qh: int, rhat: int, u0: digit, u1: digit, u2: digit, v1: digit, v2: digit)
    requires qh * v1 + rhat == u0 * B + u1
    requires 0 <= qh < B && rhat >= B
    ensures qh * (v1 * B + v2) <= (u0 * B + u1) * B + u2
  {
    TrialTest(qh, rhat, u0, u1, u2, v1, v2);
    MulMono(qh, B, v2);
  }

  lemma QuotientBelow(q: int, y: int, x: int)
    requires y > 0 && q * y > x
    ensures x / y < q
  {}

  lemma QuotientAtMost(q: int, y: int, x: int)
    requires y > 0 && q * y <= x
    ensures q <= x / y
  {
    var e := x / y;
    assert x == e * y + x % y;
    assert (e + 1) * y == e * y + y;
    MulCancel(q, e + 1, y);
  }

  /** q and r are the quotient and remainder of u by d. */
  ghost predicate Divides(u: int, d: int, q: int, r: int) {
    u == q * d + r && 0 <= r < d
  }

  /** qhat is the quotient of u by d, or one more. */
  ghost predicate OneOver(u: int, d: int, qhat: int) {
    (qhat - 1) * d <= u < (qhat + 1) * d
  }

  /** Knuth's theorem: the trial quotient is the true digit or one more. */
  lemma TrialIsClose(u: nat, v: nat, u3: nat, vv: nat, p: nat, qhat: nat)
    requires p > 0
    requires u3 * p <= u < (u3 + 1) * p
    requires vv * p <= v < (vv + 1) * p
    requires B <= vv
    requires u < v * B
    requires qhat == Min(u3 / vv, B - 1)
    ensures OneOver(u, v, qhat)
  {
    FloorTimes(u3, vv, qhat);
    TrialNotTwoAbove(u, v, u3, vv, p, qhat);
    NonzeroMultiple(vv, p);
    TrialNotBelowTrue(u, v, u3, vv, p, qhat);
  }

  lemma TrialNotBelowTrue(u: nat, v: nat, u3: nat, vv: nat, p: nat, qhat: nat)
    requires p > 0 && v > 0 && vv > 0
    requires u < (u3 + 1) * p && vv * p <= v
    requires u < v * B && qhat == Min(u3 / vv, B - 1)
    ensures u < (qhat + 1) * v
  {
    var q := u / v;
    assert u == q * v + u % v;
    DivShrinks(u, v);
    TrueDigitBelowTrial(u, v, u3, vv, p, q);
    QuotientBelow(B, v, u);
    MulMono(q + 1, qhat + 1, v);
    assert (q + 1) * v == q * v + v;
  }

  lemma FloorTimes(x: nat, y: nat, q: nat)
    requires y > 0 && q <= x / y
    ensures q * y <= x
  {}

  lemma TrueDigitBelowTrial(u: nat, v: nat, u3: nat, vv: nat, p: nat, q: int)
    requires p > 0 && vv > 0
    requires u < (u3 + 1) * p && vv * p <= v && q * v <= u && 0 <= q
    ensures q <= u3 / vv
  {
    MulMono(vv * p, v, q);
    assert q * (vv * p) == (q * vv) * p;
    MulCancel(q * vv, u3 + 1, p);
    QuotientAtMost(q, vv, u3);
  }

  lemma TrialNotTwoAbove(u: nat, v: nat, u3: nat, vv: nat, p: nat, qhat: nat)
    requires p > 0
    requires u3 * p <= u && vv * p <= v < (vv + 1) * p
    requires B <= vv && qhat < B && qhat * vv <= u3
    ensures (qhat - 1) * v <= u
  {
    assert (qhat - 1) * v == qhat * v - v;
    MulMono(v, (vv + 1) * p, qhat);
    assert qhat * ((vv + 1) * p) == (qhat * vv) * p + qhat * p;
    MulMono(qhat * vv, u3, p);
    MulMono(qhat, vv, p);
  }

  // --------------------------------- D4 to D6: multiply, subtract, add back

  function BorrowOut(t: word): digit { (B - HHalf(t)) % B }

  /** One digit of D4: what is stored and what is borrowed from the next digit. */
  lemma BorrowDigit(u: digit, v: digit, qhat: digit, t: digit)
    ensures LHalf(Word(u - v * qhat - t)) == u - v * qhat - t + BorrowOut(Word(u - v * qhat - t)) * B
  {
    MulMono(v, B - 1, qhat);
    MulMono(0, v, qhat);
    BorrowSplit(u - v * qhat - t);
  }

  lemma BorrowSplit(x: int)
    requires -(B - 1) * B <= x < B
    ensures LHalf(Word(x)) == x + BorrowOut(Word(x)) * B
  {}

  lemma MulSubStep(p: nat, u: int, v: int, q: int, t: int, u': int, t': int, s: int, s0: int, vs: int)
    requires s + q * vs == s0 + t * p
    requires u' == u - v * q - t + t' * B
    ensures (u' * p + s) + q * (v * p + vs) == (u * p + s0) + t' * (B * p)
  {}

  lemma LastBorrow(p: nat, u: digit, t: digit, q: int, s: int, s0: int, vs: int)
    requires s + q * vs == s0 + t * p
    ensures LHalf(Word(u - t)) * p + s + q * vs
            == u * p + s0 + (if HHalf(Word(u - t)) != 0 then B * p else 0)
  {
    BorrowSplit(u - t);
    var x := LHalf(Word(u - t));
    assert x == u - t || x == u - t + B;
    assert x * p == u * p - t * p + (x - u + t) * p;
  }

  /** The word that D4 forms for one digit, in unsigned 32-bit arithmetic. */
  function SubDigit(u: digit, v: digit, qhat: digit, t: word): word {
    Word(u - v * qhat - t)
  }

  /** D4 after digits n, n-1, .., i+1: `now` against the digits `s` it started from. */
  ghost predicate Subtracted(now: seq<digit>, s: seq<digit>, at: nat, v: seq<digit>, vo: nat,
                             i: nat, n: nat, qhat: digit, t: int)
    requires i <= n && |now| == |s| && at + n < |s| && vo + n < |v|
  {
    (forall k :: 0 <= k <= at + i || at + n < k < |s| ==> now[k] == s[k]) &&
    Num(now, at + i + 1, at + n + 1) + qhat * Num(v, vo + i + 1, vo + n + 1)
      == Num(s, at + i + 1, at + n + 1) + t * PowB(n - i)
  }

  lemma SubtractedStep(now: seq<digit>, s: seq<digit>, at: nat, v: seq<digit>, vo: nat,
                       i: nat, n: nat, qhat: digit, t: digit, x: word)
    requires 0 < i <= n && |now| == |s| && at + n < |s| && vo + n < |v|
    requires Subtracted(now, s, at, v, vo, i, n, qhat, t)
    requires x == SubDigit(now[at + i], v[vo + i], qhat, t)
    ensures Subtracted(now[at + i := LHalf(x)], s, at, v, vo, i - 1, n, qhat, BorrowOut(x))
  {
    var next := now[at + i := LHalf(x)];
    BorrowDigit(now[at + i], v[vo + i], qhat, t);
    NumSame(next, now, at + i + 1, at + n + 1);
    MulSubStep(PowB(n - i), s[at + i], v[vo + i], qhat, t, LHalf(x), BorrowOut(x),
               Num(now, at + i + 1, at + n + 1), Num(s, at + i + 1, at + n + 1), Num(v, vo + i + 1, vo + n + 1));
    NumCons(next, at + i, at + n + 1);
    NumCons(s, at + i, at + n + 1);
    NumCons(v, vo + i, vo + n + 1);
  }

  lemma SubtractedAll(now: seq<digit>, s: seq<digit>, at: nat, v: seq<digit>, vo: nat,
                      n: nat, qhat: digit, t: digit, x: word)
    requires |now| == |s| && at + n < |s| && vo + n < |v|
    requires Subtracted(now, s, at, v, vo, 0, n, qhat, t)
    requires x == Word(now[at] - t)
    ensures Num(now[at := LHalf(x)], at, at + n + 1) + qhat * Num(v, vo + 1, vo + n + 1)
            == Num(s, at, at + n + 1) + (if HHalf(x) != 0 then PowB(n + 1) else 0)
  {
    var next := now[at := LHalf(x)];
    LastBorrow(PowB(n), s[at], t, qhat, Num(now, at + 1, at + n + 1), Num(s, at + 1, at + n + 1),
               Num(v, vo + 1, vo + n + 1));
    NumSame(next, now, at + 1, at + n + 1);
    NumCons(next, at, at + n + 1);
    NumCons(s, at, at + n + 1);
  }

  /** Step D4: subtracts qhat times v[1..n] from u[j..j+n] (here u[j] is
      a[at]), modulo B^(n+1), and reports whether that borrowed. */
  method MulSub(a: array<digit>, at: nat, v: array<digit>, vo: nat, n: nat, qhat: digit)
    returns (borrowed: bool)
    requires a != v && at + n < a.Length && vo + n < v.Length
    modifies a
    ensures Num(a[..], at, at + n + 1) + qhat * Num(v[..], vo + 1, vo + n + 1)
            == old(Num(a[..], at, at + n + 1)) + (if borrowed then PowB(n + 1) else 0)
    ensures forall k :: 0 <= k < at || at + n < k < a.Length ==> a[k] == old(a[k])
  {
    ghost var s := a[..];
    var t: word, i: nat := 0, n;
    while i > 0
      invariant i <= n && t < B
      invariant Subtracted(a[..], s, at, v[..], vo, i, n, qhat, t)
    {
      SubtractedStep(a[..], s, at, v[..], vo, i, n, qhat, t, SubDigit(a[at + i], v[vo + i], qhat, t));
      ghost var before := a[..];
      t := SubDigit(a[at + i], v[vo + i], qhat, t);
      a[at + i] := LHalf(t);
      assert a[..] == before[at + i := LHalf(t)];
      t := BorrowOut(t);
      i := i - 1;
    }
    SubtractedAll(a[..], s, at, v[..], vo, n, qhat, t, Word(a[at] - t));
    ghost var before := a[..];
    t := Word(a[at] - t);
    a[at] := LHalf(t);
    assert a[..] == before[at := LHalf(t)];
    borrowed := HHalf(t) != 0;
  }

  /** D6 after digits n, n-1, .., i+1. */
  ghost predicate Added(now: seq<digit>, s: seq<digit>, at: nat, v: seq<digit>, vo: nat,
                        i: nat, n: nat, t: int)
    requires i <= n && |now| == |s| && at + n < |s| && vo + n < |v|
  {
    (forall k :: 0 <= k <= at + i || at + n < k < |s| ==> now[k] == s[k]) &&
    Num(now, at + i + 1, at + n + 1) + t * PowB(n - i)
      == Num(s, at + i + 1, at + n + 1) + Num(v, vo + i + 1, vo + n + 1)
  }

  lemma AddStep(p: nat, u: int, v: int, t: int, u': int, t': int, s: int, s0: int, vs: int)
    requires s + t * p == s0 + vs
    requires u' + t' * B == t + u + v
    ensures (u' * p + s) + t' * (B * p) == (u * p + s0) + (v * p + vs)
  {}

  lemma AddedStep(now: seq<digit>, s: seq<digit>, at: nat, v: seq<digit>, vo: nat,
                  i: nat, n: nat, t: digit, x: word)
    requires 0 < i <= n && |now| == |s| && at + n < |s| && vo + n < |v|
    requires Added(now, s, at, v, vo, i, n, t)
    requires x == t + now[at + i] + v[vo + i]
    ensures Added(now[at + i := LHalf(x)], s, at, v, vo, i - 1, n, HHalf(x))
  {
    var next := now[at + i := LHalf(x)];
    NumSame(next, now, at + i + 1, at + n + 1);
    Halves(x);
    AddStep(PowB(n - i), s[at + i], v[vo + i], t, LHalf(x), HHalf(x),
            Num(now, at + i + 1, at + n + 1), Num(s, at + i + 1, at + n + 1), Num(v, vo + i + 1, vo + n + 1));
    NumCons(next, at + i, at + n + 1);
    NumCons(s, at + i, at + n + 1);
    NumCons(v, vo + i, vo + n + 1);
  }

  lemma AddedAll(now: seq<digit>, s: seq<digit>, at: nat, v: seq<digit>, vo: nat, n: nat, t: digit, x: word)
    requires |now| == |s| && at + n < |s| && vo + n < |v|
    requires Added(now, s, at, v, vo, 0, n, t)
    requires x == now[at] + t
    ensures Num(now[at := LHalf(x)], at, at + n + 1) + HHalf(x) * PowB(n + 1)
            == Num(s, at, at + n + 1) + Num(v, vo + 1, vo + n + 1)
  {
    var next := now[at := LHalf(x)];
    AddStep(PowB(n), s[at], 0, t, LHalf(x), HHalf(x),
            Num(now, at + 1, at + n + 1), Num(s, at + 1, at + n + 1), Num(v, vo + 1, vo + n + 1));
    NumSame(next, now, at + 1, at + n + 1);
    NumCons(next, at, at + n + 1);
    NumCons(s, at, at + n + 1);
  }

  /** Step D6: adds v[1..n] back to u[j..j+n], dropping the carry out. */
  method AddBack(a: array<digit>, at: nat, v: array<digit>, vo: nat, n: nat)
    returns (ghost carry: digit)
    requires a != v && at + n < a.Length && vo + n < v.Length
    modifies a
    ensures Num(a[..], at, at + n + 1) + carry * PowB(n + 1)
            == old(Num(a[..], at, at + n + 1)) + Num(v[..], vo + 1, vo + n + 1)
    ensures forall k :: 0 <= k < at || at + n < k < a.Length ==> a[k] == old(a[k])
  {
    ghost var s := a[..];
    var t: word, i: nat := 0, n;
    while i > 0
      invariant i <= n && t < B
      invariant Added(a[..], s, at, v[..], vo, i, n, t)
    {
      AddedStep(a[..], s, at, v[..], vo, i, n, t, t + a[at + i] + v[vo + i]);
      ghost var before := a[..];
      t := t + a[at + i] + v[vo + i];
      a[at + i] := LHalf(t);
      assert a[..] == before[at + i := LHalf(t)];
      t := HHalf(t);
      i := i - 1;
    }
    AddedAll(a[..], s, at, v[..], vo, n, t, a[at] + t);
    ghost var before := a[..];
    carry := HHalf(a[at] + t);
    a[at] := LHalf(a[at] + t);
    assert a[..] == before[at := a[at]];
  }

  // ------------------------------------------------------------ one round

  /** The leading digits bracket the numbers they lead. */
  lemma LeadingDigits(s: seq<digit>, at: nat, v: seq<digit>, vo: nat, n: nat)
    requires n >= 2 && at + n < |s| && vo + n < |v|
    requires Num(s, at, at + n) < Num(v, vo + 1, vo + n + 1)
    ensures s[at] <= v[vo + 1]
    ensures Num(s, at, at + 3) * PowB(n - 2) <= Num(s, at, at + n + 1) < (Num(s, at, at + 3) + 1) * PowB(n - 2)
    ensures Num(v, vo + 1, vo + 3) * PowB(n - 2) <= Num(v, vo + 1, vo + n + 1)
                                                 < (Num(v, vo + 1, vo + 3) + 1) * PowB(n - 2)
    ensures Num(s, at, at + n + 1) < Num(v, vo + 1, vo + n + 1) * B
  {
    NumBracket(s, at, at + 3, at + n + 1);
    NumBracket(v, vo + 1, vo + 3, vo + n + 1);
    HeadsOrdered(s, at, v, vo + 1, n);
  }

  lemma HeadsOrdered(s: seq<digit>, at: nat, v: seq<digit>, vo: nat, n: nat)
    requires n > 0 && at + n <= |s| && vo + n <= |v|
    requires Num(s, at, at + n) < Num(v, vo, vo + n)
    ensures s[at] <= v[vo]
  {
    NumBracket(s, at, at + 1, at + n);
    NumBracket(v, vo, vo + 1, vo + n);
    MulCancel(Num(s, at, at + 1), Num(v, vo, vo + 1) + 1, PowB(n - 1));
    assert Num(s, at, at + 1) == s[at] && Num(v, vo, vo + 1) == v[vo];
  }

  /** Step D3 on the arrays: the trial digit is the true one or one more. */
  method TrialDigit(a: array<digit>, at: nat, v: array<digit>, vo: nat, n: nat) returns (qhat: digit)
    requires n >= 2 && at + n < a.Length && vo + n < v.Length
    requires v[vo + 1] >= B / 2
    requires Num(a[..], at, at + n) < Num(v[..], vo + 1, vo + n + 1)
    ensures OneOver(Num(a[..], at, at + n + 1), Num(v[..], vo + 1, vo + n + 1), qhat)
  {
    LeadingDigits(a[..], at, v[..], vo, n);
    var passes;
    qhat, passes := EstimateDigit(a[at], a[at + 1], a[at + 2], v[vo + 1], v[vo + 2]);
    assert passes <= 2;
    NumThree(a[..], at);
    NumTwo(v[..], vo + 1);
    TrialIsClose(Num(a[..], at, at + n + 1), Num(v[..], vo + 1, vo + n + 1),
                 Num(a[..], at, at + 3), Num(v[..], vo + 1, vo + 3), PowB(n - 2), qhat);
  }

  /** Steps D3 to D6 for one digit. From a running remainder U held in
      u[j..j+n] with U < V * B, the digit produced is U / V and what is left in
      u[j..j+n] is U % V, so that u[j] is zero. */
  method Round(a: array<digit>, at: nat, v: array<digit>, vo: nat, n: nat) returns (q: digit)
    requires a != v && n >= 2 && at + n < a.Length && vo + n < v.Length
    requires v[vo + 1] >= B / 2
    requires Num(a[..], at, at + n) < Num(v[..], vo + 1, vo + n + 1)
    modifies a
    ensures Divides(old(Num(a[..], at, at + n + 1)), Num(v[..], vo + 1, vo + n + 1), q, Num(a[..], at, at + n + 1))
    ensures a[at] == 0
    ensures forall k :: 0 <= k < at || at + n < k < a.Length ==> a[k] == old(a[k])
  {
    ghost var u, d := Num(a[..], at, at + n + 1), Num(v[..], vo + 1, vo + n + 1);
    NumBound(v[..], vo + 1, vo + n + 1);
    var qhat := TrialDigit(a, at, v, vo, n);
    var borrowed := MulSub(a, at, v, vo, n, qhat);
    ghost var w := Num(a[..], at, at + n + 1);
    NumBound(a[..], at, at + n + 1);
    BorrowMeansOneTooMany(u, d, qhat, w, PowB(n + 1), borrowed);
    if borrowed {
      ghost var carry := AddBack(a, at, v, vo, n);
      NumBound(a[..], at, at + n + 1);
      AddBackRestores(u, d, qhat, w, Num(a[..], at, at + n + 1), PowB(n + 1), carry);
      qhat := qhat - 1;
    }
    NumSmallHead(a[..], at, at + n + 1);
    q := qhat;
  }

  /** D5: the subtraction borrowed exactly when qhat was one too large. */
  lemma BorrowMeansOneTooMany(u: nat, d: nat, qhat: nat, w: nat, top: nat, borrowed: bool)
    requires d > 0 && OneOver(u, d, qhat)
    requires w + qhat * d == u + (if borrowed then top else 0)
    requires w < top
    ensures borrowed <==> u < qhat * d
    ensures !borrowed ==> Divides(u, d, qhat, w)
    ensures borrowed ==> qhat > 0
  {}

  lemma AddBackRestores(u: nat, d: nat, qhat: nat, w: nat, w': nat, top: nat, carry: nat)
    requires OneOver(u, d, qhat)
    requires w + qhat * d == u + top
    requires w' < top && w < top && d < top
    requires w' + carry * top == w + d
    ensures Divides(u, d, qhat - 1, w')
  {}

  // -------------------------------------------- undoing the normalisation

  function LowBits(x: digit, sh: nat): digit
    requires sh < 16
  {
    DivShrinks(x, Pow2(sh));
    x % Pow2(sh)
  }

  function HighBits(x: digit, sh: nat): digit {
    DivShrinks(x, Pow2(sh));
    x / Pow2(sh)
  }

  lemma RightParts(x: digit, prev: digit, sh: nat)
    requires 0 < sh < 16
    ensures LowShift(prev, 16 - sh) % Pow2(16 - sh) == 0
    ensures HighBits(x, sh) < Pow2(16 - sh)
    ensures LowShift(prev, 16 - sh) + HighBits(x, sh) < B
    ensures x == HighBits(x, sh) * Pow2(sh) + LowBits(x, sh)
    ensures LowShift(prev, 16 - sh) * Pow2(sh) == LowBits(prev, sh) * B
  {
    ShiftFacts(sh);
    CarriedPart(prev, Pow2(sh), Pow2(16 - sh));
    KeptPart(x, Pow2(sh), Pow2(16 - sh));
  }

  lemma KeptPart(x: digit, p: nat, c: nat)
    requires p > 0 && c > 0 && p * c == B
    ensures x / p < c
    ensures x == x / p * p + x % p
  {
    var q, r := x / p, x % p;
    assert x == q * p + r;
    DivShrinks(x, p);
    MulCancel(q, c, p);
  }

  lemma CarriedPart(prev: digit, p: nat, c: nat)
    requires p > 0 && c > 0 && p * c == B
    ensures (prev * c % B) % c == 0
    ensures prev * c % B <= B - c
    ensures prev * c % B * p == prev % p * B
  {
    SplitDigit(prev, c, p);
    var l := prev % p;
    MultipleMod(c, l);
    assert (l * c) * p == l * (p * c);
  }

  /** One digit of a right shift: (x >> sh) | LHALF(prev << (16 - sh)). */
  function ShrDigit(x: digit, prev: digit, sh: nat): (r: digit)
    requires 0 < sh < 16
    ensures r == LowShift(prev, 16 - sh) + HighBits(x, sh)
  {
    RightParts(x, prev, sh);
    BitOrDisjoint(LowShift(prev, 16 - sh), HighBits(x, sh), 16 - sh);
    BitOr(LowShift(prev, 16 - sh), HighBits(x, sh))
  }

  /** The denormalising loop after digits n, n-1, .., i+1. */
  ghost predicate ShiftedRight(now: seq<digit>, s: seq<digit>, at: nat, i: nat, n: nat, sh: nat)
    requires i <= n && |now| == |s| && at + n < |s| && sh < 16
  {
    (forall k :: 0 <= k <= at + i || at + n < k < |s| ==> now[k] == s[k]) &&
    Num(now, at + i + 1, at + n + 1) * Pow2(sh) + LowBits(s[at + n], sh)
      == Num(s, at + i + 1, at + n + 1) + LowBits(s[at + i], sh) * PowB(n - i)
  }

  lemma ShrStep(p: nat, y: int, low: int, x: int, hi: int, lo: int, top: int, prevLo: int, s: int, s0: int)
    requires s * p + low == s0 + lo * y
    requires x == hi * p + lo
    requires top * p == prevLo * B
    ensures ((top + hi) * y + s) * p + low == (x * y + s0) + prevLo * (B * y)
  {}

  lemma ShiftedRightStep(now: seq<digit>, s: seq<digit>, at: nat, i: nat, n: nat, sh: nat)
    requires 0 < i <= n && |now| == |s| && at + n < |s| && 0 < sh < 16
    requires ShiftedRight(now, s, at, i, n, sh)
    ensures ShiftedRight(now[at + i := ShrDigit(now[at + i], now[at + i - 1], sh)], s, at, i - 1, n, sh)
  {
    var x, prev := s[at + i], s[at + i - 1];
    var next := now[at + i := ShrDigit(x, prev, sh)];
    RightParts(x, prev, sh);
    NumSame(next, now, at + i + 1, at + n + 1);
    NumCons(next, at + i, at + n + 1);
    NumCons(s, at + i, at + n + 1);
    ShrStep(Pow2(sh), PowB(n - i), LowBits(s[at + n], sh), x, HighBits(x, sh), LowBits(x, sh),
            LowShift(prev, 16 - sh), LowBits(prev, sh), Num(now, at + i + 1, at + n + 1), Num(s, at + i + 1, at + n + 1));
  }

  lemma ExactShift(w: int, r: int, p: nat, low: int)
    requires p > 0 && 0 <= low < p
    requires w * p + low == r * p
    ensures w == r
  {
    DivModUnique(w * p + low, p, w, low);
    DivModUnique(r * p, p, r, 0);
  }

  /** The remainder u[m+1..m+n], a multiple r * 2^sh, is shifted right in
      place; u[m] is a[at]. */
  method Denormalise(a: array<digit>, at: nat, n: nat, sh: nat, ghost r: nat)
    requires n > 0 && at + n < a.Length && 0 < sh < 16
    requires a[at] == 0
    requires Num(a[..], at + 1, at + n + 1) == r * Pow2(sh)
    modifies a
    ensures Num(a[..], at + 1, at + n + 1) == r
    ensures forall k :: 0 <= k <= at || at + n < k < a.Length ==> a[k] == old(a[k])
  {
    ghost var s := a[..];
    var i: nat := n;
    while i > 0
      invariant i <= n
      invariant ShiftedRight(a[..], s, at, i, n, sh)
    {
      ShiftedRightStep(a[..], s, at, i, n, sh);
      ghost var before := a[..];
      a[at + i] := ShrDigit(a[at + i], a[at + i - 1], sh);
      assert a[..] == before[at + i := a[at + i]];
      i := i - 1;
    }
    ghost var w := a[..];
    a[at] := 0;
    assert a[..] == w;
    ZeroLowBits(sh);
    ExactShift(Num(a[..], at + 1, at + n + 1), r, Pow2(sh), LowBits(s[at + n], sh));
  }

  lemma ZeroLowBits(sh: nat)
    requires sh < 16
    ensures LowBits(0, sh) == 0
  {}

  // ------------------------------------------------------- the whole thing

  /** One more digit of a long division: appends a digit x to the dividend. */
  lemma LongDivisionStep(u: int, d: int, q: int, r: int, x: int, q': int, r': int)
    requires Divides(u, d, q, r)
    requires Divides(r * B + x, d, q', r')
    ensures Divides(u * B + x, d, q * B + q', r')
  {}

  lemma LongDivisionDigit(u: int, u': int, d: int, q: int, q': int, r: int, w: int, x: int, digit: int, r': int)
    requires u' == u * B + x && q' == q * B + digit && w == r * B + x
    requires Divides(u, d, q, r) && Divides(w, d, digit, r')
    ensures Divides(u', d, q', r')
  {}

  /** Two digits combined into each half of a 64-bit result. */
  function Join(s: seq<digit>, lo: nat): (x: quad)
    requires lo + 4 <= |s|
    ensures x == Num(s, lo, lo + 4)
  {
    NumFour(s, lo);
    Combine(s[lo], s[lo + 1]) * W + Combine(s[lo + 2], s[lo + 3])
  }

  /** rbj = COMBINE(r, u): its quotient and remainder by t. */
  method ShortDigit(r: digit, u: digit, t: digit) returns (q: digit, r': digit)
    requires r < t
    ensures Divides(r * B + u, t, q, r')
  {
    var rbj := Combine(r, u);
    TwoByOne(r, u, t);
    q := rbj / t;
    r' := rbj % t;
  }

  /** The single-digit divisor case (exercise 16 of section 4.3.1), on the
      dividend u[1..4]. */
  method DivideShort(u: array<digit>, t: digit) returns (q: quad, r: quad)
    requires u.Length == 5 && t > 0
    ensures Divides(Num(u[..], 1, 5), t, q, r)
  {
    var q1, r1 := ShortDigit(0, u[1], t);
    var q2, r2 := ShortDigit(r1, u[2], t);
    var q3, r3 := ShortDigit(r2, u[3], t);
    var q4, r4 := ShortDigit(r3, u[4], t);
    LongDivisionStep(u[1], t, q1, r1, u[2], q2, r2);
    LongDivisionStep(u[1] * B + u[2], t, q1 * B + q2, r2, u[3], q3, r3);
    LongDivisionStep((u[1] * B + u[2]) * B + u[3], t, (q1 * B + q2) * B + q3, r3, u[4], q4, r4);
    NumFour(u[..], 1);
    NumFour([q1, q2, q3, q4], 0);
    q, r := Join([q1, q2, q3, q4], 0), r4;
  }

  /** Algorithm D before a round at position `at`: the digits s[k..at+n] have
      been divided, giving the digits qs[qo..qo+at-k] of the quotient and a
      remainder in us[at..at+n]. */
  ghost predicate Divided(us: seq<digit>, s: seq<digit>, k: nat, at: nat, n: nat, qs: seq<digit>, qo: nat, d: nat)
    requires k <= at && at + n <= |us| == |s| && qo + at - k <= |qs|
  {
    Divides(Num(s, k, at + n), d, Num(qs, qo, qo + at - k), Num(us, at, at + n))
  }

  lemma DividedStep(us: seq<digit>, us': seq<digit>, s: seq<digit>, k: nat, at: nat, n: nat,
                    qs: seq<digit>, qo: nat, d: nat, q: digit)
    requires k <= at && at + n < |us| == |s| == |us'| && qo + at - k < |qs|
    requires Divided(us, s, k, at, n, qs, qo, d)
    requires Divides(Num(us, at, at + n + 1), d, q, Num(us', at, at + n + 1))
    requires us'[at] == 0 && us[at + n] == s[at + n]
    ensures Divided(us', s, k, at + 1, n, qs[qo + at - k := q], qo, d)
  {
    var qs' := qs[qo + at - k := q];
    NumLeadingZeros(us', at, at + 1, at + n + 1);
    NumSame(qs', qs, qo, qo + at - k);
    LongDivisionDigit(Num(s, k, at + n), Num(s, k, at + n + 1), d,
                      Num(qs, qo, qo + at - k), Num(qs', qo, qo + at - k + 1),
                      Num(us, at, at + n), Num(us, at, at + n + 1), s[at + n], q,
                      Num(us', at + 1, at + n + 1));
  }

  /** Steps D2 to D7. The dividend's digits start at us[k] and the divisor's
      are vs[vo+1..vo+n]; afterwards qs[qo..] spells the quotient and the last n
      digits of us the remainder, with zeros before it. */
  method DigitLoop(us: array<digit>, k: nat, vs: array<digit>, vo: nat, n: nat, m: nat, qs: array<digit>, qo: nat)
    requires us != vs && us != qs && vs != qs
    requires n >= 2 && k + m + n + 1 == us.Length && vo + n < vs.Length && qo + m + 1 == qs.Length
    requires vs[vo + 1] >= B / 2
    requires forall i :: 0 <= i < k ==> us[i] == 0
    requires Num(us[..], k, k + n) < Num(vs[..], vo + 1, vo + n + 1)
    modifies us, qs
    ensures Divides(old(Num(us[..], k, us.Length)), Num(vs[..], vo + 1, vo + n + 1),
                    Num(qs[..], qo, qs.Length), Num(us[..], us.Length - n, us.Length))
    ensures forall i :: 0 <= i <= k + m ==> us[i] == 0
    ensures forall i :: 0 <= i < qo ==> qs[i] == old(qs[i])
  {
    ghost var s, d := us[..], Num(vs[..], vo + 1, vo + n + 1);
    var j: nat := 0;
    while j <= m
      invariant j <= m + 1
      invariant forall i :: 0 <= i < qo ==> qs[i] == old(qs[i])
      invariant forall i :: 0 <= i < k + j ==> us[i] == 0
      invariant forall i :: k + j + n <= i < us.Length ==> us[i] == s[i]
      invariant Divided(us[..], s, k, k + j, n, qs[..], qo, d)
    {
      ghost var before := us[..];
      var q := Round(us, k + j, vs, vo, n);
      DividedStep(before, us[..], s, k, k + j, n, qs[..], qo, d, q);
      ghost var qs0 := qs[..];
      qs[qo + j] := q;
      assert qs[..] == qs0[qo + j := q];
      j := j + 1;
    }
  }

  /** Skips the dividend's leading zeros: the loop that settles m. It stops with
      m >= 0 because the dividend is no smaller than the n-digit divisor. */
  method SkipLeadingZeros(us: array<digit>, n: nat) returns (k: nat, m: int)
    requires 0 < n < us.Length && us[0] == 0
    requires Num(us[..], 0, us.Length) >= PowB(n - 1)
    ensures m >= 0 && k + m + n + 1 == us.Length
    ensures forall i :: 0 <= i <= k ==> us[i] == 0
  {
    k, m := 0, us.Length - 1 - n;
    while us[k + 1] == 0
      invariant m >= 0 && k + m + n + 1 == us.Length
      invariant forall i :: 0 <= i <= k ==> us[i] == 0
      decreases m
    {
      NumLeadingZeros(us[..], 0, k + 2, us.Length);
      NumBound(us[..], k + 2, us.Length);
      PowBMono(n - 1, us.Length - (k + 2));
      k, m := k + 1, m - 1;
    }
  }

  lemma {:induction false} PowBMono(a: nat, b: nat)
    requires PowB(a) < PowB(b)
    ensures a < b
    decreases a + b
  {
    if a > 0 && b > 0 { PowBMono(a - 1, b - 1); }
  }

  /** Step D1: the shift that brings v[1] to at least B/2. */
  method NormalisingShift(v1: digit) returns (d: nat)
    requires v1 > 0
    ensures d < 16
    ensures B / 2 <= v1 * Pow2(d) < B
  {
    d := 0;
    var t: word := v1;
    while t < B / 2
      invariant d < 16
      invariant t == v1 * Pow2(d) < B
      decreases B - t
    {
      ShiftBelow16(v1, d);
      assert v1 * Pow2(d + 1) == 2 * (v1 * Pow2(d));
      t := Word(t * 2);
      d := d + 1;
    }
  }

  lemma ShiftBelow16(v1: digit, d: nat)
    requires v1 > 0 && d < 16 && v1 * Pow2(d) < B / 2
    ensures d < 15
  {
    NonzeroMultiple(v1, Pow2(d));
    if d == 15 { Pow2Half(); }
  }

  /** Scaling dividend and divisor scales the remainder and nothing else. */
  lemma Unscale(u: nat, u': nat, v: nat, v': nat, p: nat, q: nat, r': nat) returns (r: nat)
    requires p > 0 && u' == u * p && v' == v * p && Divides(u', v', q, r')
    ensures r' == r * p
    ensures Divides(u, v, q, r)
  {
    var e := u - q * v;
    assert q * (v * p) == (q * v) * p;
    assert e * p == u * p - (q * v) * p;
    MulCancel(-1, e, p);
    MulCancel(e, v, p);
    r := e;
  }

  /** D1: shifts dividend and divisor left alike. Position k holds u[0], which
      is zero and receives the bits that move out of u[1]. */
  method Normalise(us: array<digit>, k: nat, vs: array<digit>, vo: nat, n: nat, m: nat) returns (d: nat)
    requires us != vs && n >= 2 && k + m + n + 1 == us.Length && vo + n + 1 == vs.Length
    requires us[k] == 0 && vs[vo + 1] > 0
    modifies us, vs
    ensures d < 16 && vs[vo + 1] >= B / 2
    ensures Num(us[..], k, us.Length) == old(Num(us[..], k, us.Length)) * Pow2(d)
    ensures Num(vs[..], vo + 1, vs.Length) == old(Num(vs[..], vo + 1, vs.Length)) * Pow2(d)
    ensures Num(us[..], k, k + n) < Num(vs[..], vo + 1, vs.Length)
    ensures forall i :: 0 <= i < k ==> us[i] == old(us[i])
  {
    ghost var v1 := vs[vo + 1];
    d := NormalisingShift(vs[vo + 1]);
    if d > 0 {
      Shl(us, k, m + n, d);
      Shl(vs, vo + 1, n - 1, d);
    }
    assert us[k] < Pow2(d) <= vs[vo + 1] by { NonzeroMultiple(v1, Pow2(d)); }
    SmallerHead(us[..], k, vs[..], vo + 1, n);
  }

  lemma SmallerHead(s: seq<digit>, at: nat, v: seq<digit>, vo: nat, n: nat)
    requires n > 0 && at + n <= |s| && vo + n <= |v|
    requires s[at] < v[vo]
    ensures Num(s, at, at + n) < Num(v, vo, vo + n)
  {
    NumBracket(s, at, at + 1, at + n);
    NumBracket(v, vo, vo + 1, vo + n);
    assert Num(s, at, at + 1) == s[at] && Num(v, vo, vo + 1) == v[vo];
    MulMono(Num(s, at, at + 1) + 1, Num(v, vo, vo + 1), PowB(n - 1));
  }

  /** Program D on a normalised pair, undone again: the quotient digits are
      those of the original u / v, and the remainder left in us is u % v
      shifted left by d. */
  method ProgramD(us: array<digit>, k: nat, vs: array<digit>, vo: nat, n: nat, m: nat, qs: array<digit>, qo: nat)
    returns (d: nat, ghost rem: nat)
    requires us != vs && us != qs && vs != qs
    requires n >= 2 && k + m + n + 1 == us.Length && vo + n + 1 == vs.Length && qo + m + 1 == qs.Length
    requires vs[vo + 1] > 0
    requires forall i :: 0 <= i <= k ==> us[i] == 0
    modifies us, vs, qs
    ensures d < 16
    ensures Divides(old(Num(us[..], k, us.Length)), old(Num(vs[..], vo + 1, vs.Length)),
                    Num(qs[..], qo, qs.Length), rem)
    ensures Num(us[..], us.Length - n, us.Length) == rem * Pow2(d)
    ensures forall i :: 0 <= i <= k + m ==> us[i] == 0
    ensures forall i :: 0 <= i < qo ==> qs[i] == old(qs[i])
  {
    ghost var u, v := Num(us[..], k, us.Length), Num(vs[..], vo + 1, vs.Length);
    d := Normalise(us, k, vs, vo, n, m);
    ghost var u', v' := Num(us[..], k, us.Length), Num(vs[..], vo + 1, vs.Length);
    DigitLoop(us, k, vs, vo, n, m, qs, qo);
    rem := Unscale(u, u', v, v', Pow2(d), Num(qs[..], qo, qs.Length), Num(us[..], us.Length - n, us.Length));
  }

  method ZeroPrefix(qs: array<digit>, len: nat)
    requires len <= qs.Length
    modifies qs
    ensures forall x :: 0 <= x < len ==> qs[x] == 0
  {
    var i := len;
    while i > 0
      invariant 0 <= i <= len
      invariant forall x :: i <= x < len ==> qs[x] == 0
    {
      i := i - 1;
      qs[i] := 0;
    }
  }

  /** The remainder in the last n digits of us, with zeros before it, shifted
      back and joined. */
  method ReadRemainder(us: array<digit>, n: nat, d: nat, ghost rem: nat) returns (r: quad)
    requires us.Length == 5 && 2 <= n <= 4 && d < 16
    requires Num(us[..], 5 - n, us.Length) == rem * Pow2(d)
    requires forall i :: 0 <= i < 5 - n ==> us[i] == 0
    modifies us
    ensures r == rem
  {
    if d > 0 {
      Denormalise(us, 4 - n, n, d, rem);
    }
    NumLeadingZeros(us[..], 1, 5 - n, 5);
    r := Join(us[..], 1);
  }

  /** Division by a divisor of at least two digits, vs[vo+1..vo+n]. */
  method DivideLong(us: array<digit>, vs: array<digit>, vo: nat, n: nat, wantRem: bool)
    returns (q: quad, r: Option<nat>, ghost rem: nat)
    requires us != vs && us.Length == vs.Length == 5
    requires n >= 2 && vo + n + 1 == vs.Length
    requires us[0] == 0 && vs[vo + 1] > 0
    requires Num(vs[..], vo + 1, vs.Length) <= Num(us[..], 0, us.Length)
    modifies us, vs
    ensures Divides(old(Num(us[..], 0, us.Length)), old(Num(vs[..], vo + 1, vs.Length)), q, rem)
    ensures r == if wantRem then Some(rem) else None
  {
    DivisorSize(vs[..], vo + 1, vs.Length);
    var k, m := SkipLeadingZeros(us, n);
    NumLeadingZeros(us[..], 0, k, us.Length);
    var qs := new digit[5];
    ZeroPrefix(qs, 4 - m);
    var d;
    d, rem := ProgramD(us, k, vs, vo, n, m, qs, 4 - m);
    NumLeadingZeros(qs[..], 1, 4 - m, 5);
    q := Join(qs[..], 1);
    r := None;
    if wantRem {
      var x := ReadRemainder(us, n, d, rem);
      r := Some(x);
    }
  }

  lemma DivisorSize(s: seq<digit>, lo: nat, hi: nat)
    requires lo < hi <= |s| && s[lo] > 0
    ensures Num(s, lo, hi) >= PowB(hi - lo - 1)
  {}

  /** Breaks a 64-bit number into digits 1..4 of an array. */
  method Load(a: array<digit>, x: quad)
    requires a.Length == 5
    modifies a
    ensures a[0] == old(a[0])
    ensures Num(a[..], 1, 5) == x
  {
    var h: word, l: word := x / W, x % W;
    a[1], a[2], a[3], a[4] := HHalf(h), LHalf(h), HHalf(l), LHalf(l);
    NumFour(a[..], 1);
  }

  /** Skips the divisor's leading zeros: n digits are left, starting at
      vs[vo+1], and the first of them is nonzero. */
  method DivisorDigits(vs: array<digit>) returns (n: nat, vo: nat)
    requires vs.Length > 1 && Num(vs[..], 1, vs.Length) > 0
    ensures n >= 1 && vo + n + 1 == vs.Length
    ensures vs[vo + 1] > 0
    ensures Num(vs[..], vo + 1, vs.Length) == Num(vs[..], 1, vs.Length)
  {
    n, vo := vs.Length - 1, 0;
    while vs[vo + 1] == 0
      invariant 1 <= n && vo + n + 1 == vs.Length
      invariant Num(vs[..], vo + 1, vs.Length) == Num(vs[..], 1, vs.Length)
      decreases n
    {
      NumLeadingZeros(vs[..], vo + 1, vo + 2, vs.Length);
      n, vo := n - 1, vo + 1;
    }
  }

  /** Divides by whichever method the number of digits in the divisor calls for. */
  method DivideDigits(us: array<digit>, vs: array<digit>, wantRem: bool)
    returns (q: quad, r: Option<nat>, ghost rem: nat)
    requires us != vs && us.Length == vs.Length == 5
    requires us[0] == 0 && 0 < Num(vs[..], 1, vs.Length) <= Num(us[..], 1, us.Length)
    modifies us, vs
    ensures Divides(old(Num(us[..], 1, us.Length)), old(Num(vs[..], 1, vs.Length)), q, rem)
    ensures r == if wantRem then Some(rem) else None
  {
    NumLeadingZeros(us[..], 0, 1, us.Length);
    var n, vo := DivisorDigits(vs);
    if n == 1 {
      OneDigit(vs[..], vo + 1);
      var rs;
      q, rs := DivideShort(us, vs[vo + 1]);
      r, rem := if wantRem then Some(rs) else None, rs;
    } else {
      q, r, rem := DivideLong(us, vs, vo, n, wantRem);
    }
  }

  lemma OneDigit(s: seq<digit>, lo: nat)
    requires lo < |s|
    ensures Num(s, lo, lo + 1) == s[lo]
  {}

  /** __qdivrem: for every dividend and every nonzero divisor the quotient is
      u / v and the remainder, if wanted, u % v; a zero divisor traps. */
  method UDivRem(ull: quad, vll: quad, wantRem: bool) returns (o: Outcome)
    ensures vll == 0 ==> o == Trap
    ensures vll != 0 ==> o.Quotient? && o.q == ull / vll
                         && o.r == if wantRem then Some(ull % vll) else None
  {
    if vll == 0 {
      return Trap;
    }
    if ull < vll {
      DivModUnique(ull, vll, 0, ull);
      return Quotient(0, if wantRem then Some(ull) else None);
    }
    var us, vs := new digit[5], new digit[5];
    us[0] := 0;
    Load(us, ull);
    Load(vs, vll);
    var q, r, rem := DivideDigits(us, vs, wantRem);
    DivModUnique(ull, vll, q, rem);
    o := Quotient(q, r);
  }

  // --------------------------------------------------- the signed wrappers

  /** Division truncating toward zero, as section 6.5.5 of C99 defines it. */
  function TruncDiv(a: int, b: int): int
    requires b != 0
  {
    if (a < 0) == (b < 0) then Abs(a) / Abs(b) else -(Abs(a) / Abs(b))
  }

  function TruncMod(a: int, b: int): int
    requires b != 0
  {
    if a < 0 then -(Abs(a) % Abs(b)) else Abs(a) % Abs(b)
  }

  /** C99's law: the quotient and remainder reassemble the dividend, and the
      remainder is smaller than the divisor and never of the wrong sign. */
  lemma TruncLaw(a: int, b: int)
    requires b != 0
    ensures a == TruncDiv(a, b) * b + TruncMod(a, b)
    ensures Abs(TruncMod(a, b)) < Abs(b)
    ensures a >= 0 ==> TruncMod(a, b) >= 0
    ensures a <= 0 ==> TruncMod(a, b) <= 0
  {}

  datatype SignedOutcome = SignedTrap | Value(x: int)

  /** __divdi3: truncating division for all operands, except that the one
      unrepresentable quotient, MIN / -1, wraps to MIN. */
  method DivDi3(a: int64, b: int64) returns (o: SignedOutcome)
    ensures b == 0 ==> o == SignedTrap
    ensures b != 0 && !(a == -Q / 2 && b == -1) ==> o == Value(TruncDiv(a, b))
    ensures a == -Q / 2 && b == -1 ==> o == Value(a)
  {
    var ua, ub, neg := Quad(a), Quad(b), false;
    if a < 0 { ua, neg := Neg(ua), !neg; }
    if b < 0 { ub, neg := Neg(ub), !neg; }
    assert ua == Abs(a) && ub == Abs(b);
    var res := UDivRem(ua, ub, false);
    if res.Trap? { return SignedTrap; }
    var uq := res.q;
    QuotientSize(Abs(a), Abs(b), uq);
    if neg { uq := Neg(uq); }
    o := Value(Signed(uq));
  }

  lemma QuotientSize(x: nat, y: nat, q: nat)
    requires y > 0 && q == x / y
    ensures q <= x && (y >= 2 ==> 2 * q <= x)
    ensures y == 1 ==> q == x
  {
    DivShrinks(x, y);
    assert x == q * y + x % y;
    if y >= 2 { MulMono(2, y, q); }
  }

  lemma RemainderSize(x: nat, y: nat)
    requires 0 < y <= Q / 2
    ensures 0 <= x % y < Q / 2
  {}

  /** ur negated as a 64-bit pattern if neg, then read as a signed number. */
  function SignedRemainder(neg: bool, ur: int): (r: int)
    requires 0 <= ur < Q / 2
    ensures r == if neg then -ur else ur
  {
    Signed(if neg then Neg(ur) else ur)
  }

  /** __moddi3: the remainder, with the sign of the dividend, for all operands. */
  method ModDi3(a: int64, b: int64) returns (o: SignedOutcome)
    ensures b == 0 ==> o == SignedTrap
    ensures b != 0 ==> o == Value(TruncMod(a, b))
  {
    var ua, ub := Quad(a), Quad(b);
    if a < 0 { ua := Neg(ua); }
    if b < 0 { ub := Neg(ub); }
    assert ua == Abs(a) && ub == Abs(b);
    if ub != 0 { RemainderSize(Abs(a), Abs(b)); }
    var res := UDivRem(ua, ub, true);
    if res.Trap? { return SignedTrap; }
    o := Value(SignedRemainder(a < 0, res.r.value));
  }
}
