/** Numbers as text: what the digits produced by printf and consumed by atoi
    denote. */
module Numerals {
  import Words

  function DigitChar(d: nat): char
    requires d < 16
  {
    "0123456789abcdef"[d]
  }

  function DigitOf(c: char): nat {
    if '0' <= c <= '9' then (c as int) - ('0' as int) else if 'a' <= c <= 'f' then (c as int) - ('a' as int) + 10 else 16
  }

  lemma DigitRoundTrip(d: nat)
    requires d < 16
    ensures DigitOf(DigitChar(d)) == d
    ensures d < 10 ==> '0' <= DigitChar(d) <= '9'
    ensures DigitChar(d) != '-' && DigitChar(d) != '+' && DigitChar(d) != ' ' && DigitChar(d) != '\t' && DigitChar(d) as int != 0
  {}

  /** The sixteen digits and their values. */
  lemma DigitValues(d: nat)
    requires d < 16
    ensures DigitOf("0123456789abcdef"[d]) == d
  {
    DigitRoundTrip(d);
  }

  function Power(b: nat, k: nat): nat { if k == 0 then 1 else b * Power(b, k - 1) }

  /** The numeral of n in the given base, without leading zeros. */
  function Digits(n: nat, base: nat): (s: seq<char>)
    requires 2 <= base <= 16
    ensures |s| >= 1
    decreases n
  {
    if n < base then [DigitChar(n)]
    else
      Words.DivLess(n, base);
      Digits(n / base, base) + [DigitChar(n % base)]
  }

  /** What a numeral denotes. */
  function Denotes(s: seq<char>, base: nat): nat {
    if s == [] then 0 else Denotes(s[..|s| - 1], base) * base + DigitOf(s[|s| - 1])
  }

  lemma DenotesSnoc(s: seq<char>, c: char, base: nat)
    ensures Denotes(s + [c], base) == Denotes(s, base) * base + DigitOf(c)
  {}

  lemma DenotesDigit(s: seq<char>, q: nat, r: nat, base: nat)
    requires r < 16 && Denotes(s, base) == q
    ensures Denotes(s + [DigitChar(r)], base) == q * base + r
  {}

  lemma {:induction false} DigitsDenote(n: nat, base: nat)
    requires 2 <= base <= 16
    ensures Denotes(Digits(n, base), base) == n
    decreases n
  {
    if n < base {
      assert Digits(n, base) == [] + [DigitChar(n)];
      DenotesDigit([], 0, n, base);
    } else {
      Words.DivLess(n, base);
      DigitsDenote(n / base, base);
      DenotesDigit(Digits(n / base, base), n / base, n % base, base);
      DivMod(n, base);
    }
  }

  lemma DivMod(n: nat, b: nat)
    requires b > 0
    ensures n / b * b + n % b == n
  {}

  /** One turn of the conversion loop: the last digit moves into the tail. */
  lemma PeelDigit(n: nat, base: nat, tail: seq<char>)
    requires 2 <= base <= 16
    ensures 0 <= n / base && (n > 0 ==> n / base < n)
    ensures Digits(n, base) + tail
            == (if n / base > 0 then Digits(n / base, base) else []) + ([DigitChar(n % base)] + tail)
  {
    if n < base {
      Words.DivModUnique(n, base, 0, n);
    } else {
      Words.DivLess(n, base);
      assert Digits(n, base) + tail == Digits(n / base, base) + ([DigitChar(n % base)] + tail);
    }
  }

  lemma {:induction false} PowerAdd(b: nat, m: nat, n: nat)
    ensures Power(b, m + n) == Power(b, m) * Power(b, n)
  {
    if m > 0 {
      PowerAdd(b, m - 1, n);
      assert Power(b, m + n) == b * Power(b, m - 1 + n);
      assert b * (Power(b, m - 1) * Power(b, n)) == (b * Power(b, m - 1)) * Power(b, n);
    }
  }

  lemma PowersOfEight()
    ensures Power(8, 21) == 0x8000_0000_0000_0000
    ensures Power(8, 22) == 0x4_0000_0000_0000_0000
  {
    assert Power(8, 3) == 512;
    PowerAdd(8, 3, 3);
    PowerAdd(8, 6, 6);
    PowerAdd(8, 12, 6);
    PowerAdd(8, 18, 3);
    assert Power(8, 22) == 8 * Power(8, 21);
  }

  predicate AllBelow(s: seq<char>, base: nat) { forall i :: 0 <= i < |s| ==> DigitOf(s[i]) < base }

  lemma {:induction false} DigitsBelow(n: nat, base: nat)
    requires 2 <= base <= 16
    ensures AllBelow(Digits(n, base), base)
    decreases n
  {
    if n < base {
      DigitRoundTrip(n);
    } else {
      Words.DivLess(n, base);
      DigitsBelow(n / base, base);
      DigitRoundTrip(n % base);
    }
  }

  /** s is the numeral of n in the given base: its digits are digits of the base,
      without leading zeros, and denote n. */
  predicate Numeral(s: seq<char>, base: nat, n: nat) {
    s != [] && AllBelow(s, base) && (|s| > 1 ==> s[0] != '0') && Denotes(s, base) == n
  }

  lemma DigitsNumeral(n: nat, base: nat)
    requires 2 <= base <= 16
    ensures Numeral(Digits(n, base), base, n)
  {
    DigitsDenote(n, base);
    DigitsBelow(n, base);
    NoLeadingZero(n, base);
  }

  lemma {:induction false} NoLeadingZero(n: nat, base: nat)
    requires 2 <= base <= 16
    ensures Digits(n, base)[0] == '0' <==> n == 0
    decreases n
  {
    if n < base {
      DigitRoundTrip(n);
    } else {
      Words.DivLess(n, base);
      NoLeadingZero(n / base, base);
    }
  }

  /** A number below base^k has at most k digits, and one from base^k on more. */
  lemma {:induction false} DigitsLength(n: nat, base: nat, k: nat)
    requires 2 <= base <= 16 && k >= 1
    ensures n < Power(base, k) <==> |Digits(n, base)| <= k
    decreases k
  {
    assert Power(base, k) == base * Power(base, k - 1);
    if n >= base {
      Words.DivLess(n, base);
      if k == 1 {
        assert Power(base, 0) == 1;
      } else {
        DigitsLength(n / base, base, k - 1);
        DivBelow(n, base, Power(base, k - 1));
      }
    } else {
      PowerPositive(base, k - 1);
    }
  }

  lemma {:induction false} PowerPositive(b: nat, k: nat)
    requires b > 0
    ensures Power(b, k) >= 1
  {
    if k > 0 { PowerPositive(b, k - 1); }
  }

  lemma DivBelow(n: nat, b: nat, p: nat)
    requires b > 0
    ensures n < b * p <==> n / b < p
  {
    var q := n / b;
    assert n == q * b + n % b;
    if q < p { Words.MulMono(q + 1, p, b); } else { Words.MulMono(p, q, b); }
  }
}

/** common/libc/printf: the printf engine of __printf.c feeding the bounded buffer
    of snprintf.c. */
module Printf {
  import opened Common
  import opened Numerals
  import Words
  import Qdivrem

  /** sizeof(long long) * CHAR_BIT / 3 + 2. */
  const NUMBER_BUF_SIZE: nat := 23

  datatype Size = INTSZ | LONGSZ | LLONGSZ | SIZETSZ

  /** What a C string can hold: anything but NUL, which ends it. */
  type CString = s: string | NoNul(s)

  predicate NoNul(s: string) { forall i :: 0 <= i < |s| ==> s[i] as int != 0 }

  /** A variable argument: a number, or a string pointer that may be NULL. */
  datatype Arg = Num(v: int) | Text(s: Option<CString>)

  /** The part of struct PF that lives between characters of one directive. */
  datatype Field = Field(inPct: bool, size: Size, spacing: nat, rightspc: bool, fillchar: char, altformat: bool)

  /** __pf_endfield. */
  const NoField: Field := Field(false, INTSZ, 0, false, ' ', false)

  function Bits(size: Size): nat { if size == LLONGSZ then Words.Q else Words.W }

  /** Reading an argument that is not there is undefined in C; here it gives 0 or
      NULL. */
  function NumArg(args: seq<Arg>, ap: nat): int { if ap < |args| && args[ap].Num? then args[ap].v else 0 }
  function TextArg(args: seq<Arg>, ap: nat): Option<CString> {
    if ap < |args| && args[ap].Text? then args[ap].s else None
  }

  /** The number that a directive shows for argument v: v reduced to the width the
      directive asks for, and read in two's complement for 'd'. */
  function Shown(v: int, size: Size, ch: char): int {
    var m := Bits(if ch == 'p' then INTSZ else size);
    if ch == 'd' && v % m >= m / 2 then v % m - m else v % m
  }

  /** Shown is the one number in the range of the directive's type that differs
      from v by a multiple of the width; so an argument of that type is shown as
      itself. */
  lemma ShownMeans(v: int, size: Size, ch: char)
    ensures var n := Shown(v, size, ch);
      var m := if size == LLONGSZ && ch != 'p' then 0x1_0000_0000_0000_0000 else 0x1_0000_0000;
      InType(n, m, ch) && (v - n) % m == 0 && (InType(v, m, ch) ==> n == v) &&
      forall k: int :: InType(n + k * m, m, ch) ==> k == 0
  {
    var m, n := Bits(if ch == 'p' then INTSZ else size), Shown(v, size, ch);
    assert v == v / m * m + v % m;
    Words.DivModUnique(v - n, m, if n == v % m then v / m else v / m + 1, 0);
    if InType(v, m, ch) { OneInType(n, m, ch, if n == v % m then v / m else v / m + 1); }
    forall k: int | InType(n + k * m, m, ch) ensures k == 0 { OneInType(n, m, ch, k); }
  }

  /** Conversion to the signed type, and negation in the unsigned one. */
  lemma SignedShown(v: int, size: Size, n: Words.int64)
    requires n == if size == LLONGSZ then Words.Signed(Words.Quad(v)) else Words.SignedWord(Words.Word(v))
    ensures n == Shown(v, size, 'd') && (n < 0 ==> Words.Neg(Words.Quad(n)) == -(n as int))
  {
    if n < 0 { Words.DivModUnique(n, Words.Q, -1, n + Words.Q); }
  }

  /** n is a value of the signed or unsigned type with m values. */
  predicate InType(n: int, m: nat, ch: char) { if ch == 'd' then -(m / 2) <= n < m / 2 else 0 <= n < m }

  lemma OneInType(n: int, m: nat, ch: char, k: int)
    requires m > 1 && m % 2 == 0 && InType(n, m, ch) && InType(n + k * m, m, ch)
    ensures k == 0
  {
    Words.NonzeroMultiple(k, m);
  }

  function Base(ch: char): nat { if ch == 'd' || ch == 'u' then 10 else if ch == 'o' then 8 else 16 }

  function Prefix(wanted: bool, base: nat): string {
    if wanted && base == 16 then "0x" else if wanted && base == 8 then "0" else ""
  }

  function BasePrefix(alt: bool, ch: char): string { Prefix(alt || ch == 'p', Base(ch)) }

  function Repeat(c: char, n: nat): string { seq(n, _ => c) }

  /** A field: the text, with prefixes, padded to the width. */
  function Padded(f: Field, prefix: string, stuff: string): string {
    var len := |prefix| + |stuff|;
    var pad := Repeat(f.fillchar, if f.spacing > len then f.spacing - len else 0);
    if f.rightspc then prefix + stuff + pad
    else if f.fillchar == '0' then prefix + pad + stuff
    else pad + prefix + stuff
  }

  /** A number in its field: sign, base prefix and digits. */
  function NumberField(f: Field, n: int, ch: char): string {
    Padded(f, (if n < 0 then "-" else "") + BasePrefix(f.altformat, ch), Digits(Words.Abs(n), Base(ch)))
  }

  lemma NumberParts(f: Field, n: int, ch: char, num: nat, sign: bool)
    requires n == (if sign then 0 - num as int else num) && (sign <==> n < 0)
    ensures Padded(f, (if sign then "-" else "") + BasePrefix(f.altformat, ch), Digits(num, Base(ch))) == NumberField(f, n, ch)
  {}

  predicate IsModifier(ch: char) { ch in "#-lz0123456789" }
  predicate IsInteger(ch: char) { ch in "doupx" }

  /** __pf_modifier. */
  function Modify(f: Field, ch: char): Field
    requires IsModifier(ch)
  {
    if ch == '#' then f.(altformat := true)
    else if ch == '-' then f.(rightspc := true)
    else if ch == 'l' then f.(size := if f.size == LONGSZ then LLONGSZ else LONGSZ)
    else if ch == 'z' then f.(size := SIZETSZ)
    else if ch == '0' && f.spacing == 0 then f.(fillchar := '0')
    else f.(spacing := f.spacing * 10 + ((ch as int) - ('0' as int)))
  }

  /** What one format character does: the state after it, how many arguments it
      takes, and the text it sends. */
  datatype Effect = Effect(f: Field, taken: nat, text: string)

  function Step(f: Field, args: seq<Arg>, ap: nat, ch: char): Effect {
    if !f.inPct then if ch != '%' then Effect(f, 0, [ch]) else Effect(f.(inPct := true), 0, "")
    else if IsModifier(ch) then Effect(Modify(f, ch), 0, "")
    else if IsInteger(ch) then
      Effect(NoField, 1, NumberField(f, Shown(NumArg(args, ap), f.size, ch), ch))
    else if ch == 's' then
      var s := TextArg(args, ap);
      Effect(NoField, 1, Padded(f, "", if s.None? then "(null)" else s.value))
    else if ch == 'c' then Effect(NoField, 1, Padded(f, "", CharText(NumArg(args, ap))))
    else Effect(NoField, 0, Padded(f, "", [ch]))
  }

  /** A one-character string; empty for NUL, which ends it at once. */
  function CharText(v: int): string { if v % 256 == 0 then "" else [(v % 256) as char] }

  /** The whole output of a format. */
  function Render(f: Field, args: seq<Arg>, ap: nat, fmt: string): string
    decreases |fmt|
  {
    if fmt == "" then ""
    else
      var e := Step(f, args, ap, fmt[0]);
      e.text + Render(e.f, args, ap + e.taken, fmt[1..])
  }

  /** Text without a percent sign is copied. */
  lemma {:induction false} RenderPlain(args: seq<Arg>, ap: nat, fmt: string)
    requires '%' !in fmt
    ensures Render(NoField, args, ap, fmt) == fmt
    decreases |fmt|
  {
    if fmt != "" {
      RenderPlain(args, ap, fmt[1..]);
      assert fmt == [fmt[0]] + fmt[1..];
    }
  }

  /** The state in which a format leaves the engine: the field in progress and
      the number of arguments taken. */
  function After(f: Field, args: seq<Arg>, ap: nat, fmt: string): (Field, nat)
    decreases |fmt|
  {
    if fmt == "" then (f, ap)
    else
      var e := Step(f, args, ap, fmt[0]);
      After(e.f, args, ap + e.taken, fmt[1..])
  }

  /** Rendering goes piece by piece: a format can be cut anywhere. */
  lemma {:induction false} RenderConcat(f: Field, args: seq<Arg>, ap: nat, a: string, b: string)
    ensures var m := After(f, args, ap, a);
      Render(f, args, ap, a + b) == Render(f, args, ap, a) + Render(m.0, args, m.1, b)
    decreases |a|
  {
    if a == "" {
      assert a + b == b;
    } else {
      var e := Step(f, args, ap, a[0]);
      HeadTail(a, b);
      AfterStep(f, args, ap, a, e);
      RenderFirst(f, args, ap, a, e);
      RenderFirst(f, args, ap, a + b, e);
      RenderConcat(e.f, args, ap + e.taken, a[1..], b);
      var m := After(f, args, ap, a);
      Regroup(e.text, Render(e.f, args, ap + e.taken, a[1..]), Render(m.0, args, m.1, b));
    }
  }

  /** What the first character of a format contributes. */
  lemma RenderFirst(f: Field, args: seq<Arg>, ap: nat, s: string, e: Effect)
    requires s != "" && e == Step(f, args, ap, s[0])
    ensures Render(f, args, ap, s) == e.text + Render(e.f, args, ap + e.taken, s[1..])
  {}

  lemma HeadTail(a: string, b: string)
    requires a != ""
    ensures a + b != "" && (a + b)[0] == a[0] && (a + b)[1..] == a[1..] + b
  {}

  lemma Regroup(x: string, y: string, z: string)
    ensures x + (y + z) == (x + y) + z
  {}

  /** A field is as wide as asked for, or as its text if that is wider. */
  lemma PaddedWidth(f: Field, prefix: string, stuff: string)
    ensures |Padded(f, prefix, stuff)|
            == if f.spacing > |prefix| + |stuff| then f.spacing else |prefix| + |stuff|
  {}

  /** The state after a + b is that after b from the state after a. */
  lemma {:induction false} AfterConcat(f: Field, args: seq<Arg>, ap: nat, a: string, b: string)
    ensures var m := After(f, args, ap, a); After(f, args, ap, a + b) == After(m.0, args, m.1, b)
    decreases |a|
  {
    if a == "" {
      assert a + b == b;
    } else {
      var e := Step(f, args, ap, a[0]);
      HeadTail(a, b);
      AfterStep(f, args, ap, a, e);
      AfterStep(f, args, ap, a + b, e);
      AfterConcat(e.f, args, ap + e.taken, a[1..], b);
    }
  }

  lemma AfterStep(f: Field, args: seq<Arg>, ap: nat, s: string, e: Effect)
    requires s != "" && e == Step(f, args, ap, s[0])
    ensures After(f, args, ap, s) == After(e.f, args, ap + e.taken, s[1..])
  {}

  // ------------------------------------------- what the modifiers mean

  /** Everything that can stand between a percent sign and the type. */
  datatype Spec = Spec(alt: bool, left: bool, zero: bool, width: nat, size: Size)

  function SizeText(size: Size): string {
    match size case INTSZ => "" case LONGSZ => "l" case LLONGSZ => "ll" case SIZETSZ => "z"
  }

  function Flags(c: Spec): string {
    (if c.alt then "#" else "") + (if c.left then "-" else "") + (if c.zero then "0" else "")
  }

  /** The spec as a programmer writes it: flags, width, size. */
  function SpecText(c: Spec): string {
    ("%" + Flags(c)) + ((if c.width == 0 then "" else Digits(c.width, 10)) + SizeText(c.size))
  }

  function FieldOf(c: Spec): Field { Field(true, c.size, c.width, c.left, if c.zero then '0' else ' ', c.alt) }

  /** The piece of format text s takes the engine from f to f', taking no argument
      and printing nothing. */
  ghost predicate Sets(f: Field, s: string, f': Field) {
    forall args: seq<Arg>, ap: nat :: After(f, args, ap, s) == (f', ap) && Render(f, args, ap, s) == ""
  }

  lemma SetsNothing(f: Field)
    ensures Sets(f, "", f)
  {}

  lemma SetsChar(f: Field, ch: char)
    requires f.inPct && IsModifier(ch)
    ensures Sets(f, [ch], Modify(f, ch))
  {
    forall args: seq<Arg>, ap: nat
      ensures After(f, args, ap, [ch]) == (Modify(f, ch), ap) && Render(f, args, ap, [ch]) == ""
    {
      var e := Step(f, args, ap, ch);
      assert [ch][0] == ch && [ch][1..] == "";
      assert After(e.f, args, ap, "") == (e.f, ap) && Render(e.f, args, ap, "") == "";
    }
  }

  lemma SetsConcat(f: Field, a: string, f1: Field, b: string, f2: Field)
    requires Sets(f, a, f1) && Sets(f1, b, f2)
    ensures Sets(f, a + b, f2)
  {
    forall args: seq<Arg>, ap: nat
      ensures After(f, args, ap, a + b) == (f2, ap) && Render(f, args, ap, a + b) == ""
    {
      AfterConcat(f, args, ap, a, b);
      RenderConcat(f, args, ap, a, b);
    }
  }

  /** A numeral sets the width to the number it denotes. */
  lemma {:induction false} WidthMeans(f: Field, w: nat, s: string)
    requires f.inPct && f.spacing == 0 && w >= 1 && s == Digits(w, 10)
    ensures Sets(f, s, f.(spacing := w))
    decreases w
  {
    if w < 10 {
      DigitSets(f, w);
    } else {
      var f1, high := f.(spacing := w / 10), Digits(w / 10, 10);
      WidthMeans(f, w / 10, high);
      DigitSets(f1, w % 10);
      SetsConcat(f, high, f1, [DigitChar(w % 10)], f.(spacing := w));
    }
  }

  lemma DigitSets(f: Field, d: nat)
    requires f.inPct && d < 10 && (f.spacing > 0 || d > 0)
    ensures Sets(f, [DigitChar(d)], f.(spacing := f.spacing * 10 + d))
  {
    DigitRoundTrip(d);
    DigitIsModifier(d);
    SetsChar(f, DigitChar(d));
  }

  lemma DigitIsModifier(d: nat)
    requires d < 10
    ensures IsModifier(DigitChar(d)) && DigitChar(d) !in "#-lz" && (DigitChar(d) == '0' <==> d == 0)
  {
    assert "#-lz0123456789"[4 + d] == DigitChar(d);
  }

  lemma SizeMeans(f: Field, size: Size)
    requires f.inPct && f.size == INTSZ
    ensures Sets(f, SizeText(size), f.(size := size))
  {
    match size {
      case INTSZ => SetsNothing(f);
      case LONGSZ => SetsChar(f, 'l');
      case SIZETSZ => SetsChar(f, 'z');
      case LLONGSZ =>
        var f1 := f.(size := LONGSZ);
        SetsChar(f, 'l');
        SetsChar(f1, 'l');
        SetsConcat(f, "l", f1, "l", f.(size := LLONGSZ));
        assert "l" + "l" == "ll";
    }
  }

  lemma OptionalChar(f: Field, on: bool, ch: char)
    requires f.inPct && IsModifier(ch)
    ensures Sets(f, if on then [ch] else "", if on then Modify(f, ch) else f)
  {
    SetsNothing(f);
    SetsChar(f, ch);
  }

  /** A percent sign and the flags. */
  lemma FlagsMean(c: Spec)
    ensures Sets(NoField, "%" + Flags(c), Field(true, INTSZ, 0, c.left, if c.zero then '0' else ' ', c.alt))
  {
    var f0 := NoField.(inPct := true);
    var f1 := f0.(altformat := c.alt);
    var f2 := f1.(rightspc := c.left);
    var f3 := f2.(fillchar := if c.zero then '0' else ' ');
    PercentSets();
    OptionalChar(f0, c.alt, '#');
    OptionalChar(f1, c.left, '-');
    OptionalChar(f2, c.zero, '0');
    SetsConcat(f0, if c.alt then "#" else "", f1, if c.left then "-" else "", f2);
    SetsConcat(f0, (if c.alt then "#" else "") + (if c.left then "-" else ""), f2, if c.zero then "0" else "", f3);
    SetsConcat(NoField, "%", f0, Flags(c), f3);
  }

  lemma PercentSets()
    ensures Sets(NoField, "%", NoField.(inPct := true))
  {
    forall args: seq<Arg>, ap: nat
      ensures After(NoField, args, ap, "%") == (NoField.(inPct := true), ap) && Render(NoField, args, ap, "%") == ""
    {
      var e := Step(NoField, args, ap, '%');
      assert "%"[1..] == "";
      assert After(e.f, args, ap, "") == (e.f, ap) && Render(e.f, args, ap, "") == "";
    }
  }

  /** Reading a written spec gives back the spec: every flag, any width and every
      size end up where they belong, whatever else is there. */
  lemma ModifiersRoundTrip(c: Spec)
    ensures Sets(NoField, SpecText(c), FieldOf(c))
  {
    var f3 := Field(true, INTSZ, 0, c.left, if c.zero then '0' else ' ', c.alt);
    var f4 := f3.(spacing := c.width);
    FlagsMean(c);
    SetsNothing(f3);
    if c.width > 0 { WidthMeans(f3, c.width, Digits(c.width, 10)); }
    SizeMeans(f4, c.size);
    var w := if c.width == 0 then "" else Digits(c.width, 10);
    SetsConcat(f3, w, f4, SizeText(c.size), FieldOf(c));
    SetsConcat(NoField, "%" + Flags(c), f3, w + SizeText(c.size), FieldOf(c));
  }

  // ------------------------------------------------ what a directive prints

  /** out is a field as the spec asks for: front and body, padded to the width with
      the fill character, on the right with '-'; otherwise on the left, behind front
      if the fill character is a zero. */
  predicate LaidOut(out: string, c: Spec, front: string, body: string) {
    var n := |front| + |body|;
    var pad := seq(if c.width > n then c.width - n else 0, _ => if c.zero then '0' else ' ');
    out == if c.left then front + body + pad else if c.zero then front + pad + body else pad + front + body
  }

  lemma PaddedIsLaidOut(c: Spec, front: string, body: string)
    ensures LaidOut(Padded(FieldOf(c), front, body), c, front, body)
  {
    var n := |front| + |body|;
    assert Repeat(if c.zero then '0' else ' ', if c.width > n then c.width - n else 0)
      == seq(if c.width > n then c.width - n else 0, _ => if c.zero then '0' else ' ');
  }

  /** What follows a written spec is rendered in the field it asks for. */
  lemma TypeAfterSpec(c: Spec, text: string, ch: char, args: seq<Arg>, ap: nat)
    requires text == SpecText(c)
    ensures var e := Step(FieldOf(c), args, ap, ch);
      Render(NoField, args, ap, text + [ch]) == e.text && After(NoField, args, ap, text + [ch]) == (e.f, ap + e.taken)
  {
    ModifiersRoundTrip(c);
    SetsThen(NoField, text, FieldOf(c), [ch], args, ap);
    OneChar(FieldOf(c), args, ap, ch);
  }

  lemma OneChar(f: Field, args: seq<Arg>, ap: nat, ch: char)
    ensures var e := Step(f, args, ap, ch);
      Render(f, args, ap, [ch]) == e.text && After(f, args, ap, [ch]) == (e.f, ap + e.taken)
  {
    var e := Step(f, args, ap, ch);
    assert [ch][0] == ch && [ch][1..] == "";
    assert Render(e.f, args, ap + e.taken, "") == "" && e.text + "" == e.text;
    assert After(e.f, args, ap + e.taken, "") == (e.f, ap + e.taken);
  }

  /** %d, %u, %o, %x and %p: sign, base prefix and a numeral without leading zeros
      that denotes the number shown, in base 10, 8 or 16 as the type says, in a
      field as long as the larger of the width and these; one argument is taken. */
  lemma DirectivePrints(c: Spec, text: string, ch: char, args: seq<Arg>, ap: nat) returns (front: string, digits: string)
    requires text == SpecText(c) && ch in {'d', 'u', 'o', 'x', 'p'} && ap < |args| && args[ap].Num?
    ensures LaidOut(Render(NoField, args, ap, text + [ch]), c, front, digits)
    ensures |Render(NoField, args, ap, text + [ch])| == if c.width > |front| + |digits| then c.width else |front| + |digits|
    ensures After(NoField, args, ap, text + [ch]) == (NoField, ap + 1)
    ensures var n := Shown(args[ap].v, c.size, ch);
      front == (if n < 0 then "-" else "") +
               (if ch == 'p' || (ch == 'x' && c.alt) then "0x" else if ch == 'o' && c.alt then "0" else "") &&
      (ch == 'd' || ch == 'u' ==> Numeral(digits, 10, Words.Abs(n))) &&
      (ch == 'o' ==> Numeral(digits, 8, Words.Abs(n))) &&
      (ch == 'x' || ch == 'p' ==> Numeral(digits, 16, Words.Abs(n)))
  {
    TypeAfterSpec(c, text, ch, args, ap);
    IntegerStep(FieldOf(c), args, ap, ch);
    front, digits := IntegerField(c, Shown(args[ap].v, c.size, ch), ch, Render(NoField, args, ap, text + [ch]));
  }

  lemma IntegerStep(f: Field, args: seq<Arg>, ap: nat, ch: char)
    requires f.inPct && ch in {'d', 'u', 'o', 'x', 'p'} && ap < |args| && args[ap].Num?
    ensures Step(f, args, ap, ch) == Effect(NoField, 1, NumberField(f, Shown(args[ap].v, f.size, ch), ch))
  {
    assert !IsModifier(ch) && IsInteger(ch);
  }

  lemma IntegerField(c: Spec, n: int, ch: char, out: string) returns (front: string, digits: string)
    requires ch in {'d', 'u', 'o', 'x', 'p'} && out == NumberField(FieldOf(c), n, ch)
    ensures LaidOut(out, c, front, digits)
    ensures |out| == if c.width > |front| + |digits| then c.width else |front| + |digits|
    ensures
      front == (if n < 0 then "-" else "") +
               (if ch == 'p' || (ch == 'x' && c.alt) then "0x" else if ch == 'o' && c.alt then "0" else "") &&
      (ch == 'd' || ch == 'u' ==> Numeral(digits, 10, Words.Abs(n))) &&
      (ch == 'o' ==> Numeral(digits, 8, Words.Abs(n))) &&
      (ch == 'x' || ch == 'p' ==> Numeral(digits, 16, Words.Abs(n)))
  {
    front, digits := (if n < 0 then "-" else "") + BasePrefix(c.alt, ch), Digits(Words.Abs(n), Base(ch));
    PaddedIsLaidOut(c, front, digits);
    PaddedWidth(FieldOf(c), front, digits);
    DigitsNumeral(Words.Abs(n), Base(ch));
  }

  /** %s: the argument, or "(null)" for a NULL pointer. */
  lemma StringText(c: Spec, text: string, args: seq<Arg>, ap: nat)
    requires text == SpecText(c) && ap < |args| && args[ap].Text?
    ensures LaidOut(Render(NoField, args, ap, text + ['s']), c, "", if args[ap].s == None then "(null)" else args[ap].s.value)
    ensures After(NoField, args, ap, text + ['s']) == (NoField, ap + 1)
  {
    TypeAfterSpec(c, text, 's', args, ap);
    TextStep(FieldOf(c), args, ap);
    PaddedIsLaidOut(c, "", if args[ap].s == None then "(null)" else args[ap].s.value);
  }

  lemma TextStep(f: Field, args: seq<Arg>, ap: nat)
    requires f.inPct && ap < |args|
    ensures args[ap].Text? ==>
      Step(f, args, ap, 's') == Effect(NoField, 1, Padded(f, "", if args[ap].s == None then "(null)" else args[ap].s.value))
    ensures args[ap].Num? ==> Step(f, args, ap, 'c') == Effect(NoField, 1, Padded(f, "", CharText(args[ap].v)))
  {
    assert !IsModifier('s') && !IsInteger('s') && !IsModifier('c') && !IsInteger('c');
  }

  /** %c: the argument as a character, or nothing for NUL. */
  lemma CharacterText(c: Spec, text: string, args: seq<Arg>, ap: nat)
    requires text == SpecText(c) && ap < |args| && args[ap].Num?
    ensures var v := args[ap].v;
      LaidOut(Render(NoField, args, ap, text + ['c']), c, "", if v % 256 == 0 then "" else [(v % 256) as char])
    ensures After(NoField, args, ap, text + ['c']) == (NoField, ap + 1)
  {
    TypeAfterSpec(c, text, 'c', args, ap);
    TextStep(FieldOf(c), args, ap);
    PaddedIsLaidOut(c, "", CharText(args[ap].v));
  }

  /** %% and any other character: that character, and no argument is taken. */
  lemma OtherText(c: Spec, text: string, ch: char, args: seq<Arg>, ap: nat)
    requires text == SpecText(c) && ch !in "#-lz0123456789" && ch !in {'d', 'o', 'u', 'p', 'x', 's', 'c'}
    ensures LaidOut(Render(NoField, args, ap, text + [ch]), c, "", [ch])
    ensures After(NoField, args, ap, text + [ch]) == (NoField, ap)
  {
    TypeAfterSpec(c, text, ch, args, ap);
    OtherStep(FieldOf(c), args, ap, ch);
    PaddedIsLaidOut(c, "", [ch]);
  }

  lemma OtherStep(f: Field, args: seq<Arg>, ap: nat, ch: char)
    requires f.inPct && ch !in "#-lz0123456789" && ch !in {'d', 'o', 'u', 'p', 'x', 's', 'c'}
    ensures Step(f, args, ap, ch) == Effect(NoField, 0, Padded(f, "", [ch]))
  {
    assert !IsModifier(ch) && !IsInteger(ch);
  }

  lemma SetsThen(f: Field, a: string, f1: Field, b: string, args: seq<Arg>, ap: nat)
    requires Sets(f, a, f1)
    ensures Render(f, args, ap, a + b) == Render(f1, args, ap, b)
    ensures After(f, args, ap, a + b) == After(f1, args, ap, b)
  {
    assert After(f, args, ap, a) == (f1, ap) && Render(f, args, ap, a) == "";
    RenderConcat(f, args, ap, a, b);
    AfterConcat(f, args, ap, a, b);
  }

  /** __pf_printnum's loop: the digits are built from the right in a buffer of
      NUMBER_BUF_SIZE characters, which no 64-bit number in base 8 or more can
      overrun. Division is the millicode's. */
  method NumberText(num: Words.quad, base: nat) returns (text: string)
    requires base == 8 || base == 10 || base == 16
    ensures text == Digits(num, base)
  {
    var buf := new char[NUMBER_BUF_SIZE];
    var x := NUMBER_BUF_SIZE - 1;
    buf[x] := 0 as char;
    x := x - 1;
    var xnum: Words.quad := num;
    FitsBuffer(num, base);
    ghost var tail := "";
    var more := true;
    while more
      invariant -1 <= x < NUMBER_BUF_SIZE - 1
      invariant tail == buf[x + 1..NUMBER_BUF_SIZE - 1]
      invariant more ==> Digits(xnum, base) + tail == Digits(num, base)
      invariant !more ==> tail == Digits(num, base)
      decreases more, xnum
    {
      PeelDigit(xnum, base, tail);
      assert |tail| + 1 <= NUMBER_BUF_SIZE - 1;
      var d := Qdivrem.UDivRem(xnum, base, true);
      buf[x] := DigitChar(d.r.value);
      tail := [DigitChar(xnum % base)] + tail;
      assert tail == buf[x..NUMBER_BUF_SIZE - 1];
      x := x - 1;
      more := d.q > 0;
      xnum := d.q;
    }
    text := buf[x + 1..NUMBER_BUF_SIZE - 1];
  }

  /** At most 22 octal digits, so 23 characters with the NUL; and that is tight. */
  lemma FitsBuffer(num: Words.quad, base: nat)
    requires base == 8 || base == 10 || base == 16
    ensures |Digits(num, base)| + 1 <= NUMBER_BUF_SIZE
  {
    DigitsLength(num, base, 22);
    PowerBig(base, 22);
  }

  lemma PowerBig(base: nat, k: nat)
    requires base >= 8 && k == 22
    ensures Power(base, k) >= Words.Q
  {
    PowerMono(8, base, 22);
    PowersOfEight();
  }

  lemma {:induction false} PowerMono(a: nat, b: nat, k: nat)
    requires a <= b
    ensures Power(a, k) <= Power(b, k)
  {
    if k > 0 {
      PowerMono(a, b, k - 1);
      Words.MulMono(a, b, Power(a, k - 1));
      Words.MulMono(Power(a, k - 1), Power(b, k - 1), b);
    }
  }

  lemma BufferIsTight()
    ensures |Digits(Words.Q - 1, 8)| + 1 == NUMBER_BUF_SIZE
  {
    FitsBuffer(Words.Q - 1, 8);
    DigitsLength(Words.Q - 1, 8, 21);
    PowersOfEight();
  }

  /** struct PF with struct SNP behind it. */
  class Printer {
    const buf: array<char>
    const buflen: nat
    var bufpos: nat
    const args: seq<Arg>
    var ap: nat
    var charcount: nat
    var inPct: bool
    var size: Size
    var num: Words.quad
    var sign: bool
    var spacing: nat
    var rightspc: bool
    var fillchar: char
    var base: nat
    var baseprefix: bool
    var altformat: bool
    /** Everything sent so far. */
    ghost var out: string

    function F(): Field
      reads this
    {
      Field(inPct, size, spacing, rightspc, fillchar, altformat)
    }

    /** The buffer holds as much of the output as fits, and charcount all of it. */
    ghost predicate Valid()
      reads this, buf
    {
      buflen <= buf.Length && bufpos == Words.Min(buflen, |out|) && buf[..bufpos] == out[..bufpos] && charcount == |out|
    }

    /** No number has been fetched for the field in progress. */
    predicate Blank()
      reads this
    {
      num == 0 && !sign && base == 0 && !baseprefix
    }

    constructor (buf: array<char>, buflen: nat, args: seq<Arg>)
      requires buflen <= buf.Length
      ensures Valid() && Blank() && out == "" && F() == NoField && ap == 0
      ensures this.buf == buf && this.buflen == buflen && this.args == args
    {
      this.buf, this.buflen, this.args := buf, buflen, args;
      bufpos, ap, charcount, out := 0, 0, 0, "";
      inPct, size, num, sign, spacing, rightspc := false, INTSZ, 0, false, 0, false;
      fillchar, base, baseprefix, altformat := ' ', 0, false, false;
    }

    /** __pf_print with __snprintf_send: characters past the end of the buffer are
        counted but not stored. */
    method Print(txt: string)
      requires Valid()
      modifies this`bufpos, this`charcount, this`out, buf
      ensures Valid() && out == old(out) + txt
      ensures buf[buflen..] == old(buf[buflen..])
    {
      var i := 0;
      ghost var sent := out;
      while i < |txt|
        modifies this`bufpos, buf
        invariant 0 <= i <= |txt| && buflen <= buf.Length
        invariant bufpos == Words.Min(buflen, |sent| + i)
        invariant buf[..bufpos] == (sent + txt[..i])[..bufpos]
        invariant buf[buflen..] == old(buf[buflen..])
      {
        assert sent + txt[..i + 1] == (sent + txt[..i]) + [txt[i]];
        if bufpos < buflen {
          buf[bufpos] := txt[i];
          bufpos := bufpos + 1;
        }
        i := i + 1;
      }
      charcount := charcount + |txt|;
      out := out + txt;
      assert txt[..|txt|] == txt;
    }

    /** __pf_fill. */
    method Fill(spc: nat)
      requires Valid()
      modifies this`bufpos, this`charcount, this`out, buf
      ensures Valid() && out == old(out) + Repeat(fillchar, spc)
      ensures buf[buflen..] == old(buf[buflen..])
    {
      var i := 0;
      while i < spc
        modifies this`bufpos, this`charcount, this`out, buf
        invariant 0 <= i <= spc && Valid() && out == old(out) + Repeat(fillchar, i)
        invariant buf[buflen..] == old(buf[buflen..])
      {
        Print([fillchar]);
        assert Repeat(fillchar, i + 1) == Repeat(fillchar, i) + [fillchar];
        i := i + 1;
      }
    }

    /** Padding where it is wanted. */
    method PadIf(wanted: bool, spc: nat)
      requires Valid()
      modifies this`bufpos, this`charcount, this`out, buf
      ensures Valid() && out == old(out) + (if wanted then Repeat(fillchar, spc) else "")
      ensures buf[buflen..] == old(buf[buflen..])
    {
      if spc > 0 && wanted { Fill(spc); }
    }

    /** __pf_printstuff. */
    method PrintStuff(prefix: string, prefix2: string, stuff: string)
      requires Valid()
      modifies this`bufpos, this`charcount, this`out, buf
      ensures Valid() && out == old(out) + Padded(F(), prefix + prefix2, stuff)
      ensures buf[buflen..] == old(buf[buflen..])
    {
      var len := |prefix| + |prefix2| + |stuff|;
      var spc := if spacing > len then spacing - len else 0;
      ghost var o := out;
      PadIf(!rightspc && fillchar != '0', spc);
      Print(prefix);
      Print(prefix2);
      PadIf(!rightspc && fillchar == '0', spc);
      Print(stuff);
      PadIf(rightspc, spc);
      PaddedParts(F(), o, prefix, prefix2, stuff, Repeat(fillchar, spc), out);
    }

    /** __pf_endfield. */
    method EndField()
      modifies this`inPct, this`size, this`num, this`sign, this`spacing, this`rightspc, this`fillchar, this`base, this`baseprefix, this`altformat
      ensures F() == NoField && Blank()
    {
      inPct, size, num, sign, spacing, rightspc := false, INTSZ, 0, false, 0, false;
      fillchar, base, baseprefix, altformat := ' ', 0, false, false;
    }

    /** __pf_modifier. */
    method Modifier(ch: char)
      requires IsModifier(ch)
      modifies this`altformat, this`rightspc, this`size, this`fillchar, this`spacing
      ensures F() == Modify(old(F()), ch)
    {
      match ch {
        case '#' => altformat := true;
        case '-' => rightspc := true;
        case 'l' => if size == LONGSZ { size := LLONGSZ; } else { size := LONGSZ; }
        case 'z' => size := SIZETSZ;
        case '0' => if spacing > 0 { spacing := spacing * 10; } else { fillchar := '0'; }
        case _ => spacing := spacing * 10 + ((ch as int) - ('0' as int));
      }
    }

    /** __pf_getnum: magnitude and sign of the next argument. */
    method GetNum(ch: char)
      requires IsInteger(ch) && Blank()
      modifies this`ap, this`num, this`sign
      ensures ap == old(ap) + 1
      ensures (if sign then -(num as int) else num) == Shown(NumArg(args, old(ap)), size, ch)
      ensures sign <==> Shown(NumArg(args, old(ap)), size, ch) < 0
    {
      var v := NumArg(args, ap);
      ap := ap + 1;
      if ch == 'p' {
        num := Words.Word(v);
      } else if ch == 'd' {
        var signednum: Words.int64 := 0;
        match size {
          case INTSZ => signednum := Words.SignedWord(Words.Word(v));
          case LONGSZ => signednum := Words.SignedWord(Words.Word(v));
          case LLONGSZ => signednum := Words.Signed(Words.Quad(v));
          case SIZETSZ => signednum := Words.SignedWord(Words.Word(v));
        }
        SignedShown(v, size, signednum);
        if signednum < 0 {
          sign := true;
          num := Words.Neg(Words.Quad(signednum));
        } else {
          num := signednum;
        }
      } else {
        match size {
          case INTSZ => num := Words.Word(v);
          case LONGSZ => num := Words.Word(v);
          case LLONGSZ => num := Words.Quad(v);
          case SIZETSZ => num := Words.Word(v);
        }
      }
    }

    /** __pf_setbase. */
    method SetBase(ch: char)
      requires IsInteger(ch) && !baseprefix
      modifies this`base, this`baseprefix
      ensures base == Base(ch) && baseprefix == (altformat || ch == 'p')
    {
      match ch {
        case 'd' => base := 10;
        case 'u' => base := 10;
        case 'x' => base := 16;
        case 'p' => base := 16;
        case 'o' => base := 8;
      }
      if altformat || ch == 'p' { baseprefix := true; }
    }

    /** __pf_printnum. */
    method PrintNum()
      requires Valid() && (base == 8 || base == 10 || base == 16)
      modifies this`bufpos, this`charcount, this`out, buf
      ensures Valid()
      ensures out == old(out) + Padded(F(), (if sign then "-" else "") + Prefix(baseprefix, base), Digits(num, base))
      ensures buf[buflen..] == old(buf[buflen..])
    {
      var text := NumberText(num, base);
      PrintStuff(if sign then "-" else "", Prefix(baseprefix, base), text);
    }

    /** The integer types. */
    method PrintInteger(ch: char)
      requires Valid() && Blank() && IsInteger(ch)
      modifies this`bufpos, this`charcount, this`out, this`ap, this`num, this`sign, this`base, this`baseprefix, buf
      ensures Valid() && ap == old(ap) + 1
      ensures out == old(out) + NumberField(F(), Shown(NumArg(args, old(ap)), size, ch), ch)
      ensures buf[buflen..] == old(buf[buflen..])
    {
      GetNum(ch);
      SetBase(ch);
      NumberParts(F(), Shown(NumArg(args, old(ap)), size, ch), ch, num, sign);
      PrintNum();
    }

    /** The printing cases of __pf_send. */
    method Directive(ch: char)
      requires Valid() && Blank() && inPct && !IsModifier(ch)
      modifies this, buf
      ensures Valid() && Blank() && var e := Step(old(F()), args, old(ap), ch);
              out == old(out) + e.text && F() == e.f && ap == old(ap) + e.taken
      ensures buf[buflen..] == old(buf[buflen..])
    {
      if IsInteger(ch) {
        PrintInteger(ch);
      } else if ch == 's' {
        var str := TextArg(args, ap);
        ap := ap + 1;
        PrintStuff("", "", if str.None? then "(null)" else str.value);
      } else if ch == 'c' {
        var c := NumArg(args, ap);
        ap := ap + 1;
        PrintStuff("", "", CharText(c));
      } else {
        PrintStuff("", "", [ch]);
      }
      assert "" + "" == "";
      EndField();
    }

    /** __pf_send: one character of the format, which is not NUL. */
    method Send(ch: char)
      requires Valid() && Blank() && ch as int != 0
      modifies this, buf
      ensures Valid() && Blank() && var e := Step(old(F()), args, old(ap), ch);
              out == old(out) + e.text && F() == e.f && ap == old(ap) + e.taken
      ensures buf[buflen..] == old(buf[buflen..])
    {
      if !inPct && ch != '%' {
        Print([ch]);
      } else if !inPct {
        inPct := true;
      } else if IsModifier(ch) {
        Modifier(ch);
      } else {
        Directive(ch);
      }
    }

    /** The loop of __vprintf. */
    method Vprintf(fmt: CString)
      requires Valid() && Blank() && F() == NoField && ap == 0 && out == ""
      modifies this, buf
      ensures Valid() && out == Render(NoField, args, 0, fmt)
      ensures buf[buflen..] == old(buf[buflen..])
    {
      var i := 0;
      while i < |fmt|
        modifies this, buf
        invariant 0 <= i <= |fmt| && Valid() && Blank()
        invariant out + Render(F(), args, ap, fmt[i..]) == Render(NoField, args, 0, fmt)
        invariant buf[buflen..] == old(buf[buflen..])
      {
        RenderStep(out, F(), args, ap, fmt, i);
        Send(fmt[i]);
        i := i + 1;
      }
    }
  }

  lemma RenderStep(out: string, f: Field, args: seq<Arg>, ap: nat, fmt: string, i: nat)
    requires i < |fmt|
    ensures var e := Step(f, args, ap, fmt[i]);
      out + Render(f, args, ap, fmt[i..]) == (out + e.text) + Render(e.f, args, ap + e.taken, fmt[i + 1..])
  {}

  /** vsnprintf: of the rendered text, the first len - 1 characters are stored,
      then a NUL, and nothing at or past len is touched; the value returned is
      the length of the whole text. Section 7.19.6.5 of C99. */
  method Vsnprintf(buf: array<char>, len: nat, fmt: CString, args: seq<Arg>) returns (chars: nat)
    requires len <= buf.Length
    modifies buf
    ensures var text := Render(NoField, args, 0, fmt);
      chars == |text| &&
      (len > 0 ==> var k := Words.Min(len - 1, |text|); buf[..k] == text[..k] && buf[k] == 0 as char) &&
      (forall k :: len <= k < buf.Length ==> buf[k] == old(buf[k]))
  {
    var snp := new Printer(buf, if len == 0 then 0 else len - 1, args);
    snp.Vprintf(fmt);
    chars := snp.charcount;
    if len > 0 {
      ghost var stored := buf[..snp.bufpos];
      buf[snp.bufpos] := 0 as char;
      assert buf[..snp.bufpos] == stored;
    }
  }

  lemma PaddedParts(f: Field, o: string, prefix: string, prefix2: string, stuff: string, pad: string, out: string)
    requires pad == Repeat(f.fillchar, if f.spacing > |prefix| + |prefix2| + |stuff| then f.spacing - (|prefix| + |prefix2| + |stuff|) else 0)
    requires out == o + (if !f.rightspc && f.fillchar != '0' then pad else "") + prefix + prefix2
                      + (if !f.rightspc && f.fillchar == '0' then pad else "") + stuff + (if f.rightspc then pad else "")
    ensures out == o + Padded(f, prefix + prefix2, stuff)
  {}
}

/** common/libc/stdlib/atoi.c, and the round trip with printf. */
module Atoi {
  import opened Numerals
  import Words
  import Printf

  predicate Blank(c: char) { c == ' ' || c == '\t' }
  predicate Decimal(c: char) { '0' <= c <= '9' }

  function SkipBlanks(s: string): string {
    if s != "" && Blank(s[0]) then SkipBlanks(s[1..]) else s
  }

  /** The longest prefix of decimal digits. */
  function DigitPrefix(s: string): string {
    if s != "" && Decimal(s[0]) then [s[0]] + DigitPrefix(s[1..]) else ""
  }

  /** The value of the leading digits, in unsigned 32-bit arithmetic. */
  function Unsigned(u: string): Words.word { Words.Word(Denotes(DigitPrefix(u), 10)) }

  /** Blanks, a sign, digits: their value in 32-bit arithmetic. */
  function Meaning(s: string): int {
    var t := SkipBlanks(s);
    if t != "" && t[0] == '-' then Words.SignedWord(Words.NegWord(Unsigned(t[1..])))
    else if t != "" && t[0] == '+' then Words.SignedWord(Unsigned(t[1..]))
    else Words.SignedWord(Unsigned(t))
  }

  /** The digit loop of atoi, from position p on. */
  method ParseDigits(s: string, start: nat) returns (val: Words.word)
    requires start <= |s|
    ensures val == Unsigned(s[start..])
  {
    var p := start;
    val := 0;
    ghost var seen := s[start..p];
    while p < |s| && Decimal(s[p])
      invariant start <= p <= |s| && seen == s[start..p]
      invariant val == Words.Word(Denotes(seen, 10))
      invariant DigitPrefix(s[start..]) == seen + DigitPrefix(s[p..])
    {
      NextDigit(s, start, p);
      val := Words.Word(val * 10 + DigitOf(s[p]));
      p := p + 1;
      seen := s[start..p];
    }
    assert DigitPrefix(s[p..]) == "";
    assert seen + "" == seen;
  }

  lemma NextDigit(s: string, start: nat, p: nat)
    requires start <= p < |s| && Decimal(s[p])
    ensures Words.Word(Words.Word(Denotes(s[start..p], 10)) as int * 10 + DigitOf(s[p])) == Words.Word(Denotes(s[start..p + 1], 10))
    ensures s[start..p] + DigitPrefix(s[p..]) == s[start..p + 1] + DigitPrefix(s[p + 1..])
  {
    assert s[start..p + 1] == s[start..p] + [s[p]];
    DenotesSnoc(s[start..p], s[p], 10);
    MulAddWord(Denotes(s[start..p], 10), DigitOf(s[p]));
    assert s[p..][1..] == s[p + 1..];
  }

  /** atoi on a string (without its NUL). */
  method Atoi(s: string) returns (r: int)
    ensures r == Meaning(s)
  {
    var p: nat := 0;
    assert s[0..] == s;
    while p < |s| && Blank(s[p])
      invariant p <= |s| && SkipBlanks(s[p..]) == SkipBlanks(s)
    {
      assert s[p..][1..] == s[p + 1..];
      p := p + 1;
    }
    ghost var t := s[p..];
    assert SkipBlanks(t) == t;
    var neg := false;
    if p < |s| && s[p] == '-' {
      neg := true;
      p := p + 1;
      assert t[1..] == s[p..];
    } else if p < |s| && s[p] == '+' {
      p := p + 1;
      assert t[1..] == s[p..];
    }
    var val := ParseDigits(s, p);
    r := Words.SignedWord(if neg then Words.NegWord(val) else val);
  }

  lemma MulAddWord(x: nat, d: nat)
    ensures Words.Word(Words.Word(x) as int * 10 + d) == Words.Word(x * 10 + d)
  {
    var q, r: int := x / Words.W, Words.Word(x);
    assert x * 10 + d == (r * 10 + d) + (q * 10) * Words.W;
    var y := r * 10 + d;
    Words.DivModUnique(x * 10 + d, Words.W, y / Words.W + q * 10, y % Words.W);
  }

  // ------------------------------------------------- what atoi reads

  /** Any text of blanks, a sign or none, and decimal digits, up to something that
      is not a digit: the digits' value in 32-bit arithmetic, negated for '-'. */
  lemma MeaningOfText(blanks: string, sign: string, d: string, rest: string)
    requires forall i :: 0 <= i < |blanks| ==> blanks[i] == ' ' || blanks[i] == '\t'
    requires sign == "" || sign == "-" || sign == "+"
    requires forall i :: 0 <= i < |d| ==> '0' <= d[i] <= '9'
    requires rest == "" || !('0' <= rest[0] <= '9')
    requires sign == "" && d == "" && rest != "" ==> rest[0] !in " \t-+"
    ensures var v := Denotes(d, 10) % 0x1_0000_0000;
      Meaning(blanks + (sign + (d + rest)))
      == Words.SignedWord(if sign != "-" then v else if v == 0 then 0 else 0x1_0000_0000 - v)
  {
    FirstChar(sign, d, rest);
    SkipTheBlanks(blanks, sign + (d + rest));
    StopAtRest(d, rest);
    SignedMeaning(blanks + (sign + (d + rest)), sign, d + rest);
  }

  lemma FirstChar(sign: string, d: string, rest: string)
    requires sign == "" || sign == "-" || sign == "+"
    requires d != "" ==> '0' <= d[0] <= '9'
    requires sign == "" && d == "" && rest != "" ==> rest[0] !in " \t-+"
    ensures var t := sign + (d + rest); t != "" ==> !Blank(t[0]) && (sign == "" ==> t[0] != '-' && t[0] != '+')
  {
    if sign == "" && d == "" && rest != "" {
      assert sign + (d + rest) == rest;
      assert " \t-+"[0] == ' ' && " \t-+"[1] == '\t' && " \t-+"[2] == '-' && " \t-+"[3] == '+';
    }
  }

  lemma SignedMeaning(s: string, sign: string, u: string)
    requires SkipBlanks(s) == sign + u && (sign == "-" || sign == "+" || (sign == "" && (u != "" ==> u[0] != '-' && u[0] != '+')))
    ensures Meaning(s) == Words.SignedWord(if sign == "-" then Words.NegWord(Unsigned(u)) else Unsigned(u))
  {
    if sign == "" { assert sign + u == u; } else { assert (sign + u)[1..] == u; }
  }

  lemma {:induction false} SkipTheBlanks(blanks: string, t: string)
    requires (forall i :: 0 <= i < |blanks| ==> Blank(blanks[i])) && (t != "" ==> !Blank(t[0]))
    ensures SkipBlanks(blanks + t) == t
    decreases |blanks|
  {
    if blanks == "" {
      assert blanks + t == t;
    } else {
      assert (blanks + t)[0] == blanks[0] && (blanks + t)[1..] == blanks[1..] + t;
      SkipTheBlanks(blanks[1..], t);
    }
  }

  lemma {:induction false} StopAtRest(d: string, rest: string)
    requires (forall i :: 0 <= i < |d| ==> Decimal(d[i])) && (rest != "" ==> !Decimal(rest[0]))
    ensures DigitPrefix(d + rest) == d
    decreases |d|
  {
    if d == "" {
      assert d + rest == rest;
    } else {
      assert (d + rest)[0] == d[0] && (d + rest)[1..] == d[1..] + rest;
      StopAtRest(d[1..], rest);
      assert d == [d[0]] + d[1..];
    }
  }

  // -------------------------------------------------------- the round trip

  lemma {:induction false} PrefixOfDigits(s: string)
    requires forall i :: 0 <= i < |s| ==> Decimal(s[i])
    ensures DigitPrefix(s) == s
  {
    if s != "" {
      PrefixOfDigits(s[1..]);
      assert s == [s[0]] + s[1..];
    }
  }

  lemma {:induction false} DecimalDigits(n: nat)
    ensures forall i :: 0 <= i < |Digits(n, 10)| ==> Decimal(Digits(n, 10)[i])
    decreases n
  {
    if n < 10 {
      DigitRoundTrip(n);
    } else {
      DecimalDigits(n / 10);
      DigitRoundTrip(n % 10);
    }
  }

  lemma UnsignedOfNumeral(n: nat)
    requires n < Words.W
    ensures Unsigned(Digits(n, 10)) == n && Decimal(Digits(n, 10)[0])
  {
    DecimalDigits(n);
    PrefixOfDigits(Digits(n, 10));
    DigitsDenote(n, 10);
  }

  /** The text of an optional sign and a numeral means the number it shows. */
  lemma MeaningOfNumeral(n: nat, neg: bool)
    requires n < Words.W
    ensures Meaning((if neg then "-" else "") + Digits(n, 10)) == Words.SignedWord(if neg then Words.NegWord(n) else n)
  {
    UnsignedOfNumeral(n);
    SignedText(Digits(n, 10), neg);
  }

  lemma SignedText(d: string, neg: bool)
    requires d != "" && Decimal(d[0])
    ensures Meaning((if neg then "-" else "") + d) == Words.SignedWord(if neg then Words.NegWord(Unsigned(d)) else Unsigned(d))
  {
    var t := (if neg then "-" else "") + d;
    assert SkipBlanks(t) == t;
    if neg { assert t[1..] == d; } else { assert t == d; }
  }

  /** What %d prints for a 32-bit integer. */
  lemma RenderDecimal(n: int)
    requires -Words.W / 2 <= n < Words.W / 2
    ensures Printf.Render(Printf.NoField, [Printf.Num(n)], 0, "%d")
            == (if n < 0 then "-" else "") + Digits(if n < 0 then -n else n, 10)
  {
    var args, f0 := [Printf.Num(n)], Printf.NoField;
    var f1 := f0.(inPct := true);
    assert "%d"[1..] == "d" && "d"[1..] == "";
    assert Printf.Step(f0, args, 0, '%') == Printf.Effect(f1, 0, "");
    GetDecimal(n);
    var e := Printf.Step(f1, args, 0, 'd');
    assert Printf.BasePrefix(false, 'd') == "";
    var m := Words.Abs(n);
    var prefix := if n < 0 then "-" else "";
    assert prefix + "" == prefix;
    assert Printf.Padded(f1, prefix, Digits(m, 10)) == prefix + Digits(m, 10);
    assert e.text == prefix + Digits(m, 10);
    assert Printf.Render(f1, args, 0, "d") == e.text + "";
  }

  lemma GetDecimal(n: int)
    requires -Words.W / 2 <= n < Words.W / 2
    ensures Printf.Shown(n, Printf.INTSZ, 'd') == n
  {}

  /** For every 32-bit n: printing n with %d and reading it back gives n. */
  lemma PrintParseRoundTrip(n: int)
    requires -Words.W / 2 <= n < Words.W / 2
    ensures Meaning(Printf.Render(Printf.NoField, [Printf.Num(n)], 0, "%d")) == n
  {
    RenderDecimal(n);
    MeaningOfNumeral(if n < 0 then -n else n, n < 0);
  }

  /** The same through the code: snprintf into a buffer of at least 12 characters,
      then atoi of the string found there. */
  method PrintThenParse(n: int, buf: array<char>) returns (r: int)
    requires -Words.W / 2 <= n < Words.W / 2 && buf.Length >= 12
    modifies buf
    ensures r == n
  {
    RenderDecimal(n);
    DecimalLength(if n < 0 then -n else n);
    PrintParseRoundTrip(n);
    var len := Printf.Vsnprintf(buf, buf.Length, "%d", [Printf.Num(n)]);
    ghost var text := Printf.Render(Printf.NoField, [Printf.Num(n)], 0, "%d");
    assert text[..|text|] == text;
    r := Atoi(buf[..len]);
  }

  lemma DecimalLength(n: nat)
    requires n <= Words.W / 2
    ensures |Digits(n, 10)| <= 10
  {
    DigitsLength(n, 10, 10);
    assert Power(10, 5) == 100000;
    PowerAdd(10, 5, 5);
  }
}
