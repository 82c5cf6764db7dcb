/**
 * JavaScript numbers as exact decimals, and the two conversions the status
 * normaliser leans on: `String(n)` for a finite number and `Number(s)` for a
 * string. A finite number is a canonical decimal `mantissa / 10^scale`, so the
 * model is free of binary floating-point rounding; equal numbers have equal
 * representations.
 */
module Numbers {
  import opened Wrappers

  datatype DecRep = DecRep(mantissa: int, scale: nat)

  /** Canonical decimals: a fractional mantissa never ends in a zero digit. */
  type Dec = d: DecRep | d.scale == 0 || d.mantissa % 10 != 0 witness DecRep(0, 0)

  /** The outcome of JavaScript's `Number(...)`: a finite number, NaN or an infinity. */
  datatype Numeric = Finite(d: Dec) | NaN | PosInfinity | NegInfinity

  function Int(n: int): Dec {
    DecRep(n, 0)
  }

  function Pow10(k: nat): (r: nat)
    ensures r >= 1
  {
    if k == 0 then 1 else 10 * Pow10(k - 1)
  }

  /** Drops trailing zero digits of the fraction; the value is unchanged. */
  function Canonical(d: DecRep): Dec
    decreases d.scale
  {
    if d.scale > 0 && d.mantissa % 10 == 0 then Canonical(DecRep(d.mantissa / 10, d.scale - 1)) else d
  }

  lemma NegModTen(m: int)
    ensures (m % 10 == 0) == ((-m) % 10 == 0)
  {
    if m % 10 == 0 {
      assert -m == 10 * (-(m / 10));
    }
    if (-m) % 10 == 0 {
      assert m == 10 * (-((-m) / 10));
    }
  }

  function Negate(d: Dec): Dec {
    NegModTen(d.mantissa);
    DecRep(-d.mantissa, d.scale)
  }

  /** Unary minus on the outcome of a conversion. */
  function NegateNumeric(x: Numeric): Numeric {
    match x
    case Finite(d) => Finite(Negate(d))
    case NaN => NaN
    case PosInfinity => NegInfinity
    case NegInfinity => PosInfinity
  }

  /** JavaScript's `x <= n` for a converted operand `x` and an integer `n`: NaN compares false. */
  predicate NumericAtMost(x: Numeric, n: int) {
    match x
    case Finite(d) => d.mantissa <= n * Pow10(d.scale)
    case NaN => false
    case PosInfinity => false
    case NegInfinity => true
  }

  // ---------------------------------------------------------------- digits

  predicate IsDigit(c: char) {
    '0' <= c <= '9'
  }

  function DigitValue(c: char): nat
    requires IsDigit(c)
  {
    (c as int) - ('0' as int)
  }

  function DigitChar(n: nat): char
    requires n < 10
  {
    ('0' as int + n) as char
  }

  predicate AllDigits(s: string) {
    forall i :: 0 <= i < |s| ==> IsDigit(s[i])
  }

  /** The natural number spelled by a string of decimal digits. */
  function DigitsValue(s: string): nat
    requires AllDigits(s)
    decreases |s|
  {
    if s == [] then 0 else DigitsValue(s[..|s| - 1]) * 10 + DigitValue(s[|s| - 1])
  }

  /** The decimal digits of `n`, without leading zeros. */
  function NatToDigits(n: nat): (r: string)
    ensures |r| > 0 && AllDigits(r)
    decreases n
  {
    if n < 10 then [DigitChar(n)] else NatToDigits(n / 10) + [DigitChar(n % 10)]
  }

  function Zeros(k: nat): (r: string)
    ensures |r| == k && AllDigits(r)
  {
    seq(k, _ => '0')
  }

  function PadDigits(s: string, width: nat): (r: string)
    requires AllDigits(s)
    ensures AllDigits(r) && |r| == if |s| >= width then |s| else width
  {
    if |s| >= width then s else Zeros(width - |s|) + s
  }

  /** `String(d)` for a finite number, in plain (non-exponent) decimal notation. */
  function NumToString(d: Dec): (r: string)
    ensures |r| > 0
  {
    var a := if d.mantissa < 0 then -d.mantissa else d.mantissa;
    (if d.mantissa < 0 then "-" else "") + UnsignedText(a, d.scale)
  }

  /** The digits of `a / 10^scale`, then (for a positive scale) a point and exactly `scale` fraction digits. */
  function UnsignedText(a: nat, scale: nat): (u: string)
    ensures |u| > 0 && IsDigit(u[0]) && IsDigit(u[|u| - 1])
  {
    if scale == 0 then NatToDigits(a)
    else
      var p := Pow10(scale);
      DivModSplit(a, p);
      var w := NatToDigits(a / p);
      var f := PadDigits(NatToDigits(a % p), scale);
      var u := w + "." + f;
      assert u[0] == w[0] && u[|u| - 1] == f[|f| - 1];
      u
  }

  /** `String(n)` for an integer `n`, as a template literal `${n}` renders it. */
  function IntToString(n: int): (r: string)
    ensures |r| > 0
  {
    NumToString(Int(n))
  }

  // ------------------------------------------------------------ whitespace

  /** The characters `String.prototype.trim` and `Number(...)` strip: white space and line terminators. */
  predicate IsWhite(c: char) {
    c == '\t' || c == '\n' || c == '\U{000B}' || c == '\U{000C}' || c == '\r' || c == ' '
    || c == '\U{00A0}' || c == '\U{1680}' || ('\U{2000}' <= c <= '\U{200A}')
    || c == '\U{2028}' || c == '\U{2029}' || c == '\U{202F}' || c == '\U{205F}'
    || c == '\U{3000}' || c == '\U{FEFF}'
  }

  function TrimStart(s: string): string {
    if s != [] && IsWhite(s[0]) then TrimStart(s[1..]) else s
  }

  function TrimEnd(s: string): string {
    if s != [] && IsWhite(s[|s| - 1]) then TrimEnd(s[..|s| - 1]) else s
  }

  function Trim(s: string): string {
    TrimEnd(TrimStart(s))
  }

  // --------------------------------------------------------------- parsing

  function IndexOf(s: string, c: char): (k: nat)
    ensures k <= |s|
    ensures k < |s| ==> s[k] == c
    ensures forall i :: 0 <= i < k ==> s[i] != c
  {
    if s == [] then 0 else if s[0] == c then 0 else 1 + IndexOf(s[1..], c)
  }

  /** `digits [. digits]`, `digits .` or `. digits`; `None` for anything else. */
  function ParseUnsignedDecimal(t: string): Option<Dec> {
    var k := IndexOf(t, '.');
    var whole := t[..k];
    var frac := if k < |t| then t[k + 1..] else "";
    var digits := whole + frac;
    if |digits| > 0 && AllDigits(digits) then Some(Canonical(DecRep(DigitsValue(digits), |frac|))) else None
  }

  function UnsignedToNumber(t: string): Numeric {
    if t == "Infinity" then PosInfinity
    else
      match ParseUnsignedDecimal(t)
      case Some(d) => Finite(d)
      case None => NaN
  }

  /**
   * `Number(s)` for a string: surrounding white space is ignored, an empty
   * string is 0, an optional sign precedes a decimal literal or `Infinity`,
   * and anything else is NaN.
   */
  function StringToNumber(s: string): Numeric {
    var t := Trim(s);
    if t == [] then Finite(Int(0))
    else if t[0] == '-' then NegateNumeric(UnsignedToNumber(t[1..]))
    else if t[0] == '+' then UnsignedToNumber(t[1..])
    else UnsignedToNumber(t)
  }

  // ---------------------------------------------------------------- lemmas

  lemma {:induction false} DigitsValueAppend(x: string, y: string)
    requires AllDigits(x) && AllDigits(y)
    ensures AllDigits(x + y)
    ensures DigitsValue(x + y) == DigitsValue(x) * Pow10(|y|) + DigitsValue(y)
    decreases |y|
  {
    assert AllDigits(x + y) by {
      forall i | 0 <= i < |x + y| ensures IsDigit((x + y)[i]) {
        if i >= |x| { assert (x + y)[i] == y[i - |x|]; }
      }
    }
    if y == [] {
      assert x + y == x;
    } else {
      var y' := y[..|y| - 1];
      var c := y[|y| - 1];
      assert AllDigits(y');
      assert (x + y)[..|x + y| - 1] == x + y';
      DigitsValueAppend(x, y');
      assert (x + y)[|x + y| - 1] == c;
      assert DigitsValue(x + y) == DigitsValue(x + y') * 10 + DigitValue(c);
      assert y[..|y| - 1] == y';
      assert DigitsValue(y) == DigitsValue(y') * 10 + DigitValue(c);
      ShiftDigit(DigitsValue(x), Pow10(|y'|), DigitsValue(y'), DigitValue(c));
    }
  }

  lemma ShiftDigit(a: int, p: int, b: int, d: int)
    ensures (a * p + b) * 10 + d == a * (10 * p) + (b * 10 + d)
  {
  }

  lemma {:induction false} NatToDigitsValue(n: nat)
    ensures DigitsValue(NatToDigits(n)) == n
    decreases n
  {
    var s := NatToDigits(n);
    if n < 10 {
      assert s[..0] == [];
    } else {
      var h := NatToDigits(n / 10);
      assert s == h + [DigitChar(n % 10)];
      assert s[..|s| - 1] == h;
      NatToDigitsValue(n / 10);
    }
  }

  /** Distinct numbers have distinct digit strings. */
  lemma NatToDigitsInjective(m: nat, n: nat)
    ensures NatToDigits(m) == NatToDigits(n) ==> m == n
  {
    NatToDigitsValue(m);
    NatToDigitsValue(n);
  }

  lemma {:induction false} ZerosValue(k: nat)
    ensures DigitsValue(Zeros(k)) == 0
  {
    if k > 0 {
      assert Zeros(k)[..k - 1] == Zeros(k - 1);
      ZerosValue(k - 1);
    }
  }

  lemma {:induction false} NatToDigitsLength(n: nat, k: nat)
    requires k >= 1 && n < Pow10(k)
    ensures |NatToDigits(n)| <= k
    decreases n
  {
    if n >= 10 {
      assert k >= 2;
      assert n / 10 < Pow10(k - 1);
      NatToDigitsLength(n / 10, k - 1);
    }
  }

  lemma PadDigitsValue(s: string, width: nat)
    requires AllDigits(s)
    ensures DigitsValue(PadDigits(s, width)) == DigitsValue(s)
  {
    if |s| < width {
      DigitsValueAppend(Zeros(width - |s|), s);
      ZerosValue(width - |s|);
    }
  }

  lemma {:induction false} TrimNoWhite(s: string)
    requires s != [] && !IsWhite(s[0]) && !IsWhite(s[|s| - 1])
    ensures Trim(s) == s
  {
  }

  lemma NoDot(s: string)
    requires AllDigits(s)
    ensures IndexOf(s, '.') == |s|
  {
  }

  lemma ParseWholeDigits(w: string)
    requires |w| > 0 && AllDigits(w)
    ensures UnsignedToNumber(w) == Finite(Canonical(DecRep(DigitsValue(w), 0)))
  {
    NoDot(w);
    assert w[..|w|] == w;
    assert w + "" == w;
    assert w[0] != 'I';
  }

  lemma ParseDottedDigits(w: string, f: string)
    requires |w| > 0 && AllDigits(w) && AllDigits(f)
    ensures AllDigits(w + f)
    ensures UnsignedToNumber(w + "." + f) == Finite(Canonical(DecRep(DigitsValue(w + f), |f|)))
  {
    DigitsValueAppend(w, f);
    var t := w + "." + f;
    NoDot(w);
    assert t[|w|] == '.';
    forall i | 0 <= i < |w| ensures t[i] != '.' { assert t[i] == w[i]; }
    assert IndexOf(t, '.') == |w|;
    assert t[..|w|] == w;
    assert t[|w| + 1..] == f;
    assert t[0] == w[0];
    assert t != "Infinity";
  }

  lemma DivModSplit(a: nat, p: nat)
    requires p > 0
    ensures a / p >= 0 && a / p * p + a % p == a && 0 <= a % p < p
  {
  }

  lemma CanonicalFixed(d: DecRep)
    requires d.scale == 0 || d.mantissa % 10 != 0
    ensures Canonical(d) == d
  {
  }

  /** An unsigned rendering parses back to the same magnitude. */
  lemma UnsignedRoundTrip(a: nat, scale: nat)
    requires scale > 0 && a % 10 != 0
    ensures UnsignedToNumber(NatToDigits(a / Pow10(scale)) + "." + PadDigits(NatToDigits(a % Pow10(scale)), scale))
            == Finite(DecRep(a, scale))
  {
    var p := Pow10(scale);
    var q := a / p;
    var r := a % p;
    DivModSplit(a, p);
    var w := NatToDigits(q);
    var g := NatToDigits(r);
    var f := PadDigits(g, scale);
    NatToDigitsLength(r, scale);
    assert |f| == scale;
    ParseDottedDigits(w, f);
    DigitsValueAppend(w, f);
    NatToDigitsValue(q);
    PadDigitsValue(g, scale);
    NatToDigitsValue(r);
    assert DigitsValue(w + f) == q * p + r;
    CanonicalFixed(DecRep(a, scale));
  }

  /** Reading back the decimal text of a finite number gives the same number: `Number(String(d)) === d`. */
  lemma NumberStringRoundTrip(d: Dec)
    ensures StringToNumber(NumToString(d)) == Finite(d)
  {
    var m := d.mantissa;
    var a: nat := if m < 0 then -m else m;
    NegModTen(m);
    var u := UnsignedText(a, d.scale);
    UnsignedTextRoundTrip(a, d.scale);
    SignedParse(u);
    if m < 0 {
      assert NumToString(d) == "-" + u;
      assert Negate(DecRep(a, d.scale)) == d;
    } else {
      assert NumToString(d) == u;
    }
  }

  lemma UnsignedTextRoundTrip(a: nat, scale: nat)
    requires scale == 0 || a % 10 != 0
    ensures UnsignedToNumber(UnsignedText(a, scale)) == Finite(DecRep(a, scale))
  {
    if scale == 0 {
      ParseWholeDigits(NatToDigits(a));
      NatToDigitsValue(a);
      CanonicalFixed(DecRep(a, 0));
    } else {
      UnsignedRoundTrip(a, scale);
    }
  }

  lemma SignedParse(u: string)
    requires |u| > 0 && IsDigit(u[0]) && IsDigit(u[|u| - 1])
    ensures StringToNumber(u) == UnsignedToNumber(u)
    ensures StringToNumber("-" + u) == NegateNumeric(UnsignedToNumber(u))
  {
    TrimNoWhite(u);
    TrimNoWhite("-" + u);
    assert ("-" + u)[1..] == u;
  }

  /** Integer form of the round trip: the text a template literal renders for `n` spells `n`. */
  lemma IntStringRoundTrip(n: int)
    ensures StringToNumber(IntToString(n)) == Finite(Int(n))
  {
    NumberStringRoundTrip(Int(n));
  }
}
