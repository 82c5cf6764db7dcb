/**
 * The defensive field readers of the status normaliser (src/state.ts,
 * `obj` … `hasAny`): each one is total and turns whatever the device sent
 * into a typed value or "absent".
 */
module Coerce {
  import opened Wrappers
  import opened Numbers
  import opened JsValue
  import opened PrinterTypes

  /** `obj(v)`: the value itself when it is a non-null object (arrays included). */
  function ObjU(v: Value): (r: Option<Value>)
    ensures r.Some? <==> IsObject(v)
    ensures r.Some? ==> r.value == v
  {
    if IsObject(v) then Some(v) else None
  }

  /** `arr(v)`: the elements of an array, the empty list for anything else. */
  function ArrOf(v: Value): (r: seq<Value>)
    ensures v.Arr? ==> r == v.items
    ensures !v.Arr? ==> r == []
  {
    if v.Arr? then v.items else []
  }

  /** `str(v, d)`: a string as is, `d` for null and undefined, `String(v)` otherwise. */
  function StrOr(v: Value, d: string): (r: string)
    ensures IsNullish(v) ==> r == d
    ensures !IsNullish(v) ==> r == ToStr(v)
  {
    if v.Str? then v.s else if IsNullish(v) then d else ToStr(v)
  }

  /** `strU(v)`: absent for null and undefined, `String(v)` otherwise. */
  function StrU(v: Value): (r: Option<string>)
    ensures r.None? <==> IsNullish(v)
    ensures !IsNullish(v) ==> r == Some(ToStr(v))
    ensures v.Str? ==> r == Some(v.s)
  {
    if IsNullish(v) then None else Some(ToStr(v))
  }

  /** `num(v, d)`: `Number(v)` when finite, `d` otherwise. */
  function NumOr(v: Value, d: Dec): Dec {
    match ToNumber(v)
    case Finite(n) => n
    case _ => d
  }

  /** `numU(v)`: `Number(v)` when finite, absent otherwise. */
  function NumU(v: Value): Option<Dec> {
    match ToNumber(v)
    case Finite(n) => Some(n)
    case _ => None
  }

  /** `boolU(v)`: booleans and the two strings "true" and "false"; absent for anything else. */
  function BoolU(v: Value): (r: Option<bool>)
    ensures r.Some? <==> v.Bool? || v == Str("true") || v == Str("false")
    ensures r == Some(true) <==> v == Bool(true) || v == Str("true")
  {
    match v
    case Bool(b) => Some(b)
    case Str(s) => if s == "true" then Some(true) else if s == "false" then Some(false) else None
    case _ => None
  }

  /** `emptyToUndef(s)`: absent when missing or blank after trimming. */
  function EmptyToUndef(s: Option<string>): (r: Option<string>)
    ensures r.Some? <==> s.Some? && Trim(s.value) != []
    ensures r.Some? ==> r == s
  {
    if s.Some? && s.value != [] && |Trim(s.value)| > 0 then s else None
  }

  /** `hasAny(o, keys)`: some listed key is not undefined on `o`. */
  predicate HasAny(o: Value, keys: seq<string>) {
    exists i :: 0 <= i < |keys| && Member(o, keys[i]) != Undefined
  }

  /** `some` over no keys is false; one more key adds exactly that key's test. */
  lemma HasAnySnoc(o: Value, keys: seq<string>, k: string)
    ensures !HasAny(o, [])
    ensures HasAny(o, keys + [k]) <==> HasAny(o, keys) || Member(o, k) != Undefined
  {
    var ks := keys + [k];
    if HasAny(o, ks) && Member(o, k) == Undefined {
      var i :| 0 <= i < |ks| && Member(o, ks[i]) != Undefined;
      assert i < |keys| && ks[i] == keys[i];
    }
    if HasAny(o, keys) {
      var i :| 0 <= i < |keys| && Member(o, keys[i]) != Undefined;
      assert ks[i] == keys[i];
    }
    if Member(o, k) != Undefined {
      assert ks[|keys|] == k;
    }
  }

  // ---------------------------------------------------------------- lights

  /** The index `list.find(x => x?.node === node)` stops at, or `|list|` when none matches. */
  function FirstWithNode(list: seq<Value>, node: string): (i: nat)
    ensures i <= |list|
    ensures i < |list| ==> Member(list[i], "node") == Str(node)
    ensures forall j :: 0 <= j < i ==> Member(list[j], "node") != Str(node)
  {
    if list == [] then 0
    else if Member(list[0], "node") == Str(node) then 0
    else 1 + FirstWithNode(list[1..], node)
  }

  function ModeName(m: LightMode): string {
    match m
    case On => "on"
    case Off => "off"
    case Flashing => "flashing"
  }

  /** `findLightMode(list, node)`: the mode of the first entry for `node`, if it is one of the three known. */
  function FindLightMode(list: seq<Value>, node: string): Option<LightMode> {
    var i := FirstWithNode(list, node);
    var hit := if i < |list| then list[i] else Undefined;
    var m := Member(hit, "mode");
    if !Truthy(m) then None
    else if m == Str("on") then Some(On)
    else if m == Str("off") then Some(Off)
    else if m == Str("flashing") then Some(Flashing)
    else None
  }

  // ---------------------------------------------------------- text scanning

  /** Length of the run of decimal digits in `s` that starts at `i`. */
  function DigitRun(s: string, i: nat): (n: nat)
    requires i <= |s|
    ensures i + n <= |s|
    ensures forall j :: i <= j < i + n ==> IsDigit(s[j])
    ensures i + n == |s| || !IsDigit(s[i + n])
    decreases |s| - i
  {
    if i < |s| && IsDigit(s[i]) then 1 + DigitRun(s, i + 1) else 0
  }

  /** Where the leftmost match of `/-?\d+/` in `s` begins, searching from `i`. */
  function SignedIntStart(s: string, i: nat): (r: Option<nat>)
    requires i <= |s|
    ensures r.Some? ==> i <= r.value < |s|
    decreases |s| - i
  {
    if i == |s| then None
    else if IsDigit(s[i]) || (s[i] == '-' && i + 1 < |s| && IsDigit(s[i + 1])) then Some(i)
    else SignedIntStart(s, i + 1)
  }

  /** The integer spelled by the `/-?\d+/` match that starts at `i`. */
  function SignedIntAt(t: string, i: nat): int
    requires i < |t|
  {
    var neg := t[i] == '-';
    var j := if neg then i + 1 else i;
    var n := DigitRun(t, j);
    assert AllDigits(t[j..j + n]);
    var magnitude: int := DigitsValue(t[j..j + n]);
    if neg then -magnitude else magnitude
  }

  /** `parseDbmU(s)`: the integer spelled by the first `/-?\d+/` in `s`; absent for missing or empty text or no match. */
  function ParseDbmU(s: Option<string>): Option<int> {
    if s.None? || s.value == [] then None
    else
      match SignedIntStart(s.value, 0)
      case None => None
      case Some(i) => Some(SignedIntAt(s.value, i))
  }

  /** Where the first decimal digit of `s` is, searching from `i`. */
  function FirstDigit(s: string, i: nat): (r: Option<nat>)
    requires i <= |s|
    ensures r.Some? ==> i <= r.value < |s| && IsDigit(s[r.value])
    ensures r.None? ==> forall j :: i <= j < |s| ==> !IsDigit(s[j])
    decreases |s| - i
  {
    if i == |s| then None else if IsDigit(s[i]) then Some(i) else FirstDigit(s, i + 1)
  }

  /** The end of the leftmost match of `/\d+(?:\.\d+)?/` that starts at digit position `i`. */
  function ProgressMatchEnd(s: string, i: nat): (e: nat)
    requires i < |s|
    ensures i < e <= |s|
  {
    var w := i + DigitRun(s, i);
    if w + 1 < |s| && s[w] == '.' && IsDigit(s[w + 1]) then w + 1 + DigitRun(s, w + 1) else if w == i then i + 1 else w
  }

  /** `parseProgressPct(p)`: the first unsigned decimal in `String(p)`; absent for null, undefined, "" or no digit. */
  function ParseProgressPct(p: Value): (r: Option<Dec>)
    ensures IsNullish(p) || p == Str("") ==> r.None?
    ensures r.Some? ==> exists j :: 0 <= j < |ToStr(p)| && IsDigit(ToStr(p)[j])
  {
    if IsNullish(p) || p == Str("") then None
    else
      var s := ToStr(p);
      match FirstDigit(s, 0)
      case None => None
      case Some(i) => ParseUnsignedDecimal(s[i..ProgressMatchEnd(s, i)])
  }

  /** `parseNozzleDiameterU(v)`: a finite number, else the text; absent for null, undefined and "". */
  function ParseNozzleDiameterU(v: Value): (r: Option<NozzleDiameter>)
    ensures r.None? <==> IsNullish(v) || v == Str("")
    ensures r.Some? && ToNumber(v).Finite? ==> r.value == DiameterNumber(ToNumber(v).d)
    ensures r.Some? && !ToNumber(v).Finite? ==> r.value == DiameterText(ToStr(v))
  {
    if IsNullish(v) || v == Str("") then None
    else
      match ToNumber(v)
      case Finite(n) => Some(DiameterNumber(n))
      case _ => Some(DiameterText(ToStr(v)))
  }

  // ---------------------------------------------------------------- lemmas

  /** `numU` is present exactly when `Number(v)` is finite, and then equals it. */
  lemma NumUFinite(v: Value)
    ensures NumU(v).Some? <==> ToNumber(v).Finite?
    ensures NumU(v).Some? ==> ToNumber(v) == Finite(NumU(v).value)
  {
  }

  /**
   * The coercions JavaScript's `Number` makes: the empty string and null
   * read as 0 (so they are present, not absent), undefined is absent, and
   * a number reads as itself.
   */
  lemma NumUCases(d: Dec)
    ensures NumU(Str("")) == Some(Int(0))
    ensures NumU(Null) == Some(Int(0))
    ensures NumU(Undefined) == None
    ensures NumU(Number(d)) == Some(d)
  {
    assert Trim("") == "";
  }

  /** The text of a finite number reads back as that number. */
  lemma NumUText(d: Dec)
    ensures NumU(Str(NumToString(d))) == Some(d)
  {
    var s := NumToString(d);
    NumberStringRoundTrip(d);
    assert ToNumber(Str(s)) == StringToNumber(s);
  }

  /** Text that does not start like a numeral is absent, not 0. */
  lemma NumUNonNumeral(s: string)
    requires s != [] && !IsWhite(s[0]) && !IsWhite(s[|s| - 1])
    requires !IsDigit(s[0]) && s[0] !in {'-', '+', '.', 'I'}
    ensures NumU(Str(s)) == None
  {
    TrimNoWhite(s);
    var k := IndexOf(s, '.');
    assert k > 0;
    var whole := s[..k];
    var frac := if k < |s| then s[k + 1..] else "";
    assert (whole + frac)[0] == s[0];
    assert ParseUnsignedDecimal(s) == None;
  }

  lemma NumUNotANumber()
    ensures NumU(Str("not-a-number")) == None
  {
    NumUNonNumeral("not-a-number");
  }

  /** `num(v, d)` agrees with `numU(v)` and falls back to `d`. */
  lemma NumOrDefault(v: Value, d: Dec)
    ensures NumOr(v, d) == NumU(v).GetOr(d)
  {
  }

  /**
   * `findLightMode` answers the mode of the FIRST entry whose `node` matches,
   * provided that mode is "on", "off" or "flashing"; otherwise it is absent,
   * even when a later entry for the same node carries a valid mode.
   */
  lemma FindLightModeFirstMatch(list: seq<Value>, node: string, i: nat)
    requires i < |list| && Member(list[i], "node") == Str(node)
    requires forall j :: 0 <= j < i ==> Member(list[j], "node") != Str(node)
    ensures forall m :: FindLightMode(list, node) == Some(m) <==> Member(list[i], "mode") == Str(ModeName(m))
  {
    var k := FirstWithNode(list, node);
    assert k == i;
  }

  /** No entry for `node`: absent. */
  lemma FindLightModeNoMatch(list: seq<Value>, node: string)
    requires forall j :: 0 <= j < |list| ==> Member(list[j], "node") != Str(node)
    ensures FindLightMode(list, node) == None
  {
    assert FirstWithNode(list, node) == |list|;
  }

  lemma {:induction false} DigitRunExact(s: string, i: nat, n: nat)
    requires i + n <= |s|
    requires forall j :: i <= j < i + n ==> IsDigit(s[j])
    requires i + n == |s| || !IsDigit(s[i + n])
    ensures DigitRun(s, i) == n
    decreases n
  {
    if n > 0 {
      DigitRunExact(s, i + 1, n - 1);
    }
  }

  /** No match of `/-?\d+/` starts before `k` when `s[..k]` has no digit and does not end in a minus before a digit. */
  lemma {:induction false} SignedIntStartSkips(s: string, i: nat, k: nat)
    requires i <= k < |s|
    requires forall j :: i <= j < k ==> !IsDigit(s[j])
    requires k > 0 && IsDigit(s[k]) ==> s[k - 1] != '-'
    ensures SignedIntStart(s, i) == SignedIntStart(s, k)
    decreases k - i
  {
    if i < k {
      SignedIntStartSkips(s, i + 1, k);
    }
  }

  lemma IntToStringShape(n: int)
    ensures IntToString(n) == (if n < 0 then "-" else "") + NatToDigits(if n < 0 then -n else n)
  {
  }

  /** A run of exactly the digits of `a` at `j` reads as `a`. */
  lemma DigitsAt(t: string, j: nat, a: nat)
    requires j + |NatToDigits(a)| <= |t|
    requires t[j..j + |NatToDigits(a)|] == NatToDigits(a)
    requires j + |NatToDigits(a)| == |t| || !IsDigit(t[j + |NatToDigits(a)|])
    ensures DigitRun(t, j) == |NatToDigits(a)|
    ensures DigitsValue(t[j..j + DigitRun(t, j)]) == a
  {
    var w := NatToDigits(a);
    forall m | j <= m < j + |w| ensures IsDigit(t[m]) {
      assert t[m] == w[m - j];
    }
    DigitRunExact(t, j, |w|);
    NatToDigitsValue(a);
  }

  /** Digits of `a` at `k`, not followed by a digit, read as `a`. */
  lemma UnsignedIntAtText(t: string, k: nat, a: nat)
    requires k + |NatToDigits(a)| <= |t| && t[k..k + |NatToDigits(a)|] == NatToDigits(a)
    requires k + |NatToDigits(a)| == |t| || !IsDigit(t[k + |NatToDigits(a)|])
    ensures IsDigit(t[k]) && SignedIntAt(t, k) == a
  {
    var w := NatToDigits(a);
    assert t[k] == w[0] by {
      assert t[k] == t[k..k + |w|][0];
    }
    assert t[k] != '-';
    DigitsAt(t, k, a);
    assert SignedIntAt(t, k) == DigitsValue(t[k..k + DigitRun(t, k)]);
  }

  /** A minus sign followed by the digits of `a`, not followed by a digit, reads as `-a`. */
  lemma NegativeIntAtText(t: string, k: nat, a: nat)
    requires k + 1 + |NatToDigits(a)| <= |t| && t[k] == '-'
    requires t[k + 1..k + 1 + |NatToDigits(a)|] == NatToDigits(a)
    requires k + 1 + |NatToDigits(a)| == |t| || !IsDigit(t[k + 1 + |NatToDigits(a)|])
    ensures IsDigit(t[k + 1]) && SignedIntAt(t, k) == -(a as int)
  {
    DigitsAt(t, k + 1, a);
    assert t[k + 1] == NatToDigits(a)[0];
  }

  /** The `/-?\d+/` match at `k` spells `a`, negated after a minus, when that text sits there and no digit follows. */
  lemma SignedIntAtText(t: string, k: nat, neg: bool, a: nat)
    requires var u := (if neg then "-" else "") + NatToDigits(a);
      k + |u| <= |t| && t[k..k + |u|] == u && (k + |u| == |t| || !IsDigit(t[k + |u|]))
    ensures SignedIntAt(t, k) == if neg then -(a as int) else a
    ensures IsDigit(t[k]) || (t[k] == '-' && k + 1 < |t| && IsDigit(t[k + 1]))
    ensures !neg ==> IsDigit(t[k])
  {
    var w := NatToDigits(a);
    var u := (if neg then "-" else "") + w;
    if neg {
      assert t[k] == u[0];
      assert t[k + 1..k + 1 + |w|] == t[k..k + |u|][1..];
      NegativeIntAtText(t, k, a);
    } else {
      assert u == w;
      UnsignedIntAtText(t, k, a);
    }
  }

  lemma ParseDbmUSigned(prefix: string, neg: bool, a: nat, suffix: string)
    requires forall j :: 0 <= j < |prefix| ==> !IsDigit(prefix[j])
    requires !neg && prefix != [] ==> prefix[|prefix| - 1] != '-'
    requires suffix == [] || !IsDigit(suffix[0])
    ensures ParseDbmU(Some(prefix + ((if neg then "-" else "") + NatToDigits(a)) + suffix)) == Some(if neg then -(a as int) else a)
  {
    var u := (if neg then "-" else "") + NatToDigits(a);
    var t := prefix + u + suffix;
    var k := |prefix|;
    assert t[k..k + |u|] == u;
    assert k + |u| < |t| ==> t[k + |u|] == suffix[0];
    SignedIntAtText(t, k, neg, a);
    forall m | 0 <= m < k ensures !IsDigit(t[m]) {
      assert t[m] == prefix[m];
    }
    assert k > 0 ==> t[k - 1] == prefix[k - 1];
    SignedIntStartSkips(t, 0, k);
    ParseDbmUAt(t, k);
  }

  /** The reading is the integer spelled by the first match. */
  lemma ParseDbmUAt(t: string, k: nat)
    requires k < |t| && SignedIntStart(t, 0) == Some(k)
    ensures ParseDbmU(Some(t)) == Some(SignedIntAt(t, k))
  {
  }

  /**
   * A reading such as "-45dBm" yields -45: the signal strength is the
   * integer written first in the text, whatever surrounds it, as long as
   * no digit (and no minus sign directly before a non-negative number)
   * comes before it and no digit follows it.
   */
  lemma ParseDbmUReadsInteger(prefix: string, n: int, suffix: string)
    requires forall j :: 0 <= j < |prefix| ==> !IsDigit(prefix[j])
    requires n >= 0 && prefix != [] ==> prefix[|prefix| - 1] != '-'
    requires suffix == [] || !IsDigit(suffix[0])
    ensures ParseDbmU(Some(prefix + IntToString(n) + suffix)) == Some(n)
  {
    IntToStringShape(n);
    ParseDbmUSigned(prefix, n < 0, if n < 0 then -n else n, suffix);
  }

  /** A typical signal reading: "-45dBm" is -45. */
  lemma ParseDbmUExample()
    ensures ParseDbmU(Some("-45dBm")) == Some(-45)
  {
    assert IntToString(-45) == "-45" by {
      assert NatToDigits(45) == "45";
    }
    ParseDbmUReadsInteger("", -45, "dBm");
    assert "" + "-45" + "dBm" == "-45dBm";
  }

  /** Empty text, and text without digits, give no reading. */
  lemma ParseDbmUAbsent()
    ensures ParseDbmU(Some("")) == None
    ensures ParseDbmU(Some("n/a")) == None
  {
    var t := "n/a";
    assert SignedIntStart(t, 0) == None by {
      assert SignedIntStart(t, 3) == None;
      assert SignedIntStart(t, 2) == None;
      assert SignedIntStart(t, 1) == None;
    }
  }

  /** The first digit at or after `i` is at `k` when none comes between. */
  lemma {:induction false} FirstDigitAt(s: string, i: nat, k: nat)
    requires i <= k < |s| && IsDigit(s[k])
    requires forall j :: i <= j < k ==> !IsDigit(s[j])
    ensures FirstDigit(s, i) == Some(k)
    decreases k - i
  {
    if i < k {
      FirstDigitAt(s, i + 1, k);
    }
  }

  /** A run of exactly the digits `w` at `k`. */
  lemma RunOfDigits(t: string, k: nat, w: string)
    requires k + |w| <= |t| && AllDigits(w) && t[k..k + |w|] == w
    requires k + |w| == |t| || !IsDigit(t[k + |w|])
    ensures DigitRun(t, k) == |w|
  {
    forall j | k <= j < k + |w| ensures IsDigit(t[j]) {
      assert t[j] == w[j - k];
    }
    DigitRunExact(t, k, |w|);
  }

  /** The reading is the decimal spelled by the match, from the first digit to where the match ends. */
  lemma ProgressReading(t: string, k: nat, m: nat)
    requires t != [] && FirstDigit(t, 0) == Some(k) && ProgressMatchEnd(t, k) == m
    ensures ParseProgressPct(Str(t)) == ParseUnsignedDecimal(t[k..m])
  {
  }

  /** Digits not followed by a dot and a digit: the match is those digits. */
  lemma WholeMatchEnd(t: string, k: nat, w: string)
    requires k + |w| <= |t| && |w| > 0 && AllDigits(w) && t[k..k + |w|] == w
    requires k + |w| == |t| || !IsDigit(t[k + |w|])
    requires k + |w| + 1 < |t| && t[k + |w|] == '.' ==> !IsDigit(t[k + |w| + 1])
    ensures ProgressMatchEnd(t, k) == k + |w|
  {
    RunOfDigits(t, k, w);
  }

  /** Digits, a dot and more digits: the match takes the fraction too. */
  lemma DottedMatchEnd(t: string, k: nat, w: string, f: string)
    requires |w| > 0 && AllDigits(w) && |f| > 0 && AllDigits(f)
    requires k + |w| + 1 + |f| <= |t| && t[k..k + |w|] == w && t[k + |w|] == '.'
    requires t[k + |w| + 1..k + |w| + 1 + |f|] == f
    requires k + |w| + 1 + |f| == |t| || !IsDigit(t[k + |w| + 1 + |f|])
    ensures ProgressMatchEnd(t, k) == k + |w| + 1 + |f|
  {
    RunOfDigits(t, k, w);
    RunOfDigits(t, k + |w| + 1, f);
    assert t[k + |w| + 1] == f[0];
  }

  /** All-digit text spells a whole number. */
  lemma ParseUnsignedWhole(w: string)
    requires |w| > 0 && AllDigits(w)
    ensures ParseUnsignedDecimal(w) == Some(Canonical(DecRep(DigitsValue(w), 0)))
  {
    ParseWholeDigits(w);
    assert w[0] != 'I';
  }

  /** Digits, a dot and digits spell a decimal with as many places as the fraction has digits. */
  lemma ParseUnsignedDotted(w: string, f: string)
    requires |w| > 0 && AllDigits(w) && AllDigits(f)
    ensures ParseUnsignedDecimal(w + "." + f) == Some(Canonical(DecRep(DigitsValue(w + f), |f|)))
  {
    ParseDottedDigits(w, f);
    assert (w + "." + f)[0] == w[0];
  }

  /** Text without digits, then `w`, puts the first digit at the end of the prefix. */
  lemma FirstDigitAfter(t: string, prefix: string, w: string)
    requires |w| > 0 && AllDigits(w) && |prefix| + |w| <= |t|
    requires t[..|prefix|] == prefix && t[|prefix|..|prefix| + |w|] == w
    requires forall j :: 0 <= j < |prefix| ==> !IsDigit(prefix[j])
    ensures FirstDigit(t, 0) == Some(|prefix|)
  {
    forall j | 0 <= j < |prefix| ensures !IsDigit(t[j]) {
      assert t[j] == t[..|prefix|][j];
    }
    assert t[|prefix|] == w[0];
    FirstDigitAt(t, 0, |prefix|);
  }

  /**
   * A progress text whose first number has no fraction reads as that
   * number's digits, whatever text without digits comes before it and
   * whatever follows it that does not continue the number (such as "%").
   */
  lemma ProgressPctWhole(prefix: string, w: string, suffix: string)
    requires forall j :: 0 <= j < |prefix| ==> !IsDigit(prefix[j])
    requires |w| > 0 && AllDigits(w)
    requires suffix == [] || !IsDigit(suffix[0])
    requires |suffix| > 1 && suffix[0] == '.' ==> !IsDigit(suffix[1])
    ensures ParseProgressPct(Str(prefix + w + suffix)) == Some(Canonical(DecRep(DigitsValue(w), 0)))
  {
    var t := prefix + w + suffix;
    var k := |prefix|;
    assert t[..k] == prefix && t[k..k + |w|] == w;
    assert k + |w| < |t| ==> t[k + |w|] == suffix[0];
    assert k + |w| + 1 < |t| ==> t[k + |w| + 1] == suffix[1];
    FirstDigitAfter(t, prefix, w);
    WholeMatchEnd(t, k, w);
    ProgressReading(t, k, k + |w|);
    ParseUnsignedWhole(w);
  }

  /** The same with a fraction: "12.5%" reads as 12.5. */
  lemma ProgressPctDotted(prefix: string, w: string, f: string, suffix: string)
    requires forall j :: 0 <= j < |prefix| ==> !IsDigit(prefix[j])
    requires |w| > 0 && AllDigits(w) && |f| > 0 && AllDigits(f)
    requires suffix == [] || !IsDigit(suffix[0])
    ensures ParseProgressPct(Str(prefix + w + "." + f + suffix)) == Some(Canonical(DecRep(DigitsValue(w + f), |f|)))
  {
    var t := prefix + w + "." + f + suffix;
    var k := |prefix|;
    var e := k + |w| + 1;
    assert t[..k] == prefix && t[k..k + |w|] == w && t[k + |w|] == '.';
    assert t[e..e + |f|] == f;
    assert e + |f| < |t| ==> t[e + |f|] == suffix[0];
    assert t[k..e + |f|] == w + "." + f;
    FirstDigitAfter(t, prefix, w);
    DottedMatchEnd(t, k, w, f);
    ProgressReading(t, k, e + |f|);
    ParseUnsignedDotted(w, f);
  }

  /** Text with no digit has no progress reading. */
  lemma ProgressPctNoDigit(s: string)
    requires forall j :: 0 <= j < |s| ==> !IsDigit(s[j])
    ensures ParseProgressPct(Str(s)) == None
  {
  }

  /** Any other value is read through its text `String(p)`, so the lemmas on text cover every input. */
  lemma ProgressPctViaText(p: Value)
    requires !IsNullish(p) && p != Str("")
    ensures ParseProgressPct(p) == ParseProgressPct(Str(ToStr(p)))
  {
  }

  /** A negative number loses its sign: `parseProgressPct(-5)` is 5, since the pattern has no sign. */
  lemma ProgressPctNegativeNumber()
    ensures ParseProgressPct(Number(Int(-5))) == Some(Int(5))
  {
    assert NatToDigits(5) == "5";
    assert ToStr(Number(Int(-5))) == "-" + "5" + "";
    ProgressPctViaText(Number(Int(-5)));
    ProgressPctWhole("-", "5", "");
    assert DigitsValue("5") == 5;
  }
}
