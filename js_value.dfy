/**
 * The JavaScript values a decoded MQTT report (or a state snapshot) is made
 * of, and the pieces of JavaScript semantics the status code relies on:
 * property access, truthiness, `String(v)`, `Number(v)`, `===` and `??`.
 */
module JsValue {
  import opened Wrappers
  import opened Numbers

  datatype Value =
    | Undefined
    | Null
    | Bool(b: bool)
    | Number(n: Dec)
    | Str(s: string)
    | Arr(items: seq<Value>)
    | Obj(fields: map<string, Value>)

  /** `v == null`: loose equality with null holds exactly for null and undefined. */
  predicate IsNullish(v: Value) {
    v.Undefined? || v.Null?
  }

  /** `v && typeof v === "object"`: a non-null object, arrays included. */
  predicate IsObject(v: Value) {
    v.Arr? || v.Obj?
  }

  /** `!!v`. */
  predicate Truthy(v: Value) {
    match v
    case Undefined => false
    case Null => false
    case Bool(b) => b
    case Number(n) => n.mantissa != 0
    case Str(s) => s != []
    case Arr(_) => true
    case Obj(_) => true
  }

  /** `a ?? b`. */
  function Coalesce(a: Value, b: Value): Value {
    if IsNullish(a) then b else a
  }

  /**
   * `a === b`. Two arrays or objects are never identical here: every array
   * and object of a decoded message is a distinct allocation.
   */
  predicate StrictEquals(a: Value, b: Value) {
    match (a, b)
    case (Undefined, Undefined) => true
    case (Null, Null) => true
    case (Bool(x), Bool(y)) => x == y
    case (Number(x), Number(y)) => x == y
    case (Str(x), Str(y)) => x == y
    case _ => false
  }

  // ------------------------------------------------------------ properties

  /** The canonical property key of array index `i`. */
  function IndexKey(i: nat): string {
    NatToDigits(i)
  }

  /** The array index a property key names: decimal digits without a leading zero. */
  function ArrayIndex(k: string): Option<nat> {
    if |k| > 0 && AllDigits(k) && (k[0] != '0' || |k| == 1) then Some(DigitsValue(k)) else None
  }

  lemma {:induction false} LeadingDigit(n: nat)
    ensures NatToDigits(n)[0] != '0' || n == 0
    decreases n
  {
    if n >= 10 {
      LeadingDigit(n / 10);
      assert NatToDigits(n)[0] == NatToDigits(n / 10)[0];
    }
  }

  /** Index keys name their index. */
  lemma IndexKeyRoundTrip(i: nat)
    ensures ArrayIndex(IndexKey(i)) == Some(i)
  {
    LeadingDigit(i);
    NatToDigitsValue(i);
  }

  /**
   * `v?.[k]`: own fields of objects, elements and `length` of arrays and
   * strings, undefined for everything else. On null and undefined this is
   * the optional read; a plain `v[k]` there throws, which callers that
   * model it check for first.
   */
  function Member(v: Value, k: string): Value {
    match v
    case Obj(f) => if k in f then f[k] else Undefined
    case Arr(items) =>
      if ArrayIndex(k).Some? && ArrayIndex(k).value < |items| then items[ArrayIndex(k).value]
      else if k == "length" then Number(Int(|items|))
      else Undefined
    case Str(s) =>
      if ArrayIndex(k).Some? && ArrayIndex(k).value < |s| then Str([s[ArrayIndex(k).value]])
      else if k == "length" then Number(Int(|s|))
      else Undefined
    case _ => Undefined
  }

  /**
   * `v[k] = x` on an object or an array. An index at or past an array's end
   * grows the array, the skipped slots reading as undefined.
   */
  function SetMember(v: Value, k: string, x: Value): (r: Value)
    ensures v.Obj? ==> r.Obj?
    ensures v.Arr? ==> r.Arr?
  {
    match v
    case Obj(f) => Obj(f[k := x])
    case Arr(items) =>
      if ArrayIndex(k).None? then v
      else
        var i := ArrayIndex(k).value;
        if i < |items| then Arr(items[i := x])
        else Arr(items + seq(i - |items|, _ => Undefined) + [x])
    case _ => v
  }

  /** Property keys a write can store into `v`: any key of an object, index keys of an array. */
  predicate Storable(v: Value, k: string) {
    v.Obj? || (v.Arr? && ArrayIndex(k).Some?)
  }

  /** A stored property reads back. */
  lemma MemberSetMember(v: Value, k: string, x: Value)
    requires Storable(v, k)
    ensures Member(SetMember(v, k, x), k) == x
  {
  }

  /** Storing under one key of an object leaves every other key as it was. */
  lemma MemberSetOther(v: Value, k: string, k': string, x: Value)
    requires v.Obj? && k != k'
    ensures Member(SetMember(v, k, x), k') == Member(v, k')
  {
  }

  /** The index keys `0` … `n - 1`. */
  function IndexKeys(n: nat): (ks: set<string>)
    ensures forall k :: k in ks ==> ArrayIndex(k).Some? && ArrayIndex(k).value < n
    ensures forall i :: 0 <= i < n ==> IndexKey(i) in ks
  {
    IndexKeysSound(n);
    set i | 0 <= i < n :: IndexKey(i)
  }

  lemma IndexKeysSound(n: nat)
    ensures forall k :: k in (set i | 0 <= i < n :: IndexKey(i)) ==> ArrayIndex(k).Some? && ArrayIndex(k).value < n
  {
    forall i | 0 <= i < n {
      IndexKeyRoundTrip(i);
    }
  }

  /** `Object.entries(v)`: own enumerable properties; an array's or a string's are its indices. */
  function OwnEntries(v: Value): map<string, Value> {
    match v
    case Obj(f) => f
    case Arr(items) => map k | k in IndexKeys(|items|) :: items[ArrayIndex(k).value]
    case Str(s) => map k | k in IndexKeys(|s|) :: Str([s[ArrayIndex(k).value]])
    case _ => map[]
  }

  /** `{ ...v }`: a fresh plain object holding the own entries of `v`. */
  function Spread(v: Value): (r: Value)
    ensures r.Obj? && r.fields == OwnEntries(v)
  {
    Obj(OwnEntries(v))
  }

  // ----------------------------------------------------------- conversions

  /** `String(v)`. Arrays join their elements with commas, null and undefined elements as empty text. */
  function ToStr(v: Value): string
    decreases v, 1, 0
  {
    match v
    case Undefined => "undefined"
    case Null => "null"
    case Bool(b) => if b then "true" else "false"
    case Number(n) => NumToString(n)
    case Str(s) => s
    case Arr(items) => JoinItems(v, |items|)
    case Obj(_) => "[object Object]"
  }

  /** `v.slice(0, n).join(",")` for an array `v`. */
  function JoinItems(v: Value, n: nat): string
    requires v.Arr? && n <= |v.items|
    decreases v, 0, n
  {
    if n == 0 then ""
    else
      var last := v.items[n - 1];
      var text := if IsNullish(last) then "" else ToStr(last);
      if n == 1 then text else JoinItems(v, n - 1) + "," + text
  }

  /** `Number(v)`. Arrays and objects convert through their string form. */
  function ToNumber(v: Value): Numeric {
    match v
    case Undefined => NaN
    case Null => Finite(Int(0))
    case Bool(b) => Finite(Int(if b then 1 else 0))
    case Number(n) => Finite(n)
    case Str(s) => StringToNumber(s)
    case Arr(_) => StringToNumber(ToStr(v))
    case Obj(_) => StringToNumber(ToStr(v))
  }
}
