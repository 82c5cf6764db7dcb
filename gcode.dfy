/**
 * The G-code command builders (bambu-link/src/actions/gcodeActions.ts):
 * one shared `print` payload whose `param` each builder overwrites with a
 * G-code text, and wrappers that log the payload and publish it as JSON on
 * the printer's report topic. Numeric arguments are finite
 * decimals, rendered as `${n}` renders them.
 */
module Gcode {
  import opened Wrappers
  import opened Numbers
  import opened Text

  // ---------------------------------------------------------------- enums

  /**
   * The object a numeric TypeScript enum compiles to: each member's name
   * maps to its value and the value's text maps back to the name.
   */
  function EnumObject(members: seq<(string, int)>): map<string, string> {
    if members == [] then map[]
    else
      var m := EnumObject(members[..|members| - 1]);
      var (name, value) := members[|members| - 1];
      m[name := IntToString(value)][IntToString(value) := name]
  }

  /** `${E[key]}`: the entry's text, "undefined" for a key the enum object lacks. */
  function EnumText(e: map<string, string>, key: string): string {
    if key in e then e[key] else "undefined"
  }

  const FanMembers: seq<(string, int)> := [("AUX", 2), ("CHAMBER", 3), ("PART", 1)]
  const ToolMembers: seq<(string, int)> := [("BED", 140), ("EXTRUDER", 104)]

  /** The objects `enum Fan` and `enum Tool` compile to. */
  const FanEnum: map<string, string> := EnumObject(FanMembers)
  const ToolEnum: map<string, string> := EnumObject(ToolMembers)

  /** Member names begin with a capital letter and are distinct; so are the values. */
  predicate WellFormedEnum(members: seq<(string, int)>) {
    (forall i :: 0 <= i < |members| ==> members[i].0 != [] && 'A' <= members[i].0[0] <= 'Z') &&
    (forall i, j :: 0 <= i < j < |members| ==> members[i].0 != members[j].0 && members[i].1 != members[j].1)
  }

  /** A rendered integer begins with a digit or a minus sign, so it is never a member name. */
  lemma IntTextStart(n: int)
    ensures IntToString(n) != [] && (IsDigit(IntToString(n)[0]) || IntToString(n)[0] == '-')
  {
    var a: nat := if n < 0 then -n else n;
    assert IntToString(n) == (if n < 0 then "-" else "") + NatToDigits(a);
    assert AllDigits(NatToDigits(a)) && NatToDigits(a) != [];
  }

  /** A key the enum object holds is a member's name or a member's value text. */
  lemma {:induction false} EnumObjectKeys(members: seq<(string, int)>, key: string)
    ensures key in EnumObject(members) <==>
      exists i :: 0 <= i < |members| && (key == members[i].0 || key == IntToString(members[i].1))
    decreases |members|
  {
    if members != [] {
      var init := members[..|members| - 1];
      EnumObjectKeys(init, key);
      assert forall i :: 0 <= i < |init| ==> init[i] == members[i];
      if key in EnumObject(init) {
        var i :| 0 <= i < |init| && (key == init[i].0 || key == IntToString(init[i].1));
        assert key == members[i].0 || key == IntToString(members[i].1);
      }
    }
  }

  /** Every member reads both ways: name to value text, value text to name. */
  lemma {:induction false} EnumObjectLookup(members: seq<(string, int)>, i: nat)
    requires WellFormedEnum(members) && i < |members|
    ensures var e := EnumObject(members);
      members[i].0 in e && e[members[i].0] == IntToString(members[i].1) &&
      IntToString(members[i].1) in e && e[IntToString(members[i].1)] == members[i].0
    decreases |members|
  {
    var last := |members| - 1;
    var (name, value) := members[last];
    IntTextStart(value);
    assert name != IntToString(value);
    if i < last {
      var init := members[..last];
      assert init[i] == members[i];
      assert WellFormedEnum(init) by {
        assert forall a :: 0 <= a < |init| ==> init[a] == members[a];
      }
      EnumObjectLookup(init, i);
      assert members[i].0 != name && members[i].1 != value;
      IntTextStart(members[i].1);
      assert members[i].0 != IntToString(value);
      assert IntToString(members[i].1) != name;
      assert IntToString(members[i].1) != IntToString(value) by {
        IntStringRoundTrip(members[i].1);
        IntStringRoundTrip(value);
      }
    }
  }

  lemma FanEnumWellFormed()
    ensures WellFormedEnum(FanMembers)
  {
  }

  lemma ToolEnumWellFormed()
    ensures WellFormedEnum(ToolMembers)
  {
  }

  /** `Fan[...]`: PART is 1, AUX 2, CHAMBER 3, and each number's text names its fan. */
  lemma FanCodes()
    ensures var e := FanEnum;
      EnumText(e, "PART") == "1" && EnumText(e, "AUX") == "2" && EnumText(e, "CHAMBER") == "3" &&
      EnumText(e, "1") == "PART" && EnumText(e, "2") == "AUX" && EnumText(e, "3") == "CHAMBER"
  {
    FanEnumWellFormed();
    assert IntToString(2) == "2" && IntToString(3) == "3" && IntToString(1) == "1" by {
      assert NatToDigits(2) == "2" && NatToDigits(3) == "3" && NatToDigits(1) == "1";
    }
    EnumObjectLookup(FanMembers, 0);
    EnumObjectLookup(FanMembers, 1);
    EnumObjectLookup(FanMembers, 2);
  }

  /** `Tool[...]`: BED is 140, EXTRUDER 104, and each number's text names its tool. */
  lemma ToolCodes()
    ensures var e := ToolEnum;
      EnumText(e, "BED") == "140" && EnumText(e, "EXTRUDER") == "104" &&
      EnumText(e, "140") == "BED" && EnumText(e, "104") == "EXTRUDER"
  {
    ToolEnumWellFormed();
    assert IntToString(140) == "140" && IntToString(104) == "104" by {
      assert NatToDigits(140) == "140" && NatToDigits(104) == "104";
    }
    EnumObjectLookup(ToolMembers, 0);
    EnumObjectLookup(ToolMembers, 1);
  }

  /** Any other key reads as "undefined". */
  lemma UnknownToolText(tool: string)
    requires tool !in {"BED", "EXTRUDER", "140", "104"}
    ensures EnumText(ToolEnum, tool) == "undefined"
  {
    assert IntToString(140) == "140" && IntToString(104) == "104" by {
      assert NatToDigits(140) == "140" && NatToDigits(104) == "104";
    }
    EnumObjectKeys(ToolMembers, tool);
  }

  // ------------------------------------------------------------- G-code text

  const HomeText: string := "G28\n"

  function TempText(tool: string, temp: Dec): string {
    "M" + EnumText(ToolEnum, tool) + " S" + NumToString(temp) + " \n"
  }

  function FanText(fan: string, speed: Dec): string {
    "M106 P" + EnumText(FanEnum, fan) + " S" + NumToString(speed) + " \n"
  }

  /** The line that moves `axis` by `distance`, always written with a minus sign in front of the distance. */
  function MoveLine(axis: string, distance: Dec): string {
    "G1 " + axis + "-" + NumToString(distance) + " F3000"
  }

  function MoveText(axis: string, distance: Dec): string {
    "M211 S \n" + ("M211 X1 Y1 Z1\n" + ("M1002 push_ref_mode\n" + ("G91 \n" +
    (MoveLine(axis, distance) + "\n" + ("M1002 pop_ref_mode\n" + "M211 R\n")))))
  }

  /** The digits of a number's text, with a point only when it has a fraction. */
  lemma UnsignedTextChars(a: nat, scale: nat)
    ensures forall i :: 0 <= i < |UnsignedText(a, scale)| ==>
      IsDigit(UnsignedText(a, scale)[i]) || (scale > 0 && UnsignedText(a, scale)[i] == '.')
  {
    if scale > 0 {
      var p := Pow10(scale);
      DivModSplit(a, p);
      var w := NatToDigits(a / p);
      var f := PadDigits(NatToDigits(a % p), scale);
      var u := w + "." + f;
      assert UnsignedText(a, scale) == u;
      forall i | 0 <= i < |u| ensures IsDigit(u[i]) || u[i] == '.' {
        if i < |w| {
          assert u[i] == w[i];
        } else if i > |w| {
          assert u[i] == f[i - |w| - 1];
        }
      }
    }
  }

  /** The text of a number, as `${n}` renders it, is a sign, digits and a point: never a newline. */
  lemma NumToStringNoNewline(d: Dec)
    ensures '\n' !in NumToString(d)
  {
    var a: nat := if d.mantissa < 0 then -d.mantissa else d.mantissa;
    var u := UnsignedText(a, d.scale);
    var s := NumToString(d);
    assert s == (if d.mantissa < 0 then "-" else "") + u;
    UnsignedTextChars(a, d.scale);
    forall i | 0 <= i < |s| ensures s[i] != '\n' {
      if d.mantissa < 0 && i > 0 {
        assert s[i] == u[i - 1];
      } else if d.mantissa >= 0 {
        assert s[i] == u[i];
      }
    }
  }

  /** The bed and the extruder heat with M140 and M104, the temperature after " S". */
  lemma TempTextCodes(temp: Dec)
    ensures TempText("BED", temp) == "M" + "140" + " S" + NumToString(temp) + " \n"
    ensures TempText("EXTRUDER", temp) == "M" + "104" + " S" + NumToString(temp) + " \n"
  {
    ToolCodes();
  }

  /** The part, aux and chamber fans are P1, P2 and P3 of M106. */
  lemma FanTextCodes(speed: Dec)
    ensures FanText("PART", speed) == "M106 P" + "1" + " S" + NumToString(speed) + " \n"
    ensures FanText("AUX", speed) == "M106 P" + "2" + " S" + NumToString(speed) + " \n"
    ensures FanText("CHAMBER", speed) == "M106 P" + "3" + " S" + NumToString(speed) + " \n"
  {
    FanCodes();
  }


  function MoveLines(line: string): seq<string> {
    ["M211 S ", "M211 X1 Y1 Z1", "M1002 push_ref_mode", "G91 ", line, "M1002 pop_ref_mode", "M211 R", ""]
  }

  lemma MoveLinesJoin(line: string)
    ensures Join(MoveLines(line), '\n') ==
      "M211 S \n" + ("M211 X1 Y1 Z1\n" + ("M1002 push_ref_mode\n" + ("G91 \n" +
      (line + "\n" + ("M1002 pop_ref_mode\n" + "M211 R\n")))))
  {
    var lines := MoveLines(line);
    assert Join(lines[7..], '\n') == "";
    assert Join(lines[6..], '\n') == "M211 R\n";
    assert Join(lines[5..], '\n') == "M1002 pop_ref_mode\n" + "M211 R\n";
    var tail := "M1002 pop_ref_mode\n" + "M211 R\n";
    assert Join(lines[4..], '\n') == line + "\n" + tail;
    assert Join(lines[3..], '\n') == "G91 \n" + (line + "\n" + tail);
    assert Join(lines[2..], '\n') == "M1002 push_ref_mode\n" + ("G91 \n" + (line + "\n" + tail));
    assert Join(lines[1..], '\n') == "M211 X1 Y1 Z1\n" + ("M1002 push_ref_mode\n" + ("G91 \n" + (line + "\n" + tail)));
  }

  lemma MoveLineNoNewline(axis: string, distance: Dec)
    requires '\n' !in axis
    ensures '\n' !in MoveLine(axis, distance)
  {
    NumToStringNoNewline(distance);
    var d := NumToString(distance);
    var l := MoveLine(axis, distance);
    assert l == "G1 " + axis + "-" + d + " F3000";
    forall i | 0 <= i < |l| ensures l[i] != '\n' {
      if 3 <= i < 3 + |axis| {
        assert l[i] == axis[i - 3];
      } else if 4 + |axis| <= i < 4 + |axis| + |d| {
        assert l[i] == d[i - 4 - |axis|];
      }
    }
  }

  /** A fractional jog: `move("X", 0.1)` writes "G1 X-0.1 F3000". */
  lemma MoveLineFractional()
    ensures MoveLine("X", DecRep(1, 1)) == "G1 X-0.1 F3000"
  {
    assert NatToDigits(0) == "0" && NatToDigits(1) == "1";
    assert PadDigits("1", 1) == "1";
    assert UnsignedText(1, 1) == "0.1";
    assert NumToString(DecRep(1, 1)) == "0.1";
  }

  /** A move is seven lines, each ended by a newline; the fifth is the move itself. */
  lemma MoveTextLines(axis: string, distance: Dec)
    requires '\n' !in axis
    ensures Split(MoveText(axis, distance), '\n') == MoveLines(MoveLine(axis, distance))
  {
    var lines := MoveLines(MoveLine(axis, distance));
    MoveLineNoNewline(axis, distance);
    MoveLinesJoin(MoveLine(axis, distance));
    SplitJoin(lines, '\n');
  }

  // ------------------------------------------------------------------- JSON

  function HexDigit(n: nat): char
    requires n < 16
  {
    if n < 10 then ('0' as int + n) as char else ('a' as int + n - 10) as char
  }

  /** How `JSON.stringify` writes one character inside a string literal. */
  function EscapeChar(c: char): string {
    if c == '"' then "\\\""
    else if c == '\\' then "\\\\"
    else if c == '\U{0008}' then "\\b"
    else if c == '\t' then "\\t"
    else if c == '\n' then "\\n"
    else if c == '\U{000C}' then "\\f"
    else if c == '\r' then "\\r"
    else if c < ' ' then "\\u00" + [HexDigit(c as int / 16), HexDigit(c as int % 16)]
    else [c]
  }

  function JsonEscape(s: string): string {
    if s == [] then [] else EscapeChar(s[0]) + JsonEscape(s[1..])
  }

  /** `JSON.stringify(s)` for a string. */
  function JsonQuote(s: string): string {
    "\"" + JsonEscape(s) + "\""
  }

  function HexValue(c: char): Option<nat> {
    if '0' <= c <= '9' then Some(c as int - '0' as int)
    else if 'a' <= c <= 'f' then Some(c as int - 'a' as int + 10)
    else if 'A' <= c <= 'F' then Some(c as int - 'A' as int + 10)
    else None
  }

  /** The text a JSON string body denotes; `None` for a malformed body. */
  function JsonUnescape(s: string): Option<string>
    decreases |s|
  {
    if s == [] then Some([])
    else if s[0] == '"' || s[0] < ' ' then None
    else if s[0] != '\\' then Prepend(s[0], JsonUnescape(s[1..]))
    else if |s| < 2 then None
    else
      var e := s[1];
      if e == 'u' then
        if |s| < 6 then None
        else
          match (HexValue(s[2]), HexValue(s[3]), HexValue(s[4]), HexValue(s[5]))
          case (Some(a), Some(b), Some(c), Some(d)) =>
            var code := ((a * 16 + b) * 16 + c) * 16 + d;
            if code < 0xD800 then Prepend(code as char, JsonUnescape(s[6..]))
            else if 0xE000 <= code < 0x1_0000 then Prepend(code as char, JsonUnescape(s[6..]))
            else None
          case _ => None
      else
        var c :=
          if e == '"' then Some('"') else if e == '\\' then Some('\\') else if e == '/' then Some('/')
          else if e == 'b' then Some('\U{0008}') else if e == 'f' then Some('\U{000C}')
          else if e == 'n' then Some('\n') else if e == 'r' then Some('\r') else if e == 't' then Some('\t')
          else None;
        if c.None? then None else Prepend(c.value, JsonUnescape(s[2..]))
  }

  function Prepend(c: char, rest: Option<string>): Option<string> {
    if rest.None? then None else Some([c] + rest.value)
  }

  lemma EscapeCharUnescapes(c: char, rest: string)
    ensures JsonUnescape(EscapeChar(c) + rest) == Prepend(c, JsonUnescape(rest))
  {
    var t := EscapeChar(c) + rest;
    if c < ' ' && c !in {'\U{0008}', '\t', '\n', '\U{000C}', '\r'} {
      UnicodeEscapeUnescapes(c, rest);
    } else if c == '"' || c == '\\' || c in {'\U{0008}', '\t', '\n', '\U{000C}', '\r'} {
      assert t[2..] == rest;
    } else {
      assert t[1..] == rest;
    }
  }

  /** A control character written as `\u00XX` reads back as itself. */
  lemma UnicodeEscapeUnescapes(c: char, rest: string)
    requires c < ' '
    ensures JsonUnescape("\\u00" + [HexDigit(c as int / 16), HexDigit(c as int % 16)] + rest) == Prepend(c, JsonUnescape(rest))
  {
    var hi := c as int / 16;
    var lo := c as int % 16;
    var t := "\\u00" + [HexDigit(hi), HexDigit(lo)] + rest;
    assert t[0] == '\\' && t[1] == 'u';
    assert t[2..6] == ['0', '0', HexDigit(hi), HexDigit(lo)];
    assert t[6..] == rest;
    assert HexValue(HexDigit(hi)) == Some(hi);
    assert HexValue(HexDigit(lo)) == Some(lo);
    assert ((0 * 16 + 0) * 16 + hi) * 16 + lo == c as int;
  }

  /** Reading back what `JSON.stringify` wrote for a string gives the string. */
  lemma {:induction false} JsonEscapeRoundTrip(s: string)
    ensures JsonUnescape(JsonEscape(s)) == Some(s)
    decreases |s|
  {
    if s != [] {
      JsonEscapeRoundTrip(s[1..]);
      EscapeCharUnescapes(s[0], JsonEscape(s[1..]));
      assert [s[0]] + s[1..] == s;
    }
  }

  // ---------------------------------------------------------------- payload

  /** The shared `payload.print` object; the builders overwrite `param` only. */
  class Payload {
    var sequenceId: string
    var command: string
    var param: string

    constructor()
      ensures sequenceId == "1" && command == "gcode_line" && param == ""
    {
      sequenceId := "1";
      command := "gcode_line";
      param := "";
    }
  }

  /** The contents of the payload at one moment, as logged. */
  datatype PayloadRecord = PayloadRecord(sequenceId: string, command: string, param: string)

  function Snapshot(p: Payload): PayloadRecord
    reads p
  {
    PayloadRecord(p.sequenceId, p.command, p.param)
  }

  /** `JSON.stringify(payload)`: `{"print":{"sequence_id":…,"command":…,"param":…}}`. */
  function PayloadJson(r: PayloadRecord): string {
    "{\"print\":{\"sequence_id\":" + JsonQuote(r.sequenceId) + ",\"command\":" + JsonQuote(r.command) +
    ",\"param\":" + JsonQuote(r.param) + "}}"
  }

  /** The topic commands are published on. */
  function ReportTopic(serial: string): string {
    "device/" + serial + "/report"
  }

  datatype Publication = Publication(topic: string, text: string)

  /** `gcodeActions(client, serial)`: the builders around one shared payload, and what they logged and published. */
  class GcodeActions {
    const serial: string
    const payload: Payload
    ghost var logged: seq<PayloadRecord>
    ghost var published: seq<Publication>

    /** Only `param` ever changes. */
    ghost predicate Valid()
      reads this, payload
    {
      payload.sequenceId == "1" && payload.command == "gcode_line"
    }

    constructor(serial: string)
      ensures Valid() && this.serial == serial && fresh(payload) && payload.param == ""
      ensures logged == [] && published == []
    {
      this.serial := serial;
      payload := new Payload();
      logged := [];
      published := [];
    }

    /** `home()`. */
    method Home() returns (r: Payload)
      modifies payload`param
      ensures r == payload && payload.param == HomeText
    {
      payload.param := HomeText;
      r := payload;
    }

    /** `tempControl(tool, temp)`. */
    method TempControl(tool: string, temp: Dec) returns (r: Payload)
      modifies payload`param
      ensures r == payload && payload.param == TempText(tool, temp)
    {
      payload.param := TempText(tool, temp);
      r := payload;
    }

    /** `fanSpeed(fan, speed)`. */
    method FanSpeed(fan: string, speed: Dec) returns (r: Payload)
      modifies payload`param
      ensures r == payload && payload.param == FanText(fan, speed)
    {
      payload.param := FanText(fan, speed);
      r := payload;
    }

    /** `move(axis, distance)`. */
    method Move(axis: string, distance: Dec) returns (r: Payload)
      modifies payload`param
      ensures r == payload && payload.param == MoveText(axis, distance)
    {
      payload.param := MoveText(axis, distance);
      r := payload;
    }

    /** `console.log(p)`: records the payload as it is at this moment. */
    method Log(p: Payload)
      modifies this`logged
      ensures logged == old(logged) + [Snapshot(p)]
    {
      logged := logged + [Snapshot(p)];
    }

    /** `client.publish(topic, JSON.stringify(p))` on the printer's report topic. */
    method Publish(p: Payload)
      modifies this`published
      ensures published == old(published) + [Publication(ReportTopic(serial), PayloadJson(Snapshot(p)))]
    {
      published := published + [Publication(ReportTopic(serial), PayloadJson(Snapshot(p)))];
    }

    /** The exported `home`: build and log, then build again and publish. The published text is the logged payload. */
    method PublishHome()
      requires Valid()
      modifies payload`param, this`logged, this`published
      ensures Valid() && payload.param == HomeText
      ensures logged == old(logged) + [PayloadRecord("1", "gcode_line", HomeText)]
      ensures published == old(published) + [Publication(ReportTopic(serial), PayloadJson(logged[|logged| - 1]))]
    {
      var shown := Home();
      Log(shown);
      var sent := Home();
      Publish(sent);
    }

    /** The exported `tempControl`. */
    method PublishTempControl(tool: string, temp: Dec)
      requires Valid()
      modifies payload`param, this`logged, this`published
      ensures Valid() && payload.param == TempText(tool, temp)
      ensures logged == old(logged) + [PayloadRecord("1", "gcode_line", TempText(tool, temp))]
      ensures published == old(published) + [Publication(ReportTopic(serial), PayloadJson(logged[|logged| - 1]))]
    {
      var shown := TempControl(tool, temp);
      Log(shown);
      var sent := TempControl(tool, temp);
      Publish(sent);
    }

    /** The exported `fanSpeed`. */
    method PublishFanSpeed(fan: string, speed: Dec)
      requires Valid()
      modifies payload`param, this`logged, this`published
      ensures Valid() && payload.param == FanText(fan, speed)
      ensures logged == old(logged) + [PayloadRecord("1", "gcode_line", FanText(fan, speed))]
      ensures published == old(published) + [Publication(ReportTopic(serial), PayloadJson(logged[|logged| - 1]))]
    {
      var shown := FanSpeed(fan, speed);
      Log(shown);
      var sent := FanSpeed(fan, speed);
      Publish(sent);
    }

    /** The exported `move`. */
    method PublishMove(axis: string, distance: Dec)
      requires Valid()
      modifies payload`param, this`logged, this`published
      ensures Valid() && payload.param == MoveText(axis, distance)
      ensures logged == old(logged) + [PayloadRecord("1", "gcode_line", MoveText(axis, distance))]
      ensures published == old(published) + [Publication(ReportTopic(serial), PayloadJson(logged[|logged| - 1]))]
    {
      var shown := Move(axis, distance);
      Log(shown);
      var sent := Move(axis, distance);
      Publish(sent);
    }
  }

  /** Text with no quote, backslash or control character is written as it is. */
  lemma {:induction false} JsonEscapePlain(s: string)
    requires forall i :: 0 <= i < |s| ==> ' ' <= s[i] && s[i] != '"' && s[i] != '\\'
    ensures JsonEscape(s) == s
    decreases |s|
  {
    if s != [] {
      JsonEscapePlain(s[1..]);
      assert [s[0]] + s[1..] == s;
    }
  }

  /** The home command's text as it appears in the published JSON. */
  lemma HomeTextJson()
    ensures JsonQuote(HomeText) == "\"G28\\n\""
  {
    JsonEscapePlain("G28");
    assert HomeText == "G28" + "\n";
    JsonEscapeAppend("G28", "\n");
    assert JsonEscape("\n") == "\\n";
  }

  lemma {:induction false} JsonEscapeAppend(a: string, b: string)
    ensures JsonEscape(a + b) == JsonEscape(a) + JsonEscape(b)
    decreases |a|
  {
    if a != [] {
      assert (a + b)[1..] == a[1..] + b;
      JsonEscapeAppend(a[1..], b);
    } else {
      assert a + b == b;
    }
  }
}
