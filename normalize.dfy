/**
 * `normalizeRawStatus` (src/state.ts): a total projection of an arbitrary
 * decoded report into the typed printer snapshot. Every field is read
 * through the total lookup `get` and coerced defensively; nothing in it
 * fails on malformed input.
 */
module Normalize {
  import opened Wrappers
  import opened Numbers
  import opened JsValue
  import opened PrinterTypes
  import opened Coerce
  import opened Paths

  // ------------------------------------------------------------ the input

  /** What the loose schema makes of a field declared as text: null and undefined drop out, anything else becomes `String(v)`. */
  function SchemaText(v: Value): (r: Value)
    ensures IsNullish(v) ==> r == Undefined
    ensures !IsNullish(v) ==> r == Str(ToStr(v))
  {
    if IsNullish(v) then Undefined else Str(ToStr(v))
  }

  /**
   * The root `get` reads from. A plain object passes the schema, which
   * hands back a copy whose top-level `command` and `sequence_id` are
   * text; anything else fails it and is read as it came.
   */
  function SchemaView(input: Value): (view: Value)
    ensures input.Obj? <==> view.Obj?
    ensures !input.Obj? ==> view == input
    ensures input.Obj? ==> Member(view, "command") == SchemaText(Member(input, "command"))
    ensures input.Obj? ==> Member(view, "sequence_id") == SchemaText(Member(input, "sequence_id"))
  {
    match input
    case Obj(f) =>
      Obj(f["command" := SchemaText(Member(input, "command"))]["sequence_id" := SchemaText(Member(input, "sequence_id"))])
    case _ => input
  }

  /** The schema passes every other member through: only `command` and `sequence_id` are converted. */
  lemma SchemaViewPassesThrough(input: Value, k: string)
    requires k != "command" && k != "sequence_id"
    ensures Member(SchemaView(input), k) == Member(input, k)
  {
  }

  /** Everything under `print` reads through the schema's copy exactly as in the report. */
  lemma PrintThroughView(input: Value, p: seq<string>)
    ensures Lookup(SchemaView(input), ["print"] + p) == Lookup(input, ["print"] + p)
  {
    var keys := ["print"] + p;
    assert keys[0] == "print" && keys[1..] == p;
    SchemaViewPassesThrough(input, "print");
  }

  /** `get(["print", k])`. */
  function PrintField(view: Value, k: string): Value {
    Lookup(view, ["print", k])
  }

  // --------------------------------------------------------- tray records

  /** The id a tray is stored under: `numU(t?.id)`, when finite. */
  function TrayId(t: Value): Option<Dec> {
    NumU(Member(t, "id"))
  }

  /** The record for a tray with resolved id `id`; it is the external spool exactly when the id is 254. */
  function TrayRecord(t: Value, id: Dec): (r: AmsTray)
    ensures r.id == id
    ensures r.external <==> id == Int(254)
  {
    AmsTray(
      id := id,
      trayType := StrU(Member(t, "tray_type")),
      colorHex := StrU(Member(t, "tray_color")),
      nozzleTempMin := NumU(Member(t, "nozzle_temp_min")),
      nozzleTempMax := NumU(Member(t, "nozzle_temp_max")),
      bedTemp := NumU(Member(t, "bed_temp")),
      remain := NumU(Member(t, "remain")),
      infoIdx := StrU(Member(t, "tray_info_idx")),
      external := id == Int(254))
  }

  /** The trays of every unit, in visiting order: `arr(unit?.tray)` of each element of `arr(ams.ams)`. */
  function TraysOf(units: seq<Value>): seq<Value> {
    if units == [] then []
    else TraysOf(units[..|units| - 1]) + ArrOf(Member(units[|units| - 1], "tray"))
  }

  /** The `trays` record after visiting `ts` in order: each tray with a finite id is stored under it, later ones overwriting. */
  function ProjectTrays(ts: seq<Value>): map<Dec, AmsTray> {
    if ts == [] then map[] else StoreTray(ProjectTrays(ts[..|ts| - 1]), ts[|ts| - 1])
  }

  /** One visit of the inner `forEach`. */
  function StoreTray(m: map<Dec, AmsTray>, t: Value): map<Dec, AmsTray> {
    match TrayId(t)
    case Some(id) => m[id := TrayRecord(t, id)]
    case None => m
  }

  lemma ProjectTraysSnoc(ts: seq<Value>, t: Value)
    ensures ProjectTrays(ts + [t]) == StoreTray(ProjectTrays(ts), t)
  {
    assert (ts + [t])[..|ts|] == ts;
  }

  lemma TraysOfSnoc(units: seq<Value>, i: nat)
    requires i < |units|
    ensures TraysOf(units[..i + 1]) == TraysOf(units[..i]) + ArrOf(Member(units[i], "tray"))
  {
    assert units[..i + 1][..i] == units[..i];
  }

  /** The nested `forEach` that fills `trays`. */
  method CollectTrays(units: seq<Value>) returns (trays: map<Dec, AmsTray>)
    ensures trays == ProjectTrays(TraysOf(units))
  {
    trays := map[];
    var i := 0;
    while i < |units|
      invariant 0 <= i <= |units|
      invariant trays == ProjectTrays(TraysOf(units[..i]))
    {
      trays := StoreUnitTrays(trays, TraysOf(units[..i]), ArrOf(Member(units[i], "tray")));
      TraysOfSnoc(units, i);
      i := i + 1;
    }
    assert units[..i] == units;
  }

  /** The inner `forEach`: visits one unit's trays, given the record built from the trays visited before. */
  method StoreUnitTrays(before: map<Dec, AmsTray>, ghost done: seq<Value>, trayArr: seq<Value>) returns (trays: map<Dec, AmsTray>)
    requires before == ProjectTrays(done)
    ensures trays == ProjectTrays(done + trayArr)
  {
    trays := before;
    var j := 0;
    assert done + trayArr[..0] == done;
    while j < |trayArr|
      invariant 0 <= j <= |trayArr|
      invariant trays == ProjectTrays(done + trayArr[..j])
    {
      var t := trayArr[j];
      ghost var prev := trays;
      var tid := TrayId(t);
      if tid.Some? {
        trays := trays[tid.value := TrayRecord(t, tid.value)];
      }
      assert trays == StoreTray(prev, t);
      ProjectTraysSnoc(done + trayArr[..j], t);
      assert done + trayArr[..j + 1] == done + trayArr[..j] + [t];
      j := j + 1;
    }
    assert trayArr[..j] == trayArr;
  }

  // ------------------------------------------------------------- sections

  function Temps(view: Value): Temperatures {
    Temperatures(
      nozzle := NumU(PrintField(view, "nozzle_temper")),
      nozzleTarget := NumU(PrintField(view, "nozzle_target_temper")),
      bed := NumU(PrintField(view, "bed_temper")),
      bedTarget := NumU(PrintField(view, "bed_target_temper")),
      chamber := NumU(PrintField(view, "chamber_temper")))
  }

  function Fans(view: Value): FanSpeeds {
    FanSpeeds(
      part := NumU(PrintField(view, "cooling_fan_speed")),
      chamber := NumU(PrintField(view, "big_fan2_speed")),
      aux := NumU(PrintField(view, "big_fan1_speed")),
      heatbreak := NumU(PrintField(view, "heatbreak_fan_speed")))
  }

  function LightsOf(view: Value): Lights {
    var list := ArrOf(PrintField(view, "lights_report"));
    Lights(chamber := FindLightMode(list, "chamber_light"), work := FindLightMode(list, "work_light"))
  }

  function IpcamOf(view: Value): Option<Ipcam> {
    match ObjU(PrintField(view, "ipcam"))
    case None => None
    case Some(c) =>
      Some(Ipcam(
        enabled := StrOr(Member(c, "ipcam_dev"), "0") == "1",
        record := StrU(Member(c, "ipcam_record")).GetOr("disable"),
        timelapse := StrU(Member(c, "timelapse")).GetOr("disable"),
        resolution := EmptyToUndef(StrU(Member(c, "resolution"))),
        tutkServer := StrU(Member(c, "tutk_server")),
        modeBits := NumU(Member(c, "mode_bits"))))
  }

  /** `!!newVer?.new_ver && newVer?.new_ver !== newVer?.cur_ver`. */
  predicate HasNewVersion(newVer: Value) {
    Truthy(Member(newVer, "new_ver")) && !StrictEquals(Member(newVer, "new_ver"), Member(newVer, "cur_ver"))
  }

  /** The first entry of `new_ver_list`, undefined when there is none. */
  function FirstNewVersion(up: Value): Value {
    var list := ArrOf(Member(up, "new_ver_list"));
    if |list| > 0 then list[0] else Undefined
  }

  function UpgradeOf(view: Value): Option<Upgrade> {
    match ObjU(PrintField(view, "upgrade_state"))
    case None => None
    case Some(up) =>
      var nv := FirstNewVersion(up);
      Some(Upgrade(
        status := StrOr(Member(up, "status"), "UNKNOWN"),
        progressPct := ParseProgressPct(Member(up, "progress")),
        message := StrU(Member(up, "message")),
        hasNewVersion := HasNewVersion(nv),
        currentVersion := StrU(Member(nv, "cur_ver")),
        newVersion := StrU(Member(nv, "new_ver"))))
  }

  /** `obj(get(["print", "ams"])) ?? {}`. */
  function AmsRaw(view: Value): Value {
    ObjU(PrintField(view, "ams")).GetOr(Obj(map[]))
  }

  const AmsKeys: seq<string> := ["tray_now", "tray_pre", "ams_exist_bits", "tray_is_bbl_bits", "version"]

  /** The AMS section, given the projected trays. */
  function AmsWith(view: Value, trays: map<Dec, AmsTray>): Option<AmsState> {
    var a := AmsRaw(view);
    if |trays| > 0 || HasAny(a, AmsKeys) then
      Some(AmsState(
        trays := trays,
        trayNow := NumU(Member(a, "tray_now")),
        trayPre := NumU(Member(a, "tray_pre")),
        existBits := StrU(Member(a, "ams_exist_bits")).OrElse(StrU(PrintField(view, "ams_exist_bits"))),
        isBblBits := StrU(Member(a, "tray_is_bbl_bits")).OrElse(StrU(PrintField(view, "tray_is_bbl_bits"))),
        version := NumU(Member(a, "version")).OrElse(NumU(PrintField(view, "version")))))
    else None
  }

  /** The trays of the report, as the normaliser projects them. */
  function ReportTrays(view: Value): map<Dec, AmsTray> {
    ProjectTrays(TraysOf(ArrOf(Member(AmsRaw(view), "ams"))))
  }

  function VtTrayOf(view: Value): Option<AmsTray> {
    match ObjU(PrintField(view, "vt_tray"))
    case None => None
    case Some(vt) => Some(TrayRecord(vt, NumOr(Member(vt, "id"), Int(254))))
  }

  function JobOf(view: Value): Job {
    var stage := PrintField(view, "mc_print_stage");
    Job(
      stage := match StrU(stage)
        case Some(s) => Some(StageText(s))
        case None => if NumU(stage).Some? then Some(StageNumber(NumU(stage).value)) else None,
      subStage := NumU(PrintField(view, "mc_print_sub_stage")),
      percent := NumU(PrintField(view, "mc_percent")),
      remainingSeconds := NumU(PrintField(view, "mc_remaining_time")),
      file := StrU(PrintField(view, "gcode_file")))
  }

  function NetworkOf(view: Value): Option<seq<NetworkInfo>> {
    var info := ArrOf(Lookup(view, ["print", "net", "info"]));
    var net := seq(|info|, i requires 0 <= i < |info| =>
      NetworkInfo(ip := NumU(Member(info[i], "ip")), mask := NumU(Member(info[i], "mask"))));
    if |net| > 0 then Some(net) else None
  }

  /** The snapshot assembled from a report whose trays have already been projected. */
  function Assemble(input: Value, now: int, trays: map<Dec, AmsTray>): PrinterState {
    var view := SchemaView(input);
    PrinterState(
      raw := input,
      timestamp := now,
      command := StrU(PrintField(view, "command")).OrElse(StrU(Lookup(view, ["command"]))),
      sequenceId := Coalesce(PrintField(view, "sequence_id"), Lookup(view, ["sequence_id"])),
      lifecycle := StrU(PrintField(view, "lifecycle")),
      printType := StrU(PrintField(view, "print_type")),
      gcodeState := StrU(PrintField(view, "gcode_state")),
      job := JobOf(view),
      temps := Temps(view),
      fans := Fans(view),
      lights := LightsOf(view),
      ipcam := IpcamOf(view),
      upgrade := UpgradeOf(view),
      ams := AmsWith(view, trays),
      vtTray := VtTrayOf(view),
      online := Online(
        ahb := BoolU(Lookup(view, ["print", "online", "ahb"])),
        rfid := BoolU(Lookup(view, ["print", "online", "rfid"])),
        version := Lookup(view, ["print", "online", "version"])),
      wifiSignalDbm := ParseDbmU(StrU(PrintField(view, "wifi_signal"))),
      homeFlag := NumU(PrintField(view, "home_flag")),
      nozzleDiameter := ParseNozzleDiameterU(PrintField(view, "nozzle_diameter")),
      nozzleType := StrU(PrintField(view, "nozzle_type")),
      network := NetworkOf(view))
  }

  /** The snapshot `normalizeRawStatus(input)` returns at clock reading `now`. */
  function Normalized(input: Value, now: int): PrinterState {
    Assemble(input, now, ReportTrays(SchemaView(input)))
  }

  /** `normalizeRawStatus(input)`, with the clock reading `now` passed in. */
  method NormalizeRawStatus(input: Value, now: int) returns (state: PrinterState)
    ensures state == Normalized(input, now)
    ensures state.raw == input && state.timestamp == now
  {
    var view := SchemaView(input);
    var amsRaw := AmsRaw(view);
    var trays := CollectTrays(ArrOf(Member(amsRaw, "ams")));
    state := Assemble(input, now, trays);
  }

  // ------------------------------------------------------- tray projection

  /** A key of the projected record is exactly the finite id of some tray. */
  lemma {:induction false} ProjectTraysKeys(ts: seq<Value>, id: Dec)
    ensures id in ProjectTrays(ts) <==> exists i :: 0 <= i < |ts| && TrayId(ts[i]) == Some(id)
    decreases |ts|
  {
    if ts != [] {
      var init := ts[..|ts| - 1];
      var last := ts[|ts| - 1];
      ProjectTraysKeys(init, id);
      StoreTrayKeys(ProjectTrays(init), last, id);
      if exists i :: 0 <= i < |ts| && TrayId(ts[i]) == Some(id) {
        var i :| 0 <= i < |ts| && TrayId(ts[i]) == Some(id);
        if i < |init| {
          assert init[i] == ts[i];
        }
      }
      if id in ProjectTrays(init) {
        var i :| 0 <= i < |init| && TrayId(init[i]) == Some(id);
        assert ts[i] == init[i];
      }
    }
  }

  lemma StoreTrayKeys(m: map<Dec, AmsTray>, t: Value, id: Dec)
    ensures id in StoreTray(m, t) <==> id in m || TrayId(t) == Some(id)
  {
  }

  /** The record under an id is built from the LAST tray carrying that id: later trays overwrite earlier ones. */
  lemma {:induction false} ProjectTraysLastWins(ts: seq<Value>, id: Dec, i: nat)
    requires i < |ts| && TrayId(ts[i]) == Some(id)
    requires forall j :: i < j < |ts| ==> TrayId(ts[j]) != Some(id)
    ensures id in ProjectTrays(ts) && ProjectTrays(ts)[id] == TrayRecord(ts[i], id)
    decreases |ts|
  {
    if i < |ts| - 1 {
      var init := ts[..|ts| - 1];
      assert init[i] == ts[i];
      assert forall j :: i < j < |init| ==> init[j] == ts[j];
      ProjectTraysLastWins(init, id, i);
    }
  }

  /** Every stored record carries its key as id, and is the external spool exactly when that id is 254. */
  lemma {:induction false} ProjectTraysRecords(ts: seq<Value>)
    ensures forall id :: id in ProjectTrays(ts) ==>
      ProjectTrays(ts)[id].id == id && (ProjectTrays(ts)[id].external <==> id == Int(254))
    decreases |ts|
  {
    if ts != [] {
      ProjectTraysRecords(ts[..|ts| - 1]);
    }
  }

  /** A tray whose id is not a finite number is skipped. */
  lemma ProjectTraysSkips(ts: seq<Value>, t: Value)
    requires TrayId(t).None?
    ensures ProjectTrays(ts + [t]) == ProjectTrays(ts)
  {
    ProjectTraysSnoc(ts, t);
  }

  // ------------------------------------------------------------------ AMS

  /** The AMS section is present exactly when some tray was projected or the AMS object reports one of its five fields. */
  lemma AmsPresence(input: Value, now: int)
    ensures var view := SchemaView(input);
      Normalized(input, now).ams.Some? <==>
        |ReportTrays(view)| > 0 || HasAny(AmsRaw(view), ["tray_now", "tray_pre", "ams_exist_bits", "tray_is_bbl_bits", "version"])
  {
  }

  /** The snapshot's AMS section is the one assembled from the report's own trays. */
  lemma NormalizedAms(input: Value, now: int)
    ensures Normalized(input, now).ams == AmsWith(SchemaView(input), ReportTrays(SchemaView(input)))
  {
  }

  lemma AmsWithBits(view: Value, trays: map<Dec, AmsTray>)
    requires AmsWith(view, trays).Some?
    ensures var a := AmsWith(view, trays).value;
      (a.existBits.None? <==> IsNullish(Member(AmsRaw(view), "ams_exist_bits")) && IsNullish(PrintField(view, "ams_exist_bits"))) &&
      (!IsNullish(Member(AmsRaw(view), "ams_exist_bits")) ==> a.existBits == Some(ToStr(Member(AmsRaw(view), "ams_exist_bits")))) &&
      (IsNullish(Member(AmsRaw(view), "ams_exist_bits")) && !IsNullish(PrintField(view, "ams_exist_bits")) ==>
        a.existBits == Some(ToStr(PrintField(view, "ams_exist_bits")))) &&
      (a.isBblBits.None? <==> IsNullish(Member(AmsRaw(view), "tray_is_bbl_bits")) && IsNullish(PrintField(view, "tray_is_bbl_bits"))) &&
      (!IsNullish(Member(AmsRaw(view), "tray_is_bbl_bits")) ==> a.isBblBits == Some(ToStr(Member(AmsRaw(view), "tray_is_bbl_bits")))) &&
      (IsNullish(Member(AmsRaw(view), "tray_is_bbl_bits")) && !IsNullish(PrintField(view, "tray_is_bbl_bits")) ==>
        a.isBblBits == Some(ToStr(PrintField(view, "tray_is_bbl_bits"))))
  {
  }

  lemma AmsWithVersion(view: Value, trays: map<Dec, AmsTray>)
    requires AmsWith(view, trays).Some?
    ensures var raw := ToNumber(Member(AmsRaw(view), "version"));
      var top := ToNumber(PrintField(view, "version"));
      var a := AmsWith(view, trays).value;
      (raw.Finite? ==> a.version == Some(raw.d)) &&
      (!raw.Finite? && top.Finite? ==> a.version == Some(top.d)) &&
      (a.version.None? <==> !raw.Finite? && !top.Finite?)
  {
    NumUFinite(Member(AmsRaw(view), "version"));
    NumUFinite(PrintField(view, "version"));
  }

  /**
   * The feed-unit bit masks fall back from the AMS object to the
   * print-level field; `None` (null) only when both are null or missing.
   */
  lemma AmsBitsFallback(input: Value, now: int)
    requires Normalized(input, now).ams.Some?
    ensures var view := SchemaView(input);
      var a := Normalized(input, now).ams.value;
      (a.existBits.None? <==> IsNullish(Member(AmsRaw(view), "ams_exist_bits")) && IsNullish(PrintField(view, "ams_exist_bits"))) &&
      (!IsNullish(Member(AmsRaw(view), "ams_exist_bits")) ==> a.existBits == Some(ToStr(Member(AmsRaw(view), "ams_exist_bits")))) &&
      (IsNullish(Member(AmsRaw(view), "ams_exist_bits")) && !IsNullish(PrintField(view, "ams_exist_bits")) ==>
        a.existBits == Some(ToStr(PrintField(view, "ams_exist_bits")))) &&
      (a.isBblBits.None? <==> IsNullish(Member(AmsRaw(view), "tray_is_bbl_bits")) && IsNullish(PrintField(view, "tray_is_bbl_bits"))) &&
      (!IsNullish(Member(AmsRaw(view), "tray_is_bbl_bits")) ==> a.isBblBits == Some(ToStr(Member(AmsRaw(view), "tray_is_bbl_bits")))) &&
      (IsNullish(Member(AmsRaw(view), "tray_is_bbl_bits")) && !IsNullish(PrintField(view, "tray_is_bbl_bits")) ==>
        a.isBblBits == Some(ToStr(PrintField(view, "tray_is_bbl_bits"))))
  {
    NormalizedAms(input, now);
    AmsWithBits(SchemaView(input), ReportTrays(SchemaView(input)));
  }

  /**
   * The feed unit's firmware version is the AMS object's `version` when that
   * reads as a finite number, else the print-level `version` read the same
   * way; absent when neither does.
   */
  lemma AmsVersionFallback(input: Value, now: int)
    requires Normalized(input, now).ams.Some?
    ensures var view := SchemaView(input);
      var raw := ToNumber(Member(AmsRaw(view), "version"));
      var top := ToNumber(PrintField(view, "version"));
      var a := Normalized(input, now).ams.value;
      (raw.Finite? ==> a.version == Some(raw.d)) &&
      (!raw.Finite? && top.Finite? ==> a.version == Some(top.d)) &&
      (a.version.None? <==> !raw.Finite? && !top.Finite?)
  {
    NormalizedAms(input, now);
    AmsWithVersion(SchemaView(input), ReportTrays(SchemaView(input)));
  }

  /**
   * The snapshot holds a tray under `id` exactly when some tray of some
   * reported unit has `id` as its finite id, and that record is the one for
   * `id`, the external spool exactly when `id` is 254.
   */
  lemma AmsTrays(input: Value, now: int, id: Dec)
    requires Normalized(input, now).ams.Some?
    ensures var ts := TraysOf(ArrOf(Member(AmsRaw(SchemaView(input)), "ams")));
      var trays := Normalized(input, now).ams.value.trays;
      (id in trays <==> exists i :: 0 <= i < |ts| && TrayId(ts[i]) == Some(id)) &&
      (id in trays ==> trays[id].id == id && (trays[id].external <==> id == Int(254)))
  {
    var ts := TraysOf(ArrOf(Member(AmsRaw(SchemaView(input)), "ams")));
    AmsTraysProjected(input, now);
    ProjectedTrayFacts(ts, Normalized(input, now).ams.value.trays, id);
  }

  lemma AmsTraysProjected(input: Value, now: int)
    requires Normalized(input, now).ams.Some?
    ensures Normalized(input, now).ams.value.trays == ProjectTrays(TraysOf(ArrOf(Member(AmsRaw(SchemaView(input)), "ams"))))
  {
    var view := SchemaView(input);
    NormalizedAms(input, now);
    AmsWithTrays(view, ReportTrays(view));
  }

  lemma AmsWithTrays(view: Value, trays: map<Dec, AmsTray>)
    requires AmsWith(view, trays).Some?
    ensures AmsWith(view, trays).value.trays == trays
  {
  }

  lemma ProjectedTrayFacts(ts: seq<Value>, trays: map<Dec, AmsTray>, id: Dec)
    requires trays == ProjectTrays(ts)
    ensures id in trays <==> exists i :: 0 <= i < |ts| && TrayId(ts[i]) == Some(id)
    ensures id in trays ==> trays[id].id == id && (trays[id].external <==> id == Int(254))
  {
    ProjectTraysKeys(ts, id);
    ProjectTraysRecords(ts);
  }

  // --------------------------------------------------------------- vt_tray

  /** The external spool: absent unless `vt_tray` is an object; id 254 unless `vt_tray.id` is a finite number. */
  lemma VtTrayRules(input: Value, now: int)
    ensures var view := SchemaView(input);
      var vt := PrintField(view, "vt_tray");
      var r := Normalized(input, now).vtTray;
      (r.None? <==> !IsObject(vt)) &&
      (r.Some? ==> r.value.id == NumU(Member(vt, "id")).GetOr(Int(254))) &&
      (r.Some? ==> (r.value.external <==> r.value.id == Int(254)))
  {
    var view := SchemaView(input);
    var vt := PrintField(view, "vt_tray");
    if IsObject(vt) {
      NumOrDefault(Member(vt, "id"), Int(254));
    }
  }

  // --------------------------------------------------------------- upgrade

  /**
   * A new firmware is available exactly when the first listed entry names
   * a non-empty new version that differs from the current one.
   */
  lemma HasNewVersionText(nv: Value, cur: string, offered: string)
    requires nv.Obj? && Member(nv, "new_ver") == Str(offered) && Member(nv, "cur_ver") == Str(cur)
    ensures HasNewVersion(nv) <==> offered != "" && offered != cur
  {
  }

  /** With the new version missing there is never an upgrade; numbers compare by value. */
  lemma HasNewVersionCases(nv: Value, d: Dec)
    ensures Member(nv, "new_ver") == Undefined ==> !HasNewVersion(nv)
    ensures nv.Obj? && Member(nv, "new_ver") == Number(d) && Member(nv, "cur_ver") == Number(d) ==> !HasNewVersion(nv)
  {
  }

  // ---------------------------------------------------------------- examples

  /** A bed temperature that is not a number leaves the reading absent instead of failing. */
  lemma BedNotANumber(now: int)
    ensures var input := Obj(map["print" := Obj(map["bed_temper" := Str("not-a-number")])]);
      Normalized(input, now).temps.bed.None?
  {
    var input := Obj(map["print" := Obj(map["bed_temper" := Str("not-a-number")])]);
    var view := SchemaView(input);
    var p := Obj(map["bed_temper" := Str("not-a-number")]);
    assert Member(view, "print") == p;
    assert Lookup(view, ["print", "bed_temper"]) == Lookup(p, ["bed_temper"]) by {
      assert ["print", "bed_temper"][1..] == ["bed_temper"];
    }
    assert Lookup(p, ["bed_temper"]) == Str("not-a-number") by {
      assert ["bed_temper"][1..] == [];
    }
    NumUNotANumber();
  }

  /** The loose schema turns a top-level numeric `sequence_id` into text, which the snapshot then carries. */
  lemma TopLevelSequenceIdIsText(now: int)
    ensures var input := Obj(map["sequence_id" := Number(Int(5))]);
      Normalized(input, now).sequenceId == Str("5")
  {
    var input := Obj(map["sequence_id" := Number(Int(5))]);
    var view := SchemaView(input);
    assert ToStr(Number(Int(5))) == "5" by {
      assert NatToDigits(5) == "5";
    }
    assert Member(view, "sequence_id") == Str("5");
    assert Member(view, "print") == Undefined;
    assert PrintField(view, "sequence_id") == Undefined by {
      assert ["print", "sequence_id"][1..] == ["sequence_id"];
    }
    assert Lookup(view, ["sequence_id"]) == Str("5") by {
      assert ["sequence_id"][1..] == [];
    }
    assert Normalized(input, now).sequenceId == Coalesce(PrintField(view, "sequence_id"), Lookup(view, ["sequence_id"]));
  }

  /** A null print stage is read as stage 0: the text reading is absent but `Number(null)` is 0. */
  lemma NullStageIsZero(view: Value)
    requires PrintField(view, "mc_print_stage") == Null
    ensures JobOf(view).stage == Some(StageNumber(Int(0)))
  {
  }
}
