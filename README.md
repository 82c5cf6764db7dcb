# bambu-link core, modelled in Dafny

This project models the three computational parts of the bambu-link printer client:

- **The status normaliser and the state-tree utilities** (`src/state.ts`).
  - `normalizeRawStatus` takes a loosely shaped printer report and projects it into the typed printer snapshot.
  - `mergeDeep` and `mergeDefined` fold a partial snapshot into a snapshot.
  - `select` and `updateAtPath` read and write along dotted paths.
- **The command/reply correlator of `MqttStreamClient`** (`src/mqtt.ts`).
  - Commands wait in `pendingCommands` under their sequence id.
  - An entry leaves the map on a matching reply, when its timer fires, or when the publish fails.
  - Every other message is re-emitted as data.
- **The G-code builders** (`bambu-link/src/actions/gcodeActions.ts`).
  - Each builder overwrites the `param` of one shared `print` payload with a G-code text.
  - The exported wrappers log that payload and then publish it as JSON.

JavaScript values are modelled by a datatype `JsValue.Value`: undefined, null, booleans, numbers, strings, arrays and plain objects. Numbers are exact decimals (`Numbers.Dec`). `Number(v)` is `JsValue.ToNumber`, which yields a finite decimal, NaN or an infinity. `String(v)` is `JsValue.ToStr`. `Number("")` and `Number(null)` are 0, as in JavaScript.

The layout follows the code:

| file | contents |
|---|---|
| `numbers.dfy` | decimal numbers, their text form, and number parsing |
| `js_value.dfy` | values, property access, the two coercions |
| `text.dfy` | `split` and `join` on one character |
| `coerce.dfy` | the small readers at the bottom of `state.ts` |
| `paths.dfy` | `get`, `select`, `updateAtPath` |
| `merge.dfy` | `mergeDeep`, `mergeDefined` |
| `printer_types.dfy` | the snapshot's record types |
| `normalize.dfy` | `normalizeRawStatus` |
| `correlator.dfy` | the `MqttStreamClient` state machine |
| `gcode.dfy` | the payload builders, enums and JSON text |

The correlator is a class whose fields are the client's own:

- `connected`, `sequenceCounter` and `pendingCommands`.
- Explicit stand-ins for what the runtime holds:
  - the armed timers (`timers`);
  - the publishes still in flight (`publishes`);
  - a ghost `log` of what callers and listeners observe.

Each runtime callback is a method: a reply arriving, a timer firing, a publish succeeding or failing.

Two behaviours of the client are worth stating on their own:

- **Sequence ids.** `sequenceCounter` starts at 0 and no method assigns it (`src/mqtt.ts:26`). The id of a command comes from its caller. So only replies whose sequence id is at most 0 reach reply handling. Any other id goes to the data event: a positive integer or fraction, positive text such as "7", +Infinity, or text that reads as NaN (`Correlator.PositiveReplyIsData`, `Correlator.AboveZeroNeverAtMost`, `Correlator.PositiveTextAboveZero`).
- **Timers.** A command's timer is cleared only on a publish error (`src/mqtt.ts:169`), never after a reply. `Correlator.StaleTimerScenario` states the consequence: a stale timer deletes a newer command that reuses the id, and that command's reply is then emitted as plain data.

## Model

| member | source | states |
|---|---|---|
| Numbers.NumberStringRoundTrip | src/state.ts:291-298 | Reading back the decimal text of any finite number gives the same number: `Number(String(d)) === d`. |
| Numbers.IntStringRoundTrip | bambu-link/src/actions/gcodeActions.ts:10-18 | The text a template literal renders for an integer reads back as that integer. |
| Numbers.NatToDigitsInjective | bambu-link/src/actions/gcodeActions.ts:25 | Distinct numbers render as distinct digit strings. |
| Coerce.NumUFinite | src/state.ts:295-298 | `numU(v)` is present exactly when `Number(v)` is finite, and then equals it. |
| Coerce.NumUCases | src/state.ts:295-298 | `numU("")` and `numU(null)` are 0, `numU(undefined)` is absent, and a number is itself. |
| Coerce.NumUText | src/state.ts:295-298 | The text of any finite number reads back as that number. |
| Coerce.NumUNonNumeral | src/state.ts:295-298 | Text that does not begin like a numeral yields absent, not 0. |
| Coerce.NumUNotANumber | src/state.ts:49 | `numU("not-a-number")` is absent. |
| Coerce.NumOrDefault | src/state.ts:291-294 | `num(v, d)` is `numU(v)` when present and `d` otherwise. |
| Coerce.ObjU | src/state.ts:279-281 | `obj(v)` is present exactly for non-null objects (arrays included) and is then `v` itself. |
| Coerce.ArrOf | src/state.ts:282-284 | `arr(v)` is the array's own elements for an array and the empty list for anything else. |
| Coerce.StrOr | src/state.ts:285-287 | `str(v, d)` is `d` for null and undefined and `String(v)` otherwise. |
| Coerce.StrU | src/state.ts:288-290 | `strU(v)` is absent exactly for null and undefined, and `String(v)` otherwise; a string is returned unchanged. |
| Coerce.BoolU | src/state.ts:299-304 | `boolU` is present exactly for booleans and the texts "true" and "false"; it is true exactly for `true` and "true". |
| Coerce.EmptyToUndef | src/state.ts:305-307 | The text is kept exactly when it is present and not blank after trimming. |
| Coerce.HasAnySnoc | src/state.ts:333-335 | `hasAny` over no keys is false, and one more key adds exactly the test that this key is not undefined. |
| Coerce.FirstWithNode | src/state.ts:312 | `find` stops at the first entry whose `node` matches, and no earlier entry matches. |
| Coerce.FindLightModeFirstMatch | src/state.ts:308-316 | The mode comes from the first matching entry, and only "on", "off" or "flashing" count. |
| Coerce.FindLightModeNoMatch | src/state.ts:308-316 | With no entry for the node, the mode is absent. |
| Coerce.DigitRun | src/state.ts:319 | The length of the maximal run of digits starting at a position. |
| Coerce.FirstDigit | src/state.ts:330 | Where the first digit lies; absent only when no digit follows. |
| Coerce.ParseDbmUReadsInteger | src/state.ts:317-321 | Any integer written in text with no digit before it, and no digit right after it, is read back exactly, sign included. |
| Coerce.ParseDbmUSigned | src/state.ts:317-321 | The same reading, stated on sign and magnitude. |
| Coerce.ParseDbmUExample | src/state.ts:317-321 | "-45dBm" reads as -45. |
| Coerce.ParseDbmUAbsent | src/state.ts:317-321 | "" and "n/a" read as absent. |
| Coerce.ParseNozzleDiameterU | src/state.ts:322-326 | The diameter is absent exactly for null, undefined and "". Otherwise it is the number when `Number(v)` is finite, and the text `String(v)` when it is not. |
| Coerce.ParseProgressPct | src/state.ts:327-332 | The progress is absent for null, undefined and "", and present only when the text has a digit. |
| Coerce.FirstDigitAt | src/state.ts:330 | The match starts at the first digit of the text. |
| Coerce.ProgressReading | src/state.ts:330-331 | The reading is the decimal spelled from the first digit to the end of the match. |
| Coerce.WholeMatchEnd | src/state.ts:330 | Digits not followed by a dot and a digit make up the whole match. |
| Coerce.DottedMatchEnd | src/state.ts:330 | Digits, a dot and digits make up the match, fraction included. |
| Coerce.ProgressPctWhole | src/state.ts:327-332 | Text without digits, then digits, then anything that does not continue the number (such as "%"), reads as the number those digits spell. |
| Coerce.ProgressPctDotted | src/state.ts:327-332 | The same with a fraction: "12.5%" reads as 12.5, with as many decimal places as the fraction has digits. |
| Coerce.ProgressPctNoDigit | src/state.ts:327-332 | Text with no digit has no progress reading. |
| Coerce.ProgressPctViaText | src/state.ts:327-332 | Any value other than null, undefined and "" is read through its text `String(p)`, so the text lemmas cover every input. |
| Coerce.ProgressPctNegativeNumber | src/state.ts:327-332 | The pattern has no sign, so the number -5 reads as 5. |
| Text.Split | src/state.ts:247 | `split` never yields an empty list, and no piece holds the separator. |
| Text.SplitJoin | src/state.ts:247 | Splitting joined text gives back the parts, provided no part holds the separator. |
| Text.SplitCons | src/state.ts:247 | Text without the separator, then the separator, splits off as one piece ahead of the rest. |
| Paths.NonEmpty | src/state.ts:247 | `filter(Boolean)` keeps exactly the non-empty keys: each kept key is non-empty and from the input, and every non-empty input key is kept. |
| Paths.NonEmptyAppend | src/state.ts:247 | Filtering keeps order: the filter of a concatenation is the concatenation of the filters. |
| Paths.NonEmptySingle | src/state.ts:247 | A single key is kept exactly when it is not empty. |
| Paths.PathKeys | src/state.ts:247 | Every key of a dotted path is non-empty and free of dots. |
| Paths.PathKeysJoin | src/state.ts:247 | Non-empty, dot-free keys are recovered from their dotted path. |
| Paths.PathKeysOnlyDots | src/state.ts:247-248 | The empty path and paths made only of dots have no keys. |
| Paths.PathKeysDropsEmpty | src/state.ts:247 | The keys of a dotted path are its non-empty pieces, in order, so doubled, leading and trailing dots are ignored. |
| Paths.PathKeysDoubleDot | src/state.ts:247 | `"a..b"` has the keys "a" and "b". |
| Paths.Get | src/state.ts:37-44 | The loop of `get` computes the total lookup `Lookup`, which is undefined at the first non-object before a key. |
| Paths.LookupAppend | src/state.ts:37-44 | Looking up along `a + b` is looking up `b` from the result of `a`. |
| Paths.LookupThroughNonObject | src/state.ts:40 | A non-object anywhere before a key makes the whole lookup undefined, never an error. |
| Paths.Select | src/state.ts:263-274 | The loop of `select` computes `Selected`, which stops with undefined only at null or undefined. |
| Paths.LookupAgreesWithSelected | src/state.ts:37-44 | Wherever `get` finds a value, `select` finds the same value. |
| Paths.ChildFor | src/state.ts:255-257 | A write always descends into an object. |
| Paths.SelectUpdatedAt | src/state.ts:247-274 | `select(updateAtPath(s, p, v), p) == v` for the intended, non-aliasing update. |
| Paths.UpdatedAtOtherKey | src/state.ts:249-259 | A write leaves every other key of the top-level object as it was. |
| Paths.UpdatedAtReplacesNonObject | src/state.ts:256 | A non-object met before the last key is replaced by a fresh `{}`. |
| Paths.ShallowClone | src/state.ts:249-251 | The clone is an object, and equal in value to an object argument. |
| Paths.UpdateAtPath | src/state.ts:242-261 | Keys empty after splitting: the state itself. Otherwise: the clone with the value written at the path. The caller's own state afterwards is given by `CallerViewAfterUpdate`, which spells out the sharing by hand. |
| Paths.Descend | src/state.ts:252-258 | Each object visited is the previous one's member under the next key, or a fresh `{}` in place of a non-object. |
| Paths.WriteBack | src/state.ts:259-260 | Writing the value at the last key of the visited objects yields the tree with the value written at the whole path. |
| Paths.UpdateAtPathChangesCaller | src/state.ts:249-259 | `updateAtPath({a:{b:1}}, "a.b", 2)` also turns the caller's own state into `{a:{b:2}}`. |
| Paths.UpdatedAtLeavesArgument | src/state.ts:242-261 | The intended update makes the value readable at the path. On values the argument cannot change, so its second clause only records that the clone equals the argument. |
| Merge.Written | src/state.ts:218-219 | The keys a patch writes are exactly its entries that are not undefined. |
| Merge.Merged | src/state.ts:212-232 | The merge is always an object. |
| Merge.MergeDeep | src/state.ts:212-232 | The copy-and-update loop yields `Merged(base, patch)`, whatever order the entries are visited in. |
| Merge.PartialStep | src/state.ts:218-229 | One pass of the loop: an undefined entry leaves `out` as it is; any other entry stores its merged value under its key. |
| Merge.PartialComplete | src/state.ts:218-231 | Once every entry has been visited, `out` is the merge. |
| Merge.MergeDefined | src/state.ts:234-240 | A null or undefined base gives the patch unchanged; otherwise the result is the deep merge. |
| Merge.MergedKeeps | src/state.ts:218-219 | Keys the patch omits or leaves undefined keep their base value. |
| Merge.MergedReplaces | src/state.ts:220-228 | A written key whose old or new value is not a plain object takes the patch value whole, arrays included. |
| Merge.MergedRecurses | src/state.ts:220-226 | A written key holding plain objects on both sides merges them recursively. |
| Merge.MergedEmptyPatch | src/state.ts:217-219 | `mergeDeep(S, {})` is `S`. |
| Merge.MergedSelf | src/state.ts:212-232 | Merging a state into itself changes nothing. |
| Merge.MergedIdempotent | src/state.ts:212-232 | Applying the same patch twice is applying it once. |
| Merge.MergedIdempotentAt | src/state.ts:218-229 | The same, key by key. |
| Merge.MergedIntoEmpty | src/state.ts:212-232 | A patch with no undefined entries, merged into `{}`, is the patch. |
| Normalize.SchemaText | src/state.ts:20-23 | A text field of the loose schema is undefined for null and undefined, and `String(v)` for anything else. |
| Normalize.SchemaView | src/state.ts:25-34 | The schema succeeds exactly on objects, and any other input is read as it is. On an object, `command` and `sequence_id` read as their text conversion. |
| Normalize.SchemaViewPassesThrough | src/state.ts:25-31 | With `.passthrough()`, every member other than `command` and `sequence_id` reads the same through the schema's copy as in the input. |
| Normalize.PrintThroughView | src/state.ts:25-37 | Every path under `print` reads the same through the schema's copy as in the report. |
| Normalize.TrayRecord | src/state.ts:105-116 | A tray record carries its key as id and is the external spool exactly when the id is 254. |
| Normalize.CollectTrays | src/state.ts:97-119 | The nested `forEach` fills `trays` with the projection of every unit's trays, in visiting order. |
| Normalize.StoreUnitTrays | src/state.ts:102-118 | The inner `forEach` extends the record built so far to the projection of the trays visited before plus this unit's trays. |
| Normalize.ProjectTraysSnoc | src/state.ts:103-117 | Visiting one more tray stores it under its id if that id is finite. |
| Normalize.TraysOfSnoc | src/state.ts:101-102 | Visiting one more unit appends that unit's trays. |
| Normalize.ProjectTraysKeys | src/state.ts:104-106 | An id is a key exactly when some tray's id coerces to it. |
| Normalize.StoreTrayKeys | src/state.ts:104-106 | One visit adds exactly the tray's finite id to the keys. |
| Normalize.ProjectTraysLastWins | src/state.ts:106-116 | The record under an id comes from the last tray with that id. |
| Normalize.ProjectTraysRecords | src/state.ts:106-116 | Every stored record carries its key as id and is external exactly when the id is 254. |
| Normalize.ProjectTraysSkips | src/state.ts:104-105 | A tray whose id is not a finite number is skipped. |
| Normalize.NormalizeRawStatus | src/state.ts:33-206 | The snapshot is `Normalized(input, now)`, with the raw input and the clock reading kept. |
| Normalize.AmsPresence | src/state.ts:121-130 | `ams` is present exactly when a tray was projected or the AMS object defines one of its five fields. |
| Normalize.NormalizedAms | src/state.ts:121-144 | The snapshot's AMS section is the one assembled from the schema's view and the trays projected from the report. |
| Normalize.AmsWithBits | src/state.ts:134-141 | For any assembled AMS section: each bit mask is the AMS object's field as text, else the print-level one, else null. |
| Normalize.AmsWithVersion | src/state.ts:142 | For any assembled AMS section: the version is the AMS object's finite `version`, else the print-level one, else absent. |
| Normalize.AmsWithTrays | src/state.ts:130 | An assembled AMS section holds exactly the trays it was given. |
| Normalize.AmsBitsFallback | src/state.ts:134-141 | Each bit mask (`existBits`, `isBblBits`) is the AMS object's field as text when that is not null or undefined, else the print-level field as text, and null exactly when both are null or missing. |
| Normalize.AmsVersionFallback | src/state.ts:142 | The version is the AMS object's `version` when that reads as a finite number, else the print-level `version` read the same way, and absent exactly when neither does. |
| Normalize.AmsTrays | src/state.ts:100-144 | The snapshot holds a tray under an id exactly when some tray of some reported unit carries that finite id; the record carries that id and is the external spool exactly for 254. |
| Normalize.AmsTraysProjected | src/state.ts:98-119 | The snapshot's trays are the projection of every tray of every reported unit. |
| Normalize.ProjectedTrayFacts | src/state.ts:102-117 | In the projection, an id is a key exactly when some tray carries it, and its record carries that id. |
| Normalize.VtTrayRules | src/state.ts:146-159 | `vtTray` is absent unless `vt_tray` is an object. Its id is `vt.id` when finite and 254 otherwise. It is external exactly when that id is 254. |
| Normalize.HasNewVersionText | src/state.ts:84-95 | An upgrade is offered exactly when the new version is non-empty and differs from the current one. |
| Normalize.HasNewVersionCases | src/state.ts:84-95 | No new version means no upgrade; equal numbers compare equal. |
| Normalize.BedNotANumber | src/state.ts:49 | `bed_temper = "not-a-number"` leaves `temps.bed` absent instead of failing. |
| Normalize.TopLevelSequenceIdIsText | src/state.ts:28 | A top-level numeric `sequence_id` comes out of the schema as text. |
| Normalize.NullStageIsZero | src/state.ts:176-185 | A null print stage reads as stage 0. |
| Correlator.PendingKey | src/mqtt.ts:133 | A reply's sequence id matches a pending entry exactly when it is truthy and equal to a pending key. |
| Correlator.MqttStreamClient.constructor | src/mqtt.ts:26-27 | The counter starts at 0, nothing is pending, nothing is settled. |
| Correlator.MqttStreamClient.SetConnected | src/mqtt.ts:151 | Only the connection flag changes. |
| Correlator.MqttStreamClient.SendCommand | src/mqtt.ts:150-174 | Disconnected: rejects at once, with pending, timers and publishes unchanged. Connected: the new promise waits under its id, replacing any earlier one; its timer is armed and the command is published. |
| Correlator.MqttStreamClient.Reject | src/mqtt.ts:163 | A promise settles at most once: rejecting a settled promise changes nothing. |
| Correlator.MqttStreamClient.TimeoutFires | src/mqtt.ts:161-164 | The timer deletes its sequence's entry, whoever now holds it, and rejects its own promise naming the sequence. |
| Correlator.MqttStreamClient.PublishSucceeds | src/mqtt.ts:166-172 | Only the in-flight publish is retired. |
| Correlator.MqttStreamClient.PublishFails | src/mqtt.ts:166-172 | The entry is deleted, the timer cleared and the promise rejected with the publish error. |
| Correlator.MqttStreamClient.HandleCommandResponse | src/mqtt.ts:129-142 | A truthy pending sequence id resolves its promise with the whole message and removes the entry. Anything else is emitted as data on `dataUpdateTopic`. |
| Correlator.MqttStreamClient.HandleMessage | src/mqtt.ts:97-124 | Non-JSON is dropped with no change. A null message throws. Sequence ids at most the counter go to reply handling. Everything else is emitted as data with its own topic. |
| Correlator.AboveZeroNeverAtMost | src/mqtt.ts:26 | With the counter fixed at 0, the comparison `sequence <= sequenceCounter` fails exactly for ids above zero, +Infinity and NaN. |
| Correlator.PositiveTextAboveZero | src/mqtt.ts:26 | A positive id written as text, such as "7" or "0.5", converts to that number and fails the comparison too. |
| Correlator.PositiveReplyIsData | src/mqtt.ts:97-124 | A message whose id is above zero, +Infinity or NaN never reaches reply handling. It is emitted as data on its own topic, and nothing pending or settled changes. |
| Correlator.ZeroSequenceNeverMatches | src/mqtt.ts:133 | Sequence id 0 reaches reply handling but never matches. |
| Correlator.TextSequenceNeverMatches | src/mqtt.ts:133 | A sequence id written as text never matches a numeric key. |
| Correlator.StaleTimerScenario | src/mqtt.ts:133-136 | After a reply, a second command under the same id and the first timer firing, nothing is pending and the second reply is emitted as data. |
| Correlator.AnsweredThenReused | src/mqtt.ts:150-174 | After a reply under id -1 and a second command under the same id, the second command waits and the first command's timer is still armed. |
| Gcode.EnumObjectKeys | bambu-link/src/actions/gcodeActions.ts:10-18 | The enum object's keys are exactly the member names and their value texts. |
| Gcode.EnumObjectLookup | bambu-link/src/actions/gcodeActions.ts:10-18 | Every enum member reads both ways: name to value text, and value text to name. |
| Gcode.FanEnumWellFormed | bambu-link/src/actions/gcodeActions.ts:10-14 | The fan names and values are distinct. |
| Gcode.ToolEnumWellFormed | bambu-link/src/actions/gcodeActions.ts:15-18 | The tool names and values are distinct. |
| Gcode.FanCodes | bambu-link/src/actions/gcodeActions.ts:10-14 | PART, AUX and CHAMBER are 1, 2 and 3, and back. |
| Gcode.ToolCodes | bambu-link/src/actions/gcodeActions.ts:15-18 | BED is 140 and EXTRUDER is 104, and back. |
| Gcode.UnknownToolText | bambu-link/src/actions/gcodeActions.ts:25 | An unknown tool renders as "undefined". |
| Gcode.IntTextStart | bambu-link/src/actions/gcodeActions.ts:10-18 | A rendered integer begins with a digit or a minus sign, so it never collides with a member name. |
| Gcode.TempTextCodes | bambu-link/src/actions/gcodeActions.ts:24-27 | The bed heats with "M140 S<temp> \n" and the extruder with "M104 S<temp> \n". |
| Gcode.FanTextCodes | bambu-link/src/actions/gcodeActions.ts:28-31 | The part, aux and chamber fans are "M106 P1/P2/P3 S<speed> \n". |
| Gcode.UnsignedTextChars | bambu-link/src/actions/gcodeActions.ts:38 | The text of a number without its sign is digits, plus a point only when it has a fraction. |
| Gcode.NumToStringNoNewline | bambu-link/src/actions/gcodeActions.ts:38 | A rendered number, fractional or not, holds no newline. |
| Gcode.MoveLineFractional | bambu-link/src/actions/gcodeActions.ts:32-42 | A fractional jog: `move("X", 0.1)` writes "G1 X-0.1 F3000". |
| Gcode.MoveLineNoNewline | bambu-link/src/actions/gcodeActions.ts:38 | The move line holds no newline when the axis holds none. |
| Gcode.MoveLinesJoin | bambu-link/src/actions/gcodeActions.ts:33-40 | The move text is its eight newline-separated pieces, joined. |
| Gcode.MoveTextLines | bambu-link/src/actions/gcodeActions.ts:32-42 | A move is seven newline-terminated lines, the fifth "G1 <axis>-<distance> F3000". |
| Gcode.EscapeCharUnescapes | bambu-link/src/actions/gcodeActions.ts:49 | Each escaped character reads back as itself. |
| Gcode.UnicodeEscapeUnescapes | bambu-link/src/actions/gcodeActions.ts:49 | A control character written as `\u00XX` reads back as itself. |
| Gcode.JsonEscapeRoundTrip | bambu-link/src/actions/gcodeActions.ts:49 | Reading back the string body `JSON.stringify` writes gives the string. |
| Gcode.JsonEscapePlain | bambu-link/src/actions/gcodeActions.ts:49 | Text without quotes, backslashes or control characters is written as it is. |
| Gcode.JsonEscapeAppend | bambu-link/src/actions/gcodeActions.ts:49 | Escaping distributes over concatenation. |
| Gcode.HomeTextJson | bambu-link/src/actions/gcodeActions.ts:68 | The home text appears in the JSON as `"G28\n"`, escaped. |
| Gcode.GcodeActions.constructor | bambu-link/src/actions/gcodeActions.ts:2-8 | The payload starts as sequence id "1", command "gcode_line" and an empty param. |
| Gcode.GcodeActions.Home | bambu-link/src/actions/gcodeActions.ts:20-23 | Only `param` changes, to exactly "G28\n"; the shared payload itself is returned. |
| Gcode.GcodeActions.TempControl | bambu-link/src/actions/gcodeActions.ts:24-27 | Only `param` changes, to the temperature text; the shared payload is returned. |
| Gcode.GcodeActions.FanSpeed | bambu-link/src/actions/gcodeActions.ts:28-31 | Only `param` changes, to the fan text; the shared payload is returned. |
| Gcode.GcodeActions.Move | bambu-link/src/actions/gcodeActions.ts:32-42 | Only `param` changes, to the move text; the shared payload is returned. |
| Gcode.GcodeActions.Log | bambu-link/src/actions/gcodeActions.ts:67 | Appends the payload's contents at that moment to the log and nothing else. |
| Gcode.GcodeActions.Publish | bambu-link/src/actions/gcodeActions.ts:68 | Appends the payload's JSON text, on the topic `device/<serial>/report`, to what was published. |
| Gcode.GcodeActions.PublishHome | bambu-link/src/actions/gcodeActions.ts:66-69 | The logged payload is the published one: the JSON on the report topic is that payload's. |
| Gcode.GcodeActions.PublishTempControl | bambu-link/src/actions/gcodeActions.ts:52-58 | The same, for a temperature command. |
| Gcode.GcodeActions.PublishFanSpeed | bambu-link/src/actions/gcodeActions.ts:45-51 | The same, for a fan command. |
| Gcode.GcodeActions.PublishMove | bambu-link/src/actions/gcodeActions.ts:59-65 | The same, for a move. |

## Left out

- The MQTT connection, subscriptions and publishing itself (`src/mqtt.ts:46-92`). These are network I/O. A publish is an event in the log, and its completion is one of two explicit methods.
- Promises, `setTimeout`/`clearTimeout` and the `EventEmitter`. A timer firing, a promise settling and an emission are explicit method calls and ghost-log entries. No wall clock is modelled.
- `console.log`/`console.warn`: they do not change state, and are left out.
- `Date.now()` becomes the `now` parameter of `Normalize.NormalizeRawStatus`.
- `JSON.parse` on an incoming payload becomes an `Option<Value>` parameter of `HandleMessage`; `None` stands for a parse failure.
- The zod schema internals. Only their effect is modelled: success exactly on objects, with the top-level `command` and `sequence_id` turned into text.
- Correlator.MqttStreamClient.SendCommand: sequence ids are integers. A fractional or non-numeric id, which the TypeScript type excludes, is not modelled.
- Numbers in exponent notation: `String` of numbers at least 1e21 or below 1e-6, and `Number` of text with an exponent or a hex/octal/binary prefix. Such text reads as NaN in the model.
- Floating point: numbers are exact decimals, so rounding of very long decimals is not modelled.
- Prototype members (`toString`, `constructor`, …) are not visible through property access; only own fields, array indices and `length` are.
- JsValue.SetMember: a non-index key written on an array leaves the array unchanged. In particular, assigning `length` does not truncate or extend the array, and an invalid length does not throw a `RangeError`.
- JsValue.Member: string indices and `length` count characters, not UTF-16 code units. They differ from JavaScript on text with characters outside the Basic Multilingual Plane.
- Merge.MergeDeep: an array `base` is not modelled (`src/state.ts:217`). Snapshots and patches are objects at the top level, and an array as a whole is always replaced.
- Merge.Merged: the same requirement, that the base is not an array.
- Merge.MergeDefined: the same requirement. A non-null array `base` (`src/state.ts:233-239`) is not modelled, since it is passed on to `mergeDeep`.
- Merge.MergeDeep: the base is a value, so "never modifies `base`" holds by construction and is not stated separately.
- The remaining snapshot fields (job, online flags, network info, ipcam, upgrade) are assembled as in the source and covered by `Normalize.NormalizeRawStatus`. They carry no separate lemmas beyond `Normalize.NullStageIsZero` and the version test.
- Gcode.GcodeActions.Move: the distance, like the temperature of `TempControl` and the speed of `FanSpeed`, is a finite number. `NaN` and `Infinity`, which the template would render as text, are not modelled.
- Gcode: the `mqqtClient` is abstract. A publish is recorded, with its topic and text, in the ghost `published` list.

## Findings

| source | as written | input that shows it | evidently intended | confidence | as-written member | corrected member |
|---|---|---|---|---|---|---|
| src/state.ts:249-259 | Only the top level is copied. The descent then writes into the caller's own nested objects. | `updateAtPath({a:{b:1}}, "a.b", 2)` also changes the caller's object to `{a:{b:2}}` | A copy-on-write update that leaves its argument unchanged | not executed | Paths.UpdateAtPathChangesCaller | Paths.UpdatedAtLeavesArgument |
