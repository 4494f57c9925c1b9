# Airblox debug channel and keyboard controls, modelled in Dafny

This project models two stateful pieces of the Airblox browser flight toy.

- **The debug object** (`src/debug.ts`). It has a global `enabled` switch and a log of structured entries. The log is a ring buffer of 300 entries that drops the oldest entry on overflow. It also has a HUD overlay showing `key: value` lines and a toast notification. `init` is guarded against a second call.
- **The keyboard controls** (`src/controls.ts`). Key events set a record of held keys. Each frame, `update()` turns the aircraft by a fixed 0.02 rad step on `rotation.z` (keys `a`/`d`) and on `rotation.x` (keys `w`/`s`).

Files:

- `wrappers.dfy`: module `Wrappers`, the `Option` type. An element that is "an element or null" is an `Option`.
- `log_buffer.dfy`: module `LogBuffer`. It defines payload values, log entries as records (`map<string, Value>`) and entry construction. It defines the ring-buffer step `Appended` and its reference definition `Newest`, which keeps the newest 300 entries. It also proves that any run of logging keeps exactly the newest 300 entries in order.
- `hud_text.dfy`: module `HudText`. It renders the HUD text: one `k: v` line per record entry, joined by `"\n"`. It defines `SplitLines`, the inverse of joining, and proves the split/join round trip in both directions.
- `debug.dfy`: module `DebugChannel`, class `Debug`. Its fields are `enabled`, `logs`, `hud` and `toast`. Its methods `Init`, `ShowToast`, `Log` and `UpdateHud` each state their whole new state in terms of the functions above.
- `controls.dfy`: module `Controls`. The class `Airplane` holds the two rotation components. The class `FlightControls` holds the key record. Its methods are `KeyDown`, `KeyUp` and `Update`. The per-frame changes are the functions `RollDelta` and `PitchDelta`. Lemmas cover many frames in a row.

`update()` applies fixed 0.02 rad steps, with no inertia, damping, velocity clamp or auto-levelling. `log` has no categories, presets or periodic snapshots.

## Model

| member | source | states |
|---|---|---|
| LogBuffer.MakeEntry | src/debug.ts:104-108 | The entry has the fields `time`, `event` and every payload field. A payload field wins over the built-in `time` or `event`. Otherwise `time` is the given time and `event` is the event name. |
| LogBuffer.EntryPayloadRecovered | src/debug.ts:104-108 | If the payload has no `time` or `event` field, removing those two fields from the entry gives back exactly the payload. |
| LogBuffer.Newest | src/debug.ts:110-111 | The reference contents of the buffer: a suffix of everything logged, of length min(length, 300). |
| LogBuffer.Appended | src/debug.ts:110-111 | After push-then-shift, the new entry is last. Below capacity, the result is the old buffer followed by the entry. At capacity, it is the old buffer minus its first (oldest) entry, followed by the entry. A buffer within 300 stays within 300 and equals `Newest(old + [entry])`. |
| LogBuffer.AppendAllKeepsNewest | src/debug.ts:110-111 | Logging any sequence of entries into a buffer within capacity leaves exactly the newest 300 of old-plus-new, in order. Only the oldest entries are ever evicted. |
| HudText.Show | src/debug.ts:121 | The template-literal conversion `${v}`: a string prints as itself, a boolean as `"true"`/`"false"`, and null as `"null"`. A number prints as `numText` gives it. Booleans and null never yield a newline. |
| HudText.HudLine | src/debug.ts:121 | The line `${k}: ${v}`: the key, then `": "`, then the shown value, and nothing else. The line holds a newline exactly when the key or the shown value does. |
| HudText.JoinLines | src/debug.ts:122 | `.join("\n")`: no lines give `""`, and a single line gives that line unchanged. |
| HudText.JoinLinesShape | src/debug.ts:122 | The joined text starts with the first line, and a newline follows it when there is a second line. It holds at least one newline per line after the first, and exactly `n - 1` newlines for n ≥ 1 lines that hold none themselves. |
| HudText.RenderHud | src/debug.ts:120-122 | The whole HUD text: the entries' lines joined by `"\n"`. The empty record gives `""`. |
| HudText.RenderHudStartsWithFirstKey | src/debug.ts:120-122 | For a non-empty record, the HUD text starts with the first entry's key followed by `": "`. |
| HudText.HudLines | src/debug.ts:120-121 | There is one line per record entry, in entry order. Line i is `key + ": " + value`. |
| HudText.SplitJoin | src/debug.ts:122 | Splitting the `"\n"`-joined text of a non-empty list of newline-free lines at newlines gives the lines back. |
| HudText.JoinSplit | src/debug.ts:122 | Splitting any text at newlines and joining the pieces with `"\n"` gives the text back. |
| HudText.RenderHudEmptyIff | src/debug.ts:120-122 | The HUD text is `""` exactly when the record is empty. |
| HudText.RenderHudLines | src/debug.ts:120-122 | If no key or value contains a newline, the HUD text of n entries has exactly n lines, and line i is `key: value` of entry i. |
| DebugChannel.Debug.constructor | src/debug.ts:13-17 | The initial state: the given switch, an empty log, and no HUD or toast. |
| DebugChannel.Debug.Init | src/debug.ts:19-62 | When disabled or when the HUD already exists, nothing changes. Otherwise the HUD and the toast are created with empty text. Afterwards the switch is off or the HUD exists, so a second call is a no-op. |
| DebugChannel.Debug.ShowToast | src/debug.ts:89-96 | If the toast exists, its text becomes the given text. Otherwise nothing changes. |
| DebugChannel.Debug.Log | src/debug.ts:101-114 | When disabled, `logs` is unchanged. When enabled, `logs` becomes `Appended(old logs, entry)`: the entry is last, the buffer grows by one below 300, and at 300 the oldest entry is dropped. The 300 bound is kept. |
| DebugChannel.Debug.UpdateHud | src/debug.ts:117-123 | When disabled or without a HUD, nothing changes. Otherwise the HUD text becomes the rendered record. |
| Controls.Held | src/controls.ts:13-17 | The truthiness of `keys[k]`. A key never pressed is absent, reads as `undefined` and is not held. A recorded key is held exactly when its value is true. |
| Controls.Airplane.constructor | src/airplane.ts:3-28 | A new aircraft group starts level: both rotation components are zero, the default of a new three.js group, which `createAirplane` never changes. |
| Controls.RollDelta | src/controls.ts:13-14 | Only `a` held: +0.02. Only `d` held: -0.02. Both held or neither held: 0. The change is always within ±0.02. |
| Controls.PitchDelta | src/controls.ts:16-17 | Only `w` held: -0.02. Only `s` held: +0.02. Both held or neither held: 0. The change is always within ±0.02. |
| Controls.KeysAreSeparate | src/controls.ts:13-17 | Setting a key other than `w`/`s` never changes the pitch step. Setting a key other than `a`/`d` never changes the roll step. |
| Controls.TurnIsBounded | src/controls.ts:13-17 | Over n frames, with any keys held, each rotation component moves by at most 0.02·n. |
| Controls.BalancedRollKeepsRoll | src/controls.ts:13-14 | Over frames where `a` and `d` are both held or both not held, `rotation.z` does not change. |
| Controls.BalancedPitchKeepsPitch | src/controls.ts:16-17 | Over frames where `w` and `s` are both held or both not held, `rotation.x` does not change. |
| Controls.IdleKeepsAttitude | src/controls.ts:13-17 | Over frames where no key is held, neither rotation component changes. This includes records that still hold released keys as `false`. |
| Controls.PressThenReleaseIsIdle | src/controls.ts:6-7 | A keydown then a keyup of a key leaves it not held, although the record keeps the key, with the value false. |
| Controls.FlightControls.constructor | src/controls.ts:3-4 | The controls start with an empty key record, bound to the given aircraft. |
| Controls.FlightControls.KeyDown | src/controls.ts:6 | `keys[k]` becomes true. Every other key's held state is unchanged. |
| Controls.FlightControls.KeyUp | src/controls.ts:7 | `keys[k]` becomes false. Every other key's held state is unchanged. |
| Controls.FlightControls.Update | src/controls.ts:11-18 | `rotation.z` moves by `RollDelta(keys)` and `rotation.x` by `PitchDelta(keys)`. Nothing else of the aircraft that is modelled changes. |

## Left out

- `performance.now()` (src/debug.ts:105): the time is a parameter of `Log`.
- The default payload `data = {}` of `log`: callers pass the empty map. Payloads are records of numbers, strings, booleans and null. Spreading a non-object payload (a string, an array) is not modelled.
- `console.log` in `log`, the DOM element creation and styling in `init`, and the F8/F9 clipboard and file export of the log. These are browser I/O. The HUD and the toast are held only as their text content.
- ShowToast: the opacity change and the `setTimeout` that hides the toast after 800 ms are not modelled. These are timers and styling.
- UpdateHud: record values are limited to the same four kinds as log payloads (numbers, strings, booleans, null). `undefined`, objects and arrays, which `${v}` prints as `"undefined"`, `"[object Object]"` or comma-joined text, are not modelled.
- HudText.Show: JavaScript's Number-to-string conversion is not modelled. It is the parameter `numText` of the HUD functions.
- UpdateHud: `Object.entries` puts integer-like keys first. The model takes the record's entries as an already ordered sequence of pairs.
- Update: the forward motion (src/controls.ts:20-22) is a quaternion application in three.js and is not modelled.
- Update: rotations are exact reals. With JavaScript doubles, `(z + 0.02) - 0.02` may differ from `z` by a rounding error, so "both keys held leaves the rotation unchanged" holds only up to rounding there.
- The unused `velocity` vector (src/controls.ts:9) is never read and is not modelled.
