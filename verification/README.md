# Call recording player: editor configuration logic

The call recording player component declares its editor-facing properties
and events in `ww-config.js`. That file is a declarative table. It holds
three small pieces of executable logic, and this project models those and
proves properties about them:

1. **The transcript item label** (`getItemLabel`). The editor lists transcript
   items under the label `"m:ss - Speaker"`. Minutes are whole minutes and are
   never wrapped into hours. Seconds are zero-padded to two digits. A falsy
   `time` shows as `0:00` and a falsy `speaker` shows as `Unknown`.
2. **The visibility of the four field-mapping formula properties** (`hidden`).
   The time, duration, speaker and text formulas are hidden when the transcript
   is not an array, is empty, or is not bound.
3. **The formula template** (`options`). While a formula is edited, its template
   is the first transcript entry, or `null` when the transcript is not a
   non-empty array.

It also checks the constant tables that carry meaning: the playback speed
choices and their default, the border style choices and their default, the
default transcript, and the default new item.

Modules:

- `Wrappers` (wrappers.dfy): `Option`, for JavaScript values that may be absent.
- `Decimal` (decimal.dfy): `String(n)` for non-negative integers below 2^53, the
  digit-string value that inverts it, and a character search.
- `ItemLabel` (item_label.dfy): transcript items, the `m:ss` clock, the item
  label, and the parsers `ParseClock` and `ParseLabel`. The parsers serve as
  independent reference definitions. The proofs show that the clock is a
  bijection between seconds and canonical `m:ss` strings. They also show that
  a label always splits back into its start second and speaker name.
- `FormulaFields` (formula_fields.dfy): the `hidden` and `options` callbacks of
  the four formula properties. Each callback is written once per field, as the
  source writes it.
- `ConfigTables` (config_tables.dfy): the option lists, the defaults, and a
  decimal reader used to state which speeds the speed choices denote.

Times are whole seconds (`nat`). Every item field is an `Option`, so "absent"
is explicit. A present `0` time or a present empty speaker is the other falsy
case. The item itself is an `Option` too, because the source reads it through
optional chaining (`item?.`).

The wider behaviour of the player is not implemented in ww-config.js. That
includes audio source detection, transcript lookup by playback time, and the
playback state machine. The file only declares the inputs and the event
payloads for these, so the model follows the code and leaves them out (see
below). A falsy speaker shows as `Unknown`, capitalised (ww-config.js:54).

## Model

| member | source | states |
|---|---|---|
| Decimal.NatToString | ww-config.js:55 | `String(n)` of a whole number is a non-empty digit string with no superfluous leading zero, one digit exactly below 10 and at most two below 100 |
| Decimal.DigitsValueOfNatToString | ww-config.js:55 | the rendered minutes and seconds read back as the numbers they were made from |
| Decimal.NatToStringOfDigitsValue | ww-config.js:55 | every canonical digit string is the rendering of its value, so rendering is a bijection onto canonical strings |
| Decimal.DigitsValueLeadingZero | ww-config.js:55 | padding a digit string with a leading '0' leaves the value it denotes unchanged |
| ItemLabel.PadStart | ww-config.js:55 | `padStart` gives a string of the target width that ends with the original and is filled with the pad character, and leaves longer strings untouched |
| ItemLabel.SecondsField | ww-config.js:55 | the padded seconds of a value below 60 are exactly two digits that denote that value |
| ItemLabel.FormatClock | ww-config.js:55 | the clock is canonical minutes equal to floor(t/60), a colon, and exactly two digits equal to t mod 60, so the seconds lie in 0..59 and minutes*60 + seconds = t |
| ItemLabel.ClockRoundTrip | ww-config.js:55 | parsing a clock gives back the seconds it was made from |
| ItemLabel.ClockParseInverse | ww-config.js:55 | every string the clock parser accepts is the clock of the value it reads |
| ItemLabel.ClockInjective | ww-config.js:55 | two different times never share a clock |
| ItemLabel.ZeroClock | ww-config.js:55 | the falsy-time fallback `0:00` is exactly what the formula gives for time 0 |
| ItemLabel.NoHourWrap | ww-config.js:55 | 3725 seconds shows as `62:05`: minutes are not wrapped into hours |
| ItemLabel.Timestamp | ww-config.js:55 | the clock shown for an item is the formula's clock of its start second in every case, so the falsy-time fallback `0:00` agrees with the formula at 0 |
| ItemLabel.SpeakerName | ww-config.js:54 | the shown speaker name is never empty |
| ItemLabel.GetItemLabel | ww-config.js:53-57 | the label splits back into the item's start second and speaker name, ends with the speaker verbatim, starts with `0:00 - ` when the time is absent or 0, and ends with `Unknown` when the item or its speaker is absent or empty |
| ItemLabel.LabelRoundTrip | ww-config.js:56 | a clock, `" - "` and any name, even one that contains `" - "`, split back into the same clock value and name |
| ItemLabel.LabelOfTimedItem | ww-config.js:54-56 | an item with a time and a non-empty speaker is labelled with its clock, `" - "` and the speaker; duration and text play no part |
| ItemLabel.LabelShape | ww-config.js:53-57 | for every item, present or null, the label is the formula's clock of its start second (so a falsy time shows `0:00`), `" - "` and the shown name (speaker or `Unknown`) |
| ItemLabel.LabelParseInverse | ww-config.js:53-57 | every string the label parser accepts with a non-empty name is the label of an item with that time and speaker |
| ItemLabel.LabelInjective | ww-config.js:53-57 | two items get the same label if and only if they have the same start second and the same shown speaker name |
| ItemLabel.NullItemLabel | ww-config.js:54-56 | a null item is labelled `0:00 - Unknown` |
| FormulaFields.TemplateOf | ww-config.js:101-103 | a template exists exactly when the transcript is a non-empty array, and it is then the array's first entry |
| FormulaFields.Hidden | ww-config.js:108-109 | a formula field is hidden exactly when it has no template or the transcript property is not bound |
| FormulaFields.CopiesAgree | ww-config.js:101-172 | the four copies of `hidden` and of `options` (time, duration, speaker, text) compute the same function |
| FormulaFields.ShownHasTemplate | ww-config.js:101-109 | a visible formula field implies a bound, non-empty transcript array whose first entry is the template |
| ConfigTables.SpeedValues | ww-config.js:243-253 | the six speed choices denote exactly 0.5, 0.75, 1, 1.25, 1.5 and 2, in that order |
| ConfigTables.SpeedOrder | ww-config.js:243-253 | the speeds the choices denote strictly increase from the first choice to the last |
| ConfigTables.SpeedDefault | ww-config.js:243-253 | the speed choices are distinct, and the default `"1"` is one of them and denotes speed 1 |
| ConfigTables.BorderStyleTable | ww-config.js:430-439 | the border styles are the five distinct names solid, dashed, dotted, double and none, and the default `"solid"` is one of them |
| ConfigTables.DefaultTranscriptLabels | ww-config.js:47-57 | the default transcript's items are labelled `0:00 - agent` and `0:03 - customer` |
| ConfigTables.DefaultTranscriptContiguous | ww-config.js:47-50 | each default transcript item starts where the previous one ends (3 = 0 + 3) |
| ConfigTables.NewItemLabel | ww-config.js:53-60 | a newly added transcript line is labelled `0:00 - agent` |

## Left out

- Audio payload classification and playable-resource resolution: ww-config.js only declares the `audioUrl` and `audioBinaryString` inputs (lines 11-39). The code that interprets them is not part of this model.
- Transcript lookup by playback time, field mapping through the formulas, and the playback state machine with its events: ww-config.js only declares the event payload shapes (lines 464-500). No behaviour for them exists in the file.
- The formula `code` strings (lines 106, 127, 148, 169): these are expressions that the host editor's runtime evaluates, and that runtime is not part of this model.
- Labels, translations, colours, lengths, shadows, tooltips and the `/* wwEditor */` blocks: presentation metadata with no logic.
- ItemLabel.FormatClock: negative, fractional or non-numeric times (NaN, strings) are not modelled. Times are whole non-negative seconds. A fractional non-negative time shows the clock of its whole part (`90.7` gives `1:30`). A negative time gives strings such as `-2:-5` (for `-65`), because JavaScript's `%` keeps the sign of the dividend.
- ItemLabel.FormatClock: times of 2^53 seconds or more are not modelled. JavaScript numbers are not exact there: `Math.floor(time / 60)` can round up, and `String` prints the shortest round-trip digits padded with zeros, or exponent notation from 10^21.
- ItemLabel.SpeakerName: speakers are strings. A truthy non-string speaker, such as a number, is converted by the template literal in JavaScript. That conversion is not modelled.
- FormulaFields.Hidden: `boundProps.transcript` is modelled by its truthiness alone, as a boolean.
- FormulaFields.TemplateOf: JavaScript returns `null` both when there is no template and when the first entry is itself `null`. The model keeps these two cases apart, as `None` and `Some(None)`.
