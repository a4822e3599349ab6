# Caltrack core, modelled in Dafny

Caltrack is a single-page calorie tracker (`app.js`). This project models its logic:

- **The dated calorie log.** The global `entriesByDate` is a map from a `YYYY-MM-DD` date key to that day's food entries, newest first. It becomes the class `Entries.CalorieLog`, with one method per state change in the source:
  - `EnsureDate` is `ensureDate`.
  - `Submit` is the submit handler. It trims the food name and refuses a blank name or calories that are not a number >= 0. Otherwise it rounds the calories with `Math.round` and prepends the entry with `unshift`.
  - `Delete` is the `splice(idx, 1)` of an entry's delete button.
  - `DailyTotal` is the `forEach` sum in `renderEntries`. `Render` is that function's effect on the store: ensure the group, then total it.
  - `LoadState` is the fallback of `loadState`: an empty map when nothing parsed.
  - Each method is proved equal to a pure function of the old state (`WithDate`, `Inserted`, `Deleted`, `TotalCalories`). The lemmas about those functions give refusal, prepending, removal at an index, totals, frame conditions and well-formedness.
- **Date keys.** `formatDateKey` is `DateKey.FormatDateKey`, built from the year, the month index and the day that the `Date` getters return. An inverse parser proves that each key reads back as the date it came from, so two different dates never share a key.
- **Units and BMI.** `toKilograms`, `toMeters` and `calculateBmi` are modelled over `real`. A JavaScript number is `Option<real>`: `None` stands for NaN and the infinities. The `{bmi: null}` result is `BmiResult(None, "Enter weight and height")`.

The model follows `app.js` as written, in particular:
- `toKilograms` treats every unit other than `"lb"` as kilograms, not only `"kg"`.
- There is no workout collection in `app.js`, so none is modelled.
- `ensureDate` leaves an emptied group in place as an empty sequence. `GroupOf` treats a missing group and an empty one alike.

## Model

| member | source | states |
|---|---|---|
| `DateKey.FormatDateKey` | app.js:11-17 | the key is the year's decimal text, '-', the padded month number, '-', the padded day; it is six characters longer than the year |
| `DateKey.FormatDateKeySegments` | app.js:14-16 | the month and day segments are exactly two digits, spell month index + 1 and the day, and start with '0' exactly when the number is below 10 |
| `DateKey.ParseFormatDateKey` | app.js:11-17 | every key parses back to the year, month index and day it was built from |
| `DateKey.FormatDateKeyInjective` | app.js:11-17 | two dates have the same key if and only if they are the same date |
| `DateKey.Pad2Shape` | app.js:14-15 | `String(v).padStart(2, '0')` for v < 100 is two digits whose value is v, with a leading '0' exactly when v < 10 |
| `DateKey.NatToString` | app.js:14-15 | `String(n)` is a non-empty run of digits, with no leading zero unless n is 0, one digit exactly when n < 10 |
| `DateKey.IntToString` | app.js:13-16 | `String(year)` starts with '-' exactly for a negative year, and is digits otherwise |
| `DateKey.Pad2` | app.js:14-15 | `String(v).padStart(2, '0')` is at least two digits that read back as v, exactly two when v < 100 |
| `DateKey.PadStart` | app.js:14-15 | padStart keeps the string as its suffix, fills only in front with the fill character, and reaches the width unless the string is already longer |
| `Units.ToKilograms` | app.js:24-27 | NaN stays NaN and a finite weight stays finite with its sign; any unit but "lb" leaves the weight unchanged; pounds shrink a positive weight |
| `Units.ToMeters` | app.js:29-34 | NaN stays NaN and a finite height stays finite with its sign; any unit but "in" and "cm" leaves the height unchanged |
| `Units.WeightIn` | app.js:24-27 | a weight of kg kilograms written in any unit (pounds for "lb") converts back to exactly kg, and is positive exactly when kg is |
| `Units.HeightIn` | app.js:29-34 | a height of m meters written in any unit (inches for "in", centimeters for "cm") converts back to exactly m, and is positive exactly when m is |
| `Units.ConversionsMonotone` | app.js:24-34 | both conversions preserve order |
| `Bmi.Band` | app.js:41-45 | the band is 0, 1, 2 or 3 exactly when the BMI is below 18.5, in [18.5, 25), in [25, 30) or at least 30 |
| `Bmi.Category` | app.js:41-45 | the category is the label of the BMI's band |
| `Bmi.MetricBmi` | app.js:39-46 | no BMI and the prompt unless kilograms and meters are both positive finite numbers; otherwise a positive BMI times the squared height equals the weight, with the label of its band |
| `Bmi.CalculateBmi` | app.js:36-47 | no BMI and the prompt exactly when the weight or the height is NaN, infinite, zero or negative, in any units; otherwise the label of the BMI's band |
| `Bmi.CategoryMonotone` | app.js:41-45 | a larger BMI never falls in a lighter band |
| `Bmi.CategoryBoundaries` | app.js:42-45 | 18.5, 25 and 30 fall in the heavier band; 24.999 and 29.999 in the lighter one |
| `Bmi.BmiUnitInvariant` | app.js:36-40 | for every weight unit and every height unit, the same body written in those units gives the same result as in kilograms and meters |
| `Bmi.BmiExample` | app.js:36-47 | 70 kg at 175 cm gives a BMI between 22.85 and 22.86, "Normal weight" |
| `Text.Leading` | app.js:150 | the count of leading characters trim removes: all whitespace, and the next character is not |
| `Text.Trailing` | app.js:150 | the count of trailing characters trim removes: all whitespace, and the one before is not |
| `Text.Trim` | app.js:150 | trim leaves nothing exactly when the text is all whitespace; otherwise it leaves the slice between the leading and trailing whitespace, which neither starts nor ends with whitespace |
| `Text.TrimIdempotent` | app.js:150 | trimming a trimmed name changes nothing |
| `Entries.Round` | app.js:155 | `Math.round` gives the integer within a half of x, halves rounded up, and is not negative for x >= 0 |
| `Entries.Accepts` | app.js:150-152 | the submit handler accepts exactly when the food name is not all whitespace and the calories are a number >= 0 |
| `Entries.Inserted` | app.js:150-155 | a refused submission leaves the map as it was; an accepted one leaves the day with one entry more; every other day is unchanged either way |
| `Entries.RemoveAt` | app.js:125 | `splice(idx, 1)` past the end changes nothing; otherwise one element fewer, those before idx in place, those after shifted down by one |
| `Entries.Deleted` | app.js:124-127 | the day's list becomes `RemoveAt` of its old list (empty stays empty), the day is present exactly when it was, and every other day is unchanged |
| `Entries.TotalCalories` | app.js:108-114 | the day's total is 0 for no entries and not negative when no entry's calories are |
| `Entries.WithDate` | app.js:98-100 | ensureDate adds an empty group for a missing key and keeps every existing group, the key's own included |
| `Entries.CalorieLog.constructor` | app.js:67 | the log starts as an empty map |
| `Entries.CalorieLog.LoadState` | app.js:69-75 | the log becomes the saved map, or an empty map when nothing was saved or it failed to parse |
| `Entries.CalorieLog.EnsureDate` | app.js:98-100 | the new map is `WithDate` of the old one |
| `Entries.CalorieLog.Submit` | app.js:148-160 | the new map is `Inserted` of the old one, and a well-formed log stays well formed |
| `Entries.CalorieLog.Delete` | app.js:124-127 | the new map is `Deleted` of the old one, and a well-formed log stays well formed |
| `Entries.CalorieLog.DailyTotal` | app.js:106-114 | the total is the sum of the day's calories, 0 for a missing or empty day, and not negative in a well-formed log |
| `Entries.CalorieLog.Render` | app.js:102-114 | the day's group is ensured, and the total is that of the day before the call |
| `Entries.TotalOfPrepended` | app.js:112-114 | an entry put in front of a day adds exactly its calories to the total |
| `Entries.TotalOfConcat` | app.js:112-114 | the total of two runs of entries together is the sum of their totals |
| `Entries.TotalOfReverse` | app.js:112-114 | reversing a run of entries does not change its total |
| `Entries.TotalOfPermutation` | app.js:112-114 | any two runs with the same entries in any order (equal multisets) have the same total |
| `Entries.WithDateKeepsGroups` | app.js:98-100 | ensureDate changes no day's list of entries |
| `Entries.RefusedSubmissionChangesNothing` | app.js:150-152 | a blank name, NaN calories or negative calories leave the store unchanged |
| `Entries.AcceptedSubmission` | app.js:153-155 | an accepted entry is the trimmed name with the rounded calories, put in front of the day's entries (none if the day was absent); the day's total grows by the rounded calories; every other day is unchanged |
| `Entries.InsertedWellFormed` | app.js:150-155 | after a submission every stored entry still has a non-empty name and calories >= 0 |
| `Entries.DeletedInRange` | app.js:124-127 | deleting index idx < length leaves one entry fewer; entries before idx keep their place and those after shift down by one; the removed entry is the only one missing; the total drops by its calories; other days are untouched |
| `Entries.DeletedOutOfRange` | app.js:125 | splicing at or past the end, or on a day without a group, changes nothing |
| `Entries.DeletedWellFormed` | app.js:124-127 | deletions keep every stored entry well formed |
| `Entries.InsertedAllThenQuery` | app.js:148-160 | after a run of accepted submissions for one day, the day lists them newest first in front of what it held |
| `Entries.InsertedAllTotal` | app.js:148-160 | after a run of accepted submissions for one day, the day's total grows by the sum of their rounded calories |

## Left out

- DOM look-ups, HTML rendering, `innerHTML`, element creation, focus, form reset and event-listener wiring (app.js:50-64, 115-129, 134-194). These are presentation only. The model keeps the state changes they trigger.
- `localStorage` reads and writes, `JSON.parse` and `JSON.stringify`, and the body-profile fields (app.js:69-96). These are browser storage and serialisation. `LoadState` takes the outcome of parsing as an `Option` and models only the fallback to an empty map. `saveEntries` after each change is not modelled.
- `new Date(...)`, `getFullYear`, `getMonth` and `getDate` (app.js:12-15). These are local-time-zone library behaviour. `FormatDateKey` takes the year, the month index and the day instead. So the model cannot show whether `new Date("YYYY-MM-DD")` (read as UTC) gives a different local day in some time zones. `Submit` takes the already formatted date key.
- `safeParseFloat` and `toFixed(1)` (app.js:19-22, 142). These are floating-point parsing and display formatting. `Submit` and `CalculateBmi` receive the parsed number as `Option<real>`.
- IEEE-754 rounding in the conversions, the BMI division and `Math.round`. All arithmetic is exact over `real`, so no result claims bit-exact float equality.
- Units.ToKilograms: does not model a product that underflows to zero or overflows to infinity, because arithmetic is exact over `real`. The same holds for Units.ToMeters and Bmi.MetricBmi.
- Entries.CalorieLog.Delete: a missing date group is modelled as "nothing changes". The source's `splice` throws a TypeError there, before anything is changed or saved. The delete buttons only exist after `renderEntries` has created the group.
- `rerenderBmi` (app.js:134-145) only reads the form and displays the result of `calculateBmi`, which is modelled.
