# Mood calendar journal — a Dafny model

The mood calendar is a one-page journal. For each calendar day the user picks a
mood score from 1 to 10, a colour from a sixteen-wedge colour wheel, and ticks
whether they took their medication. The page keeps every saved day in one
dictionary keyed by a `YYYY-MM-DD` date string (`masterLog`), writes the whole
dictionary to browser storage on every save, and draws two trends from it: the
mood scores over time and a left-to-right colour gradient.

This project models the core of `script.js`:

- `Palette.dfy` (module `Palette`): the mood scale, the colour table that maps each
  wedge colour to a nominal mood range, and the save-time congruence test with
  its one-step tolerance.
- `Entry.dfy` (module `Entry`): the shape shared by the draft and by every stored
  entry, and JavaScript truthiness of its string fields.
- `Journal.dfy` (module `Journal`): the save decision and the commit as functions,
  and the page state as the class `MoodJournal`. The class holds the draft field
  by field, the in-memory log, and the value kept in storage. Its methods are the
  date, mood and colour click handlers and the save handler.
- `KeyOrder.dfy` (module `KeyOrder`): the default string order of
  `Array.prototype.sort`, and the sorted key list of a log.
- `DateKeys.dfy` (module `DateKeys`): the date key builder, with `String(n)` and
  `padStart`. It proves that keys of four-digit-year dates sort in calendar order.
- `Series.dfy` (module `Series`): the sorted dates, the mood series, the colour
  series, and how the colour trend is painted (nothing, flat fill, or gradient
  stops at `i / (n - 1)`).

Where a reader might expect other behaviour, the model follows the code:

- The draft is not cleared after a save; it keeps its date, mood and colour,
  and `tookMeds` holds the checkbox value read at the save.
- A save with an incomplete draft shows a notice and returns; no error value
  exists. `Decide` returns `Incomplete`.
- The in-memory log is updated before the write to storage.
- Storage that cannot be parsed makes start-up throw. An absent value, or
  stored text that parses to a falsy value (`null`, `false`, `0`, `""`),
  yields the empty log through `|| {}`; the model's storage holds either a
  log or nothing (`Loaded`).
- Moods are kept in the draft as the icon's text and parsed only for the
  congruence test.

## Model

| member | source | states |
|---|---|---|
| `Palette.MoodScaleIsOneToTen` | script.js:16-21 | the mood icons offer exactly the scores 1..10, each once, in descending order |
| `Palette.PaletteIsMapped` | script.js:22-29 | there are 16 wedge colours; the table maps exactly those colours; every range satisfies 1 <= lo <= hi <= 10 |
| `Palette.RangesAreHueBands` | script.js:23-29 | every colour's range is one of the five hue bands (blue 1-2, green 3-5, yellow 6-7, orange 8-9, red 10) |
| `Palette.HueBandsTile` | script.js:23-29 | the hue bands start at 1, end at 10, and each starts one above where the previous ends |
| `Palette.OneBandPerMood` | script.js:23-29 | every mood 1..10 lies in exactly one hue band: the table covers the scale with no gap and no overlap |
| `Palette.EveryMoodHasAColor` | script.js:22-29 | every mood 1..10 has a wedge colour whose nominal range contains it |
| `Palette.NeedsConfirmation` | script.js:216-224 | a prompt is needed exactly when the colour is in the table and the mood lies more than one step outside its range; an unmapped colour and an in-range mood never prompt |
| `Palette.GreenTolerance` | script.js:219-224 | for a green (3-5) colour, moods 2 and 6 pass silently while moods 1 and 8 prompt |
| `Palette.SilentChoiceExists` | script.js:219-224 | every mood 1..10 has some wedge colour that saves without a prompt |
| `Journal.Decide` | script.js:209-226 | the save is refused exactly when date, mood or colour is unset or empty; for a complete draft it goes ahead exactly when the user confirms, the colour is unmapped, or lo-1 <= mood <= hi+1 |
| `Journal.Commit` | script.js:226-228 | after a save the keys are the old keys plus the draft's date; that date holds the draft with `tookMeds` set to the checkbox value; every other key keeps its entry |
| `Journal.CommitSize` | script.js:228 | a save adds no key when the date already has an entry, and exactly one otherwise |
| `Journal.LastWriteWins` | script.js:228 | a second save for the same date replaces the first entirely |
| `Journal.CommitsCommute` | script.js:228 | saves for different dates give the same log in either order |
| `Journal.CommitKeepsWellFiled` | script.js:226-228 | if every stored entry is complete and filed under its own date, it stays so after saving a complete draft |
| `Journal.ResaveExample` | script.js:228 | two saves for 2024-01-01 leave one key, holding the second entry |
| `Journal.Loaded` | script.js:36 | an absent stored value gives the empty log; a stored log is taken as it is |
| `Journal.MoodJournal.constructor` | script.js:33-36 | page load: empty draft, meds unchecked, log equal to what storage holds (empty if nothing) |
| `Journal.MoodJournal.SelectDate` | script.js:120-121 | a date click sets only the draft's date; log and storage unchanged |
| `Journal.MoodJournal.SelectMood` | script.js:193-196 | a mood click sets only the draft's mood; log and storage unchanged |
| `Journal.MoodJournal.SelectColor` | script.js:201-204 | a colour click sets only the draft's colour; log and storage unchanged |
| `Journal.MoodJournal.Save` | script.js:209-234 | the outcome is `Decide` of the draft; when saved, the log is `Commit` of the old log, the draft's `tookMeds` is the checkbox value and storage holds the whole new log; when incomplete or declined, log, draft and storage are unchanged |
| `Entry.Present` | script.js:142 | a colour or date value is truthy exactly when it is set and not the empty string |
| `Entry.Ready` | script.js:210 | a draft passes the save guard only with date, mood and colour all set, date and colour non-empty; the empty draft never passes |
| `KeyOrder.Precedes` | script.js:132 | the comparison `sort()` uses; a proper prefix sorts before the longer string |
| `DateKeys.IntToString` | script.js:110 | `String(n)`: the digits of `n`, preceded by `-` when `n` is negative |
| `DateKeys.DateKey` | script.js:110 | the key starts with the year's text and a dash, and is at least six characters longer than the year's text |
| `DateKeys.JoinLayout` | script.js:110 | in a joined key the year, month and day texts sit in order, separated by dashes at known positions |
| `KeyOrder.PrecedesTransitive` | script.js:132 | the sort order on keys is transitive |
| `KeyOrder.PrecedesTotal` | script.js:132 | any two different keys are ordered one way or the other |
| `KeyOrder.PrecedesAppend` | script.js:132 | for first parts of equal length, the first parts decide the order unless they are equal |
| `KeyOrder.LeastExists` | script.js:132 | every non-empty key set has a least key |
| `KeyOrder.SortedKeys` | script.js:132 | the sorted key list has one element per key, holds exactly the keys, and is strictly increasing |
| `KeyOrder.SortedKeysUnique` | script.js:132 | any strictly increasing arrangement of a key set is the sorted key list |
| `DateKeys.NatToString` | script.js:110 | `String(n)` is a non-empty digit string, with no leading zero from 10 up |
| `DateKeys.PadStart` | script.js:110 | `padStart` keeps the string as a suffix, fills in front with the pad character, and reaches the target width |
| `DateKeys.Digits` | script.js:110 | the fixed-width digit form has exactly `w` decimal digits |
| `DateKeys.DigitsOrder` | script.js:110 | fixed-width digit strings sort as their numbers do and are equal only for equal numbers |
| `DateKeys.NatToStringDigits` | script.js:110 | `String(n)` of a `w`-digit number is its fixed-width form |
| `DateKeys.PaddedTwoDigits` | script.js:110 | a month or day below 100, padded to two, is its two-digit form |
| `DateKeys.DateKeyDigits` | script.js:110 | the key of a valid date is year, month+1 and day in fixed widths 4, 2 and 2, joined by dashes |
| `DateKeys.DateKeyShape` | script.js:110 | the key of a valid date has ten characters: digits, with dashes at positions 4 and 7 |
| `DateKeys.DateKeyOrder` | script.js:110 | for four-digit years, one key sorts before another exactly when its date is earlier |
| `DateKeys.DateKeyInjective` | script.js:110 | different valid dates have different keys |
| `Series.SortedDates` | script.js:132 | the sorted dates hold each log key once, in strictly increasing key order |
| `Series.MoodData` | script.js:136 | the mood series has one point per log entry; point `i` is the mood of the entry at the `i`-th sorted date |
| `Series.DropFalsy` | script.js:142 | the filter keeps every set, non-empty colour and nothing else, and never lengthens the list |
| `Series.DropFalsyAppend` | script.js:142 | filtering a concatenation is concatenating the filtered parts, so the filter keeps order |
| `Series.DropFalsyKeepsAll` | script.js:142 | when every colour is set and non-empty, the filter returns them all, in place |
| `Series.ColorValues` | script.js:142 | one colour value per entry; value `i` is the colour of the entry at the `i`-th sorted date |
| `Series.ColorData` | script.js:142 | the colour series is never longer than the log; every colour in it is non-empty and is the colour of some entry; every entry's set, non-empty colour appears in it; it is `DropFalsy` of `ColorValues`, so it keeps sorted-date order and repeats |
| `Series.WellFiledSeries` | script.js:132-142 | for a log of saved entries, both series have one point per date; point `i` is the mood (always set) and the colour of the entry at the `i`-th sorted date |
| `Series.SeriesChronological` | script.js:132 | for keys of four-digit-year dates, an earlier position in the series means an earlier date |
| `Series.FebruaryThenJanuary` | script.js:132-136 | saving 2024-02-01 before 2024-01-01 still lists January first, and the moods follow that order |
| `Series.StopOffsetsSpread` | script.js:155 | stop positions `i / (n - 1)` start at 0, end at 1 and strictly increase |
| `Series.ColorTrendFill` | script.js:145-155 | no colours: nothing drawn; one colour: a flat fill of it; two or more: one stop per colour in order, stop `i` at `i / (n - 1)`, from 0 to 1, strictly increasing |
| `Series.TwoColorExample` | script.js:154-155 | two colours give stops at exactly 0 and 1 |

## Left out

- Storage encoding: `JSON.stringify` and `JSON.parse` are taken to give back the same map. A stored value that cannot be parsed makes start-up throw, and that path is not modelled.
- Journal.Decide: the colour table and the log are maps here. In the code they are plain objects, which also answer names inherited from `Object.prototype`. This affects `Palette.NeedsConfirmation` and `Journal.Commit` too. For a colour such as `"constructor"` or `"toString"`, the code's lookup finds an inherited member, then throws when it reads its range, and nothing is saved. The model treats such a colour as unmapped and saves it. For the date `"__proto__"`, the code's assignment replaces the log's prototype and adds no key, while `Commit` adds the key. Such names never reach the draft, because dates come from the key builder and colours from the wheel.
- Journal.Loaded: storage holds either a log or nothing. Stored text that parses to a falsy value (`null`, `false`, `0`, `""`) gives the empty log in the code, like an absent value; the model has no such value to tell apart.
- A failing `localStorage.setItem` is not modelled. The code updates `masterLog` before the write, so such a failure would leave memory and storage apart.
- Journal.MoodJournal.SelectMood: the draft holds the mood as a score from 1 to 10. The code stores the icon's text (`"1"` to `"10"`) and parses it with `parseInt` for the congruence test, so stored entries carry the mood as text. No such text is empty or fails to parse, so the model gives the same decisions.
- Series.ColorTrendFill: stop positions are exact rationals (`real`). The code divides in floating point.
- `KeyOrder.Precedes` compares Unicode scalar values, while `sort()` compares UTF-16 code units. The two orders agree on the ASCII date keys.
- `DateKeys.DateKeyOrder` covers four-digit years, months 0..11 and days 1..31. Which days a month has comes from `Date`, a foreign API that is not part of this model. Years outside 1000..9999 print with another width, so their keys do not sort by date.
- Chart labels formatted with `toLocaleDateString`, and the calendar header, are not modelled. `Series.SortedDates` gives the raw keys the labels are made from.
- DOM work is not modelled: the mood icons, the calendar grid and its dots, the `selected` classes, the button label and its `setTimeout` reset.
- The SVG colour wheel (`generateColorPie`) uses floating-point trigonometry and is not modelled.
- Month navigation and the first-weekday and days-in-month computations use the foreign `Date` API and are not modelled. The key builder takes year, month and day as inputs.
- Chart.js and canvas calls (`new Chart`, `destroy`, `createLinearGradient`, `fillRect`, `clearRect`) are foreign. Only the data they receive is modelled.
- Scrollama scroll handlers are presentation only and are not modelled.
- `alert` and `confirm`: the user's answer to the prompt is the `confirmed` input of `Save`, used only when the prompt would be shown.
- The meds checkbox is read through the `medsChecked` input of `Save`.
