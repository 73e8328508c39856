# City pollution calendar: a verified model of its classification and view logic

This project models, in Dafny, the logic of a small front end that shows a city's
air-pollution history on a calendar heat map. Three pieces are modelled:

- **The severity scale** (`src/utils/pollutionLevels.js`). It has six levels, Good (1) to
  Hazardous (6). There is a lookup from a numeric score to a level through inclusive `<=`
  thresholds, and a case-insensitive lookup by name that returns `null` on a miss. It also
  supplies the colour range and thresholds handed to the heat map.
- **The API service's pure parts** (`src/services/pollutionAPI.js`):
  - the DD-MM-YYYY date codec (`formatDate`, `parseDate`);
  - the city-id map (`getCityName`);
  - the per-day aggregation `analyzePollution`, which scores each pollutant's label with its
    own `levelMap`, averages the scores, and names the worst;
  - what `getHistoricData` does with an HTTP response: the error message on a non-ok status,
    and the per-day record transform on success.
- **The calendar view model** (`src/composables/useHeatCalendar.js`): the month distance of the
  selected range, the three-way choice of view, `calendarConfig`, `showNavigation`,
  `calendarData` and the sample data shown when no data has been fetched.

Modules, one file each:

- `Wrappers`: `Option`, `Result`.
- `Text`: the JavaScript string built-ins used. These are `String(n)`, `Number(s)` on digit
  strings, `padStart(2, '0')`, `split` and ASCII `toLowerCase`.
- `Dates`: a `Date` as the triple its getters return, plus the next calendar day.
- `PollutionLevels`, `PollutionApi`, `HeatCalendar`: the three source files.

Modelling choices:

- Numeric scores are exact `real`s.
- A JavaScript object (`categories`, `levelMap`, `pollutantValues`) is the sequence of its
  entries in key order.
- A `Date` is a `(year, month0, day)` triple.
- `null`, `undefined` and `NaN` are `None`.
- `analyzePollution` fills `pollutantValues` in a `forEach` loop. It is modelled twice:
  - as the method `AnalyzePollution`, with that loop and its invariants;
  - as the function `Analyze`, which the method is proved to equal.

  The record transform and the lemmas use the function.
- `getHistoricData` takes the network exchange as a parameter, `fetch: string -> Response`.

How `analyzePollution` rates a day:

- It uses a **worst-case** rule. The overall level is the first `levelMap` key whose score
  equals the highest pollutant score. The average is reported as computed, with no rounding.
- The scores come from `analyzePollution`'s own `levelMap`: Good 1, Satisfactory 2, Poor 3,
  Moderate 3, Severe 4. This is a separate scale from the six-level table, and Poor and
  Moderate share a score. A label must match a key exactly, case included, so `Hazardous`
  and any other spelling score 0.
- So `{pm25: Good, no2: Hazardous}` gives scores 1 and 0, average 0.5 and level Good
  (`AnalyzeGoodAndHazardous`).
- A day with no categories gives a NaN average (here `None`) and the level `'Good'`
  (`EmptyDay`).
- A `categories` object is the sequence of its entries. The lemmas hold for every such
  sequence, including ones that repeat a key. A JavaScript object never repeats a key, so
  those extra inputs only widen what is proved.

## Model

| member | source | states |
|---|---|---|
| PollutionLevels.LevelTableWellFormed | src/utils/pollutionLevels.js:6-55 | the six level values are 1..6 in declaration order, and the six names are pairwise distinct even after lower-casing |
| PollutionLevels.GetPollutionLevelInfo | src/utils/pollutionLevels.js:62-71 | total: the result is one of the six levels; it is Good exactly when v <= 1 (negatives included), Hazardous exactly when v > 5, and otherwise the level k with k-1 < v <= k |
| PollutionLevels.InfoIsClampedCeiling | src/utils/pollutionLevels.js:65-70 | the threshold chain equals an independent reference: the level whose value is the ceiling of the score clamped into 1..6 |
| PollutionLevels.InfoOfOwnValue | src/utils/pollutionLevels.js:65-70 | boundaries are inclusive: each level is the answer for its own value |
| PollutionLevels.InfoMonotone | src/utils/pollutionLevels.js:65-70 | a <= b implies the level value for a is at most that for b |
| PollutionLevels.FindByName | src/utils/pollutionLevels.js:79-81 | `find` returns the first level whose lower-cased name equals the lower-cased argument, and None exactly when no level matches |
| PollutionLevels.GetPollutionLevelByName | src/utils/pollutionLevels.js:78-82 | returns a level of the table whose name matches ignoring case, or None (null) exactly when none does |
| PollutionLevels.ByNameOfOwnName | src/utils/pollutionLevels.js:78-82 | any spelling whose lower case equals a level's lower-cased name finds that very level (round trip name -> level) |
| PollutionLevels.FindByNameIgnoresCase | src/utils/pollutionLevels.js:79-81 | two arguments with the same lower case give the same lookup result |
| PollutionLevels.ByNameGoodAnyCase | src/utils/pollutionLevels.js:78-82 | "good", "GOOD" and "Good" all give the Good level |
| PollutionLevels.ByNameUnknownLabel | src/utils/pollutionLevels.js:78-82 | "unknown-label" gives null |
| PollutionLevels.GetPollutionColorRange | src/utils/pollutionLevels.js:88-98 | seven colours: the no-data grey '#e5e7eb' first, then at index L.value the colour of level L |
| PollutionLevels.GetPollutionThresholds | src/utils/pollutionLevels.js:104-106 | the thresholds are 1..7, strictly increasing, as many as the colours |
| PollutionLevels.GetPollutionLevelClass | src/utils/pollutionLevels.js:113-115 | the text class of the level the score falls in (by the clamped-ceiling rank); green-500 for v <= 1, red-800 for v > 5 |
| PollutionApi.FormatDate | src/services/pollutionAPI.js:17-22 | DD-MM-YYYY: two-digit day and one-based month that read back as the day and month0+1, dashes at positions 2 and 5, then the unpadded year (with its sign) |
| PollutionApi.ParseDate | src/services/pollutionAPI.js:29-32 | succeeds exactly when the first three `-`-pieces are numeric (empty reads as 0); the first piece's value is the day, the second's minus one the zero-based month, the third's the year |
| PollutionApi.ParseDateOfPieces | src/services/pollutionAPI.js:29-32 | for any three numeric pieces, padded or not, `d-m-y` parses to year y, zero-based month m - 1 and day d |
| PollutionApi.ParseUnpaddedDate | src/services/pollutionAPI.js:29-32 | "5-3-2024" parses to 5 March 2024 (month0 2) |
| PollutionApi.ParseFormatRoundTrip | src/services/pollutionAPI.js:17-32 | for a year >= 0, parsing a formatted date gives back its year, zero-based month and day |
| PollutionApi.ParseFormatNegativeYear | src/services/pollutionAPI.js:17-32 | for a negative year the round trip fails: the year comes back as 0 |
| Dates.NextDay | src/composables/useHeatCalendar.js:69 | the one-day step (`+ 86400000` ms): a valid date whose day number (a closed-form count of days, leap years included) is one more than d's; it starts a month exactly when d is the last day of its month |
| Dates.AddDays | src/composables/useHeatCalendar.js:69 | the date n calendar days after d (the `index * 86400000` step): a valid date whose day number is exactly d's plus n, so strictly later when n > 0 |
| Dates.DayNumberInjective | src/composables/useHeatCalendar.js:69 | two valid dates with the same day number are the same date, so the day number fixes the result of `AddDays` |
| Dates.BeforeHasSmallerNumber | src/composables/useHeatCalendar.js:69 | the day number follows the chronological order of valid dates |
| Dates.TimeRangeEnds | src/services/pollutionAPI.js:139 | 20 April -271821 and 13 September 275760 are valid dates lying exactly 100,000,000 days (8.64e15 ms) before and after 1970-01-01 |
| Dates.InTimeRangeBetweenEnds | src/services/pollutionAPI.js:31 | a valid date (year not read as 19xx) gives a time value exactly when it lies between those two days, ends included |
| Dates.PastLastTimeDay | src/services/pollutionAPI.js:139 | 13 September 275760 still gives a time value; 14 September 275760 does not |
| PollutionApi.GetCityName | src/services/pollutionAPI.js:39-49 | ids 1..6 give Tokyo, Barcelona, London, Ankara, Mumbai, Madrid; every other id gives 'Ankara' |
| PollutionApi.CityNameTotal | src/services/pollutionAPI.js:39-49 | every id maps to one of the six cities, and ids 1..6 map to six different cities |
| PollutionApi.Score | src/services/pollutionAPI.js:61-71 | `levelMap[label] \|\| 0`: in 0..4, 0 exactly when the label is none of the five keys (case-sensitive), otherwise the key's value |
| PollutionApi.FirstKeyWithValue | src/services/pollutionAPI.js:80-82 | the first key in declaration order whose value equals the argument, None exactly when no key has it |
| PollutionApi.ScoredPollutants | src/services/pollutionAPI.js:70-72 | exactly the input's pollutants, in order, each with its label's score |
| PollutionApi.AnalyzePollution | src/services/pollutionAPI.js:56-85 | the forEach loop builds one (pollutant, score) entry per input entry in order, and the result equals the functional specification `Analyze` |
| PollutionApi.ScoreOfKnownLabels | src/services/pollutionAPI.js:61-67 | Good 1, Satisfactory 2, Poor 3, Moderate 3, Severe 4 |
| PollutionApi.ScoreOfOtherLabels | src/services/pollutionAPI.js:61-71 | 'Hazardous', 'good' and '' score 0: the match is exact and case-sensitive |
| PollutionApi.Mean | src/services/pollutionAPI.js:75-76 | `reduce` then divide: no average (NaN) exactly for an empty list, otherwise a value that times the count gives the sum |
| PollutionApi.OverallLevel | src/services/pollutionAPI.js:79-82 | one of Good, Satisfactory, Poor, Severe; 'Good' for no values or a maximum outside 1..4; otherwise a key whose `levelMap` value is the maximum, and 'Poor' (not Moderate) for a maximum of 3 |
| PollutionApi.Analyze | src/services/pollutionAPI.js:56-85 | the analysis of a day: one score per pollutant in order, no average exactly when there are no categories, otherwise the mean of the scores, and the worst-case level of the scores |
| PollutionApi.AverageWithinScores | src/services/pollutionAPI.js:75-76 | for a non-empty day the average exists and lies between the lowest and highest score, hence in [0, 4] |
| PollutionApi.EmptyDay | src/services/pollutionAPI.js:75-84 | no categories: no average (NaN), overall level 'Good', no pollutants |
| PollutionApi.WorstKey | src/services/pollutionAPI.js:80-82 | for scores 1, 2, 3, 4 the key lookup finds Good, Satisfactory, Poor (Moderate comes later, so never Moderate), Severe; for any other number it finds nothing |
| PollutionApi.OverallLevelIsWorst | src/services/pollutionAPI.js:79-82 | maximum 0 gives 'Good'; maximum >= 1 gives a key whose levelMap value is the maximum; maximum 3 gives 'Poor', never 'Moderate' |
| PollutionApi.OverallLevelDominates | src/services/pollutionAPI.js:79-82 | the overall level is one of Good, Satisfactory, Poor, Severe, and no pollutant scores above it |
| PollutionApi.AggregationOrderIndependent | src/services/pollutionAPI.js:74-82 | two days with the same multiset of scores get the same average and the same overall level |
| PollutionApi.AnalyzeGoodAndHazardous | src/services/pollutionAPI.js:56-85 | {pm25: Good, no2: Hazardous} gives scores 1 and 0, average 0.5, level Good |
| PollutionApi.ErrorMessage | src/services/pollutionAPI.js:106-121 | never empty; a truthy body `message` wins, otherwise `HTTP <status>: <statusText>` |
| PollutionApi.RequestUrl | src/services/pollutionAPI.js:99 | the template `/api/pollution?city=..&startDate=..&endDate=..` with the base URL filled in |
| PollutionApi.RequestUrlQuery | src/services/pollutionAPI.js:99 | when no value holds an `&`, the URL splits at `&` back into the path with the city, the start date and the end date |
| PollutionApi.ErrorMessageChoice | src/services/pollutionAPI.js:106-121 | without a truthy body `message`, the thrown message is "HTTP " then the status, ": " and the status text; the status reads back from it as a number and the text follows it unchanged |
| PollutionApi.TransformDay | src/services/pollutionAPI.js:126-142 | fails (`toISOString` on the Invalid Date) exactly when the date string does not parse or its day lies outside the ±100,000,000-day time value range; otherwise the record carries the parsed date, the date string, the city, the overall level, the average as both value and calendar value, and the scores |
| PollutionApi.TransformResults | src/services/pollutionAPI.js:126-143 | one record per result entry, in order, each the day transform of its entry; fails exactly when some date does not parse or lies outside the time value range |
| PollutionApi.LastYearDates | src/services/pollutionAPI.js:29-32 | "13-09-275760" and "14-09-275760" parse to 13 and 14 September 275760 |
| PollutionApi.LastReportableDay | src/services/pollutionAPI.js:126-142 | a day dated "13-09-275760" is transformed; one dated "14-09-275760" makes the transform throw |
| PollutionApi.GetHistoricData | src/services/pollutionAPI.js:94-150 | requests the URL for the city name and formatted dates; non-ok status throws the chosen message; missing `results` gives []; otherwise the transform of the results with `data.city` |
| HeatCalendar.CalculateMonthsDiff | src/composables/useHeatCalendar.js:48-51 | the difference of the end's and start's month indices (12 * year + month) |
| HeatCalendar.MonthsDiffZeroIffSameMonth | src/composables/useHeatCalendar.js:48-51 | the distance is 0 exactly when both dates share month and year |
| HeatCalendar.GetCalendarViewConfig | src/composables/useHeatCalendar.js:53-64 | sub-domain always "day"; year view exactly when the months differ and the distance exceeds 4; range 1 for same month or year view, distance + 1 otherwise |
| HeatCalendar.ViewConfigCoversRange | src/composables/useHeatCalendar.js:53-64 | for a forward range the range is 1..5, a month view spans exactly the months from start to end, and longer ranges get one year |
| HeatCalendar.ViewRangeForDistinctMonths | src/composables/useHeatCalendar.js:57-59 | start before end in a different month, at most 4 months on: month view with range 2..5 |
| HeatCalendar.ViewConfigBackwardsRange | src/composables/useHeatCalendar.js:57-59 | an end in an earlier month than the start gives a month view with range distance + 1 <= 0 |
| HeatCalendar.CalendarConfigOf | src/composables/useHeatCalendar.js:18-32 | null exactly when either end of the range is missing; otherwise both dates, their month distance and the view configuration |
| HeatCalendar.ShowNavigation | src/composables/useHeatCalendar.js:34-37 | false when there is no configuration |
| HeatCalendar.ShowNavigationIffLaterMonth | src/composables/useHeatCalendar.js:18-37 | navigation shows exactly when both ends are set and the end lies in a later month than the start |
| HeatCalendar.GenerateSampleData | src/composables/useHeatCalendar.js:66-72 | six entries, the first on the start date and each next on the following day, with values 1, 1, 2, 3, 4, 5 |
| HeatCalendar.SampleDataShape | src/composables/useHeatCalendar.js:66-72 | the sample dates strictly increase, and the values fall in the levels Good, Good, Satisfactory, Poor, Moderate, Severe |
| HeatCalendar.CalendarData | src/composables/useHeatCalendar.js:39-45 | [] without a configuration; otherwise each fetched record's calendar item in order, or the sample data when nothing was fetched |

## Left out

- Network I/O. `fetch`, `async`/`await`, `console` logging and the singleton client are not
  modelled. The response is an input value (`fetch` is a parameter). The raw status is
  modelled; `response.ok` is a status in 200..299.
- A body that cannot be read or is `null` is one case, `None`. On an error status this falls
  back to the status line, as the code's `catch` does. On an ok status it is the rejection
  `UnreadableBody`; the engine's own error message is not modelled.
- A missing `city` or a non-array `results` field is not modelled.
- `parseFloat` in `getPollutionLevelInfo` is not modelled: the argument is already a `real`.
  A numeric string such as `"3"` is read as its number (3, Poor). Only an argument that
  `parseFloat` turns into NaN fails every `<=` test and falls through to Hazardous; NaN is not
  modelled.
- Float rounding of the average is not modelled: the mean is exact rational arithmetic.
- JavaScript `Date` semantics. Time zones, `toISOString`, locale formatting, the overflow
  normalisation of `new Date(y, m, d)`, and its mapping of years 0..99 to 1900..1999 are
  outside the model, except in the time value range test (`Dates.TimeDay`).
  - `ParseDate` stops at the components handed to `new Date`.
  - The record's `calendarData.date` is that parsed triple, read as if the local zone were
    UTC. An unparseable date, or one whose day (after the month carry and the 19xx reading of
    years 0..99) lies more than 100,000,000 days from 1970-01-01, becomes the Invalid Date,
    whose `toISOString` throws; this is the rejection `InvalidTimeValue`. The range test is
    taken in UTC, so a local zone's offset at the two end days is not modelled.
  - The sample data starts on the start date's own triple. In the code it is the UTC day of
    that instant.
- `Number()` on a date piece: only digit strings and the empty string (read as 0) are numbers.
  Signs, decimal points, exponents, surrounding white space and hex spellings all count as NaN
  here.
- `toLowerCase` lowers only ASCII letters. For the six level names the lookup gives the same
  answers: the only non-ASCII character whose lower case is an ASCII letter is KELVIN SIGN
  (to `k`), and no level name contains a `k`.
- `analyzePollution` labels that name `Object.prototype` members are not modelled; the model
  scores them 0. For `toString` or `constructor`, `levelMap[label]` is a function. For
  `__proto__` it is `Object.prototype`, an object. Either way the `reduce` then builds a string
  instead of a number. A pollutant key `__proto__` is not modelled either.
- `Payload.message` is a string or absent. A truthy non-string `message` (a number, an
  object) is not modelled: the code assigns it and `new Error` turns it into a string.
- `GetPollutionLevelByName` takes a string. Passing `null` or `undefined` makes the code throw
  a TypeError at `levelName.toLowerCase()`; that case is not modelled.
- `FormatDate` and `GetHistoricData` require valid dates. On an Invalid Date the code's
  `formatDate` yields `"NaN-NaN-NaN"` and the request is still sent; that case is not
  modelled.
- The calendar widget is not modelled. This covers `initializeCalendar`, `destroyCalendar`,
  `goToPrevious`/`goToNext`, the tooltip and label plug-ins and the `calendar` variable they
  reassign. They are foreign library, DOM and presentation code. How the widget's threshold
  scale maps values to colours is also the widget's.
- `src/stores/settingStore.js` (two plain setters) and `src/composables/usePollutionModal.js`
  (UI state and locale formatting around a find-by-date) are not part of this model.
- The level colours, CSS classes and descriptions are carried as opaque strings.
