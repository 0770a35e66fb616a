# Parva calendar core in Dafny

A model of the calendar logic of the Parva journaling app. A *Maha-Parva* is
a 343-day journey: seven *Parvas* of 49 days, each of seven *Saptahas*
(weeks), each of seven *Dinas* (days). The model covers:

- the date shift applied by hold periods (`DateUtils.calculateAdjustedDate`,
  `HoldPeriod`);
- the theme tables (`CycleTheme`, `DinaTheme`, and the older 49-day
  `MiniParvaTheme`, `MacroParvaTheme` and `ParvaDay`);
- the nested builders `MahaParva.create`, `Parva.create`, `Saptaha.create`
  and `Dina.create`, and the read-only queries on the tree: end dates,
  `isActive`, `isPast`, `isEditable`, `currentDayNumber`, `currentParva`,
  `currentSaptaha`, `currentDina`, `progress` and `getJournal`;
- the repository's tree edits `updateDina`, `updateParvaGoal`,
  `updateSaptahaGoal` and `updateHoldPeriods`, over a store of records
  keyed by id;
- the corruption check and repair in `MahaParvaFixes`;
- the index lookups `MandalaStyle.forMahaParva` and
  `WisdomCollection.getQuoteForDay`.

Every file of the model is pure: the source builds and edits immutable data
classes with `map`, `copy`, `flatMap`, `find`, `count` and `filter`, so each
operation is a Dafny function over datatypes. The Kotlin model classes are
datatypes with the same fields; their `init { require(...) }` checks are the
`Valid()` predicates and the `New...` constructors. A data-class `copy` runs
the constructor, so the repository's edits build every copied node through
`NewDina`, `NewSaptaha` or `NewParva` and fail when a check fails; this can
happen only for a record that never went through the constructors, such as
one the JSON import reads with Gson. Thrown exceptions are
`Result` values (`Err(IllegalArgument)`, `Err(Arithmetic)`,
`Err(IndexOutOfBounds)`), and nullable results are `Option`.

Dates are epoch days (`Date = int`): `plusDays` is `+`, and `isBefore` and
`isAfter` are `<` and `>`. Every read of `LocalDate.now()` is a `today`
parameter. `Kotlin` (kotlin.dfy) holds the library functions the source
relies on, each specified by its own contract: the wrapping `Int` decrement, truncating `%`, `coerceIn`,
`find`, `(lo..hi).map`, `map` and `mapIndexed` with a throwing body, `flatMap`, `joinToString` and
`Int.toString`.

Two facts about the tree are central:

- As written, `Saptaha.create` gives day `k` of a week the start
  `startDate + k`, and `Dina.create` adds `dayNumber - 1` again. A created
  day `d` is therefore dated `startDate + 2 (d - 1)` (see Findings).
  `MahaParvas.CreatedDina` and `MahaParvas.CreatedAllDinas` state those
  dates as they are.
- The body of `regenerateWithHolds` is not among the source files.
  `Regeneration.RegenerateWithHolds` is derived from its doc comments
  (MahaParvaRepository.kt:163-167, MahaParvaFixes.kt:10-14). It rebuilds
  the same seven-by-seven-by-seven tree with the numbers and themes of the
  builder. It dates day `i + 1` at `calculateAdjustedDate(startDate + i,
  holds)`, the "Nth calendar day" of DateUtils.kt:10-11. It carries each
  day's intention, notes and completion over from the day at the same
  position in the old tree, together with each Parva's and week's
  `customGoal` (the "goals, notes, completion" of MahaParvaRepository.kt:166). That
  position-by-position correspondence is a modelling choice; the comments
  do not say how content is matched.

## Model

| member | source | states |
|---|---|---|
| DateUtils.CalculateAdjustedDate | app/src/main/java/com/aravind/parva/utils/DateUtils.kt:24-37 | the result is `baseDate` plus the total `days` of every hold starting on or before `baseDate`; the early return for an empty list agrees with that; with non-negative lengths the result is never before `baseDate` |
| DateUtils.HoldsStartedByMembers | app/src/main/java/com/aravind/parva/utils/DateUtils.kt:29-33 | the filter keeps a hold exactly when it is in the list and starts on or before the base date (start inclusive) |
| DateUtils.NoHoldsIdentity | app/src/main/java/com/aravind/parva/utils/DateUtils.kt:25 | an empty hold list returns the base date unchanged |
| DateUtils.HoldDaysCons | app/src/main/java/com/aravind/parva/utils/DateUtils.kt:29-34 | the first hold contributes its full length if it has started, nothing otherwise, then the rest follow |
| DateUtils.HoldDaysNonNegative | app/src/main/java/com/aravind/parva/utils/DateUtils.kt:29-34 | holds of non-negative length never add a negative shift |
| DateUtils.AdjustedAppend | app/src/main/java/com/aravind/parva/utils/DateUtils.kt:29-36 | splitting the hold list splits the shift: overlapping holds add up rather than merge |
| DateUtils.SingleHold | app/src/main/java/com/aravind/parva/utils/DateUtils.kt:29-34 | one hold shifts by its full length if it started on or before the base date, else by nothing |
| DateUtils.InsertedHold | app/src/main/java/com/aravind/parva/utils/DateUtils.kt:29-36 | inserting a hold anywhere in the list adds its full length when it has started, otherwise nothing |
| DateUtils.LateHoldIgnored | app/src/main/java/com/aravind/parva/utils/DateUtils.kt:30-33 | adding or removing a hold that starts after the base date leaves the result unchanged |
| DateUtils.HoldStartingOnBaseDate | app/src/main/java/com/aravind/parva/utils/DateUtils.kt:13-19 | the documented example: a 6-day hold starting on the base date moves it by exactly 6 days |
| DateUtils.RemoveMatched | app/src/main/java/com/aravind/parva/utils/DateUtils.kt:29-34 | removing one matched copy of a hold from two permuted lists leaves them permuted |
| DateUtils.HoldDaysRemoved | app/src/main/java/com/aravind/parva/utils/DateUtils.kt:29-34 | removing the hold at any position takes away exactly its contribution |
| DateUtils.HoldDaysPermutation | app/src/main/java/com/aravind/parva/utils/DateUtils.kt:29-34 | the total of started hold days is the same for any two lists with the same multiset of holds |
| DateUtils.OrderIndependent | app/src/main/java/com/aravind/parva/utils/DateUtils.kt:29-36 | the adjusted date does not depend on the order of the hold list |
| DateUtils.HoldDaysMonotone | app/src/main/java/com/aravind/parva/utils/DateUtils.kt:29-34 | with non-negative lengths a later base date never counts fewer hold days |
| DateUtils.AdjustedStrictlyIncreasing | app/src/main/java/com/aravind/parva/utils/DateUtils.kt:29-36 | with non-negative lengths the adjusted date is strictly increasing in the base date |
| HoldPeriods.ContainsIff | app/src/main/java/com/aravind/parva/data/model/HoldPeriod.kt:17-25 | `endDate` is `days - 1` days after the start, and `contains` holds exactly from `startDate` through that day, both ends inclusive |
| HoldPeriods.HoldCoversDays | app/src/main/java/com/aravind/parva/data/model/HoldPeriod.kt:17-25 | a hold of at least one day contains both its end points, and the dates it contains are exactly `days` consecutive dates |
| HoldPeriods.EmptyHold | app/src/main/java/com/aravind/parva/data/model/HoldPeriod.kt:9-25 | with no validation, a hold of zero or fewer days ends before it starts and contains no date |
| HoldPeriods.DateRange | app/src/main/java/com/aravind/parva/data/model/HoldPeriod.kt:23-25 | the `n` consecutive dates from `lo` are exactly those in `lo .. lo + n - 1` |
| HoldPeriods.DateRangeSize | app/src/main/java/com/aravind/parva/data/model/HoldPeriod.kt:23-25 | that range has exactly `n` dates |
| CycleThemes.CycleTheme.Ordinal | app/src/main/java/com/aravind/parva/data/model/CycleTheme.kt:9-48 | each theme sits at its own ordinal in the declared order BEGINNING .. RENEWAL |
| CycleThemes.FromIndex | app/src/main/java/com/aravind/parva/data/model/CycleTheme.kt:54-57 | succeeds exactly for 0..6 with the theme of that ordinal; any other index is an IllegalArgumentException |
| CycleThemes.FromIndexBijection | app/src/main/java/com/aravind/parva/data/model/CycleTheme.kt:54-57 | `fromIndex` and the ordinal are inverse: a bijection between 0..6 and the seven themes |
| CycleThemes.FromDayInCycle | app/src/main/java/com/aravind/parva/data/model/CycleTheme.kt:64-68 | a day outside `1..cycleLength` is an IllegalArgumentException; a length below 7 divides by zero |
| CycleThemes.FromDayInCycleMultiple | app/src/main/java/com/aravind/parva/data/model/CycleTheme.kt:64-68 | for a length `7k` every day in range yields the theme with ordinal `(day - 1) / k` |
| CycleThemes.FromDayInCycleNotMultiple | app/src/main/java/com/aravind/parva/data/model/CycleTheme.kt:64-68 | for any length of at least 7 that is not a multiple of 7, its last day fails inside `fromIndex` |
| CycleThemes.FromDayInCycle49 | app/src/main/java/com/aravind/parva/data/model/CycleTheme.kt:59-67 | in a 49-day cycle days 1-7 are BEGINNING, 8-14 PRACTICE, and so on |
| CycleThemes.FromDayInCycle7 | app/src/main/java/com/aravind/parva/data/model/CycleTheme.kt:59-67 | in a 7-day cycle day `d` has theme `fromIndex(d - 1)` |
| DinaThemes.DinaTheme.Ordinal | app/src/main/java/com/aravind/parva/data/model/DinaTheme.kt:7-35 | each daily theme sits at its own ordinal in the declared order INITIATE .. REFLECT |
| DinaThemes.FromDay | app/src/main/java/com/aravind/parva/data/model/DinaTheme.kt:41-45 | succeeds exactly for days 1..343 with ordinal `(day - 1) % 7`; otherwise an IllegalArgumentException |
| DinaThemes.FromDayEnds | app/src/main/java/com/aravind/parva/data/model/DinaTheme.kt:43-44 | day 1 is INITIATE and day 7 is REFLECT |
| DinaThemes.FromDayPeriodic | app/src/main/java/com/aravind/parva/data/model/DinaTheme.kt:43 | the theme repeats every 7 days, across Parva boundaries |
| MiniParvaThemes.MiniParvaTheme.Ordinal | app/src/main/java/com/aravind/parva/data/model/MiniParvaTheme.kt:7-35 | declared order BEGINNING .. RENEWAL |
| MiniParvaThemes.FromDay | app/src/main/java/com/aravind/parva/data/model/MiniParvaTheme.kt:41-45 | succeeds exactly for days 1..49 with ordinal `(day - 1) / 7`; otherwise an IllegalArgumentException |
| MiniParvaThemes.FromDayEnds | app/src/main/java/com/aravind/parva/data/model/MiniParvaTheme.kt:43-44 | days 1-7 are BEGINNING and days 43-49 are RENEWAL |
| MiniParvaThemes.FromDayChangesAtBlocks | app/src/main/java/com/aravind/parva/data/model/MiniParvaTheme.kt:43 | the theme changes from one day to the next exactly at the end of a 7-day block |
| MacroParvaThemes.MacroParvaTheme.Ordinal | app/src/main/java/com/aravind/parva/data/model/MacroParvaTheme.kt:7-35 | declared order INITIATE .. REFLECT |
| MacroParvaThemes.FromDay | app/src/main/java/com/aravind/parva/data/model/MacroParvaTheme.kt:41-45 | succeeds exactly for days 1..49 with ordinal `(day - 1) % 7`; otherwise an IllegalArgumentException |
| MacroParvaThemes.FromDayPeriodic | app/src/main/java/com/aravind/parva/data/model/MacroParvaTheme.kt:43 | the micro-theme repeats every 7 days within 1..49 |
| MacroParvaThemes.AgreesWithDinaTheme | app/src/main/java/com/aravind/parva/data/model/MacroParvaTheme.kt:43 | for days 1..49 its ordinal is that of the daily theme of the same day |
| ParvaDays.NewParvaDay | app/src/main/java/com/aravind/parva/data/model/ParvaDay.kt:16-18 | the constructor succeeds exactly for a day number in 1..49, otherwise an IllegalArgumentException |
| ParvaDays.ParvaDay.MiniParvaNumber | app/src/main/java/com/aravind/parva/data/model/ParvaDay.kt:23-24 | lies in 1..7 for a valid day |
| ParvaDays.ParvaDay.DayInMiniParva | app/src/main/java/com/aravind/parva/data/model/ParvaDay.kt:29-30 | lies in 1..7 for a valid day |
| ParvaDays.Create | app/src/main/java/com/aravind/parva/data/model/ParvaDay.kt:36-43 | succeeds exactly for days 1..49: date `startDate + (d - 1)`, both themes of the day, not completed, no notes |
| ParvaDays.DecompositionRoundTrip | app/src/main/java/com/aravind/parva/data/model/ParvaDay.kt:23-30 | `d = 7 (miniParvaNumber - 1) + dayInMiniParva`, and each position 1..7 x 1..7 belongs to exactly one day number |
| ParvaDays.CreatedThemesMatchPosition | app/src/main/java/com/aravind/parva/data/model/ParvaDay.kt:36-43 | a created day's Mini-Parva theme has ordinal `miniParvaNumber - 1`, and its micro-theme `dayInMiniParva - 1` |
| MandalaStyles.ForMahaParva | app/src/main/java/com/aravind/parva/data/model/MandalaStyle.kt:34-37 | for `n >= 1` the style at `(n - 1) % 5`; at `Int.MIN_VALUE` the wrapped `n - 1` is `Int.MAX_VALUE`, giving the style at `Int.MAX_VALUE % 5`; for any other `n < 1` the truncating remainder is at most 0 and the lookup succeeds exactly when it is 0, failing with an index out of bounds otherwise |
| MandalaStyles.ForMahaParvaInOrder | app/src/main/java/com/aravind/parva/data/model/MandalaStyle.kt:35 | numbers 1..5 get the five styles in declared order |
| MandalaStyles.ForMahaParvaPeriodic | app/src/main/java/com/aravind/parva/data/model/MandalaStyle.kt:35 | for `n >= 1` the style repeats every 5 numbers, while `n + 5` is still an `Int` |
| MandalaStyles.ForMahaParvaZero | app/src/main/java/com/aravind/parva/data/model/MandalaStyle.kt:35-36 | number 0 gives remainder -1 and an index out of bounds |
| MandalaStyles.ForMahaParvaMinValue | app/src/main/java/com/aravind/parva/data/model/MandalaStyle.kt:35-36 | `Int.MIN_VALUE` wraps to `Int.MAX_VALUE` and gets the lotus style |
| Wisdom.GetQuoteForDay | app/src/main/java/com/aravind/parva/data/model/WisdomQuote.kt:32-35 | an empty list divides by zero; otherwise the lookup succeeds exactly for a day of at least 1, for `Int.MIN_VALUE` (whose `day - 1` wraps to `Int.MAX_VALUE`), or when `size` divides `day - 1`, and fails with an index out of bounds otherwise; a day of at least 1 gives the quote at `(day - 1) % size`, and `Int.MIN_VALUE` the quote at `Int.MAX_VALUE % size`; any quote returned is from the list |
| Wisdom.FirstDayFirstQuote | app/src/main/java/com/aravind/parva/data/model/WisdomQuote.kt:33 | day 1 gives the first quote |
| Wisdom.QuotePeriodic | app/src/main/java/com/aravind/parva/data/model/WisdomQuote.kt:23-34 | for a day of at least 1, day `d` and day `d + size` give the same quote, while `d + size` is still an `Int` |
| Wisdom.DayZeroFails | app/src/main/java/com/aravind/parva/data/model/WisdomQuote.kt:33-34 | with more than one quote, day 0 gives remainder -1 and an index out of bounds |
| Dinas.NewDina | app/src/main/java/com/aravind/parva/data/model/Dina.kt:16-18 | the constructor succeeds exactly for a day number in 1..343, otherwise an IllegalArgumentException |
| Dinas.Dina.ParvaNumber | app/src/main/java/com/aravind/parva/data/model/Dina.kt:23-24 | lies in 1..7 for a valid day |
| Dinas.Dina.SaptahaNumber | app/src/main/java/com/aravind/parva/data/model/Dina.kt:29-30 | lies in 1..7 for a valid day |
| Dinas.Dina.DayInSaptaha | app/src/main/java/com/aravind/parva/data/model/Dina.kt:35-36 | lies in 1..7 for a valid day |
| Dinas.DecompositionRoundTrip | app/src/main/java/com/aravind/parva/data/model/Dina.kt:23-36 | `d = 49 (parvaNumber - 1) + 7 (saptahaNumber - 1) + dayInSaptaha` |
| Dinas.DecompositionOnto | app/src/main/java/com/aravind/parva/data/model/Dina.kt:23-36 | every position (p, s, k) in 1..7 cubed is the decomposition of the day number `49 (p - 1) + 7 (s - 1) + k` |
| Dinas.PositionIgnoresDate | app/src/main/java/com/aravind/parva/data/model/Dina.kt:23-36 | two days with the same number have the same position, whatever their dates |
| Dinas.EditableIff | app/src/main/java/com/aravind/parva/data/model/Dina.kt:41-48 | `isEditable` holds exactly when today is on or before the date, and `isPast` is its negation |
| Dinas.Create | app/src/main/java/com/aravind/parva/data/model/Dina.kt:54-60 | succeeds exactly for days 1..343: date `startDate + (d - 1)`, the daily theme of `d`, no intention or notes, not completed |
| Dinas.CompletedCount | app/src/main/java/com/aravind/parva/data/model/Saptaha.kt:30 | the count is at most the length, all of it exactly when every day is completed, zero exactly when none is |
| Dinas.RatioBounds | app/src/main/java/com/aravind/parva/data/model/Saptaha.kt:31 | a part over a positive whole lies in [0, 1], is 0 exactly for no part and 1 exactly for the whole |
| Dinas.Progress | app/src/main/java/com/aravind/parva/data/model/Saptaha.kt:27-32 | lies in [0, 1], is 0 exactly when no day is completed (including no days), and 1 exactly when there are days and all are completed |
| Saptahas.NewSaptaha | app/src/main/java/com/aravind/parva/data/model/Saptaha.kt:14-16 | the constructor succeeds exactly for a number in 1..7, otherwise an IllegalArgumentException |
| Saptahas.Create | app/src/main/java/com/aravind/parva/data/model/Saptaha.kt:47-65 | succeeds exactly when the number is in 1..7 and all seven day numbers are in 1..343; seven days, the given number, theme and start, no goal |
| Saptahas.BuiltDinasOk | app/src/main/java/com/aravind/parva/data/model/Saptaha.kt:53-58 | the `(0..6).map` succeeds exactly when all seven day numbers are in range, and fails only with an IllegalArgumentException |
| Saptahas.CreateIsRangeMap | app/src/main/java/com/aravind/parva/data/model/Saptaha.kt:53-64 | `Create` equals the step-by-step `(0..6).map` followed by the constructor, outcome for outcome |
| Saptahas.CreatedDinas | app/src/main/java/com/aravind/parva/data/model/Saptaha.kt:53-58 | day `k` has number `absoluteDayOffset + k` and, as written, date `startDate + 2k + absoluteDayOffset - 1`, its daily theme and no content |
| Saptahas.IsActiveIff | app/src/main/java/com/aravind/parva/data/model/Saptaha.kt:37-41 | `isActive` holds exactly from `startDate` through `startDate + 6` |
| Parvas.NewParva | app/src/main/java/com/aravind/parva/data/model/Parva.kt:15-17 | the constructor succeeds exactly for a number in 1..7, otherwise an IllegalArgumentException |
| Parvas.Parva.CurrentSaptaha | app/src/main/java/com/aravind/parva/data/model/Parva.kt:66-67 | nothing unless the Parva is active; when it is and some week is active today, the result is present, and it is the first active week in list order |
| Parvas.BuiltSaptahasOk | app/src/main/java/com/aravind/parva/data/model/Parva.kt:79-90 | the `(1..7).map` succeeds exactly when all 49 day numbers are in range, and fails only with an IllegalArgumentException |
| Parvas.Create | app/src/main/java/com/aravind/parva/data/model/Parva.kt:73-97 | succeeds exactly when the number is in 1..7 and the 49 day numbers are in range; seven weeks, the given number, theme and start, no goal |
| Parvas.CreateIsRangeMap | app/src/main/java/com/aravind/parva/data/model/Parva.kt:79-96 | `Create` equals the step-by-step `(1..7).map` followed by the constructor, outcome for outcome |
| Parvas.CreatedSaptaha | app/src/main/java/com/aravind/parva/data/model/Parva.kt:79-90 | week `k` is the week created as number `k + 1` with theme `fromIndex(k)`, start `startDate + 7k` and offset `absoluteDayOffset + 7k` |
| Parvas.IsEditableIff | app/src/main/java/com/aravind/parva/data/model/Parva.kt:22-61 | `isActive` holds exactly from `startDate` through `startDate + 48`, `isPast` exactly after that, `isEditable` exactly through `endDate`; an active Parva is editable |
| Parvas.CreatedWindowsTile | app/src/main/java/com/aravind/parva/data/model/Parva.kt:79-82 | the weeks' windows tile the 49 days: the first starts with the Parva, each starts the day after the previous ends, the last ends with it |
| Parvas.CreatedTiled | app/src/main/java/com/aravind/parva/data/model/Parva.kt:79-82 | in a created Parva week `k` starts `7k` days after the Parva |
| Parvas.TiledCurrentSaptaha | app/src/main/java/com/aravind/parva/data/model/Parva.kt:66-67 | in such a Parva, when active, `currentSaptaha` is week `(today - startDate) / 7` |
| Parvas.CreatedCurrentSaptaha | app/src/main/java/com/aravind/parva/data/model/Parva.kt:66-67 | in a created active Parva, `currentSaptaha` is that week, numbered `(today - startDate) / 7 + 1` |
| Parvas.CreatedAllDinas | app/src/main/java/com/aravind/parva/data/model/Parva.kt:28-29 | a created Parva lists 49 days numbered consecutively from `absoluteDayOffset` |
| MahaParvas.MahaParva.CurrentDayNumber | app/src/main/java/com/aravind/parva/data/model/MahaParva.kt:42-48 | present exactly when active, and then `today - startDate + 1`, in 1..343, so `coerceIn` never changes it |
| MahaParvas.MahaParva.CurrentParva | app/src/main/java/com/aravind/parva/data/model/MahaParva.kt:53-54 | nothing unless active; when active and some Parva is active today, the result is present, and it is the first active Parva in list order |
| MahaParvas.MahaParva.CurrentSaptaha | app/src/main/java/com/aravind/parva/data/model/MahaParva.kt:59-60 | nothing unless active; a week of the current Parva, active today; when that Parva has an active week the result is present and is its first active week |
| MahaParvas.MahaParva.CurrentDina | app/src/main/java/com/aravind/parva/data/model/MahaParva.kt:65-69 | nothing unless active; when some day of `allDinas` carries the current day number the result is present, and it is the first such day in `allDinas` order |
| MahaParvas.MahaParva.Progress | app/src/main/java/com/aravind/parva/data/model/MahaParva.kt:80-86 | lies in [0, 1], 0 exactly when no day is completed, 1 exactly when there are days and all are completed |
| MahaParvas.NotedDinas | app/src/main/java/com/aravind/parva/data/model/MahaParva.kt:93 | every kept day has notes, the result is no longer than the input, and it is empty exactly when no day has notes |
| MahaParvas.NotedDinasMembers | app/src/main/java/com/aravind/parva/data/model/MahaParva.kt:93 | the filter keeps exactly the days with notes, each as many times as it occurs in the input |
| MahaParvas.NotedDinasAppend | app/src/main/java/com/aravind/parva/data/model/MahaParva.kt:93 | the filter keeps the order: filtering `a + b` gives the filtered `a` followed by the filtered `b` |
| MahaParvas.JournalOf | app/src/main/java/com/aravind/parva/data/model/MahaParva.kt:92-96 | the journal of a list of days is empty exactly when no day has notes; with one noted day it is that day's entry `Day <n> - <date> - <notes>`; with more it starts with the first entry and a blank line |
| MahaParvas.JournalOfSingle | app/src/main/java/com/aravind/parva/data/model/MahaParva.kt:93-95 | one day contributes its entry exactly when it has notes, and nothing otherwise |
| MahaParvas.JournalOfAppend | app/src/main/java/com/aravind/parva/data/model/MahaParva.kt:92-96 | the journal of `a + b` is the journal of `a`, a blank line and the journal of `b`, without the separator when either part has no notes; with `JournalOfSingle` this fixes the whole text: one entry per noted day, in order, separated by "\n\n" |
| MahaParvas.GetJournal | app/src/main/java/com/aravind/parva/data/model/MahaParva.kt:91-97 | the journal of `allDinas`: empty exactly when no day has notes, the single entry when one day has notes, otherwise starting with the first noted day's entry and a blank line (the full text follows from `JournalOfAppend`) |
| MahaParvas.ActiveCompletedExclusive | app/src/main/java/com/aravind/parva/data/model/MahaParva.kt:21-37 | `isActive` holds exactly from start through `startDate + 342`, `isCompleted` exactly after that, and never both |
| MahaParvas.ParvaMakerAt | app/src/main/java/com/aravind/parva/data/model/MahaParva.kt:109-119 | Parva `p` is created with number `p`, theme `fromIndex(p - 1)`, start `startDate + 49 (p - 1)` and offset `49 (p - 1) + 1`, and always succeeds |
| MahaParvas.BuiltParvas | app/src/main/java/com/aravind/parva/data/model/MahaParva.kt:109-120 | the `(1..7).map` always succeeds with seven Parvas |
| MahaParvas.Create | app/src/main/java/com/aravind/parva/data/model/MahaParva.kt:103-128 | never fails; keeps the given record fields, has no holds and seven Parvas |
| MahaParvas.CreateIsRangeMap | app/src/main/java/com/aravind/parva/data/model/MahaParva.kt:109-127 | `Create` equals the step-by-step `(1..7).map` followed by the constructor |
| MahaParvas.CreatedParva | app/src/main/java/com/aravind/parva/data/model/MahaParva.kt:109-119 | Parva `p` (0-based) is the Parva created as number `p + 1`, starting `49 p` days on |
| MahaParvas.CreatedSaptaha | app/src/main/java/com/aravind/parva/data/model/MahaParva.kt:109-119 | week `s` of Parva `p` is the week created as number `s + 1`, starting `49 p + 7 s` days on, with seven days |
| MahaParvas.CreatedDina | app/src/main/java/com/aravind/parva/data/model/MahaParva.kt:109-119 | day `(p, s, k)` has number `49 p + 7 s + k + 1`, date `startDate + 2 (49 p + 7 s + k)` as written, theme ordinal `k`, no content |
| MahaParvas.CreatedShaped | app/src/main/java/com/aravind/parva/data/model/MahaParva.kt:109-120 | a created tree has seven Parvas of seven weeks of seven days |
| MahaParvas.CreatedNumbered | app/src/main/java/com/aravind/parva/data/model/MahaParva.kt:109-120 | and every Parva, week and day is numbered by its position |
| MahaParvas.AllDinasAt | app/src/main/java/com/aravind/parva/data/model/MahaParva.kt:74-75 | in a shaped tree `allDinas` has 343 days and lists day `(p, s, k)` at index `49 p + 7 s + k` |
| MahaParvas.NumberedAllDinas | app/src/main/java/com/aravind/parva/data/model/MahaParva.kt:74-75 | in a numbered tree `allDinas[i]` has number `i + 1` and sits at the position its `parvaNumber`, `saptahaNumber` and `dayInSaptaha` name |
| MahaParvas.CreatedAllDinas | app/src/main/java/com/aravind/parva/data/model/MahaParva.kt:74-75 | a created tree lists day numbers 1..343 in order, day `i + 1` dated `startDate + 2i` |
| MahaParvas.CreatedDateOutsideWindow | app/src/main/java/com/aravind/parva/data/model/MahaParva.kt:110 | as written, a created day lies in its own week's window exactly for days 1..4, and on or before the end date exactly for days 1..172 |
| MahaParvas.CreatedDayFiveOutsideWeek | app/src/main/java/com/aravind/parva/data/model/MahaParva.kt:110 | day 5 of any created tree is dated `startDate + 8`, after its week ends at `startDate + 6` |
| MahaParvas.CreatedParvaWindowsTile | app/src/main/java/com/aravind/parva/data/model/MahaParva.kt:110 | the Parvas' windows tile the 343 days: the first starts with the Maha-Parva, each starts the day after the previous ends, the last ends with it |
| MahaParvas.CreatedTiled | app/src/main/java/com/aravind/parva/data/model/MahaParva.kt:109-112 | in a created tree Parva `p` starts `49 p` days on and is tiled by its weeks |
| MahaParvas.TiledCurrentParva | app/src/main/java/com/aravind/parva/data/model/MahaParva.kt:53-54 | in such a tree, when active, `currentParva` is Parva `(today - startDate) / 49` |
| MahaParvas.TiledCurrentSaptaha | app/src/main/java/com/aravind/parva/data/model/MahaParva.kt:59-60 | and `currentSaptaha` is its week `((today - startDate) % 49) / 7` |
| MahaParvas.TiledCurrentNumbers | app/src/main/java/com/aravind/parva/data/model/MahaParva.kt:53-60 | in a tiled, numbered active tree the current Parva is numbered `(d - 1) / 49 + 1` and the current week `((d - 1) % 49) / 7 + 1`, for current day number `d` |
| MahaParvas.CreatedCurrentParva | app/src/main/java/com/aravind/parva/data/model/MahaParva.kt:53-54 | the same numbers for any created tree that is active |
| MahaParvas.NumberedCurrentDina | app/src/main/java/com/aravind/parva/data/model/MahaParva.kt:65-69 | in a numbered active tree `currentDina` is `allDinas[today - startDate]`, found by number |
| MahaParvas.CreatedCurrentDinaDate | app/src/main/java/com/aravind/parva/data/model/MahaParva.kt:65-69 | in a created active tree the current day is dated `2 today - startDate`, not today |
| MahaParvas.CreatedEmpty | app/src/main/java/com/aravind/parva/data/model/MahaParva.kt:80-97 | a created tree has progress 0, an empty journal, and no day completed or with notes |
| Repository.WithDinaAt | app/src/main/java/com/aravind/parva/data/repository/MahaParvaRepository.kt:92-108 | in the tree `updateDina` saves when its copies succeed (`EditDinaResult`), a day with the target number gets the new intention, notes and completion and keeps number, date and theme; any other day, and every record, Parva and week field, is unchanged |
| Repository.WithDinaKeepsShape | app/src/main/java/com/aravind/parva/data/repository/MahaParvaRepository.kt:92-108 | the edit keeps the tree shaped, numbered and tiled exactly when it was, and does not change the corruption check |
| Repository.WithDinaNoMatch | app/src/main/java/com/aravind/parva/data/repository/MahaParvaRepository.kt:92-108 | if no day has the target number, the rebuilt tree equals the old one, and `updateDina` yields it exactly when every Parva and week passes its check, and throws otherwise |
| Repository.WithDinaIdempotent | app/src/main/java/com/aravind/parva/data/repository/MahaParvaRepository.kt:95-101 | applying the same day edit twice is the same as applying it once |
| Repository.WithDinaAllDinas | app/src/main/java/com/aravind/parva/data/repository/MahaParvaRepository.kt:92-108 | `allDinas` of the edited tree is the old list with the edit applied day by day |
| Repository.CopySaptahaResult | app/src/main/java/com/aravind/parva/data/repository/MahaParvaRepository.kt:94-105 | copying a week succeeds exactly when its number is in 1..7 and, if one of its days has the target number, that number is in 1..343 (the checks of Saptaha.kt:14-16 and Dina.kt:16-18); then it is the week with its days edited, otherwise `IllegalArgumentException` |
| Repository.CopyParvaResult | app/src/main/java/com/aravind/parva/data/repository/MahaParvaRepository.kt:93-107 | copying a Parva succeeds exactly when it and every week of it pass their checks and a matching day's number is in range; then it is the Parva with its days edited, otherwise `IllegalArgumentException` |
| Repository.EditDinaResult | app/src/main/java/com/aravind/parva/data/repository/MahaParvaRepository.kt:92-108 | `updateDina`'s rebuild succeeds exactly when every Parva and week passes its check and, if some day has the target number, that number is in 1..343; it then yields `WithDina`, and otherwise throws `IllegalArgumentException` |
| Repository.WithParvaGoalOnly | app/src/main/java/com/aravind/parva/data/repository/MahaParvaRepository.kt:123-129 | in the tree saved when the copy succeeds (`EditParvaGoalResult`), only the `customGoal` of the Parva at the index changes; an index out of range makes no copy, so the edit succeeds with the tree unchanged |
| Repository.WithParvaGoalKeepsDinas | app/src/main/java/com/aravind/parva/data/repository/MahaParvaRepository.kt:123-129 | no day changes |
| Repository.EditParvaGoalResult | app/src/main/java/com/aravind/parva/data/repository/MahaParvaRepository.kt:123-129 | `updateParvaGoal`'s rebuild succeeds exactly when the index is out of range or the Parva there has a number in 1..7 (Parva.kt:15-17 re-checked by `copy` at line 125); it then yields `WithParvaGoal`, and otherwise throws `IllegalArgumentException` |
| Repository.WithSaptahaGoalOnly | app/src/main/java/com/aravind/parva/data/repository/MahaParvaRepository.kt:145-158 | in the tree saved when the copies succeed (`EditSaptahaGoalResult`), only the `customGoal` of the week at `(parvaIndex, saptahaIndex)` changes; every other week and all Parva and record fields are kept |
| Repository.WithSaptahaGoalOutOfRange | app/src/main/java/com/aravind/parva/data/repository/MahaParvaRepository.kt:145-158 | indices outside the lists leave the rebuilt tree unchanged; with the Parva index in range the Parva is still copied, so the edit succeeds exactly when that Parva passes its check |
| Repository.WithSaptahaGoalKeepsDinas | app/src/main/java/com/aravind/parva/data/repository/MahaParvaRepository.kt:145-158 | no day changes |
| Repository.CopyParvaWeekGoalResult | app/src/main/java/com/aravind/parva/data/repository/MahaParvaRepository.kt:147-154 | copying the indexed Parva succeeds exactly when its number is in 1..7 and the week at the index, if any, has a number in 1..7; then only that week's goal is changed |
| Repository.EditSaptahaGoalResult | app/src/main/java/com/aravind/parva/data/repository/MahaParvaRepository.kt:145-158 | `updateSaptahaGoal`'s rebuild succeeds exactly when the Parva index is out of range, or that Parva passes its check and so does the indexed week if there is one; it then yields `WithSaptahaGoal`, and otherwise throws `IllegalArgumentException` |
| Repository.Save | app/src/main/java/com/aravind/parva/data/repository/MahaParvaRepository.kt:55-57 | the record is stored under its id, every other record is kept, and a store keyed by id stays keyed |
| Repository.UnknownIdNoOp | app/src/main/java/com/aravind/parva/data/repository/MahaParvaRepository.kt:90 | for an id not in the store all four updates succeed and leave it unchanged (the early returns at lines 90, 121, 143 and 172) |
| Repository.UpdatesReplaceOneRecord | app/src/main/java/com/aravind/parva/data/repository/MahaParvaRepository.kt:83-178 | for a stored id each edit either replaces exactly that record by its edited or regenerated tree, keeping the store keyed, or, when a copy fails its check, throws `IllegalArgumentException` and stores nothing |
| Repository.NumberedCopiesPass | app/src/main/java/com/aravind/parva/data/repository/MahaParvaRepository.kt:92-158 | a tree numbered by position passes every check the three edits' copies run, whatever the day number and indices |
| Repository.GoalEditsKeepNumbered | app/src/main/java/com/aravind/parva/data/repository/MahaParvaRepository.kt:123-158 | setting a Parva or week goal keeps a tree numbered by position |
| Repository.NumberedEdits | app/src/main/java/com/aravind/parva/data/repository/MahaParvaRepository.kt:83-161 | on a numbered tree each of the three edits succeeds and leaves the tree numbered |
| Repository.NumberedStoreUpdates | app/src/main/java/com/aravind/parva/data/repository/MahaParvaRepository.kt:83-178 | on a store whose records are all numbered, no update throws and each keeps every record numbered |
| Repository.FreshRecordsEditable | app/src/main/java/com/aravind/parva/data/model/MahaParva.kt:103-128 | every record `MahaParva.create` builds and every record `regenerateWithHolds` rebuilds passes all the checks the edits' copies run |
| Regeneration.RegenerateKeepsRecord | app/src/main/java/com/aravind/parva/data/repository/MahaParvaRepository.kt:163-167 | the record's own fields are kept and the new holds are recorded |
| Regeneration.RegeneratedShaped | app/src/main/java/com/aravind/parva/data/repository/MahaParvaRepository.kt:165 | the rebuilt tree has seven Parvas of seven weeks of seven days |
| Regeneration.RegeneratedNumbered | app/src/main/java/com/aravind/parva/data/repository/MahaParvaRepository.kt:165 | and every node is numbered and themed by its position, as the builder does |
| Regeneration.RegeneratedDinaAt | app/src/main/java/com/aravind/parva/data/repository/MahaParvaRepository.kt:163-167 | day `(p, s, k)` has number `49 p + 7 s + k + 1`, the adjusted date of `startDate + 49 p + 7 s + k`, theme ordinal `k`, and the old day's content at that position or none |
| Regeneration.RegeneratedDates | app/src/main/java/com/aravind/parva/data/repository/MahaParvaRepository.kt:163-167 | day `i + 1` of the rebuilt `allDinas` is dated `startDate + i` plus the hold days started by then |
| Regeneration.RegeneratedStartDates | app/src/main/java/com/aravind/parva/data/repository/MahaParvaRepository.kt:163-167 | every Parva and week starts at the adjusted date of its first day |
| Regeneration.RegeneratePreservesDinas | app/src/main/java/com/aravind/parva/data/repository/MahaParvaRepository.kt:166 | for a shaped tree every day keeps its intention, notes and completion (and its number, if numbered) |
| Regeneration.RegeneratePreservesGoals | app/src/main/java/com/aravind/parva/data/repository/MahaParvaRepository.kt:166 | every Parva goal and week goal is kept at its position |
| Regeneration.RegeneratedMissingEmpty | app/src/main/java/com/aravind/parva/data/repository/MahaParvaRepository.kt:165 | a week the old tree lacks is rebuilt with no goal and empty days |
| Regeneration.RegeneratedDateInsideWindow | app/src/main/java/com/aravind/parva/utils/DateUtils.kt:10 | with no holds day `(p, s, k)` is dated `startDate + 49 p + 7 s + k` and lies inside its week, its Parva and the Maha-Parva |
| Regeneration.RegeneratedDatesNotEarlier | app/src/main/java/com/aravind/parva/utils/DateUtils.kt:10-11 | with non-negative holds no rebuilt day falls before its unadjusted date |
| Regeneration.RegeneratedDatesIncrease | app/src/main/java/com/aravind/parva/utils/DateUtils.kt:10-11 | with non-negative holds the rebuilt dates strictly increase along `allDinas` |
| Regeneration.RegenerateIdempotent | app/src/main/java/com/aravind/parva/data/repository/MahaParvaRepository.kt:163-167 | regenerating twice with the same holds gives the same tree as once |
| Fixes.CorruptedIffNotShaped | app/src/main/java/com/aravind/parva/data/repository/MahaParvaFixes.kt:25-33 | for seven Parvas of seven weeks the check reports corruption exactly when some week does not hold seven days |
| Fixes.NoWeeksNotCorrupted | app/src/main/java/com/aravind/parva/data/repository/MahaParvaFixes.kt:27-28 | no Parvas, or Parvas without weeks, are never reported |
| Fixes.CreatedDatesUndetected | app/src/main/java/com/aravind/parva/data/repository/MahaParvaFixes.kt:26-32 | a created tree passes the check although its day 5 is dated after its week: counts only, no dates |
| Fixes.ForceRegenerateRepairs | app/src/main/java/com/aravind/parva/data/repository/MahaParvaFixes.kt:10-19 | the repair uses the record's own holds, passes the check, dates day `i + 1` by the adjusted date of `startDate + i`, and keeps every day's content when the tree was shaped |
| Fixes.ForceRegenerateCreated | app/src/main/java/com/aravind/parva/data/repository/MahaParvaFixes.kt:15-19 | repairing a created tree dates day `i + 1` at `startDate + i`, with no content |
| Fixes.ForceRegenerateIdempotent | app/src/main/java/com/aravind/parva/data/repository/MahaParvaFixes.kt:15-19 | repairing twice is the same as repairing once |
| Kotlin.Rem | app/src/main/java/com/aravind/parva/data/model/MandalaStyle.kt:35 | Kotlin's truncating `%`: the result lies strictly between `-b` and `b`, takes the sign of the dividend, and differs from the dividend by a multiple of `b`, which fixes it; it is the Euclidean `%` for a non-negative dividend |
| Kotlin.RemZeroIff | app/src/main/java/com/aravind/parva/data/model/MandalaStyle.kt:35-36 | the truncating remainder is 0 exactly when the Euclidean one is, so the lookups fail exactly on a non-zero negative remainder |
| Kotlin.Dec | app/src/main/java/com/aravind/parva/data/model/MandalaStyle.kt:35 | `Int` subtraction of 1: the 32-bit value congruent to `a - 1` modulo 2^32, equal to `a - 1` above `Int.MIN_VALUE` |
| Kotlin.CoerceIn | app/src/main/java/com/aravind/parva/data/model/MahaParva.kt:46-47 | the result lies in `[lo, hi]`, is `x` when `x` does, and the nearer bound otherwise |
| Kotlin.FirstIndex | app/src/main/java/com/aravind/parva/data/model/Parva.kt:67 | the first index satisfying the predicate, or none exactly when no element does |
| Kotlin.Find | app/src/main/java/com/aravind/parva/data/model/Parva.kt:67 | none exactly when no element matches; otherwise the element at the first matching index |
| Kotlin.FindAt | app/src/main/java/com/aravind/parva/data/model/Parva.kt:67 | if element `i` is the first match, `find` returns it |
| Kotlin.MapRange | app/src/main/java/com/aravind/parva/data/model/Parva.kt:79-90 | `(lo..hi).map` succeeds exactly when every element does, element `k` coming from `lo + k`; otherwise the exception of a failing element |
| Kotlin.MapAll | app/src/main/java/com/aravind/parva/data/repository/MahaParvaRepository.kt:92-108 | `map` with a throwing body succeeds exactly when every element does, element `i` of the result coming from element `i`; otherwise the exception of a failing element |
| Kotlin.MapIndexed | app/src/main/java/com/aravind/parva/data/repository/MahaParvaRepository.kt:123-129 | `mapIndexed` with a throwing body succeeds exactly when every `(i, x)` does, element `i` of the result coming from `(i, xs[i])`; otherwise the exception of a failing index |
| Kotlin.FlattenUniformAt | app/src/main/java/com/aravind/parva/data/model/Parva.kt:28-29 | `flatMap` over lists of equal length `w` puts element `k` of list `i` at `w i + k` |
| Kotlin.FlattenMap | app/src/main/java/com/aravind/parva/data/model/MahaParva.kt:74-75 | a pointwise edit of the inner lists is the same pointwise edit of the flattened list |
| Kotlin.Join | app/src/main/java/com/aravind/parva/data/model/MahaParva.kt:94-96 | `joinToString(sep)`: empty for no items, the item itself for one; otherwise it starts with the first item and the separator |
| Kotlin.JoinCons | app/src/main/java/com/aravind/parva/data/model/MahaParva.kt:94-96 | an item put in front of a non-empty list is followed by the separator and the join of the rest |
| Kotlin.JoinAppend | app/src/main/java/com/aravind/parva/data/model/MahaParva.kt:94-96 | joining two non-empty lists is joining each and putting one separator between them, so `sep` stands between every pair of neighbours |
| Kotlin.JoinSnoc | app/src/main/java/com/aravind/parva/data/model/MahaParva.kt:94-96 | appending an item appends the separator and that item, so the text ends with the last item |
| Kotlin.NatToStringRoundTrip | app/src/main/java/com/aravind/parva/data/model/MahaParva.kt:95 | the decimal text of a day number reads back as that number |

## Left out

- User interface, navigation, colours and display names: not calendar logic. `customColor`, `color`, `mandalaStyle`, the custom start and end colours and the dialogs are not modelled.
- Persistence: the Room database, DAO and Gson converters are replaced by `Repository.Store`, a map from id to record. `getMahaParvaByIdOnce` is a map lookup and `saveMahaParva` is `Repository.Save`; the suspend and coroutine plumbing is left out.
- Repository.EditDina, Repository.EditParvaGoal, Repository.EditSaptahaGoal: a failing `copy` is `Err(IllegalArgument)`, without the `require` message and without saying which node failed first; the JSON import that can put such records in the store is not modelled, so `Repository.Store` admits any record.
- Floating point: `progress` is a `real` ratio of counts, not a 32-bit `Float`, so rounding is not modelled.
- MandalaStyles.ForMahaParvaPeriodic, Wisdom.QuotePeriodic: the numbers are `Int32` values, so both lemmas require `n + 5` (or `d + size`) to stay in range; the wrap-around of that sum is not modelled.
- DateUtils.CalculateAdjustedDate: does not model overflow of the 32-bit `Int` `sumOf`, nor the `toLong` day arithmetic and `LocalDate`'s year range, because day counts in the app are small and dates are unbounded integers here.
- Dates: `LocalDate` calendar structure (months, leap years) is abstracted to epoch days; only day differences matter to the core.
- Regeneration.RegenerateWithHolds: its body is derived from the doc comments of `updateHoldPeriods` and `forceRegenerateDates`, not from code, and it matches old and new days by position; `Regeneration.RegenerateIdempotent` and its other lemmas are about that derived definition.
- Clock and identifiers: `LocalDate.now()` is the `today` parameter, and `UUID.randomUUID()` and the creation time are `Create` parameters.
- MahaParvas.GetJournal: the date part of each entry is `dateText(date)`, a parameter standing for `LocalDate.toString`, because dates are epoch days here and their calendar rendering is not modelled; the day number is rendered by `Kotlin.IntToString`.
- Wisdom quotes: the `WisdomQuotes` list is not part of this model; `Wisdom.GetQuoteForDay` takes the list as a parameter.
- Fields consumers use but the model classes do not declare: `holdPeriods` on `MahaParva` and `customGoal` on `Saptaha` are added because the repository writes them (MahaParvaRepository.kt:149, 175); `totalHoldDays`, `isOnHold`, `mandalaStyle` and the colours are not added.
- Hold lengths: the hold dialog admits only lengths above zero; the model keeps holds of any length and uses `DateUtils.NonNegativeHolds` as the hypothesis of the lemmas that need it.
- Theme texts and `goalPrompts`: labels and prompt strings are display data, so the enums carry only their order.
- Fixes.HasCorruptedDates: checks counts only, as the source does; `Fixes.CreatedDatesUndetected` records that it misses the doubled dates of a created tree.

## Findings

| source | as written | input that shows it | evidently intended | confidence | as-written member | corrected member |
|---|---|---|---|---|---|---|
| app/src/main/java/com/aravind/parva/data/model/Saptaha.kt:56 | `Saptaha.create` passes `startDate + k` to `Dina.create`, which adds `dayNumber - 1` again (Dina.kt:57), so day `d` is dated `startDate + 2 (d - 1)` | day 5 of any newly created Maha-Parva is dated `startDate + 8`, after its week ends at `startDate + 6`; day 173 onwards is dated after the Maha-Parva's `endDate` | day `d` dated `startDate + (d - 1)`, the "Nth calendar day" of DateUtils.kt:10, inside its week, its Parva and the Maha-Parva | not executed | `MahaParvas.CreatedDayFiveOutsideWeek` | `Regeneration.RegeneratedDateInsideWindow` |

The builders keep the code as written, since the rest of the app stores what
they return. `MahaParvas.CreatedDateOutsideWindow` makes the discrepancy
exact: a created day lies inside its own week only for days 1 to 4. The
corrected dating is the one the app applies on regeneration,
`Regeneration.RegenerateWithHolds`. With no holds it dates day `d` at
`startDate + d - 1`, and `Regeneration.RegeneratedDateInsideWindow` proves
that every day then lies inside its week, its Parva and the Maha-Parva.
`Fixes.ForceRegenerateCreated` proves that the repair gives a created tree
exactly those dates.
