# Habit ledger, modelled in Dafny

Habit is a habit tracker. Its core is a single mutable store
(`src/store/habitsStore.js`). The store holds:

- the list of habits, each with a per-date completion `history` and a stored `streak`;
- the account's `xp` and `level`;
- the XP history ledger `xpHistory`, with one entry per (date, habit) holding that habit's net XP for the day;
- the queue `xpGains` of transient gain events.

It has four commands:

- `init` loads the persisted tables, or seeds a demo habit.
- `addHabit` appends a habit.
- `toggleHabit` flips one date of every habit with the given id, recomputes the streak and calls `gainXP` with the habit's tick value or its negation.
- `gainXP` adds the delta to `xp`, clamps it at zero and trades every 100 XP for a level. It also merges the raw delta into the ledger, queues a gain event, and writes the `meta` row.

Each calendar page shows a *displayed* streak per habit, with a flame colour:

- The weekly and monthly pages walk the period's dates backward. They count completed days, skip missed days still to come, and stop at the first missed day in the past.
- The weekly page also sums the week's XP from the ledger.

The model has eight modules:

- `Habits`: habit records, `Toggled` (one habit's toggle), `ToggleAll` (the list's `map`), the XP delta, and `XpCalls` (the `gainXP` calls a toggle makes).
- `XpHistory`: the ledger and `MergeEntry`, the find / map / append merge of `gainXP`.
- `Gains`: gain events and their removal by id.
- `Progress`: the clamp and level-up loop, as the method `FoldXp` and its closed form `Settle`.
- `HabitsStore`: the class `Store`, whose fields mirror the store's state, and whose methods `Init`, `AddHabit`, `GainXp`, `ExpireGain` and `ToggleHabit` are the commands. Two ghost fields record the persisted tables:
  - `habitWrites` lists the rows put to the `habits` table, in order;
  - `savedMeta` is the `meta` row under key `"stats"`.

  The pure functions `AfterGain`, `ApplyGains` and `AfterToggle` say what a command does to the account. `RunToggle` replays the `map` callback of `toggleHabit` habit by habit. That callback calls the mutating `gainXP` before the list is committed.
- `Calendar`: the backward streak loop shared by both pages (`BackwardStreak`), its specification `TrailingStreak`, and the tiered flame choice `FlameFor`.
- `Weekly` and `Monthly`: the page-specific loops, the thresholds (7/4/2 and 20/10/5), and the weekly XP sum.

Inputs that come from outside the code are parameters:

- The clock (`new Date()`) is given as `today` / `now`.
- `crypto.randomUUID()` is given as `demoId`, `gainId`, or `freshId(k)` for the k-th gain event of one toggle.
- `isPast` is a function `Date -> bool`.

The week's and month's date keys are given sequences, oldest first.

Three points where the code's behaviour is what the model follows:

- `init` has no guard against running twice. The only guard is in `App.jsx:24`, outside the store, so no idempotence is claimed for `Store.Init`.
- Toggling a date twice on one day nets the habit's ledger entry to zero (`ToggleTwiceSameDay`). It does not in general restore `(xp, level)`: XP clamps at zero and levels never go back (`Progress.UndoAcrossLevelUp`).
- `addHabit` itself does not check ids; whether the `habits` table rejects a duplicate key depends on its schema, which is not part of this model. Should two habits share an id, a toggle reaches each of them and makes one `gainXP` call per such habit (`XpCalls`, `XpCallsCount`, `ApplyGains`); with unique ids it is exactly one call.

## Model

| member | source | states |
|---|---|---|
| Habits.CountAfterSet | src/store/habitsStore.js:59-60 | writing a flag moves `CompletedCount`, the number of true flags (`CompletedDays`), by the old and new flag values |
| Habits.Toggled | src/store/habitsStore.js:57-60 | the date's truthiness flips, the streak equals the number of true flags, and no other field changes |
| Habits.ToggleKeepsOtherDates | src/store/habitsStore.js:59 | the date gets an explicit flag; every other date keeps its presence and its flag |
| Habits.ToggleStreakStep | src/store/habitsStore.js:58-60 | with a consistent streak, a toggle moves it by exactly -1 (was done) or +1 |
| Habits.ToggleTwice | src/store/habitsStore.js:57-60 | two toggles of a date restore its truthiness, the other dates, and the count-based streak |
| Habits.DeltaFlips | src/store/habitsStore.js:58-70 | the second toggle's XP delta (`XpDelta`: `TickXp`, i.e. `xpPerTick` or 10, when the date was not done, its negation when it was) is the negation of the first |
| Habits.ToggleAllAt | src/store/habitsStore.js:55-75 | `ToggleAll`, the `map`: same length, and each position holds the toggled habit when its id matches, and the untouched habit otherwise |
| Habits.ToggleAllSingleMatch | src/store/habitsStore.js:55-75 | with one matching habit, only that habit changes |
| Habits.ToggleAllTwice | src/store/habitsStore.js:55-75 | toggling the list twice restores every habit's flag, its other dates and, when streaks were consistent, its streak |
| Habits.ToggleAllNoMatch | src/store/habitsStore.js:55-76 | an id no habit carries leaves the list unchanged |
| Habits.ToggleAllKeepsStreaks | src/store/habitsStore.js:55-76 | toggling keeps every stored streak equal to its history's true count |
| Habits.XpCalls | src/store/habitsStore.js:55-70 | at most one call per habit, all for the toggled id, none when no habit matches |
| Habits.XpCallsSomeMatch | src/store/habitsStore.js:55-70 | a matching habit means at least one `gainXP` call |
| Habits.XpCallsSingleMatch | src/store/habitsStore.js:55-70 | one matching habit means exactly one call, with that habit's delta |
| Habits.XpCallsCount | src/store/habitsStore.js:55-70 | the toggle makes exactly one `gainXP` call per habit carrying the id (`MatchCount`) |
| XpHistory.Bump | src/store/habitsStore.js:100-104 | same length; entries of the pair gain the amount, the others are kept |
| XpHistory.MergeEntryShape | src/store/habitsStore.js:94-107 | `MergeEntry`, entry by entry: pairs kept, the pair's xp grows by the raw amount, other xp unchanged, and one new entry appended exactly when the pair was missing |
| XpHistory.CountForZero | src/store/habitsStore.js:94-96 | the pair is counted zero times exactly when `find` fails |
| XpHistory.MergeNeverDuplicates | src/store/habitsStore.js:94-107 | after the merge the pair has one entry if it had none, and as many as before otherwise |
| XpHistory.MergeKeepsUnique | src/store/habitsStore.js:94-107 | a ledger without duplicate pairs stays without them |
| XpHistory.MergeAddsAmount | src/store/habitsStore.js:94-107 | the pair's net XP grows by the raw amount; every other pair's net XP and entry count are unchanged |
| XpHistory.MergeThenUndo | src/store/habitsStore.js:99-107 | merging an amount and then its negation restores the pair's net XP |
| XpHistory.RepeatedGainsMerge | src/store/habitsStore.js:94-107 | repeated merges for one pair from an empty ledger leave one entry holding the sum of the amounts |
| Gains.WithoutGain | src/store/habitsStore.js:124 | exactly the events with another id remain |
| Gains.WithoutGainAppend | src/store/habitsStore.js:124 | removal by id keeps the order of the remaining events |
| Gains.ExpireAfterPush | src/store/habitsStore.js:109-126 | an event queued under a fresh id and then removed leaves the queue as it was |
| Gains.ExpireKeepsLater | src/store/habitsStore.js:118-124 | removing another id keeps a later event in place |
| Gains.ExpiriesCommute | src/store/habitsStore.js:122-126 | two removals give the same queue in either order |
| Progress.Settle | src/store/habitsStore.js:81-89 | xp lands in [0,100), the level never drops, and xp + 100 * (levels gained) is the clamped total |
| Progress.FoldXp | src/store/habitsStore.js:80-89 | the level-up loop ends with xp in [0,100), the level not lower, and the clamped total split into levels and remainder |
| Progress.NoDelevel | src/store/habitsStore.js:84 | a negative result clamps (`Clamp`) to 0 at the same level |
| Progress.UndoWithinLevel | src/store/habitsStore.js:81-89 | an award that stays inside the level is undone exactly by its negation |
| Progress.UndoAcrossLevelUp | src/store/habitsStore.js:81-89 | 95 + 10 gives (5, level 2); then -10 gives (0, level 2): the level is kept |
| HabitsStore.DemoHabit | src/store/habitsStore.js:30-37 | the seeded habit's streak agrees with its empty history |
| HabitsStore.AfterGain | src/store/habitsStore.js:79-134 | xp in [0,100); level not lower; the clamped sum identity; the ledger merged; exactly one event with the raw amount appended |
| HabitsStore.ApplyGains | src/store/habitsStore.js:55-70 | a sequence of calls never lowers the level, leaves xp in range once a call is made, and queues one event per call |
| HabitsStore.ApplyGainsKeepsValid | src/store/habitsStore.js:79-119 | any sequence of gains keeps xp within the level, the level at least 1, and the ledger free of duplicate pairs |
| HabitsStore.ToggledRowsWellFormed | src/store/habitsStore.js:61 | every row a toggle puts carries the id and a streak equal to its true count |
| HabitsStore.ToggleUnknownId | src/store/habitsStore.js:55-76 | an id no habit carries changes no habit, makes no call and leaves the account alone |
| HabitsStore.ToggleTwiceCalls | src/store/habitsStore.js:58-70 | with one matching habit, two toggles make the calls `+delta` then `-delta` |
| HabitsStore.AfterToggleBounds | src/store/habitsStore.js:55-89 | a toggle never lowers the level, leaves xp in [0,100) when it reaches a habit, and changes nothing when it reaches none |
| HabitsStore.ToggleTwiceSameDay | src/store/habitsStore.js:58-70 | toggling one habit's date twice on the same day nets its ledger entry for that day back to where it was |
| HabitsStore.ApplyGainsHistory | src/store/habitsStore.js:94-107 | gains for one habit on one day merge into the ledger as their raw amounts, in order |
| HabitsStore.ApplyGainsCredits | src/store/habitsStore.js:81-89 | non-negative gains are credited in full: xp + 100 * (levels gained) grows by their sum |
| HabitsStore.RepeatedGainsOneDay | src/store/habitsStore.js:79-119 | n equal non-negative gains from a fresh account bank n times the amount, leave one ledger entry with the total, and queue n events |
| HabitsStore.SevenGainsOneDay | src/store/habitsStore.js:84-89 | seven +30 gains from xp 0 on level 1 end on level 3 with 10 XP, and the ledger holds exactly one entry for the day, of 210 |
| HabitsStore.UndoClampsAtZero | src/store/habitsStore.js:84-89 | -10 at 5 XP on level 2 ends at 0 XP on level 2 and queues an event of -10 |
| HabitsStore.RunToggleLists | src/store/habitsStore.js:55-76 | the callback over the whole list (`RunToggle`) yields `ToggleAll`'s list, puts the toggled rows (`ToggledRows`) in order, and makes as many calls as `XpCalls` lists, one per matching habit by `XpCallsCount` |
| HabitsStore.RunToggleAccount | src/store/habitsStore.js:55-76 | the callback over the whole list folds the XpCalls into the account (`AfterToggle`), and the last `meta` row written is the final account's |
| HabitsStore.FirstTick | src/store/habitsStore.js:55-119 | the first tick of a 25-XP habit marks the date done, sets its streak to 1, and moves a fresh account to 25 XP with one ledger entry and one event of 25 |
| HabitsStore.Store.constructor | src/store/habitsStore.js:5-10 | empty habits, not initialized, xp 0, level 1, empty ledger and queue |
| HabitsStore.Store.Init | src/store/habitsStore.js:12-47 | with stored habits: adopts them and the meta row's xp, level and ledger (`LoadMeta` defaults a missing row to `{0, 1, []}`, `LoadedHistory` a missing ledger to `[]`); otherwise: exactly the "Drink water" habit written and held, xp 0, level 1; `initialized` either way |
| HabitsStore.Store.AddHabit | src/store/habitsStore.js:49-52 | the habit is written and appended at the end; nothing else changes |
| HabitsStore.Store.GainXp | src/store/habitsStore.js:79-135 | the new account is AfterGain of the old one, the `meta` row is `MetaOf` the new account (its xp, level and ledger), and the store invariant is kept |
| HabitsStore.Store.ExpireGain | src/store/habitsStore.js:122-126 | only the events with that id leave the queue; nothing else changes |
| HabitsStore.Store.ToggleEntry | src/store/habitsStore.js:56-74 | a matching habit is toggled and written, and its delta passed to GainXp; any other habit comes back unchanged and nothing changes |
| HabitsStore.Store.MapToggle | src/store/habitsStore.js:55-75 | the loop over the list leaves the state RunToggle describes |
| HabitsStore.Store.ToggleHabit | src/store/habitsStore.js:54-77 | habits become ToggleAll of the old list; the account becomes AfterToggle; the toggled rows are written; the `meta` row is the final account's when a call was made; the store invariant is kept |
| Calendar.CountDone | src/pages/Weekly.jsx:70-77 | the number of completed dates never exceeds the number of dates |
| Calendar.CountDoneFull | src/pages/Monthly.jsx:40-47 | the count equals the length exactly when every date is completed |
| Calendar.Cut | src/pages/Weekly.jsx:70-77 | the walk's stopping point: no breaking day after it, and a breaking day just before it |
| Calendar.CutUnique | src/pages/Weekly.jsx:70-77 | the stopping point is the only position with those properties |
| Calendar.TrailingStreakSnoc | src/pages/Weekly.jsx:72-76 | one more last day: done adds 1, missed in the past gives 0, missed in the future leaves the streak alone |
| Calendar.StreakAtMostDone | src/pages/Monthly.jsx:40-47 | the streak never exceeds the completed days of the period |
| Calendar.FullStreakIff | src/pages/Weekly.jsx:70-77 | the streak is the whole length exactly when every date is completed |
| Calendar.NothingPastCountsAll | src/pages/Monthly.jsx:44-46 | with no past day, missed days never stop the walk: the streak is the completed count |
| Calendar.MissedLastDay | src/pages/Weekly.jsx:72-76 | a missed past last day gives 0 |
| Calendar.BackwardStreak | src/pages/Weekly.jsx:68-79 | the backward loop with `break` returns `TrailingStreak` (the completed days after the last missed past day), at most the completed count |
| Calendar.CountDonePrepend | src/pages/Monthly.jsx:40-47 | counting from one position earlier adds that date when it is completed |
| Calendar.FlameFor | src/pages/Weekly.jsx:131-138 | red exactly from the hot threshold, orange exactly from the warmer one below hot, amber exactly from the warm one below warmer, gray exactly below warm |
| Calendar.FlameMonotone | src/pages/Monthly.jsx:88-95 | a longer streak never shows a colder flame |
| Weekly.WeeklyStreak | src/pages/Weekly.jsx:68-79 | `getWeeklyStreak` is TrailingStreak over the week, between 0 and the week's length and at most the completed count |
| Weekly.WeeklyFlame | src/pages/Weekly.jsx:131-138 | red exactly from 7, orange exactly on 4-6, amber exactly on 2-3, gray exactly below 2 |
| Weekly.WeekRedIff | src/pages/Weekly.jsx:131-138 | over seven days the flame is red exactly when the whole week is completed |
| Weekly.OneDayIsGray | src/pages/Weekly.jsx:131-138 | a streak of at most 1 shows gray |
| Weekly.FirstXpOn | src/pages/Weekly.jsx:54-55 | 0 when no entry has the date |
| Weekly.FirstXpOnFirst | src/pages/Weekly.jsx:54-55 | `FirstXpOn` is the xp of the first entry with the date, whatever its habit, when there is one |
| Weekly.DayTotalXp | src/pages/Weekly.jsx:52-57 | 0 when no entry has the date |
| Weekly.WeeklyTotalSnoc | src/pages/Weekly.jsx:52-57 | one more ledger entry adds its xp once when its date is in the week |
| Weekly.WeeklyXpTotalCountsEveryEntry | src/pages/Weekly.jsx:52-57 | over distinct dates, the corrected weekly sum is the xp of every ledger entry dated in the week |
| Weekly.FirstIsTotalWhenAlone | src/pages/Weekly.jsx:54-55 | with at most one entry on a date, the first entry is the day's total |
| Weekly.WeeklyXpAgreesWhenAlone | src/pages/Weekly.jsx:52-57 | `weeklyXP` as written (`WeeklyXp`) equals the corrected sum (`WeeklyXpTotal`) while no date holds two entries |
| Weekly.WeeklyXpMissesOtherHabits | src/pages/Weekly.jsx:52-57 | entries of 10 and 25 on one date: `weeklyXP` as written gives 10, the day's XP is 35 |
| Monthly.MonthlyStreak | src/pages/Monthly.jsx:37-49 | `getMonthlyStreak` is TrailingStreak over the month, between 0 and the month's length and at most the completed count |
| Monthly.MonthlyFlame | src/pages/Monthly.jsx:88-95 | red exactly from 20, orange exactly on 10-19, amber exactly on 5-9, gray exactly below 5 |
| Monthly.MonthlyFlameNeedsCompletions | src/pages/Monthly.jsx:40-47 | a red flame needs at least 20 completed days in the month, any colour but gray at least 5 |
| Monthly.MonthAheadCountsAll | src/pages/Monthly.jsx:44-46 | while the whole month lies ahead, the flame is that of the month's completed count |

## Left out

- Dexie persistence is not modelled as I/O. The rows `db.habits.add/put` and `db.table("meta").put` write are recorded in the ghost fields `habitWrites` and `savedMeta`, in call order. Not modelled: the asynchronous completion of the writes, their failure, and `add` rejecting an existing key.
- The reads of `init` (`db.habits.toArray()` and `meta.get("stats")`) are the method's parameters `stored` and `storedMeta`. A read that fails throws before any `set`, leaving the store untouched and `initialized` false; that path is not modelled.
- The 2-second `setTimeout` that removes a gain event is timer-driven. Its effect is the explicit method `Store.ExpireGain`.
- `crypto.randomUUID()`, `new Date().toISOString()` and the `today` date key are parameters. The model does not prove that ids are unique.
- `isPast` and the date-fns calendar arithmetic of the pages (`startOfWeek`, `eachDayOfInterval`, `format`) are not modelled. `isPast` is a function parameter, and the period's date keys are a given sequence.
- JavaScript's `undefined` fields are `Option` (`category`, `frequency`, `xpPerTick`, `meta.xpHistory`) or the empty map (`history`). The truthiness of a non-boolean history value is not modelled, because history values are booleans.
- `XpDelta` and the `gainXP` amount are unbounded integers. JavaScript numbers are doubles, and the model does not cover precision loss beyond 2^53.
- HabitsStore.Store.Init: makes no idempotence claim, because the store has no guard. The `initialized` guard of `App.jsx:24` and the demo seeding effect in `App.jsx` are not part of this model.
- HabitsStore.ToggleTwiceSameDay: proved for a list with exactly one habit carrying the id. With duplicate ids, the same netting follows call by call, but it is not proved.
- The pages' JSX, `Stats.jsx`, `Daily.jsx`, `StatsBar.jsx`, `AddHabitForm.jsx`, `Modal.jsx`, `Tabs.jsx` and `Navbar.jsx` are display code, floating-point percentages and animation timers. They are not part of this model.

## Findings

| source | as written | input that shows it | evidently intended | confidence | as-written member | corrected member |
|---|---|---|---|---|---|---|
| src/pages/Weekly.jsx:52-57 | `weeklyXP` adds, per date, only the xp of the first ledger entry with that date, whatever its habit | two habits each earning XP on one day of the week, ledger `[(d, a, 10), (d, b, 25)]`: the page shows 10 | the week's total XP from the ledger, 35 here, which counts the per-habit entries `gainXP` keys by (date, habit) | medium, not executed | Weekly.WeeklyXpMissesOtherHabits | Weekly.WeeklyXpTotalCountsEveryEntry |
