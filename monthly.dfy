/** The monthly view: each habit's backward streak over the month's dates
    with its flame. */
module Monthly {
  import opened Habits
  import opened Calendar

  /** `getMonthlyStreak(habit)` over the month's dates, oldest first. */
  method MonthlyStreak(monthDates: seq<Date>, habit: Habit, isPast: Date -> bool) returns (streak: nat)
    ensures streak == TrailingStreak(monthDates, habit.history, isPast)
    ensures streak <= CountDone(monthDates, habit.history)
    ensures streak <= |monthDates|
  {
    streak := BackwardStreak(monthDates, habit.history, isPast);
  }

  /** The monthly flame: red from 20, orange from 10, amber from 5. */
  function MonthlyFlame(streak: int): (f: Flame)
    ensures f == Red <==> streak >= 20
    ensures f == Orange <==> 10 <= streak < 20
    ensures f == Amber <==> 5 <= streak < 10
    ensures f == Gray <==> streak < 5
  {
    FlameFor(streak, 5, 10, 20)
  }

  /** A red monthly flame needs at least 20 completed days in the month, and
      any other colour than gray at least 5. */
  lemma MonthlyFlameNeedsCompletions(monthDates: seq<Date>, history: map<Date, bool>, isPast: Date -> bool)
    ensures MonthlyFlame(TrailingStreak(monthDates, history, isPast)) == Red
            ==> CountDone(monthDates, history) >= 20
    ensures MonthlyFlame(TrailingStreak(monthDates, history, isPast)) != Gray
            ==> CountDone(monthDates, history) >= 5
  {
    StreakAtMostDone(monthDates, history, isPast);
  }

  /** While the whole month lies ahead, every completed day feeds the flame. */
  lemma MonthAheadCountsAll(monthDates: seq<Date>, history: map<Date, bool>, isPast: Date -> bool)
    requires forall j :: 0 <= j < |monthDates| ==> !isPast(monthDates[j])
    ensures MonthlyFlame(TrailingStreak(monthDates, history, isPast)) == MonthlyFlame(CountDone(monthDates, history))
  {
    NothingPastCountsAll(monthDates, history, isPast);
  }
}
