/** The backward streak shared by the weekly and monthly views: walking a
    period's dates from the last one back, completed days count, missed days
    still to come are skipped, and the first missed day in the past ends the
    walk. */
module Calendar {
  import opened Habits

  /** A day that ends the walk: not completed, and already in the past. */
  predicate Breaks(history: map<Date, bool>, isPast: Date -> bool, date: Date)
  {
    !Done(history, date) && isPast(date)
  }

  /** How many of `dates` are completed. */
  function CountDone(dates: seq<Date>, history: map<Date, bool>): (n: nat)
    ensures n <= |dates|
    decreases |dates|
  {
    if dates == [] then 0
    else CountDone(dates[..|dates| - 1], history) + (if Done(history, dates[|dates| - 1]) then 1 else 0)
  }

  /** Every date of the period is completed. */
  predicate AllDone(dates: seq<Date>, history: map<Date, bool>)
  {
    forall j :: 0 <= j < |dates| ==> Done(history, dates[j])
  }

  /** Every completed date is counted: the count is the whole length exactly
      when every date is completed. */
  lemma {:induction false} CountDoneFull(dates: seq<Date>, history: map<Date, bool>)
    ensures CountDone(dates, history) == |dates| <==> AllDone(dates, history)
    decreases |dates|
  {
    if dates != [] {
      var n := |dates| - 1;
      CountDoneFull(dates[..n], history);
      if AllDone(dates, history) {
        assert AllDone(dates[..n], history);
      }
      if CountDone(dates, history) == |dates| {
        assert Done(history, dates[n]);
        assert forall j :: 0 <= j < n ==> dates[j] == dates[..n][j];
      }
    }
  }

  lemma CountDoneSnoc(dates: seq<Date>, d: Date, history: map<Date, bool>)
    ensures CountDone(dates + [d], history) == CountDone(dates, history) + (if Done(history, d) then 1 else 0)
  {
    assert (dates + [d])[..|dates|] == dates;
  }

  /** The position just after the last breaking day, or 0 when none breaks. */
  function Cut(dates: seq<Date>, history: map<Date, bool>, isPast: Date -> bool): (c: nat)
    ensures c <= |dates|
    ensures forall j :: c <= j < |dates| ==> !Breaks(history, isPast, dates[j])
    ensures c > 0 ==> Breaks(history, isPast, dates[c - 1])
    decreases |dates|
  {
    if dates == [] then 0
    else if Breaks(history, isPast, dates[|dates| - 1]) then |dates|
    else Cut(dates[..|dates| - 1], history, isPast)
  }

  /** Cut is the only position with those three properties. */
  lemma CutUnique(dates: seq<Date>, history: map<Date, bool>, isPast: Date -> bool, c: nat)
    requires c <= |dates|
    requires forall j :: c <= j < |dates| ==> !Breaks(history, isPast, dates[j])
    requires c > 0 ==> Breaks(history, isPast, dates[c - 1])
    ensures Cut(dates, history, isPast) == c
  {
  }

  /** The streak the views show: the completed days after the last day that
      breaks the walk. */
  function TrailingStreak(dates: seq<Date>, history: map<Date, bool>, isPast: Date -> bool): nat
  {
    CountDone(dates[Cut(dates, history, isPast)..], history)
  }

  /** One day more at the end: a completed day extends the streak, a missed
      past day resets it to zero, and a missed day to come leaves it alone. */
  lemma TrailingStreakSnoc(dates: seq<Date>, d: Date, history: map<Date, bool>, isPast: Date -> bool)
    ensures TrailingStreak(dates + [d], history, isPast)
            == if Done(history, d) then TrailingStreak(dates, history, isPast) + 1
               else if isPast(d) then 0
               else TrailingStreak(dates, history, isPast)
  {
    var all := dates + [d];
    assert all[..|dates|] == dates;
    assert all[|dates|] == d;
    if !Breaks(history, isPast, d) {
      var c := Cut(dates, history, isPast);
      assert Cut(all, history, isPast) == c;
      assert all[c..] == dates[c..] + [d];
      CountDoneSnoc(dates[c..], d, history);
    } else {
      assert all[|all|..] == [];
    }
  }

  /** The streak never exceeds the number of completed days in the period. */
  lemma {:induction false} StreakAtMostDone(dates: seq<Date>, history: map<Date, bool>, isPast: Date -> bool)
    ensures TrailingStreak(dates, history, isPast) <= CountDone(dates, history)
    decreases |dates|
  {
    if dates != [] {
      var n := |dates| - 1;
      StreakAtMostDone(dates[..n], history, isPast);
      assert dates[..n] + [dates[n]] == dates;
      TrailingStreakSnoc(dates[..n], dates[n], history, isPast);
    }
  }

  /** The streak covers the whole period exactly when every day is completed. */
  lemma FullStreakIff(dates: seq<Date>, history: map<Date, bool>, isPast: Date -> bool)
    ensures TrailingStreak(dates, history, isPast) == |dates| <==> AllDone(dates, history)
  {
    StreakAtMostDone(dates, history, isPast);
    CountDoneFull(dates, history);
    if AllDone(dates, history) {
      CutUnique(dates, history, isPast, 0);
      assert dates[0..] == dates;
    }
  }

  /** While no day of the period is in the past, missed days do not break the
      walk: the streak is the number of completed days. */
  lemma NothingPastCountsAll(dates: seq<Date>, history: map<Date, bool>, isPast: Date -> bool)
    requires forall j :: 0 <= j < |dates| ==> !isPast(dates[j])
    ensures TrailingStreak(dates, history, isPast) == CountDone(dates, history)
  {
    CutUnique(dates, history, isPast, 0);
    assert dates[0..] == dates;
  }

  /** A missed past last day leaves no streak. */
  lemma MissedLastDay(dates: seq<Date>, history: map<Date, bool>, isPast: Date -> bool)
    requires dates != [] && Breaks(history, isPast, dates[|dates| - 1])
    ensures TrailingStreak(dates, history, isPast) == 0
  {
  }

  /** The loop of `getWeeklyStreak` and `getMonthlyStreak`: walk the dates
      from the last one back, count completed days, skip missed days still to
      come, stop at the first missed day in the past. */
  method BackwardStreak(dates: seq<Date>, history: map<Date, bool>, isPast: Date -> bool) returns (streak: nat)
    ensures streak == TrailingStreak(dates, history, isPast)
    ensures streak <= CountDone(dates, history)
  {
    streak := 0;
    var i := |dates| - 1;
    while i >= 0
      invariant -1 <= i < |dates|
      invariant forall j :: i < j < |dates| ==> !Breaks(history, isPast, dates[j])
      invariant streak == CountDone(dates[i + 1..], history)
      decreases i
    {
      var date := dates[i];
      if Done(history, date) {
        streak := streak + 1;
      } else if isPast(date) {
        break;
      }
      CountDonePrepend(dates, i, history);
      i := i - 1;
    }
    CutUnique(dates, history, isPast, i + 1);
    StreakAtMostDone(dates, history, isPast);
  }

  /** Counting from one position earlier adds that date when it is completed. */
  lemma {:induction false} CountDonePrepend(dates: seq<Date>, i: nat, history: map<Date, bool>)
    requires i < |dates|
    ensures CountDone(dates[i..], history)
            == CountDone(dates[i + 1..], history) + (if Done(history, dates[i]) then 1 else 0)
    decreases |dates| - i
  {
    if i + 1 == |dates| {
      assert dates[i..] == [] + [dates[i]];
      assert dates[i + 1..] == [];
      CountDoneSnoc([], dates[i], history);
    } else {
      var n := |dates| - 1;
      CountDonePrepend(dates[..n], i, history);
      assert dates[i..] == dates[..n][i..] + [dates[n]];
      assert dates[i + 1..] == dates[..n][i + 1..] + [dates[n]];
      CountDoneSnoc(dates[..n][i..], dates[n], history);
      CountDoneSnoc(dates[..n][i + 1..], dates[n], history);
    }
  }

  /** The flame shown next to a streak, from cold to hot. */
  datatype Flame = Gray | Amber | Orange | Red

  function Heat(f: Flame): nat
  {
    match f
    case Gray => 0
    case Amber => 1
    case Orange => 2
    case Red => 3
  }

  /** The tiered colour choice of both views, given its three thresholds. */
  function FlameFor(streak: int, warm: int, warmer: int, hot: int): (f: Flame)
    requires warm <= warmer <= hot
    ensures f == Red <==> streak >= hot
    ensures f == Orange <==> warmer <= streak < hot
    ensures f == Amber <==> warm <= streak < warmer
    ensures f == Gray <==> streak < warm
  {
    if streak >= hot then Red
    else if streak >= warmer then Orange
    else if streak >= warm then Amber
    else Gray
  }

  /** A longer streak never shows a colder flame. */
  lemma FlameMonotone(s1: int, s2: int, warm: int, warmer: int, hot: int)
    requires warm <= warmer <= hot
    requires s1 <= s2
    ensures Heat(FlameFor(s1, warm, warmer, hot)) <= Heat(FlameFor(s2, warm, warmer, hot))
  {
  }
}
