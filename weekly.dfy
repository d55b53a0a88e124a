/** The weekly view: each habit's backward streak over the week's dates with
    its flame, and the week's XP total read from the XP history ledger. */
module Weekly {
  import opened Habits
  import opened XpHistory
  import opened Calendar

  /** `getWeeklyStreak(habit)` over the week's dates, oldest first. */
  method WeeklyStreak(weekDates: seq<Date>, habit: Habit, isPast: Date -> bool) returns (streak: nat)
    ensures streak == TrailingStreak(weekDates, habit.history, isPast)
    ensures streak <= CountDone(weekDates, habit.history)
    ensures streak <= |weekDates|
  {
    streak := BackwardStreak(weekDates, habit.history, isPast);
  }

  /** The weekly flame: red from 7, orange from 4, amber from 2. */
  function WeeklyFlame(streak: int): (f: Flame)
    ensures f == Red <==> streak >= 7
    ensures f == Orange <==> 4 <= streak < 7
    ensures f == Amber <==> 2 <= streak < 4
    ensures f == Gray <==> streak < 2
  {
    FlameFor(streak, 2, 4, 7)
  }

  /** Over a seven-day week the flame is red exactly when every day of the
      week is completed. */
  lemma WeekRedIff(weekDates: seq<Date>, history: map<Date, bool>, isPast: Date -> bool)
    requires |weekDates| == 7
    ensures WeeklyFlame(TrailingStreak(weekDates, history, isPast)) == Red <==> AllDone(weekDates, history)
  {
    StreakAtMostDone(weekDates, history, isPast);
    FullStreakIff(weekDates, history, isPast);
  }

  /** A single completed day never lights the weekly flame. */
  lemma OneDayIsGray(streak: int)
    requires streak <= 1
    ensures WeeklyFlame(streak) == Gray
  {
  }

  /** `xpHistory.find((x) => x.date === date)?.xp || 0`: the xp of the first
      entry on `date`, whatever its habit, or 0. */
  function FirstXpOn(h: seq<XpEntry>, date: Date): (r: int)
    ensures (forall i :: 0 <= i < |h| ==> h[i].date != date) ==> r == 0
    decreases |h|
  {
    if h == [] then 0
    else if h[0].date == date then h[0].xp
    else FirstXpOn(h[1..], date)
  }

  /** When the first entry on `date` sits at position `i`, `find` returns it. */
  lemma {:induction false} FirstXpOnFirst(h: seq<XpEntry>, date: Date, i: nat)
    requires i < |h| && h[i].date == date
    requires forall j :: 0 <= j < i ==> h[j].date != date
    ensures FirstXpOn(h, date) == h[i].xp
    decreases i
  {
    if i > 0 {
      assert h[1..][i - 1] == h[i];
      assert forall j :: 0 <= j < i - 1 ==> h[1..][j] == h[j + 1];
      FirstXpOnFirst(h[1..], date, i - 1);
    }
  }

  /** `weeklyXP` as written: per date, only the first ledger entry counts. */
  function WeeklyXp(weekDates: seq<Date>, h: seq<XpEntry>): int
    decreases |weekDates|
  {
    if weekDates == [] then 0
    else WeeklyXp(weekDates[..|weekDates| - 1], h) + FirstXpOn(h, weekDates[|weekDates| - 1])
  }

  /** The XP of every ledger entry on `date`, over all habits. */
  function DayTotalXp(h: seq<XpEntry>, date: Date): (r: int)
    ensures (forall i :: 0 <= i < |h| ==> h[i].date != date) ==> r == 0
    decreases |h|
  {
    if h == [] then 0
    else (if h[0].date == date then h[0].xp else 0) + DayTotalXp(h[1..], date)
  }

  /** The week's XP over all habits: the corrected `weeklyXP`. */
  function WeeklyXpTotal(weekDates: seq<Date>, h: seq<XpEntry>): int
    decreases |weekDates|
  {
    if weekDates == [] then 0
    else WeeklyXpTotal(weekDates[..|weekDates| - 1], h) + DayTotalXp(h, weekDates[|weekDates| - 1])
  }

  /** The XP of the entries whose date is one of `weekDates`. */
  function XpWithin(h: seq<XpEntry>, weekDates: seq<Date>): int
    decreases |h|
  {
    if h == [] then 0
    else XpWithin(h[..|h| - 1], weekDates) + (if h[|h| - 1].date in weekDates then h[|h| - 1].xp else 0)
  }

  predicate Distinct(dates: seq<Date>)
  {
    forall i, j :: 0 <= i < j < |dates| ==> dates[i] != dates[j]
  }

  lemma {:induction false} DayTotalSnoc(h: seq<XpEntry>, e: XpEntry, date: Date)
    ensures DayTotalXp(h + [e], date) == DayTotalXp(h, date) + (if e.date == date then e.xp else 0)
    decreases |h|
  {
    if h == [] {
      assert [e][1..] == [];
    } else {
      assert (h + [e])[1..] == h[1..] + [e];
      DayTotalSnoc(h[1..], e, date);
    }
  }

  /** One more ledger entry adds its xp to the week exactly once when its
      date is in the week. */
  lemma {:induction false} WeeklyTotalSnoc(weekDates: seq<Date>, h: seq<XpEntry>, e: XpEntry)
    requires Distinct(weekDates)
    ensures WeeklyXpTotal(weekDates, h + [e])
            == WeeklyXpTotal(weekDates, h) + (if e.date in weekDates then e.xp else 0)
    decreases |weekDates|
  {
    if weekDates != [] {
      var n := |weekDates| - 1;
      var ds := weekDates[..n];
      assert Distinct(ds);
      WeeklyTotalSnoc(ds, h, e);
      DayTotalSnoc(h, e, weekDates[n]);
      assert weekDates == ds + [weekDates[n]];
      assert e.date in weekDates <==> e.date in ds || e.date == weekDates[n];
      if e.date == weekDates[n] {
        assert e.date !in ds;
      }
    }
  }

  /** Over a week of distinct dates, the corrected total counts every ledger
      entry of the week, for every habit. */
  lemma {:induction false} WeeklyXpTotalCountsEveryEntry(weekDates: seq<Date>, h: seq<XpEntry>)
    requires Distinct(weekDates)
    ensures WeeklyXpTotal(weekDates, h) == XpWithin(h, weekDates)
    decreases |h|
  {
    if h == [] {
      WeeklyTotalOfNothing(weekDates);
    } else {
      var n := |h| - 1;
      WeeklyXpTotalCountsEveryEntry(weekDates, h[..n]);
      assert h == h[..n] + [h[n]];
      WeeklyTotalSnoc(weekDates, h[..n], h[n]);
    }
  }

  lemma {:induction false} WeeklyTotalOfNothing(weekDates: seq<Date>)
    ensures WeeklyXpTotal(weekDates, []) == 0
    decreases |weekDates|
  {
    if weekDates != [] {
      WeeklyTotalOfNothing(weekDates[..|weekDates| - 1]);
    }
  }

  /** At most one ledger entry on `date`. */
  predicate OneEntryOn(h: seq<XpEntry>, date: Date)
  {
    forall i, j :: 0 <= i < j < |h| && h[i].date == date ==> h[j].date != date
  }

  /** With at most one entry on the date, the first entry is the day's total. */
  lemma {:induction false} FirstIsTotalWhenAlone(h: seq<XpEntry>, date: Date)
    requires OneEntryOn(h, date)
    ensures FirstXpOn(h, date) == DayTotalXp(h, date)
    decreases |h|
  {
    if h != [] {
      assert OneEntryOn(h[1..], date);
      FirstIsTotalWhenAlone(h[1..], date);
      if h[0].date == date {
        assert forall i :: 0 <= i < |h[1..]| ==> h[1..][i].date != date by {
          forall i | 0 <= i < |h[1..]|
            ensures h[1..][i].date != date
          {
            assert h[1..][i] == h[i + 1];
          }
        }
      }
    }
  }

  /** `weeklyXP` as written agrees with the corrected total while no date of
      the week holds more than one entry, as with a single habit. */
  lemma {:induction false} WeeklyXpAgreesWhenAlone(weekDates: seq<Date>, h: seq<XpEntry>)
    requires forall i :: 0 <= i < |weekDates| ==> OneEntryOn(h, weekDates[i])
    ensures WeeklyXp(weekDates, h) == WeeklyXpTotal(weekDates, h)
    decreases |weekDates|
  {
    if weekDates != [] {
      var n := |weekDates| - 1;
      WeeklyXpAgreesWhenAlone(weekDates[..n], h);
      FirstIsTotalWhenAlone(h, weekDates[n]);
    }
  }

  /** Two habits each earning XP on the same day: `weeklyXP` as written
      reports only the first habit's 10, the day's XP is 35. */
  lemma WeeklyXpMissesOtherHabits(date: Date)
    ensures var h := [XpEntry(date, "a", 10), XpEntry(date, "b", 25)];
      WeeklyXp([date], h) == 10 && WeeklyXpTotal([date], h) == 35
  {
    var h := [XpEntry(date, "a", 10), XpEntry(date, "b", 25)];
    assert [date][..0] == [];
    assert h[1..] == [XpEntry(date, "b", 25)];
    assert h[1..][1..] == [];
    assert DayTotalXp(h[1..], date) == 25;
    assert DayTotalXp(h, date) == 35;
  }
}
