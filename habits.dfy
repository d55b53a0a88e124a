/** Habit records and the per-habit part of toggling a completion:
    flipping one date's flag, recomputing the stored streak and choosing
    the XP delta that the toggle hands to the ledger. */
module Habits {

  /** ISO calendar date key, `YYYY-MM-DD`. */
  type Date = string
  type HabitId = string

  datatype Option<T> = None | Some(value: T)

  /** A habit as the store keeps it. Optional fields of the record are
      `None` when absent; an absent `history` is the empty map. */
  datatype Habit = Habit(
    id: HabitId,
    name: string,
    category: Option<string>,
    frequency: Option<string>,
    xpPerTick: Option<int>,
    history: map<Date, bool>,
    streak: int,
    createdAt: string)

  /** XP per completion when the habit carries no (or a zero) `xpPerTick`. */
  const DefaultTickXp: int := 10

  /** The truthiness of `history[date]`; an absent key is "not completed". */
  predicate Done(history: map<Date, bool>, date: Date)
  {
    date in history && history[date]
  }

  /** The dates whose flag is true. */
  function CompletedDays(history: map<Date, bool>): (s: set<Date>)
    ensures forall d :: d in s <==> Done(history, d)
  {
    set d | d in history && history[d]
  }

  /** The number of true flags in `history`: the store's definition of `streak`. */
  function CompletedCount(history: map<Date, bool>): nat
  {
    |CompletedDays(history)|
  }

  predicate StreakConsistent(h: Habit)
  {
    h.streak == CompletedCount(h.history)
  }

  predicate AllStreaksConsistent(hs: seq<Habit>)
  {
    forall i :: 0 <= i < |hs| ==> StreakConsistent(hs[i])
  }

  /** Writing flag `b` at `date` changes the completed count by what was
      there before and what is there now. */
  lemma CountAfterSet(m: map<Date, bool>, date: Date, b: bool)
    ensures CompletedCount(m[date := b])
            == CompletedCount(m) - (if Done(m, date) then 1 else 0) + (if b then 1 else 0)
  {
    var before := CompletedDays(m);
    var after := CompletedDays(m[date := b]);
    var rest := before - {date};
    assert after == if b then rest + {date} else rest;
    assert before == if Done(m, date) then rest + {date} else rest;
  }

  /** `h.xpPerTick || 10`: a missing or zero tick value falls back to 10. */
  function TickXp(h: Habit): (r: int)
    ensures r != 0
    ensures h.xpPerTick.Some? && h.xpPerTick.value != 0 ==> r == h.xpPerTick.value
    ensures (h.xpPerTick.None? || h.xpPerTick.value == 0) ==> r == DefaultTickXp
  {
    match h.xpPerTick
    case Some(v) => if v != 0 then v else DefaultTickXp
    case None => DefaultTickXp
  }

  /** The amount toggling `date` passes to the XP ledger: the tick value when the
      date was not completed, its negation when it was. */
  function XpDelta(h: Habit, date: Date): (r: int)
  {
    if Done(h.history, date) then -TickXp(h) else TickXp(h)
  }

  /** The habit after one toggle of `date`. */
  function Toggled(h: Habit, date: Date): (r: Habit)
    ensures Done(r.history, date) == !Done(h.history, date)
    ensures StreakConsistent(r)
    ensures r == h.(history := r.history, streak := r.streak)
  {
    var history := h.history[date := !Done(h.history, date)];
    h.(history := history, streak := CompletedCount(history))
  }

  /** `after` has the same dates and flags as `before`, except maybe at `date`. */
  ghost predicate OtherDatesKept(before: map<Date, bool>, after: map<Date, bool>, date: Date)
  {
    && (forall d :: d != date ==> (d in after <==> d in before))
    && (forall d :: d != date && d in before ==> after[d] == before[d])
  }

  /** A toggle records an explicit flag for `date` and leaves every other date
      of the history as it was. */
  lemma ToggleKeepsOtherDates(h: Habit, date: Date)
    ensures date in Toggled(h, date).history
    ensures OtherDatesKept(h.history, Toggled(h, date).history, date)
  {
  }

  /** For a habit whose stored streak was consistent, a toggle moves the streak
      by exactly one: down when the date was completed, up otherwise. */
  lemma ToggleStreakStep(h: Habit, date: Date)
    requires StreakConsistent(h)
    ensures Toggled(h, date).streak == h.streak + (if Done(h.history, date) then -1 else 1)
  {
    CountAfterSet(h.history, date, !Done(h.history, date));
  }

  /** Toggling the same date twice restores its truthiness, every other date,
      and the streak recomputed from the original history. */
  lemma ToggleTwice(h: Habit, date: Date)
    ensures Done(Toggled(Toggled(h, date), date).history, date) == Done(h.history, date)
    ensures OtherDatesKept(h.history, Toggled(Toggled(h, date), date).history, date)
    ensures Toggled(Toggled(h, date), date).streak == CompletedCount(h.history)
  {
    var once := Toggled(h, date);
    var b := Done(h.history, date);
    assert once.history == h.history[date := !b];
    assert Toggled(once, date).history == h.history[date := b];
    CountAfterSet(h.history, date, b);
  }

  /** The second toggle of a date hands the ledger the negation of the first. */
  lemma DeltaFlips(h: Habit, date: Date)
    ensures XpDelta(Toggled(h, date), date) == -XpDelta(h, date)
  {
  }

  /** `habits.map(...)` in `toggleHabit`: every habit with the given id is
      toggled, every other habit is kept as it is. */
  function ToggleAll(hs: seq<Habit>, id: HabitId, date: Date): (r: seq<Habit>)
    ensures |r| == |hs|
    decreases |hs|
  {
    if hs == [] then []
    else
      var last := hs[|hs| - 1];
      ToggleAll(hs[..|hs| - 1], id, date) + [if last.id == id then Toggled(last, date) else last]
  }

  /** Position by position: the habits with the id are toggled, every other
      habit is kept as it is. */
  lemma {:induction false} ToggleAllAt(hs: seq<Habit>, id: HabitId, date: Date)
    ensures forall j :: 0 <= j < |hs| ==>
              ToggleAll(hs, id, date)[j] == if hs[j].id == id then Toggled(hs[j], date) else hs[j]
    decreases |hs|
  {
    if hs != [] {
      var n := |hs| - 1;
      ToggleAllAt(hs[..n], id, date);
    }
  }

  /** With one habit carrying the id, only that habit is toggled. */
  lemma ToggleAllSingleMatch(hs: seq<Habit>, k: nat, date: Date)
    requires k < |hs|
    requires forall j :: 0 <= j < |hs| && j != k ==> hs[j].id != hs[k].id
    ensures ToggleAll(hs, hs[k].id, date)[k] == Toggled(hs[k], date)
    ensures forall j :: 0 <= j < |hs| && j != k ==> ToggleAll(hs, hs[k].id, date)[j] == hs[j]
  {
    ToggleAllAt(hs, hs[k].id, date);
  }

  /** Toggling a date twice brings every habit of the list back to its flag
      and its recomputed streak. */
  lemma ToggleAllTwice(hs: seq<Habit>, id: HabitId, date: Date, j: nat)
    requires j < |hs|
    ensures Done(ToggleAll(ToggleAll(hs, id, date), id, date)[j].history, date) == Done(hs[j].history, date)
    ensures OtherDatesKept(hs[j].history, ToggleAll(ToggleAll(hs, id, date), id, date)[j].history, date)
    ensures AllStreaksConsistent(hs)
            ==> ToggleAll(ToggleAll(hs, id, date), id, date)[j].streak == hs[j].streak
  {
    ToggleAllAt(hs, id, date);
    ToggleAllAt(ToggleAll(hs, id, date), id, date);
    if hs[j].id == id {
      ToggleTwice(hs[j], date);
    }
  }

  /** No habit carries the id: the list comes back unchanged. */
  lemma ToggleAllNoMatch(hs: seq<Habit>, id: HabitId, date: Date)
    requires forall j :: 0 <= j < |hs| ==> hs[j].id != id
    ensures ToggleAll(hs, id, date) == hs
  {
    ToggleAllAt(hs, id, date);
  }

  /** Toggling keeps every stored streak equal to its history's completed count. */
  lemma ToggleAllKeepsStreaks(hs: seq<Habit>, id: HabitId, date: Date)
    requires AllStreaksConsistent(hs)
    ensures AllStreaksConsistent(ToggleAll(hs, id, date))
  {
    ToggleAllAt(hs, id, date);
  }

  /** One `gainXP(amount, habitId)` call. */
  datatype XpCall = XpCall(amount: int, habitId: HabitId)

  /** The `gainXP` calls `toggleHabit(id, date)` makes, in list order: one per
      habit with that id, with that habit's delta. */
  function XpCalls(hs: seq<Habit>, id: HabitId, date: Date): (r: seq<XpCall>)
    ensures |r| <= |hs|
    ensures (forall j :: 0 <= j < |hs| ==> hs[j].id != id) ==> r == []
    ensures forall c :: c in r ==> c.habitId == id
    decreases |hs|
  {
    if hs == [] then []
    else
      var last := hs[|hs| - 1];
      XpCalls(hs[..|hs| - 1], id, date)
      + (if last.id == id then [XpCall(XpDelta(last, date), id)] else [])
  }

  /** How many habits of the list carry the id. */
  function MatchCount(hs: seq<Habit>, id: HabitId): (n: nat)
    ensures n <= |hs|
    decreases |hs|
  {
    if hs == [] then 0
    else MatchCount(hs[..|hs| - 1], id) + (if hs[|hs| - 1].id == id then 1 else 0)
  }

  /** The toggle makes exactly one call per habit carrying the id. */
  lemma {:induction false} XpCallsCount(hs: seq<Habit>, id: HabitId, date: Date)
    ensures |XpCalls(hs, id, date)| == MatchCount(hs, id)
    decreases |hs|
  {
    if hs != [] {
      XpCallsCount(hs[..|hs| - 1], id, date);
    }
  }

  /** Some habit carries the id: the toggle makes at least one call. */
  lemma {:induction false} XpCallsSomeMatch(hs: seq<Habit>, id: HabitId, date: Date)
    ensures (exists j :: 0 <= j < |hs| && hs[j].id == id) ==> XpCalls(hs, id, date) != []
    decreases |hs|
  {
    if hs != [] {
      var n := |hs| - 1;
      XpCallsSomeMatch(hs[..n], id, date);
      if hs[n].id != id && exists j :: 0 <= j < |hs| && hs[j].id == id {
        var j :| 0 <= j < |hs| && hs[j].id == id;
        assert hs[..n][j].id == id;
      }
    }
  }

  /** With exactly one habit carrying the id, the toggle makes exactly one call,
      carrying that habit's delta. */
  lemma {:induction false} XpCallsSingleMatch(hs: seq<Habit>, k: nat, id: HabitId, date: Date)
    requires k < |hs| && hs[k].id == id
    requires forall j :: 0 <= j < |hs| && j != k ==> hs[j].id != id
    ensures XpCalls(hs, id, date) == [XpCall(XpDelta(hs[k], date), id)]
    decreases |hs|
  {
    var n := |hs| - 1;
    var init := hs[..n];
    if k == n {
      assert forall j :: 0 <= j < |init| ==> init[j].id != id;
    } else {
      XpCallsSingleMatch(init, k, id, date);
      assert hs[n].id != id;
    }
  }
}
