/** The habit ledger store: the list of habits, the account's (xp, level),
    the XP history ledger and the queue of gain events, with the commands
    that change them and write-behind copies of the persisted tables. */
module HabitsStore {
  import opened Habits
  import opened XpHistory
  import opened Gains
  import opened Progress

  /** The persisted progress record; its `xpHistory` may be missing. */
  datatype Meta = Meta(xp: int, level: int, xpHistory: Option<seq<XpEntry>>)

  /** What `init` uses when the `meta` row is missing. */
  const DefaultMeta: Meta := Meta(0, 1, Some([]))

  function LoadMeta(stored: Option<Meta>): Meta
  {
    match stored
    case Some(m) => m
    case None => DefaultMeta
  }

  /** `meta.xpHistory || []`. */
  function LoadedHistory(m: Meta): seq<XpEntry>
  {
    match m.xpHistory
    case Some(h) => h
    case None => []
  }

  /** The habit `init` seeds into an empty store. */
  function DemoHabit(id: HabitId, createdAt: string): (h: Habit)
    ensures StreakConsistent(h)
  {
    Habit(id, "Drink water", None, Some("daily"), None, map[], 0, createdAt)
  }

  /** The XP side of the store state. */
  datatype Account = Account(xp: int, level: int, xpHistory: seq<XpEntry>, xpGains: seq<GainEvent>)

  /** The row `gainXP` writes under key "stats". */
  function MetaOf(a: Account): Meta
  {
    Meta(a.xp, a.level, Some(a.xpHistory))
  }

  /** The account after one `gainXP(call.amount, call.habitId)` on `today`,
      whose gain event gets id `gainId`. */
  function AfterGain(a: Account, call: XpCall, today: Date, gainId: GainId): (r: Account)
    ensures 0 <= r.xp < XpPerLevel && r.level >= a.level
    ensures r.xp + XpPerLevel * (r.level - a.level) == Clamp(a.xp + call.amount)
    ensures |r.xpGains| == |a.xpGains| + 1
    ensures r.xpGains[..|a.xpGains|] == a.xpGains
    ensures r.xpGains[|a.xpGains|] == GainEvent(gainId, call.amount)
    ensures r.xpHistory == MergeEntry(a.xpHistory, today, call.habitId, call.amount)
  {
    var s := Settle(a.xp + call.amount, a.level);
    Account(s.0, s.1, MergeEntry(a.xpHistory, today, call.habitId, call.amount),
            a.xpGains + [GainEvent(gainId, call.amount)])
  }

  /** The account after a sequence of `gainXP` calls; the k-th call's event
      gets id `freshId(k)`. */
  function ApplyGains(a: Account, calls: seq<XpCall>, today: Date, freshId: nat -> GainId): (r: Account)
    ensures r.level >= a.level
    ensures calls != [] ==> 0 <= r.xp < XpPerLevel
    ensures |r.xpGains| == |a.xpGains| + |calls|
    decreases |calls|
  {
    if calls == [] then a
    else
      var n := |calls| - 1;
      AfterGain(ApplyGains(a, calls[..n], today, freshId), calls[n], today, freshId(n))
  }

  lemma ApplyGainsSingle(a: Account, c: XpCall, today: Date, freshId: nat -> GainId)
    ensures ApplyGains(a, [c], today, freshId) == AfterGain(a, c, today, freshId(0))
  {
    assert [c][..0] == [];
  }

  lemma ApplyGainsSnoc(a: Account, calls: seq<XpCall>, c: XpCall, today: Date, freshId: nat -> GainId)
    ensures ApplyGains(a, calls + [c], today, freshId)
            == AfterGain(ApplyGains(a, calls, today, freshId), c, today, freshId(|calls|))
  {
    assert (calls + [c])[..|calls|] == calls;
  }

  ghost predicate AccountValid(a: Account)
  {
    0 <= a.xp < XpPerLevel && a.level >= 1 && UniquePairs(a.xpHistory)
  }

  /** The store's invariant: stored streaks agree with the histories, xp lies
      within the level, levels start at 1, and the ledger has no duplicate pair. */
  ghost predicate LedgerValid(habits: seq<Habit>, a: Account)
  {
    AllStreaksConsistent(habits) && AccountValid(a)
  }

  ghost predicate MetaValid(m: Meta)
  {
    0 <= m.xp < XpPerLevel && m.level >= 1 && UniquePairs(LoadedHistory(m))
  }

  lemma AfterGainKeepsValid(a: Account, call: XpCall, today: Date, gainId: GainId)
    requires AccountValid(a)
    ensures AccountValid(AfterGain(a, call, today, gainId))
  {
    MergeKeepsUnique(a.xpHistory, today, call.habitId, call.amount);
  }

  /** Any sequence of gains keeps the account valid. */
  lemma {:induction false} ApplyGainsKeepsValid(a: Account, calls: seq<XpCall>, today: Date, freshId: nat -> GainId)
    requires AccountValid(a)
    ensures AccountValid(ApplyGains(a, calls, today, freshId))
    decreases |calls|
  {
    if calls != [] {
      var n := |calls| - 1;
      ApplyGainsKeepsValid(a, calls[..n], today, freshId);
      AfterGainKeepsValid(ApplyGains(a, calls[..n], today, freshId), calls[n], today, freshId(n));
    }
  }

  /** The rows `toggleHabit` puts to the `habits` table, in order: one
      toggled copy per habit with the id. */
  function ToggledRows(hs: seq<Habit>, id: HabitId, date: Date): (r: seq<Habit>)
    ensures |r| == |XpCalls(hs, id, date)|
    decreases |hs|
  {
    if hs == [] then []
    else
      var n := |hs| - 1;
      ToggledRows(hs[..n], id, date) + (if hs[n].id == id then [Toggled(hs[n], date)] else [])
  }

  /** Every row carries the id and a streak that agrees with its history. */
  predicate RowsFor(rows: seq<Habit>, id: HabitId)
  {
    forall j :: 0 <= j < |rows| ==> rows[j].id == id && StreakConsistent(rows[j])
  }

  /** Every row the toggle writes belongs to the toggled id and is consistent. */
  lemma {:induction false} ToggledRowsWellFormed(hs: seq<Habit>, id: HabitId, date: Date)
    ensures RowsFor(ToggledRows(hs, id, date), id)
    decreases |hs|
  {
    if hs != [] {
      var n := |hs| - 1;
      ToggledRowsWellFormed(hs[..n], id, date);
      var p := ToggledRows(hs[..n], id, date);
      if hs[n].id == id {
        var t := Toggled(hs[n], date);
        assert ToggledRows(hs, id, date) == p + [t];
        assert t.id == id;
      }
    }
  }

  /** A toggle of an id no habit carries changes nothing: no habit, no XP call. */
  lemma ToggleUnknownId(hs: seq<Habit>, a: Account, id: HabitId, date: Date, today: Date, freshId: nat -> GainId)
    requires forall j :: 0 <= j < |hs| ==> hs[j].id != id
    ensures ToggleAll(hs, id, date) == hs
    ensures XpCalls(hs, id, date) == []
    ensures ApplyGains(a, XpCalls(hs, id, date), today, freshId) == a
  {
    ToggleAllNoMatch(hs, id, date);
  }

  /** With one habit carrying the id, toggling twice makes two calls: the
      habit's delta, then its negation. */
  lemma ToggleTwiceCalls(hs: seq<Habit>, k: nat, date: Date)
    requires k < |hs|
    requires forall j :: 0 <= j < |hs| && j != k ==> hs[j].id != hs[k].id
    ensures XpCalls(hs, hs[k].id, date) == [XpCall(XpDelta(hs[k], date), hs[k].id)]
    ensures XpCalls(ToggleAll(hs, hs[k].id, date), hs[k].id, date) == [XpCall(-XpDelta(hs[k], date), hs[k].id)]
  {
    var id := hs[k].id;
    var once := ToggleAll(hs, id, date);
    ToggleAllSingleMatch(hs, k, date);
    XpCallsSingleMatch(hs, k, id, date);
    assert once[k].id == id;
    assert forall j :: 0 <= j < |once| && j != k ==> once[j].id != id;
    XpCallsSingleMatch(once, k, id, date);
    DeltaFlips(hs[k], date);
    var d := XpDelta(hs[k], date);
    assert XpDelta(once[k], date) == -d;
    assert XpCalls(once, id, date) == [XpCall(XpDelta(once[k], date), id)];
  }

  /** The account after `toggleHabit(id, date)` on `today` over the list `hs`. */
  function AfterToggle(a: Account, hs: seq<Habit>, id: HabitId, date: Date, today: Date, freshId: nat -> GainId): Account
  {
    ApplyGains(a, XpCalls(hs, id, date), today, freshId)
  }

  /** A toggle never lowers the level; a toggle that reaches a habit leaves
      the xp within the level, and one that reaches none changes nothing. */
  lemma AfterToggleBounds(a: Account, hs: seq<Habit>, id: HabitId, date: Date, today: Date, freshId: nat -> GainId)
    ensures AfterToggle(a, hs, id, date, today, freshId).level >= a.level
    ensures (exists j :: 0 <= j < |hs| && hs[j].id == id)
            ==> 0 <= AfterToggle(a, hs, id, date, today, freshId).xp < XpPerLevel
    ensures (forall j :: 0 <= j < |hs| ==> hs[j].id != id) ==> AfterToggle(a, hs, id, date, today, freshId) == a
  {
    XpCallsSomeMatch(hs, id, date);
  }

  /** Toggling one habit's date twice on the same day nets that habit's
      ledger entry for the day back to what it was. */
  lemma ToggleTwiceSameDay(hs: seq<Habit>, k: nat, id: HabitId, a: Account, date: Date, today: Date, freshId: nat -> GainId)
    requires k < |hs| && hs[k].id == id
    requires forall j :: 0 <= j < |hs| && j != k ==> hs[j].id != id
    ensures DayXp(AfterToggle(AfterToggle(a, hs, id, date, today, freshId),
                              ToggleAll(hs, id, date), id, date, today, freshId).xpHistory, today, id)
            == DayXp(a.xpHistory, today, id)
  {
    var d := XpDelta(hs[k], date);
    ToggleTwiceCalls(hs, k, date);
    var a1 := AfterGain(a, XpCall(d, id), today, freshId(0));
    ApplyGainsSingle(a, XpCall(d, id), today, freshId);
    assert AfterToggle(a, hs, id, date, today, freshId) == a1;
    var a2 := AfterGain(a1, XpCall(-d, id), today, freshId(0));
    ApplyGainsSingle(a1, XpCall(-d, id), today, freshId);
    assert AfterToggle(a1, ToggleAll(hs, id, date), id, date, today, freshId) == a2;
    MergeThenUndo(a.xpHistory, today, id, d);
  }

  /** The raw amounts of a sequence of calls. */
  function Amounts(calls: seq<XpCall>): (r: seq<int>)
    ensures |r| == |calls|
    decreases |calls|
  {
    if calls == [] then [] else Amounts(calls[..|calls| - 1]) + [calls[|calls| - 1].amount]
  }

  /** Gains for one habit on one day merge into the ledger as the sequence of
      their raw amounts. */
  lemma {:induction false} ApplyGainsHistory(a: Account, habitId: HabitId, calls: seq<XpCall>, today: Date, freshId: nat -> GainId)
    requires forall j :: 0 <= j < |calls| ==> calls[j].habitId == habitId
    ensures ApplyGains(a, calls, today, freshId).xpHistory == MergeAll(a.xpHistory, today, habitId, Amounts(calls))
    decreases |calls|
  {
    if calls != [] {
      var n := |calls| - 1;
      ApplyGainsHistory(a, habitId, calls[..n], today, freshId);
      assert Amounts(calls)[..n] == Amounts(calls[..n]);
    }
  }

  /** Non-negative gains are credited in full: the XP banked in levels and
      within the level grows by their sum. */
  lemma {:induction false} ApplyGainsCredits(a: Account, calls: seq<XpCall>, today: Date, freshId: nat -> GainId)
    requires a.xp >= 0
    requires forall j :: 0 <= j < |calls| ==> calls[j].amount >= 0
    ensures var r := ApplyGains(a, calls, today, freshId);
      r.xp + XpPerLevel * (r.level - a.level) == a.xp + Sum(Amounts(calls))
    decreases |calls|
  {
    if calls != [] {
      var n := |calls| - 1;
      ApplyGainsCredits(a, calls[..n], today, freshId);
      assert Amounts(calls)[..n] == Amounts(calls[..n]);
      var prev := ApplyGains(a, calls[..n], today, freshId);
      assert prev.xp >= 0;
    }
  }

  /** `n` copies of one call. */
  function Repeat(c: XpCall, n: nat): (r: seq<XpCall>)
    ensures |r| == n
    ensures forall j :: 0 <= j < n ==> r[j] == c
  {
    if n == 0 then [] else Repeat(c, n - 1) + [c]
  }

  lemma {:induction false} RepeatAmounts(c: XpCall, n: nat)
    ensures Sum(Amounts(Repeat(c, n))) == n * c.amount
  {
    if n > 0 {
      RepeatAmounts(c, n - 1);
      SumAmountsStep(Repeat(c, n), c.amount);
      MulStep(n, c.amount);
    }
  }

  lemma SumAmountsStep(calls: seq<XpCall>, v: int)
    requires calls != [] && calls[|calls| - 1].amount == v
    ensures Sum(Amounts(calls)) == Sum(Amounts(calls[..|calls| - 1])) + v
  {
    assert Amounts(calls)[..|calls| - 1] == Amounts(calls[..|calls| - 1]);
  }

  lemma MulStep(n: nat, v: int)
    requires n > 0
    ensures (n - 1) * v + v == n * v
  {
  }

  /** `n` gains of the same non-negative amount for one habit on one day, from
      a fresh account: all of it is banked, the ledger holds a single entry
      for the pair with the total, and `n` events are queued. */
  lemma RepeatedGainsOneDay(habitId: HabitId, amount: int, n: nat, today: Date, freshId: nat -> GainId)
    requires amount >= 0 && n > 0
    ensures var r := ApplyGains(Account(0, 1, [], []), Repeat(XpCall(amount, habitId), n), today, freshId);
      && r.xp + XpPerLevel * (r.level - 1) == n * amount
      && CountFor(r.xpHistory, today, habitId) == 1
      && DayXp(r.xpHistory, today, habitId) == n * amount
      && |r.xpGains| == n
  {
    var c := XpCall(amount, habitId);
    var a := Account(0, 1, [], []);
    RepeatAmounts(c, n);
    ApplyGainsHistory(a, habitId, Repeat(c, n), today, freshId);
    ApplyGainsCredits(a, Repeat(c, n), today, freshId);
    RepeatedGainsMerge(today, habitId, Amounts(Repeat(c, n)));
  }

  /** Seven +30 gains from a fresh account end on level 3 with 10 XP. */
  lemma SevenGainsOneDay(habitId: HabitId, today: Date, freshId: nat -> GainId)
    ensures var r := ApplyGains(Account(0, 1, [], []), Repeat(XpCall(30, habitId), 7), today, freshId);
      && r.level == 3 && r.xp == 10
      && CountFor(r.xpHistory, today, habitId) == 1
      && DayXp(r.xpHistory, today, habitId) == 210
  {
    RepeatedGainsOneDay(habitId, 30, 7, today, freshId);
  }

  /** Taking back 10 XP at 5 XP on level 2 clamps to 0 and stays on level 2. */
  lemma UndoClampsAtZero(a: Account, habitId: HabitId, today: Date, gainId: GainId)
    requires a.xp == 5 && a.level == 2
    ensures var r := AfterGain(a, XpCall(-10, habitId), today, gainId);
      r.xp == 0 && r.level == 2 && r.xpGains[|a.xpGains|].amount == -10
  {
  }

  /** What `toggleHabit` has produced after part of the list: the mapped
      habits, the account, the rows written to the `habits` table, the number
      of `gainXP` calls made and the last `meta` row written. */
  datatype Run = Run(out: seq<Habit>, account: Account, writes: seq<Habit>, calls: nat, meta: Option<Meta>)

  /** The callback applied to one more habit of the list. */
  function StepRun(s: Run, h: Habit, id: HabitId, date: Date, today: Date, freshId: nat -> GainId): Run
  {
    if h.id == id then
      var t := Toggled(h, date);
      var a := AfterGain(s.account, XpCall(XpDelta(h, date), id), today, freshId(s.calls));
      Run(s.out + [t], a, s.writes + [t], s.calls + 1, Some(MetaOf(a)))
    else
      s.(out := s.out + [h])
  }

  /** The callback applied to every habit of `hs`, in order. */
  function RunToggle(s: Run, hs: seq<Habit>, id: HabitId, date: Date, today: Date, freshId: nat -> GainId): Run
    decreases |hs|
  {
    if hs == [] then s
    else StepRun(RunToggle(s, hs[..|hs| - 1], id, date, today, freshId), hs[|hs| - 1], id, date, today, freshId)
  }

  lemma RunToggleStep(s: Run, hs: seq<Habit>, i: nat, id: HabitId, date: Date, today: Date, freshId: nat -> GainId)
    requires i < |hs|
    ensures RunToggle(s, hs[..i + 1], id, date, today, freshId)
            == StepRun(RunToggle(s, hs[..i], id, date, today, freshId), hs[i], id, date, today, freshId)
  {
    assert hs[..i + 1][..i] == hs[..i];
  }

  /** A run from the start of `toggleHabit` maps the list by ToggleAll, makes
      the XpCalls in order, and writes the ToggledRows. */
  lemma {:induction false} RunToggleLists(s: Run, hs: seq<Habit>, id: HabitId, date: Date, today: Date, freshId: nat -> GainId)
    ensures RunToggle(s, hs, id, date, today, freshId).out == s.out + ToggleAll(hs, id, date)
    ensures RunToggle(s, hs, id, date, today, freshId).writes == s.writes + ToggledRows(hs, id, date)
    ensures RunToggle(s, hs, id, date, today, freshId).calls == s.calls + |XpCalls(hs, id, date)|
    decreases |hs|
  {
    if hs != [] {
      var n := |hs| - 1;
      RunToggleLists(s, hs[..n], id, date, today, freshId);
      var p := RunToggle(s, hs[..n], id, date, today, freshId);
      if hs[n].id == id {
        assert (s.out + ToggleAll(hs[..n], id, date)) + [Toggled(hs[n], date)]
            == s.out + (ToggleAll(hs[..n], id, date) + [Toggled(hs[n], date)]);
        assert (s.writes + ToggledRows(hs[..n], id, date)) + [Toggled(hs[n], date)]
            == s.writes + (ToggledRows(hs[..n], id, date) + [Toggled(hs[n], date)]);
      } else {
        assert (s.out + ToggleAll(hs[..n], id, date)) + [hs[n]]
            == s.out + (ToggleAll(hs[..n], id, date) + [hs[n]]);
        assert ToggledRows(hs, id, date) == ToggledRows(hs[..n], id, date) + [];
      }
    }
  }

  /** A run that starts with no call made folds the XpCalls into the account,
      and the last `meta` row written is the final account's, if any call was made. */
  lemma {:induction false} RunToggleAccount(s: Run, hs: seq<Habit>, id: HabitId, date: Date, today: Date, freshId: nat -> GainId)
    requires s.calls == 0
    ensures RunToggle(s, hs, id, date, today, freshId).account == AfterToggle(s.account, hs, id, date, today, freshId)
    ensures RunToggle(s, hs, id, date, today, freshId).meta
            == if XpCalls(hs, id, date) == [] then s.meta
               else Some(MetaOf(RunToggle(s, hs, id, date, today, freshId).account))
    decreases |hs|
  {
    if hs != [] {
      var n := |hs| - 1;
      RunToggleAccount(s, hs[..n], id, date, today, freshId);
      RunToggleLists(s, hs[..n], id, date, today, freshId);
      var p := RunToggle(s, hs[..n], id, date, today, freshId);
      var prior := XpCalls(hs[..n], id, date);
      assert p.account == ApplyGains(s.account, prior, today, freshId);
      if hs[n].id == id {
        var c := XpCall(XpDelta(hs[n], date), id);
        assert XpCalls(hs, id, date) == prior + [c];
        ApplyGainsSnoc(s.account, prior, c, today, freshId);
        assert RunToggle(s, hs, id, date, today, freshId).account
            == AfterGain(p.account, c, today, freshId(|prior|));
      } else {
        assert XpCalls(hs, id, date) == prior + [];
        assert prior + [] == prior;
      }
    }
  }

  class Store {
    var habits: seq<Habit>
    var initialized: bool
    var xp: int
    var level: int
    var xpHistory: seq<XpEntry>
    var xpGains: seq<GainEvent>
    /** The rows written to the persisted `habits` table, in order; the
        table holds, per id, the last row written under it. */
    ghost var habitWrites: seq<Habit>
    /** The row of the persisted `meta` table under key "stats", the only row
        the store writes, as last written by the store. */
    ghost var savedMeta: Option<Meta>

    /** The store before `init`. */
    constructor ()
      ensures habits == [] && !initialized
      ensures AccountState() == Account(0, 1, [], [])
      ensures habitWrites == [] && savedMeta == None
    {
      habits := [];
      initialized := false;
      xp, level := 0, 1;
      xpHistory, xpGains := [], [];
      habitWrites, savedMeta := [], None;
    }

    function AccountState(): Account
      reads this
    {
      Account(xp, level, xpHistory, xpGains)
    }

    ghost predicate Valid()
      reads this
    {
      LedgerValid(habits, AccountState())
    }

    /** `init`: `stored` is what the `habits` table returned and `storedMeta` the
        `meta` row, if any; `demoId` and `now` stand for the UUID and the clock. */
    method Init(stored: seq<Habit>, storedMeta: Option<Meta>, demoId: HabitId, now: string)
      modifies this
      ensures initialized && |habits| > 0
      ensures xpGains == old(xpGains) && savedMeta == old(savedMeta)
      ensures |stored| > 0 ==>
        && habits == stored
        && xp == LoadMeta(storedMeta).xp && level == LoadMeta(storedMeta).level
        && xpHistory == LoadedHistory(LoadMeta(storedMeta))
        && habitWrites == old(habitWrites)
      ensures |stored| > 0 && AllStreaksConsistent(stored) && MetaValid(LoadMeta(storedMeta)) ==> Valid()
      ensures |stored| == 0 ==>
        && habits == [DemoHabit(demoId, now)]
        && xp == 0 && level == 1 && xpHistory == []
        && habitWrites == old(habitWrites) + [DemoHabit(demoId, now)]
        && Valid()
    {
      var meta := LoadMeta(storedMeta);
      if |stored| > 0 {
        habits := stored;
        xp := meta.xp;
        level := meta.level;
        xpHistory := LoadedHistory(meta);
        initialized := true;
      } else {
        var demo := DemoHabit(demoId, now);
        habitWrites := habitWrites + [demo];
        habits := [demo];
        xp := 0;
        level := 1;
        xpHistory := [];
        initialized := true;
      }
    }

    /** `addHabit`: the habit is written to the table and appended to the list. */
    method AddHabit(habit: Habit)
      modifies this
      ensures habits == old(habits) + [habit]
      ensures habitWrites == old(habitWrites) + [habit]
      ensures AccountState() == old(AccountState())
      ensures initialized == old(initialized) && savedMeta == old(savedMeta)
      ensures old(Valid()) && StreakConsistent(habit) ==> Valid()
    {
      habitWrites := habitWrites + [habit];
      habits := habits + [habit];
    }

    /** `gainXP(amount, habitId)` on `today`; `gainId` stands for the UUID of
        the queued gain event. */
    method GainXp(amount: int, habitId: HabitId, today: Date, gainId: GainId)
      modifies this
      ensures 0 <= xp < XpPerLevel && level >= old(level)
      ensures xp + XpPerLevel * (level - old(level)) == Clamp(old(xp) + amount)
      ensures xpHistory == MergeEntry(old(xpHistory), today, habitId, amount)
      ensures xpGains == old(xpGains) + [GainEvent(gainId, amount)]
      ensures AccountState() == AfterGain(old(AccountState()), XpCall(amount, habitId), today, gainId)
      ensures habits == old(habits) && initialized == old(initialized) && habitWrites == old(habitWrites)
      ensures savedMeta == Some(MetaOf(AccountState()))
      ensures old(Valid()) ==> Valid()
    {
      ghost var before := AccountState();
      var newXp, newLevel := FoldXp(xp, level, amount);
      var updatedHistory := MergeEntry(xpHistory, today, habitId, amount);
      var gainEntry := GainEvent(gainId, amount);
      xp := newXp;
      level := newLevel;
      xpHistory := updatedHistory;
      xpGains := xpGains + [gainEntry];
      savedMeta := Some(Meta(newXp, newLevel, Some(updatedHistory)));
      if LedgerValid(habits, before) {
        AfterGainKeepsValid(before, XpCall(amount, habitId), today, gainId);
      }
    }

    /** The expiry of the gain event `gainId`: only that event leaves the queue. */
    method ExpireGain(gainId: GainId)
      modifies this
      ensures xpGains == WithoutGain(old(xpGains), gainId)
      ensures habits == old(habits) && initialized == old(initialized)
      ensures xp == old(xp) && level == old(level) && xpHistory == old(xpHistory)
      ensures habitWrites == old(habitWrites) && savedMeta == old(savedMeta)
      ensures old(Valid()) ==> Valid()
    {
      xpGains := WithoutGain(xpGains, gainId);
    }

    /** The callback `toggleHabit` maps over the list: a habit with the id is
        toggled, written back and hands its delta to `gainXP`, whose event
        gets id `gainId`; any other habit comes back as it was. */
    method ToggleEntry(h: Habit, id: HabitId, date: Date, today: Date, gainId: GainId) returns (r: Habit)
      modifies this
      ensures r == if h.id == id then Toggled(h, date) else h
      ensures habits == old(habits) && initialized == old(initialized)
      ensures h.id == id ==>
        && AccountState() == AfterGain(old(AccountState()), XpCall(XpDelta(h, date), id), today, gainId)
        && habitWrites == old(habitWrites) + [r]
        && savedMeta == Some(MetaOf(AccountState()))
      ensures h.id != id ==>
        AccountState() == old(AccountState()) && habitWrites == old(habitWrites) && savedMeta == old(savedMeta)
    {
      if h.id != id {
        return h;
      }
      r := Toggled(h, date);
      habitWrites := habitWrites + [r];
      var wasDone := Done(h.history, date);
      var amount := TickXp(h);
      if !wasDone {
        GainXp(amount, h.id, today, gainId);
      } else {
        GainXp(-amount, h.id, today, gainId);
      }
    }

    /** `toggleHabit(id, date)`: every habit with the id gets `date` toggled and
        written back, and makes one `gainXP` call on `today`; the k-th call's
        gain event gets id `freshId(k)`. */
    method ToggleHabit(id: HabitId, date: Date, today: Date, freshId: nat -> GainId)
      modifies this
      ensures habits == ToggleAll(old(habits), id, date)
      ensures AccountState() == AfterToggle(old(AccountState()), old(habits), id, date, today, freshId)
      ensures initialized == old(initialized)
      ensures habitWrites == old(habitWrites) + ToggledRows(old(habits), id, date)
      ensures savedMeta == if XpCalls(old(habits), id, date) == [] then old(savedMeta)
                           else Some(MetaOf(AccountState()))
      ensures old(Valid()) ==> Valid()
    {
      var hs := habits;
      ghost var s0 := Run([], AccountState(), habitWrites, 0, savedMeta);
      var out := MapToggle(hs, id, date, today, freshId);
      RunToggleLists(s0, hs, id, date, today, freshId);
      RunToggleAccount(s0, hs, id, date, today, freshId);
      habits := out;
      if LedgerValid(hs, s0.account) {
        ToggleAllKeepsStreaks(hs, id, date);
        ApplyGainsKeepsValid(s0.account, XpCalls(hs, id, date), today, freshId);
      }
    }

    /** `habits.map(...)` inside `toggleHabit`: the callback over every habit
        of `hs`, in order, with its writes and `gainXP` calls. */
    method MapToggle(hs: seq<Habit>, id: HabitId, date: Date, today: Date, freshId: nat -> GainId)
        returns (out: seq<Habit>)
      modifies this
      ensures var run := RunToggle(Run([], old(AccountState()), old(habitWrites), 0, old(savedMeta)),
                                   hs, id, date, today, freshId);
        && out == run.out && AccountState() == run.account
        && habitWrites == run.writes && savedMeta == run.meta
      ensures habits == old(habits) && initialized == old(initialized)
    {
      ghost var s0 := Run([], AccountState(), habitWrites, 0, savedMeta);
      out := [];
      var k: nat := 0;
      var i := 0;
      while i < |hs|
        invariant 0 <= i <= |hs|
        invariant habits == old(habits) && initialized == old(initialized)
        invariant Run(out, AccountState(), habitWrites, k, savedMeta)
                  == RunToggle(s0, hs[..i], id, date, today, freshId)
      {
        RunToggleStep(s0, hs, i, id, date, today, freshId);
        var r := ToggleEntry(hs[i], id, date, today, freshId(k));
        if hs[i].id == id {
          k := k + 1;
        }
        out := out + [r];
        i := i + 1;
      }
      assert hs[..|hs|] == hs;
    }
  }

  /** The first tick of a 25-XP habit listed after another habit: the date
      becomes completed, the streak becomes 1, and a fresh account gains 25 XP,
      a ledger entry of 25 and one event of 25. */
  lemma FirstTick(other: Habit, habit: Habit, date: Date, today: Date, freshId: nat -> GainId)
    requires other.id != habit.id
    requires habit.xpPerTick == Some(25) && habit.history == map[]
    ensures ToggleAll([other, habit], habit.id, date)[1].history == map[date := true]
    ensures ToggleAll([other, habit], habit.id, date)[1].streak == 1
    ensures AfterToggle(Account(0, 1, [], []), [other, habit], habit.id, date, today, freshId)
            == Account(25, 1, [XpEntry(today, habit.id, 25)], [GainEvent(freshId(0), 25)])
  {
    var hs := [other, habit];
    XpCallsSingleMatch(hs, 1, habit.id, date);
    ToggleAllSingleMatch(hs, 1, date);
    var t := Toggled(habit, date);
    assert t.history == map[date := true];
    assert CompletedDays(t.history) == {date};
    var a := Account(0, 1, [], []);
    ApplyGainsSingle(a, XpCall(25, habit.id), today, freshId);
    assert !HasEntry([], today, habit.id);
  }

  /** What a caller of the store can conclude from the method contracts: the
      demo habit after `init` on an empty table, then a tick of a second habit. */
  method DemoScenario(freshId: nat -> GainId)
  {
    var s := new Store();
    s.Init([], None, "h0", "2024-01-01T00:00:00Z");
    assert s.xp == 0 && s.level == 1 && s.Valid();
    var demo := DemoHabit("h0", "2024-01-01T00:00:00Z");
    var workout := Habit("w", "Workout", None, Some("daily"), Some(25), map[], 0, "");
    s.AddHabit(workout);
    assert s.habits == [demo, workout];
    s.ToggleHabit("w", "2024-01-01", "2024-01-01", freshId);
    FirstTick(demo, workout, "2024-01-01", "2024-01-01", freshId);
    assert s.habits[1].streak == 1;
    assert s.xp == 25 && s.level == 1;
    assert s.xpGains == [GainEvent(freshId(0), 25)];
  }

  /** A clamped take-back on a loaded account keeps the level. */
  method ClampScenario()
  {
    var workout := Habit("w", "Workout", None, Some("daily"), Some(25), map[], 0, "");
    var t := new Store();
    t.Init([workout], Some(Meta(5, 2, None)), "unused", "");
    t.GainXp(-10, "w", "2024-01-02", "g");
    assert t.xp == 0 && t.level == 2;
  }
}
