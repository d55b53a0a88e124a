/** The XP history ledger: one entry per (date, habit) holding the net XP that
    habit earned that day, merged into by every XP change. */
module XpHistory {
  import opened Habits

  datatype XpEntry = XpEntry(date: Date, habitId: HabitId, xp: int)

  predicate IsFor(e: XpEntry, today: Date, habitId: HabitId)
  {
    e.date == today && e.habitId == habitId
  }

  /** `xpHistory.find(...)` succeeds. */
  predicate HasEntry(h: seq<XpEntry>, today: Date, habitId: HabitId)
  {
    exists i :: 0 <= i < |h| && IsFor(h[i], today, habitId)
  }

  /** No two entries share a (date, habit) pair. */
  predicate UniquePairs(h: seq<XpEntry>)
  {
    forall i, j :: 0 <= i < j < |h| ==> !IsFor(h[j], h[i].date, h[i].habitId)
  }

  /** `xpHistory.map(...)`: every entry for the pair gets `amount` added. */
  function Bump(h: seq<XpEntry>, today: Date, habitId: HabitId, amount: int): (r: seq<XpEntry>)
    ensures |r| == |h|
    ensures forall i :: 0 <= i < |h| ==>
              r[i] == if IsFor(h[i], today, habitId) then h[i].(xp := h[i].xp + amount) else h[i]
    decreases |h|
  {
    if h == [] then []
    else
      var e := h[0];
      [if IsFor(e, today, habitId) then e.(xp := e.xp + amount) else e]
      + Bump(h[1..], today, habitId, amount)
  }

  /** The history after `gainXP(amount, habitId)` on `today`: the raw (unclamped)
      amount is added to the pair's existing entry, or one new entry is appended. */
  function MergeEntry(h: seq<XpEntry>, today: Date, habitId: HabitId, amount: int): (r: seq<XpEntry>)
    ensures |r| == |h| + (if HasEntry(h, today, habitId) then 0 else 1)
  {
    if HasEntry(h, today, habitId) then Bump(h, today, habitId, amount)
    else h + [XpEntry(today, habitId, amount)]
  }

  /** Entry by entry, `r` is `h` with `amount` merged in for the pair. */
  predicate MergedFrom(h: seq<XpEntry>, r: seq<XpEntry>, today: Date, habitId: HabitId, amount: int)
  {
    && |r| == |h| + (if HasEntry(h, today, habitId) then 0 else 1)
    && (forall i :: 0 <= i < |h| ==>
          r[i].date == h[i].date && r[i].habitId == h[i].habitId
          && r[i].xp == h[i].xp + (if IsFor(h[i], today, habitId) then amount else 0))
    && (!HasEntry(h, today, habitId) ==> r[|h|] == XpEntry(today, habitId, amount))
  }

  /** Entry by entry: existing entries keep their pair and gain `amount` exactly
      when they belong to the pair; a missing pair gets one entry at the end. */
  lemma MergeEntryShape(h: seq<XpEntry>, today: Date, habitId: HabitId, amount: int)
    ensures MergedFrom(h, MergeEntry(h, today, habitId, amount), today, habitId, amount)
  {
  }

  /** The net XP recorded for the pair: the first matching entry's `xp`, or 0. */
  function DayXp(h: seq<XpEntry>, today: Date, habitId: HabitId): (r: int)
    decreases |h|
  {
    if h == [] then 0
    else if IsFor(h[0], today, habitId) then h[0].xp
    else DayXp(h[1..], today, habitId)
  }

  /** A pair without an entry has no net XP. */
  lemma {:induction false} DayXpAbsent(h: seq<XpEntry>, today: Date, habitId: HabitId)
    requires !HasEntry(h, today, habitId)
    ensures DayXp(h, today, habitId) == 0
    decreases |h|
  {
    if h != [] {
      HasEntryTail(h, today, habitId);
      DayXpAbsent(h[1..], today, habitId);
    }
  }

  /** How many entries the pair has. */
  function CountFor(h: seq<XpEntry>, today: Date, habitId: HabitId): (n: nat)
    ensures n <= |h|
    decreases |h|
  {
    if h == [] then 0
    else (if IsFor(h[0], today, habitId) then 1 else 0) + CountFor(h[1..], today, habitId)
  }

  /** The pair has no entry exactly when it is counted zero times. */
  lemma {:induction false} CountForZero(h: seq<XpEntry>, today: Date, habitId: HabitId)
    ensures CountFor(h, today, habitId) == 0 <==> !HasEntry(h, today, habitId)
    decreases |h|
  {
    if h != [] {
      CountForZero(h[1..], today, habitId);
      if !IsFor(h[0], today, habitId) {
        HasEntryTail(h, today, habitId);
      }
    }
  }

  /** Entries kept position by position with the same (date, habit) pairs. */
  predicate SamePairs(h: seq<XpEntry>, g: seq<XpEntry>)
  {
    |h| == |g| && forall i :: 0 <= i < |h| ==> g[i].date == h[i].date && g[i].habitId == h[i].habitId
  }

  lemma {:induction false} SamePairsCount(h: seq<XpEntry>, g: seq<XpEntry>, today: Date, habitId: HabitId)
    requires SamePairs(h, g)
    ensures CountFor(g, today, habitId) == CountFor(h, today, habitId)
    decreases |h|
  {
    if h != [] {
      SamePairsCount(h[1..], g[1..], today, habitId);
    }
  }

  lemma {:induction false} CountForAppend(h: seq<XpEntry>, e: XpEntry, today: Date, habitId: HabitId)
    ensures CountFor(h + [e], today, habitId)
            == CountFor(h, today, habitId) + (if IsFor(e, today, habitId) then 1 else 0)
    decreases |h|
  {
    if h == [] {
      assert [e][1..] == [];
    } else {
      assert (h + [e])[1..] == h[1..] + [e];
      CountForAppend(h[1..], e, today, habitId);
    }
  }

  /** Past a first entry for another pair, the search continues in the tail. */
  lemma HasEntryTail(h: seq<XpEntry>, today: Date, habitId: HabitId)
    requires h != [] && !IsFor(h[0], today, habitId)
    ensures HasEntry(h, today, habitId) == HasEntry(h[1..], today, habitId)
  {
    if HasEntry(h, today, habitId) {
      var i :| 0 <= i < |h| && IsFor(h[i], today, habitId);
      assert IsFor(h[1..][i - 1], today, habitId);
    }
    if HasEntry(h[1..], today, habitId) {
      var i :| 0 <= i < |h[1..]| && IsFor(h[1..][i], today, habitId);
      assert IsFor(h[i + 1], today, habitId);
    }
  }

  lemma {:induction false} DayXpAppend(h: seq<XpEntry>, e: XpEntry, today: Date, habitId: HabitId)
    ensures DayXp(h + [e], today, habitId)
            == if HasEntry(h, today, habitId) then DayXp(h, today, habitId)
               else if IsFor(e, today, habitId) then e.xp else 0
    decreases |h|
  {
    if h == [] {
      assert [e][1..] == [];
    } else {
      assert (h + [e])[1..] == h[1..] + [e];
      DayXpAppend(h[1..], e, today, habitId);
      if !IsFor(h[0], today, habitId) {
        HasEntryTail(h, today, habitId);
      }
    }
  }

  lemma {:induction false} DayXpBump(h: seq<XpEntry>, today: Date, habitId: HabitId, amount: int, t2: Date, id2: HabitId)
    ensures DayXp(Bump(h, today, habitId, amount), t2, id2)
            == DayXp(h, t2, id2)
               + (if t2 == today && id2 == habitId && HasEntry(h, today, habitId) then amount else 0)
    decreases |h|
  {
    if h != [] {
      var b := Bump(h, today, habitId, amount);
      assert b[1..] == Bump(h[1..], today, habitId, amount);
      DayXpBump(h[1..], today, habitId, amount, t2, id2);
      if !IsFor(h[0], today, habitId) {
        HasEntryTail(h, today, habitId);
      }
    }
  }

  /** Merging never creates a second entry for the pair: afterwards it has
      exactly one entry if it had none, and as many as before otherwise. */
  lemma MergeNeverDuplicates(h: seq<XpEntry>, today: Date, habitId: HabitId, amount: int)
    ensures CountFor(MergeEntry(h, today, habitId, amount), today, habitId)
            == if CountFor(h, today, habitId) == 0 then 1 else CountFor(h, today, habitId)
  {
    var r := MergeEntry(h, today, habitId, amount);
    CountForZero(h, today, habitId);
    if HasEntry(h, today, habitId) {
      MergeEntryShape(h, today, habitId, amount);
      SamePairsCount(h, r, today, habitId);
    } else {
      CountForAppend(h, XpEntry(today, habitId, amount), today, habitId);
    }
  }

  /** Merging keeps the ledger free of duplicate pairs. */
  lemma MergeKeepsUnique(h: seq<XpEntry>, today: Date, habitId: HabitId, amount: int)
    requires UniquePairs(h)
    ensures UniquePairs(MergeEntry(h, today, habitId, amount))
  {
    MergeEntryShape(h, today, habitId, amount);
  }

  /** The pair's net XP grows by exactly the raw amount; every other pair's
      net XP and entry count stay as they were. */
  lemma MergeAddsAmount(h: seq<XpEntry>, today: Date, habitId: HabitId, amount: int, t2: Date, id2: HabitId)
    ensures DayXp(MergeEntry(h, today, habitId, amount), t2, id2)
            == DayXp(h, t2, id2) + (if t2 == today && id2 == habitId then amount else 0)
    ensures (t2, id2) != (today, habitId)
            ==> CountFor(MergeEntry(h, today, habitId, amount), t2, id2) == CountFor(h, t2, id2)
  {
    var r := MergeEntry(h, today, habitId, amount);
    if HasEntry(h, today, habitId) {
      DayXpBump(h, today, habitId, amount, t2, id2);
      MergeEntryShape(h, today, habitId, amount);
      SamePairsCount(h, r, t2, id2);
    } else {
      var e := XpEntry(today, habitId, amount);
      DayXpAppend(h, e, t2, id2);
      CountForAppend(h, e, t2, id2);
      if !HasEntry(h, t2, id2) {
        DayXpAbsent(h, t2, id2);
      }
    }
  }

  /** Adding an amount and then its negation leaves the pair's net XP where it was. */
  lemma MergeThenUndo(h: seq<XpEntry>, today: Date, habitId: HabitId, amount: int)
    ensures DayXp(MergeEntry(MergeEntry(h, today, habitId, amount), today, habitId, -amount), today, habitId)
            == DayXp(h, today, habitId)
  {
    MergeAddsOwn(h, today, habitId, amount);
    UndoFrom(MergeEntry(h, today, habitId, amount), h, today, habitId, amount);
  }

  /** A ledger `amount` ahead of `h` for the pair comes back to `h`'s net XP
      once `-amount` is merged. */
  lemma UndoFrom(g: seq<XpEntry>, h: seq<XpEntry>, today: Date, habitId: HabitId, amount: int)
    requires DayXp(g, today, habitId) == DayXp(h, today, habitId) + amount
    ensures DayXp(MergeEntry(g, today, habitId, -amount), today, habitId) == DayXp(h, today, habitId)
  {
    MergeAddsOwn(g, today, habitId, -amount);
  }

  /** The pair's own net XP grows by the amount merged for it. */
  lemma MergeAddsOwn(h: seq<XpEntry>, today: Date, habitId: HabitId, amount: int)
    ensures DayXp(MergeEntry(h, today, habitId, amount), today, habitId) == DayXp(h, today, habitId) + amount
  {
    MergeAddsAmount(h, today, habitId, amount, today, habitId);
  }

  /** `amounts` merged for one pair, in order. */
  function MergeAll(h: seq<XpEntry>, today: Date, habitId: HabitId, amounts: seq<int>): seq<XpEntry>
    decreases |amounts|
  {
    if amounts == [] then h
    else MergeEntry(MergeAll(h, today, habitId, amounts[..|amounts| - 1]), today, habitId, amounts[|amounts| - 1])
  }

  function Sum(amounts: seq<int>): int
    decreases |amounts|
  {
    if amounts == [] then 0 else Sum(amounts[..|amounts| - 1]) + amounts[|amounts| - 1]
  }

  /** Repeated gains for one habit on one day end in a single entry holding the
      sum of the raw amounts. */
  lemma {:induction false} RepeatedGainsMerge(today: Date, habitId: HabitId, amounts: seq<int>)
    requires amounts != []
    ensures CountFor(MergeAll([], today, habitId, amounts), today, habitId) == 1
    ensures DayXp(MergeAll([], today, habitId, amounts), today, habitId) == Sum(amounts)
    decreases |amounts|
  {
    var n := |amounts| - 1;
    if n == 0 {
      assert amounts[..0] == [];
      MergeOnce([], today, habitId, 0, amounts[0]);
    } else {
      RepeatedGainsMerge(today, habitId, amounts[..n]);
      MergeOnce(MergeAll([], today, habitId, amounts[..n]), today, habitId, Sum(amounts[..n]), amounts[n]);
    }
  }

  /** A ledger with at most one entry for the pair, holding `total`, keeps one
      entry holding `total + amount` after the merge. */
  lemma MergeOnce(h: seq<XpEntry>, today: Date, habitId: HabitId, total: int, amount: int)
    requires CountFor(h, today, habitId) <= 1 && DayXp(h, today, habitId) == total
    ensures CountFor(MergeEntry(h, today, habitId, amount), today, habitId) == 1
    ensures DayXp(MergeEntry(h, today, habitId, amount), today, habitId) == total + amount
  {
    MergeNeverDuplicates(h, today, habitId, amount);
    MergeAddsOwn(h, today, habitId, amount);
  }
}
