/** Account progress: folding an XP delta into (level, xp within the level).
    XP clamps at zero, so undoing a completion never takes a level back. */
module Progress {

  const XpPerLevel: int := 100

  /** `if (newXP < 0) newXP = 0`. */
  function Clamp(total: int): (r: nat)
    ensures total >= 0 ==> r == total
    ensures total < 0 ==> r == 0
  {
    if total < 0 then 0 else total
  }

  /** Closed form of the level-up loop: the clamped total split into whole
      levels gained and the remainder within the level. */
  function Settle(total: int, level: int): (r: (int, int))
    ensures 0 <= r.0 < XpPerLevel
    ensures r.1 >= level
    ensures r.0 + XpPerLevel * (r.1 - level) == Clamp(total)
  {
    var t := Clamp(total);
    (t % XpPerLevel, level + t / XpPerLevel)
  }

  /** Remainder and levels gained are determined by the clamped total, so any
      pair meeting Settle's contract is Settle's result. */
  lemma SettleUnique(total: int, level: int, xp: int, newLevel: int)
    requires 0 <= xp < XpPerLevel
    requires xp + XpPerLevel * (newLevel - level) == Clamp(total)
    ensures (xp, newLevel) == Settle(total, level)
  {
  }

  /** The level-up loop of `gainXP`: add the delta, clamp at zero, then
      trade every full 100 XP for a level. */
  method FoldXp(xp: int, level: int, amount: int) returns (newXp: int, newLevel: int)
    ensures 0 <= newXp < XpPerLevel
    ensures newLevel >= level
    ensures newXp + XpPerLevel * (newLevel - level) == Clamp(xp + amount)
    ensures (newXp, newLevel) == Settle(xp + amount, level)
  {
    newXp := xp + amount;
    newLevel := level;
    if newXp < 0 {
      newXp := 0;
    }
    while newXp >= XpPerLevel
      invariant newXp >= 0
      invariant newLevel >= level
      invariant newXp + XpPerLevel * (newLevel - level) == Clamp(xp + amount)
      decreases newXp
    {
      newXp := newXp - XpPerLevel;
      newLevel := newLevel + 1;
    }
    SettleUnique(xp + amount, level, newXp, newLevel);
  }

  /** A negative result clamps to zero at the same level: no borrowing from
      the level below. */
  lemma NoDelevel(xp: int, level: int, amount: int)
    requires xp + amount < 0
    ensures Settle(xp + amount, level) == (0, level)
  {
  }

  /** An undo returns to the starting point only while the award stayed inside
      the level; across a level-up the ratchet keeps the new level. */
  lemma UndoWithinLevel(xp: int, level: int, amount: int)
    requires 0 <= xp && 0 <= amount && xp + amount < XpPerLevel
    ensures var once := Settle(xp + amount, level);
      Settle(once.0 - amount, once.1) == (xp, level)
  {
  }

  lemma UndoAcrossLevelUp()
    ensures Settle(95 + 10, 1) == (5, 2)
    ensures Settle(5 - 10, 2) == (0, 2)
  {
  }
}
