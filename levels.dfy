/** Levels from experience points. Level 1 covers 0-99 XP, and moving from level
    `L` to level `L + 1` costs `100 * L` more XP, so level `L` starts at
    `50 * L * (L - 1)` XP. */
module Levels {

  /** The total XP at which level `level` starts: `100 + 200 + ... + 100 * (level - 1)`. */
  function Threshold(level: nat): nat {
    if level <= 1 then 0 else Threshold(level - 1) + 100 * (level - 1)
  }

  lemma {:induction false} ThresholdClosedForm(level: nat)
    ensures Threshold(level) == 50 * level * (level - 1)
  {
    if level > 1 {
      ThresholdClosedForm(level - 1);
    }
  }

  lemma {:induction false} ThresholdMonotonic(a: nat, b: nat)
    requires 1 <= a <= b
    ensures Threshold(a) <= Threshold(b)
    ensures a < b ==> Threshold(a) + 100 * a <= Threshold(b)
    decreases b - a
  {
    if a < b {
      ThresholdMonotonic(a, b - 1);
    }
  }

  /** The level the counting loop reaches from `level`, with `remaining` XP left to
      spend, paying `100 * level` for each step up. */
  function LevelFrom(level: nat, remaining: int): (r: nat)
    requires level >= 1 && remaining >= 0
    ensures r >= level
    ensures Threshold(r) - Threshold(level) <= remaining < Threshold(r + 1) - Threshold(level)
    decreases remaining
  {
    if remaining >= level * 100 then LevelFrom(level + 1, remaining - level * 100) else level
  }

  /** The level of a user holding `xp` experience points. */
  function LevelOf(xp: int): (r: nat)
    ensures r >= 1
    ensures xp < 100 ==> r == 1
  {
    if xp < 100 then 1 else LevelFrom(1, xp)
  }

  /** A user's level is the one whose XP band contains their XP. */
  lemma LevelOfBounds(xp: int)
    ensures xp < Threshold(LevelOf(xp) + 1)
    ensures xp >= 0 ==> Threshold(LevelOf(xp)) <= xp
  {
  }

  /** Only one level's band contains a given amount of XP. */
  lemma {:induction false} LevelOfUnique(xp: int, level: nat)
    requires level >= 1
    requires Threshold(level) <= xp < Threshold(level + 1)
    ensures LevelOf(xp) == level
  {
    var l := LevelOf(xp);
    LevelOfBounds(xp);
    if l < level {
      ThresholdMonotonic(l + 1, level);
    } else if level < l {
      ThresholdMonotonic(level + 1, l);
    }
  }

  /** More XP never means a lower level. */
  lemma {:induction false} LevelOfMonotonic(a: int, b: int)
    requires a <= b
    ensures LevelOf(a) <= LevelOf(b)
  {
    LevelOfBounds(a);
    LevelOfBounds(b);
    if LevelOf(b) < LevelOf(a) && b >= 0 {
      ThresholdMonotonic(LevelOf(b) + 1, LevelOf(a));
    }
  }

  /** Reaching a threshold exactly is enough for its level, and one XP less is not. */
  lemma {:induction false} LevelAtThreshold(level: nat)
    requires level >= 1
    ensures LevelOf(Threshold(level)) == level
    ensures level >= 2 ==> LevelOf(Threshold(level) - 1) == level - 1
  {
    LevelOfUnique(Threshold(level), level);
    if level >= 2 {
      LevelOfUnique(Threshold(level) - 1, level - 1);
    }
  }

  /** The bands written next to the level formula: 0-99, 100-299, 300-599, 600-999. */
  lemma LevelTable(xp: int)
    ensures 0 <= xp < 100 ==> LevelOf(xp) == 1
    ensures 100 <= xp < 300 ==> LevelOf(xp) == 2
    ensures 300 <= xp < 600 ==> LevelOf(xp) == 3
    ensures 600 <= xp < 1000 ==> LevelOf(xp) == 4
  {
    ThresholdClosedForm(2);
    ThresholdClosedForm(3);
    ThresholdClosedForm(4);
    ThresholdClosedForm(5);
    if 100 <= xp < 300 {
      LevelOfUnique(xp, 2);
    } else if 300 <= xp < 600 {
      LevelOfUnique(xp, 3);
    } else if 600 <= xp < 1000 {
      LevelOfUnique(xp, 4);
    }
  }

  /** The level computation of the achievement service: counts levels up while the
      remaining XP pays for the next one. */
  method CalculateLevel(totalXp: int) returns (level: nat)
    ensures level == LevelOf(totalXp)
    ensures totalXp >= 0 ==> Threshold(level) <= totalXp
    ensures totalXp < Threshold(level + 1)
  {
    if totalXp < 100 {
      return 1;
    }
    level := 1;
    var xpNeeded := 100;
    var xpRemaining := totalXp;
    while xpRemaining >= xpNeeded
      invariant level >= 1 && xpNeeded == level * 100
      invariant xpRemaining >= 0
      invariant xpRemaining == totalXp - Threshold(level)
      invariant LevelFrom(level, xpRemaining) == LevelOf(totalXp)
      decreases xpRemaining
    {
      xpRemaining := xpRemaining - xpNeeded;
      level := level + 1;
      xpNeeded := level * 100;
    }
    LevelOfBounds(totalXp);
  }

  /** The XP still missing before the next level: the sum `100 * 1 + ... + 100 * L`
      for the current level `L`, less the XP held. */
  function XpToNextLevel(xp: int): (r: int)
    ensures r >= 1
    ensures LevelOf(xp + r) == LevelOf(xp) + 1
    ensures LevelOf(xp + r - 1) == LevelOf(xp)
  {
    var level := LevelOf(xp);
    LevelOfBounds(xp);
    LevelAtThreshold(level + 1);
    Threshold(level + 1) - xp
  }
}
