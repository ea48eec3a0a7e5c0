/**
 * The XP progression shown on the statistics page and the level gate of the
 * secret area: 500 XP per level, levels counted from 1.
 */
module Progression {

  /** XP in one level band. */
  const XpPerLevel: nat := 500

  /** The level from which the secret area link is shown. */
  const SecretLevel: nat := 5

  /** The level for a total of `xp` points: the band `xp` falls into, counted from 1. */
  function Level(xp: nat): (level: nat)
    ensures level >= 1
    ensures XpPerLevel * (level - 1) <= xp < XpPerLevel * level
  {
    xp / XpPerLevel + 1
  }

  /** XP still missing to reach the next level. */
  function XpToNext(xp: nat): (r: nat)
    ensures 1 <= r <= XpPerLevel
    ensures xp + r == XpPerLevel * Level(xp)
  {
    XpPerLevel - xp % XpPerLevel
  }

  /** Width of the progress bar, in percent of the current band already earned. */
  function ProgressPercent(xp: nat): (pct: real)
    ensures 0.0 <= pct < 100.0
    ensures pct == (XpPerLevel - XpToNext(xp)) as real * 100.0 / XpPerLevel as real
  {
    ((xp % XpPerLevel) as real / XpPerLevel as real) * 100.0
  }

  /** Everything the statistics page renders for a given XP total. */
  datatype Stats = Stats(level: nat, progressPercent: real, totalXp: nat, xpToNext: nat, nextLevel: nat)

  /** The statistics view: the next level announced is the one `xpToNext` more points reach. */
  function Statistics(xp: nat): (st: Stats)
    ensures st.totalXp == xp
    ensures st.level == Level(xp) && st.xpToNext == XpToNext(xp)
    ensures st.progressPercent == ProgressPercent(xp)
    ensures st.nextLevel == st.level + 1
    ensures st.nextLevel == Level(xp + st.xpToNext)
    ensures XpPerLevel * (st.level - 1) <= xp < XpPerLevel * st.level
    ensures 0.0 <= st.progressPercent < 100.0
  {
    Stats(Level(xp), ProgressPercent(xp), xp, XpToNext(xp), Level(xp) + 1)
  }

  /** Whether the secret area link is displayed after the access check: it is
      shown once the level reaches 5 and the check never hides it again. */
  function SecretLinkShown(xp: nat, shownBefore: bool): (shown: bool)
    ensures shown <==> shownBefore || xp >= 2000
    ensures shownBefore ==> shown
  {
    shownBefore || Level(xp) >= SecretLevel
  }

  /** Levels never go down as XP grows. */
  lemma LevelMonotone(a: nat, b: nat)
    requires a <= b
    ensures Level(a) <= Level(b)
  {
  }

  /** Points below `XpToNext` keep the level; exactly `XpToNext` points raise it by one. */
  lemma XpToNextIsLeastLevelUp(xp: nat, d: nat)
    ensures d < XpToNext(xp) ==> Level(xp + d) == Level(xp)
    ensures d == XpToNext(xp) ==> Level(xp + d) == Level(xp) + 1
  {
  }

  /** The remaining XP and the part of the band already earned add up to one band. */
  lemma BandSplit(xp: nat)
    ensures XpToNext(xp) + xp % XpPerLevel == XpPerLevel
  {
  }

  /** Reference values: 0 and 499 XP are level 1, 500 is level 2, 1999 is level 4 and 2000 is level 5. */
  lemma LevelExamples()
    ensures Level(0) == 1 && Level(499) == 1 && Level(500) == 2
    ensures Level(1999) == 4 && Level(2000) == 5
    ensures XpToNext(0) == 500 && XpToNext(499) == 1 && XpToNext(500) == 500
    ensures ProgressPercent(250) == 50.0
  {
  }

  /** The secret area threshold in XP: level 5 starts at 2000 points. */
  lemma SecretThreshold(xp: nat)
    ensures Level(xp) >= SecretLevel <==> xp >= 2000
  {
  }
}
