/** The profile header's experience bar: the xp earned inside the current
    level, shown out of a fixed 100. */
module ProfileHeader {
  import opened Profiles
  import opened Progression

  /** JavaScript's `a % b` for a positive `b`: the remainder is truncated
      toward zero, so it takes the sign of `a` (Dafny's `%` never does). */
  function JsRemainder(a: int, b: int): (r: int)
    requires b > 0
    ensures a == (a / b) * b + r || a == (-((-a) / b)) * b + r
    ensures -b < r < b && (a >= 0 ==> r >= 0) && (a <= 0 ==> r <= 0)
  {
    if a >= 0 then a % b else -((-a) % b)
  }

  /** `profile.xp % 100`: the bar's filled part. It differs from xp by a
      whole number of bar lengths, never fills the bar, and takes the sign of
      xp. */
  function XpProgress(xp: int): (r: int)
    ensures (xp - r) % XpForNextLevel == 0
    ensures -XpForNextLevel < r < XpForNextLevel
    ensures xp >= 0 ==> r >= 0
    ensures xp <= 0 ==> r <= 0
  {
    var r := JsRemainder(xp, 100);
    if xp >= 0 then
      assert xp - r == (xp / 100) * 100;
      r
    else
      assert xp - r == -((-xp) / 100) * 100;
      r
  }

  /** The bar's denominator. */
  const XpForNextLevel: int := 100

  /** The bar's denominator is the level step of the level formula. */
  lemma BarMatchesLevelStep()
    ensures XpForNextLevel == LevelStep
  {
  }

  /** For non-negative xp the bar holds a value in [0, 100), and it is the xp
      left over above the floor of the xp's level. */
  lemma XpProgressInLevel(xp: int)
    requires xp >= 0
    ensures 0 <= XpProgress(xp) < XpForNextLevel
    ensures xp == (LevelFor(xp) - 1) * LevelStep + XpProgress(xp)
  {
  }

  /** A profile whose level was written by the completion formula shows xp
      split into the completed levels and the bar. */
  lemma ProfileDecomposes(p: Profile)
    requires p.xp >= 0 && p.level == LevelFor(p.xp)
    ensures p.xp == (p.level - 1) * XpForNextLevel + XpProgress(p.xp)
  {
    XpProgressInLevel(p.xp);
  }

  /** The bar is empty exactly at a level threshold: when xp is the lowest xp
      of its level. For negative xp the truncating remainder makes the same
      hold. */
  lemma XpProgressZeroAtThreshold(xp: int)
    ensures XpProgress(xp) == 0 <==> xp == (LevelFor(xp) - 1) * LevelStep
  {
    assert xp == (xp / 100) * 100 + xp % 100;
    if xp < 0 {
      var m := -xp;
      assert m == (m / 100) * 100 + m % 100;
      if m % 100 == 0 {
        assert xp == -(m / 100) * 100;
      } else {
        assert xp == (-(m / 100) - 1) * 100 + (100 - m % 100);
      }
    }
  }

  /** A completion levels up a profile whose stored level agrees with its xp
      exactly when the reward fills the bar: progress plus reward reaches 100. */
  lemma LevelsUpIffBarFills(p: Profile, xpReward: int, coinReward: int)
    requires p.xp >= 0 && p.level == LevelFor(p.xp)
    ensures LevelsUp(p, Rewarded(p, xpReward, coinReward)) <==> XpProgress(p.xp) + xpReward >= XpForNextLevel
  {
    LevelsUpIffThresholdReached(p, xpReward, coinReward);
    ProfileDecomposes(p);
  }
}
