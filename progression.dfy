/** The profile row of the `profiles` table, as the hooks read and write it. */
module Profiles {
  import opened Common

  datatype Profile = Profile(
    id: UserId,
    username: string,
    xp: int,
    level: int,
    coins: int,
    currentStreak: int,
    longestStreak: int,
    lastQuestDate: Option<Date>)
}

/** The progression rules applied when a quest is completed: rewards add to
    xp and coins, the level is recomputed from xp in steps of 100, and a level
    up is announced when the new level exceeds the stored one. */
module Progression {
  import opened Profiles

  /** XP per level; the profile header's bar uses the same number. */
  const LevelStep: int := 100

  /** `Math.floor(xp / 100) + 1`. With a positive divisor Dafny's `/` rounds
      toward negative infinity exactly as `Math.floor` does, so this holds for
      every integer xp. The level is the unique one whose band holds xp. */
  function LevelFor(xp: int): (level: int)
    ensures (level - 1) * LevelStep <= xp < level * LevelStep
    ensures xp >= 0 ==> level >= 1
  {
    xp / LevelStep + 1
  }

  /** The level is above `level` exactly when xp has reached the top of
      that level's band. */
  lemma LevelForExceeds(level: int, xp: int)
    ensures LevelFor(xp) > level <==> xp >= level * LevelStep
  {
    var l := LevelFor(xp);
    if l > level {
      assert (l - 1) * LevelStep >= level * LevelStep;
    }
    if xp >= level * LevelStep {
      assert level * LevelStep < l * LevelStep;
    }
  }

  /** The profile as written after a successful completion: xp and coins grow
      by exactly the rewards, the level agrees with the new xp, and every
      other field is untouched. */
  function Rewarded(p: Profile, xpReward: int, coinReward: int): (r: Profile)
    ensures r.xp - p.xp == xpReward && r.coins - p.coins == coinReward
    ensures (r.level - 1) * LevelStep <= r.xp < r.level * LevelStep
    ensures r.id == p.id && r.username == p.username && r.currentStreak == p.currentStreak
      && r.longestStreak == p.longestStreak && r.lastQuestDate == p.lastQuestDate
  {
    var newXp := p.xp + xpReward;
    p.(xp := newXp, level := LevelFor(newXp), coins := p.coins + coinReward)
  }

  /** A raised level is announced only when it exceeds the stored level; for
      an updated level that agrees with the updated xp, that is exactly when
      the updated xp has reached the stored level times 100. */
  predicate LevelsUp(stored: Profile, updated: Profile): (b: bool)
    ensures updated.level == LevelFor(updated.xp) ==> (b <==> updated.xp >= stored.level * LevelStep)
  {
    LevelForExceeds(stored.level, updated.xp);
    updated.level > stored.level
  }

  /** Levels never go down as xp grows. */
  lemma LevelForMonotone(a: int, b: int)
    requires a <= b
    ensures LevelFor(a) <= LevelFor(b)
  {
    var la, lb := LevelFor(a), LevelFor(b);
    assert (la - 1) * LevelStep < lb * LevelStep;
  }

  /** The stored level plays no part in the written profile. */
  lemma RewardedIgnoresStoredLevel(p: Profile, storedLevel: int, xpReward: int, coinReward: int)
    ensures Rewarded(p.(level := storedLevel), xpReward, coinReward) == Rewarded(p, xpReward, coinReward)
  {
  }

  /** With non-negative rewards xp, coins and the level computed from xp never
      decrease, whatever level was stored. */
  lemma RewardedMonotone(p: Profile, xpReward: int, coinReward: int)
    requires xpReward >= 0 && coinReward >= 0
    ensures var q := Rewarded(p, xpReward, coinReward);
      q.xp >= p.xp && q.coins >= p.coins && q.level >= LevelFor(p.xp)
  {
    LevelForMonotone(p.xp, p.xp + xpReward);
  }

  /** Two completions in a row are one completion with the summed rewards. */
  lemma RewardsAccumulate(p: Profile, x1: int, c1: int, x2: int, c2: int)
    ensures Rewarded(Rewarded(p, x1, c1), x2, c2) == Rewarded(p, x1 + x2, c1 + c2)
  {
  }

  /** A completion levels up exactly when the new xp reaches the stored
      level times 100; for a stored level that agrees with the stored xp, that
      is the next multiple of 100. */
  lemma LevelsUpIffThresholdReached(p: Profile, xpReward: int, coinReward: int)
    ensures LevelsUp(p, Rewarded(p, xpReward, coinReward)) <==> p.xp + xpReward >= p.level * LevelStep
  {
    LevelForExceeds(p.level, p.xp + xpReward);
  }
}
