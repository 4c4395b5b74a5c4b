/**
 * The level rules shared by both versions: increaseDifficulty raises the level at
 * the score thresholds 1000, 2000, 3000 and 4000, adding half a pixel of fall speed
 * each time, and resetStats returns to the values a new round starts with.
 * Speed is kept as a count of half pixels, since it only moves in steps of 0.5.
 */
module Difficulty {
  import Controls

  /** playerLivesPerRound */
  const PlayerLivesPerRound: int := 2
  /** boxCount after resetStats: the boxes a new game starts with */
  const InitialBoxCount: int := 3
  /** The level increaseDifficulty cannot go beyond. */
  const MaxLevel: int := 5
  /** The fall speed a round starts with, in half pixels: speed = playerMovementSpeed = 2. */
  const InitialSpeedHalves: int := 2 * Controls.PlayerMovementSpeed

  /** The condition of increaseDifficulty, as written: one threshold per level 1 to 4. */
  predicate ShouldLevelUp(score: int, level: int)
  {
    || (score >= 1000 && level == 1)
    || (score >= 2000 && level == 2)
    || (score >= 3000 && level == 3)
    || (score >= 4000 && level == 4)
  }

  /** The four-case test is a single threshold rule: score >= 1000 * level below level 5. */
  lemma ShouldLevelUpMeans(score: int, level: int)
    ensures ShouldLevelUp(score, level) <==> 1 <= level <= 4 && score >= 1000 * level
  {
  }

  /** Whether reaching `level` by a level-up appends an extra box (createBox(2)). */
  predicate AddsBox(level: int)
  {
    level == 2 || level == 4
  }

  /** The fall speed at `level`, in half pixels: 2 + 0.5 * (level - 1) pixels. */
  function SpeedHalvesAt(level: int): (halves: int)
    ensures Speed(halves) == 2.0 + 0.5 * (level - 1) as real
  {
    InitialSpeedHalves + level - 1
  }

  /**
   * The fall speed in pixels for a count of half pixels. Its whole-pixel part
   * is half the count rounded down, and it is a whole number of pixels exactly
   * when the count is even.
   */
  function Speed(halves: int): (s: real)
    ensures 2.0 * s == halves as real
    ensures s.Floor == halves / 2
    ensures s.Floor as real == s <==> halves % 2 == 0
    ensures 0 <= halves ==> 0.0 <= s
  {
    halves as real / 2.0
  }

  /**
   * The level a player has reached after `score` frames of one round when the
   * difficulty is checked every frame: one level per thousand points, at most 5.
   */
  function LevelFor(score: int): (level: int)
    ensures 1 <= level <= MaxLevel
    ensures score >= 0 && level < MaxLevel ==> 1000 * (level - 1) <= score < 1000 * level
    ensures level == MaxLevel <==> score >= 4000
  {
    if score >= 4000 then 5
    else if score >= 3000 then 4
    else if score >= 2000 then 3
    else if score >= 1000 then 2
    else 1
  }

  /**
   * A frame adds one point and then runs increaseDifficulty once. If the level
   * matched the score before the frame, it matches it after: each threshold is
   * crossed exactly once and raises the level exactly once.
   */
  lemma DifficultyKeepsPace(score: int, level: int)
    requires score >= 0 && level == LevelFor(score)
    ensures (if ShouldLevelUp(score + 1, level) then level + 1 else level) == LevelFor(score + 1)
    ensures ShouldLevelUp(score + 1, level) <==> (score + 1) % 1000 == 0 && score + 1 <= 4000
  {
  }

  /** Repeated frames above a threshold do not raise the level again. */
  lemma NoDoubleLevelUp(score: int, level: int)
    requires score >= 0 && level == LevelFor(score)
    requires ShouldLevelUp(score + 1, level)
    ensures !ShouldLevelUp(score + 2, level + 1)
  {
  }
}
