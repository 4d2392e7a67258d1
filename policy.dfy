/**
  The matcher's pure policy (service/matcher.go): its configuration, the group
  size of a game mode, the rating window that widens with wait time, and the
  compatibility test between two players.
*/
module Policy {
  import opened Models

  const NanosPerSecond: nat := 1_000_000_000
  /** The window widens once per slice of this many whole seconds. */
  const SliceSeconds: nat := 30
  /** The window once the wait exceeds the maximum search time. */
  const SaturatedRange: int := 1000

  /**
    Matching configuration. `maxSearchTime` is a duration in nanoseconds;
    `playersPerMatch` is carried but never read by the matcher, which asks
    GetPlayersPerMatch instead.
  */
  datatype MatcherConfig = MatcherConfig(
    maxRatingDiff: int,
    maxSearchTime: nat,
    ratingExpansionRate: int,
    playersPerMatch: int)

  /** The configuration used when none is given: 200, five minutes, +50 per slice, 6. */
  function DefaultMatcherConfig(): MatcherConfig {
    MatcherConfig(200, 5 * 60 * NanosPerSecond, 50, 6)
  }

  /** The number of players a match of `gameMode` needs: 2 for "1v1", 6 for every other mode. */
  function GetPlayersPerMatch(gameMode: string): (n: nat)
    ensures n >= 2
    ensures gameMode == "1v1" ==> n == 2
    ensures gameMode != "1v1" ==> n == 6
  {
    match gameMode
    case "1v1" => 2
    case "3v3" => 6
    case _ => 6
  }

  /** The rating half-width searched for a player who has waited `waitTime` nanoseconds. */
  function CalculateRatingRange(cfg: MatcherConfig, waitTime: nat): int {
    if waitTime > cfg.maxSearchTime then SaturatedRange
    else
      var expansionCount := (waitTime / NanosPerSecond) / SliceSeconds;
      cfg.maxRatingDiff + expansionCount * cfg.ratingExpansionRate
  }

  function Abs(x: int): nat {
    if x < 0 then -x else x
  }

  /** Same region, same game mode, and ratings at most the base `maxRatingDiff` apart. */
  predicate IsCompatible(cfg: MatcherConfig, p1: Player, p2: Player) {
    if p1.region != p2.region then false
    else if p1.gameMode != p2.gameMode then false
    else Abs(p1.rating - p2.rating) <= cfg.maxRatingDiff
  }

  /** Truncating to whole seconds and then to whole slices is truncating to whole slices of nanoseconds. */
  lemma SlicesOfWait(waitTime: nat)
    ensures (waitTime / NanosPerSecond) / SliceSeconds == waitTime / (SliceSeconds * NanosPerSecond)
  {
    var s := waitTime / NanosPerSecond;
    var k := s / SliceSeconds;
    var rest := (s % SliceSeconds) * NanosPerSecond + waitTime % NanosPerSecond;
    assert waitTime == k * (SliceSeconds * NanosPerSecond) + rest;
    assert 0 <= rest < SliceSeconds * NanosPerSecond;
  }

  /** After the maximum search time the window is exactly 1000, however long the wait. */
  lemma RatingRangeSaturates(cfg: MatcherConfig, waitTime: nat)
    requires waitTime > cfg.maxSearchTime
    ensures CalculateRatingRange(cfg, waitTime) == 1000
  {
  }

  /** Up to the maximum search time the window grows by the expansion rate per whole 30-second slice. */
  lemma RatingRangeRamp(cfg: MatcherConfig, waitTime: nat)
    requires waitTime <= cfg.maxSearchTime
    ensures CalculateRatingRange(cfg, waitTime)
         == cfg.maxRatingDiff + (waitTime / 30_000_000_000) * cfg.ratingExpansionRate
  {
    SlicesOfWait(waitTime);
  }

  /** Two waits in the same 30-second slice, both before saturation, get the same window. */
  lemma RatingRangeConstantWithinSlice(cfg: MatcherConfig, w1: nat, w2: nat)
    requires w1 <= cfg.maxSearchTime && w2 <= cfg.maxSearchTime
    requires w1 / 30_000_000_000 == w2 / 30_000_000_000
    ensures CalculateRatingRange(cfg, w1) == CalculateRatingRange(cfg, w2)
  {
    RatingRangeRamp(cfg, w1);
    RatingRangeRamp(cfg, w2);
  }

  /** With a non-negative rate the window never shrinks while the wait stays within the maximum search time. */
  lemma RatingRangeMonotone(cfg: MatcherConfig, w1: nat, w2: nat)
    requires w1 <= w2 <= cfg.maxSearchTime
    requires cfg.ratingExpansionRate >= 0
    ensures cfg.maxRatingDiff <= CalculateRatingRange(cfg, w1) <= CalculateRatingRange(cfg, w2)
  {
    var k1 := (w1 / NanosPerSecond) / SliceSeconds;
    var k2 := (w2 / NanosPerSecond) / SliceSeconds;
    assert w1 / NanosPerSecond <= w2 / NanosPerSecond;
    assert k1 <= k2;
    assert k2 * cfg.ratingExpansionRate - k1 * cfg.ratingExpansionRate
        == (k2 - k1) * cfg.ratingExpansionRate;
  }

  /** With the default configuration a wait of 61 seconds gives a window of 200 + 2 * 50 = 300. */
  lemma DefaultRangeAfter61Seconds()
    ensures CalculateRatingRange(DefaultMatcherConfig(), 61 * NanosPerSecond) == 300
  {
    RatingRangeRamp(DefaultMatcherConfig(), 61 * NanosPerSecond);
  }

  /** Compatibility is same region, same mode, and `p2` within the base difference of `p1` on either side. */
  lemma CompatibleIff(cfg: MatcherConfig, p1: Player, p2: Player)
    ensures IsCompatible(cfg, p1, p2)
        <==> p1.region == p2.region && p1.gameMode == p2.gameMode
             && p1.rating - cfg.maxRatingDiff <= p2.rating <= p1.rating + cfg.maxRatingDiff
  {
  }

  lemma CompatibleSymmetric(cfg: MatcherConfig, p1: Player, p2: Player)
    ensures IsCompatible(cfg, p1, p2) == IsCompatible(cfg, p2, p1)
  {
  }

  /** Players of different regions or game modes are never compatible, whatever their ratings. */
  lemma IncompatibleAcrossPartitions(cfg: MatcherConfig, p1: Player, p2: Player)
    requires p1.region != p2.region || p1.gameMode != p2.gameMode
    ensures !IsCompatible(cfg, p1, p2)
  {
  }

  /**
    The widened window does not widen compatibility: with the defaults, after 61
    seconds the window is 300, yet a same-partition player rated 290 higher is
    still incompatible, while one rated 200 higher is compatible.
  */
  lemma WindowDoesNotWidenCompatibility(p: Player, q: Player)
    requires p.region == q.region && p.gameMode == q.gameMode
    ensures q.rating == p.rating + 290 ==>
      q.rating <= p.rating + CalculateRatingRange(DefaultMatcherConfig(), 61 * NanosPerSecond)
      && !IsCompatible(DefaultMatcherConfig(), p, q)
    ensures q.rating == p.rating + 200 ==> IsCompatible(DefaultMatcherConfig(), p, q)
  {
    DefaultRangeAfter61Seconds();
  }
}
