/** Reputation-weighted stake limits: three nested floor divisions in basis points. */
module Reputation {
  import opened Arithmetic
  import opened Basics

  const BPS_SCALE: int := 10_000
  const NEW_USER_RESOLVED_THRESHOLD: nat := 10
  const MAX_VOLUME_FACTOR_BPS: int := 20_000

  datatype CreatorStats = CreatorStats(totalCreated: nat, totalResolved: nat, totalCorrect: nat)

  datatype GlobalStats = GlobalStats(totalCalls: nat, totalStakeVolume: int, totalUniqueStakers: nat)

  /** The admin's settings that bound a single user's stake. */
  datatype LimitConfig = LimitConfig(baseStakeLimit: int, reputationMultiplier: nat, maxStakePerUser: int)

  /** The result of a checked i128 operation: None stands for the Overflow panic. */
  function Checked(x: int): Option<int> {
    if FitsI128(x) then Some(x) else None
  }

  function AccuracyBps(stats: CreatorStats): int {
    stats.totalCorrect * BPS_SCALE / Max(stats.totalResolved, 1)
  }

  function VolumeFactorBps(global: GlobalStats, userVolume: int): Option<int> {
    if global.totalUniqueStakers == 0 || global.totalStakeVolume <= 0 then Some(BPS_SCALE)
    else
      var average := global.totalStakeVolume / global.totalUniqueStakers;
      if average <= 0 then Some(BPS_SCALE)
      else
        match Checked(Max(userVolume, 0) * BPS_SCALE)
        case None => None
        case Some(scaled) => Some(Min(scaled / average, MAX_VOLUME_FACTOR_BPS))
  }

  /** The limit of a user with a resolved track record. */
  function ProvenLimit(base: int, multiplier: nat, stats: CreatorStats, userVolume: int, global: GlobalStats)
    : Option<int>
  {
    match Checked(AccuracyBps(stats) * multiplier)
    case None => None
    case Some(weighted) =>
      match Checked(BPS_SCALE + weighted / BPS_SCALE)
      case None => None
      case Some(factor) =>
        match VolumeFactorBps(global, userVolume)
        case None => None
        case Some(volumeFactor) =>
          match Checked(base * factor)
          case None => None
          case Some(scaled) =>
            match Checked(scaled / BPS_SCALE * volumeFactor)
            case None => None
            case Some(product) => Some(product / BPS_SCALE)
  }

  /** The limit enforced when staking; None is an arithmetic overflow. */
  function EffectiveLimit(cfg: LimitConfig, stats: CreatorStats, userVolume: int, global: GlobalStats): Option<int> {
    var reputation :=
      if cfg.baseStakeLimit <= 0 then Some(I128_MAX)
      else if stats.totalResolved < NEW_USER_RESOLVED_THRESHOLD then Some(cfg.baseStakeLimit)
      else ProvenLimit(cfg.baseStakeLimit, cfg.reputationMultiplier, stats, userVolume, global);
    match reputation
    case None => None
    case Some(limit) => Some(if cfg.maxStakePerUser > 0 then Min(limit, cfg.maxStakePerUser) else limit)
  }

  /** The highest limit the settings allow anyone. */
  function Ceiling(cfg: LimitConfig): int {
    2 * (cfg.baseStakeLimit * (BPS_SCALE + cfg.reputationMultiplier) / BPS_SCALE)
  }

  /** Accuracy is a fraction, at most one, and a whole one exactly for a perfect record. */
  lemma AccuracyIsAFraction(stats: CreatorStats)
    requires stats.totalCorrect <= stats.totalResolved
    ensures 0 <= AccuracyBps(stats) <= BPS_SCALE
    ensures stats.totalResolved > 0 ==> (AccuracyBps(stats) == BPS_SCALE <==> stats.totalCorrect == stats.totalResolved)
  {
    var r, c := Max(stats.totalResolved, 1), stats.totalCorrect;
    MulMonotone(c, r, BPS_SCALE);
    DivAtLeast(c * BPS_SCALE, r, 0);
    DivAtLeast(c * BPS_SCALE, r, BPS_SCALE + 1);
    DivAtLeast(c * BPS_SCALE, r, BPS_SCALE);
  }

  /** The pre-volume part of the limit, as one expression. */
  function Scaled(base: int, multiplier: nat, accuracy: int): int {
    base * (BPS_SCALE + accuracy * multiplier / BPS_SCALE) / BPS_SCALE
  }

  lemma ScaledMonotone(base: int, multiplier: nat, a: int, b: int)
    requires base >= 0 && a <= b
    ensures Scaled(base, multiplier, a) <= Scaled(base, multiplier, b)
  {
    MulMonotone(a, b, multiplier);
    DivMonotone(a * multiplier, b * multiplier, BPS_SCALE);
    var fa, fb := BPS_SCALE + a * multiplier / BPS_SCALE, BPS_SCALE + b * multiplier / BPS_SCALE;
    MulMonotone(fa, fb, base);
    DivMonotone(base * fa, base * fb, BPS_SCALE);
  }

  lemma ScaledEnds(base: int, multiplier: nat)
    requires base >= 0
    ensures Scaled(base, multiplier, 0) == base
    ensures Scaled(base, multiplier, BPS_SCALE) == base * (BPS_SCALE + multiplier) / BPS_SCALE
  {
    assert BPS_SCALE * multiplier / BPS_SCALE == multiplier;
    assert base * BPS_SCALE / BPS_SCALE == base;
  }

  lemma ProvenLimitUnfolds(base: int, multiplier: nat, stats: CreatorStats, userVolume: int, global: GlobalStats)
    requires ProvenLimit(base, multiplier, stats, userVolume, global).Some?
    ensures VolumeFactorBps(global, userVolume).Some?
    ensures ProvenLimit(base, multiplier, stats, userVolume, global).value
         == Scaled(base, multiplier, AccuracyBps(stats)) * VolumeFactorBps(global, userVolume).value / BPS_SCALE
  {
  }

  /** Whoever has no more correct than resolved calls gets a limit between zero and
      the ceiling, and never above the absolute cap. */
  lemma LimitBounds(cfg: LimitConfig, stats: CreatorStats, userVolume: int, global: GlobalStats)
    requires stats.totalCorrect <= stats.totalResolved
    requires EffectiveLimit(cfg, stats, userVolume, global).Some?
    ensures var limit := EffectiveLimit(cfg, stats, userVolume, global).value;
      && 0 <= limit
      && (cfg.baseStakeLimit > 0 ==> limit <= Ceiling(cfg))
      && (cfg.maxStakePerUser > 0 ==> limit <= cfg.maxStakePerUser)
  {
    var base, m := cfg.baseStakeLimit, cfg.reputationMultiplier;
    if base > 0 {
      AccuracyIsAFraction(stats);
      ScaledEnds(base, m);
      ScaledMonotone(base, m, 0, BPS_SCALE);
      if stats.totalResolved >= NEW_USER_RESOLVED_THRESHOLD {
        ProvenLimitUnfolds(base, m, stats, userVolume, global);
        var acc := AccuracyBps(stats);
        ScaledMonotone(base, m, 0, acc);
        ScaledMonotone(base, m, acc, BPS_SCALE);
        VolumeFactorRange(global, userVolume);
        var a, v := Scaled(base, m, acc), VolumeFactorBps(global, userVolume).value;
        MulMonotone(0, v, a);
        MulMonotone(v, MAX_VOLUME_FACTOR_BPS, a);
        DivMonotone(a * v, a * MAX_VOLUME_FACTOR_BPS, BPS_SCALE);
        assert a * MAX_VOLUME_FACTOR_BPS / BPS_SCALE == 2 * a;
      }
    }
  }

  lemma VolumeFactorRange(global: GlobalStats, userVolume: int)
    requires VolumeFactorBps(global, userVolume).Some?
    ensures 0 <= VolumeFactorBps(global, userVolume).value <= MAX_VOLUME_FACTOR_BPS
  {
  }

  /** The ceiling is reached: a perfect record and twice the average volume. */
  lemma CeilingIsReached(cfg: LimitConfig, stats: CreatorStats, userVolume: int, global: GlobalStats)
    requires cfg.baseStakeLimit > 0 && cfg.maxStakePerUser <= 0
    requires NEW_USER_RESOLVED_THRESHOLD <= stats.totalResolved == stats.totalCorrect
    requires 0 < global.totalUniqueStakers <= global.totalStakeVolume
    requires userVolume >= 2 * (global.totalStakeVolume / global.totalUniqueStakers)
    requires EffectiveLimit(cfg, stats, userVolume, global).Some?
    ensures EffectiveLimit(cfg, stats, userVolume, global).value == Ceiling(cfg)
  {
    var base, m := cfg.baseStakeLimit, cfg.reputationMultiplier;
    AccuracyIsAFraction(stats);
    ScaledEnds(base, m);
    ProvenLimitUnfolds(base, m, stats, userVolume, global);
    var average := global.totalStakeVolume / global.totalUniqueStakers;
    DivMonotone(global.totalUniqueStakers, global.totalStakeVolume, global.totalUniqueStakers);
    DivExact(1, global.totalUniqueStakers);
    DivAtLeast(userVolume * BPS_SCALE, average, MAX_VOLUME_FACTOR_BPS);
    var a := Scaled(base, m, BPS_SCALE);
    assert a * MAX_VOLUME_FACTOR_BPS / BPS_SCALE == 2 * a;
  }

  /** More correct calls out of the same number never lower the limit. */
  lemma LimitMonotoneInCorrect(cfg: LimitConfig, stats: CreatorStats, more: CreatorStats, userVolume: int,
                               global: GlobalStats)
    requires stats.totalResolved == more.totalResolved && stats.totalCorrect <= more.totalCorrect
    requires EffectiveLimit(cfg, stats, userVolume, global).Some?
    requires EffectiveLimit(cfg, more, userVolume, global).Some?
    ensures EffectiveLimit(cfg, stats, userVolume, global).value <= EffectiveLimit(cfg, more, userVolume, global).value
  {
    var base, m := cfg.baseStakeLimit, cfg.reputationMultiplier;
    if base > 0 && stats.totalResolved >= NEW_USER_RESOLVED_THRESHOLD {
      ProvenLimitUnfolds(base, m, stats, userVolume, global);
      ProvenLimitUnfolds(base, m, more, userVolume, global);
      DivMonotone(stats.totalCorrect * BPS_SCALE, more.totalCorrect * BPS_SCALE, stats.totalResolved);
      ScaledMonotone(base, m, AccuracyBps(stats), AccuracyBps(more));
      VolumeFactorRange(global, userVolume);
      var v := VolumeFactorBps(global, userVolume).value;
      var x, y := Scaled(base, m, AccuracyBps(stats)), Scaled(base, m, AccuracyBps(more));
      MulMonotone(x, y, v);
      DivMonotone(x * v, y * v, BPS_SCALE);
    }
  }

  /** Of two users of one platform state with the same record, the one with more stake
      volume never has the lower limit. A stake also moves the platform's own totals; what
      it does to the limit is LimitKeptIff. */
  lemma LimitMonotoneInVolume(cfg: LimitConfig, stats: CreatorStats, volume: int, more: int, global: GlobalStats)
    requires volume <= more
    requires EffectiveLimit(cfg, stats, volume, global).Some?
    requires EffectiveLimit(cfg, stats, more, global).Some?
    ensures EffectiveLimit(cfg, stats, volume, global).value <= EffectiveLimit(cfg, stats, more, global).value
  {
    var base, m := cfg.baseStakeLimit, cfg.reputationMultiplier;
    if base > 0 && stats.totalResolved >= NEW_USER_RESOLVED_THRESHOLD {
      ProvenLimitUnfolds(base, m, stats, volume, global);
      ProvenLimitUnfolds(base, m, stats, more, global);
      if global.totalUniqueStakers != 0 && global.totalStakeVolume > 0 {
        var average := global.totalStakeVolume / global.totalUniqueStakers;
        if average > 0 {
          DivMonotone(Max(volume, 0) * BPS_SCALE, Max(more, 0) * BPS_SCALE, average);
        }
      }
      var v, w := VolumeFactorBps(global, volume).value, VolumeFactorBps(global, more).value;
      assert v <= w;
      ScaledEnds(base, m);
      ScaledMonotone(base, m, 0, AccuracyBps(stats));
      var a := Scaled(base, m, AccuracyBps(stats));
      MulMonotone(v, w, a);
      DivMonotone(a * v, a * w, BPS_SCALE);
    }
  }

  // ---- How close the limit is to the formula ----

  /** Accuracy is the share of correct calls in basis points, rounded down. */
  lemma AccuracyRounds(stats: CreatorStats)
    requires stats.totalResolved > 0
    ensures var accuracy := AccuracyBps(stats);
      accuracy * stats.totalResolved <= stats.totalCorrect * 10_000 < (accuracy + 1) * stats.totalResolved
  {
    DivBounds(stats.totalCorrect * 10_000, stats.totalResolved);
    Distribute(AccuracyBps(stats), 1, stats.totalResolved);
  }

  /** The accuracy bonus on the base limit, in the exact fraction of basis points. */
  lemma ScaledRounds(base: int, multiplier: nat, accuracy: int)
    requires base > 0 && accuracy >= 0
    ensures var exact := base * (100_000_000 + accuracy * multiplier);
      Scaled(base, multiplier, accuracy) * 100_000_000 <= exact
      < (Scaled(base, multiplier, accuracy) + 1) * 100_000_000 + base * 10_000
  {
    var bonus := accuracy * multiplier / BPS_SCALE;
    DivBounds(accuracy * multiplier, 10_000);
    DivBounds(base * (10_000 + bonus), 10_000);
    MulMonotone(bonus * 10_000, accuracy * multiplier, base);
    MulMonotone(accuracy * multiplier, bonus * 10_000 + 10_000, base);
    BonusSplits(base, bonus, accuracy * multiplier);
  }

  lemma BonusSplits(base: int, bonus: int, exact: int)
    ensures base * (100_000_000 + exact) == base * 100_000_000 + base * exact
    ensures base * (10_000 + bonus) * 10_000 == base * 100_000_000 + base * (bonus * 10_000)
    ensures base * (bonus * 10_000 + 10_000) == base * (bonus * 10_000) + base * 10_000
  {
  }

  /** The limit of a proven user before the cap is the base with its accuracy bonus, times
      the volume factor, and rounds that product down once more. */
  lemma LimitRounds(cfg: LimitConfig, stats: CreatorStats, userVolume: int, global: GlobalStats)
    requires cfg.baseStakeLimit > 0 && stats.totalResolved >= 10
    requires EffectiveLimit(cfg, stats, userVolume, global).Some?
    ensures VolumeFactorBps(global, userVolume).Some?
    ensures var limit := EffectiveLimit(cfg, stats, userVolume, global).value;
      var exact := Scaled(cfg.baseStakeLimit, cfg.reputationMultiplier, AccuracyBps(stats))
                   * VolumeFactorBps(global, userVolume).value;
      exists uncapped: int :: uncapped * 10_000 <= exact < (uncapped + 1) * 10_000
        && limit == if cfg.maxStakePerUser > 0 && cfg.maxStakePerUser < uncapped then cfg.maxStakePerUser else uncapped
  {
    ProvenLimitUnfolds(cfg.baseStakeLimit, cfg.reputationMultiplier, stats, userVolume, global);
    var exact := Scaled(cfg.baseStakeLimit, cfg.reputationMultiplier, AccuracyBps(stats))
                 * VolumeFactorBps(global, userVolume).value;
    DivBounds(exact, 10_000);
    var uncapped := exact / 10_000;
    assert uncapped * 10_000 <= exact < (uncapped + 1) * 10_000;
  }

  // ---- When volume and platform totals both change ----

  /** A volume is at least that many basis points of the platform average, or the factor is
      the neutral one while there is no average. */
  predicate VolumeReaches(global: GlobalStats, userVolume: int, factor: int) {
    if global.totalUniqueStakers == 0 || global.totalStakeVolume <= 0
       || global.totalStakeVolume / global.totalUniqueStakers <= 0
    then factor <= 10_000
    else userVolume * 10_000 >= factor * (global.totalStakeVolume / global.totalUniqueStakers)
  }

  lemma FactorReachesIff(global: GlobalStats, userVolume: int, factor: int)
    requires VolumeFactorBps(global, userVolume).Some? && userVolume >= 0 && factor <= MAX_VOLUME_FACTOR_BPS
    ensures VolumeFactorBps(global, userVolume).value >= factor <==> VolumeReaches(global, userVolume, factor)
  {
    if global.totalUniqueStakers != 0 {
      var average := global.totalStakeVolume / global.totalUniqueStakers;
      if average > 0 {
        DivAtLeast(userVolume * BPS_SCALE, average, factor);
      }
    }
  }

  /** The least volume factor that gives a scaled base limit at least this much. */
  function NeededFactor(scaled: int, limit: int): int {
    if scaled <= 0 then 0 else (limit * 10_000 + scaled - 1) / scaled
  }

  lemma NeededFactorIsLeast(scaled: int, limit: int, factor: int)
    requires scaled >= 0 && limit >= 0 && factor >= 0 && (scaled == 0 ==> limit == 0)
    ensures scaled * factor / BPS_SCALE >= limit <==> factor >= NeededFactor(scaled, limit)
  {
    DivAtLeast(scaled * factor, BPS_SCALE, limit);
    if scaled > 0 {
      DivAtLeast(limit * 10_000 + scaled - 1, scaled, factor + 1);
      Distribute(factor, 1, scaled);
    }
  }

  /** From one platform state to another, a proven user's limit is kept exactly when the new
      volume reaches the least factor that gives the old limit. */
  lemma LimitKeptIff(cfg: LimitConfig, stats: CreatorStats, volume: int, global: GlobalStats, volume': int,
                     global': GlobalStats)
    requires stats.totalCorrect <= stats.totalResolved && volume' >= 0
    requires EffectiveLimit(cfg, stats, volume, global).Some? && EffectiveLimit(cfg, stats, volume', global').Some?
    ensures var limit := EffectiveLimit(cfg, stats, volume, global).value;
      EffectiveLimit(cfg, stats, volume', global').value >= limit
      <==> || cfg.baseStakeLimit <= 0 || stats.totalResolved < NEW_USER_RESOLVED_THRESHOLD
           || VolumeReaches(global', volume',
                            NeededFactor(Scaled(cfg.baseStakeLimit, cfg.reputationMultiplier, AccuracyBps(stats)),
                                         limit))
  {
    hide VolumeFactorBps, VolumeReaches, NeededFactor, AccuracyBps, Scaled, ProvenLimit;
    var base, m := cfg.baseStakeLimit, cfg.reputationMultiplier;
    if base > 0 && stats.totalResolved >= NEW_USER_RESOLVED_THRESHOLD {
      var scaled := Scaled(base, m, AccuracyBps(stats));
      var limit := EffectiveLimit(cfg, stats, volume, global).value;
      ProvenLimitUnfolds(base, m, stats, volume, global);
      ProvenLimitUnfolds(base, m, stats, volume', global');
      var f, f' := VolumeFactorBps(global, volume).value, VolumeFactorBps(global', volume').value;
      VolumeFactorRange(global, volume);
      VolumeFactorRange(global', volume');
      AccuracyIsAFraction(stats);
      ScaledEnds(base, m);
      ScaledMonotone(base, m, 0, AccuracyBps(stats));
      LimitBounds(cfg, stats, volume, global);
      NeededFactorIsLeast(scaled, limit, f);
      NeededFactorIsLeast(scaled, limit, f');
      FactorReachesIff(global', volume', NeededFactor(scaled, limit));
    }
  }

  /** A perfect record, two stakers: staking one more unit lowers the staker's own limit
      from 20000 to 15000, because the platform average rises with it. */
  lemma OwnStakeCanLowerLimit(calls: nat, created: nat)
    ensures var cfg, stats := LimitConfig(10_000, 0, 0), CreatorStats(created, 10, 10);
      && EffectiveLimit(cfg, stats, 2, GlobalStats(calls, 3, 2)) == Some(20_000)
      && EffectiveLimit(cfg, stats, 3, GlobalStats(calls, 4, 2)) == Some(15_000)
  {
  }
}
