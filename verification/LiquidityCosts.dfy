/**
 * Filling target weights subject to a share of traded volume, what trading costs, and how fills shrink with size.
 *
 * A position's target in money is its weight times the account; at most a fixed share of the day's traded
 * volume may be filled.  Costs charge half the spread of the volume's tier on every change of position.  The
 * capacity curve repeats this for a grid of account sizes.
 */
module LiquidityCosts {
  import opened Wrappers
  import opened RealAlgebra
  import opened Sums

  /** From this much volume on, trading costs this spread. */
  datatype Tier = Tier(threshold: real, spread: real)

  datatype Config = Config(aum: real, participationCap: real, tiers: seq<Tier>)

  ghost predicate Sane(config: Config) { config.aum >= 0.0 && config.participationCap >= 0.0 }

  // ----- one position

  function Least(a: real, b: real): real { if a < b then a else b }

  function TargetDollars(w: real, config: Config): real { Times(Magnitude(w), config.aum) }

  /** The most that may be traded; missing or negative volume allows nothing. */
  function MaxDollars(volume: Option<real>, config: Config): real {
    Times(if volume.Some? && volume.value > 0.0 then volume.value else 0.0, config.participationCap)
  }

  function FillRatio(w: real, volume: Option<real>, config: Config): real {
    var target := TargetDollars(w, config);
    if target == 0.0 then 1.0 else Least(Ratio(MaxDollars(volume, config), target), 1.0)
  }

  function Filled(w: real, volume: Option<real>, config: Config): real { Times(w, FillRatio(w, volume, config)) }

  lemma RatioTimes(m: real, target: real)
    requires m >= 0.0 && target > 0.0
    ensures var ratio := Least(Ratio(m, target), 1.0);
      0.0 <= ratio <= 1.0 && Times(target, ratio) == Least(m, target) && (m >= target <==> ratio == 1.0)
  {
    RatioUndone(m, target);
    RatioSign(m, target);
    var q := Ratio(m, target);
    assert target * q == m;
    if m < target { RatioBelowOne(m, target, q); } else { RatioAtLeastOne(m, target, q); }
  }

  lemma RatioBelowOne(m: real, target: real, q: real)
    requires target > 0.0 && target * q == m && m < target
    ensures q < 1.0
  {
    if q >= 1.0 { MultiplyInequality(1.0, q, target); }
  }

  lemma RatioAtLeastOne(m: real, target: real, q: real)
    requires target > 0.0 && target * q == m && m >= target
    ensures q >= 1.0
  {
    if q < 1.0 { PositiveProduct(target, 1.0 - q, target - m); }
  }

  lemma LimitsAreNonnegative(w: real, volume: Option<real>, config: Config)
    requires Sane(config)
    ensures TargetDollars(w, config) >= 0.0 && MaxDollars(volume, config) >= 0.0
  {
    NonnegativeProduct(Magnitude(w), config.aum);
    NonnegativeProduct(if volume.Some? && volume.value > 0.0 then volume.value else 0.0, config.participationCap);
  }

  lemma FillRatioIsAShare(w: real, volume: Option<real>, config: Config)
    requires Sane(config)
    ensures 0.0 <= FillRatio(w, volume, config) <= 1.0
    ensures FillRatio(w, volume, config) == 1.0 <==>
              TargetDollars(w, config) <= MaxDollars(volume, config)
  {
    LimitsAreNonnegative(w, volume, config);
    var target, most := TargetDollars(w, config), MaxDollars(volume, config);
    if target > 0.0 { RatioTimes(most, target); }
  }

  lemma ScaledMagnitude(w: real, ratio: real)
    requires ratio >= 0.0
    ensures Magnitude(Times(w, ratio)) == Times(Magnitude(w), ratio)
    ensures ratio <= 1.0 ==> Magnitude(Times(w, ratio)) <= Magnitude(w)
    ensures w >= 0.0 ==> Times(w, ratio) >= 0.0
    ensures w <= 0.0 ==> Times(w, ratio) <= 0.0
  {
    NonnegativeProduct(Magnitude(w), ratio);
    if ratio <= 1.0 { MultiplyInequality(ratio, 1.0, Magnitude(w)); }
  }

  /** Filling keeps the side, never exceeds the target, and puts in play exactly what target and volume allow. */
  lemma FilledIsCapped(w: real, volume: Option<real>, config: Config)
    requires Sane(config)
    ensures var actual := Filled(w, volume, config);
      && Magnitude(actual) <= Magnitude(w)
      && (w >= 0.0 ==> actual >= 0.0) && (w <= 0.0 ==> actual <= 0.0)
      && Times(Magnitude(actual), config.aum) == Least(MaxDollars(volume, config), TargetDollars(w, config))
    ensures match volume
      case None => MaxDollars(volume, config) == 0.0
      case Some(v) => if v >= 0.0 then MaxDollars(volume, config) == Times(v, config.participationCap)
                      else MaxDollars(volume, config) == 0.0
  {
    LimitsAreNonnegative(w, volume, config);
    FillRatioIsAShare(w, volume, config);
    var ratio, target := FillRatio(w, volume, config), TargetDollars(w, config);
    ScaledMagnitude(w, ratio);
    assert Times(Times(Magnitude(w), ratio), config.aum) == Times(target, ratio);
    if target > 0.0 { RatioTimes(MaxDollars(volume, config), target); }
  }

  /** Nothing is cut exactly where the target fits within the participation cap. */
  lemma UncappedIsUnchanged(w: real, volume: Option<real>, config: Config)
    requires Sane(config) && TargetDollars(w, config) <= MaxDollars(volume, config)
    ensures Filled(w, volume, config) == w
  {
    FillRatioIsAShare(w, volume, config);
    TimesUnits(w);
  }

  lemma RatioShrinks(m: real, small: real, large: real)
    requires m >= 0.0 && 0.0 < small <= large
    ensures Least(Ratio(m, large), 1.0) <= Least(Ratio(m, small), 1.0)
  {
    var p, q := Ratio(m, small), Ratio(m, large);
    RatioUndone(m, small);
    RatioUndone(m, large);
    RatioSign(m, large);
    assert small * p == m && large * q == m;
    if q > p {
      MultiplyInequality(small, large, q);
      PositiveProduct(small, q - p, small * q - m);
    }
  }

  lemma LimitsOfLarger(w: real, volume: Option<real>, config: Config, larger: real)
    requires Sane(config) && config.aum <= larger
    ensures TargetDollars(w, config) <= TargetDollars(w, config.(aum := larger))
    ensures MaxDollars(volume, config.(aum := larger)) == MaxDollars(volume, config)
  {
    MultiplyInequality(config.aum, larger, Magnitude(w));
    TimesCommutes(Magnitude(w), config.aum);
    TimesCommutes(Magnitude(w), larger);
  }

  /** A larger account fills no greater share of any position. */
  lemma ShareShrinksWithSize(w: real, volume: Option<real>, config: Config, larger: real)
    requires Sane(config) && config.aum <= larger
    ensures FillRatio(w, volume, config.(aum := larger)) <= FillRatio(w, volume, config)
  {
    var grown := config.(aum := larger);
    LimitsOfLarger(w, volume, config, larger);
    LimitsAreNonnegative(w, volume, config);
    FillRatioIsAShare(w, volume, grown);
    if TargetDollars(w, config) > 0.0 {
      RatioShrinks(MaxDollars(volume, config), TargetDollars(w, config), TargetDollars(w, grown));
    }
  }

  lemma FilledShrinksWithSize(w: real, volume: Option<real>, config: Config, larger: real)
    requires Sane(config) && config.aum <= larger
    ensures Magnitude(Filled(w, volume, config.(aum := larger))) <= Magnitude(Filled(w, volume, config))
  {
    var less, more := FillRatio(w, volume, config.(aum := larger)), FillRatio(w, volume, config);
    ShareShrinksWithSize(w, volume, config, larger);
    FillRatioIsAShare(w, volume, config);
    FillRatioIsAShare(w, volume, config.(aum := larger));
    ScaledMagnitude(w, less);
    ScaledMagnitude(w, more);
    MultiplyInequality(less, more, Magnitude(w));
  }

  // ----- spreads by tier

  /** The tier with the greatest threshold reached by the volume; of equal ones the first. */
  function BestTier(tiers: seq<Tier>, volume: Option<real>): (best: Option<Tier>)
    ensures best.Some? ==> volume.Some? && best.value in tiers && best.value.threshold <= volume.value
  {
    if |tiers| == 0 then None
    else
      var before, tier := BestTier(tiers[..|tiers| - 1], volume), tiers[|tiers| - 1];
      if Reached(tier, volume) && (before.None? || before.value.threshold < tier.threshold)
      then Some(tier)
      else before
  }

  /** The i-th tier is reached, none reached is greater, and none reached before it is as great. */
  ghost predicate IsGreatestReached(tiers: seq<Tier>, volume: Option<real>, i: nat)
    requires i < |tiers|
  {
    && Reached(tiers[i], volume)
    && forall j :: 0 <= j < |tiers| && Reached(tiers[j], volume) ==>
         tiers[j].threshold <= tiers[i].threshold && (j < i ==> tiers[j].threshold < tiers[i].threshold)
  }

  lemma {:induction false} BestTierIsGreatest(tiers: seq<Tier>, volume: Option<real>)
    ensures match BestTier(tiers, volume)
            case None => forall j :: 0 <= j < |tiers| ==> !Reached(tiers[j], volume)
            case Some(best) => exists i: nat :: i < |tiers| && tiers[i] == best && IsGreatestReached(tiers, volume, i)
  {
    if |tiers| > 0 {
      var n := |tiers| - 1;
      BestTierIsGreatest(tiers[..n], volume);
      var before, tier := BestTier(tiers[..n], volume), tiers[n];
      if before.None? {
        forall j | 0 <= j < n ensures !Reached(tiers[j], volume) { assert !Reached(tiers[..n][j], volume); }
        if Reached(tier, volume) { assert IsGreatestReached(tiers, volume, n); }
      } else {
        var i: nat :| i < n && tiers[..n][i] == before.value && IsGreatestReached(tiers[..n], volume, i);
        forall j | 0 <= j < n && Reached(tiers[j], volume)
          ensures tiers[j].threshold <= tiers[i].threshold && (j < i ==> tiers[j].threshold < tiers[i].threshold)
        {
          assert Reached(tiers[..n][j], volume);
        }
        assert IsGreatestReached(tiers, volume, if BestTier(tiers, volume) == before then i else n);
      }
    }
  }

  /** Volume that reaches no tier, or is unknown, costs what the last tier listed costs. */
  function Spread(tiers: seq<Tier>, volume: Option<real>): real {
    var best := BestTier(tiers, volume);
    if best.Some? then best.value.spread else if |tiers| > 0 then tiers[|tiers| - 1].spread else 0.0
  }

  /** tier goes after everything with at least its threshold. */
  function Placed(sorted: seq<Tier>, tier: Tier): seq<Tier> {
    if |sorted| == 0 || sorted[0].threshold < tier.threshold then [tier] + sorted
    else [sorted[0]] + Placed(sorted[1..], tier)
  }

  /** sorted(tiers, key=threshold, reverse=True), which keeps the order of equal thresholds. */
  function Descending(tiers: seq<Tier>): seq<Tier> {
    if |tiers| == 0 then [] else Placed(Descending(tiers[..|tiers| - 1]), tiers[|tiers| - 1])
  }

  predicate Reached(tier: Tier, volume: Option<real>) { volume.Some? && volume.value >= tier.threshold }

  /** The first tier of a list that the volume reaches. */
  function FirstReached(tiers: seq<Tier>, volume: Option<real>): Option<Tier> {
    if |tiers| == 0 then None
    else if Reached(tiers[0], volume) then Some(tiers[0])
    else FirstReached(tiers[1..], volume)
  }

  ghost predicate IsDescending(tiers: seq<Tier>) {
    forall i, j :: 0 <= i < j < |tiers| ==> tiers[i].threshold >= tiers[j].threshold
  }

  lemma {:induction false} PlacedIsDescending(sorted: seq<Tier>, tier: Tier)
    requires IsDescending(sorted)
    ensures IsDescending(Placed(sorted, tier))
    ensures forall x :: x in Placed(sorted, tier) ==> x in sorted || x == tier
  {
    if |sorted| != 0 && sorted[0].threshold >= tier.threshold {
      PlacedIsDescending(sorted[1..], tier);
      forall x | x in Placed(sorted[1..], tier) ensures sorted[0].threshold >= x.threshold {
        if x in sorted[1..] {
          var i :| 0 <= i < |sorted[1..]| && sorted[1..][i] == x;
          assert sorted[0].threshold >= sorted[i + 1].threshold;
        }
      }
    }
  }

  lemma {:induction false} FirstReachedIsBelowHead(sorted: seq<Tier>, volume: Option<real>)
    requires IsDescending(sorted) && FirstReached(sorted, volume).Some?
    ensures FirstReached(sorted, volume).value.threshold <= sorted[0].threshold
  {
    if !Reached(sorted[0], volume) { FirstReachedIsBelowHead(sorted[1..], volume); }
  }

  /** Placing a tier changes which tier is reached first only when it beats all that were reached. */
  lemma {:induction false} FirstReachedAfterPlacing(sorted: seq<Tier>, tier: Tier, volume: Option<real>)
    requires IsDescending(sorted)
    ensures var before := FirstReached(sorted, volume);
      FirstReached(Placed(sorted, tier), volume) ==
        if Reached(tier, volume) && (before.None? || before.value.threshold < tier.threshold)
        then Some(tier) else before
  {
    if FirstReached(sorted, volume).Some? { FirstReachedIsBelowHead(sorted, volume); }
    if |sorted| == 0 || sorted[0].threshold < tier.threshold {
      assert ([tier] + sorted)[1..] == sorted;
    } else {
      FirstReachedAfterPlacing(sorted[1..], tier, volume);
      assert ([sorted[0]] + Placed(sorted[1..], tier))[1..] == Placed(sorted[1..], tier);
    }
  }

  /** Sorting and taking the first tier reached finds the best tier. */
  lemma {:induction false} DescendingFindsBest(tiers: seq<Tier>, volume: Option<real>)
    ensures IsDescending(Descending(tiers)) && FirstReached(Descending(tiers), volume) == BestTier(tiers, volume)
  {
    if |tiers| != 0 {
      DescendingFindsBest(tiers[..|tiers| - 1], volume);
      PlacedIsDescending(Descending(tiers[..|tiers| - 1]), tiers[|tiers| - 1]);
      FirstReachedAfterPlacing(Descending(tiers[..|tiers| - 1]), tiers[|tiers| - 1], volume);
    }
  }

  method SpreadBps(volume: Option<real>, tiers: seq<Tier>) returns (bps: real)
    ensures bps == Spread(tiers, volume)
  {
    var sorted := Descending(tiers);
    DescendingFindsBest(tiers, volume);
    for i := 0 to |sorted|
      invariant FirstReached(sorted, volume) == FirstReached(sorted[i..], volume)
    {
      assert sorted[i..][1..] == sorted[i + 1..];
      if Reached(sorted[i], volume) { return sorted[i].spread; }
    }
    return if |tiers| > 0 then tiers[|tiers| - 1].spread else 0.0;
  }

  // ----- whole frames

  /** One row of dollar volumes per row of weights, one entry per symbol. */
  ghost predicate SameShape(weights: seq<seq<real>>, volumes: seq<seq<Option<real>>>) {
    |weights| == |volumes| && forall t :: 0 <= t < |weights| ==> |weights[t]| == |volumes[t]|
  }

  function FilledRow(w: seq<real>, volume: seq<Option<real>>, config: Config): (row: seq<real>)
    requires |w| == |volume|
    ensures |row| == |w| && forall i :: 0 <= i < |w| ==> row[i] == Filled(w[i], volume[i], config)
  {
    seq(|w|, i requires 0 <= i < |w| => Filled(w[i], volume[i], config))
  }

  function ActualWeights(weights: seq<seq<real>>, volumes: seq<seq<Option<real>>>,
    config: Config): (actual: seq<seq<real>>)
    requires SameShape(weights, volumes)
    ensures |actual| == |weights|
    ensures forall t :: 0 <= t < |weights| ==> actual[t] == FilledRow(weights[t], volumes[t], config)
  {
    seq(|weights|, t requires 0 <= t < |weights| => FilledRow(weights[t], volumes[t], config))
  }

  /** What trading from one row of positions to the next costs, at half the spread. */
  function TradeCost(before: seq<real>, after: seq<real>, volume: seq<Option<real>>, tiers: seq<Tier>): int -> real {
    i => Times(Magnitude(Entries(after)(i) - Entries(before)(i)), HalfSpread(volume, tiers, i))
  }

  function HalfSpread(volume: seq<Option<real>>, tiers: seq<Tier>, i: int): real {
    Spread(tiers, if 0 <= i < |volume| then volume[i] else None) / 2.0 / 10000.0
  }

  lemma TradeCostAt(before: seq<real>, after: seq<real>, volume: seq<Option<real>>, tiers: seq<Tier>, i: int)
    requires forall tier :: tier in tiers ==> tier.spread >= 0.0
    ensures TradeCost(before, after, volume, tiers)(i) >= 0.0
    ensures before == after ==> TradeCost(before, after, volume, tiers)(i) == 0.0
  {
    var change, half := Magnitude(Entries(after)(i) - Entries(before)(i)), HalfSpread(volume, tiers, i);
    assert half >= 0.0;
    NonnegativeProduct(change, half);
  }

  /** The first row is bought from nothing. */
  function Costs(actual: seq<seq<real>>, volumes: seq<seq<Option<real>>>, tiers: seq<Tier>): (costs: seq<real>)
    requires SameShape(actual, volumes)
    ensures |costs| == |actual|
    ensures forall t :: 0 <= t < |actual| ==> costs[t] == RowCost(Before(actual, t), actual[t], volumes[t], tiers)
  {
    seq(|actual|, t requires 0 <= t < |actual| => RowCost(Before(actual, t), actual[t], volumes[t], tiers))
  }

  function Before(actual: seq<seq<real>>, t: nat): seq<real>
    requires t < |actual|
  {
    if t == 0 then [] else actual[t - 1]
  }

  function RowCost(before: seq<real>, after: seq<real>, volume: seq<Option<real>>, tiers: seq<Tier>): real {
    Sum(TradeCost(before, after, volume, tiers), |after|)
  }

  lemma RowCostIsNonnegative(before: seq<real>, after: seq<real>, volume: seq<Option<real>>, tiers: seq<Tier>)
    requires forall tier :: tier in tiers ==> tier.spread >= 0.0
    ensures RowCost(before, after, volume, tiers) >= 0.0
    ensures before == after ==> RowCost(before, after, volume, tiers) == 0.0
  {
    var cost, n := TradeCost(before, after, volume, tiers), |after|;
    forall i | 0 <= i < n ensures cost(i) >= 0.0 && (before == after ==> cost(i) == 0.0) {
      TradeCostAt(before, after, volume, tiers, i);
    }
    SumNonnegative(cost, n);
    if before == after { SumZero(cost, n); }
  }

  lemma CostsAreNonnegative(actual: seq<seq<real>>, volumes: seq<seq<Option<real>>>, tiers: seq<Tier>, t: nat)
    requires SameShape(actual, volumes) && t < |actual|
    requires forall tier :: tier in tiers ==> tier.spread >= 0.0
    ensures Costs(actual, volumes, tiers)[t] >= 0.0
    ensures t > 0 && actual[t] == actual[t - 1] ==> Costs(actual, volumes, tiers)[t] == 0.0
  {
    RowCostIsNonnegative(Before(actual, t), actual[t], volumes[t], tiers);
  }

  // ----- costs in money

  /** What the account holds in symbol i after row t; nothing before the first row. */
  function Holding(actual: seq<seq<real>>, aum: real, t: int, i: int): real {
    if 0 <= t < |actual| then Times(aum, Entries(actual[t])(i)) else 0.0
  }

  /** The money that row t moves in symbol i, bought or sold. */
  function DollarsTraded(actual: seq<seq<real>>, aum: real, t: int, i: int): real {
    Magnitude(Holding(actual, aum, t, i) - Holding(actual, aum, t - 1, i))
  }

  /** Half the symbol's spread, in basis points, on the money traded in it. */
  function DollarCost(actual: seq<seq<real>>, volumes: seq<seq<Option<real>>>, tiers: seq<Tier>, aum: real,
    t: int): int -> real
  {
    i => if 0 <= t < |volumes| && 0 <= i < |volumes[t]|
         then Times(Spread(tiers, volumes[t][i]) / 20000.0, DollarsTraded(actual, aum, t, i)) else 0.0
  }

  lemma ScaledChange(aum: real, after: real, before: real, half: real)
    requires aum >= 0.0
    ensures Times(aum, Times(Magnitude(after - before), half))
         == Times(half, Magnitude(Times(aum, after) - Times(aum, before)))
  {
    var change := after - before;
    assert Times(aum, after) - Times(aum, before) == Times(aum, change);
    TimesCommutes(aum, change);
    ScaledMagnitude(change, aum);
    Associate(aum, Magnitude(change), half);
    TimesCommutes(Times(Magnitude(change), aum), half);
    TimesCommutes(aum, Magnitude(change));
  }

  /** In money, a row costs half each symbol's spread on what is traded in it, the first row being bought from
    * nothing. */
  lemma CostsInMoney(actual: seq<seq<real>>, volumes: seq<seq<Option<real>>>, tiers: seq<Tier>, aum: real, t: nat)
    requires SameShape(actual, volumes) && t < |actual| && aum >= 0.0
    ensures Times(aum, Costs(actual, volumes, tiers)[t])
         == Sum(DollarCost(actual, volumes, tiers, aum, t), |actual[t]|)
  {
    var before, after, volume := Before(actual, t), actual[t], volumes[t];
    var cost := TradeCost(before, after, volume, tiers);
    forall i | 0 <= i < |after| ensures DollarCost(actual, volumes, tiers, aum, t)(i) == Times(aum, cost(i)) {
      TradeInMoney(actual, volumes, tiers, aum, t, i);
    }
    SumScale(cost, DollarCost(actual, volumes, tiers, aum, t), aum, |after|);
  }

  function RowCosts(actual: seq<seq<real>>, volumes: seq<seq<Option<real>>>, tiers: seq<Tier>, aum: real): int -> real
  {
    t => if 0 <= t < |actual| then Sum(DollarCost(actual, volumes, tiers, aum, t), |actual[t]|) else 0.0
  }

  lemma TotalCostInMoney(actual: seq<seq<real>>, volumes: seq<seq<Option<real>>>, tiers: seq<Tier>, aum: real)
    requires SameShape(actual, volumes) && aum >= 0.0
    ensures Times(aum, Total(Costs(actual, volumes, tiers))) == Sum(RowCosts(actual, volumes, tiers, aum), |actual|)
  {
    var costs, inMoney := Costs(actual, volumes, tiers), RowCosts(actual, volumes, tiers, aum);
    forall t | 0 <= t < |actual| ensures inMoney(t) == Times(aum, Entries(costs)(t)) {
      CostsInMoney(actual, volumes, tiers, aum, t);
    }
    SumScale(Entries(costs), inMoney, aum, |actual|);
  }

  lemma TradeInMoney(actual: seq<seq<real>>, volumes: seq<seq<Option<real>>>, tiers: seq<Tier>, aum: real, t: nat,
    i: nat)
    requires SameShape(actual, volumes) && t < |actual| && i < |actual[t]| && aum >= 0.0
    ensures DollarCost(actual, volumes, tiers, aum, t)(i)
         == Times(aum, TradeCost(Before(actual, t), actual[t], volumes[t], tiers)(i))
  {
    var x, y := Entries(actual[t])(i), Entries(Before(actual, t))(i);
    var half := HalfSpread(volumes[t], tiers, i);
    assert half == Spread(tiers, volumes[t][i]) / 20000.0;
    assert Holding(actual, aum, t, i) == Times(aum, x);
    assert Holding(actual, aum, t - 1, i) == Times(aum, y) by { TimesUnits(aum); }
    ScaledChange(aum, x, y, half);
    assert TradeCost(Before(actual, t), actual[t], volumes[t], tiers)(i) == Times(Magnitude(x - y), half);
  }

  function Sizes(w: seq<real>): int -> real { i => Magnitude(Entries(w)(i)) }

  lemma SizeAt(w: seq<real>, i: nat)
    requires i < |w|
    ensures Sizes(w)(i) == Magnitude(w[i]) && Sizes(w)(i) >= 0.0
  {
    assert Entries(w)(i) == w[i];
  }

  function GrossExposure(w: seq<real>): real { Sum(Sizes(w), |w|) }

  /** The share of a row's exposure that was filled; a row without exposure counts as full. */
  function RowFill(w: seq<real>, volume: seq<Option<real>>, config: Config): real
    requires |w| == |volume|
  {
    var base := GrossExposure(w);
    if base == 0.0 then 1.0 else Least(Ratio(GrossExposure(FilledRow(w, volume, config)), base), 1.0)
  }

  lemma ExposureIsNonnegative(w: seq<real>)
    ensures GrossExposure(w) >= 0.0
  {
    forall i | 0 <= i < |w| ensures Sizes(w)(i) >= 0.0 { SizeAt(w, i); }
    SumNonnegative(Sizes(w), |w|);
  }

  lemma FilledSize(w: seq<real>, volume: seq<Option<real>>, config: Config, i: nat)
    requires |w| == |volume| && Sane(config) && i < |w|
    ensures Sizes(FilledRow(w, volume, config))(i) <= Sizes(w)(i)
  {
    SizeAt(w, i);
    SizeAt(FilledRow(w, volume, config), i);
    FilledIsCapped(w[i], volume[i], config);
  }

  lemma FilledExposure(w: seq<real>, volume: seq<Option<real>>, config: Config)
    requires |w| == |volume| && Sane(config)
    ensures 0.0 <= GrossExposure(FilledRow(w, volume, config)) <= GrossExposure(w)
  {
    var row := FilledRow(w, volume, config);
    ExposureIsNonnegative(row);
    forall i | 0 <= i < |w| ensures Sizes(row)(i) <= Sizes(w)(i) { FilledSize(w, volume, config, i); }
    SumMonotone(Sizes(row), Sizes(w), |w|);
  }

  /** No position of the row is larger than its participation cap allows. */
  ghost predicate NothingCapped(w: seq<real>, volume: seq<Option<real>>, config: Config)
    requires |w| == |volume|
  {
    forall i :: 0 <= i < |w| ==> TargetDollars(w[i], config) <= MaxDollars(volume[i], config)
  }

  lemma UncappedRowIsUnchanged(w: seq<real>, volume: seq<Option<real>>, config: Config)
    requires |w| == |volume| && Sane(config) && NothingCapped(w, volume, config)
    ensures FilledRow(w, volume, config) == w
  {
    forall i | 0 <= i < |w| ensures FilledRow(w, volume, config)[i] == w[i] {
      UncappedIsUnchanged(w[i], volume[i], config);
    }
  }

  lemma RowFillIsAShare(w: seq<real>, volume: seq<Option<real>>, config: Config)
    requires |w| == |volume| && Sane(config)
    ensures 0.0 <= RowFill(w, volume, config) <= 1.0
    ensures Times(GrossExposure(w), RowFill(w, volume, config)) == GrossExposure(FilledRow(w, volume, config))
  {
    FilledExposure(w, volume, config);
    ExposureIsNonnegative(w);
    var base, filled := GrossExposure(w), GrossExposure(FilledRow(w, volume, config));
    if base > 0.0 { RatioTimes(filled, base); }
  }

  lemma ExposureShrinks(w: seq<real>, volume: seq<Option<real>>, config: Config, larger: real)
    requires |w| == |volume| && Sane(config) && config.aum <= larger
    ensures GrossExposure(FilledRow(w, volume, config.(aum := larger))) <= GrossExposure(FilledRow(w, volume, config))
  {
    var small, large := FilledRow(w, volume, config), FilledRow(w, volume, config.(aum := larger));
    forall i | 0 <= i < |w| ensures Sizes(large)(i) <= Sizes(small)(i) {
      SizeAt(small, i);
      SizeAt(large, i);
      FilledShrinksWithSize(w[i], volume[i], config, larger);
    }
    SumMonotone(Sizes(large), Sizes(small), |w|);
  }

  lemma RowFillShrinks(w: seq<real>, volume: seq<Option<real>>, config: Config, larger: real)
    requires |w| == |volume| && Sane(config) && config.aum <= larger
    ensures RowFill(w, volume, config.(aum := larger)) <= RowFill(w, volume, config)
  {
    var small, large := FilledRow(w, volume, config), FilledRow(w, volume, config.(aum := larger));
    ExposureShrinks(w, volume, config, larger);
    ExposureIsNonnegative(w);
    if GrossExposure(w) > 0.0 { RatioMonotone(GrossExposure(large), GrossExposure(small), GrossExposure(w)); }
  }

  lemma RatioMonotone(a: real, b: real, base: real)
    requires a <= b && base > 0.0
    ensures Ratio(a, base) <= Ratio(b, base)
  {
    RatioSign(b - a, base);
    assert Ratio(b, base) == Ratio(a, base) + Ratio(b - a, base);
  }

  /** The fill is complete exactly when no cap binds. */
  lemma RowFillIsFullIff(w: seq<real>, volume: seq<Option<real>>, config: Config)
    requires |w| == |volume| && Sane(config)
    ensures RowFill(w, volume, config) == 1.0 <==> NothingCapped(w, volume, config)
  {
    var row, n := FilledRow(w, volume, config), |w|;
    FilledExposure(w, volume, config);
    if NothingCapped(w, volume, config) { UncappedRowIsUnchanged(w, volume, config); }
    if GrossExposure(w) > 0.0 { RatioTimes(GrossExposure(row), GrossExposure(w)); }
    if RowFill(w, volume, config) == 1.0 {
      forall i | 0 <= i < n ensures TargetDollars(w[i], config) <= MaxDollars(volume[i], config) {
        FullRowIsUncapped(w, volume, config, i);
      }
    }
  }

  lemma FullPositionIsUncapped(w: real, volume: Option<real>, config: Config)
    requires Sane(config) && Magnitude(Filled(w, volume, config)) >= Magnitude(w)
    ensures TargetDollars(w, config) <= MaxDollars(volume, config)
  {
    FilledIsCapped(w, volume, config);
    assert Magnitude(Filled(w, volume, config)) == Magnitude(w);
  }

  function Shortfall(w: seq<real>, row: seq<real>): int -> real { i => Sizes(w)(i) - Sizes(row)(i) }

  lemma FullRowIsUncapped(w: seq<real>, volume: seq<Option<real>>, config: Config, i: nat)
    requires |w| == |volume| && Sane(config) && i < |w|
    requires GrossExposure(w) <= GrossExposure(FilledRow(w, volume, config))
    ensures TargetDollars(w[i], config) <= MaxDollars(volume[i], config)
  {
    var row, n := FilledRow(w, volume, config), |w|;
    forall j | 0 <= j < n ensures Shortfall(w, row)(j) >= 0.0 { FilledSize(w, volume, config, j); }
    forall j | 0 <= j < n ensures Shortfall(w, row)(j) == 1.0 * Sizes(w)(j) + -1.0 * Sizes(row)(j) { }
    SumLinear(Sizes(w), Sizes(row), Shortfall(w, row), 1.0, -1.0, n);
    SumDominates(Shortfall(w, row), n, i);
    SizeAt(w, i);
    SizeAt(row, i);
    FullPositionIsUncapped(w[i], volume[i], config);
  }

  // ----- the capacity curve

  datatype CurvePoint = CurvePoint(aum: real, sharpe: real, rawSharpe: real, averageFill: real, totalCost: real)

  function RowFills(weights: seq<seq<real>>, volumes: seq<seq<Option<real>>>, config: Config): (fills: seq<real>)
    requires SameShape(weights, volumes)
    ensures |fills| == |weights|
    ensures forall t :: 0 <= t < |fills| ==> fills[t] == RowFill(weights[t], volumes[t], config)
  {
    seq(|weights|, t requires 0 <= t < |weights| => RowFill(weights[t], volumes[t], config))
  }

  function AverageFill(weights: seq<seq<real>>, volumes: seq<seq<Option<real>>>, config: Config): real
    requires SameShape(weights, volumes)
  {
    if |weights| == 0 then 1.0 else Ratio(Total(RowFills(weights, volumes, config)), |weights| as real)
  }

  lemma AverageFillIsAShare(weights: seq<seq<real>>, volumes: seq<seq<Option<real>>>, config: Config)
    requires SameShape(weights, volumes) && Sane(config)
    ensures 0.0 <= AverageFill(weights, volumes, config) <= 1.0
    ensures |weights| > 0 ==>
      Times(|weights| as real, AverageFill(weights, volumes, config)) == Total(RowFills(weights, volumes, config))
  {
    var fills, n := RowFills(weights, volumes, config), |weights|;
    forall t | 0 <= t < n ensures 0.0 <= Entries(fills)(t) <= 1.0 { RowFillIsAShare(weights[t], volumes[t], config); }
    SumNonnegative(Entries(fills), n);
    SumMonotone(Entries(fills), Ones(), n);
    SumConstant(Ones(), n, 1.0);
    if n > 0 {
      RatioUndone(Total(fills), n as real);
      RatioSign(Total(fills), n as real);
      RatioMonotone(Total(fills), n as real, n as real);
    }
  }

  function Ones(): int -> real { i => 1.0 }

  lemma AverageFillShrinks(weights: seq<seq<real>>, volumes: seq<seq<Option<real>>>, config: Config, larger: real)
    requires SameShape(weights, volumes) && Sane(config) && config.aum <= larger
    ensures AverageFill(weights, volumes, config.(aum := larger)) <= AverageFill(weights, volumes, config)
  {
    var small, large, n := RowFills(weights, volumes, config), RowFills(weights, volumes, config.(aum := larger)),
      |weights|;
    forall t | 0 <= t < n ensures Entries(large)(t) <= Entries(small)(t) {
      RowFillShrinks(weights[t], volumes[t], config, larger);
    }
    SumMonotone(Entries(large), Entries(small), n);
    if n > 0 { RatioMonotone(Total(large), Total(small), n as real); }
  }

  function NetReturns(gross: seq<real>, weights: seq<seq<real>>, volumes: seq<seq<Option<real>>>,
    config: Config): seq<real>
    requires SameShape(weights, volumes) && |gross| == |weights|
  {
    var actual := ActualWeights(weights, volumes, config);
    var fills, costs := RowFills(weights, volumes, config), Costs(actual, volumes, config.tiers);
    seq(|gross|, t requires 0 <= t < |gross| => Times(gross[t], fills[t]) - costs[t])
  }

  /** In total the net return is the filled gross return less the costs. */
  lemma NetTotals(gross: seq<real>, weights: seq<seq<real>>, volumes: seq<seq<Option<real>>>, config: Config)
    requires SameShape(weights, volumes) && |gross| == |weights|
    ensures Total(NetReturns(gross, weights, volumes, config))
         == WeightedTotal(gross, RowFills(weights, volumes, config))
            - Total(Costs(ActualWeights(weights, volumes, config), volumes, config.tiers))
  {
    var costs := Costs(ActualWeights(weights, volumes, config), volumes, config.tiers);
    LessCosts(gross, RowFills(weights, volumes, config), costs, NetReturns(gross, weights, volumes, config));
  }

  lemma LessCosts(gross: seq<real>, fills: seq<real>, costs: seq<real>, net: seq<real>)
    requires |gross| == |fills| == |costs| == |net|
    requires forall t :: 0 <= t < |net| ==> net[t] == Times(gross[t], fills[t]) - costs[t]
    ensures Total(net) == WeightedTotal(gross, fills) - Total(costs)
  {
    forall t | 0 <= t < |gross| ensures Products(gross, fills)(t) == Entries(net)(t) + Entries(costs)(t) {
      ProductAt(gross, fills, t);
    }
    SumAdd(Entries(net), Entries(costs), Products(gross, fills), |gross|);
  }

  /** Where no cap binds and trading has no spread, every period keeps its gross return. */
  lemma FrictionlessKeepsReturns(gross: seq<real>, weights: seq<seq<real>>, volumes: seq<seq<Option<real>>>,
    config: Config)
    requires SameShape(weights, volumes) && |gross| == |weights| && Sane(config)
    requires forall t :: 0 <= t < |weights| ==> NothingCapped(weights[t], volumes[t], config)
    requires forall tier :: tier in config.tiers ==> tier.spread == 0.0
    ensures NetReturns(gross, weights, volumes, config) == gross
  {
    var actual := ActualWeights(weights, volumes, config);
    forall t | 0 <= t < |gross| ensures NetReturns(gross, weights, volumes, config)[t] == gross[t] {
      RowFillIsFullIff(weights[t], volumes[t], config);
      FreeRowCost(Before(actual, t), actual[t], volumes[t], config.tiers);
      TimesUnits(gross[t]);
    }
  }

  lemma FreeRowCost(before: seq<real>, after: seq<real>, volume: seq<Option<real>>, tiers: seq<Tier>)
    requires forall tier :: tier in tiers ==> tier.spread == 0.0
    ensures RowCost(before, after, volume, tiers) == 0.0
  {
    forall i | 0 <= i < |after| ensures TradeCost(before, after, volume, tiers)(i) == 0.0 {
      assert HalfSpread(volume, tiers, i) == 0.0;
      TimesUnits(Magnitude(Entries(after)(i) - Entries(before)(i)));
    }
    SumZero(TradeCost(before, after, volume, tiers), |after|);
  }

  function PointAt(aum: real, gross: seq<real>, weights: seq<seq<real>>, volumes: seq<seq<Option<real>>>,
    config: Config,
    sharpe: seq<real> -> real): CurvePoint
    requires SameShape(weights, volumes) && |gross| == |weights|
  {
    var sized := config.(aum := aum);
    var raw := sharpe(NetReturns(gross, weights, volumes, sized));
    var fill := AverageFill(weights, volumes, sized);
    CurvePoint(aum, Times(raw, fill), raw, fill,
      Total(Costs(ActualWeights(weights, volumes, sized), volumes, config.tiers)))
  }

  /** A point of the curve prices the filled positions: fills averaged over the rows, costs in money added up over the
    * rows, and the ratio of the net returns scaled by the average fill. */
  lemma PointIsPriced(aum: real, gross: seq<real>, weights: seq<seq<real>>, volumes: seq<seq<Option<real>>>,
    config: Config, sharpe: seq<real> -> real)
    requires SameShape(weights, volumes) && |gross| == |weights| && config.participationCap >= 0.0 && aum >= 0.0
    ensures var point, sized := PointAt(aum, gross, weights, volumes, config, sharpe), config.(aum := aum);
      && point.aum == aum
      && (|weights| > 0 ==> Times(|weights| as real, point.averageFill) == Total(RowFills(weights, volumes, sized)))
      && Times(aum, point.totalCost)
           == Sum(RowCosts(ActualWeights(weights, volumes, sized), volumes, config.tiers, aum), |weights|)
      && point.rawSharpe == sharpe(NetReturns(gross, weights, volumes, sized))
      && (point.averageFill == 1.0 ==> point.sharpe == point.rawSharpe)
      && (point.averageFill > 0.0 ==> Ratio(point.sharpe, point.averageFill) == point.rawSharpe)
  {
    var sized := config.(aum := aum);
    AverageFillIsAShare(weights, volumes, sized);
    TotalCostInMoney(ActualWeights(weights, volumes, sized), volumes, config.tiers, aum);
    var raw, fill := sharpe(NetReturns(gross, weights, volumes, sized)), AverageFill(weights, volumes, sized);
    TimesUnits(raw);
    if fill > 0.0 { ScaledBack(raw, fill); }
  }

  lemma ScaledBack(raw: real, fill: real)
    requires fill > 0.0
    ensures Ratio(Times(raw, fill), fill) == raw
  {
  }

  /** The points of a capacity study, as a function of the account's size. */
  function Pricing(gross: seq<real>, weights: seq<seq<real>>, volumes: seq<seq<Option<real>>>, config: Config,
    sharpe: seq<real> -> real): real -> CurvePoint
    requires SameShape(weights, volumes) && |gross| == |weights|
  {
    aum => PointAt(aum, gross, weights, volumes, config, sharpe)
  }

  method CurveOver(pointAt: real -> CurvePoint, grid: seq<real>) returns (rows: seq<CurvePoint>)
    ensures |rows| == |grid|
    ensures forall i :: 0 <= i < |grid| ==> rows[i] == pointAt(grid[i])
  {
    rows := [];
    for i := 0 to |grid|
      invariant |rows| == i
      invariant forall k :: 0 <= k < i ==> rows[k] == pointAt(grid[k])
    {
      rows := rows + [pointAt(grid[i])];
    }
  }

  /** One point per account size, in the order given. */
  method CapacityCurve(gross: seq<real>, weights: seq<seq<real>>, volumes: seq<seq<Option<real>>>, config: Config,
    grid: seq<real>, sharpe: seq<real> -> real) returns (rows: seq<CurvePoint>)
    requires SameShape(weights, volumes) && |gross| == |weights|
    ensures |rows| == |grid|
    ensures forall i :: 0 <= i < |grid| ==> rows[i] == Pricing(gross, weights, volumes, config, sharpe)(grid[i])
    ensures config.participationCap >= 0.0 && Nonnegative(grid) ==> IsFallingCurve(grid, rows)
  {
    rows := CurveOver(Pricing(gross, weights, volumes, config, sharpe), grid);
    if config.participationCap >= 0.0 && Nonnegative(grid) {
      CurveFalls(gross, weights, volumes, config, grid, sharpe, rows);
    }
  }

  ghost predicate Nonnegative(grid: seq<real>) { forall i :: 0 <= i < |grid| ==> grid[i] >= 0.0 }

  /** Average fills are shares, and no larger account has a larger one. */
  ghost predicate IsFallingCurve(grid: seq<real>, rows: seq<CurvePoint>) {
    && |rows| == |grid|
    && (forall i :: 0 <= i < |rows| ==> rows[i].aum == grid[i] && 0.0 <= rows[i].averageFill <= 1.0)
    && forall i, j :: 0 <= i < |rows| && 0 <= j < |rows| && grid[i] <= grid[j] ==>
      rows[j].averageFill <= rows[i].averageFill
  }

  lemma CurveFalls(gross: seq<real>, weights: seq<seq<real>>, volumes: seq<seq<Option<real>>>, config: Config,
    grid: seq<real>, sharpe: seq<real> -> real, rows: seq<CurvePoint>)
    requires SameShape(weights, volumes) && |gross| == |weights| && config.participationCap >= 0.0 && Nonnegative(grid)
    requires |rows| == |grid|
    requires forall i :: 0 <= i < |grid| ==> rows[i] == Pricing(gross, weights, volumes, config, sharpe)(grid[i])
    ensures IsFallingCurve(grid, rows)
  {
    forall i | 0 <= i < |rows| ensures rows[i].aum == grid[i] && 0.0 <= rows[i].averageFill <= 1.0 {
      CapacityCurveFalls(gross, weights, volumes, config, sharpe, grid[i], grid[i]);
    }
    forall i, j | 0 <= i < |rows| && 0 <= j < |rows| && grid[i] <= grid[j]
      ensures rows[j].averageFill <= rows[i].averageFill
    {
      CapacityCurveFalls(gross, weights, volumes, config, sharpe, grid[i], grid[j]);
    }
  }

  /** No larger account is filled better on average. */
  lemma CapacityCurveFalls(gross: seq<real>, weights: seq<seq<real>>, volumes: seq<seq<Option<real>>>, config: Config,
    sharpe: seq<real> -> real, small: real, large: real)
    requires SameShape(weights, volumes) && |gross| == |weights| && config.participationCap >= 0.0
      && 0.0 <= small <= large
    ensures 0.0 <= PointAt(large, gross, weights, volumes, config, sharpe).averageFill
                <= PointAt(small, gross, weights, volumes, config, sharpe).averageFill <= 1.0
  {
    AverageFillIsAShare(weights, volumes, config.(aum := small));
    AverageFillIsAShare(weights, volumes, config.(aum := large));
    AverageFillShrinks(weights, volumes, config.(aum := small), large);
  }
}
