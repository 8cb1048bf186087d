/** The `CASE` expressions that label the binned dimensions.  Five of them
    test fixed thresholds with strict `<`, first match wins; the sixth, the
    brightness label of the stellar-type dimension, tests inclusive
    `BETWEEN` ranges whose ends overlap. */
module Categorizer {

  /** First-match-wins over `WHEN x < t0 ... WHEN x < t1 ... ELSE`: the index
      of the first threshold above `x`, or the `ELSE` branch. */
  function Bucket(x: real, thresholds: seq<real>): (i: nat)
    ensures i <= |thresholds|
  {
    if thresholds == [] then 0
    else if x < thresholds[0] then 0
    else 1 + Bucket(x, thresholds[1..])
  }

  ghost predicate Increasing(thresholds: seq<real>)
  {
    forall i, j :: 0 <= i < j < |thresholds| ==> thresholds[i] < thresholds[j]
  }

  /** With increasing thresholds, bucket `i` is exactly the half-open interval
      `[t(i-1), t(i))`: a value equal to a threshold lands in the bucket above. */
  lemma {:induction false} BucketInterval(x: real, thresholds: seq<real>, i: nat)
    requires Increasing(thresholds)
    ensures Bucket(x, thresholds) == i <==>
      && i <= |thresholds|
      && (i == 0 || thresholds[i - 1] <= x)
      && (i == |thresholds| || x < thresholds[i])
  {
    if thresholds != [] && x >= thresholds[0] {
      var rest := thresholds[1..];
      assert Increasing(rest);
      if i > 0 {
        BucketInterval(x, rest, i - 1);
        assert 1 < i <= |thresholds| ==> rest[i - 2] == thresholds[i - 1];
        assert i < |thresholds| ==> rest[i - 1] == thresholds[i];
      }
    } else if thresholds != [] && 0 < i <= |thresholds| {
      assert thresholds[0] <= thresholds[i - 1];
    }
  }

  /** A larger value never lands in a lower bucket. */
  lemma {:induction false} BucketMonotone(a: real, b: real, thresholds: seq<real>)
    requires a <= b
    ensures Bucket(a, thresholds) <= Bucket(b, thresholds)
  {
    if thresholds != [] && a >= thresholds[0] {
      BucketMonotone(a, b, thresholds[1..]);
    }
  }

  /** The first-match rule over three and four literal thresholds, spelled
      out as the `CASE` chain it stands for. */
  lemma FirstMatch2(x: real, b: real, c: real)
    ensures Bucket(x, [b, c]) == if x < b then 0 else if x < c then 1 else 2
  {
    assert [b, c][1..] == [c] && [c][1..] == [];
  }

  lemma FirstMatch3(x: real, a: real, b: real, c: real)
    ensures Bucket(x, [a, b, c]) == if x < a then 0 else if x < b then 1 else if x < c then 2 else 3
  {
    assert [a, b, c][1..] == [b, c];
    FirstMatch2(x, b, c);
  }

  lemma FirstMatch4(x: real, a: real, b: real, c: real, d: real)
    ensures Bucket(x, [a, b, c, d]) ==
      if x < a then 0 else if x < b then 1 else if x < c then 2 else if x < d then 3 else 4
  {
    assert [a, b, c, d][1..] == [b, c, d];
    FirstMatch3(x, b, c, d);
  }

  const MassThresholds: seq<real> := [0.1, 1.0, 5.0, 20.0]
  const MassLabels: seq<string> := ["Very Low Mass", "Low Mass", "Medium Mass", "High Mass", "Very High Mass"]

  const DistanceThresholds: seq<real> := [10.0, 100.0, 1000.0]
  const DistanceLabels: seq<string> := ["Very Close (<10 ly)", "Close (<100 ly)", "Medium (<1000 ly)", "Far (>1000 ly)"]

  const OrbitThresholds: seq<real> := [10.0, 100.0, 1000.0]
  const OrbitLabels: seq<string> := ["Very Short", "Short", "Moderate", "Long"]

  const BrightnessThresholds: seq<real> := [5.0, 10.0, 15.0]
  const BrightnessLabels: seq<string> := ["Very Bright", "Bright", "Dim", "Very Dim"]

  const EraThresholds: seq<real> := [2000.0, 2010.0, 2020.0]
  const EraLabels: seq<string> := ["<2000", "Early 21st Century", "Kepler Era", "Modern Era"]

  /** `mass_category` of `dim_mass_category`. */
  function MassCategory(massMultiplier: real): (category: string)
    ensures category == MassLabels[Bucket(massMultiplier, MassThresholds)]
  {
    FirstMatch4(massMultiplier, 0.1, 1.0, 5.0, 20.0);
    if massMultiplier < 0.1 then "Very Low Mass"
    else if massMultiplier < 1.0 then "Low Mass"
    else if massMultiplier < 5.0 then "Medium Mass"
    else if massMultiplier < 20.0 then "High Mass"
    else "Very High Mass"
  }

  /** `distance_category` of `dim_distance_category`. */
  function DistanceCategory(distance: real): (category: string)
    ensures category == DistanceLabels[Bucket(distance, DistanceThresholds)]
  {
    FirstMatch3(distance, 10.0, 100.0, 1000.0);
    if distance < 10.0 then "Very Close (<10 ly)"
    else if distance < 100.0 then "Close (<100 ly)"
    else if distance < 1000.0 then "Medium (<1000 ly)"
    else "Far (>1000 ly)"
  }

  /** `period_class` of `dim_orbit_category`. */
  function OrbitCategory(orbitalPeriod: real): (category: string)
    ensures category == OrbitLabels[Bucket(orbitalPeriod, OrbitThresholds)]
  {
    FirstMatch3(orbitalPeriod, 10.0, 100.0, 1000.0);
    if orbitalPeriod < 10.0 then "Very Short"
    else if orbitalPeriod < 100.0 then "Short"
    else if orbitalPeriod < 1000.0 then "Moderate"
    else "Long"
  }

  /** `brightness_category` of `dim_brightness_category`. */
  function BrightnessCategory(stellarMagnitude: real): (category: string)
    ensures category == BrightnessLabels[Bucket(stellarMagnitude, BrightnessThresholds)]
  {
    FirstMatch3(stellarMagnitude, 5.0, 10.0, 15.0);
    if stellarMagnitude < 5.0 then "Very Bright"
    else if stellarMagnitude < 10.0 then "Bright"
    else if stellarMagnitude < 15.0 then "Dim"
    else "Very Dim"
  }

  /** `discovery_era` of `dim_discovery_era`; the year is an integer column. */
  function DiscoveryEra(discoveryYear: int): (category: string)
    ensures category == EraLabels[Bucket(discoveryYear as real, EraThresholds)]
  {
    FirstMatch3(discoveryYear as real, 2000.0, 2010.0, 2020.0);
    if discoveryYear < 2000 then "<2000"
    else if discoveryYear < 2010 then "Early 21st Century"
    else if discoveryYear < 2020 then "Kepler Era"
    else "Modern Era"
  }

  /** The five threshold rules: each bucket is the half-open interval between
      consecutive thresholds, and a larger input never gets a lower bucket. */
  lemma ThresholdRulesWellFormed()
    ensures Increasing(MassThresholds) && Increasing(DistanceThresholds)
    ensures Increasing(OrbitThresholds) && Increasing(BrightnessThresholds)
    ensures Increasing(EraThresholds)
    ensures |MassLabels| == |MassThresholds| + 1 && |DistanceLabels| == |DistanceThresholds| + 1
    ensures |OrbitLabels| == |OrbitThresholds| + 1 && |BrightnessLabels| == |BrightnessThresholds| + 1
    ensures |EraLabels| == |EraThresholds| + 1
  {
  }

  /** Monotonicity of every threshold rule: if `a <= b` the bucket of `a` is
      at most the bucket of `b`. */
  lemma {:induction false} ThresholdRulesMonotone(a: real, b: real, yearA: int, yearB: int)
    requires a <= b && yearA <= yearB
    ensures Bucket(a, MassThresholds) <= Bucket(b, MassThresholds)
    ensures Bucket(a, DistanceThresholds) <= Bucket(b, DistanceThresholds)
    ensures Bucket(a, OrbitThresholds) <= Bucket(b, OrbitThresholds)
    ensures Bucket(a, BrightnessThresholds) <= Bucket(b, BrightnessThresholds)
    ensures Bucket(yearA as real, EraThresholds) <= Bucket(yearB as real, EraThresholds)
  {
    BucketMonotone(a, b, MassThresholds);
    BucketMonotone(a, b, DistanceThresholds);
    BucketMonotone(a, b, OrbitThresholds);
    BucketMonotone(a, b, BrightnessThresholds);
    BucketMonotone(yearA as real, yearB as real, EraThresholds);
  }

  /** The distance rule as intervals, both directions: boundary values belong
      to the bucket above them. */
  lemma DistanceIntervals(d: real)
    ensures DistanceCategory(d) == "Very Close (<10 ly)" <==> d < 10.0
    ensures DistanceCategory(d) == "Close (<100 ly)" <==> 10.0 <= d < 100.0
    ensures DistanceCategory(d) == "Medium (<1000 ly)" <==> 100.0 <= d < 1000.0
    ensures DistanceCategory(d) == "Far (>1000 ly)" <==> 1000.0 <= d
  {
  }

  lemma MassIntervals(m: real)
    ensures MassCategory(m) == "Very Low Mass" <==> m < 0.1
    ensures MassCategory(m) == "Low Mass" <==> 0.1 <= m < 1.0
    ensures MassCategory(m) == "Medium Mass" <==> 1.0 <= m < 5.0
    ensures MassCategory(m) == "High Mass" <==> 5.0 <= m < 20.0
    ensures MassCategory(m) == "Very High Mass" <==> 20.0 <= m
  {
  }

  lemma OrbitIntervals(p: real)
    ensures OrbitCategory(p) == "Very Short" <==> p < 10.0
    ensures OrbitCategory(p) == "Short" <==> 10.0 <= p < 100.0
    ensures OrbitCategory(p) == "Moderate" <==> 100.0 <= p < 1000.0
    ensures OrbitCategory(p) == "Long" <==> 1000.0 <= p
  {
  }

  lemma BrightnessIntervals(m: real)
    ensures BrightnessCategory(m) == "Very Bright" <==> m < 5.0
    ensures BrightnessCategory(m) == "Bright" <==> 5.0 <= m < 10.0
    ensures BrightnessCategory(m) == "Dim" <==> 10.0 <= m < 15.0
    ensures BrightnessCategory(m) == "Very Dim" <==> 15.0 <= m
  {
  }

  lemma EraIntervals(y: int)
    ensures DiscoveryEra(y) == "<2000" <==> y < 2000
    ensures DiscoveryEra(y) == "Early 21st Century" <==> 2000 <= y < 2010
    ensures DiscoveryEra(y) == "Kepler Era" <==> 2010 <= y < 2020
    ensures DiscoveryEra(y) == "Modern Era" <==> 2020 <= y
  {
  }

  /** Each threshold rule produces exactly its listed labels: every result is
      one of them, and each of them is produced by some input. */
  lemma ThresholdRulesOnto()
    ensures forall l :: l in MassLabels ==> exists m :: MassCategory(m) == l
    ensures forall l :: l in DistanceLabels ==> exists d :: DistanceCategory(d) == l
    ensures forall l :: l in OrbitLabels ==> exists p :: OrbitCategory(p) == l
    ensures forall l :: l in BrightnessLabels ==> exists m :: BrightnessCategory(m) == l
    ensures forall l :: l in EraLabels ==> exists y :: DiscoveryEra(y) == l
  {
    assert MassCategory(0.0) == MassLabels[0] && MassCategory(0.5) == MassLabels[1];
    assert MassCategory(2.0) == MassLabels[2] && MassCategory(10.0) == MassLabels[3];
    assert MassCategory(30.0) == MassLabels[4];
    assert DistanceCategory(0.0) == DistanceLabels[0] && DistanceCategory(50.0) == DistanceLabels[1];
    assert DistanceCategory(500.0) == DistanceLabels[2] && DistanceCategory(5000.0) == DistanceLabels[3];
    assert OrbitCategory(0.0) == OrbitLabels[0] && OrbitCategory(50.0) == OrbitLabels[1];
    assert OrbitCategory(500.0) == OrbitLabels[2] && OrbitCategory(5000.0) == OrbitLabels[3];
    assert BrightnessCategory(0.0) == BrightnessLabels[0] && BrightnessCategory(7.0) == BrightnessLabels[1];
    assert BrightnessCategory(12.0) == BrightnessLabels[2] && BrightnessCategory(20.0) == BrightnessLabels[3];
    assert DiscoveryEra(1995) == EraLabels[0] && DiscoveryEra(2005) == EraLabels[1];
    assert DiscoveryEra(2015) == EraLabels[2] && DiscoveryEra(2025) == EraLabels[3];
  }

  /** Values on the thresholds go to the bucket above. */
  lemma ThresholdBoundaries()
    ensures DistanceCategory(9.99) == "Very Close (<10 ly)"
    ensures DistanceCategory(10.0) == "Close (<100 ly)"
    ensures DistanceCategory(100.0) == "Medium (<1000 ly)"
    ensures DistanceCategory(999.99) == "Medium (<1000 ly)"
    ensures DistanceCategory(1000.0) == "Far (>1000 ly)"
    ensures MassCategory(0.1) == "Low Mass" && MassCategory(20.0) == "Very High Mass"
    ensures OrbitCategory(1000.0) == "Long"
    ensures BrightnessCategory(5.0) == "Bright" && BrightnessCategory(15.0) == "Very Dim"
    ensures DiscoveryEra(2010) == "Kepler Era" && DiscoveryEra(2020) == "Modern Era"
  {
  }

  /** `brightness_category` of `dim_stellar_type`: `BETWEEN` is inclusive at
      both ends, so the ranges share their end points and the earlier `WHEN`
      takes the shared value. */
  function StellarBrightness(stellarMagnitude: real): (category: string)
    ensures category == StellarLabels[StellarRank(stellarMagnitude)]
  {
    if stellarMagnitude < 0.0 then "very bright"
    else if 0.0 <= stellarMagnitude <= 2.0 then "bright"
    else if 2.0 <= stellarMagnitude <= 5.0 then "moderate"
    else if 5.0 <= stellarMagnitude <= 10.0 then "dim"
    else "very dim"
  }

  const StellarLabels: seq<string> := ["very bright", "bright", "moderate", "dim", "very dim"]

  /** The bucket of the stellar-type rule: `(-inf, 0)`, `[0, 2]`, `(2, 5]`,
      `(5, 10]`, `(10, +inf)`. */
  function StellarRank(m: real): (i: nat)
    ensures i < |StellarLabels|
    ensures i == 0 <==> m < 0.0
    ensures i == 1 <==> 0.0 <= m <= 2.0
    ensures i == 2 <==> 2.0 < m <= 5.0
    ensures i == 3 <==> 5.0 < m <= 10.0
    ensures i == 4 <==> 10.0 < m
  {
    if m < 0.0 then 0 else if m <= 2.0 then 1 else if m <= 5.0 then 2 else if m <= 10.0 then 3 else 4
  }

  lemma StellarBrightnessMonotone(a: real, b: real)
    requires a <= b
    ensures StellarRank(a) <= StellarRank(b)
  {
  }

  lemma StellarBoundaries()
    ensures StellarBrightness(-0.5) == "very bright"
    ensures StellarBrightness(0.0) == "bright" && StellarBrightness(2.0) == "bright"
    ensures StellarBrightness(5.0) == "moderate" && StellarBrightness(10.0) == "dim"
    ensures StellarBrightness(10.5) == "very dim"
  {
  }

  /** The two brightness rules are different partitions of the magnitude
      axis, and neither refines the other: some pair of magnitudes is
      separated by one rule and kept together by the other, in each
      direction.  No renaming of labels turns one into the other. */
  lemma BrightnessRulesDiffer()
    ensures BrightnessCategory(1.0) == BrightnessCategory(4.0) && StellarBrightness(1.0) != StellarBrightness(4.0)
    ensures StellarBrightness(4.9) == StellarBrightness(5.0) && BrightnessCategory(4.9) != BrightnessCategory(5.0)
  {
  }
}
