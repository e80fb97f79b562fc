/** The capacity-ratio delay estimate and the analyser that keeps the
    baseline and alternative delays of an intersection's volumes and the
    efficiency metrics derived from them. */
module SignalAnalysis {
  import opened Basics
  import opened Intersections

  const SaturationFlowRate: real := 1800.0   // vehicles per hour per lane

  /** Vehicles that can pass during the green: the green in hours times the
      saturation flow, which is half the green in seconds. */
  function GreenCapacity(green: real): (c: real)
    ensures c == green / 2.0
  {
    (green / 3600.0) * SaturationFlowRate
  }

  /** Delay of one reading as a percentage: above capacity, the excess over
      capacity relative to capacity, times 100; at or below capacity, the
      load ratio times 10; 0 when there is no capacity. */
  function CapacityRatioDelay(volume: real, green: real): (d: real)
    ensures green <= 0.0 ==> d == 0.0
    ensures green > 0.0 && volume <= green / 2.0 ==> d == 20.0 * volume / green
    ensures green > 0.0 && volume > green / 2.0 ==> d == 200.0 * volume / green - 100.0
    ensures volume >= 0.0 ==> d >= 0.0
  {
    var capacity := GreenCapacity(green);
    if capacity > 0.0 then
      RatiosOverGreen(volume, green);
      if volume > capacity then ((volume - capacity) / capacity) * 100.0
      else (volume / capacity) * 10.0
    else 0.0
  }

  lemma DivCancel(x: real, k: real, c: real)
    requires c != 0.0 && x == k * c
    ensures x / c == k
  {
  }

  /** Both branches, with capacity green/2, as multiples of volume/green. */
  lemma RatiosOverGreen(volume: real, green: real)
    requires green > 0.0
    ensures (volume - green / 2.0) / (green / 2.0) * 100.0 == 200.0 * volume / green - 100.0
    ensures volume / (green / 2.0) * 10.0 == 20.0 * volume / green
  {
    var c := green / 2.0;
    var q := volume / green;
    DivCancel(volume, q, green);
    DivCancel(volume - c, 2.0 * q - 1.0, c);
    DivCancel(volume, 2.0 * q, c);
    DivCancel(200.0 * volume, 200.0 * q, green);
    DivCancel(20.0 * volume, 20.0 * q, green);
  }

  /** Zero volume means zero delay, and up to capacity the delay is at most
      10; above capacity it exceeds 0. */
  lemma CapacityRatioRegimes(volume: real, green: real)
    requires green > 0.0 && volume >= 0.0
    ensures volume == 0.0 ==> CapacityRatioDelay(volume, green) == 0.0
    ensures volume <= GreenCapacity(green) ==> CapacityRatioDelay(volume, green) <= 10.0
    ensures volume > GreenCapacity(green) ==> CapacityRatioDelay(volume, green) > 0.0
  {
    var c := GreenCapacity(green);
    if volume <= c {
      assert volume / c <= 1.0;
    } else {
      assert (volume - c) / c > 0.0;
    }
  }

  /** Within each regime more volume means more delay. */
  lemma CapacityRatioMonotoneWithinRegime(v1: real, v2: real, green: real)
    requires green > 0.0 && v1 < v2
    requires v2 <= GreenCapacity(green) || GreenCapacity(green) < v1
    ensures CapacityRatioDelay(v1, green) < CapacityRatioDelay(v2, green)
  {
    DivideByPositive(20.0 * v1, 20.0 * v2, green);
    DivideByPositive(200.0 * v1, 200.0 * v2, green);
  }

  /** Across capacity the delay can fall: with green 30 (capacity 15) a
      volume of 15 gives 10 but a volume of 16 gives 20/3. */
  lemma CapacityRatioNotMonotone()
    ensures CapacityRatioDelay(15.0, 30.0) == 10.0
    ensures CapacityRatioDelay(16.0, 30.0) == 20.0 / 3.0
    ensures CapacityRatioDelay(16.0, 30.0) < CapacityRatioDelay(15.0, 30.0)
  {
  }

  /** The delay of every volume at one green, in order. */
  function CapacityRatioDelays(volumes: seq<real>, green: real): (ds: seq<real>)
    ensures |ds| == |volumes|
  {
    if |volumes| == 0 then []
    else CapacityRatioDelays(volumes[..|volumes| - 1], green) + [CapacityRatioDelay(volumes[|volumes| - 1], green)]
  }

  /** Entry i is the delay of volume i; all are 0 without green; none is
      negative when no volume is. */
  lemma {:induction false} CapacityRatioDelaysEntries(volumes: seq<real>, green: real)
    ensures forall i :: 0 <= i < |volumes| ==>
              CapacityRatioDelays(volumes, green)[i] == CapacityRatioDelay(volumes[i], green)
    ensures green <= 0.0 ==> forall i :: 0 <= i < |volumes| ==> CapacityRatioDelays(volumes, green)[i] == 0.0
    ensures AllNonNegative(volumes) ==> AllNonNegative(CapacityRatioDelays(volumes, green))
  {
    if |volumes| > 0 {
      var n := |volumes| - 1;
      CapacityRatioDelaysEntries(volumes[..n], green);
      assert forall i :: 0 <= i < n ==> volumes[..n][i] == volumes[i];
    }
  }

  datatype EfficiencyMetrics = EfficiencyMetrics(
    avgDelayReduction: real,
    throughputChange: real,
    baselineAvgDelay: real,
    alternativeAvgDelay: real,
    improvementPercentage: real)

  /** All five metrics 0, when either list of delays is empty. */
  const ZeroMetrics := EfficiencyMetrics(0.0, 0.0, 0.0, 0.0, 0.0)

  /** The metrics of two delay lists: the means, their difference, and the
      difference relative to the baseline mean in percent, reported twice
      (as throughput change and as improvement); 0 for a non-positive
      baseline mean. */
  function ComparisonMetrics(baseline: seq<real>, alternative: seq<real>): (m: EfficiencyMetrics)
    ensures |baseline| == 0 || |alternative| == 0 ==> m == ZeroMetrics
    ensures |baseline| > 0 && |alternative| > 0 ==>
              && m.baselineAvgDelay == Mean(baseline)
              && m.alternativeAvgDelay == Mean(alternative)
              && m.avgDelayReduction == Mean(baseline) - Mean(alternative)
    ensures m.throughputChange == m.improvementPercentage
    ensures m.baselineAvgDelay > 0.0 ==>
              m.improvementPercentage * m.baselineAvgDelay == m.avgDelayReduction * 100.0
    ensures m.baselineAvgDelay <= 0.0 ==> m.improvementPercentage == 0.0
  {
    if |baseline| == 0 || |alternative| == 0 then ZeroMetrics
    else
      var baselineAvg := Mean(baseline);
      var alternativeAvg := Mean(alternative);
      var reduction := baselineAvg - alternativeAvg;
      var throughput := if baselineAvg > 0.0 then ((baselineAvg - alternativeAvg) / baselineAvg) * 100.0 else 0.0;
      var improvement := if baselineAvg > 0.0 then (reduction / baselineAvg) * 100.0 else 0.0;
      assert baselineAvg > 0.0 ==> improvement * baselineAvg == reduction * 100.0 by {
        if baselineAvg > 0.0 {
          assert reduction / baselineAvg * baselineAvg == reduction;
        }
      }
      EfficiencyMetrics(reduction, throughput, baselineAvg, alternativeAvg, improvement)
  }

  /** For delays that are never negative the improvement is at most 100%,
      and it is positive exactly when the alternative's mean delay is lower. */
  lemma ImprovementBounds(baseline: seq<real>, alternative: seq<real>)
    requires AllNonNegative(baseline) && AllNonNegative(alternative)
    ensures ComparisonMetrics(baseline, alternative).improvementPercentage <= 100.0
    ensures ComparisonMetrics(baseline, alternative).improvementPercentage > 0.0
            <==> ComparisonMetrics(baseline, alternative).avgDelayReduction > 0.0
  {
    var m := ComparisonMetrics(baseline, alternative);
    if |baseline| > 0 && |alternative| > 0 {
      MeanNonNegative(baseline);
      MeanNonNegative(alternative);
      var b, r := m.baselineAvgDelay, m.avgDelayReduction;
      if b > 0.0 {
        PercentBounds(m.improvementPercentage, b, r);
      }
    }
  }

  /** A percentage p of a positive base b, with p * b == 100 * r for a part
      r that does not exceed b, is at most 100 and has the sign of r. */
  lemma PercentBounds(p: real, b: real, r: real)
    requires b > 0.0 && r <= b && p * b == r * 100.0
    ensures p <= 100.0
    ensures p > 0.0 <==> r > 0.0
  {
    ProductSign(p - 100.0, b);
    ProductSign(p, b);
    assert (p - 100.0) * b == (r - b) * 100.0;
  }

  class SignalTimingAnalyzer {
    const intersectionData: IntersectionData
    var baselineDelays: seq<real>
    var alternativeDelays: seq<real>
    /** None until the plans are compared (the empty dictionary). */
    var efficiencyMetrics: Option<EfficiencyMetrics>

    constructor (intersectionData: IntersectionData)
      ensures this.intersectionData == intersectionData
      ensures baselineDelays == [] && alternativeDelays == [] && efficiencyMetrics == None
    {
      this.intersectionData := intersectionData;
      baselineDelays := [];
      alternativeDelays := [];
      efficiencyMetrics := None;
    }

    /** Replaces the baseline delays by the delay of each volume at the given
        green, one per volume in order, and returns them. */
    method ComputeBaselineDelays(green: real) returns (delays: seq<real>)
      modifies this`baselineDelays
      ensures baselineDelays == CapacityRatioDelays(intersectionData.volumes, green)
      ensures delays == baselineDelays
      ensures alternativeDelays == old(alternativeDelays) && efficiencyMetrics == old(efficiencyMetrics)
    {
      baselineDelays := [];
      var volumes := intersectionData.volumes;
      for i := 0 to |volumes|
        invariant baselineDelays == CapacityRatioDelays(volumes[..i], green)
      {
        assert volumes[..i + 1][..i] == volumes[..i];
        baselineDelays := baselineDelays + [CapacityRatioDelay(volumes[i], green)];
      }
      assert volumes[..|volumes|] == volumes;
      delays := baselineDelays;
    }

    /** The same computation for the alternative green; only the
        alternative delays change. */
    method ComputeAlternativeDelays(green: real) returns (delays: seq<real>)
      modifies this`alternativeDelays
      ensures alternativeDelays == CapacityRatioDelays(intersectionData.volumes, green)
      ensures delays == alternativeDelays
      ensures baselineDelays == old(baselineDelays) && efficiencyMetrics == old(efficiencyMetrics)
    {
      alternativeDelays := [];
      var volumes := intersectionData.volumes;
      for i := 0 to |volumes|
        invariant alternativeDelays == CapacityRatioDelays(volumes[..i], green)
      {
        assert volumes[..i + 1][..i] == volumes[..i];
        alternativeDelays := alternativeDelays + [CapacityRatioDelay(volumes[i], green)];
      }
      assert volumes[..|volumes|] == volumes;
      delays := alternativeDelays;
    }

    /** Derives the metrics from the two delay lists, stores them and
        returns them; the delay lists stay. */
    method ComparePlans() returns (metrics: EfficiencyMetrics)
      modifies this`efficiencyMetrics
      ensures metrics == ComparisonMetrics(baselineDelays, alternativeDelays)
      ensures efficiencyMetrics == Some(metrics)
      ensures baselineDelays == old(baselineDelays) && alternativeDelays == old(alternativeDelays)
    {
      metrics := ComparisonMetrics(baselineDelays, alternativeDelays);
      efficiencyMetrics := Some(metrics);
    }
  }

  /** Volumes 100, 150 and 120 at green 30 (capacity 15) and green 45
      (capacity 22.5): every reading is over capacity, and the longer green
      improves the mean delay by 1480/39 percent (about 37.9). */
  lemma ExampleDelays()
    ensures CapacityRatioDelays([100.0, 150.0, 120.0], 30.0) == [1700.0 / 3.0, 900.0, 700.0]
    ensures CapacityRatioDelays([100.0, 150.0, 120.0], 45.0) == [3100.0 / 9.0, 1700.0 / 3.0, 1300.0 / 3.0]
    ensures Sum([1700.0 / 3.0, 900.0, 700.0]) == 6500.0 / 3.0
    ensures Sum([3100.0 / 9.0, 1700.0 / 3.0, 1300.0 / 3.0]) == 12100.0 / 9.0
  {
    CapacityRatioDelaysEntries([100.0, 150.0, 120.0], 30.0);
    CapacityRatioDelaysEntries([100.0, 150.0, 120.0], 45.0);
    ExampleSum(1700.0 / 3.0, 900.0, 700.0);
    ExampleSum(3100.0 / 9.0, 1700.0 / 3.0, 1300.0 / 3.0);
  }

  lemma ExampleSum(a: real, b: real, c: real)
    ensures Sum([a, b, c]) == a + b + c
  {
    SumAppend([], a);
    SumAppend([a], b);
    SumAppend([a, b], c);
    assert [a] == [] + [a] && [a, b] == [a] + [b] && [a, b, c] == [a, b] + [c];
  }

  method AnalyzerExample() returns (metrics: EfficiencyMetrics)
    ensures metrics.baselineAvgDelay == 6500.0 / 9.0
    ensures metrics.alternativeAvgDelay == 12100.0 / 27.0
    ensures metrics.improvementPercentage == 1480.0 / 39.0
  {
    var data := new IntersectionData("TEST005", None, Some([100.0, 150.0, 120.0]));
    var analyzer := new SignalTimingAnalyzer(data);
    var baseline := analyzer.ComputeBaselineDelays(30.0);
    var alternative := analyzer.ComputeAlternativeDelays(45.0);
    ExampleDelays();
    metrics := analyzer.ComparePlans();
  }
}
