/** The cycle-relative delay estimate, the comparison of two plans over a
    list of volumes, and the generation of a plan from 24 hourly mean
    volumes. */
module TimingFunctions {
  import opened Basics
  import opened TimingPlans
  import opened DataProcessing

  const SaturationFlow: real := 1800.0   // vehicles per hour per lane
  const DefaultCycle: real := 90.0
  const FallbackGreen: real := 30.0
  const Clearance: real := 10.0
  const MinGreen: real := 20.0
  const MaxGreen: real := 60.0

  // ------------------------------------------------------------------ delay

  /** Capacity of an approach: the saturation flow scaled by the green share
      of the cycle. */
  function CycleCapacity(green: real, cycle: real): real
    requires cycle != 0.0
  {
    (green / cycle) * SaturationFlow
  }

  /** The undersaturated branch: half of (1 - v/c) times half the green. */
  function UnderDelay(vc: real, green: real): real {
    0.5 * (1.0 - vc) * (green / 2.0)
  }

  /** The oversaturated branch: half the green plus the excess ratio times
      the green. */
  function OverDelay(vc: real, green: real): real {
    0.5 * green + (vc - 1.0) * green
  }

  /** Average delay of one approach. A non-positive green, a zero cycle
      (division by zero, caught) or a non-positive capacity give 0; the
      result is clamped below at 0. */
  function CycleRelativeDelay(volume: real, green: real, cycle: real): (d: real)
    ensures d >= 0.0
    ensures d == 0.0 <==> green <= 0.0 || cycle <= 0.0
  {
    if green <= 0.0 then 0.0
    else if cycle == 0.0 then 0.0
    else
      var capacity := CycleCapacity(green, cycle);
      if capacity <= 0.0 then 0.0
      else
        var vc := volume / capacity;
        var delay := if vc < 1.0 then UnderDelay(vc, green) else OverDelay(vc, green);
        assert cycle > 0.0 ==> delay > 0.0 by {
          if cycle > 0.0 {
            PositiveDelay(vc, green);
          }
        }
        if delay > 0.0 then delay else 0.0
  }

  lemma PositiveDelay(vc: real, green: real)
    requires green > 0.0
    ensures vc < 1.0 ==> UnderDelay(vc, green) > 0.0
    ensures vc >= 1.0 ==> OverDelay(vc, green) >= 0.5 * green
  {
    if vc < 1.0 {
      assert (1.0 - vc) * green > 0.0;
    } else {
      assert (vc - 1.0) * green >= 0.0;
    }
  }

  lemma CapacityPositive(green: real, cycle: real)
    requires green > 0.0 && cycle > 0.0
    ensures CycleCapacity(green, cycle) > 0.0
  {
    assert green / cycle > 0.0;
  }

  /** Below capacity, for non-negative volume, the delay lies in (0, green/4]
      and it is green/4 exactly when the volume is zero: the estimate is not zero for an
      empty approach. */
  lemma UndersaturatedDelay(volume: real, green: real, cycle: real)
    requires green > 0.0 && cycle > 0.0
    requires 0.0 <= volume < CycleCapacity(green, cycle)
    ensures 0.0 < CycleRelativeDelay(volume, green, cycle) <= green / 4.0
    ensures volume == 0.0 <==> CycleRelativeDelay(volume, green, cycle) == green / 4.0
  {
    var capacity := CycleCapacity(green, cycle);
    CapacityPositive(green, cycle);
    var vc := volume / capacity;
    DivideByPositive(volume, volume, capacity);
    DivideByPositive(0.0, volume, capacity);
    assert 0.0 <= vc < 1.0;
    assert volume == 0.0 <==> vc == 0.0;
    assert UnderDelay(vc, green) == (1.0 - vc) * green / 4.0;
    ProductSign(vc, green);
    assert (1.0 - vc) * green <= green;
  }

  /** At or above capacity the delay is at least half the green. */
  lemma OversaturatedDelay(volume: real, green: real, cycle: real)
    requires green > 0.0 && cycle > 0.0
    requires volume >= CycleCapacity(green, cycle)
    ensures CycleRelativeDelay(volume, green, cycle) >= green / 2.0
  {
    CapacityPositive(green, cycle);
    var vc := volume / CycleCapacity(green, cycle);
    DivideByPositive(volume, volume, CycleCapacity(green, cycle));
    assert vc >= 1.0;
    PositiveDelay(vc, green);
  }

  /** Above capacity more volume means more delay. */
  lemma {:induction false} OversaturatedIncreasing(v1: real, v2: real, green: real, cycle: real)
    requires green > 0.0 && cycle > 0.0
    requires CycleCapacity(green, cycle) <= v1 < v2
    ensures CycleRelativeDelay(v1, green, cycle) < CycleRelativeDelay(v2, green, cycle)
  {
    var capacity := CycleCapacity(green, cycle);
    CapacityPositive(green, cycle);
    var vc1, vc2 := v1 / capacity, v2 / capacity;
    DivideByPositive(v1, v2, capacity);
    DivideByPositive(v1, v1, capacity);
    assert 1.0 <= vc1 < vc2;
    PositiveDelay(vc1, green);
    PositiveDelay(vc2, green);
    ProductSign(vc2 - vc1, green);
  }

  /** Below capacity more volume means LESS delay: the estimate is not
      monotone in volume. */
  lemma {:induction false} UndersaturatedDecreasing(v1: real, v2: real, green: real, cycle: real)
    requires green > 0.0 && cycle > 0.0
    requires 0.0 <= v1 < v2 < CycleCapacity(green, cycle)
    ensures CycleRelativeDelay(v2, green, cycle) < CycleRelativeDelay(v1, green, cycle)
  {
    var capacity := CycleCapacity(green, cycle);
    CapacityPositive(green, cycle);
    var vc1, vc2 := v1 / capacity, v2 / capacity;
    DivideByPositive(v1, v2, capacity);
    assert 0.0 <= vc1 < vc2 < 1.0;
    PositiveDelay(vc1, green);
    PositiveDelay(vc2, green);
    ProductSign(vc2 - vc1, green);
  }

  /** Every oversaturated delay exceeds every undersaturated one at the same
      green and cycle. */
  lemma OversaturatedExceedsUndersaturated(v1: real, v2: real, green: real, cycle: real)
    requires green > 0.0 && cycle > 0.0
    requires 0.0 <= v1 < CycleCapacity(green, cycle) <= v2
    ensures CycleRelativeDelay(v1, green, cycle) < CycleRelativeDelay(v2, green, cycle)
  {
    UndersaturatedDelay(v1, green, cycle);
    OversaturatedDelay(v2, green, cycle);
  }

  /** Worked values at cycle 90: zero volume with green 30 gives 7.5, volume
      300 with green 30 gives 3.75, volume 1000 with green 20 gives 40. */
  lemma DelayExamples()
    ensures CycleRelativeDelay(0.0, 30.0, 90.0) == 7.5
    ensures CycleRelativeDelay(300.0, 30.0, 90.0) == 3.75
    ensures CycleRelativeDelay(1000.0, 20.0, 90.0) == 40.0
    ensures CycleRelativeDelay(1000.0, 20.0, 90.0) > CycleRelativeDelay(300.0, 30.0, 90.0)
    ensures CycleRelativeDelay(0.0, 30.0, 90.0) > CycleRelativeDelay(300.0, 30.0, 90.0)
  {
    assert CycleCapacity(30.0, 90.0) == 600.0;
    assert CycleCapacity(20.0, 90.0) == 400.0;
  }

  // ------------------------------------------------------------- comparison

  /** The green a plan is judged by: the default approach's green if the
      plan has it, else some entry of the plan (the first, in dictionary
      order), else 30; also 30 when no default approach is given. */
  ghost function GreenFor(greens: map<string, real>, defaultApproach: Option<string>): (g: real)
    ensures !Truthy(defaultApproach) || |greens| == 0 ==> g == FallbackGreen
    ensures Truthy(defaultApproach) && defaultApproach.value in greens ==> g == greens[defaultApproach.value]
    ensures Truthy(defaultApproach) && |greens| > 0 ==> g in greens.Values
  {
    if Truthy(defaultApproach) then
      if defaultApproach.value in greens then greens[defaultApproach.value]
      else if |greens| > 0 then greens[Pick(greens)]
      else FallbackGreen
    else FallbackGreen
  }

  datatype PlanComparison = PlanComparison(
    baselineAvgDelay: real,
    alternativeAvgDelay: real,
    improvementPercent: real,
    delayPairs: seq<(real, real)>)

  /** The delay of each volume at one green and the default cycle. */
  function Delays(volumes: seq<real>, green: real): (ds: seq<real>)
    ensures |ds| == |volumes|
    ensures AllNonNegative(ds)
    ensures forall i :: 0 <= i < |ds| ==> ds[i] == CycleRelativeDelay(volumes[i], green, DefaultCycle)
  {
    seq(|volumes|, i requires 0 <= i < |volumes| => CycleRelativeDelay(volumes[i], green, DefaultCycle))
  }

  /** Relative improvement of a over b in percent; 0 when b is not positive. */
  function Improvement(b: real, a: real): (p: real)
    requires b >= 0.0 && a >= 0.0
    ensures p <= 100.0
    ensures p > 0.0 <==> a < b
    ensures p < 0.0 <==> b < a && b > 0.0
    ensures b > 0.0 ==> p * b == (b - a) * 100.0
  {
    if b > 0.0 then
      assert (b - a) / b * b == b - a;
      assert (b - a) / b <= 1.0;
      assert (b - a) / b > 0.0 <==> b - a > 0.0;
      assert (b - a) / b < 0.0 <==> b - a < 0.0;
      (b - a) / b * 100.0
    else 0.0
  }

  /** Both plans are judged at the default cycle of 90 s (their own cycle
      lengths play no part) on their representative greens. With no volumes
      everything is 0. Otherwise there is one pair of delays per volume, the
      averages are the means of each side, and the improvement is positive
      exactly when the alternative's average delay is lower. */
  ghost function CompareTimingPlans(baseline: TimingPlan, alternative: TimingPlan,
                                    volumes: seq<real>, defaultApproach: Option<string>): (r: PlanComparison)
    reads baseline, alternative
    ensures |volumes| == 0 ==> r == PlanComparison(0.0, 0.0, 0.0, [])
    ensures |r.delayPairs| == |volumes|
    ensures forall i :: 0 <= i < |volumes| ==>
              r.delayPairs[i]
              == (CycleRelativeDelay(volumes[i], GreenFor(baseline.greenTimes, defaultApproach), DefaultCycle),
                  CycleRelativeDelay(volumes[i], GreenFor(alternative.greenTimes, defaultApproach), DefaultCycle))
    ensures |volumes| > 0 ==>
              r.baselineAvgDelay == Mean(Delays(volumes, GreenFor(baseline.greenTimes, defaultApproach)))
              && r.alternativeAvgDelay == Mean(Delays(volumes, GreenFor(alternative.greenTimes, defaultApproach)))
    ensures r.baselineAvgDelay >= 0.0 && r.alternativeAvgDelay >= 0.0
    ensures r.improvementPercent == Improvement(r.baselineAvgDelay, r.alternativeAvgDelay)
    ensures r.improvementPercent <= 100.0
    ensures r.improvementPercent > 0.0 <==> r.alternativeAvgDelay < r.baselineAvgDelay
  {
    if |volumes| == 0 then PlanComparison(0.0, 0.0, 0.0, [])
    else
      var baseDelays := Delays(volumes, GreenFor(baseline.greenTimes, defaultApproach));
      var altDelays := Delays(volumes, GreenFor(alternative.greenTimes, defaultApproach));
      var pairs := seq(|volumes|, i requires 0 <= i < |volumes| => (baseDelays[i], altDelays[i]));
      var avgBase := Mean(baseDelays);
      var avgAlt := Mean(altDelays);
      MeanNonNegative(baseDelays);
      MeanNonNegative(altDelays);
      PlanComparison(avgBase, avgAlt, Improvement(avgBase, avgAlt), pairs)
  }

  /** Plans with the same representative green compare as equal. */
  lemma SameGreenNoImprovement(baseline: TimingPlan, alternative: TimingPlan,
                               volumes: seq<real>, defaultApproach: Option<string>)
    requires GreenFor(baseline.greenTimes, defaultApproach) == GreenFor(alternative.greenTimes, defaultApproach)
    ensures CompareTimingPlans(baseline, alternative, volumes, defaultApproach).improvementPercent == 0.0
    ensures CompareTimingPlans(baseline, alternative, volumes, defaultApproach).baselineAvgDelay
            == CompareTimingPlans(baseline, alternative, volumes, defaultApproach).alternativeAvgDelay
  {
  }

  // -------------------------------------------------------- plan generation

  /** The green of an hour: a tenth of its mean volume, clamped to [20, 60]. */
  function HourlyGreen(mean: real): (g: real)
    ensures MinGreen <= g <= MaxGreen
    ensures MinGreen <= mean * 0.1 <= MaxGreen ==> g == mean * 0.1
    ensures mean * 0.1 <= MinGreen ==> g == MinGreen
    ensures mean * 0.1 >= MaxGreen ==> g == MaxGreen
  {
    var scaled := mean * 0.1;
    var capped := if scaled < MaxGreen then scaled else MaxGreen;
    if capped > MinGreen then capped else MinGreen
  }

  /** More volume never gives less green. */
  lemma HourlyGreenMonotone(m1: real, m2: real)
    requires m1 <= m2
    ensures HourlyGreen(m1) <= HourlyGreen(m2)
  {
  }

  function HourlyGreens(means: seq<real>): (gs: seq<real>)
    ensures |gs| == |means|
    ensures forall i :: 0 <= i < |gs| ==> gs[i] == HourlyGreen(means[i])
  {
    seq(|means|, i requires 0 <= i < |means| => HourlyGreen(means[i]))
  }

  predicate Distinct(s: seq<string>) {
    forall i, j :: 0 <= i < j < |s| ==> s[i] != s[j]
  }

  /** The approach values of the rows, each once, in order of first
      appearance; rows without an approach contribute none. */
  function UniqueApproaches(rows: seq<Row>): (u: seq<string>)
    ensures Distinct(u)
    ensures forall a :: a in u <==> exists i :: 0 <= i < |rows| && rows[i].approach == Some(a)
  {
    if |rows| == 0 then []
    else
      var prefix := UniqueApproaches(rows[..|rows| - 1]);
      var last := rows[|rows| - 1].approach;
      assert forall i :: 0 <= i < |rows| - 1 ==> rows[..|rows| - 1][i] == rows[i];
      if last.Some? && last.value !in prefix then prefix + [last.value] else prefix
  }

  /** Approach a occurs in some row before approach b first occurs. */
  predicate AppearsBefore(rows: seq<Row>, a: string, b: string) {
    exists p :: 0 <= p < |rows| && rows[p].approach == Some(a)
                && forall q :: 0 <= q <= p ==> rows[q].approach != Some(b)
  }

  /** The approaches come in order of first appearance. */
  lemma {:induction false} UniqueApproachesInFirstAppearanceOrder(rows: seq<Row>)
    ensures forall i, j :: 0 <= i < j < |UniqueApproaches(rows)| ==>
              AppearsBefore(rows, UniqueApproaches(rows)[i], UniqueApproaches(rows)[j])
  {
    if |rows| > 0 {
      var front := rows[..|rows| - 1];
      var last := rows[|rows| - 1];
      assert rows == front + [last];
      UniqueApproachesInFirstAppearanceOrder(front);
      var prefix := UniqueApproaches(front);
      var u := UniqueApproaches(rows);
      forall i, j | 0 <= i < j < |u|
        ensures AppearsBefore(rows, u[i], u[j])
      {
        if j < |prefix| {
          AppearsBeforeExtend(front, last, prefix[i], prefix[j]);
        } else {
          assert prefix[i] in prefix;
          var p :| 0 <= p < |front| && front[p].approach == Some(prefix[i]);
          AppearsBeforeNew(front, last, p, u[j]);
        }
      }
    }
  }

  lemma AppearsBeforeExtend(front: seq<Row>, last: Row, a: string, b: string)
    requires AppearsBefore(front, a, b)
    ensures AppearsBefore(front + [last], a, b)
  {
    var p :| 0 <= p < |front| && front[p].approach == Some(a)
             && forall q :: 0 <= q <= p ==> front[q].approach != Some(b);
    assert (front + [last])[p] == front[p];
    assert forall q :: 0 <= q <= p ==> (front + [last])[q] == front[q];
  }

  lemma AppearsBeforeNew(front: seq<Row>, last: Row, p: int, b: string)
    requires 0 <= p < |front| && front[p].approach.Some?
    requires forall q :: 0 <= q < |front| ==> front[q].approach != Some(b)
    ensures AppearsBefore(front + [last], front[p].approach.value, b)
  {
    assert (front + [last])[p] == front[p];
    assert forall q :: 0 <= q <= p ==> (front + [last])[q] == front[q];
  }

  /** The approaches a plan is generated for: the distinct approach values
      when the table has that column, else the single approach North. */
  function Approaches(t: Table): (a: seq<string>)
    ensures Distinct(a)
    ensures "approach" !in t.columns ==> a == ["North"]
  {
    if "approach" in t.columns then UniqueApproaches(t.rows) else ["North"]
  }

  /** A green scaled for the plan variant: 1.2 times for the alternative
      plan, unchanged (times 1.0) for the baseline. */
  function Scaled(green: real, alternative: bool): real {
    if alternative then green * 1.2 else green * 1.0
  }

  /** The green-time map the loop builds: approach i gets the green of hour
      i mod 24, scaled; a later duplicate would overwrite. */
  function GreenTimeMap(approaches: seq<string>, byHour: seq<real>, alternative: bool): (m: map<string, real>)
    requires |byHour| == 24
    ensures forall a :: a in m <==> a in approaches
  {
    if |approaches| == 0 then map[]
    else
      var n := |approaches| - 1;
      GreenTimeMap(approaches[..n], byHour, alternative)[approaches[n] := Scaled(byHour[n % 24], alternative)]
  }

  /** For distinct approaches every one keeps the green of its own position. */
  lemma {:induction false} GreenTimeMapValues(approaches: seq<string>, byHour: seq<real>, alternative: bool)
    requires |byHour| == 24 && Distinct(approaches)
    ensures forall i :: 0 <= i < |approaches| ==>
              GreenTimeMap(approaches, byHour, alternative)[approaches[i]] == Scaled(byHour[i % 24], alternative)
  {
    if |approaches| > 0 {
      var n := |approaches| - 1;
      var prefix := approaches[..n];
      assert Distinct(prefix);
      GreenTimeMapValues(prefix, byHour, alternative);
      var m := GreenTimeMap(approaches, byHour, alternative);
      forall i | 0 <= i < |approaches|
        ensures m[approaches[i]] == Scaled(byHour[i % 24], alternative)
      {
        if i < n {
          assert prefix[i] == approaches[i];
          assert approaches[i] != approaches[n];
        }
      }
    }
  }

  /** For distinct approaches the map has one entry per approach. */
  lemma GreenTimeMapCount(approaches: seq<string>, byHour: seq<real>, alternative: bool)
    requires |byHour| == 24 && Distinct(approaches)
    ensures |GreenTimeMap(approaches, byHour, alternative)| == |approaches|
  {
    DistinctCount(approaches);
    assert GreenTimeMap(approaches, byHour, alternative).Keys == set x | x in approaches;
  }

  /** Every green lies between the scaled minimum and maximum. */
  lemma {:induction false} GreenTimeMapBounds(approaches: seq<string>, means: seq<real>, alternative: bool)
    requires |means| == 24
    ensures forall a :: a in GreenTimeMap(approaches, HourlyGreens(means), alternative) ==>
              Scaled(MinGreen, alternative) <= GreenTimeMap(approaches, HourlyGreens(means), alternative)[a]
              <= Scaled(MaxGreen, alternative)
  {
    if |approaches| > 0 {
      var n := |approaches| - 1;
      GreenTimeMapBounds(approaches[..n], means, alternative);
    }
  }

  /** The alternative plan's greens are the baseline's times 1.2. */
  lemma {:induction false} AlternativeScalesGreens(approaches: seq<string>, byHour: seq<real>)
    requires |byHour| == 24
    ensures forall a :: a in approaches ==>
              GreenTimeMap(approaches, byHour, true)[a] == 1.2 * GreenTimeMap(approaches, byHour, false)[a]
  {
    if |approaches| > 0 {
      var n := |approaches| - 1;
      AlternativeScalesGreens(approaches[..n], byHour);
      forall a | a in approaches[..n] ensures a in approaches { }
    }
  }

  /** Scaling every value by 1.2 scales their sum by 1.2. */
  lemma {:induction false} SumValuesScaled(m: map<string, real>, scaled: map<string, real>)
    requires scaled.Keys == m.Keys
    requires forall k :: k in m ==> scaled[k] == 1.2 * m[k]
    ensures SumValues(scaled) == 1.2 * SumValues(m)
    decreases |m|
  {
    if |m| == 0 {
      assert scaled == map[];
    } else {
      var k :| k in m;
      var m', scaled' := m - {k}, scaled - {k};
      assert scaled'.Keys == m'.Keys;
      SumValuesScaled(m', scaled');
      SumValuesRemove(m, k);
      SumValuesRemove(scaled, k);
    }
  }

  /** The green map and cycle of a generated plan. */
  ghost predicate IsGeneratedPlan(plan: TimingPlan, t: Table, hourlyMeans: seq<real>, alternative: bool)
    reads plan
    requires |hourlyMeans| == 24
  {
    && plan.greenTimes == GreenTimeMap(Approaches(t), HourlyGreens(hourlyMeans), alternative)
    && plan.cycleLength == SumValues(plan.greenTimes) + Clearance
    && plan.phaseDurations == []
  }

  /** Fills the green-time dictionary approach by approach. */
  method BuildGreenTimes(approaches: seq<string>, byHour: seq<real>, alternative: bool)
    returns (greens: map<string, real>)
    requires |byHour| == 24
    ensures greens == GreenTimeMap(approaches, byHour, alternative)
  {
    greens := map[];
    for idx := 0 to |approaches|
      invariant greens == GreenTimeMap(approaches[..idx], byHour, alternative)
    {
      assert approaches[..idx + 1][..idx] == approaches[..idx];
      assert approaches[..idx + 1][idx] == approaches[idx];
      greens := greens[approaches[idx] := Scaled(byHour[idx % 24], alternative)];
    }
    assert approaches[..|approaches|] == approaches;
  }

  /** Builds a baseline (or, with alternative, a 1.2 times longer) plan from
      the 24 hourly mean volumes. No table, a table without rows, or one
      without hour and count columns is an error. */
  method GenerateTimingPlan(data: Option<Table>, hourlyMeans: seq<real>, alternative: bool)
    returns (r: Result<TimingPlan>)
    requires |hourlyMeans| == 24
    ensures r.Err? <==> data.None? || |data.value.rows| == 0
                        || "hour" !in data.value.columns || "count" !in data.value.columns
    ensures r.Ok? ==> fresh(r.value) && IsGeneratedPlan(r.value, data.value, hourlyMeans, alternative)
  {
    if data.None? || |data.value.rows| == 0 {
      return Err(EmptyInput);
    }
    if "hour" !in data.value.columns || "count" !in data.value.columns {
      return Err(MissingColumns({"hour", "count"} - data.value.columns));
    }
    var greensByHour := HourlyGreens(hourlyMeans);
    var approaches := Approaches(data.value);
    var greens := BuildGreenTimes(approaches, greensByHour, alternative);
    var total := SumOfValues(greens);
    var plan := new TimingPlan(Some(greens), total + Clearance);
    return Ok(plan);
  }

  /** A distinct sequence has as many elements as its set of elements. */
  lemma {:induction false} DistinctCount(s: seq<string>)
    requires Distinct(s)
    ensures |set x | x in s| == |s|
  {
    if |s| > 0 {
      var n := |s| - 1;
      DistinctCount(s[..n]);
      assert (set x | x in s) == (set x | x in s[..n]) + {s[n]};
      assert s[n] !in s[..n];
    }
  }

  /** A generated plan times one approach per distinct approach value, and
      each green lies between the scaled bounds 20 and 60. */
  lemma GeneratedPlanGreens(t: Table, hourlyMeans: seq<real>, alternative: bool, greens: map<string, real>)
    requires |hourlyMeans| == 24
    requires greens == GreenTimeMap(Approaches(t), HourlyGreens(hourlyMeans), alternative)
    ensures |greens| == |Approaches(t)|
    ensures forall a :: a in greens <==> a in Approaches(t)
    ensures forall a :: a in greens ==>
              Scaled(MinGreen, alternative) <= greens[a] <= Scaled(MaxGreen, alternative)
  {
    GreenTimeMapCount(Approaches(t), HourlyGreens(hourlyMeans), alternative);
    GreenTimeMapBounds(Approaches(t), hourlyMeans, alternative);
  }

  /** The cycle of a generated plan is the clearance plus between 20 and 60
      seconds per approach for the baseline, between 24 and 72 for the
      alternative (the map has one key per approach). */
  lemma GeneratedPlanCycle(t: Table, hourlyMeans: seq<real>, alternative: bool, plan: TimingPlan)
    requires |hourlyMeans| == 24
    requires IsGeneratedPlan(plan, t, hourlyMeans, alternative)
    ensures !alternative ==> 20.0 * |plan.greenTimes| as real + 10.0 <= plan.cycleLength
                             <= 60.0 * |plan.greenTimes| as real + 10.0
    ensures alternative ==> 24.0 * |plan.greenTimes| as real + 10.0 <= plan.cycleLength
                            <= 72.0 * |plan.greenTimes| as real + 10.0
  {
    GeneratedPlanGreens(t, hourlyMeans, alternative, plan.greenTimes);
    CycleBounds(plan.greenTimes, plan.cycleLength, alternative);
  }

  lemma CycleBounds(greens: map<string, real>, cycle: real, alternative: bool)
    requires forall a :: a in greens ==> Scaled(MinGreen, alternative) <= greens[a] <= Scaled(MaxGreen, alternative)
    requires cycle == SumValues(greens) + Clearance
    ensures !alternative ==> 20.0 * |greens| as real + 10.0 <= cycle <= 60.0 * |greens| as real + 10.0
    ensures alternative ==> 24.0 * |greens| as real + 10.0 <= cycle <= 72.0 * |greens| as real + 10.0
  {
    if alternative {
      SumValuesBetween(greens, 24.0, 72.0);
      TimesIsProduct(24.0, |greens|);
      TimesIsProduct(72.0, |greens|);
    } else {
      SumValuesBetween(greens, 20.0, 60.0);
      TimesIsProduct(20.0, |greens|);
      TimesIsProduct(60.0, |greens|);
    }
  }

  /** The alternative plan's greens are 1.2 times the baseline's, so its
      cycle less clearance is 1.2 times the baseline's cycle less clearance. */
  lemma AlternativeCycle(t: Table, hourlyMeans: seq<real>)
    requires |hourlyMeans| == 24
    ensures var base := GreenTimeMap(Approaches(t), HourlyGreens(hourlyMeans), false);
            var alt := GreenTimeMap(Approaches(t), HourlyGreens(hourlyMeans), true);
            && alt.Keys == base.Keys
            && (forall a :: a in alt ==> alt[a] == 1.2 * base[a])
            && SumValues(alt) == 1.2 * SumValues(base)
  {
    var base := GreenTimeMap(Approaches(t), HourlyGreens(hourlyMeans), false);
    var alt := GreenTimeMap(Approaches(t), HourlyGreens(hourlyMeans), true);
    AlternativeScalesGreens(Approaches(t), HourlyGreens(hourlyMeans));
    SumValuesScaled(base, alt);
  }
}
