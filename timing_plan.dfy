/** A signal timing plan: green seconds per approach, a cycle length, and a
    list of phase durations that only grows by appending. Two plans combine
    into a fresh third one; neither operand changes. */
module TimingPlans {
  import opened Basics

  /** The green time that combining gives approach k. Both sides are read with
      a default of 0; the two values are averaged when both plans know k;
      otherwise the left value is kept if it is positive, else the right one. */
  function MergedGreen(a: map<string, real>, b: map<string, real>, k: string): real {
    var selfTime := if k in a then a[k] else 0.0;
    var otherTime := if k in b then b[k] else 0.0;
    if k in a && k in b then (selfTime + otherTime) / 2.0
    else if selfTime > 0.0 then selfTime
    else otherTime
  }

  /** The green-time map of a combined plan. The rule for an approach that
      only one plan has is asymmetric: a right-only value is kept whatever
      its sign, a left-only value that is not positive becomes 0. */
  function MergeGreenTimes(a: map<string, real>, b: map<string, real>): (r: map<string, real>)
    ensures r.Keys == a.Keys + b.Keys
    ensures forall k :: k in a && k in b ==> r[k] == (a[k] + b[k]) / 2.0
    ensures forall k :: k in a && k !in b ==> r[k] == (if a[k] > 0.0 then a[k] else 0.0)
    ensures forall k :: k !in a && k in b ==> r[k] == b[k]
  {
    map k | k in a.Keys + b.Keys :: MergedGreen(a, b, k)
  }

  class TimingPlan {
    var greenTimes: map<string, real>
    var cycleLength: real
    var phaseDurations: seq<real>

    /** A missing green-time map stands for an empty one; phases start empty. */
    constructor (greenTimes: Option<map<string, real>>, cycleLength: real)
      ensures this.greenTimes == (if greenTimes.Some? then greenTimes.value else map[])
      ensures this.cycleLength == cycleLength
      ensures phaseDurations == []
    {
      this.greenTimes := if greenTimes.Some? then greenTimes.value else map[];
      this.cycleLength := cycleLength;
      this.phaseDurations := [];
    }

    /** Combines this plan with other into a new plan. Neither operand is
        modified (the method has no modifies clause). */
    method Add(other: TimingPlan) returns (combined: TimingPlan)
      ensures fresh(combined)
      ensures combined.greenTimes == MergeGreenTimes(greenTimes, other.greenTimes)
      ensures combined.cycleLength == (cycleLength + other.cycleLength) / 2.0
      ensures combined.phaseDurations == []
    {
      combined := new TimingPlan(Some(MergeGreenTimes(greenTimes, other.greenTimes)),
                                 (cycleLength + other.cycleLength) / 2.0);
    }

    /** Appends one phase duration; green times and cycle length stay. */
    method AddPhaseDuration(duration: real)
      modifies this`phaseDurations
      ensures phaseDurations == old(phaseDurations) + [duration]
      ensures greenTimes == old(greenTimes) && cycleLength == old(cycleLength)
    {
      phaseDurations := phaseDurations + [duration];
    }

    /** Sum of the green times of all approaches. */
    method GetTotalGreenTime() returns (total: real)
      ensures total == SumValues(greenTimes)
    {
      total := SumOfValues(greenTimes);
    }

    /** Number of approaches the plan times. */
    function GetApproachCount(): (n: nat)
      reads this
      ensures n == |greenTimes.Keys|
    {
      |greenTimes|
    }
  }

  /** Combining a plan with itself gives back its green times. */
  lemma MergeSelf(a: map<string, real>)
    ensures MergeGreenTimes(a, a) == a
  {
    var r := MergeGreenTimes(a, a);
    assert forall k :: k in r ==> r[k] == a[k];
  }

  /** The asymmetry only shows for green times that are not positive: when
      all values are positive, the operands may be swapped. */
  lemma MergeCommutesWhenPositive(a: map<string, real>, b: map<string, real>)
    requires forall k :: k in a ==> a[k] > 0.0
    requires forall k :: k in b ==> b[k] > 0.0
    ensures MergeGreenTimes(a, b) == MergeGreenTimes(b, a)
  {
    var r, s := MergeGreenTimes(a, b), MergeGreenTimes(b, a);
    assert forall k :: k in r ==> r[k] == s[k];
  }

  /** A non-positive green time is dropped to 0 on the left but kept on the
      right: the order of the operands matters. */
  lemma MergeIsAsymmetric()
    ensures MergeGreenTimes(map["North" := -5.0], map[]) == map["North" := 0.0]
    ensures MergeGreenTimes(map[], map["North" := -5.0]) == map["North" := -5.0]
  {
    var l := MergeGreenTimes(map["North" := -5.0], map[]);
    var r := MergeGreenTimes(map[], map["North" := -5.0]);
    assert l.Keys == {"North"} && l["North"] == 0.0;
    assert r.Keys == {"North"} && r["North"] == -5.0;
  }

  /** The combined plan times at least as many approaches as either operand
      and at most as many as both together. */
  lemma MergeApproachCount(a: map<string, real>, b: map<string, real>)
    ensures |a| <= |MergeGreenTimes(a, b)| <= |a| + |b|
    ensures |b| <= |MergeGreenTimes(a, b)|
  {
    var r := MergeGreenTimes(a, b);
    var u := a.Keys + b.Keys;
    assert |r| == |u|;
    assert |u| + |a.Keys * b.Keys| == |a.Keys| + |b.Keys|;
    assert a.Keys == u - (b.Keys - a.Keys);
    assert b.Keys == u - (a.Keys - b.Keys);
  }

  /** Chained combination is a left fold: for an approach all three plans
      share, (a + b) + c weighs c twice as much as a or b, and agrees with
      the three-way mean only when c is already the mean of a and b. */
  lemma ChainedMergeIsLeftFold(a: map<string, real>, b: map<string, real>, c: map<string, real>, k: string)
    requires k in a && k in b && k in c
    ensures MergeGreenTimes(MergeGreenTimes(a, b), c)[k] == (a[k] + b[k]) / 4.0 + c[k] / 2.0
    ensures MergeGreenTimes(MergeGreenTimes(a, b), c)[k] == (a[k] + b[k] + c[k]) / 3.0
            <==> 2.0 * c[k] == a[k] + b[k]
  {
  }

  /** Two plans from the documentation: North is averaged, South and East
      are carried over, the cycle is averaged. */
  method MergeExample() returns (combined: TimingPlan)
    ensures combined.greenTimes == map["North" := 32.5, "South" := 25.0, "East" := 20.0]
    ensures combined.cycleLength == 125.0
  {
    var plan1 := new TimingPlan(Some(map["North" := 30.0, "South" := 25.0]), 120.0);
    var plan2 := new TimingPlan(Some(map["North" := 35.0, "East" := 20.0]), 130.0);
    combined := plan1.Add(plan2);
    assert combined.greenTimes.Keys == {"North", "South", "East"};
  }

  /** Three single-approach plans chained left to right give North 36.25 and
      cycle 132.5, not the three-way means 35 and 130. */
  method ChainExample() returns (combined: TimingPlan)
    ensures combined.greenTimes == map["North" := 36.25]
    ensures combined.cycleLength == 132.5
  {
    var plan1 := new TimingPlan(Some(map["North" := 30.0]), 120.0);
    var plan2 := new TimingPlan(Some(map["North" := 35.0]), 130.0);
    var plan3 := new TimingPlan(Some(map["North" := 40.0]), 140.0);
    var first := plan1.Add(plan2);
    combined := first.Add(plan3);
    assert first.greenTimes.Keys == {"North"};
    assert combined.greenTimes.Keys == {"North"};
  }

  /** North 30, South 25 and East 20 give a total green of 75 over three
      approaches. */
  method TotalsExample() returns (total: real, count: nat)
    ensures total == 75.0 && count == 3
  {
    var greens := map["North" := 30.0, "South" := 25.0, "East" := 20.0];
    var plan := new TimingPlan(Some(greens), 120.0);
    ExampleGreens();
    total := plan.GetTotalGreenTime();
    count := plan.GetApproachCount();
  }

  lemma ExampleGreens()
    ensures SumValues(map["North" := 30.0, "South" := 25.0, "East" := 20.0]) == 75.0
    ensures |map["North" := 30.0, "South" := 25.0, "East" := 20.0].Keys| == 3
  {
    SumValuesInsert(map[], "North", 30.0);
    SumValuesInsert(map["North" := 30.0], "South", 25.0);
    SumValuesInsert(map["North" := 30.0, "South" := 25.0], "East", 20.0);
    assert SumValues(map[]) == 0.0;
    assert map["North" := 30.0, "South" := 25.0, "East" := 20.0].Keys == {"North", "South", "East"};
  }
}
