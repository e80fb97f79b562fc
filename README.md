# Traffic-signal timing evaluator — Dafny model

This project models the quantitative core of a traffic-signal timing
evaluator and proves properties about it. The evaluator estimates vehicle
delay at a signalised intersection under a baseline and an alternative
signal timing plan, and compares the two plans. The model covers five
parts, one Dafny module per source file:

- `TimingPlans` (timing_plan.py). A timing plan has green seconds per
  approach, a cycle length and a list of phase durations that only grows.
  Two plans combine into a new plan. The merge rule is asymmetric for an
  approach that only one plan has.
- `TimingFunctions` (timing_functions.py) holds three things:
  - the cycle-relative delay estimate, a piecewise formula on the
    volume-to-capacity ratio;
  - the comparison of two plans over a list of volumes;
  - the generation of a plan from 24 hourly mean volumes.
- `SignalAnalysis` (signal_analyzer.py) holds two things:
  - the capacity-ratio delay estimate;
  - the `SignalTimingAnalyzer` class. It fills its baseline and alternative
    delay lists in loops and derives five efficiency metrics.
- `DataProcessing` (data_processor.py) works on an abstract table. A table
  is a set of column names and a sequence of rows with optional cells. The
  module covers:
  - the required-column check;
  - the cleaning filters;
  - record streaming;
  - grouping by intersection and day;
  - the 24-bin hourly aggregation;
  - the data validation verdict.
- `Intersections` (intersection_data.py). An intersection has an
  append-only list of volume readings, with total, average and summary
  queries.

`Basics` holds the shared vocabulary:
- `Option`, `Result` and the `Failure` reasons;
- sums over sequences and over the values of a map;
- an order-preserving `Filter`.

All arithmetic is on `real`.

Classes model the objects the source updates in place:
- `TimingPlan`, `IntersectionData` and `SignalTimingAnalyzer` are classes.
- Their updating methods carry `modifies` frames.
- Their methods state the whole new state, including that the other fields
  are unchanged.

The loops of the source are methods with loop invariants, each proved
against a specification function:
- the green-time dictionary of plan generation;
- the two delay loops of the analyser;
- the 24 hourly bins;
- grouping;
- `sum(d.values())`.

Python dictionaries are maps. Their iteration order is not modelled. So
"the first entry of a plan", used by the plan comparison, is some entry.
Which one is left unspecified (`Basics.Pick`). The sum of a map's values is
proved not to depend on the order of traversal (`Basics.SumValuesRemove`).

Where the code's own tests expect something the code does not do, the
model follows the code:

1. tests/test_delay_calculations.py:34-35 says that higher volume should
   give higher delay. It compares volume 1000 at green 20 with volume 300
   at green 30, and that comparison does hold
   (`TimingFunctions.DelayExamples`). At a fixed green, however, neither
   estimate is monotone in volume.
   - The cycle-relative estimate gives green/4 at zero volume, and only at
     zero volume (`TimingFunctions.UndersaturatedDelay`). It falls as volume
     grows below capacity (`TimingFunctions.UndersaturatedDecreasing`), then
     jumps up at capacity
     (`TimingFunctions.OversaturatedExceedsUndersaturated`).
   - The capacity-ratio estimate is 0 at zero volume. It is increasing
     within each regime, but it falls at capacity: green 30 gives 10 at
     volume 15 and 20/3 at volume 16
     (`SignalAnalysis.CapacityRatioNotMonotone`).
2. The docstrings at test_exception_handling.py:26, 36 and 46 say that a
   zero or negative green raises ValueError. The assertions there expect an
   empty list instead (lines 32, 42 and 52). The code does neither: it
   returns one delay of 0 per volume (signal_analyzer.py:86-102, modelled by
   `SignalAnalysis.CapacityRatioDelaysEntries`).
3. test_exception_handling.py:90-98 expects an empty dictionary when
   aggregating an empty table. The code raises instead
   (data_processor.py:115-116), and `DataProcessing.AggregateByHour`
   returns an error. The test at lines 101-116 aggregates a table whose
   counts are in a `volume` column. That table lacks the `count` column, so
   the code raises (data_processor.py:118-121), and so does the model.

## Model

| member | source | states |
|---|---|---|
| TimingPlans.MergeGreenTimes | timing_plan.py:77-91 | the merged approaches are exactly the union of both plans' approaches; an approach in both gets the mean of the two greens; one only on the right keeps that value whatever its sign; one only on the left keeps its value if positive, else 0 |
| TimingPlans.TimingPlan.constructor | timing_plan.py:39-45 | a missing green-time map becomes the empty map, the cycle is stored, phase durations start empty |
| TimingPlans.TimingPlan.Add | timing_plan.py:72-97 | combining returns a fresh plan with the merged greens, the mean cycle length and no phase durations; neither operand changes (no modifies clause) |
| TimingPlans.TimingPlan.AddPhaseDuration | timing_plan.py:130-138 | exactly one duration is appended at the end; green times and cycle length are unchanged |
| TimingPlans.TimingPlan.GetTotalGreenTime | timing_plan.py:140-147 | the result is the sum of the plan's green times |
| TimingPlans.TimingPlan.GetApproachCount | timing_plan.py:149-156 | the result is the number of approaches in the green-time map |
| TimingPlans.MergeSelf | timing_plan.py:81-91 | merging a green-time map with itself gives it back unchanged |
| TimingPlans.MergeCommutesWhenPositive | timing_plan.py:83-91 | when all greens are positive the operands may be swapped |
| TimingPlans.MergeIsAsymmetric | timing_plan.py:83-91 | a green of -5 only on the left becomes 0, only on the right stays -5 |
| TimingPlans.MergeApproachCount | timing_plan.py:77-91 | the merged plan has at least as many approaches as either operand and at most as many as both together |
| TimingPlans.ChainedMergeIsLeftFold | timing_plan.py:87-88 | for an approach in three plans, (a + b) + c gives (a + b)/4 + c/2, which equals the three-way mean only if c is the mean of a and b |
| TimingPlans.MergeExample | timing_plan.py:63-70 | North 30 and 35 give 32.5, South 25 and East 20 are kept, cycles 120 and 130 give 125 |
| TimingPlans.ChainExample | test_timing_plan.py:134-149 | greens 30, 35, 40 and cycles 120, 130, 140 chained give 36.25 and 132.5 |
| TimingPlans.TotalsExample | test_timing_plan.py:118-131 | greens 30, 25 and 20 give total green 75 over 3 approaches |
| Basics.SumValuesRemove | timing_plan.py:147 | the sum of a dictionary's values does not depend on which key is taken first |
| Basics.SumOfValues | timing_plan.py:147 | traversing the dictionary and adding its values gives the sum of its values |
| Basics.SumValuesBetween | timing_functions.py:102 | when every value lies in [lo, hi], the sum of the n values lies between n copies of lo and n copies of hi |
| TimingFunctions.CycleRelativeDelay | timing_functions.py:37-66 | the delay is never negative, and it is 0 exactly when the green or the cycle is not positive |
| TimingFunctions.UndersaturatedDelay | timing_functions.py:58-59 | below capacity and for non-negative volume the delay lies in (0, green/4], and it is green/4 exactly when the volume is zero |
| TimingFunctions.OversaturatedDelay | timing_functions.py:60-61 | at or above capacity the delay is at least green/2 |
| TimingFunctions.OversaturatedIncreasing | timing_functions.py:60-61 | above capacity the delay strictly increases with volume |
| TimingFunctions.UndersaturatedDecreasing | timing_functions.py:58-59 | below capacity the delay strictly decreases with volume |
| TimingFunctions.OversaturatedExceedsUndersaturated | timing_functions.py:57-63 | every oversaturated delay exceeds every non-negative undersaturated one at the same green and cycle |
| TimingFunctions.DelayExamples | tests/test_delay_calculations.py:21-35 | at cycle 90: volume 0 with green 30 gives 7.5; volume 300 with green 30 gives 3.75; volume 1000 with green 20 gives 40, which is higher |
| TimingFunctions.GreenFor | timing_functions.py:129-132 | the representative green is the default approach's green if present, else some entry of the plan, else 30; it is 30 when no default approach is given |
| TimingFunctions.Delays | timing_functions.py:137-138 | one delay per volume, each at the given green and cycle 90, none negative |
| TimingFunctions.Improvement | timing_functions.py:145 | the improvement is at most 100; it is positive iff the alternative average is lower; it is negative iff the alternative average is higher and the baseline positive; times the baseline average it is 100 times the difference |
| TimingFunctions.CompareTimingPlans | timing_functions.py:110-151 | with no volumes, everything is 0 and there are no pairs. Otherwise there is one pair per volume, pair i being the delays of volume i at the two representative greens and cycle 90. The averages are the means of each side and are non-negative. The improvement is the percentage reduction of the average delay, `Improvement` of the two averages: (baseline − alternative)/baseline · 100, or 0 for a zero baseline. It is at most 100, and positive exactly when the alternative's average is lower |
| TimingFunctions.SameGreenNoImprovement | timing_functions.py:134-145 | plans with the same representative green have equal averages and zero improvement |
| TimingFunctions.HourlyGreen | timing_functions.py:90 | an hour's green is a tenth of its mean volume clamped to [20, 60] |
| TimingFunctions.HourlyGreenMonotone | timing_functions.py:90 | a larger hourly mean never gives a smaller green |
| TimingFunctions.UniqueApproaches | timing_functions.py:95 | the approaches are distinct and are exactly the approach values occurring in the rows |
| TimingFunctions.UniqueApproachesInFirstAppearanceOrder | timing_functions.py:95 | the approaches come in order of first appearance: of any two, the earlier one occurs in some row before the later one first occurs. This order decides which hour's green each approach gets |
| TimingFunctions.Approaches | timing_functions.py:95 | the approaches of a plan are distinct, and are North alone when the table has no approach column |
| TimingFunctions.GreenTimeMap | timing_functions.py:96-100 | the green-time map has exactly the listed approaches as keys |
| TimingFunctions.GreenTimeMapValues | timing_functions.py:98-100 | approach number i gets the green of hour i mod 24, scaled for the plan variant |
| TimingFunctions.GreenTimeMapCount | timing_functions.py:98-100 | the green-time map has one entry per approach |
| TimingFunctions.GreenTimeMapBounds | timing_functions.py:90-100 | every generated green lies between the scaled bounds 20 and 60 |
| TimingFunctions.AlternativeScalesGreens | timing_functions.py:100 | every alternative green is 1.2 times the baseline green of the same approach |
| TimingFunctions.BuildGreenTimes | timing_functions.py:96-100 | the loop over the approaches builds exactly the green-time map |
| TimingFunctions.GenerateTimingPlan | timing_functions.py:69-107 | no table, no rows, or a missing hour or count column is an error. Otherwise the result is a fresh plan whose greens are the green-time map and whose cycle is the sum of the greens plus 10 |
| TimingFunctions.GeneratedPlanGreens | timing_functions.py:90-100 | a generated plan has one approach per distinct approach value, each green between the scaled bounds 20 and 60 |
| TimingFunctions.GeneratedPlanCycle | timing_functions.py:102 | a generated cycle is 10 plus 20 to 60 seconds per approach for the baseline, and 10 plus 24 to 72 for the alternative |
| TimingFunctions.AlternativeCycle | timing_functions.py:100-102 | the alternative plan has the same approaches as the baseline; its greens, and so their sum, are 1.2 times the baseline's |
| SignalAnalysis.GreenCapacity | signal_analyzer.py:76-83 | capacity is half the green time |
| SignalAnalysis.CapacityRatioDelay | signal_analyzer.py:86-99 | no green gives 0. Up to capacity the delay is 20·v/green. Above capacity it is 200·v/green − 100. It is non-negative for non-negative volume |
| SignalAnalysis.CapacityRatioRegimes | signal_analyzer.py:91-96 | zero volume gives 0; at most capacity gives at most 10; above capacity gives more than 0 |
| SignalAnalysis.CapacityRatioMonotoneWithinRegime | signal_analyzer.py:91-96 | within each regime, more volume gives more delay |
| SignalAnalysis.CapacityRatioNotMonotone | signal_analyzer.py:91-96 | with green 30, volume 15 gives 10 but volume 16 gives 20/3 |
| SignalAnalysis.CapacityRatioDelaysEntries | signal_analyzer.py:86-102 | entry i of the list is the delay of volume i; all entries are 0 without green; no entry is negative when no volume is |
| SignalAnalysis.ComparisonMetrics | signal_analyzer.py:181-211 | either list empty gives all-zero metrics. Otherwise the averages are the means and the reduction is their difference. Throughput change equals improvement. Improvement times the baseline mean is 100 times the reduction, and improvement is 0 for a non-positive baseline mean |
| SignalAnalysis.ImprovementBounds | signal_analyzer.py:202-211 | for non-negative delays, improvement is at most 100 and is positive iff the reduction is |
| SignalAnalysis.SignalTimingAnalyzer.constructor | signal_analyzer.py:39-48 | the analyser keeps its intersection, both delay lists start empty, and there are no metrics yet |
| SignalAnalysis.SignalTimingAnalyzer.ComputeBaselineDelays | signal_analyzer.py:72-104 | the baseline list is replaced by the delay of each volume, in order, and returned; the other fields are unchanged |
| SignalAnalysis.SignalTimingAnalyzer.ComputeAlternativeDelays | signal_analyzer.py:128-153 | the alternative list is replaced in the same way and returned; the other fields are unchanged |
| SignalAnalysis.SignalTimingAnalyzer.ComparePlans | signal_analyzer.py:181-222 | the metrics of the two lists are stored and returned; the delay lists stay unchanged |
| SignalAnalysis.AnalyzerExample | test_signal_analyzer.py:100-131 | volumes 100, 150, 120 at greens 30 and 45 give averages 6500/9 and 12100/27 and an improvement of 1480/39 percent |
| Intersections.IntersectionData.constructor | intersection_data.py:42-51 | the id is stored; missing metadata and volumes become empty; timestamps start empty |
| Intersections.IntersectionData.AddVolume | intersection_data.py:61-64 | the volume is appended at the end and the total grows by it. The timestamp is appended only when it is given and non-empty |
| Intersections.IntersectionData.TotalVolume | intersection_data.py:73 | the total of the readings is non-negative when every reading is |
| Intersections.IntersectionData.AverageVolume | intersection_data.py:82-84 | the average is 0 without readings; otherwise average times count equals total; it is non-negative for non-negative readings |
| Intersections.IntersectionData.GetSummary | intersection_data.py:100-107 | the location is 'Unknown' when absent, and the reading count is the number of volumes |
| Intersections.ExampleReadings | intersection_data.py:53-64 | a reading with a timestamp and one with an empty timestamp grow volumes by two and timestamps by one |
| DataProcessing.HourOf | data_processor.py:175 | the derived hour lies in 0..23 |
| DataProcessing.DayOfWeek | data_processor.py:176 | the derived day of week lies in 0..6 |
| DataProcessing.ValidateRequiredColumns | data_processor.py:217-221 | fails iff intersection_id, timestamp or count is absent, naming exactly the absent ones |
| DataProcessing.DropIncomplete | data_processor.py:38-42 | every surviving row has an id, a count and a parsed timestamp, and no rows are added |
| DataProcessing.DropIncompleteAppend | data_processor.py:38-42 | cleaning a concatenation is the concatenation of the cleanings |
| DataProcessing.DropIncompleteKeepsOrder | data_processor.py:38-42 | each row is kept (with its timestamp parsed) or dropped in place, so source order is preserved |
| DataProcessing.DropIncompleteFrom | data_processor.py:38-42 | every surviving row is a complete input row with its timestamp parsed |
| DataProcessing.LoadTrafficData | data_processor.py:31-48 | an empty table or a missing required column is a wrapped load failure; otherwise the columns stay and incomplete rows are dropped |
| DataProcessing.AddTimeFeatures | data_processor.py:175-176 | each row gains the hour and the day of week of its timestamp; no row is added or lost |
| DataProcessing.CleanRowsAreClean | data_processor.py:167-176 | every cleaned row has an id, a parsed timestamp, a count of at least 0, an hour in 0..23 and a day of week in 0..6 |
| DataProcessing.CleanRowsAppend | data_processor.py:166-176 | cleaning preserves source order (it distributes over concatenation) |
| DataProcessing.CleanTrafficData | data_processor.py:160-178 | fails iff a required column is absent; otherwise adds the hour and day_of_week columns and cleans the rows |
| DataProcessing.ValidateTrafficData | data_processor.py:181-214 | false iff the data is missing, empty or has no count column; counts that are zero, missing or negative do not matter |
| DataProcessing.VolumeStream | data_processor.py:78-88 | yields nothing for missing or empty input, and fails iff an approach filter is given but the column is absent. Without a filter it yields all rows; with one, only rows of that approach |
| DataProcessing.VolumeStreamFiltered | data_processor.py:82-88 | with a filter, each row of that approach is yielded as often as it occurs and no other row is, in source order |
| DataProcessing.InsertByTime | data_processor.py:99 | inserting a row gives the old rows plus the new one as a multiset, and no other rows |
| DataProcessing.InsertKeepsChronological | data_processor.py:99 | inserting a row into a group ordered by timestamp keeps it ordered by timestamp |
| DataProcessing.GroupByIntersectionAndDay | data_processor.py:91-108 | fails iff a required column is absent or a timestamp is unparsed. Otherwise there is one group per (intersection, day) key that occurs, holding exactly that key's rows in timestamp order |
| DataProcessing.GroupedStep | data_processor.py:102-106 | filing one more row keeps the grouping exact |
| DataProcessing.GroupsPartitionRows | data_processor.py:99-106 | every row is in the group of its own key and every group holds only rows of its key |
| DataProcessing.AggregateByHour | data_processor.py:111-131 | no table, an empty table, or a missing hour or count column is an error. Otherwise the keys are exactly 0..23, and bin h is the total count of the rows of hour h (0 if none) |
| DataProcessing.BinsAddUp | data_processor.py:123-127 | the 24 bins add up to the total count of the rows whose hour is in 0..23; rows of other hours reach no bin |
| DataProcessing.AggregationExample | tests/test_data_handling.py:158-175 | hours 8, 10, 12 with counts 100, 150, 120 fill those bins and leave every other bin 0 |

## Left out

- File and CSV input and output are not modelled. This covers:
  - the path checks and CSV reads of `load_traffic_data`;
  - the chunked file branch of `volume_stream`;
  - `save_results`.

  `DataProcessing.LoadTrafficData` starts from the table that was read.
- Printed warnings are not modelled (delay division by zero, data
  validation); only the returned values are.
- Floating-point behaviour, including NaN, is not modelled. Arithmetic is
  on `real`. In particular, the source turns an hour with no rows into a NaN
  mean, which its clamp maps to 60. Plan generation takes its 24 hourly
  means as an input instead of computing them with pandas.
- Timestamp parsing and pandas type coercion are parameters or are not
  modelled:
  - parsing is the function parameter `parse`;
  - a timestamp is text or a parsed instant (day and second of day);
  - counts are numbers or missing, so a textual count that `to_numeric`
    would reject is not represented.
- `TimingFunctions.GreenFor`: the source reads the first entry of the
  plan's dictionary. Dictionary order is not modelled, so the model
  promises only that some entry is used.
- `TimingFunctions.UniqueApproaches`: rows without an approach value
  contribute no approach. The source would create a NaN key for them.
- `TimingPlans.TimingPlan.Add`: the TypeError for a non-plan operand is
  ruled out by the types.
- The string forms of plans and intersections are not modelled, nor their
  one-decimal formatting or `__repr__`. The summary's reported values are
  modelled (`Intersections.IntersectionData.GetSummary`).
- The stand-in `TimingPlan` class that timing_functions.py defines when
  the import fails is not modelled.
- Aliasing is not modelled. The source stores the caller's dictionary or
  list without copying it (plan greens, intersection volumes and metadata),
  and the analyser returns its own list object. The model holds values.
- The `volume_green_pairs` diagnostic that `generate_timing_plan` attaches
  to the plan is not modelled.
- The column-name parameters of `aggregate_by_hour` and
  `validate_traffic_data` are fixed to their default, `count`.
- `DataProcessing.VolumeStream`: the source is a generator, so its error
  arises when iteration reaches it, not at the call. It also yields each
  row as a dictionary. The model returns the list of yielded rows, or the
  error.
- `DataProcessing.GroupByIntersectionAndDay`: the model returns an error
  for any timestamp that is not a parsed instant. The source behaves in two
  different ways here:
  - For a raw-text timestamp, or a missing value in a text column, it fails
    while computing the date, as the model does.
  - For a missing value in a column already parsed as datetimes, the cell
    is NaT and its date is NaT. The source then sorts such rows last and
    files them under an (id, NaT) group (data_processor.py:99-106). The
    model has no such group and reports an error instead.

  Sort-then-groupby is modelled by inserting each
  row into its group in timestamp order. The model promises the contents
  and the order of each group, not the ordering of ties.
- `SignalAnalysis.SignalTimingAnalyzer.constructor`: a missing
  intersection object is ruled out by the types.
- `Intersections.IntersectionData.constructor`: the id is a string, so the
  source's `str()` conversion of other values is not modelled.
