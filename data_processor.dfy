/** Cleaning, streaming, grouping and hourly aggregation of traffic-count
    tables. A table is a set of column names and a sequence of rows; a cell
    of a column the table lacks, or a missing value (NaN/None), is None. */
module DataProcessing {
  import opened Basics

  type SecondOfDay = s: int | 0 <= s < 86400

  /** A parsed date-time: days since 1970-01-01 and seconds into that day. */
  datatype Instant = Instant(day: int, second: SecondOfDay)

  function HourOf(t: Instant): (h: int)
    ensures 0 <= h < 24
  {
    t.second / 3600
  }

  /** Monday is 0; 1970-01-01 was a Thursday. */
  function DayOfWeek(t: Instant): (d: int)
    ensures 0 <= d < 7
  {
    (t.day + 3) % 7
  }

  predicate NotLater(a: Instant, b: Instant) {
    a.day < b.day || (a.day == b.day && a.second <= b.second)
  }

  /** A timestamp cell: raw text before parsing, or a parsed instant. */
  datatype Stamp = Text(raw: string) | At(instant: Instant)

  datatype Row = Row(
    intersectionId: Option<string>,
    timestamp: Option<Stamp>,
    count: Option<real>,
    approach: Option<string>,
    hour: Option<real>,
    dayOfWeek: Option<int>)

  datatype Table = Table(columns: set<string>, rows: seq<Row>)

  const RequiredColumns: set<string> := {"intersection_id", "timestamp", "count"}

  /** A table is empty when it has no rows or no columns. */
  predicate IsEmpty(t: Table) {
    |t.rows| == 0 || t.columns == {}
  }

  /** Fails, naming what is absent, iff a required column is absent. */
  function ValidateRequiredColumns(columns: set<string>): (r: Outcome)
    ensures r.Fail? <==> !(RequiredColumns <= columns)
    ensures r.Fail? ==> r.error.MissingColumns? && r.error.missing != {}
                        && forall c :: c in r.error.missing <==> c in RequiredColumns && c !in columns
  {
    if "intersection_id" !in columns || "timestamp" !in columns || "count" !in columns
    then
      var missing := RequiredColumns - columns;
      assert "intersection_id" in missing || "timestamp" in missing || "count" in missing;
      Fail(MissingColumns(missing))
    else Pass
  }

  // ---------------------------------------------------------------- cleaning

  /** Coercion of a timestamp cell to an instant; text that `parse` rejects
      becomes a missing value. */
  function ToDatetime(s: Option<Stamp>, parse: string -> Option<Instant>): Option<Instant> {
    match s
    case None => None
    case Some(At(t)) => Some(t)
    case Some(Text(raw)) => parse(raw)
  }

  predicate HasInstant(r: Row) {
    r.timestamp.Some? && r.timestamp.value.At?
  }

  function InstantOf(r: Row): Instant {
    if HasInstant(r) then r.timestamp.value.instant else Instant(0, 0)
  }

  /** A row with an identifier, a count and a timestamp that parses. */
  predicate Complete(r: Row, parse: string -> Option<Instant>) {
    r.intersectionId.Some? && r.count.Some? && ToDatetime(r.timestamp, parse).Some?
  }

  function Coerced(r: Row, parse: string -> Option<Instant>): (c: Row)
    requires Complete(r, parse)
    ensures HasInstant(c) && c.intersectionId == r.intersectionId && c.count == r.count
    ensures c.approach == r.approach
  {
    r.(timestamp := Some(At(ToDatetime(r.timestamp, parse).value)))
  }

  /** Drops rows without an identifier or count, parses timestamps and drops
      the rows whose timestamp does not parse. */
  function DropIncomplete(rows: seq<Row>, parse: string -> Option<Instant>): (out: seq<Row>)
    ensures |out| <= |rows|
    ensures forall j :: 0 <= j < |out| ==>
              out[j].intersectionId.Some? && out[j].count.Some? && HasInstant(out[j])
  {
    if |rows| == 0 then []
    else (if Complete(rows[0], parse) then [Coerced(rows[0], parse)] else [])
         + DropIncomplete(rows[1..], parse)
  }

  /** Cleaning keeps source order: each row is kept (coerced) or dropped on
      its own, wherever it stands. */
  lemma {:induction false} DropIncompleteKeepsOrder(a: seq<Row>, r: Row, b: seq<Row>, parse: string -> Option<Instant>)
    ensures DropIncomplete(a + [r] + b, parse)
            == DropIncomplete(a, parse)
               + (if Complete(r, parse) then [Coerced(r, parse)] else [])
               + DropIncomplete(b, parse)
  {
    DropIncompleteAppend(a, [r] + b, parse);
    assert a + [r] + b == a + ([r] + b);
    assert ([r] + b)[1..] == b;
  }

  lemma {:induction false} DropIncompleteAppend(a: seq<Row>, b: seq<Row>, parse: string -> Option<Instant>)
    ensures DropIncomplete(a + b, parse) == DropIncomplete(a, parse) + DropIncomplete(b, parse)
  {
    if |a| == 0 {
      assert a + b == b;
    } else {
      assert (a + b)[1..] == a[1..] + b;
      DropIncompleteAppend(a[1..], b, parse);
    }
  }

  /** The loader's cleaning of a table it has read: an empty table or a
      missing required column is an error; otherwise incomplete rows go. */
  function LoadTrafficData(t: Table, parse: string -> Option<Instant>): (r: Result<Table>)
    ensures r.Err? <==> IsEmpty(t) || !(RequiredColumns <= t.columns)
    ensures IsEmpty(t) ==> r == Err(LoadFailed(EmptyInput))
    ensures r.Ok? ==> r.value.columns == t.columns && r.value.rows == DropIncomplete(t.rows, parse)
  {
    if IsEmpty(t) then Err(LoadFailed(EmptyInput))
    else match ValidateRequiredColumns(t.columns)
      case Fail(e) => Err(LoadFailed(e))
      case Pass => Ok(Table(t.columns, DropIncomplete(t.rows, parse)))
  }

  /** `count >= 0`: false for a missing count. */
  predicate HasNonNegativeCount(r: Row) {
    r.count.Some? && r.count.value >= 0.0
  }

  /** Adds the hour of day and the day of week of each row's instant. */
  function AddTimeFeatures(rows: seq<Row>): (out: seq<Row>)
    ensures |out| == |rows|
    ensures forall j :: 0 <= j < |out| ==>
              out[j] == rows[j].(hour := Some(HourOf(InstantOf(rows[j])) as real),
                                 dayOfWeek := Some(DayOfWeek(InstantOf(rows[j]))))
  {
    seq(|rows|, j requires 0 <= j < |rows| =>
      rows[j].(hour := Some(HourOf(InstantOf(rows[j])) as real),
               dayOfWeek := Some(DayOfWeek(InstantOf(rows[j])))))
  }

  /** The row pipeline of clean_traffic_data. */
  function CleanRows(rows: seq<Row>, parse: string -> Option<Instant>): seq<Row> {
    AddTimeFeatures(DropIncomplete(Filter(rows, HasNonNegativeCount), parse))
  }

  /** Every row that survives cleaning is complete, has a non-negative count,
      a parsed instant, an hour in 0..23 and a day of week in 0..6. */
  lemma CleanRowsAreClean(rows: seq<Row>, parse: string -> Option<Instant>)
    ensures forall j :: 0 <= j < |CleanRows(rows, parse)| ==>
              var c := CleanRows(rows, parse)[j];
              && c.intersectionId.Some? && HasInstant(c)
              && c.count.Some? && c.count.value >= 0.0
              && c.hour.Some? && 0.0 <= c.hour.value < 24.0
              && c.dayOfWeek.Some? && 0 <= c.dayOfWeek.value < 7
  {
    var kept := Filter(rows, HasNonNegativeCount);
    var complete := DropIncomplete(kept, parse);
    forall j | 0 <= j < |complete|
      ensures complete[j].count.Some? && complete[j].count.value >= 0.0
    {
      DropIncompleteFrom(kept, parse, j);
    }
  }

  /** Each row DropIncomplete returns is the coercion of a row of its input. */
  lemma {:induction false} DropIncompleteFrom(rows: seq<Row>, parse: string -> Option<Instant>, j: int)
    requires 0 <= j < |DropIncomplete(rows, parse)|
    ensures exists i :: 0 <= i < |rows| && Complete(rows[i], parse)
                        && DropIncomplete(rows, parse)[j] == Coerced(rows[i], parse)
  {
    var head := if Complete(rows[0], parse) then [Coerced(rows[0], parse)] else [];
    if j < |head| {
      assert DropIncomplete(rows, parse)[j] == Coerced(rows[0], parse);
    } else {
      DropIncompleteFrom(rows[1..], parse, j - |head|);
      var i :| 0 <= i < |rows[1..]| && Complete(rows[1..][i], parse)
               && DropIncomplete(rows[1..], parse)[j - |head|] == Coerced(rows[1..][i], parse);
      assert rows[1..][i] == rows[i + 1];
    }
  }

  /** Cleaning keeps source order. */
  lemma CleanRowsAppend(a: seq<Row>, b: seq<Row>, parse: string -> Option<Instant>)
    ensures CleanRows(a + b, parse) == CleanRows(a, parse) + CleanRows(b, parse)
  {
    FilterAppend(a, b, HasNonNegativeCount);
    DropIncompleteAppend(Filter(a, HasNonNegativeCount), Filter(b, HasNonNegativeCount), parse);
    var x := DropIncomplete(Filter(a, HasNonNegativeCount), parse);
    var y := DropIncomplete(Filter(b, HasNonNegativeCount), parse);
    assert AddTimeFeatures(x + y) == AddTimeFeatures(x) + AddTimeFeatures(y);
  }

  /** clean_traffic_data: the required columns must be present; rows with a
      negative or missing count, a missing identifier or an unparsable
      timestamp go; hour and day of week are derived from the timestamp. */
  function CleanTrafficData(t: Table, parse: string -> Option<Instant>): (r: Result<Table>)
    ensures r.Err? <==> !(RequiredColumns <= t.columns)
    ensures r.Ok? ==> r.value.columns == t.columns + {"hour", "day_of_week"}
    ensures r.Ok? ==> r.value.rows == CleanRows(t.rows, parse)
  {
    match ValidateRequiredColumns(t.columns)
    case Fail(e) => Err(e)
    case Pass => Ok(Table(t.columns + {"hour", "day_of_week"}, CleanRows(t.rows, parse)))
  }

  // -------------------------------------------------------------- validation

  /** False iff there is no table, it is empty, or it lacks the count column;
      zero, missing or negative counts only warn. */
  function ValidateTrafficData(data: Option<Table>): (ok: bool)
    ensures ok <==> data.Some? && !IsEmpty(data.value) && "count" in data.value.columns
  {
    if data.None? then false
    else if IsEmpty(data.value) then false
    else "count" in data.value.columns
  }

  // --------------------------------------------------------------- streaming

  function ApproachIs(a: string): Row -> bool {
    (r: Row) => r.approach == Some(a)
  }

  /** The record stream over an in-memory table, as the list of records it
      yields: nothing for no table or an empty one; an error when an approach
      filter is asked for and the column is absent; otherwise, in source
      order, the rows of that approach, or all rows without a filter. */
  function VolumeStream(source: Option<Table>, approach: Option<string>): (r: Result<seq<Row>>)
    ensures source.None? || IsEmpty(source.value) ==> r == Ok([])
    ensures r.Err? <==> source.Some? && !IsEmpty(source.value) && Truthy(approach)
                        && "approach" !in source.value.columns
    ensures r.Ok? && source.Some? && !Truthy(approach) ==>
              IsEmpty(source.value) || r.value == source.value.rows
    ensures r.Ok? && Truthy(approach) ==>
              forall i :: 0 <= i < |r.value| ==> r.value[i].approach == approach
  {
    if source.None? || IsEmpty(source.value) then Ok([])
    else if Truthy(approach) then
      if "approach" !in source.value.columns then Err(MissingColumns({"approach"}))
      else Ok(Filter(source.value.rows, ApproachIs(approach.value)))
    else Ok(source.value.rows)
  }

  /** With a filter, exactly the rows of that approach are yielded (each as
      often as it occurs), and in source order. */
  lemma VolumeStreamFiltered(t: Table, a: string, before: seq<Row>, after: seq<Row>)
    requires !IsEmpty(t) && a != "" && "approach" in t.columns
    ensures VolumeStream(Some(t), Some(a)).Ok?
    ensures forall x :: multiset(VolumeStream(Some(t), Some(a)).value)[x]
                        == (if x.approach == Some(a) then multiset(t.rows)[x] else 0)
    ensures t.rows == before + after ==>
              VolumeStream(Some(t), Some(a)).value
              == Filter(before, ApproachIs(a)) + Filter(after, ApproachIs(a))
  {
    FilterMultiset(t.rows, ApproachIs(a));
    FilterAppend(before, after, ApproachIs(a));
  }

  // ---------------------------------------------------------------- grouping

  datatype GroupKey = GroupKey(intersectionId: Option<string>, day: int)

  function KeyOf(r: Row): GroupKey {
    GroupKey(r.intersectionId, InstantOf(r).day)
  }

  function KeyIs(k: GroupKey): Row -> bool {
    (r: Row) => KeyOf(r) == k
  }

  predicate AllParsed(rows: seq<Row>) {
    forall i :: 0 <= i < |rows| ==> HasInstant(rows[i])
  }

  predicate Chronological(s: seq<Row>) {
    forall i, j :: 0 <= i < j < |s| ==> NotLater(InstantOf(s[i]), InstantOf(s[j]))
  }

  /** Inserts x after every row of s that is not later than it. */
  function InsertByTime(s: seq<Row>, x: Row): (r: seq<Row>)
    ensures multiset(r) == multiset(s) + multiset{x}
    ensures forall i :: 0 <= i < |r| ==> r[i] == x || r[i] in s
  {
    if |s| == 0 then [x]
    else if !NotLater(InstantOf(s[0]), InstantOf(x)) then [x] + s
    else
      assert s == [s[0]] + s[1..];
      [s[0]] + InsertByTime(s[1..], x)
  }

  /** Inserting into a chronological group keeps it chronological. */
  lemma {:induction false} InsertKeepsChronological(s: seq<Row>, x: Row)
    requires Chronological(s)
    ensures Chronological(InsertByTime(s, x))
  {
    if |s| > 0 && NotLater(InstantOf(s[0]), InstantOf(x)) {
      var t := InsertByTime(s[1..], x);
      InsertKeepsChronological(s[1..], x);
      var r := [s[0]] + t;
      forall j | 0 < j < |r|
        ensures NotLater(InstantOf(r[0]), InstantOf(r[j]))
      {
        if r[j] != x {
          assert r[j] in s[1..];
          var m :| 0 <= m < |s[1..]| && s[1..][m] == r[j];
          assert s[m + 1] == r[j];
        }
      }
      assert forall i, j :: 0 < i < j < |r| ==> r[i] == t[i - 1] && r[j] == t[j - 1];
    }
  }

  function KeysOf(rows: seq<Row>): set<GroupKey> {
    set i | 0 <= i < |rows| :: KeyOf(rows[i])
  }

  /** groups is the grouping of rows: one group per key that occurs, each
      holding exactly the rows of its key, in chronological order. */
  ghost predicate Grouped(rows: seq<Row>, groups: map<GroupKey, seq<Row>>) {
    && groups.Keys == KeysOf(rows)
    && (forall k :: k in groups ==> GroupOf(rows, groups[k], k))
    && (forall k :: k !in groups ==> Filter(rows, KeyIs(k)) == [])
  }

  /** group holds exactly the rows of key k, in chronological order. */
  ghost predicate GroupOf(rows: seq<Row>, group: seq<Row>, k: GroupKey) {
    multiset(group) == multiset(Filter(rows, KeyIs(k))) && Chronological(group)
  }

  /** Files one more row into the group of its key. */
  function AddToGroups(groups: map<GroupKey, seq<Row>>, row: Row): map<GroupKey, seq<Row>> {
    var key := KeyOf(row);
    groups[key := InsertByTime(if key in groups then groups[key] else [], row)]
  }

  lemma GroupedStep(rows: seq<Row>, groups: map<GroupKey, seq<Row>>, row: Row)
    requires Grouped(rows, groups)
    ensures Grouped(rows + [row], AddToGroups(groups, row))
  {
    KeysOfAppend(rows, row);
    assert AddToGroups(groups, row).Keys == groups.Keys + {KeyOf(row)};
    GroupsStep(rows, groups, row);
    AbsentStep(rows, groups, row);
  }

  lemma GroupsStep(rows: seq<Row>, groups: map<GroupKey, seq<Row>>, row: Row)
    requires Grouped(rows, groups)
    ensures forall k :: k in AddToGroups(groups, row) ==> GroupOf(rows + [row], AddToGroups(groups, row)[k], k)
  {
    forall k | k in AddToGroups(groups, row)
      ensures GroupOf(rows + [row], AddToGroups(groups, row)[k], k)
    {
      GroupStep(rows, groups, row, k);
    }
  }

  lemma AbsentStep(rows: seq<Row>, groups: map<GroupKey, seq<Row>>, row: Row)
    requires Grouped(rows, groups)
    ensures forall k :: k !in AddToGroups(groups, row) ==> Filter(rows + [row], KeyIs(k)) == []
  {
    forall k | k !in AddToGroups(groups, row)
      ensures Filter(rows + [row], KeyIs(k)) == []
    {
      FilterStep(rows, row, k);
    }
  }

  lemma GroupStep(rows: seq<Row>, groups: map<GroupKey, seq<Row>>, row: Row, k: GroupKey)
    requires Grouped(rows, groups)
    requires k in AddToGroups(groups, row)
    ensures GroupOf(rows + [row], AddToGroups(groups, row)[k], k)
  {
    FilterStep(rows, row, k);
    var key := KeyOf(row);
    if k == key {
      var before := if key in groups then groups[key] else [];
      assert GroupOf(rows, before, k);
      InsertKeepsChronological(before, row);
    } else {
      assert AddToGroups(groups, row)[k] == groups[k];
      assert GroupOf(rows, groups[k], k);
    }
  }

  lemma KeysOfAppend(rows: seq<Row>, row: Row)
    ensures KeysOf(rows + [row]) == KeysOf(rows) + {KeyOf(row)}
  {
    var rows' := rows + [row];
    assert forall i :: 0 <= i < |rows| ==> rows'[i] == rows[i];
    assert rows'[|rows|] == row;
  }

  lemma FilterStep(rows: seq<Row>, row: Row, k: GroupKey)
    ensures Filter(rows + [row], KeyIs(k))
            == Filter(rows, KeyIs(k)) + (if KeyOf(row) == k then [row] else [])
  {
    FilterAppend(rows, [row], KeyIs(k));
    assert [row][1..] == [];
  }

  /** Groups rows by (intersection, day). The table must have the required
      columns and parsed timestamps. Each group holds exactly the rows of its
      key, ordered by timestamp; there is one group per key that occurs. */
  method GroupByIntersectionAndDay(t: Table) returns (r: Result<map<GroupKey, seq<Row>>>)
    ensures r.Err? <==> !(RequiredColumns <= t.columns) || !AllParsed(t.rows)
    ensures r.Ok? ==> Grouped(t.rows, r.value)
  {
    var check := ValidateRequiredColumns(t.columns);
    if check.Fail? {
      return Err(check.error);
    }
    if exists i | 0 <= i < |t.rows| :: !HasInstant(t.rows[i]) {
      return Err(UnparsedTimestamp);
    }
    var groups: map<GroupKey, seq<Row>> := map[];
    for i := 0 to |t.rows|
      invariant Grouped(t.rows[..i], groups)
    {
      assert t.rows[..i + 1] == t.rows[..i] + [t.rows[i]];
      GroupedStep(t.rows[..i], groups, t.rows[i]);
      groups := AddToGroups(groups, t.rows[i]);
    }
    assert t.rows[..|t.rows|] == t.rows;
    return Ok(groups);
  }

  /** Every row lands in the group of its own key and in no other. */
  lemma GroupsPartitionRows(rows: seq<Row>, groups: map<GroupKey, seq<Row>>)
    requires Grouped(rows, groups)
    ensures forall i :: 0 <= i < |rows| ==> KeyOf(rows[i]) in groups && rows[i] in groups[KeyOf(rows[i])]
    ensures forall k, x :: k in groups && x in groups[k] ==> KeyOf(x) == k
  {
    forall k | k in groups
      ensures forall x :: multiset(groups[k])[x] == (if KeyOf(x) == k then multiset(rows)[x] else 0)
    {
      FilterMultiset(rows, KeyIs(k));
    }
    forall i | 0 <= i < |rows|
      ensures KeyOf(rows[i]) in groups && rows[i] in groups[KeyOf(rows[i])]
    {
      assert KeyOf(rows[i]) in KeysOf(rows);
      assert multiset(rows)[rows[i]] > 0;
    }
  }

  // ------------------------------------------------------------- aggregation

  const HourColumns: set<string> := {"hour", "count"}

  /** A row's share of the bin of hour h: its count when its hour equals h;
      a missing count adds nothing (the sum skips it). */
  function Contribution(r: Row, h: int): real {
    if r.hour == Some(h as real) && r.count.Some? then r.count.value else 0.0
  }

  /** Total volume of the rows whose hour equals h (0 when there are none). */
  function HourVolume(rows: seq<Row>, h: int): real {
    if |rows| == 0 then 0.0 else Contribution(rows[0], h) + HourVolume(rows[1..], h)
  }

  /** Aggregates volumes into the 24 hourly bins 0..23. No table, an empty
      table, or a missing hour or count column is an error. */
  method AggregateByHour(data: Option<Table>) returns (r: Result<map<int, real>>)
    ensures r.Err? <==> data.None? || IsEmpty(data.value) || !(HourColumns <= data.value.columns)
    ensures r.Ok? ==> forall h :: h in r.value <==> 0 <= h < 24
    ensures r.Ok? ==> forall h :: 0 <= h < 24 ==> r.value[h] == HourVolume(data.value.rows, h)
  {
    if data.None? || IsEmpty(data.value) {
      return Err(EmptyInput);
    }
    if "hour" !in data.value.columns || "count" !in data.value.columns {
      return Err(MissingColumns(HourColumns - data.value.columns));
    }
    var bins: map<int, real> := map[];
    for h := 0 to 24
      invariant forall x :: x in bins <==> 0 <= x < h
      invariant forall x :: 0 <= x < h ==> bins[x] == HourVolume(data.value.rows, x)
    {
      bins := bins[h := HourVolume(data.value.rows, h)];
    }
    return Ok(bins);
  }

  /** The hour cell holds a whole number in 0..23. */
  predicate HourInRange(r: Row) {
    r.hour.Some? && r.hour.value == r.hour.value.Floor as real && 0 <= r.hour.value.Floor < 24
  }

  /** Total count of the rows whose hour is one of 0..23. */
  function InRangeVolume(rows: seq<Row>): real {
    if |rows| == 0 then 0.0
    else (if HourInRange(rows[0]) && rows[0].count.Some? then rows[0].count.value else 0.0)
         + InRangeVolume(rows[1..])
  }

  /** Sum of the first n hourly bins. */
  function BinsTotal(rows: seq<Row>, n: nat): real {
    if n == 0 then 0.0 else BinsTotal(rows, n - 1) + HourVolume(rows, n - 1)
  }

  /** Rows whose hour lies outside 0..23 reach no bin: the 24 bins add up to
      the total count of the rows whose hour is in range. */
  lemma {:induction false} BinsAddUp(rows: seq<Row>)
    ensures BinsTotal(rows, 24) == InRangeVolume(rows)
  {
    if |rows| == 0 {
      BinsOfNothing(rows, 24);
    } else {
      BinsSplit(rows, 24);
      RowBins(rows[0], 24);
      BinsAddUp(rows[1..]);
    }
  }

  lemma {:induction false} BinsOfNothing(rows: seq<Row>, n: nat)
    requires |rows| == 0
    ensures BinsTotal(rows, n) == 0.0
  {
    if n > 0 {
      BinsOfNothing(rows, n - 1);
    }
  }

  /** One row's contributions to the first n bins. */
  function RowBinsTotal(r: Row, n: nat): real {
    if n == 0 then 0.0 else RowBinsTotal(r, n - 1) + Contribution(r, n - 1)
  }

  lemma {:induction false} BinsSplit(rows: seq<Row>, n: nat)
    requires |rows| > 0
    ensures BinsTotal(rows, n) == RowBinsTotal(rows[0], n) + BinsTotal(rows[1..], n)
  {
    if n > 0 {
      BinsSplit(rows, n - 1);
    }
  }

  lemma {:induction false} RowBins(r: Row, n: nat)
    requires n <= 24
    ensures RowBinsTotal(r, n)
            == if HourInRange(r) && r.hour.value.Floor < n && r.count.Some? then r.count.value else 0.0
  {
    if n > 0 {
      RowBins(r, n - 1);
      if r.hour == Some((n - 1) as real) {
        assert r.hour.value.Floor == n - 1;
      }
    }
  }

  /** Hours 8, 10 and 12 with counts 100, 150 and 120: those bins hold the
      counts, every other bin is 0. */
  lemma AggregationExample()
    ensures var rows := [HourRow(8.0, 100.0), HourRow(10.0, 150.0), HourRow(12.0, 120.0)];
            && HourVolume(rows, 8) == 100.0
            && HourVolume(rows, 10) == 150.0
            && HourVolume(rows, 12) == 120.0
            && forall h :: 0 <= h < 24 && h != 8 && h != 10 && h != 12 ==> HourVolume(rows, h) == 0.0
  {
    var rows := [HourRow(8.0, 100.0), HourRow(10.0, 150.0), HourRow(12.0, 120.0)];
    assert rows[1..] == [HourRow(10.0, 150.0), HourRow(12.0, 120.0)];
    assert rows[1..][1..] == [HourRow(12.0, 120.0)];
    assert rows[1..][1..][1..] == [];
    forall h | 0 <= h < 24 && h != 8 && h != 10 && h != 12
      ensures HourVolume(rows, h) == 0.0
    {
      assert HourVolume(rows[1..][1..], h) == 0.0;
      assert HourVolume(rows[1..], h) == 0.0;
    }
  }

  function HourRow(hour: real, count: real): Row {
    Row(None, None, Some(count), None, Some(hour), None)
  }
}
