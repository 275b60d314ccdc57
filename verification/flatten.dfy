/**
 * `response_to_data_frame`: one flat record per row. Dimension headers are
 * paired with the row's dimension values, then each metric-value group (one
 * per date range) pairs the metric header names with its values; pairing
 * stops at the shorter side, and a later write to a key replaces an earlier
 * one. The records of each report replace those of the previous report, so
 * only the last report's records are returned. The table is the list of
 * records handed to the DataFrame constructor.
 */
module Flatten {
  import opened Wrappers
  import opened Report

  /** One DataFrame row: column name to cell text. */
  type Record = map<string, string>

  type Table = seq<Record>

  /** One `df_row[key] = value` assignment. */
  type Write = (string, string)

  /** Why `response_to_data_frame` raises instead of returning a table. */
  datatype FlattenError =
    | NoReports          // `df_raws` is never bound when `reports` is missing or empty
    | RowsNotIterable    // a report's `rows` key holds None, so `for row in rows` fails

  function Min(a: int, b: int): int
  {
    if a <= b then a else b
  }

  /** Python's `zip`: pairs by position, stopping at the end of the shorter list. */
  function Zip(keys: seq<string>, values: seq<string>): (writes: seq<Write>)
    ensures |writes| == Min(|keys|, |values|)
    ensures forall i | 0 <= i < |writes| :: writes[i] == (keys[i], values[i])
  {
    if |keys| == 0 || |values| == 0 then [] else [(keys[0], values[0])] + Zip(keys[1..], values[1..])
  }

  /** The keys a sequence of writes assigns. */
  function KeysOf(writes: seq<Write>): set<string>
  {
    set i | 0 <= i < |writes| :: writes[i].0
  }

  /** No write after position `i` assigns the same key. */
  predicate IsLastWrite(writes: seq<Write>, i: int)
  {
    0 <= i < |writes| && forall j | i < j < |writes| :: writes[j].0 != writes[i].0
  }

  /** The writes performed in order on `m`: every key ends with the value of its last write. */
  function Assign(m: Record, writes: seq<Write>): (r: Record)
    ensures r.Keys == m.Keys + KeysOf(writes)
    ensures forall i | IsLastWrite(writes, i) :: r[writes[i].0] == writes[i].1
    ensures forall k | k in m && k !in KeysOf(writes) :: r[k] == m[k]
    decreases |writes|
  {
    if |writes| == 0 then m
    else
      var rest := writes[1..];
      assert KeysOf(writes) == {writes[0].0} + KeysOf(rest) by {
        forall k | k in KeysOf(writes) ensures k in {writes[0].0} + KeysOf(rest) {
          var i :| 0 <= i < |writes| && writes[i].0 == k;
          if i > 0 { assert rest[i - 1].0 == k; }
        }
        forall k | k in KeysOf(rest) ensures k in KeysOf(writes) {
          var i :| 0 <= i < |rest| && rest[i].0 == k;
          assert writes[i + 1].0 == k;
        }
      }
      var r := Assign(m[writes[0].0 := writes[0].1], rest);
      assert forall i | IsLastWrite(writes, i) && i > 0 :: IsLastWrite(rest, i - 1);
      assert IsLastWrite(writes, 0) ==> writes[0].0 !in KeysOf(rest);
      r
  }

  /** Group `g` has a value for metric header `j`, so the metric loop writes `names[j]` for it. */
  predicate Reaches(names: seq<string>, groups: seq<DateRangeValues>, g: int, j: int)
  {
    0 <= g < |groups| && 0 <= j < |names| && j < |groups[g].values|
  }

  /** The metric names some group writes. */
  function MetricKeys(names: seq<string>, groups: seq<DateRangeValues>): set<string>
  {
    set j | 0 <= j < |names| && (exists g | 0 <= g < |groups| :: Reaches(names, groups, g, j)) :: names[j]
  }

  lemma MetricKeysSplit(names: seq<string>, groups: seq<DateRangeValues>)
    requires |groups| > 0
    ensures MetricKeys(names, groups) == KeysOf(Zip(names, groups[0].values)) + MetricKeys(names, groups[1..])
  {
    var first := Zip(names, groups[0].values);
    forall k | k in MetricKeys(names, groups)
      ensures k in KeysOf(first) + MetricKeys(names, groups[1..])
    {
      var j :| 0 <= j < |names| && (exists g | 0 <= g < |groups| :: Reaches(names, groups, g, j)) && names[j] == k;
      var g :| 0 <= g < |groups| && Reaches(names, groups, g, j);
      if g == 0 {
        assert first[j].0 == k;
      } else {
        assert groups[1..][g - 1] == groups[g];
        assert Reaches(names, groups[1..], g - 1, j);
      }
    }
    forall k | k in KeysOf(first)
      ensures k in MetricKeys(names, groups)
    {
      var j :| 0 <= j < |first| && first[j].0 == k;
      assert Reaches(names, groups, 0, j);
    }
    forall k | k in MetricKeys(names, groups[1..])
      ensures k in MetricKeys(names, groups)
    {
      var j :| 0 <= j < |names| && (exists g | 0 <= g < |groups[1..]| :: Reaches(names, groups[1..], g, j)) && names[j] == k;
      var g :| 0 <= g < |groups[1..]| && Reaches(names, groups[1..], g, j);
      assert groups[1..][g] == groups[g + 1];
      assert Reaches(names, groups, g + 1, j);
    }
  }

  /** `for values in date_range_values: for name, value in zip(...): df_row[name] = value`. */
  function AssignGroups(m: Record, names: seq<string>, groups: seq<DateRangeValues>): (r: Record)
    ensures r.Keys == m.Keys + MetricKeys(names, groups)
    ensures forall k | k in m && k !in MetricKeys(names, groups) :: r[k] == m[k]
    decreases |groups|
  {
    if |groups| == 0 then m
    else
      MetricKeysSplit(names, groups);
      AssignGroups(Assign(m, Zip(names, groups[0].values)), names, groups[1..])
  }

  /**
   * The write of group `g` to metric header `j` is the last write of its
   * name: no later header of the same group and no later group writes it.
   */
  predicate LastMetricWrite(names: seq<string>, groups: seq<DateRangeValues>, g: int, j: int)
  {
    && Reaches(names, groups, g, j)
    && (forall j' | j < j' < Min(|names|, |groups[g].values|) :: names[j'] != names[j])
    && names[j] !in MetricKeys(names, groups[g + 1..])
  }

  /** The last write of a metric name decides its value. */
  lemma {:induction false} AssignGroupsLast(m: Record, names: seq<string>, groups: seq<DateRangeValues>, g: int, j: int)
    requires LastMetricWrite(names, groups, g, j)
    ensures names[j] in AssignGroups(m, names, groups)
    ensures AssignGroups(m, names, groups)[names[j]] == groups[g].values[j]
    decreases |groups|
  {
    var first := Zip(names, groups[0].values);
    var m' := Assign(m, first);
    var rest := groups[1..];
    assert AssignGroups(m, names, groups) == AssignGroups(m', names, rest);
    if g == 0 {
      assert IsLastWrite(first, j);
      assert m'[names[j]] == groups[0].values[j];
      assert rest == groups[g + 1..];
    } else {
      assert rest[g - 1] == groups[g];
      assert rest[g..] == groups[g + 1..];
      assert LastMetricWrite(names, rest, g - 1, j);
      AssignGroupsLast(m', names, rest, g - 1, j);
    }
  }

  /** `row.get('dimensions', [])`. */
  function DimensionsOf(row: Row): seq<string>
  {
    if row.dimensions.Some? then row.dimensions.value else []
  }

  /** `row.get('metrics', [])`: one metric-value group per date range. */
  function GroupsOf(row: Row): seq<DateRangeValues>
  {
    if row.metrics.Some? then row.metrics.value else []
  }

  /** The dimension headers paired with values: the first `Min` of them. */
  function DimensionKeys(headers: seq<string>, dimensions: seq<string>): set<string>
  {
    set i | 0 <= i < Min(|headers|, |dimensions|) :: headers[i]
  }

  /** The record `response_to_data_frame` builds for one row. */
  function RowRecord(dimensionHeaders: seq<string>, metricNames: seq<string>, row: Row): Record
  {
    var dimensionRecord := Assign(map[], Zip(dimensionHeaders, DimensionsOf(row)));
    AssignGroups(dimensionRecord, metricNames, GroupsOf(row))
  }

  /**
   * A record's columns are exactly the dimension headers that were paired
   * with a value and the metric names that some group reached.
   */
  lemma RowRecordKeys(dimensionHeaders: seq<string>, metricNames: seq<string>, row: Row)
    ensures RowRecord(dimensionHeaders, metricNames, row).Keys
         == DimensionKeys(dimensionHeaders, DimensionsOf(row)) + MetricKeys(metricNames, GroupsOf(row))
  {
  }

  /** Every column of a record is a dimension header or a metric header name. */
  lemma RowRecordColumns(dimensionHeaders: seq<string>, metricNames: seq<string>, row: Row)
    ensures forall k | k in RowRecord(dimensionHeaders, metricNames, row) :: k in dimensionHeaders || k in metricNames
  {
    RowRecordKeys(dimensionHeaders, metricNames, row);
  }

  /**
   * Dimension header `i`, below both lengths, holds dimension value `i`
   * unless a later dimension header or any metric name is the same key.
   */
  lemma RowRecordDimension(dimensionHeaders: seq<string>, metricNames: seq<string>, row: Row, i: int)
    requires 0 <= i < Min(|dimensionHeaders|, |DimensionsOf(row)|)
    requires forall i' | i < i' < Min(|dimensionHeaders|, |DimensionsOf(row)|) :: dimensionHeaders[i'] != dimensionHeaders[i]
    requires dimensionHeaders[i] !in MetricKeys(metricNames, GroupsOf(row))
    ensures dimensionHeaders[i] in RowRecord(dimensionHeaders, metricNames, row)
    ensures RowRecord(dimensionHeaders, metricNames, row)[dimensionHeaders[i]] == DimensionsOf(row)[i]
  {
  }

  /**
   * A metric name holds the value of its last write, from the last group
   * that reaches it; this holds also when the name equals a dimension header,
   * since dimensions are written first.
   */
  lemma RowRecordMetric(dimensionHeaders: seq<string>, metricNames: seq<string>, row: Row, g: int, j: int)
    requires LastMetricWrite(metricNames, GroupsOf(row), g, j)
    ensures metricNames[j] in RowRecord(dimensionHeaders, metricNames, row)
    ensures RowRecord(dimensionHeaders, metricNames, row)[metricNames[j]] == GroupsOf(row)[g].values[j]
  {
    var dimensionRecord := Assign(map[], Zip(dimensionHeaders, DimensionsOf(row)));
    AssignGroupsLast(dimensionRecord, metricNames, GroupsOf(row), g, j);
  }

  /** A metric name that is also a dimension header overwrites the dimension value. */
  lemma MetricOverwritesDimension(dimensionHeaders: seq<string>, metricNames: seq<string>, row: Row, i: int, g: int, j: int)
    requires 0 <= i < Min(|dimensionHeaders|, |DimensionsOf(row)|)
    requires LastMetricWrite(metricNames, GroupsOf(row), g, j) && metricNames[j] == dimensionHeaders[i]
    ensures RowRecord(dimensionHeaders, metricNames, row)[dimensionHeaders[i]] == GroupsOf(row)[g].values[j]
  {
    RowRecordMetric(dimensionHeaders, metricNames, row, g, j);
  }

  predicate Distinct(names: seq<string>)
  {
    forall a, b | 0 <= a < b < |names| :: names[a] != names[b]
  }

  /**
   * With distinct metric names, metric `j` holds the value from the last
   * date-range group that has a value at position `j`: later groups
   * overwrite earlier ones.
   */
  lemma LastGroupWins(dimensionHeaders: seq<string>, metricNames: seq<string>, row: Row, g: int, j: int)
    requires Distinct(metricNames)
    requires Reaches(metricNames, GroupsOf(row), g, j)
    requires forall g' | g < g' < |GroupsOf(row)| :: |GroupsOf(row)[g'].values| <= j
    ensures RowRecord(dimensionHeaders, metricNames, row)[metricNames[j]] == GroupsOf(row)[g].values[j]
  {
    RowRecordMetric(dimensionHeaders, metricNames, row, g, j);
  }

  /** `column_header.get('dimensions', [])`. */
  function DimensionHeadersOf(report: Report): seq<string>
  {
    if report.columnHeader.Some? && report.columnHeader.value.dimensions.Some? then
      report.columnHeader.value.dimensions.value
    else []
  }

  /** The `name` of each entry of `column_header.get('metricHeader', {}).get('metricHeaderEntries', [])`. */
  function MetricNamesOf(report: Report): seq<string>
  {
    var entries :=
      if report.columnHeader.Some? && report.columnHeader.value.metricHeader.Some?
         && report.columnHeader.value.metricHeader.value.metricHeaderEntries.Some?
      then report.columnHeader.value.metricHeader.value.metricHeaderEntries.value
      else [];
    seq(|entries|, i requires 0 <= i < |entries| => entries[i].name)
  }

  /** `report.get('data', {}).get('rows', [])`: None when the key holds None, which cannot be iterated. */
  function RowListOf(report: Report): Option<seq<Row>>
  {
    if report.data.None? then Some([])
    else match report.data.value.rows
      case Absent => Some([])
      case Null => None
      case Present(rows) => Some(rows)
  }

  /** The records of one report: one per row, in row order. */
  function ReportTable(report: Report): (table: Table)
    requires RowListOf(report).Some?
    ensures |table| == |RowListOf(report).value|
    ensures forall i | 0 <= i < |table| ::
              table[i] == RowRecord(DimensionHeadersOf(report), MetricNamesOf(report), RowListOf(report).value[i])
  {
    var rows := RowListOf(report).value;
    seq(|rows|, i requires 0 <= i < |rows| => RowRecord(DimensionHeadersOf(report), MetricNamesOf(report), rows[i]))
  }

  /** Every report's rows can be iterated. */
  predicate Iterable(reports: seq<Report>)
  {
    forall i | 0 <= i < |reports| :: RowListOf(reports[i]).Some?
  }

  /** The loop over reports: `table` is `df_raws` as left by the reports already visited. */
  function Scan(reports: seq<Report>, table: Option<Table>): (r: Result<Table, FlattenError>)
    ensures r.Success? <==> (|reports| > 0 || table.Some?) && Iterable(reports)
    ensures r.Success? && |reports| > 0 ==> r.value == ReportTable(reports[|reports| - 1])
    ensures r.Success? && |reports| == 0 ==> r == Success(table.value)
    ensures r == Failure(NoReports) <==> |reports| == 0 && table.None?
    decreases |reports|
  {
    if |reports| == 0 then
      if table.None? then Failure(NoReports) else Success(table.value)
    else
      match RowListOf(reports[0])
      case None => Failure(RowsNotIterable)
      case Some(_) =>
        assert forall i | 1 <= i < |reports| :: reports[1..][i - 1] == reports[i];
        Scan(reports[1..], Some(ReportTable(reports[0])))
  }

  /**
   * `response_to_data_frame`: the records of the last report, or an error
   * when there is no report or some report's rows hold None.
   */
  function ResponseToDataFrame(response: Response): (r: Result<Table, FlattenError>)
    ensures r.Success? <==> |response.reports| > 0 && Iterable(response.reports)
    ensures r == Failure(NoReports) <==> |response.reports| == 0
    ensures r.Success? ==> r.value == ReportTable(response.reports[|response.reports| - 1])
  {
    Scan(response.reports, None)
  }

  /** Reports before the last one do not reach the table, as long as their rows can be iterated. */
  lemma EarlierReportsDiscarded(earlier: seq<Report>, last: Report)
    requires Iterable(earlier) && RowListOf(last).Some?
    ensures ResponseToDataFrame(Response(earlier + [last])) == ResponseToDataFrame(Response([last]))
  {
  }

  /**
   * Missing keys of a report read as empty lists: without `data` or `rows`
   * the table is empty; without a column header every record is empty;
   * without `dimensions` every record holds only metric columns; without
   * `metricHeader` or `metricHeaderEntries` every record holds only
   * dimension columns.
   */
  lemma MissingKeysReadAsEmpty(report: Report)
    ensures report.data.None? || report.data.value.rows.Absent? ==> RowListOf(report) == Some([])
    ensures report.columnHeader.None? && RowListOf(report).Some? ==>
              forall i | 0 <= i < |ReportTable(report)| :: ReportTable(report)[i] == map[]
    ensures (report.columnHeader.None? || report.columnHeader.value.dimensions.None?) && RowListOf(report).Some? ==>
              forall i | 0 <= i < |ReportTable(report)| ::
                ReportTable(report)[i].Keys == MetricKeys(MetricNamesOf(report), GroupsOf(RowListOf(report).value[i]))
    ensures (|| report.columnHeader.None?
             || report.columnHeader.value.metricHeader.None?
             || report.columnHeader.value.metricHeader.value.metricHeaderEntries.None?)
            && RowListOf(report).Some? ==>
              forall i | 0 <= i < |ReportTable(report)| ::
                ReportTable(report)[i].Keys == DimensionKeys(DimensionHeadersOf(report), DimensionsOf(RowListOf(report).value[i]))
  {
    if RowListOf(report).Some? {
      var rows := RowListOf(report).value;
      forall i | 0 <= i < |rows|
        ensures ReportTable(report)[i].Keys
             == DimensionKeys(DimensionHeadersOf(report), DimensionsOf(rows[i])) + MetricKeys(MetricNamesOf(report), GroupsOf(rows[i]))
      {
        RowRecordKeys(DimensionHeadersOf(report), MetricNamesOf(report), rows[i]);
      }
    }
  }

  /**
   * Missing keys of a row read as empty lists: without `metrics` the record
   * holds only dimension columns, without `dimensions` only metric columns.
   */
  lemma MissingRowKeysReadAsEmpty(dimensionHeaders: seq<string>, metricNames: seq<string>, row: Row)
    ensures row.metrics.None? ==>
              RowRecord(dimensionHeaders, metricNames, row).Keys == DimensionKeys(dimensionHeaders, DimensionsOf(row))
    ensures row.dimensions.None? ==>
              RowRecord(dimensionHeaders, metricNames, row).Keys == MetricKeys(metricNames, GroupsOf(row))
  {
    RowRecordKeys(dimensionHeaders, metricNames, row);
  }

  /** Dimensions `date` and `sourceMedium` and metric `sessions` over one row give one record holding all three. */
  lemma SingleRowExample()
    ensures
      var header := ColumnHeader(Some(["date", "sourceMedium"]),
                                 Some(MetricHeader(Some([MetricHeaderEntry("sessions", "INTEGER")]))));
      var row := Row(Some(["20200901", "google / cpc"]), Some([DateRangeValues(["42"])]));
      var report := Report(Some(header), Some(ReportData(Present([row]), [], None)), None);
      ResponseToDataFrame(Response([report]))
        == Success([map["date" := "20200901", "sourceMedium" := "google / cpc", "sessions" := "42"]])
  {
    var row := Row(Some(["20200901", "google / cpc"]), Some([DateRangeValues(["42"])]));
    var record := RowRecord(["date", "sourceMedium"], ["sessions"], row);
    RowRecordKeys(["date", "sourceMedium"], ["sessions"], row);
    assert Reaches(["sessions"], GroupsOf(row), 0, 0);
    RowRecordDimension(["date", "sourceMedium"], ["sessions"], row, 0);
    RowRecordDimension(["date", "sourceMedium"], ["sessions"], row, 1);
    RowRecordMetric(["date", "sourceMedium"], ["sessions"], row, 0, 0);
    assert record == map["date" := "20200901", "sourceMedium" := "google / cpc", "sessions" := "42"];
    var header := ColumnHeader(Some(["date", "sourceMedium"]),
                               Some(MetricHeader(Some([MetricHeaderEntry("sessions", "INTEGER")]))));
    var report := Report(Some(header), Some(ReportData(Present([row]), [], None)), None);
    assert MetricNamesOf(report) == ["sessions"];
    assert ReportTable(report) == [record];
  }

  /** Two date ranges for the same metric collapse into one column holding the second range's value. */
  lemma TwoDateRangesExample()
    ensures RowRecord(["date"], ["sessions"], Row(Some(["20200901"]), Some([DateRangeValues(["1"]), DateRangeValues(["2"])])))
         == map["date" := "20200901", "sessions" := "2"]
  {
  }
}
