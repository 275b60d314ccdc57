/**
 * The shapes of the Analytics Reporting API v4 requests and responses that the
 * helper builds and reads. JSON objects become datatypes; a key the code reads
 * with `.get(key)` or `.get(key, default)` becomes an `Option` field (absent is
 * `None`). Dimensions and metrics of a request are kept as their name and
 * expression strings.
 */
module Report {
  import opened Wrappers

  /** The error the remote `batchGet(...).execute()` call raises. */
  datatype ApiError = ApiError(status: int, message: string)

  /** One dimension filter of a `dimensionFilterClauses` entry. */
  datatype DimensionFilter = DimensionFilter(dimensionName: string, operator: string, expressions: seq<string>)

  /** The `filters` argument: an operator (`AND` / `OR`) over dimension filters. */
  datatype FilterClause = FilterClause(operator: string, filters: seq<DimensionFilter>)

  datatype DateRange = DateRange(startDate: string, endDate: string)

  /** The arguments `get_full_report` passes unchanged to every `get_report` call. */
  datatype ReportParams = ReportParams(
    profileId: string,
    dimensions: seq<string>,
    metrics: seq<string>,
    filters: FilterClause,
    dateFrom: string,
    dateTo: string,
    pageSize: int)

  /** One entry of `reportRequests` in the body of a `batchGet` call. */
  datatype ReportRequest = ReportRequest(
    viewId: string,
    dateRanges: seq<DateRange>,
    dimensions: seq<string>,
    metrics: seq<string>,
    samplingLevel: string,
    pageSize: int,
    pageToken: Option<string>,
    dimensionFilterClauses: seq<FilterClause>)

  /** The sampling level every request asks for. */
  const SamplingLevel: string := "LARGE"

  /** A metric header entry: its `name` and its value `type`. */
  datatype MetricHeaderEntry = MetricHeaderEntry(name: string, kind: string)

  datatype MetricHeader = MetricHeader(metricHeaderEntries: Option<seq<MetricHeaderEntry>>)

  datatype ColumnHeader = ColumnHeader(dimensions: Option<seq<string>>, metricHeader: Option<MetricHeader>)

  /** The metric values of one row for one date range, parallel to the metric headers. */
  datatype DateRangeValues = DateRangeValues(values: seq<string>)

  /** A row: its dimension values and one metric-value group per date range. */
  datatype Row = Row(dimensions: Option<seq<string>>, metrics: Option<seq<DateRangeValues>>)

  /**
   * The `rows` key of a report's `data`. Python tells apart a missing key
   * (`.get('rows', [])` gives the default) from a key holding `None`
   * (`.get('rows', [])` gives `None`), and the helper can write the latter.
   */
  datatype RowsField = Absent | Null | Present(rows: seq<Row>)

  datatype ReportData = ReportData(rows: RowsField, totals: seq<DateRangeValues>, rowCount: Option<int>)

  datatype Report = Report(columnHeader: Option<ColumnHeader>, data: Option<ReportData>, nextPageToken: Option<string>)

  /** A `batchGet` response; a missing `reports` key reads like an empty list everywhere it is used. */
  datatype Response = Response(reports: seq<Report>)

  /** The parameters a request was built from, when it has the shape `GetReport` builds. */
  function ParamsOf(req: ReportRequest): Option<ReportParams>
  {
    if |req.dateRanges| == 1 && |req.dimensionFilterClauses| == 1 then
      Some(ReportParams(req.viewId, req.dimensions, req.metrics, req.dimensionFilterClauses[0],
                        req.dateRanges[0].startDate, req.dateRanges[0].endDate, req.pageSize))
    else
      None
  }

  /**
   * `get_report`: the request body for one page. It asks for a single date
   * range, LARGE sampling and a single filter clause, and carries the token.
   */
  function GetReport(params: ReportParams, token: Option<string>): (req: ReportRequest)
    ensures ParamsOf(req) == Some(params)
    ensures req.pageToken == token
    ensures req.samplingLevel == SamplingLevel
  {
    ReportRequest(params.profileId, [DateRange(params.dateFrom, params.dateTo)], params.dimensions,
                  params.metrics, SamplingLevel, params.pageSize, token, [params.filters])
  }

  /** Two requests built from the same parameters differ at most in their page token. */
  lemma OnlyTokenDiffers(params: ReportParams, t1: Option<string>, t2: Option<string>)
    ensures GetReport(params, t1).(pageToken := t2) == GetReport(params, t2)
    ensures GetReport(params, t1) == GetReport(params, t2) <==> t1 == t2
  {
  }
}
