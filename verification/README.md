# Google Analytics report helper — Dafny model

This project models the core of a small Python helper for the Google Analytics Reporting API v4. The helper is the class
`GoogleAnalytics` in `google_analytics/__init__.py`. The model covers its three pieces of sequential logic:

- **Pagination** (`get_full_report`). The helper fetches the first page with the caller's page token, which is `None`
  by default. While the page last fetched carries a `nextPageToken`, it fetches again with the same query and that
  token, appending the new page's rows to the first page's rows. It returns the *first* response with only its rows
  replaced. The remote call is an abstract parameter `fetch: ReportRequest -> Result<Response, ApiError>`.
  `get_report` becomes `Report.GetReport`, a pure function that builds the request body. A run returns its outcome
  together with the list of requests it issued, so the order and number of calls can be stated.
- **Prefix stripping** (`del_ga`). Every dimension header of the first report loses its first three characters,
  whatever they are. A metric header name loses `ga:` only when it starts with it.
- **Flattening** (`response_to_data_frame`). Each row becomes a `map<string, string>`:
  - dimension headers are zipped with the row's dimension values;
  - then each metric-value group (one per date range) is zipped with the metric header names;
  - zipping stops at the shorter list, and a later write to a key replaces an earlier one.
  
  `df_raws` is reset for every report, so only the last report's records are returned. The DataFrame is modelled as
  the list of records handed to its constructor.

Modules: `Wrappers` (Option, Result), `Report` (the request and response shapes, and `GetReport`), `Pagination`,
`Headers`, `Flatten`, and `Composition` (pagination followed by flattening).

Python failures are modelled as follows:

- Crashes that depend on what the provider answers during the loop are error outcomes of `Pagination.PageError`:
  - a raised API call;
  - a response without reports;
  - a report without `data`;
  - `rows.extend` where either side is `None`.
- Crashes of `response_to_data_frame` are `Flatten.FlattenError` values:
  - the `NameError` for a response without reports;
  - iterating a `rows` key that holds `None`.
- The failures of `del_ga` are its precondition `Headers.HasHeaders`: the `IndexError` for a response without
  reports, and the `KeyError`s for a missing column header, dimension list, metric header or metric entry list.

The `rows` key has three states (`Absent | Null | Present`) because Python's `.get('rows', [])` treats a missing key
and a key holding `None` differently. `get_full_report` writes `None` back when the first page had no rows and no
token. `Composition.EmptySinglePageNotFlattenable` shows that `response_to_data_frame` then fails on that response.

Three behaviours of the code are worth stating plainly:

- The merged result of `get_full_report` is the first response with its rows replaced. It keeps the first response's
  headers, totals, row count and even its `nextPageToken`.
- `del_ga` is not idempotent. It strips three characters from every dimension header unconditionally, so a second call
  strips three more (`Headers.DelGaNotIdempotent`). Metric stripping is idempotent except for names starting with
  `ga:ga:` (`Headers.StripMetricNameTwice`).
- The pagination loop tests only `nextPageToken is not None`, so an empty-string token is followed like any other.

## Model

| member | source | states |
|---|---|---|
| Report.GetReport | google_analytics/__init__.py:116-135 | The request carries the caller's token and `LARGE` sampling, and the parameters can be read back from it: one date range from `date_from` to `date_to`, one filter clause, and the view, dimensions, metrics and page size. |
| Report.OnlyTokenDiffers | google_analytics/__init__.py:173-195 | Two requests built from the same parameters differ only in their page token, and they are equal exactly when the tokens are equal. |
| Pagination.Follow | google_analytics/__init__.py:186-197 | The loop issues at most `budget` requests and none when the token is None. Its first request carries the token. Every request is built from the same parameters. Each later request carries the token returned for the previous one. Success means the last page had no token. `PageLimit` means the budget was used up while a token remained. An API error is the failure of the last request. |
| Pagination.WithRows | google_analytics/__init__.py:199 | Only the rows of the first report change. Its column header, token, totals and row count and all other reports are kept. A missing row list is written as a key holding None. |
| Pagination.GetFullReport | google_analytics/__init__.py:173-201 | The first request uses the caller's token. There are between 1 and maxPages + 1 requests, all from the same parameters. Each request follows the token of the previous answer. Success means the last page had no token. `PageLimit` means the last page still had one. An API error is the failure of the last call, and no call follows it. |
| Pagination.ChainUnique | google_analytics/__init__.py:184-196 | A provider hands out at most one chain of pages from a given token. |
| Pagination.FollowChain | google_analytics/__init__.py:186-197 | Following a well-formed chain that fits the budget appends every page's rows in order and issues one request per page, each with the previous page's token. |
| Pagination.GetFullReportComplete | google_analytics/__init__.py:173-201 | When the provider's chain fits the budget and its pages are well formed, the result is the first response with the rows of all pages in fetch order. There is one request per page. |
| Pagination.GetFullReportSound | google_analytics/__init__.py:173-201 | A successful run was answered by a well-formed chain that fits the budget, with one page per request. Together with completeness and uniqueness, this fixes the result. |
| Pagination.FollowSound | google_analytics/__init__.py:186-197 | A successful loop was answered by a chain of pages that all hold rows, with one page per request. |
| Pagination.FollowLimit | google_analytics/__init__.py:186 | When the loop runs out of budget, the provider's chain from that token is longer than the budget. |
| Pagination.PageLimitMeansLongChain | google_analytics/__init__.py:186-196 | `PageLimit` is reported only for a provider whose chain needs more than maxPages + 1 fetches. |
| Pagination.SinglePage | google_analytics/__init__.py:173-186 | A first page without a token means exactly one fetch. Its rows come back as they were, and a missing `rows` key is written back as None. |
| Pagination.ChainCallCount | google_analytics/__init__.py:184-196 | The number of fetches is 1 plus the number of pages that carried a token. |
| Pagination.ApiErrorOnSecondPage | google_analytics/__init__.py:186-197 | If the first page has `data` and a token and the second fetch fails, the run fails with that API error after exactly two fetches, even when the first page has no rows: the error comes before `rows.extend` is reached. |
| Headers.StripDimension | google_analytics/__init__.py:211-212 | A header of three or more characters is its first three characters followed by the result. A shorter header becomes empty. |
| Headers.StripMetricName | google_analytics/__init__.py:214-216 | A name starting with `ga:` is `ga:` followed by the result. Any other name is unchanged. |
| Headers.DelGa | google_analytics/__init__.py:204-220 | The number and order of dimension headers and metric entries are kept. Each dimension header loses its first three characters. Each metric name loses a leading `ga:`, and the metric type is kept. The data, the token and all other reports are unchanged. |
| Headers.DelGaTwiceDropsSix | google_analytics/__init__.py:211-212 | Applying `del_ga` twice drops the first six characters of every dimension header, or empties a header shorter than six. |
| Headers.DelGaNotIdempotent | google_analytics/__init__.py:211-212 | A dimension header longer than three characters makes a second `del_ga` change the response. |
| Headers.StripMetricNameTwice | google_analytics/__init__.py:214-216 | Stripping a metric name twice equals stripping it once exactly when the name does not start with `ga:ga:`. |
| Flatten.Zip | google_analytics/__init__.py:241 | Pairs have the length of the shorter list, and pair i is key i with value i. |
| Flatten.Assign | google_analytics/__init__.py:241-242 | After the writes in order, the keys are the old keys plus the written ones. Each key holds the value of its last write. Unwritten keys keep their old values. |
| Flatten.AssignGroups | google_analytics/__init__.py:244-247 | After the metric groups, the keys are the old keys plus every metric name some group reaches. Keys no group writes keep their values. |
| Flatten.AssignGroupsLast | google_analytics/__init__.py:244-247 | A metric name holds the value of its last positional write across all groups. |
| Flatten.RowRecordKeys | google_analytics/__init__.py:237-247 | A record's columns are exactly the dimension headers paired with a value and the metric names some group reaches. |
| Flatten.RowRecordColumns | google_analytics/__init__.py:241-247 | Every column of a record is a dimension header or a metric header name. |
| Flatten.RowRecordDimension | google_analytics/__init__.py:241-242 | For i below both lengths, dimension header i holds dimension value i, unless a later header or a metric name writes the same key. |
| Flatten.RowRecordMetric | google_analytics/__init__.py:244-247 | A metric name holds the value from its last write by group and position. |
| Flatten.MetricOverwritesDimension | google_analytics/__init__.py:241-247 | A metric name equal to a dimension header overwrites the dimension value. |
| Flatten.LastGroupWins | google_analytics/__init__.py:244-247 | With distinct metric names, metric j holds the value of the last date-range group that has a value at position j. |
| Flatten.ReportTable | google_analytics/__init__.py:232-249 | There is one record per row, in row order, and an empty row list gives an empty table. |
| Flatten.Scan | google_analytics/__init__.py:228-251 | The loop over reports succeeds exactly when every report's rows can be iterated and some report was seen. Its table is the last report's records. |
| Flatten.ResponseToDataFrame | google_analytics/__init__.py:223-251 | The result is the last report's records. It fails with `NoReports` exactly when there is no report, and with `RowsNotIterable` when some report's rows hold None. |
| Flatten.EarlierReportsDiscarded | google_analytics/__init__.py:228-234 | Reports before the last one do not change the table. |
| Flatten.MissingKeysReadAsEmpty | google_analytics/__init__.py:229-240 | Missing `data` or `rows` gives an empty table. A missing column header gives records with no columns. Missing header `dimensions` gives records with only metric columns. A missing `metricHeader` or `metricHeaderEntries` gives records with only dimension columns. |
| Flatten.MissingRowKeysReadAsEmpty | google_analytics/__init__.py:239-247 | A row without `metrics` gives a record with only its dimension columns. A row without `dimensions` gives a record with only its metric columns. |
| Flatten.SingleRowExample | google_analytics/__init__.py:235-249 | Headers `date` and `sourceMedium`, metric `sessions`, and one row give one record with all three columns. |
| Flatten.TwoDateRangesExample | google_analytics/__init__.py:244-247 | Two date ranges for one metric collapse into one column with the second range's value. |
| Composition.PaginatedTable | google_analytics/__init__.py:183-251 | A paginated single-report response flattens to one record per row of every page, in fetch order, with the first page's headers. |
| Composition.EmptySinglePageNotFlattenable | google_analytics/__init__.py:183-199 | A single page without a `rows` key comes back with `rows` holding None, and flattening that response fails. |

## Left out

- `__init__`, `initialize_analytics` and `get_goals` are credential loading and remote calls through the Google API client. They are not modelled.
- The remote `batchGet(...).execute()` call in `get_report` is the abstract `fetch` parameter. Only the request body is modelled.
- The scope, key-file and API name/version constants are configuration only.
- Building the pandas DataFrame is not modelled. Column order, which follows dict insertion order, is not modelled either. A record is a `map`.
- The `__main__` example driver is not modelled because it only prints.
- Pagination.GetFullReport: adds a budget `maxPages` of follow-up fetches, and exhausting it is the error `PageLimit`. The source loop has no bound, so a provider that always returns a token makes it run forever. When the provider's chain fits the budget and every page is well formed, the model's result is the source's (`Pagination.GetFullReportComplete`). For runs that fail within the budget, the model ends in the error of the first call or page that makes the source raise.
- Pagination.PageError: Python exception types are not modelled. `NoRows` covers both `None.extend` (an `AttributeError`) and `extend(None)` (a `TypeError`), and `NoReport` covers both an `IndexError` and a `TypeError`.
- Headers.DelGa: the `KeyError`s for missing header keys are a precondition rather than an error value.
- Flatten.MetricNamesOf: a metric header entry without `name` would make `None` a column key. The model requires every entry to carry a name.
- Flatten.GroupsOf: a metric-value group without `values` makes `zip` raise a `TypeError`. The model requires every group to carry values.
- `get_full_report` and `del_ga` mutate their argument in place and return it. The model returns a new value, so aliasing is not modelled.
- The provider `fetch` is a pure function of the request, so a provider that answers the same request differently within one run cannot be expressed. `Pagination.ChainUnique` relies on this.
- Response fields such as `minimums`, `maximums`, `isDataGolden` and `queryCost` are not modelled. `get_full_report` and `del_ga` pass them through unchanged, as `Pagination.WithRows` and `Headers.DelGa` do for the fields that are modelled.
- Dimensions and metrics in a request are dictionaries (`{'name': ...}` and `{'expression': ...}`). They are kept as their strings.
