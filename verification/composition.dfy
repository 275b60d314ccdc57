/**
 * What `response_to_data_frame` makes of a response assembled by
 * `get_full_report`, the order in which the helper's own example uses them.
 */
module Composition {
  import opened Wrappers
  import opened Report
  import opened Pagination
  import opened Flatten

  /**
   * A paginated single-report response flattens to one record per row of
   * every fetched page, in fetch order, with the first page's headers.
   */
  lemma PaginatedTable(fetch: Fetch, params: ReportParams, start: Option<string>, maxPages: nat, pages: seq<Report>)
    requires IsChain(fetch, params, start, pages) && 1 < |pages| <= maxPages + 1
    requires forall i | 0 <= i < |pages| :: HasRows(pages[i])
    requires fetch(GetReport(params, start)).Success? && |fetch(GetReport(params, start)).value.reports| == 1
    ensures var run := GetFullReport(fetch, params, start, maxPages);
            && run.outcome.Success?
            && var table := ResponseToDataFrame(run.outcome.value);
               && table.Success?
               && |table.value| == |ChainRows(pages)|
               && forall i | 0 <= i < |table.value| ::
                    table.value[i] == RowRecord(DimensionHeadersOf(pages[0]), MetricNamesOf(pages[0]), ChainRows(pages)[i])
  {
    GetFullReportComplete(fetch, params, start, maxPages, pages);
    var response := fetch(GetReport(params, start)).value;
    var merged := WithRows(response, Some(ChainRows(pages)));
    assert GetFullReport(fetch, params, start, maxPages).outcome == Success(merged);
    assert response.reports[0] == pages[0];
    assert |merged.reports| == 1;
    assert RowListOf(merged.reports[0]) == Some(ChainRows(pages));
    assert Iterable(merged.reports);
    assert DimensionHeadersOf(merged.reports[0]) == DimensionHeadersOf(pages[0]);
    assert MetricNamesOf(merged.reports[0]) == MetricNamesOf(pages[0]);
    var table := ResponseToDataFrame(merged);
    assert table.Success? && table.value == ReportTable(merged.reports[0]);
  }

  /**
   * A single page without rows (the API leaves the key out of an empty
   * report) comes back from `get_full_report` with `rows` holding None,
   * which `response_to_data_frame` cannot iterate.
   */
  lemma EmptySinglePageNotFlattenable(fetch: Fetch, params: ReportParams, start: Option<string>, maxPages: nat)
    requires Stops(fetch, GetReport(params, start))
    requires Answer(fetch, GetReport(params, start)).value.data.Some?
    requires Answer(fetch, GetReport(params, start)).value.data.value.rows.Absent?
    ensures GetFullReport(fetch, params, start, maxPages).outcome.Success?
    ensures ResponseToDataFrame(GetFullReport(fetch, params, start, maxPages).outcome.value) == Failure(RowsNotIterable)
  {
  }
}
