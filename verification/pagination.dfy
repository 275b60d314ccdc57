/**
 * `get_full_report`: fetch the first page, then keep fetching with the
 * returned `nextPageToken` until a page carries none, appending every later
 * page's rows to the first page's rows. The remote call is the parameter
 * `fetch`; the unbounded Python loop is bounded by a budget of follow-up
 * fetches, and running out of it is the error `PageLimit`.
 */
module Pagination {
  import opened Wrappers
  import opened Report

  /** Why a run of `get_full_report` stopped without a merged response. */
  datatype PageError =
    | ApiFailure(cause: ApiError)  // a fetch raised
    | NoReport                     // `response.get('reports')[0]` on a response without reports
    | NoData                       // `.get('data').get('rows')` on a report without `data`
    | NoRows                       // `rows.extend(...)` where the accumulated or the new rows are None
    | PageLimit                    // the budget of follow-up fetches ran out while a token remained

  /** The remote report call, one request in, one response or API error out. */
  type Fetch = ReportRequest -> Result<Response, ApiError>

  /** What a run produced, together with every request it issued, in order. */
  datatype Run<T> = Run(outcome: Result<T, PageError>, requests: seq<ReportRequest>)

  /** The first report of the response to `req`, as `response.get('reports')[0]` reads it. */
  function Answer(fetch: Fetch, req: ReportRequest): Result<Report, PageError>
  {
    match fetch(req)
    case Failure(e) => Failure(ApiFailure(e))
    case Success(response) =>
      if |response.reports| == 0 then Failure(NoReport) else Success(response.reports[0])
  }

  /** `data.get('rows')`: the rows when present, None when the key is missing or holds None. */
  function RowsOf(data: ReportData): Option<seq<Row>>
  {
    if data.rows.Present? then Some(data.rows.rows) else None
  }

  /** The page has `data` whose `rows` key holds a list. */
  predicate HasRows(page: Report)
  {
    page.data.Some? && page.data.value.rows.Present?
  }

  /** The answer to `req` is a page that carries a continuation token. */
  predicate Carries(fetch: Fetch, req: ReportRequest)
  {
    Answer(fetch, req).Success? && Answer(fetch, req).value.nextPageToken.Some?
  }

  /** The answer to `req` is a page without a continuation token. */
  predicate Stops(fetch: Fetch, req: ReportRequest)
  {
    Answer(fetch, req).Success? && Answer(fetch, req).value.nextPageToken.None?
  }

  /** `next` is the request built from `params` and the token the answer to `req` carries. */
  predicate Continues(fetch: Fetch, params: ReportParams, req: ReportRequest, next: ReportRequest)
  {
    Carries(fetch, req) && next == GetReport(params, Answer(fetch, req).value.nextPageToken)
  }

  /** Every request but the last is answered with a token, and the next request follows it. */
  predicate FollowsTokens(fetch: Fetch, params: ReportParams, requests: seq<ReportRequest>)
  {
    forall i | 0 <= i < |requests| - 1 :: Continues(fetch, params, requests[i], requests[i + 1])
  }

  /** Every request was built from `params`; only the page token can differ between them. */
  predicate SameQuery(params: ReportParams, requests: seq<ReportRequest>)
  {
    forall i | 0 <= i < |requests| :: requests[i] == GetReport(params, requests[i].pageToken)
  }

  function Last<T>(s: seq<T>): T
    requires |s| > 0
  {
    s[|s| - 1]
  }

  /**
   * The `while next_page_token is not None` loop: `rows` is what has been
   * accumulated so far (None when the first page had none) and `budget` the
   * number of fetches still allowed.
   */
  function Follow(fetch: Fetch, params: ReportParams, token: Option<string>, rows: Option<seq<Row>>, budget: nat)
    : (run: Run<Option<seq<Row>>>)
    ensures |run.requests| <= budget
    ensures token.None? <==> run == Run(Success(rows), [])
    ensures |run.requests| > 0 ==> run.requests[0] == GetReport(params, token)
    ensures SameQuery(params, run.requests)
    ensures FollowsTokens(fetch, params, run.requests)
    ensures run.outcome.Success? && |run.requests| > 0 ==> Stops(fetch, Last(run.requests))
    ensures run.outcome == Failure(PageLimit) ==>
              |run.requests| == budget && (if budget == 0 then token.Some? else Carries(fetch, Last(run.requests)))
    ensures run.outcome.Failure? && run.outcome.error.ApiFailure? ==>
              |run.requests| > 0 && fetch(Last(run.requests)) == Failure(run.outcome.error.cause)
    decreases budget
  {
    if token.None? then Run(Success(rows), [])
    else if budget == 0 then Run(Failure(PageLimit), [])
    else
      var req := GetReport(params, token);
      match Answer(fetch, req)
      case Failure(e) => Run(Failure(e), [req])
      case Success(page) =>
        if rows.None? then Run(Failure(NoRows), [req])
        else if page.data.None? then Run(Failure(NoData), [req])
        else
          match RowsOf(page.data.value)
          case None => Run(Failure(NoRows), [req])
          case Some(more) =>
            var rest := Follow(fetch, params, page.nextPageToken, Some(rows.value + more), budget - 1);
            Run(rest.outcome, [req] + rest.requests)
  }

  /**
   * `response['reports'][0]['data']['rows'] = rows`: the first response with
   * only the rows of its first report replaced; Python's None is written as
   * a key holding None.
   */
  function WithRows(response: Response, rows: Option<seq<Row>>): (merged: Response)
    requires |response.reports| > 0 && response.reports[0].data.Some?
    ensures |merged.reports| == |response.reports| && merged.reports[1..] == response.reports[1..]
    ensures merged.reports[0].columnHeader == response.reports[0].columnHeader
    ensures merged.reports[0].nextPageToken == response.reports[0].nextPageToken
    ensures merged.reports[0].data.Some?
    ensures merged.reports[0].data.value.totals == response.reports[0].data.value.totals
    ensures merged.reports[0].data.value.rowCount == response.reports[0].data.value.rowCount
    ensures RowsOf(merged.reports[0].data.value) == rows
    ensures rows.None? ==> merged.reports[0].data.value.rows == Null
  {
    var first := response.reports[0];
    var field := if rows.None? then Null else Present(rows.value);
    response.(reports := [first.(data := Some(first.data.value.(rows := field)))] + response.reports[1..])
  }

  /**
   * `get_full_report`: one fetch with the caller's token `start` (None by
   * default), then the follow-up loop with at most `maxPages` further fetches.
   */
  function GetFullReport(fetch: Fetch, params: ReportParams, start: Option<string>, maxPages: nat): (run: Run<Response>)
    ensures 1 <= |run.requests| <= maxPages + 1
    ensures run.requests[0] == GetReport(params, start)
    ensures SameQuery(params, run.requests)
    ensures FollowsTokens(fetch, params, run.requests)
    ensures run.outcome.Success? ==> Stops(fetch, Last(run.requests))
    ensures run.outcome == Failure(PageLimit) ==>
              |run.requests| == maxPages + 1 && Carries(fetch, Last(run.requests))
    ensures run.outcome.Failure? && run.outcome.error.ApiFailure? ==>
              fetch(Last(run.requests)) == Failure(run.outcome.error.cause)
  {
    var req := GetReport(params, start);
    match fetch(req)
    case Failure(e) => Run(Failure(ApiFailure(e)), [req])
    case Success(response) =>
      if |response.reports| == 0 then Run(Failure(NoReport), [req])
      else if response.reports[0].data.None? then Run(Failure(NoData), [req])
      else
        var first := response.reports[0];
        var loop := Follow(fetch, params, first.nextPageToken, RowsOf(first.data.value), maxPages);
        var outcome := match loop.outcome
          case Failure(e) => Failure(e)
          case Success(rows) => Success(WithRows(response, rows));
        Run(outcome, [req] + loop.requests)
  }

  // ---------------------------------------------------------------------
  // The provider's chain of pages, as an independent reference.

  /**
   * `pages` is what the provider hands out when the request with `token` is
   * followed: the first page answers that request, every page but the last
   * carries a token, and the rest of the chain answers that token.
   */
  ghost predicate IsChain(fetch: Fetch, params: ReportParams, token: Option<string>, pages: seq<Report>)
    decreases |pages|
  {
    && |pages| > 0
    && Answer(fetch, GetReport(params, token)) == Success(pages[0])
    && if |pages| == 1 then pages[0].nextPageToken.None?
       else pages[0].nextPageToken.Some? && IsChain(fetch, params, pages[0].nextPageToken, pages[1..])
  }

  /** The requests that walk `pages`: request i carries the token of page i - 1. */
  function ChainRequests(params: ReportParams, token: Option<string>, pages: seq<Report>): (reqs: seq<ReportRequest>)
  {
    seq(|pages|, i requires 0 <= i < |pages| => GetReport(params, if i == 0 then token else pages[i - 1].nextPageToken))
  }

  /** Every page's rows, in page order. */
  function ChainRows(pages: seq<Report>): seq<Row>
    requires forall i | 0 <= i < |pages| :: HasRows(pages[i])
  {
    if |pages| == 0 then []
    else
      assert HasRows(pages[0]);
      pages[0].data.value.rows.rows + ChainRows(pages[1..])
  }

  /** A provider hands out at most one chain from a given token. */
  lemma {:induction false} ChainUnique(fetch: Fetch, params: ReportParams, token: Option<string>,
                                       pages: seq<Report>, others: seq<Report>)
    requires IsChain(fetch, params, token, pages) && IsChain(fetch, params, token, others)
    ensures pages == others
    decreases |pages|
  {
    assert pages[0] == others[0];
    if |pages| > 1 {
      assert |others| > 1;
      ChainUnique(fetch, params, pages[0].nextPageToken, pages[1..], others[1..]);
      assert pages == [pages[0]] + pages[1..];
      assert others == [others[0]] + others[1..];
    } else {
      assert |others| == 1;
    }
  }

  lemma ChainRequestsCons(params: ReportParams, token: Option<string>, pages: seq<Report>)
    requires |pages| > 0
    ensures ChainRequests(params, token, pages)
         == [GetReport(params, token)] + ChainRequests(params, pages[0].nextPageToken, pages[1..])
  {
  }

  /** Following a well-formed chain that fits the budget appends its rows and issues one request per page. */
  lemma {:induction false} FollowChain(fetch: Fetch, params: ReportParams, token: Option<string>,
                                       pages: seq<Report>, acc: seq<Row>, budget: nat)
    requires IsChain(fetch, params, token, pages) && |pages| <= budget
    requires forall i | 0 <= i < |pages| :: HasRows(pages[i])
    requires token.Some?
    ensures Follow(fetch, params, token, Some(acc), budget)
         == Run(Success(Some(acc + ChainRows(pages))), ChainRequests(params, token, pages))
    decreases |pages|
  {
    var page := pages[0];
    var more := page.data.value.rows.rows;
    ChainRequestsCons(params, token, pages);
    if |pages| == 1 {
      assert ChainRows(pages) == more;
    } else {
      FollowChain(fetch, params, page.nextPageToken, pages[1..], acc + more, budget - 1);
      assert acc + more + ChainRows(pages[1..]) == acc + ChainRows(pages);
    }
  }

  /**
   * When the provider's chain from `start` fits the budget and its pages are
   * well formed, the run fetches each page once, in order, and returns the
   * first response with every page's rows in page order.
   */
  lemma GetFullReportComplete(fetch: Fetch, params: ReportParams, start: Option<string>, maxPages: nat,
                              pages: seq<Report>)
    requires IsChain(fetch, params, start, pages) && |pages| <= maxPages + 1
    requires pages[0].data.Some?
    requires |pages| > 1 ==> forall i | 0 <= i < |pages| :: HasRows(pages[i])
    ensures var run := GetFullReport(fetch, params, start, maxPages);
            && run.requests == ChainRequests(params, start, pages)
            && fetch(run.requests[0]).Success?
            && run.outcome == Success(WithRows(fetch(run.requests[0]).value,
                                               if |pages| == 1 then RowsOf(pages[0].data.value)
                                               else Some(ChainRows(pages))))
  {
    ChainRequestsCons(params, start, pages);
    if |pages| > 1 {
      FollowChain(fetch, params, pages[0].nextPageToken, pages[1..], pages[0].data.value.rows.rows, maxPages);
    }
  }

  /** The pages a run was answered with, when every one of its requests was answered. */
  lemma {:induction false} FollowSound(fetch: Fetch, params: ReportParams, token: Option<string>,
                                       rows: Option<seq<Row>>, budget: nat)
    returns (pages: seq<Report>)
    requires token.Some?
    requires Follow(fetch, params, token, rows, budget).outcome.Success?
    ensures IsChain(fetch, params, token, pages)
    ensures |pages| == |Follow(fetch, params, token, rows, budget).requests|
    ensures rows.Some? && forall i | 0 <= i < |pages| :: HasRows(pages[i])
    decreases budget
  {
    var req := GetReport(params, token);
    var page := Answer(fetch, req).value;
    var more := page.data.value.rows.rows;
    if page.nextPageToken.None? {
      pages := [page];
    } else {
      var rest := FollowSound(fetch, params, page.nextPageToken, Some(rows.value + more), budget - 1);
      pages := [page] + rest;
      assert pages[1..] == rest;
    }
  }

  /**
   * A successful run was answered by a chain of well-formed pages that fits
   * the budget, one page per request; with `GetFullReportComplete` and
   * `ChainUnique` this pins down its result.
   */
  lemma GetFullReportSound(fetch: Fetch, params: ReportParams, start: Option<string>, maxPages: nat)
    returns (pages: seq<Report>)
    requires GetFullReport(fetch, params, start, maxPages).outcome.Success?
    ensures IsChain(fetch, params, start, pages)
    ensures |pages| == |GetFullReport(fetch, params, start, maxPages).requests| <= maxPages + 1
    ensures pages[0].data.Some?
    ensures |pages| > 1 ==> forall i | 0 <= i < |pages| :: HasRows(pages[i])
  {
    var req := GetReport(params, start);
    var first := Answer(fetch, req).value;
    if first.nextPageToken.None? {
      pages := [first];
    } else {
      var rest := FollowSound(fetch, params, first.nextPageToken, RowsOf(first.data.value), maxPages);
      pages := [first] + rest;
      assert pages[1..] == rest;
    }
  }

  /** When the budget runs out, the provider's chain from `token` is longer than the budget. */
  lemma {:induction false} FollowLimit(fetch: Fetch, params: ReportParams, token: Option<string>,
                                       rows: Option<seq<Row>>, budget: nat, pages: seq<Report>)
    requires Follow(fetch, params, token, rows, budget).outcome == Failure(PageLimit)
    requires IsChain(fetch, params, token, pages)
    ensures |pages| > budget
    decreases budget
  {
    if budget > 0 {
      var page := Answer(fetch, GetReport(params, token)).value;
      var more := page.data.value.rows.rows;
      FollowLimit(fetch, params, page.nextPageToken, Some(rows.value + more), budget - 1, pages[1..]);
    }
  }

  /** `PageLimit` is reported only for a provider whose chain needs more fetches than allowed. */
  lemma PageLimitMeansLongChain(fetch: Fetch, params: ReportParams, start: Option<string>, maxPages: nat,
                                pages: seq<Report>)
    requires GetFullReport(fetch, params, start, maxPages).outcome == Failure(PageLimit)
    requires IsChain(fetch, params, start, pages)
    ensures |pages| > maxPages + 1
  {
    var first := Answer(fetch, GetReport(params, start)).value;
    FollowLimit(fetch, params, first.nextPageToken, RowsOf(first.data.value), maxPages, pages[1..]);
  }

  /**
   * A first page without a token ends the run after one fetch, and its rows
   * come back as they were, except that a missing `rows` key is written back
   * as a key holding None.
   */
  lemma SinglePage(fetch: Fetch, params: ReportParams, start: Option<string>, maxPages: nat)
    requires Stops(fetch, GetReport(params, start))
    requires Answer(fetch, GetReport(params, start)).value.data.Some?
    ensures var run := GetFullReport(fetch, params, start, maxPages);
            var first := Answer(fetch, GetReport(params, start)).value;
            && run.requests == [GetReport(params, start)]
            && run.outcome.Success?
            && RowsOf(run.outcome.value.reports[0].data.value) == RowsOf(first.data.value)
            && (first.data.value.rows.Present? ==> run.outcome.value.reports[0].data.value.rows == first.data.value.rows)
            && (!first.data.value.rows.Present? ==> run.outcome.value.reports[0].data.value.rows == Null)
  {
  }

  /** The number of pages of a chain that carry a token. */
  function TokenPages(pages: seq<Report>): nat
  {
    if |pages| == 0 then 0 else (if pages[0].nextPageToken.Some? then 1 else 0) + TokenPages(pages[1..])
  }

  /** One fetch per page: a chain has exactly one more page than it has pages with a token. */
  lemma {:induction false} ChainCallCount(fetch: Fetch, params: ReportParams, token: Option<string>, pages: seq<Report>)
    requires IsChain(fetch, params, token, pages)
    ensures |ChainRequests(params, token, pages)| == 1 + TokenPages(pages)
    decreases |pages|
  {
    if |pages| > 1 {
      ChainCallCount(fetch, params, pages[0].nextPageToken, pages[1..]);
    }
  }

  /**
   * A fetch that fails on the second page ends the run with that API error
   * after exactly two fetches; the rows of the first page are not returned.
   * A first page without rows does not change this: the second fetch raises
   * before `rows.extend` is reached.
   */
  lemma ApiErrorOnSecondPage(fetch: Fetch, params: ReportParams, start: Option<string>, maxPages: nat, e: ApiError)
    requires maxPages >= 1
    requires Carries(fetch, GetReport(params, start)) && Answer(fetch, GetReport(params, start)).value.data.Some?
    requires fetch(GetReport(params, Answer(fetch, GetReport(params, start)).value.nextPageToken)) == Failure(e)
    ensures GetFullReport(fetch, params, start, maxPages).outcome == Failure(ApiFailure(e))
    ensures |GetFullReport(fetch, params, start, maxPages).requests| == 2
  {
  }
}
