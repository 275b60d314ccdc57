/**
 * `del_ga`: strip the `ga:` namespace from the column headers of the first
 * report. Dimension headers lose their first three characters whatever they
 * are; metric header names lose `ga:` only when they start with it.
 */
module Headers {
  import opened Wrappers
  import opened Report

  const GaPrefix: string := "ga:"

  /** `x[3:]`: the header without its first three characters, empty when it is shorter. */
  function StripDimension(header: string): (stripped: string)
    ensures |header| >= 3 ==> header == header[..3] + stripped
    ensures |header| < 3 ==> stripped == ""
  {
    if |header| <= 3 then "" else header[3..]
  }

  predicate HasGaPrefix(name: string)
  {
    GaPrefix <= name
  }

  /** `if name[:3] == 'ga:': name = name[3:]`. */
  function StripMetricName(name: string): (stripped: string)
    ensures HasGaPrefix(name) ==> GaPrefix + stripped == name
    ensures !HasGaPrefix(name) ==> stripped == name
  {
    if |name| >= 3 && name[..3] == GaPrefix then name[3..] else name
  }

  /**
   * The keys `del_ga` indexes with `[...]` exist: a first report with a
   * column header holding dimensions and metric header entries. Without
   * them `del_ga` raises an `IndexError` (no report) or a `KeyError`.
   */
  predicate HasHeaders(response: Response)
  {
    && |response.reports| > 0
    && response.reports[0].columnHeader.Some?
    && response.reports[0].columnHeader.value.dimensions.Some?
    && response.reports[0].columnHeader.value.metricHeader.Some?
    && response.reports[0].columnHeader.value.metricHeader.value.metricHeaderEntries.Some?
  }

  function DimensionHeaders(response: Response): seq<string>
    requires HasHeaders(response)
  {
    response.reports[0].columnHeader.value.dimensions.value
  }

  function MetricEntries(response: Response): seq<MetricHeaderEntry>
    requires HasHeaders(response)
  {
    response.reports[0].columnHeader.value.metricHeader.value.metricHeaderEntries.value
  }

  /** The dimension header `after` is `before` with its first three characters dropped. */
  predicate DroppedThree(before: string, after: string)
  {
    if |before| >= 3 then before == before[..3] + after else after == ""
  }

  /** The metric entry `after` is `before` with a leading `ga:` removed from its name, and nothing else changed. */
  predicate DroppedGa(before: MetricHeaderEntry, after: MetricHeaderEntry)
  {
    && after.kind == before.kind
    && (if HasGaPrefix(before.name) then GaPrefix + after.name == before.name else after.name == before.name)
  }

  function StripEntry(entry: MetricHeaderEntry): MetricHeaderEntry
  {
    entry.(name := StripMetricName(entry.name))
  }

  /** `del_ga`: only the header names of the first report change; count and order are kept. */
  function DelGa(response: Response): (r: Response)
    requires HasHeaders(response)
    ensures HasHeaders(r)
    ensures |r.reports| == |response.reports| && r.reports[1..] == response.reports[1..]
    ensures r.reports[0].data == response.reports[0].data
    ensures r.reports[0].nextPageToken == response.reports[0].nextPageToken
    ensures |DimensionHeaders(r)| == |DimensionHeaders(response)|
    ensures forall i | 0 <= i < |DimensionHeaders(r)| :: DroppedThree(DimensionHeaders(response)[i], DimensionHeaders(r)[i])
    ensures |MetricEntries(r)| == |MetricEntries(response)|
    ensures forall i | 0 <= i < |MetricEntries(r)| :: DroppedGa(MetricEntries(response)[i], MetricEntries(r)[i])
  {
    var report := response.reports[0];
    var header := report.columnHeader.value;
    var dims := DimensionHeaders(response);
    var entries := MetricEntries(response);
    var newDims := seq(|dims|, i requires 0 <= i < |dims| => StripDimension(dims[i]));
    var newEntries := seq(|entries|, i requires 0 <= i < |entries| => StripEntry(entries[i]));
    var newHeader := header.(dimensions := Some(newDims),
                             metricHeader := Some(header.metricHeader.value.(metricHeaderEntries := Some(newEntries))));
    response.(reports := [report.(columnHeader := Some(newHeader))] + response.reports[1..])
  }

  /** Dimension stripping is unconditional, so a second `del_ga` drops three more characters. */
  lemma DelGaTwiceDropsSix(response: Response)
    requires HasHeaders(response)
    ensures var twice := DimensionHeaders(DelGa(DelGa(response)));
            && |twice| == |DimensionHeaders(response)|
            && forall i | 0 <= i < |twice| ::
                 var h := DimensionHeaders(response)[i];
                 if |h| >= 6 then h == h[..6] + twice[i] else twice[i] == ""
  {
  }

  /** `del_ga` is not idempotent: once a dimension header is longer than three characters, a second call changes it. */
  lemma DelGaNotIdempotent(response: Response, i: int)
    requires HasHeaders(response)
    requires 0 <= i < |DimensionHeaders(response)| && |DimensionHeaders(response)[i]| > 3
    ensures DelGa(DelGa(response)) != DelGa(response)
  {
  }

  /** Stripping a metric name a second time changes it exactly when the name starts with `ga:` twice. */
  lemma StripMetricNameTwice(name: string)
    ensures StripMetricName(StripMetricName(name)) == StripMetricName(name) <==> !(GaPrefix + GaPrefix <= name)
  {
  }
}
