/** Search Analytics requests and responses: the defaults and filter group of the request body, the
    mapping of each response row's keys onto named dimensions, pagination over the 25000-row limit, and the
    date windows used for period comparisons. The Search Console service itself is a parameter: a function
    from the request it is sent to the rows it answers with or the error it reports. Dates are day numbers
    and `today` is the current day. */
module SearchAnalytics {
  import opened Common

  /** A dimension filter, such as `page includingRegex .*\/blog\/.*`. */
  datatype Filter = Filter(dimension: string, operator: string, expression: string)

  /** What a command asks for. */
  datatype QueryRequest = QueryRequest(
    startDate: int, endDate: int, dimensions: seq<string>, rowLimit: int, startRow: int, filters: seq<Filter>)

  /** One result row; only the key fields named by the request's dimensions are filled. */
  datatype QueryRow = QueryRow(
    query: string, page: string, country: string, device: string, date: string,
    clicks: real, impressions: real, ctr: real, position: real)

  datatype QueryResult = QueryResult(rows: seq<QueryRow>, totalRows: int, startDate: int, endDate: int)

  /** The request body sent to the service. */
  datatype FilterGroup = FilterGroup(groupType: string, filters: seq<Filter>)
  datatype ApiRequest = ApiRequest(
    startDate: int, endDate: int, dimensions: seq<string>, rowLimit: int, startRow: int,
    filterGroups: seq<FilterGroup>)

  /** A response row: one key per requested dimension, in request order, and the metrics. */
  datatype ApiRow = ApiRow(keys: seq<string>, clicks: real, impressions: real, ctr: real, position: real)

  /** The Search Console service. */
  type Service = ApiRequest -> Result<seq<ApiRow>, string>

  const DefaultRowLimit: int := 1000
  /** The largest batch the service returns; `QueryAll` pages in steps of this size. */
  const BatchSize: int := 25000
  /** Search Console data lags this many days behind today. */
  const DataDelay: int := 3

  // ---------------------------------------------------------------------------------------------
  // Request shaping

  /** The filter groups of the request body: none without filters, otherwise one "and" group. */
  function FilterGroupsFor(filters: seq<Filter>): seq<FilterGroup> {
    if filters == [] then [] else [FilterGroup("and", filters)]
  }

  /** The request body `Query` sends for `req`. */
  function ApiRequestFor(req: QueryRequest): ApiRequest {
    ApiRequest(
      req.startDate, req.endDate,
      if req.dimensions == [] then ["query"] else req.dimensions,
      if req.rowLimit == 0 then DefaultRowLimit else req.rowLimit,
      req.startRow,
      FilterGroupsFor(req.filters))
  }

  /** Builds the request body: a zero row limit becomes 1000, no dimensions become ["query"], and the
      filters, when there are any, form exactly one "and" group holding all of them in order. */
  method BuildApiRequest(req: QueryRequest) returns (a: ApiRequest)
    ensures a == ApiRequestFor(req)
    ensures a.startDate == req.startDate && a.endDate == req.endDate && a.startRow == req.startRow
    ensures a.rowLimit == if req.rowLimit == 0 then DefaultRowLimit else req.rowLimit
    ensures a.dimensions == if req.dimensions == [] then ["query"] else req.dimensions
    ensures req.filters == [] <==> a.filterGroups == []
    ensures req.filters != [] ==> a.filterGroups == [FilterGroup("and", req.filters)]
  {
    a := ApiRequest(req.startDate, req.endDate, req.dimensions, req.rowLimit, req.startRow, []);
    if a.rowLimit == 0 {
      a := a.(rowLimit := DefaultRowLimit);
    }
    if |a.dimensions| == 0 {
      a := a.(dimensions := ["query"]);
    }
    if |req.filters| > 0 {
      var dimensionFilters: seq<Filter> := [];
      for i := 0 to |req.filters|
        invariant dimensionFilters == req.filters[..i]
      {
        var f := req.filters[i];
        dimensionFilters := dimensionFilters + [Filter(f.dimension, f.operator, f.expression)];
      }
      assert req.filters[..|req.filters|] == req.filters;
      a := a.(filterGroups := [FilterGroup("and", dimensionFilters)]);
    }
  }

  // ---------------------------------------------------------------------------------------------
  // Response shaping

  /** No position after `i` that the row has a key for names `name`. */
  predicate LastMatch(dims: seq<string>, keys: seq<string>, name: string, i: int) {
    forall j :: 0 <= j && i < j < |dims| && j < |keys| ==> dims[j] != name
  }

  /** The key a response row gives for dimension `name`: the key at the LAST position `i` with
      `dims[i] == name` that the row has a key for, or "" when there is none. */
  function KeyFor(dims: seq<string>, keys: seq<string>, name: string): (k: string)
    decreases |dims|
    ensures (forall i :: 0 <= i < |dims| && i < |keys| ==> dims[i] != name) ==> k == ""
    ensures forall i :: (0 <= i < |dims| && i < |keys| && dims[i] == name && LastMatch(dims, keys, name, i))
                        ==> k == keys[i]
  {
    if dims == [] then ""
    else
      var n := |dims| - 1;
      if n < |keys| && dims[n] == name then keys[n] else KeyFor(dims[..n], keys, name)
  }

  /** The result row for a response row, when the keys are read against dimensions `dims`. */
  function RowFromApi(row: ApiRow, dims: seq<string>): QueryRow {
    QueryRow(
      KeyFor(dims, row.keys, "query"), KeyFor(dims, row.keys, "page"), KeyFor(dims, row.keys, "country"),
      KeyFor(dims, row.keys, "device"), KeyFor(dims, row.keys, "date"),
      row.clicks, row.impressions, row.ctr, row.position)
  }

  /** Copies the metrics of a response row and fills key field `dims[i]` from `row.keys[i]` for every
      position the row has a key for; names other than query, page, country, device and date are ignored. */
  method MapRow(row: ApiRow, dims: seq<string>) returns (qr: QueryRow)
    ensures qr == RowFromApi(row, dims)
    ensures qr.clicks == row.clicks && qr.impressions == row.impressions
    ensures qr.ctr == row.ctr && qr.position == row.position
  {
    qr := QueryRow("", "", "", "", "", row.clicks, row.impressions, row.ctr, row.position);
    for i := 0 to |dims|
      invariant qr == RowFromApi(row, dims[..i])
    {
      assert dims[..i + 1][..i] == dims[..i];
      if i < |row.keys| {
        var dim := dims[i];
        if dim == "query" {
          qr := qr.(query := row.keys[i]);
        } else if dim == "page" {
          qr := qr.(page := row.keys[i]);
        } else if dim == "country" {
          qr := qr.(country := row.keys[i]);
        } else if dim == "device" {
          qr := qr.(device := row.keys[i]);
        } else if dim == "date" {
          qr := qr.(date := row.keys[i]);
        }
      }
    }
    assert dims[..|dims|] == dims;
  }

  /** The rows of a response, mapped one by one, in order. */
  function RowsFromApi(resp: seq<ApiRow>, dims: seq<string>): (rows: seq<QueryRow>)
    ensures |rows| == |resp|
  {
    if resp == [] then [] else RowsFromApi(resp[..|resp| - 1], dims) + [RowFromApi(resp[|resp| - 1], dims)]
  }

  /** Row `i` of the result is response row `i`, mapped. */
  lemma {:induction false} RowsFromApiAt(resp: seq<ApiRow>, dims: seq<string>, i: int)
    requires 0 <= i < |resp|
    ensures RowsFromApi(resp, dims)[i] == RowFromApi(resp[i], dims)
  {
    if i < |resp| - 1 {
      RowsFromApiAt(resp[..|resp| - 1], dims, i);
    }
  }

  /** What `Query` returns for `req` from `service`. */
  function QueryOutcome(req: QueryRequest, service: Service): Result<QueryResult, string> {
    match service(ApiRequestFor(req))
    case Failure(e) => Failure("query failed: " + e)
    case Success(resp) =>
      Success(QueryResult(RowsFromApi(resp, req.dimensions), |resp|, req.startDate, req.endDate))
  }

  /** The rows of a response, mapped one by one and kept in order. */
  method MapRows(apiRows: seq<ApiRow>, dims: seq<string>) returns (rows: seq<QueryRow>)
    ensures rows == RowsFromApi(apiRows, dims)
  {
    rows := [];
    for i := 0 to |apiRows|
      invariant rows == RowsFromApi(apiRows[..i], dims)
    {
      var qr := MapRow(apiRows[i], dims);
      rows := rows + [qr];
      assert apiRows[..i + 1][..i] == apiRows[..i];
    }
    assert apiRows[..|apiRows|] == apiRows;
  }

  /** `Query`: sends the shaped request; a service error is wrapped; otherwise the result has one row per
      response row, in order, and `totalRows` counts them. Keys are mapped with the dimensions of `req`, not
      the defaulted ones, so a request without dimensions leaves every key field blank. */
  method Query(req: QueryRequest, service: Service) returns (r: Result<QueryResult, string>)
    ensures r == QueryOutcome(req, service)
  {
    var apiReq := BuildApiRequest(req);
    var resp := service(apiReq);
    if resp.Failure? {
      return Failure("query failed: " + resp.error);
    }
    var rows := MapRows(resp.value, req.dimensions);
    r := Success(QueryResult(rows, |resp.value|, req.startDate, req.endDate));
  }

  /** The shape of `Query`'s outcome: the service's error wrapped, or one row per response row, in
      order, with `totalRows` their number and the request's dates. */
  lemma QueryOutcomeShape(req: QueryRequest, service: Service)
    ensures QueryOutcome(req, service).Failure? <==> service(ApiRequestFor(req)).Failure?
    ensures service(ApiRequestFor(req)).Failure? ==>
              QueryOutcome(req, service).error == "query failed: " + service(ApiRequestFor(req)).error
    ensures service(ApiRequestFor(req)).Success? ==>
              var resp := service(ApiRequestFor(req)).value;
              var res := QueryOutcome(req, service).value;
              && res.totalRows == |res.rows| == |resp|
              && res.startDate == req.startDate && res.endDate == req.endDate
              && forall i :: 0 <= i < |resp| ==> res.rows[i] == RowFromApi(resp[i], req.dimensions)
  {
    if service(ApiRequestFor(req)).Success? {
      var resp := service(ApiRequestFor(req)).value;
      forall i | 0 <= i < |resp| ensures RowsFromApi(resp, req.dimensions)[i] == RowFromApi(resp[i], req.dimensions) {
        RowsFromApiAt(resp, req.dimensions, i);
      }
    }
  }

  // ---------------------------------------------------------------------------------------------
  // Pagination

  /** The request of the `k`-th batch: rows from `k * 25000` on, 25000 at most. */
  function BatchRequest(req: QueryRequest, k: nat): QueryRequest {
    req.(startRow := k * BatchSize, rowLimit := BatchSize)
  }

  /** Batch `k` comes back whole: the service answers with at least a batch's worth of rows. */
  predicate FullBatch(req: QueryRequest, service: Service, k: nat) {
    var a := service(ApiRequestFor(BatchRequest(req, k)));
    a.Success? && |a.value| >= BatchSize
  }

  /** The service ends the paging at batch `last`: that batch fails or comes back short. */
  predicate EndsAt(req: QueryRequest, service: Service, last: nat) {
    !FullBatch(req, service, last)
  }

  /** The rows of batches `k`, `k + 1`, ... concatenated up to and including the first short batch, or
      the error of the first batch that fails. */
  function PagesFrom(req: QueryRequest, service: Service, k: nat, last: nat): (r: Result<seq<QueryRow>, string>)
    requires k <= last && EndsAt(req, service, last)
    decreases last - k
    ensures r.Failure? ==> |r.error| >= 14 && r.error[..14] == "query failed: "
    ensures r.Success? ==> QueryOutcome(BatchRequest(req, k), service).Success? &&
                           QueryOutcome(BatchRequest(req, k), service).value.rows <= r.value
  {
    var o := QueryOutcome(BatchRequest(req, k), service);
    if o.Failure? then Failure(o.error)
    else if |o.value.rows| < BatchSize then Success(o.value.rows)
    else
      assert k != last;
      Prepend(o.value.rows, PagesFrom(req, service, k + 1, last))
  }

  /** Which end of the paging is named does not matter: every batch where the service ends it gives the
      same pages. */
  lemma {:induction false} PagesFromAnyEnd(req: QueryRequest, service: Service, k: nat, last1: nat, last2: nat)
    requires k <= last1 && EndsAt(req, service, last1)
    requires k <= last2 && EndsAt(req, service, last2)
    ensures PagesFrom(req, service, k, last1) == PagesFrom(req, service, k, last2)
    decreases last1 - k
  {
    PagesFromStep(req, service, k, last1);
    PagesFromStep(req, service, k, last2);
    var o := QueryOutcome(BatchRequest(req, k), service);
    if o.Success? && |o.value.rows| >= BatchSize {
      PagesFromAnyEnd(req, service, k + 1, last1, last2);
    }
  }

  /** One step of the paging: what batch `k` decides. */
  lemma PagesFromStep(req: QueryRequest, service: Service, k: nat, last: nat)
    requires k <= last && EndsAt(req, service, last)
    ensures var o := QueryOutcome(BatchRequest(req, k), service);
            && (o.Failure? ==> PagesFrom(req, service, k, last) == Failure(o.error))
            && (o.Success? && |o.value.rows| < BatchSize ==> PagesFrom(req, service, k, last) == Success(o.value.rows))
            && (o.Success? && |o.value.rows| >= BatchSize ==>
                  k < last && PagesFrom(req, service, k, last) == Prepend(o.value.rows, PagesFrom(req, service, k + 1, last)))
  {
  }

  /** Continues a concatenation with the pages still to come. */
  function Prepend(done: seq<QueryRow>, rest: Result<seq<QueryRow>, string>): Result<seq<QueryRow>, string> {
    match rest
    case Failure(e) => Failure(e)
    case Success(rows) => Success(done + rows)
  }

  lemma PrependPrepend(a: seq<QueryRow>, b: seq<QueryRow>, x: Result<seq<QueryRow>, string>)
    ensures Prepend(a, Prepend(b, x)) == Prepend(a + b, x)
  {
    if x.Success? {
      assert a + (b + x.value) == (a + b) + x.value;
    }
  }

  /** `asked` are the requests of batches `0`, `1`, ..., in order, up to the first batch that is not
      whole: every batch before the last came back whole and the last did not. These are exactly the
      batches `PagesFrom` consults. */
  ghost predicate ConsultedBatches(req: QueryRequest, service: Service, asked: seq<QueryRequest>) {
    && |asked| > 0
    && (forall i :: 0 <= i < |asked| ==> asked[i] == BatchRequest(req, i))
    && (forall i :: 0 <= i < |asked| - 1 ==> FullBatch(req, service, i))
    && !FullBatch(req, service, |asked| - 1)
  }

  /** `QueryAll`: asks for batches at start rows 0, 25000, 50000, ... with a 25000-row limit, stops
      after the first short batch or at the first error, and returns the batches' rows in order with
      `totalRows` their number. `last` names a batch at which the service ends the paging; without one
      the source loops for ever. `asked` lists the requests sent: batch 0, 1, 2, ... up to the first batch
      that is not whole. */
  method QueryAll(req: QueryRequest, service: Service, ghost last: nat)
    returns (r: Result<QueryResult, string>, ghost asked: seq<QueryRequest>)
    requires EndsAt(req, service, last)
    ensures r.Failure? <==> PagesFrom(req, service, 0, last).Failure?
    ensures r.Failure? ==> r.error == PagesFrom(req, service, 0, last).error
    ensures r.Success? ==> r.value == QueryResult(PagesFrom(req, service, 0, last).value,
                                                  |PagesFrom(req, service, 0, last).value|,
                                                  req.startDate, req.endDate)
    ensures ConsultedBatches(req, service, asked)
  {
    var all: seq<QueryRow> := [];
    var startRow := 0;
    ghost var k: nat := 0;
    PrependNothing(PagesFrom(req, service, 0, last));
    while true
      invariant k <= last && startRow == k * BatchSize
      invariant BatchCount(req, service, 0, last) == k + BatchCount(req, service, k, last)
      invariant PagesFrom(req, service, 0, last) == Prepend(all, PagesFrom(req, service, k, last))
      decreases last - k
    {
      // the request of batch k
      var batchReq := req.(startRow := startRow, rowLimit := BatchSize);
      assert batchReq == BatchRequest(req, k);
      var result := Query(batchReq, service);
      BatchStep(req, service, k, last, all);
      if result.Failure? {
        asked := AskedUpTo(req, service, k, last);
        return Failure(result.error), asked;
      }
      all := all + result.value.rows;
      if |result.value.rows| < BatchSize {
        break;
      }
      startRow := startRow + BatchSize;
      k := k + 1;
    }
    asked := AskedUpTo(req, service, k, last);
    r := Success(QueryResult(all, |all|, req.startDate, req.endDate));
  }

  /** The requests of batches `0`, ..., `n - 1`, in order. */
  ghost function Batches(req: QueryRequest, n: nat): seq<QueryRequest> {
    if n == 0 then [] else Batches(req, n - 1) + [BatchRequest(req, n - 1)]
  }

  lemma {:induction false} BatchesAt(req: QueryRequest, n: nat)
    ensures |Batches(req, n)| == n
    ensures forall i :: 0 <= i < n ==> Batches(req, n)[i] == BatchRequest(req, i)
  {
    if n > 0 {
      BatchesAt(req, n - 1);
    }
  }

  /** The requests sent when batch `k` is the first that is not whole. */
  lemma AskedUpTo(req: QueryRequest, service: Service, k: nat, last: nat) returns (asked: seq<QueryRequest>)
    requires k <= last && EndsAt(req, service, last) && !FullBatch(req, service, k)
    requires BatchCount(req, service, 0, last) == k + BatchCount(req, service, k, last)
    ensures |asked| == k + 1 && ConsultedBatches(req, service, asked)
  {
    BatchesAt(req, k + 1);
    BatchCountCounts(req, service, 0, last);
    asked := Batches(req, k + 1);
  }

  /** The number of batches `PagesFrom` consults from batch `k` on: the whole ones and the first that
      is not whole. */
  ghost function BatchCount(req: QueryRequest, service: Service, k: nat, last: nat): nat
    requires k <= last && EndsAt(req, service, last)
    decreases last - k
  {
    if k == last || !FullBatch(req, service, k) then 1 else 1 + BatchCount(req, service, k + 1, last)
  }

  /** One step of the count: what batch `k` decides. */
  lemma BatchCountStep(req: QueryRequest, service: Service, k: nat, last: nat)
    requires k <= last && EndsAt(req, service, last)
    ensures FullBatch(req, service, k) ==>
              k < last && BatchCount(req, service, k, last) == 1 + BatchCount(req, service, k + 1, last)
    ensures !FullBatch(req, service, k) ==> BatchCount(req, service, k, last) == 1
  {
  }

  lemma {:induction false} BatchCountCounts(req: QueryRequest, service: Service, k: nat, last: nat)
    requires k <= last && EndsAt(req, service, last)
    decreases last - k
    ensures BatchCount(req, service, k, last) >= 1
    ensures forall i :: k <= i < k + BatchCount(req, service, k, last) - 1 ==> FullBatch(req, service, i)
    ensures !FullBatch(req, service, k + BatchCount(req, service, k, last) - 1)
  {
    BatchCountStep(req, service, k, last);
    if FullBatch(req, service, k) {
      BatchCountCounts(req, service, k + 1, last);
    }
  }

  /** Continuing nothing leaves the pages as they are. */
  lemma PrependNothing(x: Result<seq<QueryRow>, string>)
    ensures Prepend([], x) == x
  {
    if x.Success? {
      assert [] + x.value == x.value;
    }
  }

  /** One step of `QueryAll`: what batch `k` decides about the pages still to come after the rows `all`
      gathered so far. */
  lemma BatchStep(req: QueryRequest, service: Service, k: nat, last: nat, all: seq<QueryRow>)
    requires k <= last && EndsAt(req, service, last)
    requires BatchCount(req, service, 0, last) == k + BatchCount(req, service, k, last)
    requires PagesFrom(req, service, 0, last) == Prepend(all, PagesFrom(req, service, k, last))
    ensures var o := QueryOutcome(BatchRequest(req, k), service);
            && (o.Failure? ==> !FullBatch(req, service, k) && PagesFrom(req, service, 0, last) == Failure(o.error))
            && (o.Success? && |o.value.rows| < BatchSize ==>
                  !FullBatch(req, service, k) && PagesFrom(req, service, 0, last) == Success(all + o.value.rows))
            && (o.Success? && |o.value.rows| >= BatchSize ==>
                  k < last &&
                  BatchCount(req, service, 0, last) == k + 1 + BatchCount(req, service, k + 1, last) &&
                  PagesFrom(req, service, 0, last) ==
                  Prepend(all + o.value.rows, PagesFrom(req, service, k + 1, last)))
  {
    PagesFromStep(req, service, k, last);
    var o := QueryOutcome(BatchRequest(req, k), service);
    if FullBatch(req, service, k) {
      PrependPrepend(all, o.value.rows, PagesFrom(req, service, k + 1, last));
    }
  }

  // ---------------------------------------------------------------------------------------------
  // Date windows (inclusive day numbers)

  datatype ComparisonPeriod = ComparisonPeriod(currentStart: int, currentEnd: int, previousStart: int, previousEnd: int)

  /** Two adjacent windows of `span + 1` days, the current one ending `DataDelay` days before today. */
  function AdjacentWindows(today: int, span: int): ComparisonPeriod {
    var currentEnd := today - DataDelay;
    var currentStart := currentEnd - span;
    var previousEnd := currentStart - 1;
    var previousStart := previousEnd - span;
    ComparisonPeriod(currentStart, currentEnd, previousStart, previousEnd)
  }

  /** `GetComparisonPeriod`: week against the previous week, or month (30 days) against the previous 30
      days; any other period name is taken as "week". */
  function GetComparisonPeriod(period: string, today: int): (p: ComparisonPeriod)
    decreases if period == "week" then 0 else 1
    ensures p.currentEnd == today - DataDelay
    ensures p.previousEnd == p.currentStart - 1
    ensures var days := if period == "month" then 30 else 7;
            p.currentEnd - p.currentStart + 1 == days && p.previousEnd - p.previousStart + 1 == days
  {
    if period == "week" then AdjacentWindows(today, 6)
    else if period == "month" then AdjacentWindows(today, 29)
    else GetComparisonPeriod("week", today)
  }

  /** `DefaultDateRange`: the 28 days ending `DataDelay` days before today, as (start, end). */
  function DefaultDateRange(today: int): (r: (int, int))
    ensures r.1 == today - DataDelay && r.1 - r.0 + 1 == 28
  {
    (today - 30, today - DataDelay)
  }

  /** `DateRangeForDays` as the source writes it: the window ends `DataDelay` days before today and starts
      `days` days before that, so it spans `days + 1` days. */
  function DateRangeForDaysAsWritten(days: int, today: int): (r: (int, int))
    ensures r.1 == today - DataDelay && r.0 == r.1 - days
  {
    (today - DataDelay - days, today - DataDelay)
  }

  /** The "last N days" window the source asks for spans one day more than N, so asking for the 28 days
      of the default range gives 29 days and a different range. */
  lemma DateRangeForDaysSpansOneExtraDay(days: int, today: int)
    ensures var r := DateRangeForDaysAsWritten(days, today); r.1 - r.0 + 1 == days + 1
    ensures DateRangeForDaysAsWritten(28, today) != DefaultDateRange(today)
  {
  }

  /** `DateRangeForDays` as intended: the last `days` days ending `DataDelay` days before today. */
  function DateRangeForDaysIntended(days: int, today: int): (r: (int, int))
    ensures r.1 == today - DataDelay && r.1 - r.0 + 1 == days
  {
    (today - DataDelay - (days - 1), today - DataDelay)
  }

  /** The intended window for 28 days is exactly the default range. */
  lemma DateRangeForDaysMatchesDefault(today: int)
    ensures DateRangeForDaysIntended(28, today) == DefaultDateRange(today)
  {
  }
}
