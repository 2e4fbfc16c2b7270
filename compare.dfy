/** The compare command: joining the query rows of two periods into one comparison row per query,
    ordering the rows, and cutting them to the requested limit. Go's map iteration order is
    unspecified, so the rows come out in an order the model leaves open; what is fixed is which rows
    there are. */
module Compare {
  import opened Common
  import opened Csv
  import SearchAnalytics
  import Sorting

  type QueryRow = SearchAnalytics.QueryRow

  /** Go's zero value of a query row: what a lookup of a missing query yields. */
  const ZeroRow: QueryRow := SearchAnalytics.QueryRow("", "", "", "", "", 0.0, 0.0, 0.0, 0.0)

  /** The queries that occur in `rows`. */
  function KeysOf(rows: seq<QueryRow>): set<string> {
    if rows == [] then {} else KeysOf(rows[..|rows| - 1]) + {rows[|rows| - 1].query}
  }

  lemma {:induction false} KeysOfMembers(rows: seq<QueryRow>, q: string)
    ensures q in KeysOf(rows) <==> exists i :: 0 <= i < |rows| && rows[i].query == q
  {
    if rows != [] {
      var n := |rows| - 1;
      KeysOfMembers(rows[..n], q);
      if q in KeysOf(rows[..n]) {
        var i :| 0 <= i < n && rows[..n][i].query == q;
        assert rows[i].query == q;
      }
      if i :| 0 <= i < n && rows[i].query == q {
        assert rows[..n][i].query == q;
      }
    }
  }

  /** Position `i` holds the last row of `rows` for query `q`. */
  predicate IsLast(rows: seq<QueryRow>, q: string, i: int) {
    0 <= i < |rows| && rows[i].query == q && forall j :: i < j < |rows| ==> rows[j].query != q
  }

  /** The row a map keyed by query ends up holding for `q` when filled from `rows` in order: the last row
      for `q`, or the zero row when `q` does not occur. */
  function LastWith(rows: seq<QueryRow>, q: string): (r: QueryRow)
    ensures (forall i :: 0 <= i < |rows| ==> rows[i].query != q) ==> r == ZeroRow
    ensures forall i :: IsLast(rows, q, i) ==> r == rows[i]
  {
    if rows == [] then ZeroRow
    else
      var n := |rows| - 1;
      if rows[n].query == q then rows[n]
      else
        assert forall i :: IsLast(rows, q, i) ==> IsLast(rows[..n], q, i);
        LastWith(rows[..n], q)
  }

  /** `currentMap[row.Query] = row` over every row, in order. */
  function Index(rows: seq<QueryRow>): (m: map<string, QueryRow>)
    ensures m.Keys == KeysOf(rows)
  {
    if rows == [] then map[] else Index(rows[..|rows| - 1])[rows[|rows| - 1].query := rows[|rows| - 1]]
  }

  /** A map lookup, with Go's zero value for a missing key. */
  function Lookup(m: map<string, QueryRow>, q: string): QueryRow {
    if q in m then m[q] else ZeroRow
  }

  /** Filling the map in order makes the last row for each query win. */
  lemma {:induction false} IndexIsLastWith(rows: seq<QueryRow>, q: string)
    ensures Lookup(Index(rows), q) == LastWith(rows, q)
  {
    if rows != [] {
      IndexIsLastWith(rows[..|rows| - 1], q);
    }
  }

  /** Fills a map from the rows, one after the other. */
  method IndexRows(rows: seq<QueryRow>) returns (m: map<string, QueryRow>)
    ensures m == Index(rows)
  {
    m := map[];
    for i := 0 to |rows|
      invariant m == Index(rows[..i])
    {
      assert rows[..i + 1][..i] == rows[..i];
      m := m[rows[i].query := rows[i]];
    }
    assert rows[..|rows|] == rows;
  }

  /** The queries of either period. */
  function Union(current: seq<QueryRow>, previous: seq<QueryRow>): set<string> {
    KeysOf(current) + KeysOf(previous)
  }

  /** The change from `prev` to `curr` in percent of `prev`, and 0 when `prev` is not positive. */
  function Percent(curr: real, prev: real): (p: real)
    ensures prev > 0.0 ==> p * prev == (curr - prev) * 100.0
    ensures prev <= 0.0 ==> p == 0.0
  {
    if prev > 0.0 then ((curr - prev) / prev) * 100.0 else 0.0
  }

  /** The comparison row of query `q` from its rows `curr` and `prev` in the two periods. */
  function RowOf(q: string, curr: QueryRow, prev: QueryRow): ComparisonRow {
    ComparisonRow(
      q,
      curr.clicks, prev.clicks, curr.clicks - prev.clicks, Percent(curr.clicks, prev.clicks),
      curr.impressions, prev.impressions, curr.impressions - prev.impressions,
      Percent(curr.impressions, prev.impressions),
      curr.position, prev.position, curr.position - prev.position)
  }

  /** The comparison row of query `q`: its last row in each period (zero when absent) and the changes. */
  function ComparisonFor(q: string, current: seq<QueryRow>, previous: seq<QueryRow>): (r: ComparisonRow)
    ensures r.query == q
  {
    RowOf(q, LastWith(current, q), LastWith(previous, q))
  }

  /** The row `buildComparison` builds for a query: metrics and deltas first, then each percentage when
      the previous value is positive. */
  method MakeRow(query: string, curr: QueryRow, prev: QueryRow) returns (row: ComparisonRow)
    ensures row == RowOf(query, curr, prev)
  {
    row := ComparisonRow(
      query,
      curr.clicks, prev.clicks, curr.clicks - prev.clicks, 0.0,
      curr.impressions, prev.impressions, curr.impressions - prev.impressions, 0.0,
      curr.position, prev.position, curr.position - prev.position);
    if prev.clicks > 0.0 {
      row := row.(clicksPercent := ((curr.clicks - prev.clicks) / prev.clicks) * 100.0);
    }
    if prev.impressions > 0.0 {
      row := row.(impressionsPercent := ((curr.impressions - prev.impressions) / prev.impressions) * 100.0);
    }
  }

  /** Each delta is current minus previous, and a percentage is the change relative to a positive previous
      value and 0 otherwise. */
  lemma RowOfChanges(q: string, curr: QueryRow, prev: QueryRow)
    ensures var r := RowOf(q, curr, prev);
            r.query == q && r.currentClicks == curr.clicks && r.previousClicks == prev.clicks &&
            r.currentImpressions == curr.impressions && r.previousImpressions == prev.impressions &&
            r.currentPosition == curr.position && r.previousPosition == prev.position &&
            r.clicksDelta == r.currentClicks - r.previousClicks &&
            r.impressionsDelta == r.currentImpressions - r.previousImpressions &&
            r.positionDelta == r.currentPosition - r.previousPosition &&
            (r.previousClicks > 0.0 ==> r.clicksPercent * r.previousClicks == r.clicksDelta * 100.0) &&
            (r.previousClicks <= 0.0 ==> r.clicksPercent == 0.0) &&
            (r.previousImpressions > 0.0 ==> r.impressionsPercent * r.previousImpressions == r.impressionsDelta * 100.0) &&
            (r.previousImpressions <= 0.0 ==> r.impressionsPercent == 0.0)
  {
  }

  /** A query missing from a period has zero metrics there, and then no percentage. */
  lemma ComparisonForMissing(q: string, current: seq<QueryRow>, previous: seq<QueryRow>)
    ensures var r := ComparisonFor(q, current, previous);
            q !in KeysOf(previous) ==>
              r.previousClicks == 0.0 && r.previousImpressions == 0.0 && r.previousPosition == 0.0 &&
              r.clicksPercent == 0.0 && r.impressionsPercent == 0.0
    ensures var r := ComparisonFor(q, current, previous);
            q !in KeysOf(current) ==> r.currentClicks == 0.0 && r.currentImpressions == 0.0 && r.currentPosition == 0.0
  {
    KeysOfMembers(current, q);
    KeysOfMembers(previous, q);
  }

  /** `rows` holds, once each and in some order, the comparison row of every query in `qs`, and nothing else. */
  ghost predicate CountsExactly(rows: seq<ComparisonRow>, qs: set<string>, current: seq<QueryRow>, previous: seq<QueryRow>) {
    forall x :: multiset(rows)[x] == if x.query in qs && x == ComparisonFor(x.query, current, previous) then 1 else 0
  }

  /** `rows` is a result of `buildComparison` for the two periods. */
  ghost predicate IsComparison(rows: seq<ComparisonRow>, current: seq<QueryRow>, previous: seq<QueryRow>) {
    CountsExactly(rows, Union(current, previous), current, previous)
  }

  /** Appending the row of a query not yet covered covers it too. */
  lemma AddRow(rows: seq<ComparisonRow>, qs: set<string>, q: string, current: seq<QueryRow>, previous: seq<QueryRow>)
    requires q !in qs && CountsExactly(rows, qs, current, previous)
    ensures CountsExactly(rows + [ComparisonFor(q, current, previous)], qs + {q}, current, previous)
  {
    var row := ComparisonFor(q, current, previous);
    forall x
      ensures multiset(rows + [row])[x] == if x.query in qs + {q} && x == ComparisonFor(x.query, current, previous) then 1 else 0
    {
      assert multiset(rows + [row]) == multiset(rows) + multiset{row};
    }
  }

  /** One step of `buildComparison`: the row built from the two maps is the query's comparison row. */
  lemma AddLookedUpRow(rows: seq<ComparisonRow>, queries: set<string>, remaining: set<string>, query: string,
                       current: seq<QueryRow>, previous: seq<QueryRow>)
    requires query in remaining && remaining <= queries
    requires CountsExactly(rows, queries - remaining, current, previous)
    ensures var row := RowOf(query, Lookup(Index(current), query), Lookup(Index(previous), query));
            CountsExactly(rows + [row], queries - (remaining - {query}), current, previous)
  {
    IndexIsLastWith(current, query);
    IndexIsLastWith(previous, query);
    AddRow(rows, queries - remaining, query, current, previous);
    assert (queries - remaining) + {query} == queries - (remaining - {query});
  }

  /** What a comparison holds: each row is the comparison row of its query, which occurs in either period;
      every query of either period has its row; and no query has two rows. */
  lemma IsComparisonMeans(rows: seq<ComparisonRow>, current: seq<QueryRow>, previous: seq<QueryRow>)
    requires IsComparison(rows, current, previous)
    ensures forall i :: 0 <= i < |rows| ==>
              rows[i].query in Union(current, previous) && rows[i] == ComparisonFor(rows[i].query, current, previous)
    ensures forall q :: q in Union(current, previous) ==> ComparisonFor(q, current, previous) in rows
    ensures forall i, j :: 0 <= i < j < |rows| ==> rows[i].query != rows[j].query
  {
    forall i | 0 <= i < |rows|
      ensures rows[i].query in Union(current, previous) && rows[i] == ComparisonFor(rows[i].query, current, previous)
    {
      assert rows[i] in multiset(rows);
    }
    forall q | q in Union(current, previous) ensures ComparisonFor(q, current, previous) in rows {
      assert multiset(rows)[ComparisonFor(q, current, previous)] == 1;
    }
    forall i, j | 0 <= i < j < |rows| ensures rows[i].query != rows[j].query {
      if rows[i].query == rows[j].query {
        Sorting.TwiceCounted(rows, i, j);
      }
    }
  }

  /** The set of keys of two maps, gathered key by key in whatever order the maps are walked. */
  method KeyUnion(a: map<string, QueryRow>, b: map<string, QueryRow>) returns (qs: set<string>)
    ensures qs == a.Keys + b.Keys
  {
    qs := {};
    var todo := a.Keys;
    while todo != {}
      invariant todo <= a.Keys && qs == a.Keys - todo
      decreases todo
    {
      var q :| q in todo;
      qs := qs + {q};
      todo := todo - {q};
    }
    todo := b.Keys;
    while todo != {}
      invariant todo <= b.Keys && qs == a.Keys + (b.Keys - todo)
      decreases todo
    {
      var q :| q in todo;
      qs := qs + {q};
      todo := todo - {q};
    }
  }

  /** The row loop of `buildComparison`: a row per query of `queries`, in the order the set is walked. */
  method RowsFor(queries: set<string>, currentMap: map<string, QueryRow>, prevMap: map<string, QueryRow>,
                 ghost current: seq<QueryRow>, ghost previous: seq<QueryRow>)
    returns (rows: seq<ComparisonRow>)
    requires currentMap == Index(current) && prevMap == Index(previous)
    ensures CountsExactly(rows, queries, current, previous)
    ensures |rows| == |queries|
  {
    rows := [];
    var remaining := queries;
    while remaining != {}
      invariant remaining <= queries
      invariant CountsExactly(rows, queries - remaining, current, previous)
      invariant |rows| + |remaining| == |queries|
      decreases remaining
    {
      var query :| query in remaining;
      var row := MakeRow(query, Lookup(currentMap, query), Lookup(prevMap, query));
      AddLookedUpRow(rows, queries, remaining, query, current, previous);
      rows := rows + [row];
      remaining := remaining - {query};
    }
  }

  /** `buildComparison`: one row per query of either period, in map order. */
  method BuildComparison(current: seq<QueryRow>, previous: seq<QueryRow>) returns (rows: seq<ComparisonRow>)
    ensures IsComparison(rows, current, previous)
    ensures |rows| == |Union(current, previous)|
  {
    var currentMap := IndexRows(current);
    var prevMap := IndexRows(previous);
    var queries := KeyUnion(currentMap, prevMap);
    rows := RowsFor(queries, currentMap, prevMap, current, previous);
  }

  /** The rank `sortComparison` gives a row: impressions descending, position ascending, and clicks
      descending for any other sort key. */
  function ComparisonKey(sortBy: string): ComparisonRow -> real {
    if sortBy == "impressions" then (r: ComparisonRow) => -r.currentImpressions
    else if sortBy == "position" then (r: ComparisonRow) => r.currentPosition
    else (r: ComparisonRow) => -r.currentClicks
  }

  /** The "less" function `sortComparison` hands to `sort.Slice`. */
  predicate RanksBefore(sortBy: string, x: ComparisonRow, y: ComparisonRow) {
    if sortBy == "impressions" then x.currentImpressions > y.currentImpressions
    else if sortBy == "position" then x.currentPosition < y.currentPosition
    else x.currentClicks > y.currentClicks
  }

  /** Ordered by the rank exactly when no row ranks before an earlier one by the source's "less". */
  lemma SortedByKeyIffNoInversion(sortBy: string, s: seq<ComparisonRow>)
    ensures Sorting.SortedBy(s, ComparisonKey(sortBy)) <==>
            forall i, j :: 0 <= i < j < |s| ==> !RanksBefore(sortBy, s[j], s[i])
  {
  }

  /** `sortComparison`: rearranges the rows by the chosen key. */
  method SortComparison(rows: array<ComparisonRow>, sortBy: string)
    modifies rows
    ensures Sorting.SortedBy(rows[..], ComparisonKey(sortBy))
    ensures multiset(rows[..]) == multiset(old(rows[..]))
  {
    Sorting.SortBy(rows, ComparisonKey(sortBy));
  }

  /** The request for one period: queries only, twice the limit in rows. The service is then asked for
      `2 * limit` rows, and a limit of 0 falls back to the default row limit. */
  function CompareRequest(startDate: int, endDate: int, limit: int): (r: SearchAnalytics.QueryRequest)
    ensures var a := SearchAnalytics.ApiRequestFor(r);
            a.rowLimit == (if limit == 0 then SearchAnalytics.DefaultRowLimit else 2 * limit) &&
            a.dimensions == ["query"] && a.filterGroups == [] &&
            a.startDate == startDate && a.endDate == endDate && a.startRow == 0
  {
    SearchAnalytics.QueryRequest(startDate, endDate, ["query"], limit * 2, 0, [])
  }

  /** The part of a compare run after both periods are fetched: build, sort, and cut to `limit`. The rows
      are a prefix of `all`, which is a comparison of the two periods in sorted order. A negative limit
      makes the cut panic in the source and is reported as no result. */
  method CompareRows(current: seq<QueryRow>, previous: seq<QueryRow>, sortBy: string, limit: int)
    returns (r: Option<seq<ComparisonRow>>, ghost all: seq<ComparisonRow>)
    ensures r.None? <==> limit < 0
    ensures IsComparison(all, current, previous) && |all| == |Union(current, previous)|
    ensures Sorting.SortedBy(all, ComparisonKey(sortBy))
    ensures r.Some? ==> |r.value| == (if |all| <= limit then |all| else limit) && r.value == all[..|r.value|]
  {
    var rows := BuildComparison(current, previous);
    var a := new ComparisonRow[|rows|](i requires 0 <= i < |rows| => rows[i]);
    assert a[..] == rows;
    SortComparison(a, sortBy);
    all := a[..];
    r := Sorting.TruncateToLimit(a[..], limit);
  }
}
