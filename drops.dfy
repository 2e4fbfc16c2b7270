/** The drops command: queries whose average position got worse from the previous period to the current
    one, ordered by the size of the drop and cut to a limit, and the two date windows it compares. */
module Drops {
  import opened Common
  import opened Csv
  import SearchAnalytics
  import Sorting
  import Compare

  type QueryRow = SearchAnalytics.QueryRow

  /** The decision for one query of the previous period, from its previous row and its current row if
      it has one. */
  function DropOf(query: string, prev: QueryRow, curr: Option<QueryRow>, threshold: real, minClicks: real)
    : (d: Option<DropsRow>)
    ensures d.Some? ==> d.value.query == query && d.value.previousPosition == prev.position
    ensures d.Some? ==> d.value.positionDrop == d.value.currentPosition - d.value.previousPosition
    ensures d.Some? && curr.Some? ==> d.value.positionDrop >= threshold
  {
    if minClicks > 0.0 && prev.clicks < minClicks then None
    else if curr.None? then
      if prev.position <= 20.0 && prev.impressions >= 100.0 then
        Some(DropsRow(query, 100.0, prev.position, 100.0 - prev.position, 0.0, prev.clicks, 0.0))
      else None
    else
      var drop := curr.value.position - prev.position;
      if drop >= threshold then
        Some(DropsRow(query, curr.value.position, prev.position, drop,
                      curr.value.clicks, prev.clicks, curr.value.impressions))
      else None
  }

  /** The drop rules: too few previous clicks (when a minimum is set) rules a query out; a query that
      vanished is a drop to position 100 exactly when it ranked in the top 20 with 100 impressions or more,
      whatever the threshold; a query still there is a drop exactly when its position grew by at least the
      threshold, and the drop is that growth. */
  lemma DropOfRules(query: string, prev: QueryRow, curr: Option<QueryRow>, threshold: real, minClicks: real)
    ensures var d := DropOf(query, prev, curr, threshold, minClicks);
            (minClicks > 0.0 && prev.clicks < minClicks ==> d.None?) &&
            (d.Some? ==> d.value.query == query && d.value.previousPosition == prev.position &&
                         d.value.previousClicks == prev.clicks &&
                         d.value.positionDrop == d.value.currentPosition - d.value.previousPosition)
    ensures var d := DropOf(query, prev, curr, threshold, minClicks);
            !(minClicks > 0.0 && prev.clicks < minClicks) && curr.None? ==>
              (d.Some? <==> prev.position <= 20.0 && prev.impressions >= 100.0) &&
              (d.Some? ==> d.value.currentPosition == 100.0 && d.value.positionDrop == 100.0 - prev.position &&
                           d.value.currentClicks == 0.0 && d.value.currentImpressions == 0.0)
    ensures var d := DropOf(query, prev, curr, threshold, minClicks);
            !(minClicks > 0.0 && prev.clicks < minClicks) && curr.Some? ==>
              (d.Some? <==> curr.value.position - prev.position >= threshold) &&
              (d.Some? ==> d.value.currentPosition == curr.value.position &&
                           d.value.currentClicks == curr.value.clicks &&
                           d.value.currentImpressions == curr.value.impressions)
  {
  }

  /** The drop of query `q`, judged on its last row in each period. */
  function DropFor(q: string, current: seq<QueryRow>, previous: seq<QueryRow>, threshold: real, minClicks: real)
    : Option<DropsRow>
  {
    var curr := if q in Compare.KeysOf(current) then Some(Compare.LastWith(current, q)) else None;
    DropOf(q, Compare.LastWith(previous, q), curr, threshold, minClicks)
  }

  /** `rows` holds, once each and in some order, the drop of every query in `qs` that has one, and
      nothing else. */
  ghost predicate CountsDrops(rows: seq<DropsRow>, qs: set<string>, current: seq<QueryRow>, previous: seq<QueryRow>,
                              threshold: real, minClicks: real) {
    forall x :: multiset(rows)[x] ==
      if x.query in qs && DropFor(x.query, current, previous, threshold, minClicks) == Some(x) then 1 else 0
  }

  /** `rows` is a result of `findDrops` for the two periods. */
  ghost predicate IsDrops(rows: seq<DropsRow>, current: seq<QueryRow>, previous: seq<QueryRow>,
                          threshold: real, minClicks: real) {
    CountsDrops(rows, Compare.KeysOf(previous), current, previous, threshold, minClicks)
  }

  /** What a drops result holds: each drop is the drop of its query, which occurs in the previous period;
      every query of the previous period that has a drop is there; and no query is there twice. */
  lemma IsDropsMeans(rows: seq<DropsRow>, current: seq<QueryRow>, previous: seq<QueryRow>, threshold: real, minClicks: real)
    requires IsDrops(rows, current, previous, threshold, minClicks)
    ensures forall i :: 0 <= i < |rows| ==>
              rows[i].query in Compare.KeysOf(previous) &&
              DropFor(rows[i].query, current, previous, threshold, minClicks) == Some(rows[i])
    ensures forall q :: q in Compare.KeysOf(previous) && DropFor(q, current, previous, threshold, minClicks).Some? ==>
              DropFor(q, current, previous, threshold, minClicks).value in rows
    ensures forall i, j :: 0 <= i < j < |rows| ==> rows[i].query != rows[j].query
  {
    forall i | 0 <= i < |rows|
      ensures rows[i].query in Compare.KeysOf(previous) &&
              DropFor(rows[i].query, current, previous, threshold, minClicks) == Some(rows[i])
    {
      assert rows[i] in multiset(rows);
    }
    forall q | q in Compare.KeysOf(previous) && DropFor(q, current, previous, threshold, minClicks).Some?
      ensures DropFor(q, current, previous, threshold, minClicks).value in rows
    {
      var d := DropFor(q, current, previous, threshold, minClicks).value;
      assert d.query == q;
      assert multiset(rows)[d] == 1;
    }
    forall i, j | 0 <= i < j < |rows| ensures rows[i].query != rows[j].query {
      if rows[i].query == rows[j].query {
        Sorting.TwiceCounted(rows, i, j);
      }
    }
  }

  /** The loop body of `findDrops` for one entry of the previous-period map, with its `continue`s. */
  method JudgeQuery(query: string, prev: QueryRow, currentMap: map<string, QueryRow>, threshold: real, minClicks: real)
    returns (d: Option<DropsRow>)
    ensures d == DropOf(query, prev, if query in currentMap then Some(currentMap[query]) else None, threshold, minClicks)
  {
    if minClicks > 0.0 && prev.clicks < minClicks {
      return None;
    }
    if query !in currentMap {
      if prev.position <= 20.0 && prev.impressions >= 100.0 {
        return Some(DropsRow(query, 100.0, prev.position, 100.0 - prev.position, 0.0, prev.clicks, 0.0));
      }
      return None;
    }
    var curr := currentMap[query];
    var drop := curr.position - prev.position;
    if drop >= threshold {
      return Some(DropsRow(query, curr.position, prev.position, drop, curr.clicks, prev.clicks, curr.impressions));
    }
    return None;
  }

  /** The decision `findDrops` takes on the two maps is the drop of the query. */
  lemma JudgedIsDropFor(query: string, current: seq<QueryRow>, previous: seq<QueryRow>, threshold: real,
                        minClicks: real, d: Option<DropsRow>)
    requires var currentMap := Compare.Index(current);
             d == DropOf(query, Compare.Lookup(Compare.Index(previous), query),
                         if query in currentMap then Some(currentMap[query]) else None, threshold, minClicks)
    ensures d == DropFor(query, current, previous, threshold, minClicks)
  {
    Compare.IndexIsLastWith(current, query);
    Compare.IndexIsLastWith(previous, query);
  }

  /** Covering one more query adds its drop, if it has one. */
  lemma AddDrop(rows: seq<DropsRow>, done: set<string>, query: string,
                current: seq<QueryRow>, previous: seq<QueryRow>, threshold: real, minClicks: real)
    requires query !in done
    requires CountsDrops(rows, done, current, previous, threshold, minClicks)
    ensures var d := DropFor(query, current, previous, threshold, minClicks);
            CountsDrops(rows + (if d.Some? then [d.value] else []), done + {query}, current, previous, threshold, minClicks)
  {
    var d := DropFor(query, current, previous, threshold, minClicks);
    var added := if d.Some? then [d.value] else [];
    forall x
      ensures multiset(rows + added)[x] ==
              if x.query in done + {query} && DropFor(x.query, current, previous, threshold, minClicks) == Some(x) then 1 else 0
    {
      assert multiset(rows + added) == multiset(rows) + multiset(added);
    }
  }

  /** One step of `findDrops`: the judged query joins the covered ones. */
  lemma AddJudged(rows: seq<DropsRow>, qs: set<string>, remaining: set<string>, query: string,
                  current: seq<QueryRow>, previous: seq<QueryRow>, threshold: real, minClicks: real,
                  d: Option<DropsRow>)
    requires query in remaining && remaining <= qs
    requires CountsDrops(rows, qs - remaining, current, previous, threshold, minClicks)
    requires var currentMap := Compare.Index(current);
             d == DropOf(query, Compare.Lookup(Compare.Index(previous), query),
                         if query in currentMap then Some(currentMap[query]) else None, threshold, minClicks)
    ensures CountsDrops(rows + (if d.Some? then [d.value] else []), qs - (remaining - {query}),
                        current, previous, threshold, minClicks)
  {
    JudgedIsDropFor(query, current, previous, threshold, minClicks, d);
    AddDrop(rows, qs - remaining, query, current, previous, threshold, minClicks);
    assert (qs - remaining) + {query} == qs - (remaining - {query});
  }

  /** The map loop of `findDrops`, walking the previous-period map in an unspecified order. */
  method JudgeAll(currentMap: map<string, QueryRow>, prevMap: map<string, QueryRow>, threshold: real, minClicks: real,
                  ghost current: seq<QueryRow>, ghost previous: seq<QueryRow>)
    returns (drops: seq<DropsRow>)
    requires currentMap == Compare.Index(current) && prevMap == Compare.Index(previous)
    ensures IsDrops(drops, current, previous, threshold, minClicks)
  {
    drops := [];
    var remaining := prevMap.Keys;
    while remaining != {}
      invariant remaining <= prevMap.Keys
      invariant CountsDrops(drops, prevMap.Keys - remaining, current, previous, threshold, minClicks)
      decreases remaining
    {
      var query :| query in remaining;
      var d := JudgeQuery(query, prevMap[query], currentMap, threshold, minClicks);
      AddJudged(drops, prevMap.Keys, remaining, query, current, previous, threshold, minClicks, d);
      if d.Some? {
        drops := drops + [d.value];
      } else {
        assert drops + [] == drops;
      }
      remaining := remaining - {query};
    }
  }

  /** `findDrops`: the drops among the queries of the previous period, in map order. */
  method FindDrops(current: seq<QueryRow>, previous: seq<QueryRow>, threshold: real, minClicks: real)
    returns (drops: seq<DropsRow>)
    ensures IsDrops(drops, current, previous, threshold, minClicks)
  {
    var currentMap := Compare.IndexRows(current);
    var prevMap := Compare.IndexRows(previous);
    drops := JudgeAll(currentMap, prevMap, threshold, minClicks, current, previous);
  }

  /** The rank of a drop: the bigger the drop, the earlier. */
  function DropKey(d: DropsRow): real {
    -d.positionDrop
  }

  /** The part of a drops run after both periods are fetched: find, sort by drop size descending, and cut
      to `limit`. The rows are a prefix of `all`, every drop of the two periods in sorted order. A negative
      limit makes the cut panic in the source and is reported as no result. */
  method DropsRows(current: seq<QueryRow>, previous: seq<QueryRow>, threshold: real, minClicks: real, limit: int)
    returns (r: Option<seq<DropsRow>>, ghost all: seq<DropsRow>)
    ensures r.None? <==> limit < 0
    ensures IsDrops(all, current, previous, threshold, minClicks)
    ensures forall i, j :: 0 <= i < j < |all| ==> all[i].positionDrop >= all[j].positionDrop
    ensures r.Some? ==> |r.value| == (if |all| <= limit then |all| else limit) && r.value == all[..|r.value|]
  {
    var drops := FindDrops(current, previous, threshold, minClicks);
    var a := new DropsRow[|drops|](i requires 0 <= i < |drops| => drops[i]);
    assert a[..] == drops;
    Sorting.SortBy(a, DropKey);
    all := a[..];
    assert forall i, j :: 0 <= i < j < |all| ==> DropKey(all[i]) <= DropKey(all[j]);
    r := Sorting.TruncateToLimit(a[..], limit);
  }

  // ---------------------------------------------------------------------------------------------
  // Date windows

  /** The windows the command compares, as written: the week period, or for more than 7 days the ranges
      of `days` and of `2 * days` days ending at the same day. */
  function DropsPeriodAsWritten(days: int, today: int): (p: SearchAnalytics.ComparisonPeriod)
    ensures p.currentEnd == today - SearchAnalytics.DataDelay
    ensures days > 7 ==> p.previousEnd == p.currentEnd &&
                         p.currentEnd - p.currentStart == days && p.previousEnd - p.previousStart == 2 * days
    ensures days <= 7 ==> p == SearchAnalytics.GetComparisonPeriod("week", today)
  {
    if days > 7 then
      var current := SearchAnalytics.DateRangeForDaysAsWritten(days, today);
      var previous := SearchAnalytics.DateRangeForDaysAsWritten(days * 2, today);
      SearchAnalytics.ComparisonPeriod(current.0, current.1, previous.0, previous.1)
    else SearchAnalytics.GetComparisonPeriod("week", today)
  }

  /** For more than 7 days the "previous" window ends on the last day of the current one and starts before
      it, so it holds every day of the current window: a query's previous position already includes the
      days it is compared against. */
  lemma DropsPeriodAsWrittenOverlaps(days: int, today: int)
    requires days > 7
    ensures var p := DropsPeriodAsWritten(days, today);
            p.previousStart < p.currentStart && p.previousEnd == p.currentEnd
  {
  }

  /** The windows as intended: for more than 7 days, the last `days` days of data and the `days` days just
      before them; the week period otherwise. */
  function DropsPeriodIntended(days: int, today: int): (p: SearchAnalytics.ComparisonPeriod)
    ensures p.currentEnd == today - SearchAnalytics.DataDelay
    ensures p.previousEnd == p.currentStart - 1
    ensures days <= 7 ==> p == SearchAnalytics.GetComparisonPeriod("week", today)
  {
    if days > 7 then
      var current := SearchAnalytics.DateRangeForDaysIntended(days, today);
      SearchAnalytics.ComparisonPeriod(current.0, current.1, current.0 - days, current.0 - 1)
    else SearchAnalytics.GetComparisonPeriod("week", today)
  }

  /** The current window ends with the last day of data and the previous one ends the day before the current
      one starts; the two are adjacent, disjoint and equally long: `days` days for more than 7, a week
      otherwise. */
  lemma DropsPeriodAdjacent(days: int, today: int)
    ensures var p := DropsPeriodIntended(days, today);
            var n := if days > 7 then days else 7;
            p.currentEnd == today - SearchAnalytics.DataDelay && p.previousEnd == p.currentStart - 1 &&
            p.currentEnd - p.currentStart + 1 == n && p.previousEnd - p.previousStart + 1 == n
  {
  }
}
