# gsc-cli core in Dafny

This is a model of the sequential logic of `gsc`, a command-line client for the Google Search Console
Search Analytics API. It covers:

- **Request shaping** (`SearchAnalytics`): the defaults of a query request and its single "and" filter group.
- **Response mapping** (`SearchAnalytics`): how each response row's keys land in named dimension fields.
- **Pagination** (`SearchAnalytics`): fetching batches of 25000 rows until the first short batch.
- **Date windows** (`SearchAnalytics`): the windows used to compare periods.
- **Filter parsing** (`Queries`): the `--filter dimension:expression` option, with glob-to-regex conversion.
- **Page URLs** (`Pages`): how page URLs are shortened for display.
- **Cell formatting** (`Table`): deltas, counts and truncated strings.
- **Period diffing** (`Compare`, `Drops`): one row per query of either period, the drop rules for queries that lost ranking, and the sort and limit the commands apply.
- **Token lifecycle** (`Keyring`, `OAuth`): a single keychain slot, lazy refresh of an expired token, the read-only token summary, the login callback's classification, and the project id taken from a client secret file.
- **CSV export** (`Csv`): header and record shaping for the three exports, and stopping at the first failed write.

Modelling conventions:

- Metrics are `real`.
- A formatted number is the symbolic `Text.Fixed(sign, value, digits, suffix)`. It stands for what `%.Nf` and `strconv.FormatFloat` print; the digits themselves are not modelled.
- Dates are integer day numbers, and `today` is a parameter.
- Token expiry and `now` are integer timestamps.
- Strings have one character per byte.
- External effects are parameters:
  - the Search Console service is a function from request to rows or error;
  - token refresh is a function from token to token or error;
  - URL parsing is its outcome;
  - keychain, file-creation and write failures are injected faults.
- Map iteration order is unspecified in Go. The model walks maps with a nondeterministic choice and states results as multiset facts.

Module layout:

| Module | Models |
|---|---|
| `Strings` | the few `strings` functions used |
| `Common` | option, result and text types |
| `Sorting` | `sort.Slice` by a numeric key, plus the `rows[:limit]` cut |
| `SearchAnalytics` | `internal/api/searchanalytics.go` |
| `Queries` | `internal/cmd/queries.go` |
| `Pages` | `internal/cmd/pages.go` |
| `Table` | `internal/output/table.go` |
| `Compare` | `internal/cmd/compare.go` |
| `Drops` | `internal/cmd/drops.go` |
| `Keyring` | `internal/auth/keyring.go` |
| `OAuth` | `internal/auth/oauth.go` |
| `Csv` | `internal/output/csv.go` |

## Model

| member | source | states |
|---|---|---|
| Strings.ToLower | internal/cmd/queries.go:167 | the result has the input's length and each character lower-cased (ASCII) |
| Strings.IndexOf | internal/cmd/queries.go:162 | the result is -1 exactly when the pattern never occurs; otherwise it is an occurrence with none before it |
| Strings.IndexOfIsFirst | internal/cmd/pages.go:184 | the first occurrence is the index reported |
| Strings.ReplaceAll | internal/cmd/queries.go:183 | a string without the replaced character is unchanged; a non-empty replacement never shortens the string |
| Queries.ParseFilter | internal/cmd/queries.go:161-191 | input without ':' is exactly the invalid-format error; a success names a valid dimension and uses operator equals or includingRegex |
| Queries.ParseFilterSplitsAtFirstColon | internal/cmd/queries.go:162-190 | for `d:e` with no colon in `d`: the dimension is `d` lower-cased and must be query, page, country or device; `e` with a star becomes includingRegex of the converted glob; any other `e`, empty included, is kept unchanged with equals; later colons stay in the expression |
| Queries.ParseFilterIgnoresCase | internal/cmd/queries.go:167-176 | any spelling that lower-cases to a valid dimension is accepted and reported lower-cased; a spelling of `date` is refused with that dimension |
| Queries.GlobToRegex | internal/cmd/queries.go:183 | an expression without `*` is kept unchanged; the conversion never shortens an expression |
| Queries.GlobRoundTrip | internal/cmd/queries.go:180-184 | reading every `.*` of the converted glob back as `*` restores the glob: only the stars change |
| Queries.GlobToRegexStarsFollowDots | internal/cmd/queries.go:183 | every `*` of the converted expression is preceded by `.` |
| Queries.GlobToRegexNoLeadingStar | internal/cmd/queries.go:183 | a converted expression never starts with `*` |
| Pages.FormatPageURL | internal/cmd/pages.go:158-180 | an unparsable URL is `TruncateString(url, 60)`; a parsed one shows its path and query, unchanged up to 60 characters, otherwise its first 57 followed by "..." (exactly 60); never more than 60 |
| Pages.PathAndQueryParts | internal/cmd/pages.go:164-173 | the shown path starts with the parsed path, or "/" when that is empty; `?` and the raw query follow exactly when the raw query is non-empty |
| Pages.FormatPageURLIsTruncation | internal/cmd/pages.go:175-180 | shortening a parsed URL is `TruncateString` of its path and query at 60 |
| Pages.StripDomain | internal/cmd/pages.go:183-192 | without "://" the URL is unchanged; with it, the result begins with "/" and is "/" or a suffix of the URL |
| Pages.StripDomainKeepsPath | internal/cmd/pages.go:183-192 | for `scheme://host path` in which "://" first occurs after the scheme and the host has no slash, the result is the path, or "/" when it is empty |
| Table.FormatNumber | internal/output/table.go:81-89 | suffix M iff n ≥ 1000000, K iff 1000 ≤ n < 1000000, none iff n < 1000; the value is n scaled accordingly, with one decimal for M and K and none otherwise |
| Table.FormatDelta | internal/output/table.go:102-126 | dim dash iff the delta is 0, whatever the direction; sign "+" iff delta > 0; green iff the change goes the good way (up when higher is better, down otherwise); red for every other non-zero delta; one decimal |
| Table.FormatPercentDelta | internal/output/table.go:129-152 | same zero and colour classification, with a "%" suffix |
| Table.PercentDeltaAgreesWithDelta | internal/output/table.go:102-152 | the percent formatter classifies every delta as the plain one, and differs only by the "%" suffix |
| Table.TruncateString | internal/output/table.go:155-160 | identity when the string fits; otherwise exactly `maxLen` long, the first `maxLen - 3` characters followed by "..."; never longer than `maxLen` or the input |
| SearchAnalytics.BuildApiRequest | internal/api/searchanalytics.go:51-83 | row limit 0 becomes 1000; empty dimensions become ["query"]; a non-empty filter list becomes exactly one "and" group holding all filters in order; an empty list gives no group; dates and start row are copied |
| SearchAnalytics.KeyFor | internal/api/searchanalytics.go:107-122 | the field named `name` takes the key at the last position naming it that has a key; it stays blank when no such position exists |
| SearchAnalytics.MapRow | internal/api/searchanalytics.go:99-122 | the row's key fields come from the request dimensions; the metrics are copied |
| SearchAnalytics.MapRows | internal/api/searchanalytics.go:98-125 | the mapped rows are the response rows, mapped one by one, in order |
| SearchAnalytics.RowsFromApi | internal/api/searchanalytics.go:98-125 | one result row per response row |
| SearchAnalytics.RowsFromApiAt | internal/api/searchanalytics.go:98-125 | result row i is response row i mapped |
| SearchAnalytics.Query | internal/api/searchanalytics.go:49-128 | the result is `QueryOutcome` of the request and the service |
| SearchAnalytics.QueryOutcomeShape | internal/api/searchanalytics.go:86-127 | the query fails iff the service does, with "query failed: " and its error; otherwise one row per response row in order, `totalRows` their number, the request's dates; keys are mapped with the request's own dimensions, so an empty list leaves keys blank |
| SearchAnalytics.PagesFrom | internal/api/searchanalytics.go:136-152 | the reference paging from batch k: a failure is always a wrapped service error ("query failed: ..."); a success starts with the rows of batch k |
| SearchAnalytics.PagesFromAnyEnd | internal/api/searchanalytics.go:136-152 | the pages do not depend on which batch ending the paging is named |
| SearchAnalytics.PagesFromStep | internal/api/searchanalytics.go:140-151 | batch k decides: an error ends with that error; a short batch ends with its rows; a full batch is followed by the next |
| SearchAnalytics.BatchStep | internal/api/searchanalytics.go:140-151 | one turn of the paging loop keeps the pages gathered so far consistent with the reference paging: an error or a short batch settles the result, and a full batch is never the last one and moves the loop to the next batch |
| SearchAnalytics.BatchCountCounts | internal/api/searchanalytics.go:140-151 | the paging from batch k consults at least one batch; every batch it consults except the last came back whole, and the last did not |
| SearchAnalytics.PrependPrepend | internal/api/searchanalytics.go:145 | appending batches one after another is appending their concatenation |
| SearchAnalytics.QueryAll | internal/api/searchanalytics.go:131-160 | the requests sent are the batch requests for start rows 0, 25000, 50000, … in order; every batch before the last came back whole, and the last did not; the result is the first batch error, or the in-order concatenation of all batches up to the first short one, with `totalRows` its length |
| SearchAnalytics.GetComparisonPeriod | internal/api/searchanalytics.go:187-222 | the current window ends 3 days before today; the previous one ends the day before it starts; both span 7 days for "week" and any unknown period, 30 days for "month" |
| SearchAnalytics.DefaultDateRange | internal/api/searchanalytics.go:163-168 | the 28 days ending 3 days before today |
| SearchAnalytics.DateRangeForDaysAsWritten | internal/api/searchanalytics.go:171-176 | the end is 3 days before today and the start is `days` before that |
| SearchAnalytics.DateRangeForDaysSpansOneExtraDay | internal/api/searchanalytics.go:163-176 | as written the range spans `days + 1` days, so 28 days differs from the 28-day default |
| SearchAnalytics.DateRangeForDaysIntended | internal/api/searchanalytics.go:171-176 | corrected: the `days` days ending 3 days before today |
| SearchAnalytics.DateRangeForDaysMatchesDefault | internal/api/searchanalytics.go:163-176 | corrected, 28 days is exactly the default range |
| Sorting.SortBy | internal/cmd/compare.go:208-223 | the array ends sorted by the key and is a permutation of the input |
| Sorting.MinIndex | internal/cmd/compare.go:211-221 | the position of a least key in the rest of the array |
| Sorting.Swap | internal/cmd/compare.go:211-221 | exchanges two elements; everything else is unchanged and the multiset is kept |
| Sorting.TruncateToLimit | internal/cmd/compare.go:88-90 | no result (Go panics) iff the limit is negative; otherwise min(limit, length) rows, a prefix of the input |
| Compare.KeysOfMembers | internal/cmd/compare.go:156-164 | a query is a key exactly when some row carries it |
| Compare.LastWith | internal/cmd/compare.go:157-159 | the last row for the query, or the zero row when the query does not occur |
| Compare.Index | internal/cmd/compare.go:156-164 | the map's keys are the rows' queries |
| Compare.IndexIsLastWith | internal/cmd/compare.go:156-179 | filling the map in order makes the last row win; a missing key yields the zero row |
| Compare.IndexRows | internal/cmd/compare.go:156-164 | the loop builds that map |
| Compare.Percent | internal/cmd/compare.go:195-200 | for a positive previous value: the change in percent of it; otherwise 0 |
| Compare.ComparisonFor | internal/cmd/compare.go:178-192 | the row carries its query |
| Compare.MakeRow | internal/cmd/compare.go:181-200 | the row built field by field, with percentages assigned afterwards, is `RowOf` |
| Compare.RowOfChanges | internal/cmd/compare.go:181-200 | current and previous metrics are copied; each delta is current minus previous; each percentage is relative to a positive previous value and 0 otherwise |
| Compare.ComparisonForMissing | internal/cmd/compare.go:178-179 | a query missing from a period has zero metrics there, and then no percentage |
| Compare.AddRow | internal/cmd/compare.go:177-203 | appending the row of a query not yet covered covers it exactly once |
| Compare.AddLookedUpRow | internal/cmd/compare.go:177-203 | the row built from the two maps is the query's comparison row |
| Compare.IsComparisonMeans | internal/cmd/compare.go:166-203 | each row is its query's comparison row and the query occurs in either period; each such query has its row; no query has two rows |
| Compare.KeyUnion | internal/cmd/compare.go:166-173 | the union of the two maps' keys |
| Compare.RowsFor | internal/cmd/compare.go:176-205 | exactly one comparison row per query of the set |
| Compare.BuildComparison | internal/cmd/compare.go:154-206 | one row per distinct query of either input, in some order, and no other row; the rows are as many as those queries |
| Compare.SortedByKeyIffNoInversion | internal/cmd/compare.go:208-223 | sorted by the rank iff no row beats an earlier row under the source's less function |
| Compare.SortComparison | internal/cmd/compare.go:208-223 | a permutation ordered by impressions descending for "impressions", position ascending for "position", and clicks descending otherwise |
| Compare.CompareRequest | internal/cmd/compare.go:60-76 | each period asks the service for `2 * limit` rows, 1000 when the limit is 0, of the query dimension only, with no filter and from row 0 |
| Compare.CompareRows | internal/cmd/compare.go:81-90 | the rows are a prefix, of length min(limit, number of queries), of a sorted ordering of the full comparison; a negative limit gives no result |
| Drops.DropOf | internal/cmd/drops.go:170-207 | a drop carries its query and previous position, its size is the current minus the previous position, and a query still present drops by at least the threshold |
| Drops.DropOfRules | internal/cmd/drops.go:170-207 | with minClicks > 0, fewer previous clicks give no drop; a vanished query is a drop to position 100 iff it ranked ≤ 20 with ≥ 100 impressions, whatever the threshold, with zero current clicks and impressions and drop 100 − position; a remaining query is a drop iff its position grew by at least the threshold, and the drop is that growth |
| Drops.JudgeQuery | internal/cmd/drops.go:170-207 | the loop body, with its `continue`s, decides as `DropOf` |
| Drops.JudgedIsDropFor | internal/cmd/drops.go:157-176 | the decision taken on the maps judges the query's last row in each period |
| Drops.AddDrop | internal/cmd/drops.go:170-208 | covering one more query adds its drop, if it has one |
| Drops.AddJudged | internal/cmd/drops.go:170-208 | one loop step keeps the counting invariant |
| Drops.IsDropsMeans | internal/cmd/drops.go:167-210 | each drop is its query's drop and the query occurs in the previous period; every such query with a drop is present; no query appears twice |
| Drops.JudgeAll | internal/cmd/drops.go:167-210 | walking the previous map in any order yields exactly the drops |
| Drops.FindDrops | internal/cmd/drops.go:155-211 | the result holds exactly the drops of the previous period's queries, once each |
| Drops.DropsRows | internal/cmd/drops.go:81-91 | drops are ordered by size descending and cut to min(limit, count) as a prefix; a negative limit gives no result |
| Drops.DropsPeriodAsWritten | internal/cmd/drops.go:45-56 | as written: the current window ends 3 days before today; for more than 7 days both windows end on that day, spanning `days + 1` and `2 * days + 1` days; otherwise the week period |
| Drops.DropsPeriodAsWrittenOverlaps | internal/cmd/drops.go:45-56 | for more than 7 days, the previous window as written ends on the current window's last day and starts earlier |
| Drops.DropsPeriodIntended | internal/cmd/drops.go:45-56 | corrected: the current window ends 3 days before today and the previous one ends the day before the current one starts; the week period for up to 7 days |
| Drops.DropsPeriodAdjacent | internal/cmd/drops.go:45-56 | corrected: the current window ends with the last day of data, the previous one ends the day before the current one starts; the two are adjacent, disjoint and `days` long (7 for up to 7 days) |
| Keyring.Store.Read | internal/auth/keyring.go:15-30 | a backend error is a read error; no entry is no token and no error; undecodable data is an error, not an absent token |
| Keyring.Store.GetToken | internal/auth/keyring.go:15-30 | reads the slot as `Read` says |
| Keyring.Store.SetToken | internal/auth/keyring.go:33-44 | the slot holds the new token, whatever it held before, or a write error leaves it unchanged |
| Keyring.Store.DeleteToken | internal/auth/keyring.go:47-55 | the slot is emptied and a missing entry is no error; a backend error leaves it unchanged |
| Keyring.Store.HasToken | internal/auth/keyring.go:58-61 | true iff a token is read; errors count as false |
| Keyring.SetThenGet | internal/auth/keyring.go:11-44 | a token stored is the token read back |
| Keyring.SetTwiceThenGet | internal/auth/keyring.go:33-44 | a second store overwrites the first |
| Keyring.DeleteTwiceThenGet | internal/auth/keyring.go:47-61 | delete is idempotent, and afterwards there is no token and no error |
| OAuth.GetValidToken | internal/auth/oauth.go:147-169 | a read error is passed on; no token is "not logged in" with no refresh; an unexpired token is returned with no refresh and no write; an expired one gets exactly one refresh: on success the new token is stored and returned, on failure the store is unchanged |
| OAuth.ValidTokenIsUnexpired | internal/auth/oauth.go:147-169 | when the refresh hands out valid tokens, every token returned is unexpired |
| OAuth.GetTokenInfo | internal/auth/oauth.go:180-196 | the read error is passed on; no token is the zero summary; a token is summarised with its expiry, type and "expired" = expiry before now; nothing is written |
| OAuth.FailureReason | internal/auth/oauth.go:66-70 | the `error` parameter, or "no authorization code received" when it is empty; never empty |
| OAuth.HandleCallback | internal/auth/oauth.go:64-84 | a non-empty code is status 200 and delivers the code; otherwise status 400 and "authorization failed: " with the reason |
| OAuth.CallbackClassifies | internal/auth/oauth.go:64-84 | status 200 iff a code is delivered iff the code is non-empty; a failure always names a reason |
| OAuth.ParseClientSecret | internal/auth/oauth.go:199-222 | read and decode errors are passed on; the installed project id when it is non-empty, the web one otherwise |
| OAuth.ParseClientSecretEmpty | internal/auth/oauth.go:218-221 | the id is empty only when neither application type names one |
| Csv.Writer.Write | internal/output/csv.go:41-43 | a line is appended while the quota lasts; afterwards writes fail and change nothing |
| Csv.Export | internal/output/csv.go:13-75 | a file that cannot be created gets nothing; otherwise all lines are written, or a header or row error is reported after the prefix of accepted lines |
| Csv.QueryHeader | internal/output/csv.go:24-39 | at most one column per dimension, plus the four metric columns |
| Csv.QueryRecord | internal/output/csv.go:47-67 | as many fields as the header has columns |
| Csv.QueryHeaderEndsWithMetrics | internal/output/csv.go:39-66 | the header ends with Clicks, Impressions, CTR and Position, and the record's last field but one is the CTR as `ctr*100` with two decimals and "%" |
| Csv.QueryRecordMatchesHeader | internal/output/csv.go:24-67 | each query record has the header's length, and each field is the one its column names; CTR is `ctr*100` with two decimals and "%" |
| Csv.DimRecordMatchesHeader | internal/output/csv.go:24-61 | the dimension fields line up with the dimension columns |
| Csv.DimHeader | internal/output/csv.go:25-38 | no more dimension columns than dimensions |
| Csv.DimHeaderAppend | internal/output/csv.go:25-38 | the dimension columns of a concatenation are those of its parts, so unrecognised dimensions add nothing |
| Csv.LinesOf | internal/output/csv.go:41-72 | one line more than rows, the header first |
| Csv.LinesOfAt | internal/output/csv.go:115-134 | line k + 1 is the record of row k |
| Csv.QueryLines | internal/output/csv.go:41-72 | one line more than rows, the header first |
| Csv.QueryLinesAt | internal/output/csv.go:46-72 | line k + 1 is the record of row k |
| Csv.BuildQueryHeader | internal/output/csv.go:24-39 | the header built column by column |
| Csv.BuildQueryRecord | internal/output/csv.go:47-67 | the record built field by field |
| Csv.WriteQueryResultCSV | internal/output/csv.go:13-75 | writes the header and then a record per row, in order, stopping at the first failed write with its error |
| Csv.WriteRecords | internal/output/csv.go:94-137 | the same for a fixed header and the rows' records |
| Csv.ComparisonRecord | internal/output/csv.go:115-129 | one field per header column, each the row's value that column names: counts whole, percentages and positions with one decimal |
| Csv.ComparisonRecordMatchesHeader | internal/output/csv.go:104-129 | 12 header columns and 12 fields, query first, the two percentages ending in "%" |
| Csv.WriteComparisonCSV | internal/output/csv.go:94-137 | header, then one record per comparison row, stopping at the first failed write |
| Csv.DropsRecord | internal/output/csv.go:173-182 | one field per header column, each the drop's value that column names |
| Csv.DropsRecordMatchesHeader | internal/output/csv.go:161-182 | 7 header columns and 7 fields, the query first and the position drop second |
| Csv.WriteDropsCSV | internal/output/csv.go:151-190 | header, then one record per drop, stopping at the first failed write |
| Csv.ExportWritesEveryRow | internal/output/csv.go:41-72 | when every write is accepted: success, the header first, and exactly one record per row in input order |

## Left out

- LoginFlow: the callback listener, HTTP server goroutine, browser launch, 5-minute timeout and code exchange are concurrency and I/O. Only the handler's classification (`OAuth.HandleCallback`) is modelled.
- HTML pages: the HTML bodies the callback answers with are not modelled.
- The consent URL's constant `state` is not modelled.
- RefreshToken and LoadClientConfig: loading `client_secret.json` and the oauth2 token source are the `refresh` parameter. Nothing is asserted about refresh tokens carried over.
- The keychain backend and JSON encoding of tokens are not modelled. The slot holds a token or undecodable data. Encoding a token is taken never to fail, so `SetToken`'s "could not encode token" error is not modelled.
- Keyring.Store.DeleteToken: a backend fault is reported even when there is no entry; the backend's own ordering of "not found" against other errors is not modelled.
- `os.ReadFile` and `json.Unmarshal` in `parseClientSecret` are one `Result` parameter.
- Pages.FormatPageURL: `url.Parse` is not modelled; its outcome (path and raw query, or an error) is a parameter.
- Search Console client construction (`internal/api/client.go`) and the site URL are not part of this model.
- Config files, cobra wiring, terminal printing and the JSON output (`internal/output/json.go`) are not part of this model.
- The RunE bodies are modelled only for the request limits, the cut to the limit, the sort, and the drops period rule. The `--from/--to` date flags of compare and the date formatting are not modelled.
- Exact float formatting (`%.1f`, `FormatFloat` digits, rounding, NaN and infinities) is symbolic `Text.Fixed`.
- Colours are a style tag. `FormatCTR`, `FormatPosition` and table rendering are not modelled.
- Strings are sequences of one-byte characters. `strings.ToLower` is modelled for ASCII only.
- Sorting.SortBy: Go's `sort.Slice` is not stable and its algorithm is not modelled. Any permutation sorted by the key is allowed, and the model's selection sort is one such.
- SearchAnalytics.QueryAll: the source loops for ever on a service that always answers a full batch. The model requires a batch (`last`, ghost) at which the service fails or answers short.
- Compare.BuildComparison, Drops.FindDrops: row order follows Go's unspecified map order. The contracts state which rows there are (a multiset), not their positions.
- Wall-clock time is the `today` and `now` parameters. Dates are day numbers; timestamps are integers.
- Csv.Writer.Write: `csv.Writer` buffers its output. In Go a write error surfaces at a later `Write` that fills the buffer, or at the deferred `Flush`, whose error (like that of `file.Close`) is never checked, so a failure of the last buffered lines is lost and the export reports success. The model reports a refused line at the `Write` that refuses it and does not model the buffer.
- Drops.DropOfRules: the model follows the code, which keeps a query whose position grew by exactly the threshold (`drop >= threshold`, drops.go:197). The help text (drops.go:29-30, "Drops > 5 positions") and the printed summary (drops.go:111, "Threshold: >%.1f") say "more than".
- Integer widths (`int64` row limits, `limit * 2`) are unbounded integers. The limits in use are far from overflow.

## Findings

| source | as written | input that shows it | evidently intended | confidence | as-written member | corrected member |
|---|---|---|---|---|---|---|
| internal/api/searchanalytics.go:171-176 | the range starts `3 + days` days ago and ends 3 days ago, so it spans `days + 1` days | `--days 28`: 29 days, while the 28-day default (`DefaultDateRange`, lines 163-168) spans 28 | the last `days` days, so `--days 28` equals the default | not executed; medium | SearchAnalytics.DateRangeForDaysSpansOneExtraDay | SearchAnalytics.DateRangeForDaysMatchesDefault |
| internal/cmd/drops.go:45-56 | for `days > 7` the previous window is `DateRangeForDays(2 * days)`, which ends on the same day as the current window | `--days 14`: current = the last 15 days, previous = the last 29 days, which include the current ones | the `days` days just before the current window, like the week period's adjacent windows | not executed; high | Drops.DropsPeriodAsWrittenOverlaps | Drops.DropsPeriodAdjacent |
