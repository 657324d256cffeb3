# Weather, labour-market and insurance data endpoints: a verified model

This project models the deterministic core of a set of serverless endpoints and two
dashboard data scripts. The endpoints proxy public data sources: Storm Prediction
Center tornado and storm reports, Bureau of Labor Statistics series, Treasury yield
curves, Open-Meteo winter-storm weather, and Yahoo Finance quotes for insurers. The
model covers the part between "the upstream bytes came back" and "the JSON goes out":
parsing, calendar arithmetic, merging and aggregation, the incremental current-year
cache, derived metrics with their `null` fallbacks, batch outcome partitioning, and the
status each handler answers with.

Every upstream request is a function parameter that returns a value or a failure.
So are the clock, JavaScript `Date` string parsing and floating-point text parsing.
Numbers are exact `real`s, and a JavaScript `null` or a Python `None` is an `Option`.

Modules, one per source file, plus shared helpers:

| module | models |
|---|---|
| `CsvLine`, `SpcFormat`, `TornadoDates`, `TornadoDaily`, `TornadoYear`, `TornadoCache`, `TornadoTrends` | `netlify/functions/spc-tornado-trends.js`: the quote-aware field splitter, day-of-year dates, the daily report count, the yearly CSV parse, the current-year cache (a class over a map) and the trend statistics |
| `StormReports` | `netlify/functions/spc-storm-reports.js`: time display, the section-scanning report parser, sanitizing, and the today/previous-day fallback |
| `Bls` | `netlify/functions/bls-proxy.js`: series ids, the payload, the year-chunk loop, the first-seen merge keyed by (year, period), the final sort and the status check |
| `YieldCurves` | `netlify/functions/yield-curves.js`: number and CSV parsing, the per-date merge where a later row wins, and the range clamp |
| `PcdDashboard` | `netlify/functions/pcd-dashboard.js`: month and day shifts, calendar-window returns, maximum drawdown, price-to-book normalisation, the breadth aggregates and the batch handler |
| `InsurerBuybacks` | `netlify/functions/insurer-buybacks.js`: ticker keys, required-return buckets, the return-on-equity and book-value fallback chains, the valuation ratios and the batch handler |
| `WinterStormCompare` | `netlify/functions/winter-storm-compare.js`: `chunkArray`, the hourly bucketing with cumulative snowfall, the event steps and the handler's validation |
| `WinterStormData` | `netlify/functions/winter-storm-data.js`: date validation, chronological date order and the batch partition |
| `PropertyCasualtyMetrics` | `tools/property-casualty-dashboard/generate_data.py`: period and year-to-date returns, maximum drawdown, `fi_get`, dividend yields and the 52-week percentages |
| `PncReturns` | `tools/pnc-insurance-dashboard/data_fetch.py`: `calculate_returns`, the per-period loop, and its agreement with the other dashboard |
| `Wrappers`, `Text`, `Seqs`, `Calendar`, `Http` | shared: `Option`/`Result`, JavaScript whitespace, trim, split, `padStart` and `parseInt`, counting, filtering, de-duplication and a stable sort, proleptic Gregorian dates, and error statuses |

Operations that loop or update state in the source are methods with loops. Each is
proved against a specification function, and the properties are proved about those
functions as lemmas. The current-year cache is a class whose map field the build
method updates.

## Model

Some functions define a source function and carry no contract of their own. The rows of the lemmas about them stand for them:
- `PropertyCasualtyMetrics.PeriodReturn`: `PeriodReturnMeaning`, `PeriodReturnOfPositive`.
- `PropertyCasualtyMetrics.YtdReturn`: `YtdReturnMeaning`.
- `PropertyCasualtyMetrics.MaxDrawdown` (the `Drawdown` of the prices): `DrawdownAt`, `Lowest`, `DrawdownStepBounds`, `DrawdownBounds`.
- `PncReturns.PeriodReturn`: `LookbackReturn`, `YtdReturn`, `LookbackAgrees`, `YtdAgrees`.
- `WinterStormData.Respond`: `Handler`, `DateDecisions`, `ServedOutcome`.

| member | source | states |
|---|---|---|
| Text.PadStart | netlify/functions/spc-tornado-trends.js:15-17 | `padStart` keeps the string as its suffix and fills in front of it with the fill character up to the width, never shortening it |
| Text.TrimTwice | netlify/functions/spc-tornado-trends.js:42 | trimming a trimmed string changes nothing |
| Text.ParseIntOfIntToString | netlify/functions/spc-tornado-trends.js:231-235 | `parseInt` reads back the decimal spelling of any integer, whatever non-digit text follows |
| Seqs.SortBy | netlify/functions/spc-tornado-trends.js:302 | a sort under a total preorder yields an ordered permutation of its input |
| Seqs.SortStable | netlify/functions/spc-tornado-trends.js:302 | the sort is stable: elements that compare equal keep their relative order |
| Seqs.SortSorted | netlify/functions/spc-tornado-trends.js:302 | sorting what is already in order changes nothing |
| Seqs.DedupMembers | netlify/functions/insurer-buybacks.js:347 | building an insertion-ordered set keeps every element of the input exactly once |
| Seqs.DedupFirstOccurrenceOrder | netlify/functions/insurer-buybacks.js:347 | the set lists its elements in the order of their first occurrences |
| Calendar.DayOfYear | netlify/functions/spc-tornado-trends.js:45-49 | the day of the year of a valid date lies between 1 and the year's length and counts the days since the year's start |
| Calendar.DateFromOrdinal | netlify/functions/spc-tornado-trends.js:51-55 | setting day `k` of January of a year lands on a valid date `k - 1` days after January 1, within that year when `k` is within its length |
| Calendar.FromDayNumberOfDate | netlify/functions/spc-tornado-trends.js:64-68 | converting a valid date to its day number and back gives the date again |
| Calendar.AddDaysCompose | netlify/functions/spc-tornado-trends.js:64-68 | adding `a` days and then `b` days is adding `a + b` days |
| Calendar.NextDay | netlify/functions/spc-tornado-trends.js:64-68 | adding one day moves to the next day of the month, or to the first of the next month, or to January 1 of the next year |
| Calendar.IsoDateOfFourDigitYear | netlify/functions/spc-tornado-trends.js:54-62 | for a year from 0 to 9999 the ISO date is the zero-padded year, month and day joined by dashes, the same as `formatIsoDate` from year 1000 on |
| Http.ErrorStatus | netlify/functions/bls-proxy.js:207 | a thrown error carrying a non-zero status code answers with it, and one without a status code answers 500 |
| CsvLine.SplitCsvLine | netlify/functions/spc-tornado-trends.js:19-43 | the character scan gives exactly the trimmed fields of `RawFields`, the quote-aware reading of the line |
| CsvLine.FieldCount | netlify/functions/spc-tornado-trends.js:33-41 | a line yields one more field than it has commas outside quotes |
| CsvLine.UnquotedIsPlainSplit | netlify/functions/spc-tornado-trends.js:19-43 | a line without `"` splits exactly like `split(",")` |
| CsvLine.EscapeReadsBack | netlify/functions/spc-tornado-trends.js:26-32 | inside quotes a doubled `"` reads back as one quote, so an escaped field reads back as itself |
| CsvLine.QuotedFieldReadsBack | netlify/functions/spc-tornado-trends.js:24-41 | a quoted field followed by a comma or the end of the line reads back as that field |
| CsvLine.EncodeRecordRoundTrip | netlify/functions/spc-tornado-trends.js:19-43 | splitting a record of quoted fields returns the fields whenever trimming leaves them unchanged |
| SpcFormat.HeadersDistinct | netlify/functions/spc-tornado-trends.js:9-13 | no line matches two of the tornado, wind and hail header patterns |
| SpcFormat.HeaderNotBlank | netlify/functions/spc-tornado-trends.js:88-91 | a line matching a header pattern is never blank |
| SpcFormat.JsRem | netlify/functions/spc-tornado-trends.js:71 | JavaScript's truncating `%`: the usual remainder for a non-negative dividend, a value in (-b, 0] for a negative one |
| SpcFormat.PadTwoDigits | netlify/functions/spc-tornado-trends.js:15-17 | `pad` of a number below 100 is two digits that read back as the number |
| SpcFormat.ReportBaseParts | netlify/functions/spc-tornado-trends.js:70-74 | the stem is year-within-century, month and day, two digits each |
| TornadoDaily.ParseDailyTornadoCount | netlify/functions/spc-tornado-trends.js:81-106 | the count is the number of report lines strictly between the first tornado header and the next wind or hail header (0 with no tornado header or empty text) |
| TornadoDaily.CountSection | netlify/functions/spc-tornado-trends.js:87-103 | the loop, with its early `break`, computes that positional count |
| TornadoDaily.ClassifyLine | netlify/functions/spc-tornado-trends.js:88-98 | the tests applied to a trimmed line agree with the line's kind |
| TornadoDaily.ClassifyHeaders | netlify/functions/spc-tornado-trends.js:91-98 | every header line is classified as exactly its own kind |
| TornadoDaily.StopBeforeTornadoIgnored | netlify/functions/spc-tornado-trends.js:95-97 | a wind or hail header before the tornado section does not change the count |
| TornadoDaily.FetchNeverFailsWith404 | netlify/functions/spc-tornado-trends.js:108-130 | the daily fetch never fails with 404; two missing files give 0 |
| TornadoDates.DayOfYearOfValid | netlify/functions/spc-tornado-trends.js:45-49 | for a valid date the day of the year is its 1-based ordinal in the year |
| TornadoDates.FirstAndLastDay | netlify/functions/spc-tornado-trends.js:45-49 | January 1 is day 1, December 31 day 365 or 366 in a leap year |
| TornadoDates.IsoFromDayOfYearInverts | netlify/functions/spc-tornado-trends.js:51-55 | `isoFromDayOfYear` gives back the date whose day of the year was taken |
| TornadoDates.LeapDaySixty | netlify/functions/spc-tornado-trends.js:51-55 | day 60 of a leap year is February 29 |
| TornadoYear.ParseIntegerReadsBack | netlify/functions/spc-tornado-trends.js:231-235 | `parseInteger` reads back every integer written in decimal |
| TornadoYear.ColumnIndex | netlify/functions/spc-tornado-trends.js:244-245 | the index is the last header field that lower-cases to the name; none exactly when no field does |
| TornadoYear.LocateColumns | netlify/functions/spc-tornado-trends.js:247-254 | fails exactly when one of yr, mo, dy is missing, listing those missing in that order |
| TornadoYear.RowEntry | netlify/functions/spc-tornado-trends.js:259-287 | a row is kept iff it is as wide as the header, year, month and day parse, and the year matches a truthy expected one; the entry carries those year, month and day, injuries and fatalities read by `parseInteger` from their columns (0 without the column), and the day key `dayOfYearFromParts` |
| TornadoYear.EntriesOfExpectedYear | netlify/functions/spc-tornado-trends.js:272-274 | with an expected year every kept entry has that year |
| TornadoYear.CollectEntries | netlify/functions/spc-tornado-trends.js:258-288 | the row loop returns the entries of the rows after the header, in order |
| TornadoYear.GroupByDay | netlify/functions/spc-tornado-trends.js:304-317 | the map's keys are exactly the entries' days, each holding that day's count, injuries and fatalities; the insertion order is strictly increasing |
| TornadoYear.BuildSeries | netlify/functions/spc-tornado-trends.js:319-336 | point k carries day k's record and the reports of days 0..k; the totals are the sums over all days |
| TornadoYear.SortedSameSums | netlify/functions/spc-tornado-trends.js:302 | sorting the entries by day changes no per-day or total figure |
| TornadoYear.Summarize | netlify/functions/spc-tornado-trends.js:302-350 | the series has one point per distinct day in increasing order, each with that day's figures and the running count; totals and first and last dates follow |
| TornadoYear.TotalsArePerDaySums | netlify/functions/spc-tornado-trends.js:320-345 | the total reports, injuries and fatalities are the series' per-day figures added up |
| TornadoYear.ParseTornadoYear | netlify/functions/spc-tornado-trends.js:237-351 | no non-blank line gives null; a missing required column gives the error listing them; otherwise the summary of the kept rows (the empty result when none is kept) |
| TornadoCache.DaysFromRun | netlify/functions/spc-tornado-trends.js:178-185 | the dates to fetch run from the first day to the target end, one day apart |
| TornadoCache.FetchAllFirstFailure | netlify/functions/spc-tornado-trends.js:187-196 | a failing fetch of the days fails with the earliest failing day's error; 404 counts as 0 |
| TornadoCache.RecoverDailyFetch | netlify/functions/spc-tornado-trends.js:187-196 | with the real daily fetch the 404 branch never applies |
| TornadoCache.PointsAccumulate | netlify/functions/spc-tornado-trends.js:198-210 | each new point's cumulative is the previous one plus its day's count, starting from the carried count |
| TornadoCache.CarryForward | netlify/functions/spc-tornado-trends.js:198-215 | the total after extending is the carried count plus the new counts |
| TornadoCache.DaysToFetch | netlify/functions/spc-tornado-trends.js:178-185 | the loop lists exactly the days from the first through the target end |
| TornadoCache.FetchCounts | netlify/functions/spc-tornado-trends.js:187-196 | every day is requested, and the outcome is the counts in day order or the first failure |
| TornadoCache.AppendPoints | netlify/functions/spc-tornado-trends.js:198-210 | the series is extended by one point per fetched day, stamped and accumulated |
| TornadoCache.RebuiltExtends | netlify/functions/spc-tornado-trends.js:161-228 | a successful build keeps the cached series as prefix, adds one point per fetched day and totals the carried count plus the new counts |
| TornadoCache.YearCache.BuildCurrentYearSeries | netlify/functions/spc-tornado-trends.js:153-229 | the result is `Built` of the cache as it stood: a cache hit returns the cached data and requests nothing; a miss requests the days after the cached date through the target end, and the cache is updated only on success |
| TornadoCache.YearCache.Extend | netlify/functions/spc-tornado-trends.js:178-226 | a miss fetches the listed days, appends their points and records the target end in the cache |
| TornadoTrends.RunMembers | netlify/functions/spc-tornado-trends.js:374-381 | the years of the range are exactly those between its ends, one step apart, in either direction |
| TornadoTrends.YearRange | netlify/functions/spc-tornado-trends.js:374-381 | the loop builds that range |
| TornadoTrends.EnsembleStats | netlify/functions/spc-tornado-trends.js:383-403 | count, mean, max and min over the totals of the years that are neither current nor comparison; all absent for none |
| TornadoTrends.EnsembleBounds | netlify/functions/spc-tornado-trends.js:388-395 | max and min are totals of kept years, bound every kept total, and the mean lies between them |
| TornadoTrends.EnsembleIgnores | netlify/functions/spc-tornado-trends.js:384-386 | a series of the current or comparison year never changes the statistics |
| TornadoTrends.LatestPoint | netlify/functions/spc-tornado-trends.js:405-408 | the last point, or none for an empty series |
| TornadoTrends.LatestPointOfYear | netlify/functions/spc-tornado-trends.js:405-408 | the latest point of a parsed year carries the year's total |
| TornadoTrends.LatestPointOfDailySeries | netlify/functions/spc-tornado-trends.js:212-221 | the latest point of a daily-built series carries its total |
| TornadoTrends.ResolveSpan | netlify/functions/spc-tornado-trends.js:432-446 | end year is the requested one or today's; start year is the requested one when above 2000, else 2000; the span is refused with 400 exactly when it covers more than 40 years |
| TornadoTrends.Missing | netlify/functions/spc-tornado-trends.js:458-463 | a 404 is "not yet available"; any other failure keeps its status, else 500 |
| TornadoTrends.GatheredPartition | netlify/functions/spc-tornado-trends.js:452-465 | each year lands in exactly one of: datasets kept, missing years, or neither when read but empty |
| TornadoTrends.GatherYears | netlify/functions/spc-tornado-trends.js:452-465 | the loop keeps the usable datasets and records the failures, both in year order |
| TornadoTrends.FindYear | netlify/functions/spc-tornado-trends.js:511-515 | the first series of that year, none exactly when there is none |
| TornadoTrends.CurrentDataset | netlify/functions/spc-tornado-trends.js:511-512 | one of the years' datasets: the first of the current year, or, with none of that year, the first of the greatest year, the last one listed, which always exists |
| TornadoTrends.Summarize | netlify/functions/spc-tornado-trends.js:487-541 | the answer is `AnswerFor` the datasets and failures: the 404 exactly when there is no dataset; otherwise the years are a year-sorted permutation of the datasets, the comparison year is last year exactly when it is present, the statistics are over the other years, and the latest point is present and is that of `CurrentDataset`, the current year's series or, without one, the greatest year's |
| TornadoTrends.AddCurrentYear | netlify/functions/spc-tornado-trends.js:472-485 | the datasets and missing years become those of `WithBuilt` for the build the cache gives (`Built`): a built series with a day is appended, a failed build appended as a missing year with its status, and a failed build leaves the cache as it was |
| TornadoTrends.RespondForSpan | netlify/functions/spc-tornado-trends.js:448-541 | the cache is left alone unless the fallback applies; the answer is `AnswerFor` the datasets and failures collected (`Collected`: the span's years, plus the fallback's build when the end year is this year and absent): the 404 exactly when nothing is collected, otherwise the collected datasets sorted by year, with comparison year, statistics and latest point as `Summarize` states, and the collected failures as missing years |
| TornadoTrends.Respond | netlify/functions/spc-tornado-trends.js:431-541 | a refused span is answered with 400 before anything is fetched or cached; an accepted span is answered as `RespondForSpan` states, `AnswerFor` what is collected over that span |
| TornadoYear.Arrange | netlify/functions/spc-tornado-trends.js:302-319 | the entries are stably sorted by day with the same figures; each day that has entries is listed once, in ascending order, with the tally of that day's entries |
| TornadoCache.FetchAndExtend | netlify/functions/spc-tornado-trends.js:187-215 | fetching the listed days and extending the cached series gives the rebuilt year, or the first failed fetch |
| TornadoCache.YearCache.constructor | netlify/functions/spc-tornado-trends.js:6-7 | the shared cache starts empty, with no day requested |
| StormReports.DigitsOf | netlify/functions/spc-storm-reports.js:76 | the result holds only digits, is no longer than the input, and is empty exactly when the input has no digit |
| StormReports.TimeToDisplay | netlify/functions/spc-storm-reports.js:74-82 | absent exactly when the field has no digit; otherwise five characters, two digits, `:`, two digits; with four digits or more the shown digits are the first four |
| StormReports.TimeReadsBack | netlify/functions/spc-storm-reports.js:74-82 | for one to four digits, hours × 100 + minutes shown is the value of the digits written |
| StormReports.OrNull | netlify/functions/spc-storm-reports.js:132-137 | `value \|\| null`: absent exactly for the empty field |
| StormReports.Comments | netlify/functions/spc-storm-reports.js:140 | no extra columns give none; a present comment is the trimmed ", "-join and never blank |
| StormReports.MakeReport | netlify/functions/spc-storm-reports.js:122-180 | the report is the `index`-th of its kind with id `date-kind-index`, coordinates read from columns 6 and 7 and the comments from the rest |
| StormReports.Step | netlify/functions/spc-storm-reports.js:94-181 | a blank line changes nothing; a header line switches to its section and changes no report; any other line keeps the section and changes the reports only inside a section, for a row of at least seven columns, by adding it as a report of that section |
| StormReports.AddRow | netlify/functions/spc-storm-reports.js:122-181 | the current section's list gains exactly the row's report at its end; the other lists are unchanged |
| StormReports.ParseStormReports | netlify/functions/spc-storm-reports.js:84-185 | the loop's reports are those of the line-by-line scan of the text from no section |
| StormReports.ScanAppend | netlify/functions/spc-storm-reports.js:94-182 | scanning two blocks of lines one after the other equals scanning them joined |
| StormReports.PreambleIgnored | netlify/functions/spc-storm-reports.js:113-115 | lines before the first section header can be dropped without changing the result |
| StormReports.ScanNumbered | netlify/functions/spc-storm-reports.js:129-169 | the k-th report of each kind has id `date-kind-k` and that kind |
| StormReports.StepGrows | netlify/functions/spc-storm-reports.js:94-181 | a line only appends, to one list, at most one report |
| StormReports.ScanSize | netlify/functions/spc-storm-reports.js:94-182 | there are never more reports than lines |
| StormReports.SanitizeKeeps | netlify/functions/spc-storm-reports.js:241-255 | exactly the reports with both coordinates are kept, so mapped counts never exceed totals |
| StormReports.SanitizeOf | netlify/functions/spc-storm-reports.js:241-255 | each kind's list is that kind's list filtered in order |
| StormReports.SanitizeIdempotent | netlify/functions/spc-storm-reports.js:241-255 | sanitizing twice is sanitizing once |
| StormReports.FetchReport | netlify/functions/spc-storm-reports.js:187-214 | a found file is one of the candidates with non-blank text; a failure is never a 404 |
| StormReports.Verdict | netlify/functions/spc-storm-reports.js:198-210 | a reply that does not move on decides: a successful one is the file with its name and non-blank text, a failed request an error without status, any other status an error carrying it |
| StormReports.FetchReportDecidedAt | netlify/functions/spc-storm-reports.js:187-211 | the candidates are tried in order: the first one whose reply is neither a 404 nor a blank success decides the outcome |
| StormReports.FetchReportAllPassed | netlify/functions/spc-storm-reports.js:190-213 | when every candidate answers 404 or blank, there is no file |
| StormReports.Tries | netlify/functions/spc-storm-reports.js:290-295 | the target date first, and the day before it as well exactly when the target is today |
| StormReports.FirstFound | netlify/functions/spc-storm-reports.js:299-306 | the date of a found file is one of the dates tried |
| StormReports.Tagged | netlify/functions/spc-storm-reports.js:300-304 | a lookup's failure or absence is kept as it is; a file found is tagged with the date it was found for |
| StormReports.FirstFoundDecidedAt | netlify/functions/spc-storm-reports.js:299-306 | the dates are tried in order: the first date whose lookup finds a file or fails decides the outcome |
| StormReports.FirstFoundNone | netlify/functions/spc-storm-reports.js:296-308 | when no date has a file, none is found |
| StormReports.TriesPreferTarget | netlify/functions/spc-storm-reports.js:292-306 | the target decides when its lookup finds a file or fails; otherwise the day before decides when the target is today, and nothing is found when it is not |
| StormReports.FindReport | netlify/functions/spc-storm-reports.js:299-306 | the loop returns the first date whose file is found, stopping at the first failure |
| StormReports.TargetDate | netlify/functions/spc-storm-reports.js:224-239 | an absent or empty `date` parameter resolves to today; a non-empty one resolves to the date it parses to, and is refused with 400 exactly when it does not parse; a resolved date is a valid calendar date |
| StormReports.Respond | netlify/functions/spc-storm-reports.js:288-344 | the handler answers exactly as `Answer`: 400 for a bad date, a fetch failure with its status, 404 with the requested date when nothing is found, otherwise the served file |
| StormReports.AnswerRefused | netlify/functions/spc-storm-reports.js:224-234 | a date parameter that does not parse is answered with 400 |
| StormReports.AnswerPrefersTarget | netlify/functions/spc-storm-reports.js:288-320 | the target's file is served whenever it is there, a failed lookup of the target answers with its status, the day before is turned to only when the target has no file and is today, and otherwise the answer is the 404 with the requested date |
| StormReports.ServedMeaning | netlify/functions/spc-storm-reports.js:322-343 | a served answer carries the date used, the counts of all parsed reports, exactly the reports with coordinates and their counts, the source and the requested date; mapped counts never exceed the totals |
| StormReports.Serve | netlify/functions/spc-storm-reports.js:322-343 | reading the file with the line loop gives the served answer of its reports |
| Bls.SeriesIdsMeaning | netlify/functions/bls-proxy.js:3-25 | the ids are the non-empty, comma-free, trimmed parts of the requested values, each once, and every such part is among them |
| Bls.ParseSeriesIds | netlify/functions/bls-proxy.js:3-25 | filling the insertion-ordered `Set` part by part gives those ids in order of first appearance |
| Bls.AddAll | netlify/functions/bls-proxy.js:14 | adding elements one by one to an insertion-ordered set is de-duplication of the whole sequence |
| Bls.KeyTextDetermines | netlify/functions/bls-proxy.js:169-172 | the text key `${year}-${period}` tells two observations apart exactly when their (year, period) pair does |
| Bls.FirstByKeyUnique | netlify/functions/bls-proxy.js:169-177 | at most one observation per key survives the merge |
| Bls.FirstByKeyWins | netlify/functions/bls-proxy.js:169-177 | the surviving observations are exactly the first seen with each key |
| Bls.MergeItems | netlify/functions/bls-proxy.js:169-177 | appending the observations whose key is new gives the first-by-key merge of everything seen |
| Bls.MergeSeries | netlify/functions/bls-proxy.js:160-178 | merging one series keeps the `Map` equal to the merge of all series seen so far |
| Bls.MergeChunk | netlify/functions/bls-proxy.js:157-178 | merging a chunk's series keeps that invariant over the whole chunk |
| Bls.FirstFieldsIsFirst | netlify/functions/bls-proxy.js:161-166 | a merged series' metadata comes from the first series that carried its id |
| Bls.MergedOrder | netlify/functions/bls-proxy.js:145-181 | the merged series come one per id, in order of first appearance |
| Bls.MergedOfMeaning | netlify/functions/bls-proxy.js:160-178 | a merged series has the first series' metadata and exactly the first observation fetched for each key |
| Bls.SortedSeriesSorts | netlify/functions/bls-proxy.js:182-187 | sorting keeps id, metadata and the observations as a multiset, and orders them newest first |
| Bls.Collect | netlify/functions/bls-proxy.js:181-189 | the loop reads the series out in insertion order, each sorted |
| Bls.Finish | netlify/functions/bls-proxy.js:181-189 | what is read out is the sorted merge of everything fetched |
| Bls.Check | netlify/functions/bls-proxy.js:27-50 | the reply is accepted exactly when it parses and its status is `REQUEST_SUCCEEDED`; otherwise an unparsed reply fails with 500 and a failed status with 502 |
| Bls.ChunksTile | netlify/functions/bls-proxy.js:146-147 | the chunks start at the first year, end at the last, span 1 to `maxSpan` years each, follow on without gap and do not overlap; none when the start is after the end |
| Bls.ChunkOf | netlify/functions/bls-proxy.js:146-147 | every year of the range lies in some chunk |
| Bls.FetchChunksStops | netlify/functions/bls-proxy.js:157 | once a chunk fetch fails, later chunks do not change the outcome |
| Bls.NoYearsNoSeries | netlify/functions/bls-proxy.js:146 | a start year after the end year requests nothing and serves no series |
| Bls.FetchYears | netlify/functions/bls-proxy.js:145-189 | the chunk loop returns the year-range outcome: the first failure, or the sorted merge of all chunks |
| Bls.YearsOutcomeMeaning | netlify/functions/bls-proxy.js:145-189 | each served series is the merge of its id, sorted newest first, with distinct keys and its observations kept |
| Bls.YearsFailureStatus | netlify/functions/bls-proxy.js:145-207 | a failed chunk fetch fails with 500 or 502 |
| Bls.InputsOf | netlify/functions/bls-proxy.js:80-92 | only a non-empty POST body that does not parse fails, without a status |
| Bls.PlanOf | netlify/functions/bls-proxy.js:106-111 | a truthy numeric `latest` asks for exactly max(1, latest) observations; otherwise the start and end years are the numbers read from truthy `startyear` and `endyear`, defaulting to 2000 and the current year |
| Bls.AnswerStatus | netlify/functions/bls-proxy.js:94-205 | once the inputs are read, 400 exactly when no series id is given; failures are 500 or 502 |
| Bls.HandlerStatus | netlify/functions/bls-proxy.js:52-217 | the handler answers 204, 405, 400, 200, 500 or 502; 204 exactly for a preflight; 400 exactly for a GET or POST without a series id |
| Bls.Handle | netlify/functions/bls-proxy.js:52-217 | the handler, with its id `Set` and its chunk loop, answers exactly as the request-level function whose statuses `Bls.HandlerStatus` characterises |
| Bls.SortedKeepsKeys | netlify/functions/bls-proxy.js:182-187 | sorting a series whose observations have distinct keys keeps them distinct and keeps exactly its observations |
| YieldCurves.ParseNumber | netlify/functions/yield-curves.js:39-45 | a missing, blank or "N/A" cell gives no number; any other cell gives `parseFloat` of the trimmed cell without its commas |
| YieldCurves.ThousandsSeparatorDropped | netlify/functions/yield-curves.js:43 | a figure with a thousands separator reads as its digits without it |
| YieldCurves.NonEmptyLines | netlify/functions/yield-curves.js:53 | no line kept is empty |
| YieldCurves.ParseCsv | netlify/functions/yield-curves.js:52-62 | the header is empty exactly when there is no non-empty line, and then there are no rows |
| YieldCurves.BlankCsv | netlify/functions/yield-curves.js:52-54 | the header is empty exactly when the text is blank |
| YieldCurves.RowsAreLines | netlify/functions/yield-curves.js:59 | one row per non-empty line after the header, and each row joined with commas is its line |
| YieldCurves.HeaderFieldQuoted | netlify/functions/yield-curves.js:56-58 | a column name written in double quotes reads back as the name |
| YieldCurves.DateIndex | netlify/functions/yield-curves.js:81 | the index of the first column mentioning "date" in any ASCII case; none exactly when no column does |
| YieldCurves.Indices | netlify/functions/yield-curves.js:91-95 | the column map has exactly the keys of the available maturities |
| YieldCurves.RowValues | netlify/functions/yield-curves.js:111-115 | a row writes a value for exactly the available maturities |
| YieldCurves.SetValues | netlify/functions/yield-curves.js:111-115 | the loop overwrites the day's values with the row's values and keeps the rest |
| YieldCurves.MergeDomain | netlify/functions/yield-curves.js:109-117 | the days merged are exactly the days of the kept rows |
| YieldCurves.MergeLaterWins | netlify/functions/yield-curves.js:109-117 | a maturity's merged value on a day is the one written by the last row of that day that wrote it |
| YieldCurves.MergeWritten | netlify/functions/yield-curves.js:109-117 | nothing is merged that no row wrote |
| YieldCurves.AddRow | netlify/functions/yield-curves.js:97-118 | one row keeps the map and its insertion order equal to the merge of the updates so far |
| YieldCurves.ReadRows | netlify/functions/yield-curves.js:97-118 | the rows of one file keep that invariant |
| YieldCurves.RecordColumns | netlify/functions/yield-curves.js:91-95 | the column map and the maturities found are filled in for exactly the available maturities |
| YieldCurves.ReadCsv | netlify/functions/yield-curves.js:75-119 | one file extends the merge by its updates and the maturities found by its keys; an unusable file changes nothing |
| YieldCurves.ParseTreasuryData | netlify/functions/yield-curves.js:64-132 | the nested loops over files, rows and columns give the merged, date-sorted series that the per-date merge of all files defines, and nothing when there is no file or no dated row |
| YieldCurves.TreasuryFails | netlify/functions/yield-curves.js:64-123 | the parse fails exactly when there is no file or no row is kept |
| YieldCurves.SeriesMeaning | netlify/functions/yield-curves.js:126 | the series has one entry per merged day with its merged values, in strictly ascending date order |
| YieldCurves.UpdatesRecent | netlify/functions/yield-curves.js:98-106 | every day in the series comes from a row dated on or after the cutoff |
| YieldCurves.SkippedCsv | netlify/functions/yield-curves.js:77-89 | a file without header, date column or maturity column changes nothing |
| YieldCurves.MaturitiesMeaning | netlify/functions/yield-curves.js:86-125 | the maturities reported are the table's entries for which some usable file has a column, in table order |
| YieldCurves.SeriesNotEmpty | netlify/functions/yield-curves.js:121-126 | a kept row makes a non-empty series |
| YieldCurves.RangeDays | netlify/functions/yield-curves.js:276-277 | the range is always between 1 and 1095 days |
| YieldCurves.RangeOfNumber | netlify/functions/yield-curves.js:276-277 | a numeric range is honoured up to 1095; a non-positive one gives 540 |
| YieldCurves.HandlerOutcome | netlify/functions/yield-curves.js:252-301 | the status is 200, 204, 405 or 502; 200 exactly when a GET's downloads succeed and some row is kept, and then the range is in bounds and the series is not empty |
| YieldCurves.EntriesMeaning | netlify/functions/yield-curves.js:126 | before sorting there is one entry per merged date, holding that date's merged values |
| PcdDashboard.FirstOfMonthBack | netlify/functions/pcd-dashboard.js:85 | `Date.UTC(year, month - months, 1)` is the first of the month `months` back, borrowing years |
| PcdDashboard.LastDayOfMonth | netlify/functions/pcd-dashboard.js:86 | day 0 of the following month is the last day of the month, so `daysInMonth` is that month's length |
| PcdDashboard.ClampedDayFrom | netlify/functions/pcd-dashboard.js:86-87 | from the first of a month, setting the day to min(day, length) lands on the clamped day |
| PcdDashboard.ShiftMonthsMeaning | netlify/functions/pcd-dashboard.js:81-89 | the shifted instant is a midnight on the original day of the month `months` earlier, clamped to that month's length |
| PcdDashboard.ShiftedDateExamples | netlify/functions/pcd-dashboard.js:81-89 | March 31 less one month is February 29 in 2024 and February 28 in 2023; January less one month is December of the year before |
| PcdDashboard.ShiftDaysMeaning | netlify/functions/pcd-dashboard.js:93-95 | shifting by days moves the calendar date back that many days and keeps the time of day |
| PcdDashboard.StartOfYearMeaning | netlify/functions/pcd-dashboard.js:97-99 | midnight on January 1 of the instant's year, never after the instant |
| PcdDashboard.NormalizePriceToBook | netlify/functions/pcd-dashboard.js:101-109 | absent stays absent; a value strictly between 40 and 1000 is read as a percentage: the result times 100 is the value, so it lies strictly between 0.4 and 10; any other value is unchanged |
| PcdDashboard.NormalizePriceToBookTwice | netlify/functions/pcd-dashboard.js:101-109 | normalising twice is normalising once, unless the input lies between 4000 and 100000 |
| PcdDashboard.TargetDate | netlify/functions/pcd-dashboard.js:120-126 | the fields are tried in order: `yearStart` gives the start of the latest date's year, else non-zero `months` the latest date shifted back that many months, else non-zero `days` shifted back that many days; there is no target exactly when the definition is absent or sets none of them |
| PcdDashboard.LastOnOrBefore | netlify/functions/pcd-dashboard.js:111-118 | the highest index whose date is on or before the target; none exactly when every date is later |
| PcdDashboard.FindPointOnOrBefore | netlify/functions/pcd-dashboard.js:111-118 | the backward loop returns that index |
| PcdDashboard.ReturnSinceMeaning | netlify/functions/pcd-dashboard.js:128-139 | there is a return exactly when there are two points, the latest close is present, a start point exists, is not the latest and has a non-zero close; then (1 + r) × start close = latest close |
| PcdDashboard.FlatSeriesReturnsZero | netlify/functions/pcd-dashboard.js:128-139 | a flat series has return 0 over every window that has one |
| PcdDashboard.ComputeMaxDrawdown | netlify/functions/pcd-dashboard.js:141-154 | the loop over the values computes the deepest fall below the running peak, skipping nulls, whose meaning `MaxDrawdownIsDeepest` states |
| PcdDashboard.MaxDrawdownNonPositive | netlify/functions/pcd-dashboard.js:141-154 | a non-empty input has a drawdown, and it is at most 0 |
| PcdDashboard.MaxDrawdownIsDeepest | netlify/functions/pcd-dashboard.js:145-152 | the drawdown is at least as deep as every value's fall from its running peak |
| PcdDashboard.MaxDrawdownAttained | netlify/functions/pcd-dashboard.js:141-154 | a non-zero drawdown is attained: some value falls from its running peak by exactly that much |
| PcdDashboard.PeakIsRunningMax | netlify/functions/pcd-dashboard.js:147 | the running peak is at least every value seen |
| PcdDashboard.NonDecreasingNoDrawdown | netlify/functions/pcd-dashboard.js:141-154 | positive prices that never fall have drawdown 0 |
| PcdDashboard.AggregatesMeaning | netlify/functions/pcd-dashboard.js:334-352 | coverage is the company count; advancers plus decliners are at most coverage; both ratios are absent exactly for no company and lie in [0, 1]; avgBeta is absent exactly when no beta is finite |
| PcdDashboard.AboveMa200CountsTrueOnly | netlify/functions/pcd-dashboard.js:340 | a company whose flag is not exactly true does not change `above200Count` |
| PcdDashboard.GatherInBatches | netlify/functions/pcd-dashboard.js:366-403 | the batches of four, processed in order, give the same outcome as one pass over the symbols |
| PcdDashboard.GatherPartition | netlify/functions/pcd-dashboard.js:380-402 | every symbol lands in exactly one of errors, benchmarks or results |
| PcdDashboard.LastDateIsGreatest | netlify/functions/pcd-dashboard.js:393-395 | the last trade date is the greatest last date fetched, in text order, or unset when none was |
| PcdDashboard.HandlerMeaning | netlify/functions/pcd-dashboard.js:405-420 | status 502 exactly when some symbol failed and no company was fetched, else 200; the companies are the results sorted by ticker |
| PcdDashboard.Handle | netlify/functions/pcd-dashboard.js:354-427 | the configured tickers and then the benchmarks are gathered in batches of four and answered from what was gathered, with the statuses `HandlerMeaning` states |
| InsurerBuybacks.NormalizeTickerKey | netlify/functions/insurer-buybacks.js:108-111 | the key has the ticker's length, keeps every ASCII letter and digit in place and puts `_` in place of every other character |
| InsurerBuybacks.NormalizeTickerKeyIdempotent | netlify/functions/insurer-buybacks.js:108-111 | normalising a key again changes nothing |
| InsurerBuybacks.NormalizeTickerKeyExample | netlify/functions/insurer-buybacks.js:108-111 | "BRK-B" becomes "BRK_B" and "FFH.TO" becomes "FFH_TO" |
| InsurerBuybacks.ComputeRequiredReturn | netlify/functions/insurer-buybacks.js:210-219 | a configured bucket for the ticker's key wins; without one a given fallback yields a "Custom" bucket at that rate, and otherwise the result is the "Base" bucket at 12% |
| InsurerBuybacks.SameKeySameBucket | netlify/functions/insurer-buybacks.js:210-219 | two tickers with the same normalised key get the same required return |
| InsurerBuybacks.RequiredReturnPositive | netlify/functions/insurer-buybacks.js:210-219 | when every configured bucket and the fallback are positive, so is the required return |
| InsurerBuybacks.BerkshireBucket | netlify/functions/insurer-buybacks.js:210-214 | "BRK-B" finds the bucket filed under "BRK_B" |
| InsurerBuybacks.FirstPresent | netlify/functions/insurer-buybacks.js:128-133 | a `??` chain is missing only when all its candidates are, and otherwise yields one of the candidates |
| InsurerBuybacks.FirstPresentIsFirst | netlify/functions/insurer-buybacks.js:128-133 | a present candidate preceded only by missing ones is the one chosen |
| InsurerBuybacks.ReportedRoeWins | netlify/functions/insurer-buybacks.js:119-133 | a return on equity reported in the financial data or key statistics wins over anything computed from statements |
| InsurerBuybacks.RoeFallbacks | netlify/functions/insurer-buybacks.js:119-148 | there is no return on equity exactly when none is reported, the statements lack net income or a truthy equity, and the derived figures are not both truthy; one taken from the statements is net income over equity |
| InsurerBuybacks.KeptEntries | netlify/functions/insurer-buybacks.js:153-159 | an entry is kept exactly when it is present, dated, and of type balance sheet, all or unset |
| InsurerBuybacks.LatestEntryMeaning | netlify/functions/insurer-buybacks.js:150-163 | there is no latest entry exactly when no entry is kept; otherwise the latest is a kept entry dated no earlier than any kept entry |
| InsurerBuybacks.PerShare | netlify/functions/insurer-buybacks.js:185-191 | a per-share value exists exactly when the total is present and the share count truthy, and times the share count gives back the total |
| InsurerBuybacks.IntangiblesMeaning | netlify/functions/insurer-buybacks.js:178-196 | total intangibles are null only when goodwill and other intangibles both are; a single present part stands alone; the goodwill ratio is null without equity, with zero equity or without intangibles, and otherwise times equity gives the intangibles |
| InsurerBuybacks.PerShareNeedsShares | netlify/functions/insurer-buybacks.js:166-191 | when every share field is missing or the first present one is zero, book and tangible book per share are both null |
| InsurerBuybacks.PriceRatio | netlify/functions/insurer-buybacks.js:276-281 | a price multiple exists exactly when the price is present and the per-share value truthy, and times that value gives back the price |
| InsurerBuybacks.ImpliedReturn | netlify/functions/insurer-buybacks.js:283 | the buyback return is null exactly when the return on equity is; at a positive multiple it is the return on equity spread over the multiple, otherwise the return on equity itself |
| InsurerBuybacks.Rule72PaybackYears | netlify/functions/insurer-buybacks.js:284-285 | payback years exist exactly when the implied return is positive, and times the return in percent give 72 |
| InsurerBuybacks.PremiumPaybackYears | netlify/functions/insurer-buybacks.js:286-287 | without a premium over tangible book the payback is 0; with one it exists only for a positive return on equity and earns the premium back; it is never negative |
| InsurerBuybacks.RedZoneThreshold | netlify/functions/insurer-buybacks.js:290-293 | the threshold exists exactly when the return on equity is present and the required return positive, and is the multiple at which return on equity over the multiple equals the required return |
| InsurerBuybacks.RedZoneDelta | netlify/functions/insurer-buybacks.js:294-297 | the delta exists exactly when the threshold is truthy and the multiple present, and is the multiple's relative distance from the threshold |
| InsurerBuybacks.RedZoneMeansShortfall | netlify/functions/insurer-buybacks.js:283-297 | with positive inputs, trading above the threshold is exactly an implied buyback return below the required return |
| InsurerBuybacks.ValuationExample | netlify/functions/insurer-buybacks.js:283-293 | a 12% return on equity at 1.5 times tangible book gives an 8% buyback return, nine years by the rule of 72 and a premium over tangible book repaid in 0.5/0.12 years |
| InsurerBuybacks.TangibleFallsBackToBook | netlify/functions/insurer-buybacks.js:270-273 | without a tangible figure from the fundamentals or the key statistics, the tangible book per share is the book value per share |
| InsurerBuybacks.TickerMetricsMeaning | netlify/functions/insurer-buybacks.js:245-321 | the metrics record takes the first present price and share count, book and tangible book per share from the latest fundamentals entry with their fallbacks, the multiples, buyback return, paybacks, goodwill ratio, required return and red zone computed from those |
| InsurerBuybacks.MultiplesReadBack | netlify/functions/insurer-buybacks.js:276-281 | in an assembled record each present multiple times its per-share value gives back the price |
| InsurerBuybacks.TangibleMultipleIsBook | netlify/functions/insurer-buybacks.js:270-281 | without a tangible figure from the fundamentals or the key statistics the record's tangible book per share and multiple equal the book ones |
| InsurerBuybacks.RedZoneOfMetrics | netlify/functions/insurer-buybacks.js:283-297 | in an assembled record the buyback return is null exactly when the return on equity is, and with positive figures the red-zone delta is positive exactly when the buyback return falls short of the required return |
| InsurerBuybacks.GatherRecordsMetrics | netlify/functions/insurer-buybacks.js:366-379 | a fetched ticker adds exactly one result after those gathered so far, and no error; that result is the ticker's metrics record assembled from its summary, latest fundamentals entry and bucket |
| InsurerBuybacks.ResultsAssembled | netlify/functions/insurer-buybacks.js:363-387 | every result the handler gathers is the assembled metrics record of one of the requested tickers whose fetch succeeded |
| InsurerBuybacks.RequestedTickersMeaning | netlify/functions/insurer-buybacks.js:342-347 | the requested tickers have no duplicates and are exactly the trimmed non-empty parts of the `tickers` parameter, or every configured ticker when that parameter is absent or empty |
| InsurerBuybacks.GatherInBatches | netlify/functions/insurer-buybacks.js:363-387 | the batch loop, three tickers at a time, gathers the same results and errors in ticker order as handling the tickers one by one |
| InsurerBuybacks.GatherBatch | netlify/functions/insurer-buybacks.js:365-386 | one batch extends what was gathered for the tickers before it to what is gathered through its last ticker |
| InsurerBuybacks.GatherPartition | netlify/functions/insurer-buybacks.js:377-386 | every ticker lands in exactly one list: the results count the fetches that succeeded and the errors those that failed |
| InsurerBuybacks.Handle | netlify/functions/insurer-buybacks.js:340-401 | the response is the one built from gathering every requested ticker |
| InsurerBuybacks.HandlerStatus | netlify/functions/insurer-buybacks.js:389-390 | the status is 200 or 502, and 502 exactly when some requested ticker failed and none succeeded |
| WinterStormCompare.ChunkArray | netlify/functions/winter-storm-compare.js:15-21 | the loop builds exactly the slices of `size` elements taken from the front |
| WinterStormCompare.ChunksFlatten | netlify/functions/winter-storm-compare.js:15-21 | the slices put back together are the original array |
| WinterStormCompare.ChunksSizes | netlify/functions/winter-storm-compare.js:17-18 | no slice is empty or longer than `size`, and every slice but the last is full |
| WinterStormCompare.ChunksCount | netlify/functions/winter-storm-compare.js:17 | there are ceil(length / size) slices |
| WinterStormCompare.AggregateLocationData | netlify/functions/winter-storm-compare.js:49-108 | the single pass that buffers readings and closes a bucket every `interval` samples (or at the last one) yields the bucket-by-bucket aggregates of the series |
| WinterStormCompare.BufferSample | netlify/functions/winter-storm-compare.js:67-71 | buffering sample `i` extends the open bucket's readings by that sample, a missing snowfall read as 0, and stamps the bucket with its first non-empty time |
| WinterStormCompare.CountTemperature | netlify/functions/winter-storm-compare.js:73-77 | counting sample `i` keeps the sum and count of present temperatures and the hours below 0 equal to those of the first `i + 1` samples |
| WinterStormCompare.FlushBucket | netlify/functions/winter-storm-compare.js:79-101 | closing the bucket appends its step, adds its snowfall to the running total and opens an empty bucket at the next sample |
| WinterStormCompare.CloseBucketIfDue | netlify/functions/winter-storm-compare.js:79 | a bucket is closed exactly when `i + 1` is a multiple of the interval or `i` is the last sample; after the last sample no bucket is left open |
| WinterStormCompare.EmitBounds | netlify/functions/winter-storm-compare.js:79 | a bucket that starts on a multiple of the interval is closed exactly where it reaches the interval or the end of the series, and the next starts on a multiple again |
| WinterStormCompare.NoEmitBounds | netlify/functions/winter-storm-compare.js:79 | a bucket that is not closed stays shorter than the interval |
| WinterStormCompare.Aggregate | netlify/functions/winter-storm-compare.js:49-108 | the hours below freezing never exceed the number of samples |
| WinterStormCompare.StepCount | netlify/functions/winter-storm-compare.js:66-101 | a series of `n` samples yields ceil(n / interval) steps |
| WinterStormCompare.BucketCountIsCeiling | netlify/functions/winter-storm-compare.js:66-101 | the buckets from sample `lo` on number ceil((n - lo) / interval) |
| WinterStormCompare.StepCumulative | netlify/functions/winter-storm-compare.js:90-96 | a step's cumulative snowfall is the snowfall of every sample before its bucket plus the bucket's own |
| WinterStormCompare.SnowInSplit | netlify/functions/winter-storm-compare.js:90 | the snowfall readings of adjacent sample ranges concatenate |
| WinterStormCompare.CumulativeIsRunningTotal | netlify/functions/winter-storm-compare.js:91-96 | the cumulative snowfall runs from 0 through the steps, each step adding its own snowfall |
| WinterStormCompare.LastCumulativeIsTotal | netlify/functions/winter-storm-compare.js:104 | a non-empty series has steps, and the last step's cumulative snowfall is the series total |
| WinterStormCompare.BelowFreezingAtMostPresent | netlify/functions/winter-storm-compare.js:73-77 | only a present temperature can count as an hour below freezing |
| WinterStormCompare.MeanMissing | netlify/functions/winter-storm-compare.js:89-105 | an average is missing exactly when no temperature reading is present |
| WinterStormCompare.TemperatureTotals | netlify/functions/winter-storm-compare.js:73-105 | the hours below freezing never exceed the present readings, and the series average is missing exactly when every reading is |
| WinterStormCompare.FirstTimeInEmpty | netlify/functions/winter-storm-compare.js:71 | a step has the empty time exactly when every timestamp of its bucket is empty |
| WinterStormCompare.FirstTimeInIsFirst | netlify/functions/winter-storm-compare.js:71 | a step is stamped with the first non-empty timestamp of its bucket |
| WinterStormCompare.BuildEventSteps | netlify/functions/winter-storm-compare.js:110-145 | the loop builds one event step per step of the first location, none without locations |
| WinterStormCompare.BuildEventStep | netlify/functions/winter-storm-compare.js:116-141 | one event step gathers step `i` of every location, with the averages over all locations of the present values |
| WinterStormCompare.AddLocation | netlify/functions/winter-storm-compare.js:122-133 | adding location `k` extends both columns by its value of step `i`, `null` when it has no such step, and adds it (0 when missing) to the sums |
| WinterStormCompare.EventStepsMeaning | netlify/functions/winter-storm-compare.js:110-145 | the event steps lay the locations side by side: one per step of the first location, stamped with its time, holding one cell per location that is that location's value or null when it has fewer steps |
| WinterStormCompare.FetchLocationData | netlify/functions/winter-storm-compare.js:23-47 | a location's data is fetched exactly when the reply is ok and has an hourly series, and is that series; every failure has a message |
| WinterStormCompare.FetchAllMeaning | netlify/functions/winter-storm-compare.js:176-185 | the fetch succeeds exactly when every location's does, and then holds each location's series in location order |
| WinterStormCompare.FetchAllErrorStays | netlify/functions/winter-storm-compare.js:180-185 | once a location fails, fetching more locations keeps that failure |
| WinterStormCompare.FetchAllErrorNamed | netlify/functions/winter-storm-compare.js:32-38 | a failed fetch carries a non-empty message |
| WinterStormCompare.FetchBatch | netlify/functions/winter-storm-compare.js:181-184 | one batch extends the outcome of the locations before it to the outcome through its last location |
| WinterStormCompare.BatchFailed | netlify/functions/winter-storm-compare.js:180-185 | a failed batch decides the outcome of the whole request |
| WinterStormCompare.FetchInBatches | netlify/functions/winter-storm-compare.js:176-185 | fetching in batches of five gives the same outcome as fetching the locations one by one |
| WinterStormCompare.SummarizeAll | netlify/functions/winter-storm-compare.js:187-199 | the loop builds one summary per fetched location, in order |
| WinterStormCompare.SummariesAt | netlify/functions/winter-storm-compare.js:187-199 | summary `k` holds location `k`'s identity and the aggregates of its series |
| WinterStormCompare.Interval | netlify/functions/winter-storm-compare.js:165-174 | the interval is the requested one (6 when absent) raised to at least 1 |
| WinterStormCompare.Handler | netlify/functions/winter-storm-compare.js:147-221 | the handler's early returns, batch loop and summary loop answer exactly as the response function whose statuses `HandlerOutcome` characterises |
| WinterStormCompare.HandlerOutcome | netlify/functions/winter-storm-compare.js:147-221 | the status is 405 exactly for a method other than POST, 400 exactly for a body that is not JSON or lacks dates or locations, 200 exactly when every location can be fetched, and otherwise 500 with a message; a 200 holds one summary per location |
| WinterStormCompare.SummaryOfLocation | netlify/functions/winter-storm-compare.js:187-199 | in a 200 response, summary `k` is location `k` with the aggregates of its hourly series at the requested interval |
| WinterStormData.ValidateDateParam | netlify/functions/winter-storm-data.js:80-87 | a date parameter is kept, unchanged, exactly when it is present, non-empty, shaped `dddd-dd-dd` and accepted by the `Date` constructor |
| WinterStormData.LexLeDigits | netlify/functions/winter-storm-data.js:206 | digit strings of equal length compare as strings exactly as the numbers they spell compare |
| WinterStormData.DateOrderIsChronological | netlify/functions/winter-storm-data.js:206 | for date-shaped strings, JavaScript's string comparison is chronological order: year first, then month, then day |
| WinterStormData.SnowfallSeries | netlify/functions/winter-storm-data.js:134 | a missing snowfall array gives an empty series, and a present one a series of the same length |
| WinterStormData.InchesOfAt | netlify/functions/winter-storm-data.js:134 | a missing reading becomes 0 and a present one its inch conversion |
| WinterStormData.FetchAllLocations | netlify/functions/winter-storm-data.js:139-166 | the batch loop collects the same results and error messages, in grid order, as handling the grid locations one by one |
| WinterStormData.CollectResults | netlify/functions/winter-storm-data.js:152-158 | the results are the data of exactly the fulfilled grid locations, in grid order |
| WinterStormData.CollectPartition | netlify/functions/winter-storm-data.js:152-158 | each grid location lands in exactly one list: as many results as fulfilled requests and as many errors as rejected ones |
| WinterStormData.Handler | netlify/functions/winter-storm-data.js:168-252 | the handler's early returns and batch loop answer exactly as the response function whose 400s `DateDecisions` and whose 200/502 `ServedOutcome` characterise |
| WinterStormData.DateDecisions | netlify/functions/winter-storm-data.js:189-215 | a GET is answered 400 exactly when a date is missing or malformed or the start comes after the end; any other GET has two date-shaped dates in order |
| WinterStormData.ServedOutcome | netlify/functions/winter-storm-data.js:218-252 | once both dates pass, the status is 502 exactly when no grid location succeeded and 200 otherwise, a 200 counting the succeeded locations and the failures, which together are the whole grid |
| PropertyCasualtyMetrics.Change | tools/property-casualty-dashboard/generate_data.py:64 | the change is finite exactly when the reference is non-zero, and then compounds the reference into the last value |
| PropertyCasualtyMetrics.ChangeOfPositive | tools/property-casualty-dashboard/generate_data.py:64 | between two positive prices the change is finite, above -1, positive exactly for a rise and 0 exactly for no move |
| PropertyCasualtyMetrics.Present | tools/property-casualty-dashboard/generate_data.py:61 | dropping missing values never lengthens the series |
| PropertyCasualtyMetrics.PresentMissing | tools/property-casualty-dashboard/generate_data.py:61 | a missing observation leaves nothing |
| PropertyCasualtyMetrics.MissingIgnored | tools/property-casualty-dashboard/generate_data.py:60-82 | a missing observation inserted anywhere does not change the cleaned series |
| PropertyCasualtyMetrics.PeriodReturnMeaning | tools/property-casualty-dashboard/generate_data.py:60-64 | the return is missing exactly when at most `periods` values are present; a finite one compounds the value `periods` positions before the last into the last; a missing observation changes nothing |
| PropertyCasualtyMetrics.PeriodReturnOfPositive | tools/property-casualty-dashboard/generate_data.py:60-64 | over positive prices with enough values the return is finite, above -1, and positive exactly when the last price is above the reference |
| PropertyCasualtyMetrics.FirstOfYear | tools/property-casualty-dashboard/generate_data.py:72-75 | the position found is the first quote dated in the year, and there is none exactly when no quote is |
| PropertyCasualtyMetrics.YtdReturnMeaning | tools/property-casualty-dashboard/generate_data.py:67-78 | a non-empty series always has a quote in its last year; the return is missing exactly for an empty series or a zero first value of that year, and otherwise compounds that value into the last |
| PropertyCasualtyMetrics.Peak | tools/property-casualty-dashboard/generate_data.py:85 | the running maximum at the end is a value of the series no smaller than any other |
| PropertyCasualtyMetrics.DrawdownAt | tools/property-casualty-dashboard/generate_data.py:85-86 | the drawdown at position `k` is the change from the maximum of the first `k + 1` values to value `k` |
| PropertyCasualtyMetrics.Lowest | tools/property-casualty-dashboard/generate_data.py:87 | the minimum is non-finite exactly when some drawdown is, and otherwise is one of the drawdowns and no larger than any |
| PropertyCasualtyMetrics.DrawdownStepBounds | tools/property-casualty-dashboard/generate_data.py:85-86 | over positive prices every drawdown is finite and in (-1, 0], and 0 exactly at a running high |
| PropertyCasualtyMetrics.DrawdownBounds | tools/property-casualty-dashboard/generate_data.py:81-87 | the maximum drawdown of positive prices is finite, in (-1, 0], and 0 exactly when the prices never fall |
| PropertyCasualtyMetrics.FieldOf | tools/property-casualty-dashboard/generate_data.py:97-101 | the value is that of the first key, in the given order, that is present and not None, and is missing exactly when no key is |
| PropertyCasualtyMetrics.NormalizeDividendYield | tools/property-casualty-dashboard/generate_data.py:104-109 | None stays None; a yield above 1 is a percentage and comes out a hundredth of it; any other yield is kept |
| PropertyCasualtyMetrics.DividendYieldIsFraction | tools/property-casualty-dashboard/generate_data.py:104-109 | a yield from 0 to 100 comes out a fraction from 0 to 1, and normalizing it again changes nothing |
| PropertyCasualtyMetrics.ExtremePct | tools/property-casualty-dashboard/generate_data.py:185-190 | the distance from a 52-week extreme is missing exactly when the extreme is missing or 0, and otherwise compounds the extreme into the last price |
| PropertyCasualtyMetrics.ExtremePctSigns | tools/property-casualty-dashboard/generate_data.py:185-190 | a positive price at or below a positive high lies a fraction below it, and one at or above a positive low lies at or above it |
| PncReturns.CalculateReturns | tools/pnc-insurance-dashboard/data_fetch.py:48-54 | a return exists exactly when the reference position is given and non-negative and its close is present and non-zero, and then compounds that close into the current one |
| PncReturns.Closes | tools/pnc-insurance-dashboard/data_fetch.py:83 | the close column has one present close per row, in row order |
| PncReturns.FirstFromYear | tools/pnc-insurance-dashboard/data_fetch.py:86-89 | the position found is the first row dated in the year or later, and there is none exactly when every row is earlier |
| PncReturns.LookbackReturn | tools/pnc-insurance-dashboard/data_fetch.py:93-95 | a lookback of `L` days has no return with at most `L` closes or a zero close `L` days back, and otherwise compounds that close into the last |
| PncReturns.YtdReturn | tools/pnc-insurance-dashboard/data_fetch.py:85-92 | the YTD return is missing exactly when no row is dated in the current year or later or the first such close is 0, and otherwise compounds that close into the last |
| PncReturns.ReturnsByPeriod | tools/pnc-insurance-dashboard/data_fetch.py:82-95 | the table has exactly one entry per period name, holding the return of the last period with that name |
| PncReturns.Record | tools/pnc-insurance-dashboard/data_fetch.py:84-95 | one step of the loop stores the period's return under its name and keeps the table's meaning for the periods so far |
| PncReturns.NothingDropped | tools/pnc-insurance-dashboard/data_fetch.py:77-83 | once rows without a close are dropped, cleaning the closes again drops nothing and keeps each row's year and close |
| PncReturns.LookbackAgrees | tools/pnc-insurance-dashboard/data_fetch.py:48-95 | both dashboards take a fixed-lookback return from the close the same number of trading days back and agree on it, except on a zero reference close, missing here and non-finite in the property and casualty dashboard |
| PncReturns.YtdAgrees | tools/pnc-insurance-dashboard/data_fetch.py:85-92 | for a history in date order whose last row lies in the current year, both dashboards give the same YTD return |

## Left out

- Network I/O: every upstream request (SPC files, the BLS API, Treasury CSVs, FRED, Open-Meteo, Yahoo Finance) is a function parameter returning a value or a failure; timeouts, `AbortController`, `sleep` and retries are not modelled.
- Concurrency: `mapWithConcurrency`, `Promise.all` and `Promise.allSettled` are modelled as sequential maps that preserve order; interleavings and timing are not modelled.
- HTTP shells: headers (CORS, `Cache-Control`, `Content-Type`) and the `JSON.stringify` bodies are not modelled; the statuses and the body fields the table names are.
- Source URLs in the bodies are not modelled: the storm reports' `source` is the candidate file name in the model, where the source serves `REPORTS_BASE_URL` followed by it (netlify/functions/spc-storm-reports.js:191, 202, 341); `TornadoTrends.Trends` carries no `source` (`primarySource`, netlify/functions/spc-tornado-trends.js:518-531), and the daily-built year's `source` (netlify/functions/spc-tornado-trends.js:220) is dropped. They are fixed text built from constants.
- The clock: `new Date()`, `Date.now`, `isDateRecent` and the cutoff computations are parameters (today, the current year, the cutoff, whether the end date is recent).
- JavaScript `Date` string parsing (`new Date(text)`) is a parameter; only its verdict and the resulting day are used.
- Floating point: numbers are exact reals, so IEEE rounding, `NaN` and `Infinity` are not modelled except where stated below; `parseFloat`, `Number(...)` and `extractNumeric` are abstract partial functions.
- Standard deviation and square roots: `computeAnnualizedVolatility` in pcd-dashboard.js and `annualized_volatility` in generate_data.py are not modelled.
- `toBasisPoints` and the `toFixed` scaling in yield-curves.js, `fetchFredSeries` and `resolveTreasuryYears` are not modelled; the handler sees only whether the FRED request succeeded.
- `localeCompare` is modelled as code-point order of the strings, not locale collation.
- Calendar: the model's calendar is the proleptic Gregorian calendar for every year. `Date.UTC`'s reading of years 0 to 99 as 1900 to 1999 is modelled (`Calendar.FullYear`, used by `Calendar.DateUtc`); `toISOString`'s six-digit years outside 0 to 9999 are not modelled.
- The `globalThis` sharing of the current-year cache across invocations is not modelled; a single cache object is.
- Configuration tables (`TICKERS`, `REQUIRED_RETURN_BUCKETS`, `GRID_LOCATIONS`, `LOCATIONS`, `MATURITY_MAP`, `FRED_SERIES`) are parameters.
- The catch-all `500` answers of the handlers' outer `try` blocks are modelled where a modelled step fails with a status; a `TypeError` the source would throw on malformed upstream data (see the `WinterStormCompare.AggregateLocationData` line) is not modelled, so neither is the `500` it leads to.
- The rendering of the Yahoo Finance responses in pcd-dashboard.js's `fetchTickerData` is not modelled beyond the helpers listed in the table.
- `safeNumber` (insurer-buybacks.js) is not modelled as a function: every numeric field the buyback metrics read is an `Option<real>` input, with `None` standing for what `safeNumber` turns into `null` (absent, `null`, or not a finite number).
- InsurerBuybacks.TickerMetrics: the price is the first present of the regular, post-market and pre-market prices; the source applies `safeNumber` after the `??` chain, so a present but non-numeric regular price gives `null` there.
- InsurerBuybacks.Handle: the metrics of a fetched ticker come from a parameter that stands for `fetchTickerData`'s metrics block (`TickerMetrics`); the thrown errors of the Yahoo Finance calls are the failures of the fetch parameter.
- PcdDashboard.ComputeMaxDrawdown: when the running peak is 0 and a later value is negative, JavaScript divides by zero and gets `-Infinity`; the model only updates the drawdown while the peak is positive.
- PropertyCasualtyMetrics.Lowest: a drawdown with a zero running maximum is non-finite, and the minimum is then non-finite; pandas' `min` skips a `NaN` (0/0) but not `-inf`, so the two differ when the only non-finite drawdowns are `NaN`.
- PropertyCasualtyMetrics.Change: a zero reference gives a non-finite float without distinguishing `inf` from `NaN`.
- PncReturns.PeriodReturn: an empty price history makes the source raise an `IndexError` at `iloc[-1]`; the model requires a non-empty history.
- WinterStormCompare.Interval: `Number(intervalHours)` of a non-numeric or fractional value (`NaN`, or a fractional bucket size) is not modelled; the interval is an integer. A JSON `null` is not the absent field either: the destructuring default applies only to `undefined`, so `null` gives `Math.max(1, Number(null))`, which is 1, while absence (`None`) gives 6; the model has no separate `null`, and the request decoding, which is not part of this model, must pass `null` as `Some(0)` to get 1.
- WinterStormCompare.AggregateLocationData: temperature readings are present or missing, and `NaN` readings are not modelled. The hourly series is taken as three arrays that are always there. When Open-Meteo's reply lacks `temperature_2m` or `snowfall` altogether, the source's `temp[i]` or `snow[i]` throws a `TypeError` on the first sample (winter-storm-compare.js:66-67), and the handler's `catch` answers 500 (winter-storm-compare.js:215-219); the model does not capture that 500. An array shorter than `time` reads as missing readings past its end, as in the source.
- WinterStormCompare.FetchLocationData: the request URL (`buildUrl`) is not modelled; the reply's message is not inspected beyond being non-empty.
- WinterStormData.SnowfallSeries: the centimetre-to-inch conversion `+(v * 0.3937).toFixed(3)` is a parameter.
- WinterStormData.Handler: the upstream error messages are opaque strings, and the catch-all `500` is not modelled.
- The browser UI of the winter-storm comparison tool is not part of this model.
- The Python `main` functions' downloads (pandas and yfinance), `ffill`/`reindex`, volume averages and JSON file writes are not modelled.
- Bls.FetchYears: the chunk size `BLS_YEAR_SPAN` is an integer of at least 1, a requirement of `Bls.Chunks`, `Bls.FetchYears`, `Bls.Answer`, `Bls.Handler` and `Bls.Handle`. The source reads `Number(process.env.BLS_YEAR_SPAN || 10)` and checks nothing: a setting of 0 or a negative number makes the chunk loop at netlify/functions/bls-proxy.js:146 run forever; a fractional one gives fractional year bounds; a non-numeric one (`NaN`) runs a single chunk whose end year is sent as "NaN". None of these deployments is modelled.
- InsurerBuybacks.NormalizeTickerKey: model strings are sequences of Unicode scalar values, while the JavaScript regular expression (no `u` flag) replaces UTF-16 code units. A ticker holding a character outside the Basic Multilingual Plane becomes two `_` in the source and one in the model, so the "same length" promise is about the model's strings, not the code-unit length of such input.
