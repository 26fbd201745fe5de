# OpenAQ sensor-hour ingestion, modelled in Dafny

This project models the ingestion core of `Ingestion.py`, the `OpenAQDataFetcher`
class that downloads hourly air-quality summaries from the OpenAQ v3 API and
writes them to a partitioned CSV tree. It covers four pieces:

- **Pagination and aggregation** in `get_data`. The model requests pages 1, 2, ... with
  `limit=1000`. It stops on `meta.found == 0` or on a page shorter than the limit. It counts
  every answered request in `total_api_calls`, appends the `Timestamp` column and the nine
  statistic columns page by page, and takes the pollutant and unit from the first record of
  page 1.
- **Output partitioning.** A table is written only when something was gathered. It goes to
  `AQ_data/Sacremento/<location>/<sensor>/<datetime_from[:4]>/<datetime_to.split("-")[1]>/<pollutant>_<sensor>.csv`.
- **Query enumeration** in `get_sensor_data`:
  - keep the sensors with truthy `coverage`;
  - read their first and last years with `int(utc[:4])`;
  - walk every year of the inclusive range, sensor by sensor;
  - run the `YYYY-01-01..YYYY-06-30` and `YYYY-07-01..YYYY-12-31` queries of each year;
  - retry a pair that raised exactly once, with no further catch;
  - count the sensor-list request once.
- **Location-name sanitisation** from the main block: `:` and space become `_`, and
  `, - ( ) .` are dropped.

Layout:

| file | module | contents |
|---|---|---|
| `wrappers.dfy` | `Wrappers` | `Option`, `Result` |
| `text.dfy` | `Text` | `split`/join, slicing, `str(int)` and `int(str)` with their round trips |
| `location_names.dfy` | `LocationNames` | the `.replace` chain and its properties |
| `readings.dfy` | `Readings` | records, the column buffer, page-by-page aggregation |
| `partition.dfy` | `Partition` | output directory, file name, static columns |
| `pagination.dfy` | `Pagination` | the `get_data` loop as a function of the endpoint's responses (`WalkFrom`, `FetchSpec`) and its properties |
| `enumeration.dfy` | `Enumeration` | the `get_sensor_data` loops and retry as functions (`Attempt`, `Retried`, `Sweep`, `SensorRun`) and their properties |
| `ingestion.dfy` | `Ingestion` | the imperative class `OpenAQDataFetcher` with its mutable `totalApiCalls`, and the endpoint `HoursEndpoint` |

The methods of `OpenAQDataFetcher` are loops and state updates, in the source's form. Each
one is proved equal to the specification function of the old state: the same tables,
exception, counter, request log and remaining responses. The properties are proved about
those functions.

The remote hours endpoint is a class that holds a transcript of responses. Each request
consumes the next response. A used-up transcript answers with a transport failure. So the
`while True` loop terminates on the number of responses left, and no precondition is needed.

The statistic columns are not kept aligned with the `Timestamp` column. Each page adds a
value to a statistic's column only for the records whose `summary` has that key
(`Ingestion.py:57`, `63`). The columns therefore have equal lengths only when every record
carries every statistic. The model follows this behaviour (`Readings.ColumnsShape`).

## Model

| member | source | states |
|---|---|---|
| Ingestion.HoursEndpoint.Get | Ingestion.py:37-44 | a request is logged and answered with the next response of the transcript, or fails once the transcript is used up |
| Ingestion.OpenAQDataFetcher.constructor | Ingestion.py:20-23 | the API key goes into the `X-API-Key` header and the counter starts at 0 |
| Ingestion.OpenAQDataFetcher.FetchPages | Ingestion.py:30-72 | the loop leaves the buffer of every processed page, the page-1 metadata, the loop's exception, the counter raised by the answered requests and the request log, all as `WalkFrom` of the old transcript says |
| Ingestion.OpenAQDataFetcher.GetData | Ingestion.py:25-93 | `get_data` returns the written table, the counter when nothing was gathered, or the exception, with counter and log as `FetchSpec` says |
| Ingestion.OpenAQDataFetcher.RunHalfYears | Ingestion.py:114-129 | the first half-year query, then the second unless the first raised, as `Attempt` says |
| Ingestion.OpenAQDataFetcher.RunYear | Ingestion.py:114-157 | the pair, and after an exception the pair once more with nothing caught, as `Retried` says |
| Ingestion.OpenAQDataFetcher.RunSensor | Ingestion.py:113-157 | the years of one sensor in order, stopping at an exception that escapes a retry, as `Sweep` over `YearJobs` says |
| Ingestion.OpenAQDataFetcher.RunSensors | Ingestion.py:111-157 | the covered sensors in listing order, each over its years, as `Sweep` over `Jobs` says |
| Ingestion.OpenAQDataFetcher.GetSensorData | Ingestion.py:95-157 | a failed listing raises with nothing counted; otherwise the listing counts once, a bad year raises, and the sweep runs, as `SensorRun` says |
| Pagination.RequestFor | Ingestion.py:37 | the page request of the URL: sensor, window, `limit=1000` and the page number; its use is pinned down by `WalkRequestsInOrder` |
| Pagination.WalkFrom | Ingestion.py:36-72 | the `while True` loop as a function of the responses still to come: pages processed, why it stopped, requests issued, requests counted; properties in `WalkStep`, `WalkRequestsInOrder`, `WalkStopsAfterShortPage`, `WalkCounts` |
| Pagination.Conclude | Ingestion.py:75-93 | the end of `get_data`: the loop's exception, the counter when nothing was gathered, or the table; its own contract says the returned counter includes the loop's requests; the rest is in `FetchWritesOnlyWithData`, `FetchSavedTable` |
| Pagination.FetchSpec | Ingestion.py:25-93 | `get_data` as a whole; properties in `FetchWritesOnlyWithData`, `FetchSavedTable`, `MetaFromFirstPageOnly`, `ExampleThreePages` |
| Pagination.WalkStep | Ingestion.py:36-72 | one iteration: a failed request stops with its exception, `found == 0` stops, an empty page 1 raises, a short page is processed and stops, and a full page is processed and the loop moves to the next page |
| Pagination.WalkRequestsInOrder | Ingestion.py:31-72 | requests go to pages 1, 2, ... of the same query with limit 1000, one per processed page plus the one that stopped the loop, unless the loop stopped on a short page |
| Pagination.WalkStopsAfterShortPage | Ingestion.py:36-72 | every processed page but the last is full; the last is short exactly when it stopped the loop; processed pages are the first responses' results, each with `found != 0` |
| Pagination.WalkCounts | Ingestion.py:38-48 | the counter rises once per request that did not raise: once per processed page, plus once for a `found == 0` page or an empty first page |
| Pagination.FetchWritesOnlyWithData | Ingestion.py:46-93 | a table is written exactly when some page was processed, nothing raised and `datetime_to` has a second field; `found == 0` on page 1 makes one counted request and returns the counter |
| Pagination.FetchSavedTable | Ingestion.py:50-90 | a written table holds the columns of all records of all processed pages in order, with as many timestamps as results, and the pollutant, unit and file name of the first record of page 1 |
| Pagination.MetaFromFirstPageOnly | Ingestion.py:50-52 | later pages never change the pollutant or unit: transcripts sharing the first response write the same ones |
| Pagination.ExampleThreePages | Ingestion.py:36-72 | two full pages and one of 400 give three counted requests and a table of 2400 rows |
| Readings.Timestamps | Ingestion.py:53 | one timestamp per record, in record order |
| Readings.StatColumn | Ingestion.py:57 | at most one value per record, and exactly one per record iff every record carries the statistic |
| Readings.Columns | Ingestion.py:53-58 | a buffer has exactly the nine statistic columns; it is also what page 1 assigns (`CollectFirst`), and `CollectIsColumns` shows the whole loop gives the columns of all records |
| Readings.Extend | Ingestion.py:60-64 | extending keeps exactly the nine statistic columns |
| Readings.Collect | Ingestion.py:50-64 | the page-by-page buffer has exactly the nine statistic columns |
| Readings.CollectFirst | Ingestion.py:50-58 | the first page assigns the columns |
| Readings.CollectNext | Ingestion.py:59-64 | every later page extends the columns gathered so far |
| Readings.TimestampsAppend | Ingestion.py:60 | the timestamps of two runs of records are the timestamps of each, concatenated |
| Readings.StatColumnAppend | Ingestion.py:63-64 | the same for every statistic column |
| Readings.ExtendColumns | Ingestion.py:59-64 | extending the columns of some records by a page gives the columns of all those records |
| Readings.CollectIsColumns | Ingestion.py:53-64 | gathering page by page equals taking the columns of all records at once, in page order, then record order |
| Readings.FlattenLength | Ingestion.py:53-60 | the records of all pages number the sum of the page lengths |
| Readings.ColumnsShape | Ingestion.py:56-64 | one timestamp per record; each statistic column at most that long, and all equally long iff every record carries every statistic |
| Partition.OutputDirectory | Ingestion.py:87 | a path exists iff `datetime_to` contains `-`; it has six segments, the year segment is `datetime_from[:4]` and the month segment contains no `-` |
| Partition.Persist | Ingestion.py:75-90 | a table is formed iff the path can be formed; it carries the buffer and the page-1 pollutant and unit |
| Partition.FileName | Ingestion.py:89 | `<pollutant>_<sensor>.csv`; `FetchSavedTable` shows the pollutant is that of page 1's first record |
| Partition.StaticsOf | Ingestion.py:78-86 | the static columns: pollutant, location, coordinates, unit, sensor, `Sacremento`, `California`, country; `Persist` and `FetchSavedTable` state the pollutant and unit |
| Partition.ExampleDirectory | Ingestion.py:87-89 | `("2021-01-01", "2021-06-30")` for sensor 42 lands in `AQ_data/Sacremento/<location>/42/2021/06` |
| Enumeration.Covered | Ingestion.py:105 | the kept sensors are exactly the listed sensors with coverage |
| Enumeration.ParseYears | Ingestion.py:106-107 | the years parse iff every `utc[:4]` is an integer, and then each year is that integer |
| Enumeration.YearJobs | Ingestion.py:108-113 | the years of a sensor run from first to last inclusive, in order |
| Enumeration.YearOf | Ingestion.py:106-107 | `int(utc[:4])`; used by `ParseYears`, and `Text.ParseInt` states when it succeeds |
| Enumeration.Jobs | Ingestion.py:108-113 | both loops: every sensor in order, every year of its range in order; properties in `JobsEnumerate`, `JobsNext` |
| Enumeration.LocationJobs | Ingestion.py:105-108 | the coverage filter, the year parsing and the enumeration together, or the first bad year; properties in `LocationJobsCovered` |
| Enumeration.FirstHalf | Ingestion.py:115-121 | the `YYYY-01-01..YYYY-06-30` query; its directory is in `HalfYearDirectories` |
| Enumeration.SecondHalf | Ingestion.py:123-129 | the `YYYY-07-01..YYYY-12-31` query; its directory is in `HalfYearDirectories` |
| Enumeration.Attempt | Ingestion.py:114-129 | the `try` body: the first query, then the second unless the first raised; properties in `AttemptRequestOrder`, `AttemptFilesUnder` |
| Enumeration.Retried | Ingestion.py:114-157 | the `try` and its `except`; properties in `RetriedAtMostOnce`, `NoRetryAfterSuccess`, `RetriedFilesUnder` |
| Enumeration.Sweep | Ingestion.py:111-157 | the jobs in order until an exception escapes a retry; properties in `SweepFirst`, `SweepAppend`, `SweepFilesUnder` |
| Enumeration.SensorRun | Ingestion.py:95-157 | `get_sensor_data`: a failed listing raises uncounted, a listing counts once, a bad year raises, otherwise the sweep; properties in `SensorRunFilesCovered` |
| Enumeration.YearJobsNext | Ingestion.py:113 | a sensor's year loop starts with its first year |
| Enumeration.JobsNext | Ingestion.py:111-113 | the sensor loop takes sensor k's years, then the rest |
| Enumeration.SweepFirst | Ingestion.py:113-157 | one year runs with its retry; an escaping exception ends the loops |
| Enumeration.SweepAppend | Ingestion.py:111-157 | running two lists of years one after the other is running their concatenation |
| Enumeration.JobsEnumerate | Ingestion.py:108-113 | a (sensor, year) pair is visited iff some sensor has that id and the year lies in its inclusive range |
| Enumeration.LocationJobsCovered | Ingestion.py:105-113 | a pair is visited iff some listed sensor with coverage spans it |
| Enumeration.AttemptRequestOrder | Ingestion.py:115-129 | an attempt requests the first half-year query's pages 1, 2, ... and then the second's, again from page 1 |
| Enumeration.RetriedAtMostOnce | Ingestion.py:114-157 | the exception escapes iff the attempt and its single retry both raised; after a failed attempt the pair runs once more |
| Enumeration.NoRetryAfterSuccess | Ingestion.py:114-136 | a pair that succeeds is not retried |
| Enumeration.HalfYearDirectories | Ingestion.py:116-125 | for four-digit years, the two half-year queries land under `<year>/06` and `<year>/12` |
| Enumeration.FetchFileUnder | Ingestion.py:87 | a written table lies under its query's location and sensor |
| Enumeration.AttemptFilesUnder | Ingestion.py:115-129 | every table of an attempt lies under the job's sensor |
| Enumeration.RetriedFilesUnder | Ingestion.py:114-157 | every table of a year, retry included, lies under the job's sensor |
| Enumeration.SweepFilesUnder | Ingestion.py:111-157 | every table of a sweep lies under the sensor of one of its jobs |
| Enumeration.SensorRunFilesCovered | Ingestion.py:95-157 | `get_sensor_data` writes only under the location's directory, and only for listed sensors with coverage |
| Text.Prefix | Ingestion.py:87 | `s[:n]` has length min(n, len(s)) and is a prefix of `s` |
| Text.Split | Ingestion.py:87 | `split` gives at least one field and no field contains the separator |
| Text.JoinSplit | Ingestion.py:87 | joining the fields of `split` restores the string |
| Text.SplitJoin | Ingestion.py:87 | splitting a join of separator-free fields restores the fields |
| Text.SplitAfterField | Ingestion.py:87 | a separator-free first field followed by the separator splits off as one field |
| Text.SplitHasSecondField | Ingestion.py:87 | `split("-")[1]` exists iff the string contains `-` |
| Text.Replace | Ingestion.py:171 | `.replace` leaves no occurrence of the character when the replacement lacks it, and brings in no new characters |
| Text.ReplaceAppend | Ingestion.py:171 | `.replace` works character by character |
| Text.NatToString | Ingestion.py:87 | `str(n)` is a non-empty run of digits without a leading zero |
| Text.IntToString | Ingestion.py:116 | `str(n)` of a non-negative number is all digits |
| Text.ParseInt | Ingestion.py:106 | `int(s)` succeeds iff `s` is digits with an optional sign |
| Text.IntToStringRoundTrip | Ingestion.py:106-116 | `int(str(n)) == n` |
| Text.NatToStringRoundTrip | Ingestion.py:106-116 | the digits of `str(n)` read back as `n` |
| Text.FourDigitYear | Ingestion.py:116 | a year in 1000..9999 prints as four characters |
| LocationNames.Sanitize | Ingestion.py:171 | the seven `.replace` calls in their order; properties in `SanitizeIsCharwise`, `SanitizeStrips`, `SanitizeFixpoint`, `SanitizeIdempotent` |
| LocationNames.SanitizeIsCharwise | Ingestion.py:171 | the replace chain equals mapping each character on its own |
| LocationNames.SanitizeAppend | Ingestion.py:171 | sanitising a concatenation sanitises each part |
| LocationNames.SanitizeStrips | Ingestion.py:171 | the result contains none of `: , - ( ) .` or space, and is never longer than the input |
| LocationNames.SanitizeFixpoint | Ingestion.py:171 | a name is unchanged iff it has none of those characters |
| LocationNames.SanitizeIdempotent | Ingestion.py:171 | sanitising twice is sanitising once |

## Left out

- The `X-API-Key` header is kept in the fetcher, but the endpoint's request log does not record it. It never changes after construction.
- HTTP, `raise_for_status` and JSON decoding: the hours endpoint is a transcript of responses. A failed request, network or status, is one `Refused` response.
- The sensor-list request is a parameter of `GetSensorData` (a listing, or a failure). It is not part of the hours transcript.
- A JSON decoding error after the counter increment is not modelled; every answered request has a well-formed body.
- Malformed record fields are not modelled: missing `parameter`, `period` or `datetimeTo` keys, or a `summary` that is not a mapping.
- Credentials loading and the `Sacremento_response.json` seed file are left out (file I/O).
- The main loop over locations (`Ingestion.py:168-176`) is left out. Only its name sanitisation is modelled. Its `latitude`/`longitude` truthiness test is not modelled, because coordinates are opaque pass-through values.
- `time.time()`, `time.sleep` and the progress printing are left out. The pauses of 2, 120 and 30 seconds are named constants only.
- The pandas DataFrame, `mkdir` and `to_csv` are left out. Persistence returns the path segments, the file name, the buffer and the static columns. pandas rejects columns of unequal lengths; that error is not modelled, so such a table counts as written.
- Path normalisation by `pathlib` is not modelled. The directory is kept as its list of segments.
- Statistic values and coordinates are opaque types, not floats.
- `Text.ParseInt` does not model `int()` accepting surrounding whitespace, digit-group underscores or non-ASCII decimal digits: it accepts only an optional sign and ASCII digits.
- `Enumeration.HalfYearDirectories` is proved only for years 1000..9999. For other years, `datetime_from[:4]` is not the year; the general case is covered by `Partition.OutputDirectory`.
- The Dash visualization app is not part of this model.
