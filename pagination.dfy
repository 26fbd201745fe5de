/** The pagination loop of `get_data`, stated as a function of the responses
    the hours endpoint gives to successive requests. */
module Pagination {
  import opened Wrappers
  import opened Readings
  import opened Partition

  /** One request to `/v3/sensors/{id}/hours` with its query parameters. */
  datatype PageRequest = PageRequest(sensorId: int, datetimeFrom: string, datetimeTo: string, limit: int, page: int)

  /** What a request brings back: a failure (network error or a non-2xx
      status, which `raise_for_status` turns into an exception) or a body. */
  datatype Response = Refused | Answer(body: Page)

  /** Why the loop ended. */
  datatype Stop =
    | NoneFound                      // `meta.found == 0`
    | ShortPage                      // fewer than Limit results
    | NoFirstRecord                  // page 1 found readings but has no results[0]
    | Failed(request: PageRequest)   // the request raised

  /** The pages processed (their results), why the loop stopped, every
      request issued in order, and how many of them the counter counted. */
  datatype Walk = Walk(pages: seq<seq<Record>>, stop: Stop, requests: seq<PageRequest>, counted: nat)

  /** The errors the pipeline can raise. */
  datatype Error =
    | Transport(request: PageRequest)   // HTTP failure on a page request
    | MissingFirstRecord                // IndexError on `results[0]` of page 1
    | NoMonthField(datetimeTo: string)  // IndexError on `datetime_to.split("-")[1]`
    | ListingRefused(locationId: int)   // HTTP failure on the sensor list
    | BadYear(text: string)             // ValueError from `int(...[:4])`

  /** What one `get_data` call ends with: a written table, nothing found (the
      call then returns the counter), or an exception. */
  datatype Outcome = Saved(file: OutputFile) | NoData(totalApiCalls: int) | Raised(error: Error)

  /** One `get_data` call: its outcome, the requests it issued and how much it
      added to the counter. */
  datatype Fetch = Fetch(outcome: Outcome, requests: seq<PageRequest>, counted: nat)

  function RequestFor(q: Query, page: int): PageRequest {
    PageRequest(q.sensorId, q.datetimeFrom, q.datetimeTo, Limit, page)
  }

  /** The answer to the next request; an exhausted transcript is a network that is down. */
  function Next(rs: seq<Response>): Response {
    if rs == [] then Refused else rs[0]
  }

  /** The responses left after n requests. */
  function Drop(rs: seq<Response>, n: nat): (r: seq<Response>)
    ensures |r| <= |rs|
  {
    if n <= |rs| then rs[n..] else []
  }

  lemma DropDrop(rs: seq<Response>, m: nat, n: nat)
    ensures Drop(Drop(rs, m), n) == Drop(rs, m + n)
  {
  }

  /** The loop from page `page` on, given the responses still to come. */
  function WalkFrom(q: Query, rs: seq<Response>, page: nat): (w: Walk)
    ensures page == 1 && w.pages != [] ==> w.pages[0] != []
    decreases |rs|
  {
    var req := RequestFor(q, page);
    match Next(rs)
    case Refused => Walk([], Failed(req), [req], 0)
    case Answer(body) =>
      if body.found == 0 then Walk([], NoneFound, [req], 1)
      else if page == 1 && body.results == [] then Walk([], NoFirstRecord, [req], 1)
      else if |body.results| < Limit then Walk([body.results], ShortPage, [req], 1)
      else
        var w := WalkFrom(q, rs[1..], page + 1);
        Walk([body.results] + w.pages, w.stop, [req] + w.requests, 1 + w.counted)
  }

  /** A walk with some pages, requests and counts already behind it. */
  function Resume(pages: seq<seq<Record>>, requests: seq<PageRequest>, counted: nat, w: Walk): Walk {
    Walk(pages + w.pages, w.stop, requests + w.requests, counted + w.counted)
  }

  /** One step of the loop: what the next response makes of page `page`. */
  lemma WalkStep(q: Query, rs: seq<Response>, page: nat)
    ensures var req := RequestFor(q, page);
      WalkFrom(q, rs, page)
      == match Next(rs)
         case Refused => Walk([], Failed(req), [req], 0)
         case Answer(body) =>
           if body.found == 0 then Walk([], NoneFound, [req], 1)
           else if page == 1 && body.results == [] then Walk([], NoFirstRecord, [req], 1)
           else if |body.results| < Limit then Walk([body.results], ShortPage, [req], 1)
           else Resume([body.results], [req], 1, WalkFrom(q, Drop(rs, 1), page + 1))
  {
  }

  lemma ResumeResume(p1: seq<seq<Record>>, r1: seq<PageRequest>, c1: nat,
                     p2: seq<seq<Record>>, r2: seq<PageRequest>, c2: nat, w: Walk)
    ensures Resume(p1, r1, c1, Resume(p2, r2, c2, w)) == Resume(p1 + p2, r1 + r2, c1 + c2, w)
  {
    assert p1 + (p2 + w.pages) == (p1 + p2) + w.pages;
    assert r1 + (r2 + w.requests) == (r1 + r2) + w.requests;
  }

  /** Logs grow by appending; regrouping the appended parts changes nothing. */
  lemma AppendLog(log: seq<PageRequest>, r1: seq<PageRequest>, r2: seq<PageRequest>)
    ensures log + r1 + r2 == log + (r1 + r2)
  {
  }

  /** The files an outcome wrote. */
  function Written(o: Outcome): seq<OutputFile> {
    if o.Saved? then [o.file] else []
  }

  /** The exception a stop raises, if any. */
  function StopError(stop: Stop): Option<Error> {
    match stop
    case Failed(req) => Some(Transport(req))
    case NoFirstRecord => Some(MissingFirstRecord)
    case _ => None
  }

  /** The pollutant and unit of the first record of the first page. */
  function FirstMeta(pages: seq<seq<Record>>): Meta
    requires pages != [] && pages[0] != []
  {
    Meta(pages[0][0].parameterName, pages[0][0].units)
  }

  /** How `get_data` ends once its loop has: the exception that stopped the
      loop, nothing found, or the table of the pages processed. */
  function Conclude(q: Query, w: Walk, calls: int): (o: Outcome)
    requires w.pages != [] ==> w.pages[0] != []
    ensures o.NoData? ==> o.totalApiCalls == calls + w.counted
  {
    match StopError(w.stop)
    case Some(e) => Raised(e)
    case None =>
      if w.pages == [] then NoData(calls + w.counted)
      else
        match Persist(q, FirstMeta(w.pages), Collect(w.pages))
        case None => Raised(NoMonthField(q.datetimeTo))
        case Some(file) => Saved(file)
  }

  /** `get_data(q)` with the counter at `calls`, against the responses `rs`. */
  function FetchSpec(q: Query, rs: seq<Response>, calls: int): (f: Fetch)
    ensures f.outcome.NoData? ==> f.outcome.totalApiCalls == calls + f.counted
  {
    var w := WalkFrom(q, rs, 1);
    Fetch(Conclude(q, w, calls), w.requests, w.counted)
  }

  // ---------------------------------------------------------------------------
  // Properties of the loop

  /** Pages are requested as page, page + 1, ... for the same query, with
      the fixed limit; one request per page processed, plus the request
      that ended the loop unless that was the short page itself. */
  lemma {:induction false} WalkRequestsInOrder(q: Query, rs: seq<Response>, page: nat)
    ensures var w := WalkFrom(q, rs, page);
      && |w.requests| == |w.pages| + (if w.stop == ShortPage then 0 else 1)
      && forall i :: 0 <= i < |w.requests| ==> w.requests[i] == RequestFor(q, page + i)
    decreases |rs|
  {
    var w := WalkFrom(q, rs, page);
    if Next(rs).Answer? && Next(rs).body.found != 0 && !(page == 1 && Next(rs).body.results == [])
       && |Next(rs).body.results| >= Limit {
      var w' := WalkFrom(q, rs[1..], page + 1);
      WalkRequestsInOrder(q, rs[1..], page + 1);
      assert w.requests == [RequestFor(q, page)] + w'.requests;
      forall i | 1 <= i < |w.requests| ensures w.requests[i] == RequestFor(q, page + i) {
        assert w.requests[i] == w'.requests[i - 1];
      }
    }
  }

  /** The loop stops right after the first short page: every processed page
      but the last is full, and the last is short exactly when that is why
      the loop stopped. The processed pages are the bodies of the first
      responses, in order, each with a non-zero `found`. */
  lemma {:induction false} WalkStopsAfterShortPage(q: Query, rs: seq<Response>, page: nat)
    ensures var w := WalkFrom(q, rs, page);
      && (forall i :: 0 <= i < |w.pages| ==> (|w.pages[i]| < Limit <==> i == |w.pages| - 1 && w.stop == ShortPage))
      && (w.stop == ShortPage ==> w.pages != [])
      && |w.pages| <= |rs|
      && (forall i :: 0 <= i < |w.pages| ==> rs[i].Answer? && rs[i].body.found != 0 && rs[i].body.results == w.pages[i])
    decreases |rs|
  {
    var w := WalkFrom(q, rs, page);
    if Next(rs).Answer? && Next(rs).body.found != 0 && !(page == 1 && Next(rs).body.results == [])
       && |Next(rs).body.results| >= Limit {
      var w' := WalkFrom(q, rs[1..], page + 1);
      WalkStopsAfterShortPage(q, rs[1..], page + 1);
      assert w.pages == [rs[0].body.results] + w'.pages;
      forall i | 1 <= i < |w.pages|
        ensures w.pages[i] == w'.pages[i - 1] && rs[i] == rs[1..][i - 1]
      {
      }
      assert w.pages[0] == rs[0].body.results;
    }
  }

  /** The counter goes up once per request that got an answer: every request
      except one that raised, i.e. once per processed page plus once for a
      `found == 0` page or an empty first page. */
  lemma {:induction false} WalkCounts(q: Query, rs: seq<Response>, page: nat)
    ensures var w := WalkFrom(q, rs, page);
      && w.counted == |w.requests| - (if w.stop.Failed? then 1 else 0)
      && w.counted == |w.pages| + (if w.stop == NoneFound || w.stop == NoFirstRecord then 1 else 0)
    decreases |rs|
  {
    if Next(rs).Answer? && Next(rs).body.found != 0 && !(page == 1 && Next(rs).body.results == [])
       && |Next(rs).body.results| >= Limit {
      WalkCounts(q, rs[1..], page + 1);
    }
  }

  /** The pipeline writes a table exactly when some page was processed, no
      request raised and `datetime_to` has a month field; when page 1 reports `found == 0`,
      exactly one request is made and counted, nothing is written and the
      counter is returned. */
  lemma FetchWritesOnlyWithData(q: Query, rs: seq<Response>, calls: int)
    ensures var f := FetchSpec(q, rs, calls);
      var w := WalkFrom(q, rs, 1);
      && (f.outcome.Saved? <==> w.pages != [] && (w.stop == NoneFound || w.stop == ShortPage) && '-' in q.datetimeTo)
      && (f.outcome.NoData? <==> Next(rs).Answer? && Next(rs).body.found == 0)
      && (f.outcome.NoData? ==> |f.requests| == 1 && f.counted == 1 && f.outcome.totalApiCalls == calls + 1)
  {
    var w := WalkFrom(q, rs, 1);
    WalkCounts(q, rs, 1);
    WalkRequestsInOrder(q, rs, 1);
    if w.pages != [] {
      WalkStopsAfterShortPage(q, rs, 1);
    }
  }

  /** A written table holds every record of every processed page: its
      `Timestamp` column has as many rows as the pages have results together,
      its columns are those of all records in page order, and the pollutant
      and unit are those of the first record of the first response. */
  lemma FetchSavedTable(q: Query, rs: seq<Response>, calls: int)
    requires FetchSpec(q, rs, calls).outcome.Saved?
    ensures var file := FetchSpec(q, rs, calls).outcome.file;
      var w := WalkFrom(q, rs, 1);
      && w.pages != [] && w.pages[0] != []
      && file.columns == Columns(Flatten(w.pages))
      && |file.columns.timestamps| == TotalRows(w.pages)
      && rs != [] && rs[0].Answer? && rs[0].body.results != []
      && file.statics.pollutant == rs[0].body.results[0].parameterName
      && file.statics.unit == rs[0].body.results[0].units
      && file.fileName == FileName(file.statics.pollutant, q.sensorId)
  {
    var w := WalkFrom(q, rs, 1);
    CollectIsColumns(w.pages);
    FlattenLength(w.pages);
    WalkStopsAfterShortPage(q, rs, 1);
  }

  /** Later pages never change the metadata: two transcripts with the same
      first response write tables with the same pollutant and unit. */
  lemma MetaFromFirstPageOnly(q: Query, rs: seq<Response>, rs': seq<Response>, calls: int)
    requires rs != [] && rs' != [] && rs[0] == rs'[0]
    requires FetchSpec(q, rs, calls).outcome.Saved? && FetchSpec(q, rs', calls).outcome.Saved?
    ensures FetchSpec(q, rs, calls).outcome.file.statics.pollutant == FetchSpec(q, rs', calls).outcome.file.statics.pollutant
    ensures FetchSpec(q, rs, calls).outcome.file.statics.unit == FetchSpec(q, rs', calls).outcome.file.statics.unit
  {
    FetchSavedTable(q, rs, calls);
    FetchSavedTable(q, rs', calls);
  }
  /** Two full pages and a page of 400: three requests, three counted, and a
      table of 2400 rows. */
  lemma ExampleThreePages(q: Query, r: Record, calls: int)
    requires '-' in q.datetimeTo
    ensures var full := seq(1000, _ => r);
      var short := seq(400, _ => r);
      var f := FetchSpec(q, [Answer(Page(2400, full)), Answer(Page(2400, full)), Answer(Page(2400, short))], calls);
      && |f.requests| == 3 && f.counted == 3
      && f.outcome.Saved? && |f.outcome.file.columns.timestamps| == 2400
  {
    var full := seq(1000, _ => r);
    var short := seq(400, _ => r);
    var rs := [Answer(Page(2400, full)), Answer(Page(2400, full)), Answer(Page(2400, short))];
    var w3 := WalkFrom(q, rs[2..], 3);
    assert w3 == Walk([short], ShortPage, [RequestFor(q, 3)], 1);
    var w2 := WalkFrom(q, rs[1..], 2);
    assert rs[1..][1..] == rs[2..];
    assert w2 == Walk([full, short], ShortPage, [RequestFor(q, 2), RequestFor(q, 3)], 2);
    var w1 := WalkFrom(q, rs, 1);
    assert w1 == Walk([full, full, short], ShortPage, [RequestFor(q, 1), RequestFor(q, 2), RequestFor(q, 3)], 3);
    assert [full, full, short][1..] == [full, short] && [full, short][1..] == [short];
    assert TotalRows([short]) == 400;
    assert TotalRows(w1.pages) == 2400;
    FetchSavedTable(q, rs, calls);
  }
}
