/** `OpenAQDataFetcher`: the object that issues the requests, keeps the
    running request counter, and drives the pipeline for one location. */
module Ingestion {
  import opened Wrappers
  import opened Readings
  import opened Partition
  import opened Pagination
  import opened Enumeration

  /** The fixed pauses of `get_sensor_data`, in seconds: after a pair that
      succeeded, before the retry of a pair that raised, and after the retry. */
  const PauseAfterPairSeconds: nat := 2
  const PauseBeforeRetrySeconds: nat := 120
  const PauseAfterRetrySeconds: nat := 30

  /** The remote `/v3/sensors/{id}/hours` endpoint: it answers each request
      with the next response of a fixed transcript, and fails once the
      transcript is used up. It keeps the requests it received, in order. */
  class HoursEndpoint {
    var pending: seq<Response>
    var log: seq<PageRequest>

    constructor (transcript: seq<Response>)
      ensures pending == transcript && log == []
    {
      pending := transcript;
      log := [];
    }

    /** `requests.get(url)` followed by `raise_for_status()` and `.json()`. */
    method Get(req: PageRequest) returns (resp: Response)
      modifies this
      ensures resp == Next(old(pending))
      ensures pending == Drop(old(pending), 1)
      ensures log == old(log) + [req]
    {
      if pending == [] {
        resp := Refused;
      } else {
        resp := pending[0];
        pending := pending[1..];
      }
      log := log + [req];
    }
  }

  class OpenAQDataFetcher {
    /** The headers sent with every request; the endpoint's request log does
        not record them, since they never change after construction. */
    var headers: map<string, string>
    var totalApiCalls: int

    constructor (apiKey: string)
      ensures headers == map["X-API-Key" := apiKey]
      ensures totalApiCalls == 0
    {
      headers := map["X-API-Key" := apiKey];
      totalApiCalls := 0;
    }

    /** The `while True` loop of `get_data`: request pages 1, 2, ... until a
        page reports `found == 0` or has fewer than Limit results, gathering
        the columns and taking the pollutant and unit from page 1. Returns
        the buffer (None while `data_dict` is still empty), the metadata and
        the exception that ended the loop, if any. */
    method FetchPages(q: Query, api: HoursEndpoint) returns (data: Option<Buffer>, meta: Meta, failure: Option<Error>)
      modifies this`totalApiCalls, api
      ensures var w := WalkFrom(q, old(api.pending), 1);
        && failure == StopError(w.stop)
        && (failure.None? ==> (data.None? <==> w.pages == []))
        && (failure.None? && data.Some? ==> data.value == Collect(w.pages) && meta == FirstMeta(w.pages))
        && totalApiCalls == old(totalApiCalls) + w.counted
        && api.log == old(api.log) + w.requests
        && api.pending == Drop(old(api.pending), |w.requests|)
    {
      hide WalkFrom, Collect, Columns, Extend;
      ghost var rs0, calls0, log0 := api.pending, totalApiCalls, api.log;
      ghost var whole := WalkFrom(q, rs0, 1);
      ghost var seen: seq<seq<Record>> := [];
      ghost var sent: seq<PageRequest> := [];
      data := None;
      var pollutant, unit := "", "";
      var page := 1;
      while true
        invariant page >= 1 && page == |seen| + 1 && totalApiCalls >= calls0
        invariant whole == Resume(seen, sent, totalApiCalls - calls0, WalkFrom(q, api.pending, page))
        invariant api.log == log0 + sent && api.pending == Drop(rs0, |sent|)
        invariant data.None? <==> seen == []
        invariant seen != [] ==> && seen[0] != [] && data == Some(Collect(seen))
                                 && Meta(pollutant, unit) == FirstMeta(seen)
        decreases |api.pending|
      {
        var req := RequestFor(q, page);
        ghost var here := api.pending;
        WalkStep(q, here, page);
        var resp := api.Get(req);
        DropDrop(rs0, |sent|, 1);
        AppendLog(log0, sent, [req]);
        if resp.Refused? {
          sent := sent + [req];
          return data, Meta(pollutant, unit), Some(Transport(req));
        }
        totalApiCalls := totalApiCalls + 1;
        var readings := resp.body;
        if readings.found == 0 {
          assert seen + [] == seen;
          sent := sent + [req];
          break;
        }
        if page == 1 {
          if readings.results == [] {
            sent := sent + [req];
            return data, Meta(pollutant, unit), Some(MissingFirstRecord);
          }
          pollutant := readings.results[0].parameterName;
          unit := readings.results[0].units;
          data := Some(Columns(readings.results));
          CollectFirst(readings.results);
          assert seen + [readings.results] == [readings.results];
        } else {
          data := Some(Extend(data.value, readings.results));
          CollectNext(seen, readings.results);
        }
        if |readings.results| < Limit {
          seen, sent := seen + [readings.results], sent + [req];
          break;
        }
        ResumeResume(seen, sent, totalApiCalls - 1 - calls0, [readings.results], [req], 1, WalkFrom(q, api.pending, page + 1));
        seen, sent := seen + [readings.results], sent + [req];
        page := page + 1;
      }
      meta := Meta(pollutant, unit);
      failure := None;
    }

    /** `get_data`: page through one half-year window of one sensor, and
        write the table if anything was gathered. Returns the written table,
        or the counter when nothing was gathered, or the exception. */
    method GetData(q: Query, api: HoursEndpoint) returns (outcome: Outcome)
      modifies this`totalApiCalls, api
      ensures var f := FetchSpec(q, old(api.pending), old(totalApiCalls));
        && outcome == f.outcome
        && totalApiCalls == old(totalApiCalls) + f.counted
        && api.log == old(api.log) + f.requests
        && api.pending == Drop(old(api.pending), |f.requests|)
    {
      var data, meta, failure := FetchPages(q, api);
      if failure.Some? {
        return Raised(failure.value);
      }
      if data.Some? {
        match Persist(q, meta, data.value)
        case None =>
          outcome := Raised(NoMonthField(q.datetimeTo));
        case Some(file) =>
          outcome := Saved(file);
      } else {
        outcome := NoData(totalApiCalls);
      }
    }

    /** The body of the `try` in `get_sensor_data`: the two half-year queries
        of one (sensor, year), stopping at the first exception. Returns the
        tables written and the exception, if any. */
    method RunHalfYears(job: Job, place: Place, api: HoursEndpoint) returns (files: seq<OutputFile>, error: Option<Error>)
      modifies this`totalApiCalls, api
      ensures var a := Attempt(job, place, old(api.pending), old(totalApiCalls));
        && files == a.files && error == a.error
        && totalApiCalls == old(totalApiCalls) + a.counted
        && api.log == old(api.log) + a.requests
        && api.pending == Drop(old(api.pending), |a.requests|)
    {
      hide FetchSpec;
      ghost var rs0, calls0 := api.pending, totalApiCalls;
      ghost var f1 := FetchSpec(FirstHalf(job, place), rs0, calls0);
      var first := GetData(FirstHalf(job, place), api);
      if first.Raised? {
        return [], Some(first.error);
      }
      ghost var f2 := FetchSpec(SecondHalf(job, place), api.pending, totalApiCalls);
      var second := GetData(SecondHalf(job, place), api);
      DropDrop(rs0, |f1.requests|, |f2.requests|);
      files := Written(first) + Written(second);
      error := if second.Raised? then Some(second.error) else None;
    }

    /** One iteration of the year loop of `get_sensor_data`: the `try` with
        the half-year pair, and on an exception the `except` that runs the
        pair once more without a further catch. */
    method RunYear(job: Job, place: Place, api: HoursEndpoint) returns (files: seq<OutputFile>, error: Option<Error>)
      modifies this`totalApiCalls, api
      ensures var r := Retried(job, place, old(api.pending), old(totalApiCalls));
        && files == r.files && error == r.error
        && totalApiCalls == old(totalApiCalls) + r.counted
        && api.log == old(api.log) + r.requests
        && api.pending == Drop(old(api.pending), |r.requests|)
    {
      hide Attempt, Retried;
      ghost var rs0 := api.pending;
      ghost var a := Attempt(job, place, rs0, totalApiCalls);
      var failure;
      files, failure := RunHalfYears(job, place, api);
      if failure.None? {
        NoRetryAfterSuccess(job, place, rs0, old(totalApiCalls));
        // pause PauseAfterPairSeconds
        return files, None;
      }
      // pause PauseBeforeRetrySeconds
      ghost var b := Attempt(job, place, api.pending, totalApiCalls);
      var again;
      again, error := RunHalfYears(job, place, api);
      // pause PauseAfterRetrySeconds (reached only when the retry did not raise)
      files := files + again;
      DropDrop(rs0, |a.requests|, |b.requests|);
      AppendLog(old(api.log), a.requests, b.requests);
      RetriedAtMostOnce(job, place, rs0, old(totalApiCalls));
    }

    /** The inner `for year in range(first, last + 1)` loop of
        `get_sensor_data` for one sensor: each year runs with its retry, and
        an exception that escapes a retry ends the loop. */
    method RunSensor(sensorId: int, first: int, last: int, place: Place, api: HoursEndpoint)
      returns (files: seq<OutputFile>, error: Option<Error>)
      modifies this`totalApiCalls, api
      ensures var s := Sweep(YearJobs(sensorId, first, last), place, old(api.pending), old(totalApiCalls));
        && files == s.files && error == s.error
        && totalApiCalls == old(totalApiCalls) + s.counted
        && api.log == old(api.log) + s.requests
        && api.pending == Drop(old(api.pending), |s.requests|)
    {
      hide Retried, Sweep, YearJobs;
      ghost var rs0, calls0, log0 := api.pending, totalApiCalls, api.log;
      ghost var done := Stage([], None, [], 0);
      files := [];
      var year := first;
      while year <= last
        invariant Sweep(YearJobs(sensorId, first, last), place, rs0, calls0)
                  == Then(done, Sweep(YearJobs(sensorId, year, last), place, api.pending, totalApiCalls))
        invariant done.error.None? && files == done.files
        invariant totalApiCalls == calls0 + done.counted
        invariant api.log == log0 + done.requests && api.pending == Drop(rs0, |done.requests|)
        decreases last - year
      {
        var job := Job(sensorId, year);
        ghost var here, callsHere := api.pending, totalApiCalls;
        ghost var step := Retried(job, place, here, callsHere);
        YearJobsNext(sensorId, year, last);
        SweepFirst(job, YearJobs(sensorId, year + 1, last), place, here, callsHere);
        var got, failure := RunYear(job, place, api);
        DropDrop(rs0, |done.requests|, |step.requests|);
        AppendLog(log0, done.requests, step.requests);
        files := files + got;
        if failure.Some? {
          return files, failure;
        }
        ThenThen(done, step, Sweep(YearJobs(sensorId, year + 1, last), place, api.pending, totalApiCalls));
        done := Then(done, step);
        year := year + 1;
      }
      YearJobsPast(sensorId, year, last);
      SweepDone(place, api.pending, totalApiCalls);
      error := None;
    }

    /** The outer `for` loop of `get_sensor_data`: the covered sensors in
        listing order, each over its inclusive range of years. */
    method RunSensors(sensorIds: seq<int>, yearFirst: seq<int>, yearLast: seq<int>, place: Place, api: HoursEndpoint)
      returns (files: seq<OutputFile>, error: Option<Error>)
      requires |sensorIds| == |yearFirst| == |yearLast|
      modifies this`totalApiCalls, api
      ensures var s := Sweep(Jobs(sensorIds, yearFirst, yearLast), place, old(api.pending), old(totalApiCalls));
        && files == s.files && error == s.error
        && totalApiCalls == old(totalApiCalls) + s.counted
        && api.log == old(api.log) + s.requests
        && api.pending == Drop(old(api.pending), |s.requests|)
    {
      hide Sweep, Jobs, YearJobs;
      ghost var rs0, calls0, log0 := api.pending, totalApiCalls, api.log;
      ghost var done := Stage([], None, [], 0);
      assert sensorIds[0..] == sensorIds && yearFirst[0..] == yearFirst && yearLast[0..] == yearLast;
      files := [];
      var k := 0;
      while k < |sensorIds|
        invariant 0 <= k <= |sensorIds|
        invariant Sweep(Jobs(sensorIds, yearFirst, yearLast), place, rs0, calls0)
                  == Then(done, Sweep(Jobs(sensorIds[k..], yearFirst[k..], yearLast[k..]), place, api.pending, totalApiCalls))
        invariant done.error.None? && files == done.files
        invariant totalApiCalls == calls0 + done.counted
        invariant api.log == log0 + done.requests && api.pending == Drop(rs0, |done.requests|)
      {
        ghost var here, callsHere := api.pending, totalApiCalls;
        ghost var years := YearJobs(sensorIds[k], yearFirst[k], yearLast[k]);
        ghost var later := Jobs(sensorIds[k + 1..], yearFirst[k + 1..], yearLast[k + 1..]);
        ghost var step := Sweep(years, place, here, callsHere);
        JobsNext(sensorIds, yearFirst, yearLast, k);
        SweepAppend(years, later, place, here, callsHere);
        var got, failure := RunSensor(sensorIds[k], yearFirst[k], yearLast[k], place, api);
        DropDrop(rs0, |done.requests|, |step.requests|);
        AppendLog(log0, done.requests, step.requests);
        files := files + got;
        if failure.Some? {
          return files, failure;
        }
        ThenThen(done, step, Sweep(later, place, api.pending, totalApiCalls));
        done := Then(done, step);
        k := k + 1;
      }
      JobsEnd(sensorIds, yearFirst, yearLast);
      SweepDone(place, api.pending, totalApiCalls);
      error := None;
    }

    /** `get_sensor_data`: list the sensors of a location, then for every
        covered sensor and every year of its range run the half-year pair,
        retrying a pair that raised once; an exception from the retry ends
        the call. Returns the tables written, in order, and the exception
        that escaped, if any. */
    method GetSensorData(locationId: int, place: Place, listing: Listing, api: HoursEndpoint)
      returns (files: seq<OutputFile>, error: Option<Error>)
      modifies this`totalApiCalls, api
      ensures var s := SensorRun(locationId, place, listing, old(api.pending), old(totalApiCalls));
        && files == s.files && error == s.error
        && totalApiCalls == old(totalApiCalls) + s.counted
        && api.log == old(api.log) + s.requests
        && api.pending == Drop(old(api.pending), |s.requests|)
    {
      hide Sweep, Jobs;
      if listing.ListingFailed? {
        return [], Some(ListingRefused(locationId));
      }
      totalApiCalls := totalApiCalls + 1;
      var covered := Covered(listing.sensors);
      var parsedFirst := ParseYears(Firsts(covered));
      if parsedFirst.Err? {
        return [], Some(parsedFirst.error);
      }
      var parsedLast := ParseYears(Lasts(covered));
      if parsedLast.Err? {
        return [], Some(parsedLast.error);
      }
      files, error := RunSensors(Ids(covered), parsedFirst.value, parsedLast.value, place, api);
    }
  }
}
