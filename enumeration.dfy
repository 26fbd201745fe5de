/** `get_sensor_data`: which half-year queries a location gives rise to, and
    the try-once-then-retry-once policy around each pair of them, stated as
    functions of the responses the hours endpoint gives. */
module Enumeration {
  import opened Wrappers
  import opened Text
  import opened Readings
  import opened Partition
  import opened Pagination

  /** One entry of the sensor list: its id, whether `coverage` is truthy, and
      the `datetimeFirst.utc` / `datetimeLast.utc` strings. */
  datatype Sensor = Sensor(id: int, coverage: bool, datetimeFirst: string, datetimeLast: string)

  /** The answer to the sensor-list request. */
  datatype Listing = ListingFailed | Listing(sensors: seq<Sensor>)

  /** One (sensor, year) iteration of the nested loop. */
  datatype Job = Job(sensorId: int, year: int)

  /** What a run of `get_data` calls leaves behind: the tables written in
      order, the exception that escaped (if any), the page requests issued and
      the counter increments. */
  datatype Stage = Stage(files: seq<OutputFile>, error: Option<Error>, requests: seq<PageRequest>, counted: nat)

  /** The sensors kept: those with coverage, in list order. */
  function Covered(sensors: seq<Sensor>): (r: seq<Sensor>)
    ensures forall s :: s in r ==> s.coverage && s in sensors
    ensures forall s :: s in sensors && s.coverage ==> s in r
    decreases |sensors|
  {
    if sensors == [] then []
    else (if sensors[0].coverage then [sensors[0]] else []) + Covered(sensors[1..])
  }

  function Ids(sensors: seq<Sensor>): (r: seq<int>)
    ensures |r| == |sensors| && forall k :: 0 <= k < |r| ==> r[k] == sensors[k].id
  {
    seq(|sensors|, k requires 0 <= k < |sensors| => sensors[k].id)
  }

  function Firsts(sensors: seq<Sensor>): (r: seq<string>)
    ensures |r| == |sensors| && forall k :: 0 <= k < |r| ==> r[k] == sensors[k].datetimeFirst
  {
    seq(|sensors|, k requires 0 <= k < |sensors| => sensors[k].datetimeFirst)
  }

  function Lasts(sensors: seq<Sensor>): (r: seq<string>)
    ensures |r| == |sensors| && forall k :: 0 <= k < |r| ==> r[k] == sensors[k].datetimeLast
  {
    seq(|sensors|, k requires 0 <= k < |sensors| => sensors[k].datetimeLast)
  }

  /** `int(text[:4])`, the year of a `utc` timestamp. */
  function YearOf(text: string): Option<int> {
    ParseInt(Prefix(text, 4))
  }

  /** `[int(t[:4]) for t in texts]`: the years, or the first text whose
      four-character prefix is not an integer. */
  function ParseYears(texts: seq<string>): (r: Result<seq<int>, Error>)
    ensures r.Ok? ==> |r.value| == |texts| && forall k :: 0 <= k < |texts| ==> YearOf(texts[k]) == Some(r.value[k])
    ensures r.Err? <==> exists k :: 0 <= k < |texts| && YearOf(texts[k]).None?
    decreases |texts|
  {
    if texts == [] then Ok([])
    else
      match YearOf(texts[0])
      case None => Err(BadYear(texts[0]))
      case Some(y) =>
        match ParseYears(texts[1..])
        case Err(e) => Err(e)
        case Ok(ys) => Ok([y] + ys)
  }

  /** The inner loop of one sensor: `range(year, last + 1)`. */
  function YearJobs(id: int, year: int, last: int): (r: seq<Job>)
    ensures |r| == if year <= last then last - year + 1 else 0
    ensures forall i :: 0 <= i < |r| ==> r[i] == Job(id, year + i)
    decreases last - year + 1
  {
    if year > last then [] else [Job(id, year)] + YearJobs(id, year + 1, last)
  }

  /** Both loops: every sensor in order, every year of its range in order. */
  function Jobs(ids: seq<int>, firsts: seq<int>, lasts: seq<int>): seq<Job>
    requires |ids| == |firsts| == |lasts|
    decreases |ids|
  {
    if ids == [] then []
    else YearJobs(ids[0], firsts[0], lasts[0]) + Jobs(ids[1..], firsts[1..], lasts[1..])
  }

  /** The `YYYY-01-01 .. YYYY-06-30` query of a job. */
  function FirstHalf(job: Job, place: Place): Query {
    Query(job.sensorId, IntToString(job.year) + "-01-01", IntToString(job.year) + "-06-30", place)
  }

  /** The `YYYY-07-01 .. YYYY-12-31` query of a job. */
  function SecondHalf(job: Job, place: Place): Query {
    Query(job.sensorId, IntToString(job.year) + "-07-01", IntToString(job.year) + "-12-31", place)
  }

  /** Two stages one after the other, the second's exception being the one left. */
  function Then(s: Stage, t: Stage): Stage {
    Stage(s.files + t.files, t.error, s.requests + t.requests, s.counted + t.counted)
  }

  /** The body of the `try`: the first half-year query, then the second; an
      exception from the first skips the second. */
  function Attempt(job: Job, place: Place, rs: seq<Response>, calls: int): Stage {
    var f1 := FetchSpec(FirstHalf(job, place), rs, calls);
    if f1.outcome.Raised? then Stage([], Some(f1.outcome.error), f1.requests, f1.counted)
    else
      var f2 := FetchSpec(SecondHalf(job, place), Drop(rs, |f1.requests|), calls + f1.counted);
      Stage(Written(f1.outcome) + Written(f2.outcome),
            if f2.outcome.Raised? then Some(f2.outcome.error) else None,
            f1.requests + f2.requests, f1.counted + f2.counted)
  }

  /** One year of one sensor: the attempt, and if it raised, the same pair
      once more, whose exception is not caught. */
  function Retried(job: Job, place: Place, rs: seq<Response>, calls: int): Stage {
    var a := Attempt(job, place, rs, calls);
    if a.error.None? then a
    else Then(a, Attempt(job, place, Drop(rs, |a.requests|), calls + a.counted))
  }

  /** The jobs in order, until one raises past its retry. */
  function Sweep(jobs: seq<Job>, place: Place, rs: seq<Response>, calls: int): Stage
    decreases |jobs|
  {
    if jobs == [] then Stage([], None, [], 0)
    else
      var s := Retried(jobs[0], place, rs, calls);
      if s.error.Some? then s
      else Then(s, Sweep(jobs[1..], place, Drop(rs, |s.requests|), calls + s.counted))
  }

  /** The jobs of a location, or the error raised while reading the years. */
  function LocationJobs(sensors: seq<Sensor>): Result<seq<Job>, Error> {
    var covered := Covered(sensors);
    match ParseYears(Firsts(covered))
    case Err(e) => Err(e)
    case Ok(firsts) =>
      match ParseYears(Lasts(covered))
      case Err(e) => Err(e)
      case Ok(lasts) => Ok(Jobs(Ids(covered), firsts, lasts))
  }

  /** `get_sensor_data` for one location, with the counter at `calls`. The
      sensor-list request counts once when it succeeds. */
  function SensorRun(locationId: int, place: Place, listing: Listing, rs: seq<Response>, calls: int): Stage {
    match listing
    case ListingFailed => Stage([], Some(ListingRefused(locationId)), [], 0)
    case Listing(sensors) =>
      match LocationJobs(sensors)
      case Err(e) => Stage([], Some(e), [], 1)
      case Ok(jobs) => Then(Stage([], None, [], 1), Sweep(jobs, place, rs, calls + 1))
  }

  // ---------------------------------------------------------------------------
  // The sweep one job at a time, as the loops of `get_sensor_data` run it

  /** A sensor's years come one at a time, starting from the first. */
  lemma YearJobsNext(id: int, year: int, last: int)
    requires year <= last
    ensures YearJobs(id, year, last) == [Job(id, year)] + YearJobs(id, year + 1, last)
  {
  }

  /** Past the last year a sensor has no jobs left. */
  lemma YearJobsPast(id: int, year: int, last: int)
    requires year > last
    ensures YearJobs(id, year, last) == []
  {
  }

  /** The jobs from the k-th sensor on: its years, then those of the sensors after it. */
  lemma JobsNext(ids: seq<int>, firsts: seq<int>, lasts: seq<int>, k: nat)
    requires |ids| == |firsts| == |lasts| && k < |ids|
    ensures Jobs(ids[k..], firsts[k..], lasts[k..])
            == YearJobs(ids[k], firsts[k], lasts[k]) + Jobs(ids[k + 1..], firsts[k + 1..], lasts[k + 1..])
  {
    assert ids[k..][1..] == ids[k + 1..];
    assert firsts[k..][1..] == firsts[k + 1..];
    assert lasts[k..][1..] == lasts[k + 1..];
  }

  /** After the last sensor there are no jobs. */
  lemma JobsEnd(ids: seq<int>, firsts: seq<int>, lasts: seq<int>)
    requires |ids| == |firsts| == |lasts|
    ensures Jobs(ids[|ids|..], firsts[|ids|..], lasts[|ids|..]) == []
  {
  }

  /** With no jobs left nothing happens. */
  lemma SweepDone(place: Place, rs: seq<Response>, calls: int)
    ensures Sweep([], place, rs, calls) == Stage([], None, [], 0)
  {
  }

  /** The first job runs with its retry; unless it raised, the rest follow
      against the responses it left and the counter it reached. */
  lemma SweepFirst(job: Job, rest: seq<Job>, place: Place, rs: seq<Response>, calls: int)
    ensures var s := Retried(job, place, rs, calls);
      Sweep([job] + rest, place, rs, calls)
      == if s.error.Some? then s else Then(s, Sweep(rest, place, Drop(rs, |s.requests|), calls + s.counted))
  {
    hide Retried;
    assert ([job] + rest)[0] == job;
    assert ([job] + rest)[1..] == rest;
  }

  /** Sweeping two runs of jobs is sweeping the first, then, unless it
      raised, the second against what the first left. */
  lemma {:induction false} SweepAppend(xs: seq<Job>, ys: seq<Job>, place: Place, rs: seq<Response>, calls: int)
    ensures var s := Sweep(xs, place, rs, calls);
      Sweep(xs + ys, place, rs, calls)
      == if s.error.Some? then s else Then(s, Sweep(ys, place, Drop(rs, |s.requests|), calls + s.counted))
    decreases |xs|
  {
    hide Retried, Sweep;
    if xs == [] {
      SweepDone(place, rs, calls);
      assert xs + ys == ys;
      assert Drop(rs, 0) == rs;
      assert Then(Stage([], None, [], 0), Sweep(ys, place, rs, calls)) == Sweep(ys, place, rs, calls);
    } else {
      var r := Retried(xs[0], place, rs, calls);
      SweepFirst(xs[0], xs[1..], place, rs, calls);
      SweepFirst(xs[0], xs[1..] + ys, place, rs, calls);
      assert [xs[0]] + xs[1..] == xs;
      assert [xs[0]] + (xs[1..] + ys) == xs + ys;
      if r.error.None? {
        var rs' := Drop(rs, |r.requests|);
        var calls' := calls + r.counted;
        SweepAppend(xs[1..], ys, place, rs', calls');
        var t := Sweep(xs[1..], place, rs', calls');
        DropDrop(rs, |r.requests|, |t.requests|);
        if t.error.None? {
          ThenThen(r, t, Sweep(ys, place, Drop(rs', |t.requests|), calls' + t.counted));
        }
      }
    }
  }

  /** Running stages one after another does not depend on how they are grouped. */
  lemma ThenThen(s: Stage, t: Stage, u: Stage)
    ensures Then(Then(s, t), u) == Then(s, Then(t, u))
  {
    assert s.files + t.files + u.files == s.files + (t.files + u.files);
    assert s.requests + t.requests + u.requests == s.requests + (t.requests + u.requests);
  }

  // ---------------------------------------------------------------------------
  // Properties of the enumeration

  /** A (sensor, year) pair is enumerated exactly when some listed sensor has
      that id and the year lies in its inclusive range. */
  lemma {:induction false} JobsEnumerate(ids: seq<int>, firsts: seq<int>, lasts: seq<int>, job: Job)
    requires |ids| == |firsts| == |lasts|
    ensures job in Jobs(ids, firsts, lasts) <==>
              exists k :: 0 <= k < |ids| && ids[k] == job.sensorId && firsts[k] <= job.year <= lasts[k]
    decreases |ids|
  {
    if ids != [] {
      JobsEnumerate(ids[1..], firsts[1..], lasts[1..], job);
      var head := YearJobs(ids[0], firsts[0], lasts[0]);
      assert job in head <==> ids[0] == job.sensorId && firsts[0] <= job.year <= lasts[0] by {
        if ids[0] == job.sensorId && firsts[0] <= job.year <= lasts[0] {
          assert head[job.year - firsts[0]] == job;
        }
      }
      if job in Jobs(ids[1..], firsts[1..], lasts[1..]) {
        var k :| 0 <= k < |ids| - 1 && ids[1..][k] == job.sensorId && firsts[1..][k] <= job.year <= lasts[1..][k];
        assert ids[k + 1] == job.sensorId && firsts[k + 1] <= job.year <= lasts[k + 1];
      }
      if exists k :: 0 <= k < |ids| && ids[k] == job.sensorId && firsts[k] <= job.year <= lasts[k] {
        var k :| 0 <= k < |ids| && ids[k] == job.sensorId && firsts[k] <= job.year <= lasts[k];
        if k > 0 {
          assert ids[1..][k - 1] == job.sensorId && firsts[1..][k - 1] <= job.year <= lasts[1..][k - 1];
        }
      }
    }
  }

  /** The sensor covers the job: it has coverage, the job's id, and the
      job's year lies between its first and last data year. */
  predicate Spans(s: Sensor, job: Job) {
    && s.coverage && s.id == job.sensorId
    && YearOf(s.datetimeFirst).Some? && YearOf(s.datetimeLast).Some?
    && YearOf(s.datetimeFirst).value <= job.year <= YearOf(s.datetimeLast).value
  }

  /** Only sensors with coverage are ever enumerated, and every year of every
      covered sensor is. */
  lemma LocationJobsCovered(sensors: seq<Sensor>, job: Job)
    requires LocationJobs(sensors).Ok?
    ensures job in LocationJobs(sensors).value <==> exists s :: s in sensors && Spans(s, job)
  {
    var covered := Covered(sensors);
    var firsts := ParseYears(Firsts(covered)).value;
    var lasts := ParseYears(Lasts(covered)).value;
    assert LocationJobs(sensors).value == Jobs(Ids(covered), firsts, lasts);
    JobsEnumerate(Ids(covered), firsts, lasts, job);
    if job in LocationJobs(sensors).value {
      var k :| 0 <= k < |covered| && Ids(covered)[k] == job.sensorId && firsts[k] <= job.year <= lasts[k];
      assert YearOf(Firsts(covered)[k]) == Some(firsts[k]);
      assert YearOf(Lasts(covered)[k]) == Some(lasts[k]);
      assert covered[k] in covered;
      assert Spans(covered[k], job);
    }
  }

  /** Within an attempt the first half-year query's pages come first, pages
      1, 2, ... in order, then the second half-year query's, again from page 1. */
  lemma AttemptRequestOrder(job: Job, place: Place, rs: seq<Response>, calls: int)
    ensures var a := Attempt(job, place, rs, calls);
      var n := |FetchSpec(FirstHalf(job, place), rs, calls).requests|;
      && n <= |a.requests|
      && (forall i :: 0 <= i < n ==> a.requests[i] == RequestFor(FirstHalf(job, place), 1 + i))
      && (forall i :: n <= i < |a.requests| ==> a.requests[i] == RequestFor(SecondHalf(job, place), 1 + i - n))
  {
    var f1 := FetchSpec(FirstHalf(job, place), rs, calls);
    WalkRequestsInOrder(FirstHalf(job, place), rs, 1);
    if !f1.outcome.Raised? {
      WalkRequestsInOrder(SecondHalf(job, place), Drop(rs, |f1.requests|), 1);
    }
  }

  /** A pair is retried at most once: the exception escapes exactly when the
      attempt and its single retry both raised, and after a failed attempt
      the pair runs exactly once more. */
  lemma RetriedAtMostOnce(job: Job, place: Place, rs: seq<Response>, calls: int)
    ensures var a := Attempt(job, place, rs, calls);
      var b := Attempt(job, place, Drop(rs, |a.requests|), calls + a.counted);
      var r := Retried(job, place, rs, calls);
      && (r.error.Some? <==> a.error.Some? && b.error.Some?)
      && (a.error.Some? ==> r == Then(a, b))
  {
    hide Attempt;
  }

  /** A pair whose attempt succeeds is not retried. */
  lemma NoRetryAfterSuccess(job: Job, place: Place, rs: seq<Response>, calls: int)
    requires Attempt(job, place, rs, calls).error.None?
    ensures Retried(job, place, rs, calls) == Attempt(job, place, rs, calls)
  {
  }

  /** A year in 1000..9999 writes its first half under `<year>/06` and its
      second half under `<year>/12`. */
  lemma HalfYearDirectories(job: Job, place: Place)
    requires 1000 <= job.year <= 9999
    ensures OutputDirectory(FirstHalf(job, place))
            == Some([DatasetRoot, CityName, place.name, IntToString(job.sensorId), IntToString(job.year), "06"])
    ensures OutputDirectory(SecondHalf(job, place))
            == Some([DatasetRoot, CityName, place.name, IntToString(job.sensorId), IntToString(job.year), "12"])
  {
    var y := IntToString(job.year);
    FourDigitYear(job.year);
    assert Prefix(y + "-01-01", 4) == y;
    assert Prefix(y + "-07-01", 4) == y;
    assert y + "-06-30" == y + ['-'] + ("06" + ['-'] + "30");
    assert y + "-12-31" == y + ['-'] + ("12" + ['-'] + "31");
    SplitAfterField(y, '-', "06" + ['-'] + "30");
    SplitAfterField(y, '-', "12" + ['-'] + "31");
    SplitAfterField("06", '-', "30");
    SplitAfterField("12", '-', "31");
  }

  /** The table lies in the location's directory, in the sensor's sub-directory. */
  predicate FileOf(f: OutputFile, place: Place, sensorId: int) {
    |f.directory| == 6 && f.directory[2] == place.name && f.directory[3] == IntToString(sensorId)
  }

  /** A table `get_data` writes lies under the location and sensor of its query. */
  lemma FetchFileUnder(q: Query, rs: seq<Response>, calls: int)
    requires FetchSpec(q, rs, calls).outcome.Saved?
    ensures FileOf(FetchSpec(q, rs, calls).outcome.file, q.place, q.sensorId)
  {
  }

  /** Every table an attempt writes belongs to the job's sensor. */
  lemma AttemptFilesUnder(job: Job, place: Place, rs: seq<Response>, calls: int)
    ensures forall f :: f in Attempt(job, place, rs, calls).files ==> FileOf(f, place, job.sensorId)
  {
    hide FetchSpec;
    var f1 := FetchSpec(FirstHalf(job, place), rs, calls);
    if f1.outcome.Saved? {
      FetchFileUnder(FirstHalf(job, place), rs, calls);
    }
    var f2 := FetchSpec(SecondHalf(job, place), Drop(rs, |f1.requests|), calls + f1.counted);
    if f2.outcome.Saved? {
      FetchFileUnder(SecondHalf(job, place), Drop(rs, |f1.requests|), calls + f1.counted);
    }
  }

  /** Every table a year writes, retry included, belongs to the job's sensor. */
  lemma RetriedFilesUnder(job: Job, place: Place, rs: seq<Response>, calls: int)
    ensures forall f :: f in Retried(job, place, rs, calls).files ==> FileOf(f, place, job.sensorId)
  {
    hide Attempt;
    var a := Attempt(job, place, rs, calls);
    AttemptFilesUnder(job, place, rs, calls);
    AttemptFilesUnder(job, place, Drop(rs, |a.requests|), calls + a.counted);
  }

  /** Every table a sweep writes belongs to the sensor of one of its jobs. */
  lemma {:induction false} SweepFilesUnder(jobs: seq<Job>, place: Place, rs: seq<Response>, calls: int)
    ensures forall f :: f in Sweep(jobs, place, rs, calls).files ==>
              exists job :: job in jobs && FileOf(f, place, job.sensorId)
    decreases |jobs|
  {
    hide Retried;
    if jobs != [] {
      var s := Retried(jobs[0], place, rs, calls);
      RetriedFilesUnder(jobs[0], place, rs, calls);
      if s.error.None? {
        SweepFilesUnder(jobs[1..], place, Drop(rs, |s.requests|), calls + s.counted);
      }
    }
  }

  /** `get_sensor_data` writes tables only under the location's directory,
      and only for sensors of its listing that have coverage. */
  lemma SensorRunFilesCovered(locationId: int, place: Place, listing: Listing, rs: seq<Response>, calls: int)
    ensures forall f :: f in SensorRun(locationId, place, listing, rs, calls).files ==>
              listing.Listing? && exists s :: s in listing.sensors && s.coverage && FileOf(f, place, s.id)
  {
    hide Sweep;
    if listing.Listing? && LocationJobs(listing.sensors).Ok? {
      var jobs := LocationJobs(listing.sensors).value;
      SweepFilesUnder(jobs, place, rs, calls + 1);
      forall f | f in SensorRun(locationId, place, listing, rs, calls).files
        ensures exists s :: s in listing.sensors && s.coverage && FileOf(f, place, s.id)
      {
        var job :| job in jobs && FileOf(f, place, job.sensorId);
        LocationJobsCovered(listing.sensors, job);
        var s :| s in listing.sensors && Spans(s, job);
      }
    }
  }
}
