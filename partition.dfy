/** Where a finished query is written: the partitioned output tree
    `AQ_data/Sacremento/<location>/<sensor>/<year>/<month>/<pollutant>_<sensor>.csv`
    and the static columns attached to every row. */
module Partition {
  import opened Wrappers
  import opened Text
  import opened Readings

  /** A latitude or longitude, copied into the output as it came. */
  type Coordinate

  const DatasetRoot: string := "AQ_data"
  const CityName: string := "Sacremento"
  const StateName: string := "California"

  /** The location a sensor belongs to, as the caller passes it in. */
  datatype Place = Place(name: string, latitude: Coordinate, longitude: Coordinate, country: string)

  /** The arguments of one `get_data` call. */
  datatype Query = Query(sensorId: int, datetimeFrom: string, datetimeTo: string, place: Place)

  /** The columns every row carries besides the buffer. */
  datatype Statics = Statics(
    pollutant: string, locationName: string, latitude: Coordinate, longitude: Coordinate,
    unit: string, sensorId: int, cityName: string, state: string, country: string)

  /** One written table: the directory (as its path segments), the file name,
      the gathered columns and the static columns. */
  datatype OutputFile = OutputFile(directory: seq<string>, fileName: string, columns: Buffer, statics: Statics)

  /** The directory segments of a query's output; None when `datetime_to`
      has no '-' and `split("-")[1]` raises IndexError. */
  function OutputDirectory(q: Query): (r: Option<seq<string>>)
    ensures r.Some? <==> '-' in q.datetimeTo
    ensures r.Some? ==> |r.value| == 6 && r.value[4] == Prefix(q.datetimeFrom, 4) && '-' !in r.value[5]
  {
    SplitHasSecondField(q.datetimeTo, '-');
    var fields := Split(q.datetimeTo, '-');
    if |fields| < 2 then None
    else Some([DatasetRoot, CityName, q.place.name, IntToString(q.sensorId), Prefix(q.datetimeFrom, 4), fields[1]])
  }

  /** `<pollutant>_<sensor>.csv`. */
  function FileName(pollutant: string, sensorId: int): string {
    pollutant + "_" + IntToString(sensorId) + ".csv"
  }

  function StaticsOf(q: Query, meta: Meta): Statics {
    Statics(meta.pollutant, q.place.name, q.place.latitude, q.place.longitude,
            meta.unit, q.sensorId, CityName, StateName, q.place.country)
  }

  /** The table a finished query writes, or None when its path cannot be formed. */
  function Persist(q: Query, meta: Meta, b: Buffer): (r: Option<OutputFile>)
    ensures r.Some? <==> '-' in q.datetimeTo
    ensures r.Some? ==> r.value.columns == b && r.value.statics.pollutant == meta.pollutant
                        && r.value.statics.unit == meta.unit
  {
    match OutputDirectory(q)
    case None => None
    case Some(dir) => Some(OutputFile(dir, FileName(meta.pollutant, q.sensorId), b, StaticsOf(q, meta)))
  }

  /** The example of a first half-year query: from "2021-01-01" to
      "2021-06-30" lands under year "2021", month "06". */
  lemma ExampleDirectory(place: Place)
    ensures OutputDirectory(Query(42, "2021-01-01", "2021-06-30", place))
            == Some([DatasetRoot, CityName, place.name, "42", "2021", "06"])
  {
    hide Split;
    var fields := ["2021", "06", "30"];
    assert Join(fields, '-') == "2021-06-30";
    SplitJoin(fields, '-');
    assert Prefix("2021-01-01", 4) == "2021";
    assert NatToString(42) == NatToString(4) + [DigitChar(2)] == "42";
  }
}
