/** Hourly sensor readings as the hours endpoint returns them, and the
    column buffer (`data_dict`) they are gathered into. */
module Readings {

  /** A summary statistic as the API sends it; passed through untouched. */
  type Value

  /** Records and pages per request. */
  const Limit: nat := 1000

  /** The summary statistics copied into columns, in column order. */
  const StatNames: seq<string> := ["min", "q02", "q25", "median", "q75", "q98", "max", "avg", "sd"]

  const StatKeys: set<string> := set s | s in StatNames

  /** One result of the hours endpoint: `period.datetimeTo.utc`,
      `parameter.name`, `parameter.units` and the `summary` object, whose keys
      are not guaranteed (a missing `summary` reads as an empty one). */
  datatype Record = Record(timestamp: string, parameterName: string, units: string, summary: map<string, Value>)

  /** One response body: `meta.found` and `results`. */
  datatype Page = Page(found: int, results: seq<Record>)

  /** The column buffer: the `Timestamp` column and one column per statistic. */
  datatype Buffer = Buffer(timestamps: seq<string>, stats: map<string, seq<Value>>)

  /** The static metadata taken from the first record of the first page. */
  datatype Meta = Meta(pollutant: string, unit: string)

  /** The `Timestamp` values of a page, in record order. */
  function Timestamps(rs: seq<Record>): (ts: seq<string>)
    ensures |ts| == |rs|
    ensures forall i :: 0 <= i < |rs| ==> ts[i] == rs[i].timestamp
    decreases |rs|
  {
    if rs == [] then [] else [rs[0].timestamp] + Timestamps(rs[1..])
  }

  /** The values of one statistic, taken from the records whose summary has
      that key, in record order. */
  function StatColumn(rs: seq<Record>, stat: string): (col: seq<Value>)
    ensures |col| <= |rs|
    ensures |col| == |rs| <==> forall i :: 0 <= i < |rs| ==> stat in rs[i].summary
    decreases |rs|
  {
    if rs == [] then []
    else
      (if stat in rs[0].summary then [rs[0].summary[stat]] else []) + StatColumn(rs[1..], stat)
  }

  /** The columns of a run of records, built in one go; the first page
      assigns exactly these (`data_dict[...] = ...`). */
  function Columns(rs: seq<Record>): (b: Buffer)
    ensures b.stats.Keys == StatKeys
  {
    Buffer(Timestamps(rs), map s | s in StatKeys :: StatColumn(rs, s))
  }

  /** Every later page extends each column in place (`data_dict[...] += ...`). */
  function Extend(b: Buffer, rs: seq<Record>): (b': Buffer)
    requires b.stats.Keys == StatKeys
    ensures b'.stats.Keys == StatKeys
  {
    Buffer(b.timestamps + Timestamps(rs), map s | s in StatKeys :: b.stats[s] + StatColumn(rs, s))
  }

  /** The buffer after the pages processed so far, page by page as the loop builds it. */
  function Collect(pages: seq<seq<Record>>): (b: Buffer)
    requires |pages| >= 1
    ensures b.stats.Keys == StatKeys
    decreases |pages|
  {
    if |pages| == 1 then Columns(pages[0])
    else Extend(Collect(pages[..|pages| - 1]), pages[|pages| - 1])
  }

  /** The records of all pages, in page order and then record order. */
  function Flatten(pages: seq<seq<Record>>): seq<Record>
    decreases |pages|
  {
    if pages == [] then [] else Flatten(pages[..|pages| - 1]) + pages[|pages| - 1]
  }

  /** The sum of the page lengths. */
  function TotalRows(pages: seq<seq<Record>>): nat
    decreases |pages|
  {
    if pages == [] then 0 else |pages[0]| + TotalRows(pages[1..])
  }

  /** Every column holds one value per record. */
  predicate Rectangular(b: Buffer) {
    forall s :: s in b.stats ==> |b.stats[s]| == |b.timestamps|
  }

  /** The table after page 1 is that page's columns. */
  lemma CollectFirst(page: seq<Record>)
    ensures Collect([page]) == Columns(page)
  {
  }

  /** Each later page extends the table gathered so far. */
  lemma CollectNext(pages: seq<seq<Record>>, page: seq<Record>)
    requires pages != []
    ensures Collect(pages + [page]) == Extend(Collect(pages), page)
  {
    assert (pages + [page])[..|pages|] == pages;
  }

  lemma {:induction false} TimestampsAppend(a: seq<Record>, b: seq<Record>)
    ensures Timestamps(a + b) == Timestamps(a) + Timestamps(b)
  {
  }

  lemma {:induction false} StatColumnAppend(a: seq<Record>, b: seq<Record>, stat: string)
    ensures StatColumn(a + b, stat) == StatColumn(a, stat) + StatColumn(b, stat)
    decreases |a|
  {
    if a != [] {
      assert (a + b)[0] == a[0] && (a + b)[1..] == a[1..] + b;
      StatColumnAppend(a[1..], b, stat);
    } else {
      assert a + b == b;
    }
  }

  /** Extending the columns of some records by a page gives the columns of
      the records followed by the page's records. */
  lemma ExtendColumns(rs: seq<Record>, page: seq<Record>)
    ensures Extend(Columns(rs), page) == Columns(rs + page)
  {
    TimestampsAppend(rs, page);
    forall s | s in StatKeys
      ensures Extend(Columns(rs), page).stats[s] == Columns(rs + page).stats[s]
    {
      StatColumnAppend(rs, page, s);
    }
  }

  /** Gathering page by page gives the columns of all records at once: the
      `Timestamp` column lists every record in page order, then record order,
      and each statistic column lists the values of the records that carry it. */
  lemma {:induction false} CollectIsColumns(pages: seq<seq<Record>>)
    requires |pages| >= 1
    ensures Collect(pages) == Columns(Flatten(pages))
    decreases |pages|
  {
    var n := |pages|;
    if n == 1 {
      assert Flatten(pages) == Flatten(pages[..0]) + pages[0];
      assert pages[..0] == [];
      assert Flatten(pages) == pages[0];
    } else {
      CollectIsColumns(pages[..n - 1]);
      ExtendColumns(Flatten(pages[..n - 1]), pages[n - 1]);
    }
  }

  lemma {:induction false} TotalRowsAppend(pages: seq<seq<Record>>, page: seq<Record>)
    ensures TotalRows(pages + [page]) == TotalRows(pages) + |page|
    decreases |pages|
  {
    if pages != [] {
      assert (pages + [page])[1..] == pages[1..] + [page];
      TotalRowsAppend(pages[1..], page);
    } else {
      assert ([] + [page])[1..] == [];
    }
  }

  /** The flattened records number the sum of the page lengths. */
  lemma {:induction false} FlattenLength(pages: seq<seq<Record>>)
    ensures |Flatten(pages)| == TotalRows(pages)
    decreases |pages|
  {
    if pages != [] {
      var n := |pages|;
      FlattenLength(pages[..n - 1]);
      TotalRowsAppend(pages[..n - 1], pages[n - 1]);
      assert pages[..n - 1] + [pages[n - 1]] == pages;
    }
  }

  /** The `Timestamp` column of a buffer has one entry per record, and every
      statistic column is at most that long: equal in length for every
      statistic exactly when every record's summary carries every statistic. */
  lemma ColumnsShape(rs: seq<Record>)
    ensures |Columns(rs).timestamps| == |rs|
    ensures forall s :: s in StatKeys ==> |Columns(rs).stats[s]| <= |rs|
    ensures Rectangular(Columns(rs)) <==>
              forall i, s :: 0 <= i < |rs| && s in StatKeys ==> s in rs[i].summary
  {
    var b := Columns(rs);
    if !Rectangular(b) {
      var s :| s in b.stats && |b.stats[s]| != |b.timestamps|;
      var i :| 0 <= i < |rs| && s !in rs[i].summary;
    }
  }
}
