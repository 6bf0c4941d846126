/** The aggregation script `resume_img.py`: for every day from start to end
    it reads the day's pixel table, if the file exists, keeps the rows whose
    four indices are all non-zero, and appends each index's mean to that
    index's list; the four lists are then averaged and described. */
module Summary {
  import opened Numeric
  import opened Calendar
  import Indices
  import Mosaic

  type Band = Mosaic.Band

  /** One row of a day's pixel table. */
  datatype Pixel = Pixel(ndvi: Val, ndre: Val, ndmi: Val, gci: Val)

  /** `column != 0` in pandas: NaN is different from zero. */
  predicate NonZero(v: Val)
  {
    v.NaN? || v.r != 0.0
  }

  /** The row filter: all four indices non-zero. */
  predicate Kept(p: Pixel)
  {
    NonZero(p.ndvi) && NonZero(p.ndre) && NonZero(p.ndmi) && NonZero(p.gci)
  }

  /** The rows the filter keeps, in their order. */
  function Filter(rows: seq<Pixel>): (kept: seq<Pixel>)
    ensures |kept| <= |rows|
  {
    if rows == [] then []
    else
      var last := rows[|rows| - 1];
      Filter(rows[..|rows| - 1]) + (if Kept(last) then [last] else [])
  }

  /** One more row is kept exactly when it passes the filter. */
  lemma FilterSnoc(rows: seq<Pixel>, p: Pixel)
    ensures Filter(rows + [p]) == Filter(rows) + (if Kept(p) then [p] else [])
  {
    assert (rows + [p])[..|rows|] == rows;
  }

  /** The filter keeps exactly the rows that pass it. */
  lemma {:induction false} FilterMembers(rows: seq<Pixel>)
    ensures forall p :: p in Filter(rows) <==> p in rows && Kept(p)
  {
    if rows != [] {
      var init, last := rows[..|rows| - 1], rows[|rows| - 1];
      FilterMembers(init);
      assert rows == init + [last];
    }
  }

  /** The filter keeps every passing row as often as it occurs and drops
      every other row. */
  lemma {:induction false} FilterCounts(rows: seq<Pixel>)
    ensures forall p :: multiset(Filter(rows))[p] == if Kept(p) then multiset(rows)[p] else 0
  {
    if rows != [] {
      var init, last := rows[..|rows| - 1], rows[|rows| - 1];
      FilterCounts(init);
      assert rows == init + [last];
    }
  }

  /** The kept rows keep their order in the table. */
  lemma {:induction false} FilterOrder(rows: seq<Pixel>)
    ensures Subsequence(Filter(rows), rows)
  {
    if rows != [] {
      var init, last := rows[..|rows| - 1], rows[|rows| - 1];
      FilterOrder(init);
      if Kept(last) {
        assert Filter(rows)[..|Filter(rows)| - 1] == Filter(init);
      } else {
        assert Filter(rows) == Filter(init) + [] == Filter(init);
        assert Subsequence(Filter(init), rows[..|rows| - 1]);
      }
    }
  }

  /** Filtering a filtered table changes nothing. */
  lemma {:induction false} FilterIdempotent(rows: seq<Pixel>)
    ensures Filter(Filter(rows)) == Filter(rows)
  {
    if rows != [] {
      var init, last := rows[..|rows| - 1], rows[|rows| - 1];
      FilterIdempotent(init);
      if Kept(last) {
        assert Filter(rows) == Filter(init) + [last];
        FilterSnoc(Filter(init), last);
      } else {
        assert Filter(rows) == Filter(init) + [];
        assert Filter(init) + [] == Filter(init);
      }
    }
  }

  function Cell(p: Pixel, b: Band): Val
  {
    match b
    case NDVI => p.ndvi
    case NDRE => p.ndre
    case NDMI => p.ndmi
    case GCI => p.gci
  }

  /** `df[band]`: one band's column. */
  function Column(rows: seq<Pixel>, b: Band): (col: seq<Val>)
    ensures |col| == |rows| && forall i :: 0 <= i < |rows| ==> col[i] == Cell(rows[i], b)
  {
    seq(|rows|, i requires 0 <= i < |rows| => Cell(rows[i], b))
  }

  /** A day's four means. */
  datatype Means = Means(ndvi: Val, ndre: Val, ndmi: Val, gci: Val)

  function Get(m: Means, b: Band): Val
  {
    match b
    case NDVI => m.ndvi
    case NDRE => m.ndre
    case NDMI => m.ndmi
    case GCI => m.gci
  }

  /** The means of the filtered table, NaN entries skipped. */
  function DayMeans(rows: seq<Pixel>): Means
  {
    var kept := Filter(rows);
    Means(SkipNaNMean(Column(kept, Mosaic.NDVI)), SkipNaNMean(Column(kept, Mosaic.NDRE)),
          SkipNaNMean(Column(kept, Mosaic.NDMI)), SkipNaNMean(Column(kept, Mosaic.GCI)))
  }

  /** The NaN-skipping mean of a column is NaN exactly when every row has
      NaN in that band. */
  lemma ColumnAllNaN(rows: seq<Pixel>, b: Band)
    ensures SkipNaNMean(Column(rows, b)).NaN? <==> forall p :: p in rows ==> Cell(p, b).NaN?
  {
    var col := Column(rows, b);
    if forall p :: p in rows ==> Cell(p, b).NaN? {
      forall i | 0 <= i < |col| ensures col[i].NaN? {
        assert rows[i] in rows;
      }
    } else {
      var p :| p in rows && !Cell(p, b).NaN?;
      var i :| 0 <= i < |rows| && rows[i] == p;
      assert !col[i].NaN?;
    }
  }

  /** A band's mean is NaN exactly when every kept row has NaN in that band
      (in particular when no row is kept). */
  lemma DayMeansNaN(rows: seq<Pixel>, b: Band)
    ensures Get(DayMeans(rows), b).NaN? <==> forall p :: p in rows && Kept(p) ==> Cell(p, b).NaN?
  {
    var kept := Filter(rows);
    assert Get(DayMeans(rows), b) == SkipNaNMean(Column(kept, b)) by {
      match b
      case NDVI =>
      case NDRE =>
      case NDMI =>
      case GCI =>
    }
    ColumnAllNaN(kept, b);
    FilterMembers(rows);
  }

  /** Rows with a zero index never count: only the filtered table is
      averaged. */
  lemma DayMeansFiltered(rows: seq<Pixel>)
    ensures DayMeans(Filter(rows)) == DayMeans(rows)
  {
    FilterIdempotent(rows);
  }

  /** The four lists of `bands`. */
  datatype Bands = Bands(ndvi: seq<Val>, ndre: seq<Val>, ndmi: seq<Val>, gci: seq<Val>)

  function List(bs: Bands, b: Band): seq<Val>
  {
    match b
    case NDVI => bs.ndvi
    case NDRE => bs.ndre
    case NDMI => bs.ndmi
    case GCI => bs.gci
  }

  /** The names among `names` that exist on disk, in order. */
  function Existing(names: seq<string>, disk: map<string, seq<Pixel>>): (es: seq<string>)
    ensures |es| <= |names|
    ensures forall n :: n in es ==> n in disk
  {
    if names == [] then []
    else
      var last := names[|names| - 1];
      Existing(names[..|names| - 1], disk) + (if last in disk then [last] else [])
  }

  /** A name is kept exactly when it is listed and on disk, and the kept
      names keep their order. */
  lemma {:induction false} ExistingFiles(names: seq<string>, disk: map<string, seq<Pixel>>)
    ensures forall n :: n in Existing(names, disk) <==> n in names && n in disk
    ensures Subsequence(Existing(names, disk), names)
  {
    if names != [] {
      var init, last := names[..|names| - 1], names[|names| - 1];
      ExistingFiles(init, disk);
      assert names == init + [last];
      var es := Existing(names, disk);
      if last in disk {
        assert es[..|es| - 1] == Existing(init, disk);
      } else {
        assert es == Existing(init, disk) + [] == Existing(init, disk);
        assert Subsequence(es, names[..|names| - 1]);
      }
    }
  }

  /** What the loop appends over the given file names: for each existing
      file, its four means, so the four lists always have one entry per
      existing file. */
  function Collect(names: seq<string>, disk: map<string, seq<Pixel>>): (bs: Bands)
    ensures |bs.ndvi| == |bs.ndre| == |bs.ndmi| == |bs.gci| == |Existing(names, disk)|
  {
    if names == [] then Bands([], [], [], [])
    else
      var init, last := names[..|names| - 1], names[|names| - 1];
      var bs := Collect(init, disk);
      if last in disk then
        var m := DayMeans(disk[last]);
        Bands(bs.ndvi + [m.ndvi], bs.ndre + [m.ndre], bs.ndmi + [m.ndmi], bs.gci + [m.gci])
      else bs
  }

  /** The k-th entry of a band's list is that band's mean of the k-th
      existing file. */
  lemma {:induction false} CollectEntries(names: seq<string>, disk: map<string, seq<Pixel>>, b: Band)
    ensures var es := Existing(names, disk);
            |List(Collect(names, disk), b)| == |es| &&
            forall k :: 0 <= k < |es| ==> List(Collect(names, disk), b)[k] == Get(DayMeans(disk[es[k]]), b)
  {
    if names != [] {
      var init, last := names[..|names| - 1], names[|names| - 1];
      CollectEntries(init, disk, b);
      if last in disk {
        var es, l := Existing(init, disk), List(Collect(init, disk), b);
        assert Existing(names, disk) == es + [last];
        assert List(Collect(names, disk), b) == l + [Get(DayMeans(disk[last]), b)];
      }
    }
  }

  /** The day loop: one file name per day, the means of those that exist
      appended to the four lists. */
  method Aggregate(areaPath: string, start: nat, end: nat, disk: map<string, seq<Pixel>>) returns (bands: Bands)
    ensures bands == Collect(DayFiles(areaPath, start, end), disk)
  {
    bands := Bands([], [], [], []);
    var current := start;
    ghost var names: seq<string> := [];
    while current <= end
      invariant DayFiles(areaPath, start, end) == names + DayFiles(areaPath, current, end)
      invariant bands == Collect(names, disk)
      decreases end + SecondsPerDay - current
    {
      var filename := CsvName(areaPath, current);
      assert DayFiles(areaPath, current, end) == [filename] + DayFiles(areaPath, current + SecondsPerDay, end);
      if filename in disk {
        var m := DayMeans(disk[filename]);
        bands := Bands(bands.ndvi + [m.ndvi], bands.ndre + [m.ndre], bands.ndmi + [m.ndmi], bands.gci + [m.gci]);
      }
      assert (names + [filename])[..|names|] == names;
      names := names + [filename];
      current := current + SecondsPerDay;
    }
    assert DayFiles(areaPath, current, end) == [];
    assert names + [] == names;
  }

  /** `np.average` of a list that may be empty: NaN for the empty list. */
  function NpAverage(vs: seq<Val>): (m: Val)
    ensures m.NaN? <==> vs == [] || HasNaN(vs)
  {
    if vs == [] then NaN else Average(vs)
  }

  /** The overall value of a band whose daily means lie in [lo, hi), NaN
      days mixed in, is NaN or a number in [lo, hi); it is NaN exactly when
      there was no day or some day was NaN. */
  lemma NpAverageBounds(vs: seq<Val>, lo: real, hi: real)
    requires NumbersIn(vs, lo, hi)
    ensures NpAverage(vs).NaN? <==> vs == [] || HasNaN(vs)
    ensures NpAverage(vs).Num? ==> lo <= NpAverage(vs).r < hi
  {
    if vs != [] && !HasNaN(vs) {
      AverageBounds(vs, lo, hi);
    }
  }

  /** The four overall values. */
  function Overall(bs: Bands): Means
  {
    Means(NpAverage(bs.ndvi), NpAverage(bs.ndre), NpAverage(bs.ndmi), NpAverage(bs.gci))
  }

  /** The dictionary handed to `describe_indices`. */
  function ValuesOf(m: Means): seq<(string, Indices.Float)>
  {
    Indices.Values(Indices.FromVal(m.ndvi), Indices.FromVal(m.ndre), Indices.FromVal(m.ndmi), Indices.FromVal(m.gci))
  }

  /** The printed description for an area, a day range and the files on
      disk. */
  function Report(areaPath: string, start: nat, end: nat, disk: map<string, seq<Pixel>>,
                  render: Indices.Float -> string): Result<string, Indices.Error>
  {
    Indices.Description(Indices.Book, ValuesOf(Overall(Collect(DayFiles(areaPath, start, end), disk))), render)
  }

  /** The description always succeeds: the dictionary holds GCI and NDRE. */
  lemma ReportSucceeds(areaPath: string, start: nat, end: nat, disk: map<string, seq<Pixel>>,
                       render: Indices.Float -> string)
    ensures Report(areaPath, start, end, disk, render).Ok?
  {
    var m := Overall(Collect(DayFiles(areaPath, start, end), disk));
    Indices.FourLookups(Indices.FromVal(m.ndvi), Indices.FromVal(m.ndre), Indices.FromVal(m.ndmi), Indices.FromVal(m.gci));
  }

  /** With no file for any day, all four values are NaN, so the
      description is the efficiency part alone, in the last range. */
  lemma NoDataReport(areaPath: string, start: nat, end: nat, disk: map<string, seq<Pixel>>,
                     render: Indices.Float -> string)
    requires Existing(DayFiles(areaPath, start, end), disk) == []
    ensures Report(areaPath, start, end, disk, render) == Ok(Indices.EfficiencyPart(Indices.FNaN, render))
  {
    var bs := Collect(DayFiles(areaPath, start, end), disk);
    assert Overall(bs) == Means(NaN, NaN, NaN, NaN);
    var f := Indices.FNaN;
    assert ValuesOf(Overall(bs)) == Indices.Values(f, f, f, f);
    Indices.AllNaN(render);
  }

  /** The script: aggregate, average, describe. */
  method Resume(areaPath: string, start: nat, end: nat, disk: map<string, seq<Pixel>>,
                render: Indices.Float -> string) returns (description: string)
    ensures Report(areaPath, start, end, disk, render) == Ok(description)
  {
    var bands := Aggregate(areaPath, start, end, disk);
    var m := Overall(bands);
    var r := Indices.Describe(ValuesOf(m), render);
    ReportSucceeds(areaPath, start, end, disk, render);
    description := r.value;
  }
}
