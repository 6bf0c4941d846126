/** The mosaic reducer of `main.py`: per band, every per-day tile is read
    row by row into a dictionary keyed by a coordinate pair, each key's list
    is replaced by its NumPy average, the keys are ordered north-to-south and
    west-to-east, and the values are reshaped row-major into the grid.

    The dictionary is probed with the pair (X, Y) but written under (Y, X);
    `AddRow` and everything built on it keep that behaviour, and
    `AddRowIntended` is the evidently intended step, probing (Y, X). */
module Mosaic {
  import opened Numeric

  datatype Band = NDVI | NDRE | NDMI | GCI

  /** The bands in the order they are written to the output raster. */
  const Bands: seq<Band> := [NDVI, NDRE, NDMI, GCI]

  /** One band cell of a tile's CSV row: an empty field or a parsed float. */
  datatype Cell = Blank | Given(v: Val)

  /** One pixel row of a per-day tile: its real-world coordinates and the
      four index columns. */
  datatype Row = Row(x: real, y: real, ndvi: Cell, ndre: Cell, ndmi: Cell, gci: Cell)
  {
    function Field(b: Band): Cell
    {
      match b
      case NDVI => ndvi
      case NDRE => ndre
      case NDMI => ndmi
      case GCI => gci
    }
  }

  type Tile = seq<Row>

  /** A dictionary key: an ordered pair of coordinates. */
  type Key = (real, real)

  /** The per-band accumulator: every key to the list of values read for it. */
  type Stack = map<Key, seq<Val>>

  datatype Error =
    | KeyMissing(key: Key)          // the append branch indexes a key that is absent
    | NotANumber                    // float("") on the append branch
    | ShapeMismatch(cells: nat, expected: nat)  // reshape to height x width fails

  /** The key a row is written under: (Y, X). */
  function Stored(row: Row): Key { (row.y, row.x) }

  /** The key the membership test looks up: (X, Y). */
  function Probed(row: Row): Key { (row.x, row.y) }

  /** The value a cell contributes when its entry is overwritten: an empty
      field is first replaced by NaN. */
  function Blanked(c: Cell): Val { if c.Blank? then NaN else c.v }

  /** One row of the accumulation loop, as written: the (X, Y) probe decides
      between overwriting (Y, X) with a one-element list and appending to the
      list at (Y, X), which fails when (Y, X) is absent or the field is empty. */
  function AddRow(stack: Stack, row: Row, b: Band): Result<Stack, Error>
  {
    var cell := row.Field(b);
    if Probed(row) !in stack then
      Ok(stack[Stored(row) := [Blanked(cell)]])
    else if Stored(row) !in stack then
      Err(KeyMissing(Stored(row)))
    else if cell.Blank? then
      Err(NotANumber)
    else
      Ok(stack[Stored(row) := stack[Stored(row)] + [cell.v]])
  }

  /** A row fails exactly when its probe hits and its key is absent or its
      field is empty; otherwise the key of the row now holds a list: the
      field alone if the probe missed, else one more value; every other
      key is untouched. */
  lemma AddRowSpec(stack: Stack, row: Row, b: Band)
    ensures var r := AddRow(stack, row, b);
            && (r.Err? <==> Probed(row) in stack && (Stored(row) !in stack || row.Field(b).Blank?))
            && (r.Err? && Stored(row) !in stack ==> r.error == KeyMissing(Stored(row)))
            && (r.Ok? ==> r.value.Keys == stack.Keys + {Stored(row)})
            && (r.Ok? ==> forall k :: k in stack && k != Stored(row) ==> r.value[k] == stack[k])
            && (r.Ok? && Probed(row) !in stack ==> r.value[Stored(row)] == [Blanked(row.Field(b))])
            && (r.Ok? && Probed(row) in stack ==> r.value[Stored(row)] == stack[Stored(row)] + [row.Field(b).v])
  {
  }

  /** All rows of the tiles, tile after tile. */
  function Flatten(tiles: seq<Tile>): seq<Row>
  {
    if tiles == [] then [] else Flatten(tiles[..|tiles| - 1]) + tiles[|tiles| - 1]
  }

  /** The accumulator after reading `rows` in order, or the first error. */
  function Fold(rows: seq<Row>, b: Band): Result<Stack, Error>
  {
    if rows == [] then Ok(map[])
    else
      match Fold(rows[..|rows| - 1], b)
      case Err(e) => Err(e)
      case Ok(s) => AddRow(s, rows[|rows| - 1], b)
  }

  /** The keys rows are written under. */
  function StoredKeys(rows: seq<Row>): set<Key>
  {
    set i | 0 <= i < |rows| :: Stored(rows[i])
  }

  lemma StoredKeysSnoc(rows: seq<Row>)
    requires rows != []
    ensures StoredKeys(rows) == StoredKeys(rows[..|rows| - 1]) + {Stored(rows[|rows| - 1])}
  {
    var init := rows[..|rows| - 1];
    forall k | k in StoredKeys(rows)
      ensures k in StoredKeys(init) + {Stored(rows[|rows| - 1])}
    {
      var i :| 0 <= i < |rows| && Stored(rows[i]) == k;
      if i < |init| { assert Stored(init[i]) == k; }
    }
    forall k | k in StoredKeys(init)
      ensures k in StoredKeys(rows)
    {
      var i :| 0 <= i < |init| && Stored(init[i]) == k;
      assert Stored(rows[i]) == k;
    }
  }

  /** After a successful accumulation the keys are exactly the (Y, X) pairs
      of the rows read, and every key holds a non-empty list. */
  lemma {:induction false} FoldKeys(rows: seq<Row>, b: Band)
    ensures Fold(rows, b).Ok? ==> Fold(rows, b).value.Keys == StoredKeys(rows)
    ensures Fold(rows, b).Ok? ==> forall k :: k in Fold(rows, b).value ==> |Fold(rows, b).value[k]| > 0
  {
    if rows != [] {
      FoldKeys(rows[..|rows| - 1], b);
      StoredKeysSnoc(rows);
    }
  }

  /** Once a row fails, reading further rows keeps that failure. */
  lemma {:induction false} FoldErrSticks(p: seq<Row>, q: seq<Row>, b: Band)
    requires Fold(p, b).Err?
    ensures Fold(p + q, b) == Fold(p, b)
  {
    if q != [] {
      var q' := q[..|q| - 1];
      FoldErrSticks(p, q', b);
      assert (p + q)[..|p + q| - 1] == p + q';
    } else {
      assert p + q == p;
    }
  }

  lemma {:induction false} FlattenAppend(a: seq<Tile>, c: seq<Tile>)
    ensures Flatten(a + c) == Flatten(a) + Flatten(c)
  {
    if c != [] {
      var c' := c[..|c| - 1];
      FlattenAppend(a, c');
      assert (a + c)[..|a + c| - 1] == a + c';
    } else {
      assert a + c == a;
    }
  }

  /** No row's (X, Y) probe ever meets a key some row is written under, so
      the append branch is never taken. */
  ghost predicate NoSwapHit(rows: seq<Row>)
  {
    forall i, j :: 0 <= i < |rows| && 0 <= j < |rows| ==> Probed(rows[i]) != Stored(rows[j])
  }

  /** Row `i` is the last row written under its key. */
  ghost predicate LastWith(rows: seq<Row>, i: int)
    requires 0 <= i < |rows|
  {
    forall j :: i < j < |rows| ==> Stored(rows[j]) != Stored(rows[i])
  }

  /** As written, when no probe hits, accumulation never fails and every key
      holds just the value of the LAST row written under it: values of
      earlier days at the same coordinate are discarded, not averaged. */
  lemma {:induction false} FoldOverwrites(rows: seq<Row>, b: Band)
    requires NoSwapHit(rows)
    ensures Fold(rows, b).Ok?
    ensures forall i :: 0 <= i < |rows| && LastWith(rows, i) ==>
              Stored(rows[i]) in Fold(rows, b).value &&
              Fold(rows, b).value[Stored(rows[i])] == [Blanked(rows[i].Field(b))]
  {
    if rows != [] {
      var init, last := rows[..|rows| - 1], rows[|rows| - 1];
      NoSwapHitPrefix(rows);
      FoldOverwrites(init, b);
      FoldKeys(init, b);
      var s := Fold(init, b).value;
      var s' := s[Stored(last) := [Blanked(last.Field(b))]];
      assert Fold(rows, b) == Ok(s') by {
        assert rows[..|rows| - 1] == init;
      }
      LastValues(rows, b, s);
    }
  }

  /** Overwriting the last row's key keeps the values of the rows last
      written under other keys. */
  lemma LastValues(rows: seq<Row>, b: Band, s: Stack)
    requires rows != []
    requires forall i :: 0 <= i < |rows| - 1 && LastWith(rows[..|rows| - 1], i) ==>
               Stored(rows[i]) in s && s[Stored(rows[i])] == [Blanked(rows[i].Field(b))]
    ensures var last := rows[|rows| - 1];
            var s' := s[Stored(last) := [Blanked(last.Field(b))]];
            forall i :: 0 <= i < |rows| && LastWith(rows, i) ==>
              Stored(rows[i]) in s' && s'[Stored(rows[i])] == [Blanked(rows[i].Field(b))]
  {
    var last := rows[|rows| - 1];
    var s' := s[Stored(last) := [Blanked(last.Field(b))]];
    forall i | 0 <= i < |rows| && LastWith(rows, i)
      ensures Stored(rows[i]) in s' && s'[Stored(rows[i])] == [Blanked(rows[i].Field(b))]
    {
      if i < |rows| - 1 {
        LastWithPrefix(rows, i);
      }
    }
  }

  lemma NoSwapHitPrefix(rows: seq<Row>)
    requires rows != [] && NoSwapHit(rows)
    ensures NoSwapHit(rows[..|rows| - 1])
    ensures Probed(rows[|rows| - 1]) !in StoredKeys(rows[..|rows| - 1])
  {
    var init := rows[..|rows| - 1];

    forall i, j | 0 <= i < |init| && 0 <= j < |init|
      ensures Probed(init[i]) != Stored(init[j])
    {
      assert init[i] == rows[i] && init[j] == rows[j];
    }
  }

  lemma LastWithPrefix(rows: seq<Row>, i: int)
    requires 0 <= i < |rows| - 1 && LastWith(rows, i)
    ensures LastWith(rows[..|rows| - 1], i)
    ensures Stored(rows[|rows| - 1]) != Stored(rows[i])
  {
    var init := rows[..|rows| - 1];
    forall j | i < j < |init| ensures Stored(init[j]) != Stored(init[i]) {
      assert init[j] == rows[j];
    }
  }

  // ---------------------------------------------------------------------
  // Ordering of the keys: north to south (descending first component, the
  // Y coordinate), then west to east (ascending second component, X).

  predicate Before(a: Key, c: Key)
  {
    a.0 > c.0 || (a.0 == c.0 && a.1 < c.1)
  }

  predicate Ordered(ks: seq<Key>)
  {
    forall i, j :: 0 <= i < j < |ks| ==> Before(ks[i], ks[j])
  }

  /** `ks` lists exactly the members of `s`, in order. */
  ghost predicate Enumerates(ks: seq<Key>, s: set<Key>)
  {
    Ordered(ks) && forall q :: q in ks <==> q in s
  }

  /** Inserts a new key at its place in an ordered list. */
  function Insert(ks: seq<Key>, k: Key): (r: seq<Key>)
    requires Ordered(ks) && k !in ks
    ensures Ordered(r) && |r| == |ks| + 1
    ensures forall q :: q in r <==> q in ks || q == k
  {
    if ks == [] then [k]
    else if Before(k, ks[0]) then
      assert forall j :: 0 <= j < |ks| ==> Before(k, ks[j]) by {
        forall j | 0 < j < |ks| ensures Before(k, ks[j]) {
          assert Before(ks[0], ks[j]);
        }
      }
      [k] + ks
    else
      var rest := Insert(ks[1..], k);
      assert forall q :: q in rest ==> Before(ks[0], q) by {
        forall q | q in rest ensures Before(ks[0], q) {
          if q != k {
            var j :| 0 <= j < |ks[1..]| && ks[1..][j] == q;
            assert Before(ks[0], ks[j + 1]);
          }
        }
      }
      [ks[0]] + rest
  }

  lemma {:induction false} OrderedUnique(a: seq<Key>, c: seq<Key>)
    requires Ordered(a) && Ordered(c)
    requires forall q :: q in a <==> q in c
    ensures a == c
  {
    SameMembersEmpty(a, c);
    if a != [] {
      assert a[0] in a;
      assert c[0] in c;
      var i :| 0 <= i < |a| && a[i] == c[0];
      var j :| 0 <= j < |c| && c[j] == a[0];
      assert a[0] == c[0];
      forall q ensures q in a[1..] <==> q in c[1..] {
        if q in a[1..] {
          var k :| 0 <= k < |a[1..]| && a[1..][k] == q;
          assert Before(a[0], a[k + 1]);
          assert q == a[k + 1] && q in a && q in c;
          var m :| 0 <= m < |c| && c[m] == q;
          assert m != 0;
          assert c[1..][m - 1] == q;
        }
        if q in c[1..] {
          var k :| 0 <= k < |c[1..]| && c[1..][k] == q;
          assert Before(c[0], c[k + 1]);
          assert q == c[k + 1] && q in c && q in a;
          var m :| 0 <= m < |a| && a[m] == q;
          assert m != 0;
          assert a[1..][m - 1] == q;
        }
      }
      assert Ordered(a[1..]) && Ordered(c[1..]);
      OrderedUnique(a[1..], c[1..]);
      assert a == [a[0]] + a[1..] && c == [c[0]] + c[1..];
    }
  }

  /** Two sequences with the same members are empty together. */
  lemma SameMembersEmpty<T>(a: seq<T>, c: seq<T>)
    requires forall q :: q in a <==> q in c
    ensures a == [] <==> c == []
  {
    if a != [] {
      assert a[0] in a;
    }
    if c != [] {
      assert c[0] in c;
    }
  }

  lemma {:induction false} OrderedExists(s: set<Key>)
    ensures exists ks :: Enumerates(ks, s)
    decreases |s|
  {
    if s == {} {
      assert Enumerates([], s);
    } else {
      var k :| k in s;
      OrderedExists(s - {k});
      var ks :| Enumerates(ks, s - {k});
      assert Enumerates(Insert(ks, k), s);
    }
  }

  lemma {:induction false} OrderedCard(ks: seq<Key>, s: set<Key>)
    requires Enumerates(ks, s)
    ensures |ks| == |s|
    decreases |ks|
  {
    if ks != [] {
      var rest := s - {ks[0]};
      forall q ensures q in ks[1..] <==> q in rest {
        if q in ks[1..] {
          var k :| 0 <= k < |ks[1..]| && ks[1..][k] == q;
          assert Before(ks[0], ks[k + 1]);
        }
        if q in rest {
          var k :| 0 <= k < |ks| && ks[k] == q;
          assert ks[1..][k - 1] == q;
        }
      }
      OrderedCard(ks[1..], rest);
    }
  }

  /** The unique ordered listing of a key set (Python's `sorted` with key
      (-Y, X)); it has one entry per key. */
  ghost function Ordering(s: set<Key>): (ks: seq<Key>)
    ensures Enumerates(ks, s)
    ensures |ks| == |s|
  {
    OrderedExists(s);
    var ks :| Enumerates(ks, s);
    OrderedCard(ks, s);
    ks
  }

  /** Sorts the keys of the accumulator by repeated insertion. */
  method SortKeys(keys: set<Key>) returns (r: seq<Key>)
    ensures r == Ordering(keys)
  {
    r := [];
    var rest := keys;
    while rest != {}
      invariant rest <= keys
      invariant Ordered(r)
      invariant forall q :: q in r <==> q in keys && q !in rest
      decreases |rest|
    {
      var k :| k in rest;
      r := Insert(r, k);
      rest := rest - {k};
    }
    OrderedUnique(r, Ordering(keys));
  }

  // ---------------------------------------------------------------------
  // Reshape into height x width, row-major.

  lemma RowFits(i: nat, h: nat, w: nat)
    requires i < h
    ensures i * w + w <= h * w
  {
    assert (i + 1) * w <= h * w;
  }

  /** NumPy `reshape((h, w))` of a flat list: it fails unless the list has
      exactly h * w entries; entry i * w + j lands at row i, column j. */
  function Reshape(vals: seq<Val>, h: nat, w: nat): (r: Result<seq<seq<Val>>, Error>)
    ensures r.Err? <==> |vals| != h * w
    ensures r.Err? ==> r.error == ShapeMismatch(|vals|, h * w)
    ensures r.Ok? ==> |r.value| == h && forall i :: 0 <= i < h ==> |r.value[i]| == w
  {
    if |vals| != h * w then
      Err(ShapeMismatch(|vals|, h * w))
    else
      Ok(seq(h, i requires 0 <= i < h => RowFits(i, h, w); Chunk(vals, i, w)))
  }

  /** Row `i` of a grid `w` wide, cut from the flat list. */
  function Chunk(vals: seq<Val>, i: nat, w: nat): (c: seq<Val>)
    requires i * w + w <= |vals|
    ensures |c| == w
  {
    vals[i * w .. i * w + w]
  }

  /** Cell (i, j) of the grid is entry i * w + j of the flat list. */
  lemma ReshapeCell(vals: seq<Val>, h: nat, w: nat, i: nat, j: nat)
    requires Reshape(vals, h, w).Ok? && i < h && j < w
    ensures i * w + j < |vals|
    ensures Reshape(vals, h, w).value[i][j] == vals[i * w + j]
  {
    RowFits(i, h, w);
  }

  /** The k-th value of the flat list lands at row k div w, column k mod w. */
  lemma ReshapePosition(vals: seq<Val>, h: nat, w: nat, k: nat)
    requires Reshape(vals, h, w).Ok? && k < |vals|
    ensures w > 0 && k / w < h && k % w < w
    ensures Reshape(vals, h, w).value[k / w][k % w] == vals[k]
  {
    var i, j := k / w, k % w;
    assert k == i * w + j;
    ReshapeCell(vals, h, w, i, j);
  }

  // ---------------------------------------------------------------------
  // Georeferencing, taken from the first tile only.

  /** Origin of the output raster: smallest X and largest Y of a tile (pandas
      `min`/`max` of an empty column is NaN). */
  datatype Georef = Georef(minX: Val, maxY: Val)

  function Least(xs: seq<real>): (m: real)
    requires |xs| > 0
    ensures m in xs && forall i :: 0 <= i < |xs| ==> m <= xs[i]
  {
    if |xs| == 1 then xs[0]
    else
      var m' := Least(xs[1..]);
      if xs[0] <= m' then xs[0] else m'
  }

  function Greatest(xs: seq<real>): (m: real)
    requires |xs| > 0
    ensures m in xs && forall i :: 0 <= i < |xs| ==> xs[i] <= m
  {
    if |xs| == 1 then xs[0]
    else
      var m' := Greatest(xs[1..]);
      if m' <= xs[0] then xs[0] else m'
  }

  function TileGeoref(t: Tile): Georef
  {
    if t == [] then Georef(NaN, NaN)
    else
      Georef(Num(Least(seq(|t|, i requires 0 <= i < |t| => t[i].x))),
             Num(Greatest(seq(|t|, i requires 0 <= i < |t| => t[i].y))))
  }

  /** The georeferencing of every band: that of the first tile, if any. */
  function FirstGeoref(tiles: seq<Tile>): Option<Georef>
  {
    if tiles == [] then None else Some(TileGeoref(tiles[0]))
  }

  // ---------------------------------------------------------------------
  // The reducer.

  /** One band of the output raster and the origin it is written with. */
  datatype BandOut = BandOut(grid: seq<seq<Val>>, georef: Option<Georef>)

  /** The averaged value of every key, listed in key order. */
  ghost function OrderedMeans(stack: Stack): (vals: seq<Val>)
    requires forall k :: k in stack ==> |stack[k]| > 0
    ensures |vals| == |stack.Keys|
  {
    var keys := Ordering(stack.Keys);
    seq(|keys|, i requires 0 <= i < |keys| => Average(stack[keys[i]]))
  }

  /** What one pass of the band loop produces, or the error it raises. */
  ghost function BandSpec(tiles: seq<Tile>, b: Band, h: nat, w: nat): Result<BandOut, Error>
  {
    var rows := Flatten(tiles);
    match Fold(rows, b)
    case Err(e) => Err(e)
    case Ok(stack) =>
      FoldKeys(rows, b);
      match Reshape(OrderedMeans(stack), h, w)
      case Err(e) => Err(e)
      case Ok(grid) => Ok(BandOut(grid, FirstGeoref(tiles)))
  }

  /** The first `n` bands of the output raster, or the first error. */
  ghost function BandsSpec(tiles: seq<Tile>, h: nat, w: nat, n: nat): Result<seq<BandOut>, Error>
    requires n <= |Bands|
  {
    if n == 0 then Ok([])
    else
      match BandsSpec(tiles, h, w, n - 1)
      case Err(e) => Err(e)
      case Ok(outs) =>
        match BandSpec(tiles, Bands[n - 1], h, w)
        case Err(e) => Err(e)
        case Ok(o) => Ok(outs + [o])
  }

  /** The whole mosaic: all four bands, or the first error raised. */
  ghost function MosaicSpec(tiles: seq<Tile>, h: nat, w: nat): Result<seq<BandOut>, Error>
  {
    BandsSpec(tiles, h, w, |Bands|)
  }

  /** The row loop over one tile, continuing an accumulation that has read
      `done` so far. */
  method AccumulateTile(stack: Stack, tile: Tile, b: Band, ghost done: seq<Row>) returns (r: Result<Stack, Error>)
    requires Fold(done, b) == Ok(stack)
    ensures r == Fold(done + tile, b)
  {
    var acc := stack;
    var j := 0;
    assert done + tile[..j] == done;
    while j < |tile|
      invariant 0 <= j <= |tile|
      invariant Fold(done + tile[..j], b) == Ok(acc)
    {
      var row := tile[j];
      var cell := row.Field(b);
      assert Fold(done + tile[..j + 1], b) == AddRow(acc, row, b) by {
        assert (done + tile[..j + 1])[..|done + tile[..j + 1]| - 1] == done + tile[..j];
      }
      if (row.x, row.y) !in acc {
        acc := acc[(row.y, row.x) := [if cell.Blank? then NaN else cell.v]];
      } else if (row.y, row.x) !in acc {
        r := Err(KeyMissing((row.y, row.x)));
        FoldErrSticks(done + tile[..j + 1], tile[j + 1..], b);
        assert done + tile[..j + 1] + tile[j + 1..] == done + tile;
        return;
      } else if cell.Blank? {
        r := Err(NotANumber);
        FoldErrSticks(done + tile[..j + 1], tile[j + 1..], b);
        assert done + tile[..j + 1] + tile[j + 1..] == done + tile;
        return;
      } else {
        acc := acc[(row.y, row.x) := acc[(row.y, row.x)] + [cell.v]];
      }
      j := j + 1;
    }
    assert tile[..j] == tile;
    r := Ok(acc);
  }

  /** The accumulation loop of one band over the tiles. The origin is taken
      after the first tile's rows have been read and never again. */
  method AccumulateBand(tiles: seq<Tile>, b: Band) returns (r: Result<Stack, Error>, georef: Option<Georef>)
    ensures r == Fold(Flatten(tiles), b)
    ensures r.Ok? ==> georef == FirstGeoref(tiles)
  {
    var stack: Stack := map[];
    georef := None;
    var i := 0;
    while i < |tiles|
      invariant 0 <= i <= |tiles|
      invariant Fold(Flatten(tiles[..i]), b) == Ok(stack)
      invariant georef == FirstGeoref(tiles[..i])
    {
      assert tiles[..i + 1][..i] == tiles[..i];
      var next := AccumulateTile(stack, tiles[i], b, Flatten(tiles[..i]));
      if next.Err? {
        r := next;
        assert tiles == tiles[..i + 1] + tiles[i + 1..];
        FlattenAppend(tiles[..i + 1], tiles[i + 1..]);
        FoldErrSticks(Flatten(tiles[..i + 1]), Flatten(tiles[i + 1..]), b);
        return;
      }
      stack := next.value;
      if georef.None? {
        georef := Some(TileGeoref(tiles[i]));
      }
      i := i + 1;
    }
    assert tiles[..i] == tiles;
    r := Ok(stack);
  }

  /** Replaces every key's list by its average, one key at a time. */
  method ReduceMeans(stack: Stack) returns (means: map<Key, Val>)
    requires forall k :: k in stack ==> |stack[k]| > 0
    ensures means.Keys == stack.Keys
    ensures forall k :: k in stack ==> means[k] == Average(stack[k])
  {
    means := map[];
    var todo := stack.Keys;
    while todo != {}
      invariant todo <= stack.Keys
      invariant means.Keys == stack.Keys - todo
      invariant forall k :: k in means ==> means[k] == Average(stack[k])
      decreases |todo|
    {
      var k :| k in todo;
      means := means[k := Average(stack[k])];
      todo := todo - {k};
    }
  }

  /** One band: accumulate, average, order the keys, reshape. */
  method ReduceBand(tiles: seq<Tile>, b: Band, h: nat, w: nat) returns (r: Result<BandOut, Error>)
    ensures r == BandSpec(tiles, b, h, w)
  {
    var acc, georef := AccumulateBand(tiles, b);
    if acc.Err? {
      return Err(acc.error);
    }
    var stack := acc.value;
    FoldKeys(Flatten(tiles), b);
    var means := ReduceMeans(stack);
    var keys := SortKeys(stack.Keys);
    var data := seq(|keys|, i requires 0 <= i < |keys| => means[keys[i]]);
    assert data == OrderedMeans(stack);
    var grid := Reshape(data, h, w);
    if grid.Err? {
      return Err(grid.error);
    }
    r := Ok(BandOut(grid.value, georef));
  }

  /** The band loop of the reducer: the bands in order, stopping at the first
      error. */
  method Reduce(tiles: seq<Tile>, h: nat, w: nat) returns (r: Result<seq<BandOut>, Error>)
    ensures r == MosaicSpec(tiles, h, w)
  {
    var outs: seq<BandOut> := [];
    var n := 0;
    while n < |Bands|
      invariant 0 <= n <= |Bands|
      invariant BandsSpec(tiles, h, w, n) == Ok(outs)
    {
      var o := ReduceBand(tiles, Bands[n], h, w);
      if o.Err? {
        r := Err(o.error);
        BandsErrSticks(tiles, h, w, n + 1);
        return;
      }
      outs := outs + [o.value];
      n := n + 1;
    }
    r := Ok(outs);
  }

  lemma {:induction false} BandsErrSticks(tiles: seq<Tile>, h: nat, w: nat, n: nat)
    requires 0 < n <= |Bands| && BandsSpec(tiles, h, w, n).Err?
    ensures MosaicSpec(tiles, h, w) == BandsSpec(tiles, h, w, n)
    decreases |Bands| - n
  {
    if n < |Bands| {
      BandsErrSticks(tiles, h, w, n + 1);
    }
  }

  // ---------------------------------------------------------------------
  // Properties of the reducer.

  /** A band fails with the accumulation's error, or with a size mismatch
      exactly when the number of distinct (Y, X) keys is not height x width. */
  lemma BandOutcome(tiles: seq<Tile>, b: Band, h: nat, w: nat)
    ensures Fold(Flatten(tiles), b).Err? ==> BandSpec(tiles, b, h, w) == Err(Fold(Flatten(tiles), b).error)
    ensures Fold(Flatten(tiles), b).Ok? ==>
              (BandSpec(tiles, b, h, w).Ok? <==> |StoredKeys(Flatten(tiles))| == h * w)
    ensures Fold(Flatten(tiles), b).Ok? && BandSpec(tiles, b, h, w).Err? ==>
              BandSpec(tiles, b, h, w).error == ShapeMismatch(|StoredKeys(Flatten(tiles))|, h * w)
  {
    FoldKeys(Flatten(tiles), b);
  }

  /** The k-th key in north-to-south, west-to-east order lands at row
      k div w, column k mod w, holding the average of the values read for
      it; the band's origin is the first tile's. */
  lemma BandCells(tiles: seq<Tile>, b: Band, h: nat, w: nat, k: nat)
    requires BandSpec(tiles, b, h, w).Ok? && k < h * w
    ensures Fold(Flatten(tiles), b).Ok?
    ensures var stack := Fold(Flatten(tiles), b).value;
            var keys := Ordering(stack.Keys);
            && k < |keys| && 0 < w && k / w < h && k % w < w
            && |stack[keys[k]]| > 0
            && BandSpec(tiles, b, h, w).value.grid[k / w][k % w] == Average(stack[keys[k]])
    ensures BandSpec(tiles, b, h, w).value.georef == FirstGeoref(tiles)
  {
    var stack := Fold(Flatten(tiles), b).value;
    FoldKeys(Flatten(tiles), b);
    ReshapePosition(OrderedMeans(stack), h, w, k);
  }

  /** With no tiles and a non-empty grid, the reshape fails. */
  lemma NoTilesFails(h: nat, w: nat)
    requires h * w > 0
    ensures MosaicSpec([], h, w) == Err(ShapeMismatch(0, h * w))
  {
    BandOutcome([], NDVI, h, w);
    assert StoredKeys(Flatten([])) == {};
    assert BandsSpec([], h, w, 1) == Err(ShapeMismatch(0, h * w));
    BandsErrSticks([], h, w, 1);
  }

  /** As written, when no probe hits, the mean stored for a coordinate is
      the value of the last row read at that coordinate: with one tile it
      reproduces the tile (an empty field as NaN), with several it is the
      LAST tile's value rather than the mean over the tiles. */
  lemma {:induction false} MeansAsWritten(rows: seq<Row>, b: Band, i: nat)
    requires NoSwapHit(rows) && i < |rows| && LastWith(rows, i)
    ensures Fold(rows, b).Ok? && Stored(rows[i]) in Fold(rows, b).value
    ensures |Fold(rows, b).value[Stored(rows[i])]| == 1
    ensures Average(Fold(rows, b).value[Stored(rows[i])]) == Blanked(rows[i].Field(b))
  {
    FoldOverwrites(rows, b);
    AverageOfOne(Blanked(rows[i].Field(b)));
  }

  /** Every band of a successful mosaic is that band's pass of the loop and
      carries the first tile's origin. */
  lemma {:induction false} MosaicBands(tiles: seq<Tile>, h: nat, w: nat, n: nat)
    requires n <= |Bands| && BandsSpec(tiles, h, w, n).Ok?
    ensures |BandsSpec(tiles, h, w, n).value| == n
    ensures forall m :: 0 <= m < n ==>
              BandSpec(tiles, Bands[m], h, w) == Ok(BandsSpec(tiles, h, w, n).value[m])
    ensures forall m :: 0 <= m < n ==> BandsSpec(tiles, h, w, n).value[m].georef == FirstGeoref(tiles)
  {
    if n > 0 {
      MosaicBands(tiles, h, w, n - 1);
      var outs := BandsSpec(tiles, h, w, n - 1).value;
      var o := BandSpec(tiles, Bands[n - 1], h, w).value;
      assert BandsSpec(tiles, h, w, n).value == outs + [o];
      forall m | 0 <= m < n
        ensures BandSpec(tiles, Bands[m], h, w) == Ok(BandsSpec(tiles, h, w, n).value[m])
        ensures BandsSpec(tiles, h, w, n).value[m].georef == FirstGeoref(tiles)
      {
        if m < n - 1 {
          assert (outs + [o])[m] == outs[m];
        }
      }
    }
  }

  // ---------------------------------------------------------------------
  // The two-day counterexample to averaging, and the intended step.

  /** The same pixel, X = 1 and Y = 2, on two days with NDVI 0.1 and 0.3. */
  function TwoDays(): seq<Tile>
  {
    [[Row(1.0, 2.0, Given(Num(0.1)), Blank, Blank, Blank)],
     [Row(1.0, 2.0, Given(Num(0.3)), Blank, Blank, Blank)]]
  }

  /** As written, the second day's row overwrites the first day's value
      under the swapped key. */
  lemma SwapFold()
    ensures Fold(Flatten(TwoDays()), NDVI) == Ok(map[(2.0, 1.0) := [Num(0.3)]])
  {
    TwoDaysRows();
    var r1, r2 := Row(1.0, 2.0, Given(Num(0.1)), Blank, Blank, Blank), Row(1.0, 2.0, Given(Num(0.3)), Blank, Blank, Blank);
    assert [r1, r2][..1] == [r1] && [r1][..0] == [];
    var s1 := map[(2.0, 1.0) := [Num(0.1)]];
    assert Fold([r1], NDVI) == Ok(s1);
    assert Fold([r1, r2], NDVI) == AddRow(s1, r2, NDVI);
    assert AddRow(s1, r2, NDVI) == Ok(s1[(2.0, 1.0) := [Num(0.3)]]);
    assert s1[(2.0, 1.0) := [Num(0.3)]] == map[(2.0, 1.0) := [Num(0.3)]];
  }

  /** A single key holding a single value becomes a 1 x 1 grid of it. */
  lemma SwapGrid()
    ensures Reshape(OrderedMeans(map[(2.0, 1.0) := [Num(0.3)]]), 1, 1) == Ok([[Num(0.3)]])
  {
    var s2 := map[(2.0, 1.0) := [Num(0.3)]];
    OrderedUnique(Ordering(s2.Keys), [(2.0, 1.0)]);
    AverageOfOne(Num(0.3));
    assert OrderedMeans(s2) == [Num(0.3)];
    var grid := Reshape([Num(0.3)], 1, 1).value;
    ReshapeCell([Num(0.3)], 1, 1, 0, 0);
    assert |grid| == 1 && |grid[0]| == 1;
    assert grid[0] == [Num(0.3)];
    assert grid == [[Num(0.3)]];
  }

  /** The georeference comes from the first day's tile. */
  lemma SwapGeoref()
    ensures FirstGeoref(TwoDays()) == Some(Georef(Num(1.0), Num(2.0)))
  {
    var tile := TwoDays()[0];
    var xs := seq(|tile|, i requires 0 <= i < |tile| => tile[i].x);
    assert xs == [1.0];
    var ys := seq(|tile|, i requires 0 <= i < |tile| => tile[i].y);
    assert ys == [2.0];
  }

  /** As written, the 1 x 1 NDVI band of `TwoDays` holds 0.3, the second
      day's value, where the mean over the days is 0.2. */
  lemma SwapCounterexample()
    ensures BandSpec(TwoDays(), NDVI, 1, 1) == Ok(BandOut([[Num(0.3)]], Some(Georef(Num(1.0), Num(2.0)))))
  {
    SwapFold();
    SwapGrid();
    SwapGeoref();
  }

  /** The evidently intended step: probe and write the same key (Y, X), and
      treat an empty field as NaN on both branches. */
  function AddRowIntended(stack: Stack, row: Row, b: Band): (r: Stack)
    ensures r.Keys == stack.Keys + {Stored(row)}
    ensures forall k :: k in stack && k != Stored(row) ==> r[k] == stack[k]
  {
    var v := Blanked(row.Field(b));
    if Stored(row) in stack then stack[Stored(row) := stack[Stored(row)] + [v]]
    else stack[Stored(row) := [v]]
  }

  function FoldIntended(rows: seq<Row>, b: Band): Stack
  {
    if rows == [] then map[] else AddRowIntended(FoldIntended(rows[..|rows| - 1], b), rows[|rows| - 1], b)
  }

  /** The values of the rows written under key `k`, in reading order. */
  function ValuesAt(rows: seq<Row>, b: Band, k: Key): seq<Val>
  {
    if rows == [] then []
    else ValuesAt(rows[..|rows| - 1], b, k)
         + (if Stored(rows[|rows| - 1]) == k then [Blanked(rows[|rows| - 1].Field(b))] else [])
  }

  /** With the intended step, every key of the rows collects the values of
      ALL rows at that coordinate, in order, so the reducer averages over
      every tile that has the pixel. */
  lemma {:induction false} IntendedCollects(rows: seq<Row>, b: Band)
    ensures FoldIntended(rows, b).Keys == StoredKeys(rows)
    ensures forall k :: k in FoldIntended(rows, b) ==> FoldIntended(rows, b)[k] == ValuesAt(rows, b, k)
  {
    if rows != [] {
      IntendedCollects(rows[..|rows| - 1], b);
      StoredKeysSnoc(rows);
      var init := rows[..|rows| - 1];
      forall k | k !in StoredKeys(init) ensures ValuesAt(init, b, k) == [] {
        ValuesAtAbsent(init, b, k);
      }
    }
  }

  lemma {:induction false} ValuesAtAbsent(rows: seq<Row>, b: Band, k: Key)
    requires k !in StoredKeys(rows)
    ensures ValuesAt(rows, b, k) == []
  {
    if rows != [] {
      StoredKeysSnoc(rows);
      ValuesAtAbsent(rows[..|rows| - 1], b, k);
    }
  }

  /** The rows of `TwoDays`, the first day's before the second's. */
  lemma TwoDaysRows()
    ensures Flatten(TwoDays()) ==
              [Row(1.0, 2.0, Given(Num(0.1)), Blank, Blank, Blank), Row(1.0, 2.0, Given(Num(0.3)), Blank, Blank, Blank)]
  {
    var tiles := TwoDays();
    assert tiles[..1] == [tiles[0]] && tiles[..1][..0] == [];
    assert Flatten(tiles[..1]) == Flatten([]) + tiles[0];
  }

  /** With the intended step, the two days of `TwoDays` average to 0.2. */
  lemma IntendedMidpoint()
    ensures (2.0, 1.0) in FoldIntended(Flatten(TwoDays()), NDVI)
    ensures FoldIntended(Flatten(TwoDays()), NDVI)[(2.0, 1.0)] == [Num(0.1), Num(0.3)]
    ensures Average(FoldIntended(Flatten(TwoDays()), NDVI)[(2.0, 1.0)]) == Num(0.2)
  {
    TwoDaysRows();
    var r1, r2 := Row(1.0, 2.0, Given(Num(0.1)), Blank, Blank, Blank), Row(1.0, 2.0, Given(Num(0.3)), Blank, Blank, Blank);
    assert [r1, r2][..1] == [r1] && [r1][..0] == [];
    var s1 := map[(2.0, 1.0) := [Num(0.1)]];
    assert FoldIntended([r1], NDVI) == s1;
    var s2 := FoldIntended([r1, r2], NDVI);
    assert s2 == AddRowIntended(s1, r2, NDVI);
    assert Stored(r2) == (2.0, 1.0) && Stored(r2) in s1;
    assert [Num(0.1)] + [Num(0.3)] == [Num(0.1), Num(0.3)];
    assert s2 == s1[(2.0, 1.0) := [Num(0.1), Num(0.3)]];
    MidpointOfTwoDays(s2[(2.0, 1.0)]);
  }

  lemma MidpointOfTwoDays(vs: seq<Val>)
    requires vs == [Num(0.1), Num(0.3)]
    ensures Average(vs) == Num(0.2)
  {
    AverageOfTwo(0.1, 0.3);
  }

}
