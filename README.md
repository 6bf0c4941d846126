# agro_sentinel core, modelled in Dafny

agro_sentinel downloads daily Sentinel-2 vegetation-index tiles (NDVI,
NDRE, NDMI, GCI) for a polygon and merges them into one averaged raster.
It also summarises the per-day pixel tables of an area as a short
agronomic description in Italian. This project models the decision logic
of the two scripts and proves properties of that model:

- `mosaic.dfy` (module `Mosaic`): the mosaic reducer of `src/main.py`.
  - Per band, every tile is read row by row into a dictionary of
    coordinate pairs.
  - Each list is replaced by its NumPy average.
  - The keys are ordered north-to-south, then west-to-east, and reshaped
    row-major into an `int(height) x int(width)` grid.
  - The georeference comes from the first tile.
  - `AccumulateTile`, `AccumulateBand`, `ReduceMeans`, `SortKeys`,
    `ReduceBand` and `Reduce` are the loops, as methods over a `map`. Each
    is proved equal to the functional specification (`Fold`, `BandSpec`,
    `MosaicSpec`).
- `utm.dfy` (module `Utm`): the UTM zone and EPSG code chosen from the
  mean longitude and latitude of the area polygon.
- `acquisition.dfy` (module `Acquisition`): the day loop of `src/main.py`.
  - Its variables are the fields of the class `Driver`, which `Step` and
    `Drive` update in place.
  - `Next`/`Run` are the state machine they are proved against.
  - It covers the per-minute request window, the token refresh, the cache
    skip and the list of images to mosaic.
- `calendar.dfy` (module `Calendar`): the day iteration shared by both
  scripts.
  - An instant is a count of seconds since 0001-01-01T00:00:00.
  - It models Python's proleptic Gregorian calendar and `isoformat()`.
  - It builds the per-day CSV name. Both scripts use that one definition,
    `CsvName`, so the name the aggregation reads is the name the download
    writes.
- `indices.dfy` (module `Indices`): `describe_indices` of
  `src/resume_img.py`.
  - It models first-threshold-wins texts for NDVI, NDMI and GCI, and the
    five health categories of the GCI/NDRE ratio.
  - The ratio uses IEEE semantics (infinities, NaN), and the parts are
    joined with `", "`.
  - `Describe` is the loop with `continue` and `break`, proved equal to
    `Description`.
- `summary.dfy` (module `Summary`): the top-level loop of
  `src/resume_img.py`.
  - The row filter keeps rows whose four indices are non-zero.
  - Each day's means skip NaN, as pandas does.
  - The four lists are appended only for files that exist.
  - The final averages use `np.average`, and the description is built from
    them.
- `numeric.dfy` (module `Numeric`): a value is `NaN` or a real. It defines
  `np.average` (NaN-propagating) and the pandas mean (NaN-skipping).

In these places the model keeps what the code does:

- The mosaic average does not skip missing values. `np.average` makes a
  key's value NaN as soon as one accumulated value is NaN.
- A pixel is accumulated under the swapped key, so a key normally keeps
  only the last tile's value (see Findings).
- `np.average` of an empty list yields NaN rather than an error, so a
  range of days without files still produces a description.
- The GCI/NDRE division is modelled, not assumed non-zero.

The wall clock, the authentication service and the image service are
inputs. Each day of `Drive` receives a `DayInputs`: the clock reading, the
credential a re-authentication would return, and whether the fetch wrote
the file. Files on disk are a set of names (`Driver.files`) for the
download, and a map from name to pixel rows for the aggregation.

## Model

| member | source | states |
|---|---|---|
| Mosaic.AddRowSpec | src/main.py:212-219 | A row fails exactly when the (X, Y) probe hits and either (Y, X) is absent (KeyError) or the field is empty (`float("")`). Otherwise (Y, X) holds either the field alone (probe missed; an empty field becomes NaN) or one more value (probe hit). No other key changes. |
| Mosaic.FoldKeys | src/main.py:206-219 | After all rows, the dictionary's keys are exactly the (Y, X) pairs of the rows read, and every key holds a non-empty list. |
| Mosaic.FoldErrSticks | src/main.py:208-219 | Once a row raises, the band's outcome is that error whatever rows follow. |
| Mosaic.FoldOverwrites | src/main.py:212-217 | When no probe ever hits, the band succeeds and every key holds only the value of the last row stored under it. |
| Mosaic.MeansAsWritten | src/main.py:212-231 | When no probe hits, a key's average is the last row's value (NaN for an empty field), not a mean over days. |
| Mosaic.AccumulateTile | src/main.py:212-219 | The row loop over one tile equals folding the step over the rows read so far plus the tile's rows. |
| Mosaic.AccumulateBand | src/main.py:205-228 | The tile loop for one band equals the fold over all tiles' rows. On success the georeference is that of the first tile. |
| Mosaic.Least | src/main.py:223 | `minX`: a member of the X column, at most every X. |
| Mosaic.Greatest | src/main.py:224 | `maxY`: a member of the Y column, at least every Y. |
| Mosaic.ReduceMeans | src/main.py:230-231 | Every key keeps its place, and its list is replaced by its NumPy average. |
| Numeric.AverageBounds | src/main.py:231 | The NumPy average of NaN-free values that all lie in [lo, hi) is a number in [lo, hi). |
| Numeric.AverageOfOne | src/main.py:231 | The average of a one-element list is that element. |
| Mosaic.Insert | src/main.py:233 | Inserting a new key into an ordered list keeps it ordered by descending Y then ascending X, and adds exactly that key. |
| Mosaic.OrderedUnique | src/main.py:233 | Two ordered lists with the same members are equal: the order of the keys is unique. |
| Mosaic.OrderedCard | src/main.py:233 | An ordered enumeration of a key set has exactly one entry per key. |
| Mosaic.Ordering | src/main.py:233 | The sorted keys enumerate the key set in order, one entry per key. |
| Mosaic.SortKeys | src/main.py:233 | The insertion loop produces exactly `Ordering` of the key set. |
| Mosaic.Reshape | src/main.py:234 | The reshape fails exactly when the value count differs from height x width. On success the grid has height rows of width cells. |
| Mosaic.ReshapeCell | src/main.py:234 | Cell (i, j) of the grid is value i * width + j. |
| Mosaic.ReshapePosition | src/main.py:234 | The k-th value lands at row k div width, column k mod width. |
| Mosaic.OrderedMeans | src/main.py:233-234 | The list handed to the reshape has one average per distinct key. |
| Mosaic.ReduceBand | src/main.py:205-234 | One pass of the band loop computes `BandSpec`. |
| Mosaic.BandOutcome | src/main.py:206-234 | A band fails with the accumulation error, or else with a shape mismatch exactly when the number of distinct (Y, X) keys differs from height x width. |
| Mosaic.BandCells | src/main.py:221-234 | In a successful band, grid cell (k div width, k mod width) is the NumPy average of the k-th key in order. The band's georeference is the first tile's. |
| Mosaic.Reduce | src/main.py:193-244 | The band loop over the four bands computes `MosaicSpec`: all four bands, or the first error. |
| Mosaic.BandsErrSticks | src/main.py:205-244 | The first failing band decides the outcome of the whole reducer. |
| Mosaic.MosaicBands | src/main.py:205-244 | A successful run has one band per index, each band is `BandSpec` of its index, and every band has the first tile's georeference. |
| Mosaic.NoTilesFails | src/main.py:230-234 | With no tiles and a non-empty grid, the reducer fails with a shape mismatch of 0 cells. |
| Mosaic.SwapCounterexample | src/main.py:213-219 | As written, two days with NDVI 0.1 and 0.3 at one pixel give a 1 x 1 band holding 0.3, georeferenced at (1.0, 2.0). |
| Mosaic.AddRowIntended | src/main.py:213-219 | The intended step adds the row's (Y, X) key and leaves every other key unchanged. |
| Mosaic.IntendedCollects | src/main.py:206-219 | With the intended step, each key holds every value stored under it, in row order. |
| Mosaic.IntendedMidpoint | src/main.py:206-231 | With the intended step, the two days of the counterexample average to 0.2. |
| Utm.Trunc | src/main.py:255 | `int()` truncates toward zero: the floor for non-negative reals, the ceiling for negative ones. |
| Utm.ZoneBand | src/main.py:255 | East of -180 degrees, the zone is z exactly when the mean longitude lies in the z-th 6-degree band. |
| Utm.ZoneRange | src/main.py:255 | For a mean longitude in [-180, 180) the zone is in 1..60. |
| Utm.TruncationWestOfRange | src/main.py:255 | Truncation toward zero puts -183 degrees in zone 1 and -186 degrees in zone 0. |
| Utm.EpsgRange | src/main.py:256 | For zones 1..60 the code is in 32601..32660 north of the equator or on it, and 32701..32760 south of it. Its last two digits are the zone. |
| Utm.SelectProjection | src/main.py:248-256 | Selection fails exactly for an empty polygon, whose mean is NaN. With every longitude in [-180, 180), the zone is in 1..60 and its 6-degree band holds the mean longitude. The code ends in the zone's two digits, and starts 326 exactly when the mean latitude is not negative and 327 exactly when it is negative. |
| Acquisition.Driver.constructor | src/main.py:312-317 | The fields start as `Initial`: the window opens at the first clock reading, and the token expires half its lifetime after the second. |
| Acquisition.Driver.Step | src/main.py:322-366 | One day updates the fields to `Next` and reports whether a request was made. The request is made exactly when overwriting is on or the file is missing. |
| Acquisition.Driver.Drive | src/main.py:312-368 | The loop from start to end leaves the fields as `Run` over the day files in order, and returns the number of requests made. |
| Acquisition.RequestCountBound | src/main.py:328-336 | With a rate of at least 2, each request leaves the counter in 1..rate-1. |
| Acquisition.RunCountBound | src/main.py:314-362 | With a rate of at least 2, the counter stays in 0..rate-1 across any run, and is at least 1 once a request has been made. |
| Acquisition.CounterCountsRequests | src/main.py:328-362 | While no day closes the window or pauses, the counter grows by exactly the number of requests made. |
| Acquisition.WindowCap | src/main.py:328-362 | With a rate of at least 2, at most rate - 1 requests are made between resets, counting those already in the window. |
| Acquisition.RateOneUnbounded | src/main.py:328-336 | With a rate of 1 and every clock reading inside the window, the counter grows by one per day and the window never restarts. |
| Acquisition.WindowAfterRequest | src/main.py:328-336 | After a request the window start is at most `now`, and `now` is less than 60 seconds after it. |
| Acquisition.TokenRefresh | src/main.py:339-342 | The token is refreshed exactly when `now >= exp`, and then `exp = now + expires_in * 0.5`. For a positive lifetime, `now < exp` holds afterwards. |
| Acquisition.ExpiryMonotone | src/main.py:339-342 | With positive lifetimes, the expiry never moves back. |
| Acquisition.CacheSkip | src/main.py:325-366 | With overwriting off and the file on disk, no request is made. Only the image list may change, and only when `show` is on. |
| Acquisition.ImagesExist | src/main.py:354-366 | Files are never lost, and every listed image is a file on disk. |
| Acquisition.HiddenImages | src/main.py:364 | With `show` off, the image list never changes. |
| Acquisition.ImagesInOrder | src/main.py:364-368 | The image list only grows. What a run adds is a subsequence of the day files, in day order. |
| Acquisition.CachedRerun | src/main.py:325-366 | Re-running with overwriting off over days whose files all exist makes no request. It lists those files as images when `show` is on and changes nothing else. |
| Calendar.DaysShape | src/resume_img.py:93-117 | The loop visits start, start + 1 day, and so on while the day is at most end: (end - start) div 1 day + 1 days, or none when start > end. |
| Calendar.DayEnd | src/resume_img.py:95 | A day's end lies within the same 24 hours as its start. |
| Calendar.CivilDateRoundTrip | src/resume_img.py:94 | Every day number maps to a valid proleptic Gregorian date (month 1..12, day within its month under Python's leap-year rule), and counting the days before that date gives the day number back. |
| Calendar.MonthDayInverse | src/resume_img.py:94 | Splitting a day of a year into month and day gives a day within that month, and the days before that month plus the day give the day of the year back. |
| Calendar.IsoShape | src/resume_img.py:94-95 | Up to year 9999, `isoformat()` of an instant is 19 characters: '-' at 4 and 7, 'T' at 10, ':' at 13 and 16, and the zero-padded year, month, day, hours, minutes and seconds each in its own slot. |
| Calendar.CivilDateFirstDay | src/resume_img.py:94 | Day 0 is 0001-01-01. |
| Calendar.CivilDateLeapDay | src/resume_img.py:94 | Day 1154 is 0004-02-29, the first leap day. |
| Calendar.CivilDate2024 | src/resume_img.py:94 | Day 738885 is 2024-01-01, as in Python's `date.fromordinal(738886)`. |
| Calendar.HyphenateSpec | src/resume_img.py:99 | `replace(':', '-')` keeps the length, replaces every colon by a hyphen, keeps every other character, and leaves no colon. |
| Calendar.Basename | src/resume_img.py:83 | `os.path.basename` is the longest suffix without a slash. |
| Calendar.BeforeDot | src/resume_img.py:83 | `split('.')[0]` is the longest prefix without a dot. |
| Calendar.CsvNameParts | src/main.py:323 | The day's name, here and in `src/resume_img.py:99`, is `../data/`, the area stem, `_`, the hyphenated start, `_`, the hyphenated end and `_pixels.csv`. The two date parts hold no colon, and the stem holds no slash or dot. |
| Calendar.DayFilesDays | src/resume_img.py:93-99 | The loop's file names are, day by day, the CSV name of each visited day. |
| Numeric.SkipNaNMean | src/resume_img.py:106-109 | The pandas mean is NaN exactly when every entry is NaN (in particular for an empty table). |
| Numeric.NumbersCount | src/resume_img.py:106-109 | Skipping NaN keeps each number as many times as the column holds it. |
| Numeric.SkipNaNMeanBounds | src/resume_img.py:106-109 | When every number in a column lies in [lo, hi), NaN entries mixed in, the pandas mean is NaN or a number in [lo, hi). |
| Numeric.SkipNaNMeanAgrees | src/resume_img.py:106-109 | On a non-empty column without NaN, the pandas mean equals the NumPy average. |
| Summary.FilterCounts | src/resume_img.py:104 | The filter keeps every row whose four indices are non-zero as many times as the table holds it, and no other row. |
| Summary.FilterOrder | src/resume_img.py:104 | The kept rows are a subsequence of the table: their order is kept. |
| Summary.FilterMembers | src/resume_img.py:104 | A row is kept exactly when it is in the table and all four indices are non-zero. NaN counts as non-zero. |
| Summary.FilterIdempotent | src/resume_img.py:104 | Filtering twice keeps the same rows as filtering once. |
| Summary.ColumnAllNaN | src/resume_img.py:106-109 | A column's mean is NaN exactly when every row has NaN in that band. |
| Summary.DayMeansNaN | src/resume_img.py:104-109 | A day's band mean is NaN exactly when every kept row has NaN in that band, including when no row is kept. |
| Summary.DayMeansFiltered | src/resume_img.py:104-109 | A day's means depend only on the kept rows. |
| Summary.ExistingFiles | src/resume_img.py:101 | A file is read exactly when it is one of the days' names and is on disk. The files read are a subsequence of the days' names, in day order. |
| Summary.Collect | src/resume_img.py:101-114 | The four lists always have equal length: one entry per existing file. |
| Summary.CollectEntries | src/resume_img.py:101-114 | Entry k of a band's list is that band's mean over the k-th existing file. |
| Summary.Aggregate | src/resume_img.py:88-117 | The day loop builds exactly `Collect` over the day files. |
| Summary.NpAverageBounds | src/resume_img.py:119-122 | An overall value is NaN exactly when there was no file or some day's mean was NaN. When every daily number lies in [lo, hi), a numeric overall value does too. |
| Summary.ReportSucceeds | src/resume_img.py:129-131 | On the four-key dictionary, the description never raises. |
| Summary.NoDataReport | src/resume_img.py:101-131 | With no file on any day, the description is the efficiency part alone, in the last category. |
| Summary.Resume | src/resume_img.py:83-131 | The script prints the description `Report` defines. |
| Indices.Divide | src/resume_img.py:54 | NaN propagates. A quotient by a non-zero number, multiplied back, gives the dividend, and a positive value over a positive number stays positive. Over zero, 0 / 0 is NaN and any other number gives an infinity of its own sign. A number over an infinity is 0. An infinity over a number is an infinity whose sign is the product of the signs. An infinity over an infinity is NaN. |
| Indices.TablesAscending | src/resume_img.py:11-38 | The four threshold tables are strictly ascending. |
| Indices.FirstMatchIndex | src/resume_img.py:48-51 | The text appended is that of the first pair whose threshold the value does not exceed. |
| Indices.FirstMatchNone | src/resume_img.py:48-51 | Nothing is appended exactly when the value exceeds every threshold. |
| Indices.AscendingMatch | src/resume_img.py:48-51 | In an ascending table, a text is appended exactly when the value is at most the last threshold. |
| Indices.NaNUnmatched | src/resume_img.py:48-51 | A NaN value matches no threshold. |
| Indices.DescribedNames | src/resume_img.py:43-46 | With these tables, exactly NDVI, GCI and NDMI are described. NDRE and unknown names are skipped. |
| Indices.TextsFromDescribed | src/resume_img.py:42-51 | There are at most as many texts as described entries. Each text is the first match of some described entry in its own table. |
| Indices.FourTexts | src/resume_img.py:42-51 | On the four-key dictionary, the texts are the matches of NDVI, NDMI and GCI in that order: at most three. |
| Indices.KnownContributions | src/resume_img.py:11-46 | NDVI, NDMI and GCI contribute the first match in their own table. |
| Indices.Lookup | src/resume_img.py:54 | A key is found exactly when the dictionary holds it. The value found is that of the first item with the key. |
| Indices.FourLookups | src/resume_img.py:54 | The four-key dictionary yields its GCI and NDRE values. |
| Indices.CategoryRanges | src/resume_img.py:56-65 | For every real, the chain picks a category exactly when the value is in its range: < 6, [6, 10], (10, 12), [12, 15) or >= 15. The ranges are disjoint and cover all reals. |
| Indices.LastBranch | src/resume_img.py:64-65 | The else branch is taken exactly for NaN or a ratio of at least 15. Minus infinity is young vegetation. |
| Indices.DescriptionShape | src/resume_img.py:42-70 | The description raises exactly when GCI or NDRE is missing. Otherwise it is the threshold texts joined with `", "`, followed by the efficiency part, which always comes last. |
| Indices.JoinSnoc | src/resume_img.py:70 | Joining one more part adds the separator and the part, or gives the part alone when there was none. |
| Indices.FourIndices | src/resume_img.py:42-70 | On the four-key dictionary, the result is the join of the texts and the efficiency part of GCI / NDRE. |
| Indices.AllNaN | src/resume_img.py:48-65 | With all four values NaN, no text matches. The description is the efficiency part alone, in the very-sick category. |
| Indices.Describe | src/resume_img.py:9-70 | The loop with `continue` and `break`, then the lookups and the join, computes `Description` with the script's tables. |

## Left out

- Authentication, HTTP requests, the server-side index formulas, raster
  decoding and CSV writing are not modelled. A fetch is an input saying
  whether the day's file was written, and a re-authentication is an input
  credential.
- Acquisition.Driver.Step: `time.sleep` is a no-op, and its duration is
  not modelled. After the pause the window restarts at the reading taken
  before the sleep, as in the source. The pause lasts the time already
  spent in the window plus one second, not the rest of the minute. So
  after a quick burst the next window opens a few seconds later, and more
  than the rate's worth of requests can fall within one real minute. The
  clock is an input read once per day, so the model cannot state how many
  requests fall in a real minute. The model also assumes the clock never
  runs backwards. `time.time()` is not monotonic, and a pause taken with
  `now` more than a second before the window start would call
  `time.sleep` with a negative duration (`src/main.py:334`). That raises
  `ValueError` in the source, while `Next` accepts any reading and goes
  on.
- Acquisition.Driver.Drive: an exception raised by `authenticate`,
  `make_request` or `process_req` ends the script. The model has no
  failing fetch: a fetch either writes the day's file or does not.
- `get_area` (polygon file parsing), argparse, configparser, the random
  output file name and the file removal at the end of `main.py` are not
  modelled. The polygon and the flags are parameters.
- The pyproj projection, the metre-valued width and height, and the
  Transformer are foreign code. `Utm.SelectProjection` stops at the zone
  and the EPSG code, and the grid's height and width are parameters.
- Mosaic.AccumulateBand: the pixel sizes (`diff().min()`) and
  `from_origin` are not modelled. The georeference is the first tile's
  minimum X and maximum Y only.
- Mosaic.Stored: the source keys its dictionary by the CSV text of X and
  Y. The model keys it by their values, assuming each coordinate is always
  written the same way.
- Mosaic.Reduce: the rasterio write of each band, and the float32
  rounding of values, are not modelled.
- Numeric.Average: averages are exact real means. Floating-point rounding
  is not modelled, and NaN is the only non-finite value a mosaic cell can
  hold.
- Indices.Divide: a zero divisor is taken as +0.0. The sign of a negative
  zero (which makes `x / -0.0` minus infinity) is not modelled.
- Indices.EfficiencyPart: the `.2f` number formatting is a parameter
  `render` of the description, not a modelled function.
- Summary.NonZero: the comparison with zero is on reals, not on the
  float64 values pandas reads. Reading the CSV file itself is not
  modelled: a file on disk is its list of rows.
- Calendar.CivilDate: instants are not bounded by Python's year 9999
  limit. Beyond it, the source raises and the model goes on counting.
- Calendar.Iso: instants are whole, naive seconds. `fromisoformat` also
  accepts fractional seconds and a UTC offset such as `+02:00`. With them,
  `isoformat()` writes `.ffffff` after the seconds, or the offset at the
  end, and the file names change. The model has no fractional part and no
  offset, so such start and end dates are not covered.
- `view_image` (matplotlib display), the console messages and the
  `float()` conversions of `resume_img.py` are not modelled.

## Findings

| source | as written | input that shows it | evidently intended | confidence | as-written member | corrected member |
|---|---|---|---|---|---|---|
| src/main.py:213-219 | The membership test looks up (X, Y), while both branches write (Y, X). The append branch is only taken when the swapped pair happens to be a key, so each later tile overwrites the earlier ones. | Two days, each a one-row tile at X = 1.0, Y = 2.0, with NDVI 0.1 and 0.3; grid 1 x 1. | The pixel holds the mean over the days, 0.2: probe and write the same key (Y, X). | not executed | Mosaic.SwapCounterexample | Mosaic.IntendedMidpoint |

The rest of `Mosaic` keeps the behaviour as written, because that is
what the reducer computes. `Mosaic.AddRowIntended` and
`Mosaic.FoldIntended` define the corrected step beside it.
`Mosaic.IntendedCollects` proves that, with it, every key collects all
the values stored under it, in order.

The corrected step differs from the source in one more way. On the append
branch (`src/main.py:219`) the source calls `float(row[band])`, which
raises `ValueError` on an empty field. `AddRowIntended` turns an empty
field into NaN on both branches, as the first-write branch already does.
`IntendedCollects` relies on this: without it, a later empty field would
end the band with an error instead of adding a value.
