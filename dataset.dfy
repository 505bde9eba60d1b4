/**
 * The series loader of `generate_yield_forecast`: find the crop's table, check
 * that it has the region column, select the rows whose region label is exactly
 * the requested region, and read the first such row as the yield series.
 *
 * The directory of CSV files is an in-memory map from crop name to table.
 */
module Dataset {
  import opened Wrappers

  /** A table cell as the CSV reader produces it: text, or a number. */
  datatype Cell = Text(s: string) | Num(v: real)

  /** A per-crop table: column headers and rows of cells. */
  datatype Table = Table(header: seq<string>, rows: seq<seq<Cell>>)

  /** Crop name to its table; a crop with no entry has no CSV file. */
  type Crops = map<string, Table>

  /** The yield series of one region: period labels and one value per period. */
  datatype RegionSeries = RegionSeries(years: seq<string>, values: seq<real>)

  datatype LoadError =
    | FileNotFound(crop: string)
    | RegionColumnMissing(columns: seq<string>)
    | RegionNotFound(region: string, crop: string, available: seq<Cell>)
    | NotNumeric(cells: seq<Cell>)
    | LabelColumnNotText(labels: seq<Cell>)

  const RegionColumn: string := "Регион"

  /** Every row has one cell per column, as in a data frame. */
  predicate Rectangular(t: Table) {
    forall i :: 0 <= i < |t.rows| ==> |t.rows[i]| == |t.header|
  }

  predicate WellFormed(crops: Crops) {
    forall c :: c in crops ==> Rectangular(crops[c])
  }

  /** The column position of a header name (pandas keeps column names unique, so the first one is the one). */
  function ColumnIndex(header: seq<string>, name: string): (r: Option<nat>)
    ensures r.None? <==> name !in header
    ensures r.Some? ==> r.value < |header| && header[r.value] == name && name !in header[..r.value]
  {
    if header == [] then None
    else if header[0] == name then Some(0)
    else
      match ColumnIndex(header[1..], name)
      case None => None
      case Some(i) =>
        assert header[1..][..i] == header[1..i + 1];
        assert header[..i + 1] == [header[0]] + header[1..][..i];
        Some(i + 1)
  }

  /** Row i is the first row whose label in column `col` is exactly `region`. */
  ghost predicate IsFirstMatch(rows: seq<seq<Cell>>, col: nat, region: string, i: int)
    requires forall k :: 0 <= k < |rows| ==> col < |rows[k]|
  {
    && 0 <= i < |rows|
    && rows[i][col] == Text(region)
    && forall j :: 0 <= j < i ==> rows[j][col] != Text(region)
  }

  /** At most one row is the first match. */
  lemma FirstMatchUnique(rows: seq<seq<Cell>>, col: nat, region: string, i: int, j: int)
    requires forall k :: 0 <= k < |rows| ==> col < |rows[k]|
    requires IsFirstMatch(rows, col, region, i) && IsFirstMatch(rows, col, region, j)
    ensures i == j
  {
  }

  /** The filter `df[df['Регион'] == region]`: the rows whose label is exactly the region, in table order. */
  function SelectRows(rows: seq<seq<Cell>>, col: nat, region: string): (r: seq<seq<Cell>>)
    requires forall k :: 0 <= k < |rows| ==> col < |rows[k]|
    ensures forall row :: row in r ==> row in rows && row[col] == Text(region)
    ensures forall k :: 0 <= k < |rows| && rows[k][col] == Text(region) ==> rows[k] in r
    ensures r != [] ==> exists i :: IsFirstMatch(rows, col, region, i) && r[0] == rows[i]
  {
    if rows == [] then []
    else
      var rest := SelectRows(rows[1..], col, region);
      assert forall k :: 1 <= k < |rows| ==> rows[k] == rows[1..][k - 1];
      if rows[0][col] == Text(region) then
        assert IsFirstMatch(rows, col, region, 0);
        [rows[0]] + rest
      else
        assert rest != [] ==> exists i :: IsFirstMatch(rows, col, region, i) && rest[0] == rows[i] by {
          if rest != [] {
            var i :| IsFirstMatch(rows[1..], col, region, i) && rest[0] == rows[1..][i];
            assert IsFirstMatch(rows, col, region, i + 1);
          }
        }
        rest
  }

  /** The region column as a list `df['Регион'].tolist()`. */
  function ColumnCells(rows: seq<seq<Cell>>, col: nat): (r: seq<Cell>)
    requires forall k :: 0 <= k < |rows| ==> col < |rows[k]|
    ensures |r| == |rows| && forall k :: 0 <= k < |rows| ==> r[k] == rows[k][col]
  {
    seq(|rows|, (k: int) requires 0 <= k < |rows| => rows[k][col])
  }

  /**
   * pandas gives the region column a text dtype when some label is text, or
   * when the table has no rows; a column of numbers only has no `.str` accessor.
   */
  predicate TextLabels(labels: seq<Cell>) {
    labels == [] || exists k :: 0 <= k < |labels| && labels[k].Text?
  }

  /** `np.array(cells, dtype=float)`: every cell must be a number. */
  function ToFloats(cells: seq<Cell>): (r: Option<seq<real>>)
    ensures r.None? <==> exists k :: 0 <= k < |cells| && cells[k].Text?
    ensures r.Some? ==> |r.value| == |cells| && forall k :: 0 <= k < |cells| ==> cells[k] == Num(r.value[k])
  {
    if cells == [] then Some([])
    else
      var rest := ToFloats(cells[1..]);
      assert forall k :: 1 <= k < |cells| ==> cells[k] == cells[1..][k - 1];
      match cells[0]
      case Text(_) => None
      case Num(v) =>
        if rest.None? then None else Some([v] + rest.value)
  }

  /**
   * Lines 102-143 and 180-182: locate the crop's table, require the region
   * column, select by exact label, and read the first match minus its first
   * cell as the series, labelled by the headers after the first column. With
   * no match, the partial-match probe of line 129 runs first and raises when
   * the labels are not text; otherwise the error lists every label.
   */
  function LoadSeries(crops: Crops, crop: string, region: string): (r: Result<RegionSeries, LoadError>)
    requires WellFormed(crops)
    ensures crop !in crops ==> r == Failure(FileNotFound(crop))
    ensures crop in crops && RegionColumn !in crops[crop].header ==>
      r == Failure(RegionColumnMissing(crops[crop].header))
    ensures crop in crops && RegionColumn in crops[crop].header ==>
      var t := crops[crop];
      var col := ColumnIndex(t.header, RegionColumn).value;
      var labels := ColumnCells(t.rows, col);
      && (Text(region) !in labels && TextLabels(labels) ==> r == Failure(RegionNotFound(region, crop, labels)))
      && (Text(region) !in labels && !TextLabels(labels) ==> r == Failure(LabelColumnNotText(labels)))
      && (forall i :: IsFirstMatch(t.rows, col, region, i) && ToFloats(t.rows[i][1..]).None? ==>
            r == Failure(NotNumeric(t.rows[i][1..])))
      && (forall i :: IsFirstMatch(t.rows, col, region, i) && ToFloats(t.rows[i][1..]).Some? ==>
            r == Success(RegionSeries(t.header[1..], ToFloats(t.rows[i][1..]).value)))
    ensures r.Failure? && r.error.RegionNotFound? ==>
      && crop in crops
      && r.error == RegionNotFound(region, crop, r.error.available)
      && |r.error.available| == |crops[crop].rows|
      && Text(region) !in r.error.available
      && exists col ::
        && 0 <= col < |crops[crop].header| && crops[crop].header[col] == RegionColumn
        && forall k :: 0 <= k < |crops[crop].rows| ==> r.error.available[k] == crops[crop].rows[k][col]
    ensures r.Success? ==>
      && crop in crops
      && r.value.years == crops[crop].header[1..]
      && |r.value.values| == |r.value.years|
      && exists col, i ::
        && 0 <= col < |crops[crop].header| && crops[crop].header[col] == RegionColumn
        && RegionColumn !in crops[crop].header[..col]
        && IsFirstMatch(crops[crop].rows, col, region, i)
        && ToFloats(crops[crop].rows[i][1..]) == Some(r.value.values)
  {
    if crop !in crops then Failure(FileNotFound(crop))
    else
      var t := crops[crop];
      match ColumnIndex(t.header, RegionColumn)
      case None => Failure(RegionColumnMissing(t.header))
      case Some(col) =>
        var matches := SelectRows(t.rows, col, region);
        if matches == [] then
          var labels := ColumnCells(t.rows, col);
          assert Text(region) !in labels;
          if TextLabels(labels) then Failure(RegionNotFound(region, crop, labels))
          else Failure(LabelColumnNotText(labels))
        else
          var row := matches[0];
          assert forall i :: IsFirstMatch(t.rows, col, region, i) ==> t.rows[i] == row by {
            var j :| IsFirstMatch(t.rows, col, region, j) && row == t.rows[j];
            forall i | IsFirstMatch(t.rows, col, region, i) ensures t.rows[i] == row {
              FirstMatchUnique(t.rows, col, region, i, j);
            }
          }
          match ToFloats(row[1..])
          case None => Failure(NotNumeric(row[1..]))
          case Some(values) => Success(RegionSeries(t.header[1..], values))
  }

  /**
   * The header check accepts the region column anywhere, but the series is
   * always the row minus its first cell. When the region column is not the
   * first one, the matched label itself lands in the series and the float
   * conversion rejects it.
   */
  lemma RegionColumnNotFirst(crops: Crops, crop: string, region: string)
    requires WellFormed(crops) && crop in crops
    requires RegionColumn in crops[crop].header && crops[crop].header[0] != RegionColumn
    ensures LoadSeries(crops, crop, region).Failure?
    ensures !LoadSeries(crops, crop, region).error.FileNotFound?
      && !LoadSeries(crops, crop, region).error.RegionColumnMissing?
  {
    var t := crops[crop];
    var col := ColumnIndex(t.header, RegionColumn).value;
    var matches := SelectRows(t.rows, col, region);
    if matches != [] {
      var row := matches[0];
      assert row in t.rows && row[col] == Text(region);
      assert row[1..][col - 1] == Text(region);
      assert ToFloats(row[1..]).None?;
    }
  }

  /** A one-crop, one-region sample: wheat yields of the region Север for two years. */
  const SampleRow: seq<Cell> := [Text("Север"), Num(10.0), Num(12.0)]
  const SampleCrops: Crops := map["Wheat" := Table(["Регион", "2023", "2024"], [SampleRow])]

  /** The exact label selects its row and yields its series. */
  lemma ExactLabelSelected()
    ensures LoadSeries(SampleCrops, "Wheat", "Север") == Success(RegionSeries(["2023", "2024"], [10.0, 12.0]))
  {
    assert ColumnIndex(["Регион", "2023", "2024"], RegionColumn) == Some(0);
    assert SelectRows([SampleRow], 0, "Север") == [SampleRow];
    assert SampleRow[1..] == [Num(10.0), Num(12.0)];
    assert [Num(12.0)][1..] == [];
    assert ToFloats([]) == Some([]);
    assert [12.0] + [] == [12.0];
    assert ToFloats([Num(12.0)]) == Some([12.0]);
    assert [Num(10.0), Num(12.0)][1..] == [Num(12.0)];
    assert [10.0] + [12.0] == [10.0, 12.0];
  }

  /** Labels are compared exactly: another letter case or a prefix selects nothing, and an unknown crop has no file. */
  lemma NearLabelsRejected()
    ensures LoadSeries(SampleCrops, "Wheat", "север").Failure? && LoadSeries(SampleCrops, "Wheat", "север").error.RegionNotFound?
    ensures LoadSeries(SampleCrops, "Wheat", "Сев").Failure? && LoadSeries(SampleCrops, "Wheat", "Сев").error.RegionNotFound?
    ensures LoadSeries(SampleCrops, "Rice", "Север") == Failure(FileNotFound("Rice"))
  {
    assert ColumnIndex(["Регион", "2023", "2024"], RegionColumn) == Some(0);
  }

  /** Region codes stored as numbers: no label can match, and the partial-match probe raises instead of listing them. */
  lemma NumericLabelsRejected()
    ensures var crops := map["Wheat" := Table(["Регион", "2024"], [[Num(1.0), Num(10.0)]])];
      LoadSeries(crops, "Wheat", "1") == Failure(LabelColumnNotText([Num(1.0)]))
  {
    var rows := [[Num(1.0), Num(10.0)]];
    assert ColumnIndex(["Регион", "2024"], RegionColumn) == Some(0);
    assert SelectRows(rows, 0, "1") == [];
    assert ColumnCells(rows, 0) == [Num(1.0)];
    assert !TextLabels([Num(1.0)]);
  }
}
