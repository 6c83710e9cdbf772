/**
 * The cell table shared by the render scripts: typed rows of a detection
 * table, the projection of five fixed columns to a `Cell`, the region
 * filters, and the column / scale / zip / stack steps that turn cells into
 * an n-by-3 point array in atlas space.
 */
module Cells {
  import opened Wrappers
  import opened Sequences

  /** One field of a table row, after the CSV reader has typed it. */
  datatype Field = Num(value: real) | Text(text: string)

  /** One detected cell: voxel coordinates, atlas region id and acronym. */
  datatype Cell = Cell(x: real, y: real, z: real, id: int, acronym: string)

  /** Why a load aborts. Rows are counted as file lines; the header is line 0. */
  datatype LoadError =
    | MissingColumn(line: nat, column: nat)
    | NotNumeric(line: nat, column: nat)
    | NotIdentifier(line: nat, column: nat)
    | NotAcronym(line: nat, column: nat)
    | EmptyStack                         // stacking a list of no points
    | RaggedRows                         // stacking points of different lengths

  /** The column positions that a format assigns to X, Y, Z, ID and Ac. */
  datatype Schema = Schema(x: nat, y: nat, z: nat, id: nat, acronym: nat)

  /** Atlas resolution in microns per voxel. */
  const AtlasRes: real := 25.0

  predicate IsNum(f: Field) { f.Num? }

  predicate IsWhole(f: Field) { f.Num? && f.value.Floor as real == f.value }

  predicate IsText(f: Field) { f.Text? }

  /** A row that carries every column of the schema, each of the right type. */
  predicate WellFormed(row: seq<Field>, schema: Schema) {
    && schema.x < |row| && IsNum(row[schema.x])
    && schema.y < |row| && IsNum(row[schema.y])
    && schema.z < |row| && IsNum(row[schema.z])
    && schema.id < |row| && IsWhole(row[schema.id])
    && schema.acronym < |row| && IsText(row[schema.acronym])
  }

  /** The field at `column`, or the reason it is unusable as a coordinate. */
  function NumberAt(row: seq<Field>, column: nat, line: nat): (r: Result<real, LoadError>)
    ensures r.Success? <==> column < |row| && IsNum(row[column])
    ensures r.Success? ==> r.value == row[column].value
  {
    if column >= |row| then Failure(MissingColumn(line, column))
    else if !row[column].Num? then Failure(NotNumeric(line, column))
    else Success(row[column].value)
  }

  /**
   * Projects the schema's five columns of one data row to a `Cell`; the
   * other columns of the row are ignored.
   */
  function Project(row: seq<Field>, schema: Schema, line: nat): (r: Result<Cell, LoadError>)
    ensures r.Success? <==> WellFormed(row, schema)
    ensures r.Success? ==>
      && r.value.x == row[schema.x].value
      && r.value.y == row[schema.y].value
      && r.value.z == row[schema.z].value
      && r.value.id as real == row[schema.id].value
      && r.value.acronym == row[schema.acronym].text
  {
    match NumberAt(row, schema.x, line)
    case Failure(e) => Failure(e)
    case Success(x) =>
      match NumberAt(row, schema.y, line)
      case Failure(e) => Failure(e)
      case Success(y) =>
        match NumberAt(row, schema.z, line)
        case Failure(e) => Failure(e)
        case Success(z) =>
          if schema.id >= |row| then Failure(MissingColumn(line, schema.id))
          else if !IsWhole(row[schema.id]) then Failure(NotIdentifier(line, schema.id))
          else if schema.acronym >= |row| then Failure(MissingColumn(line, schema.acronym))
          else if !row[schema.acronym].Text? then Failure(NotAcronym(line, schema.acronym))
          else Success(Cell(x, y, z, row[schema.id].value.Floor, row[schema.acronym].text))
  }

  /** Projects every row, aborting at the first row that cannot be projected. */
  function ProjectRows(rows: seq<seq<Field>>, schema: Schema, line: nat): (r: Result<seq<Cell>, LoadError>)
    ensures r.Success? <==> forall i :: 0 <= i < |rows| ==> WellFormed(rows[i], schema)
    ensures r.Success? ==>
      && |r.value| == |rows|
      && forall i :: 0 <= i < |rows| ==> Project(rows[i], schema, line + i) == Success(r.value[i])
    decreases |rows|
  {
    if rows == [] then Success([])
    else
      match Project(rows[0], schema, line)
      case Failure(e) => Failure(e)
      case Success(c) =>
        match ProjectRows(rows[1..], schema, line + 1)
        case Failure(e) => Failure(e)
        case Success(cs) =>
          assert forall i :: 1 <= i < |rows| ==> rows[i] == rows[1..][i - 1];
          Success([c] + cs)
  }

  /**
   * Reads a table given as its lines: line 0 is the header and is skipped,
   * every later line is a data row projected through the schema. With the
   * column names supplied by the caller, a file with no line at all reads
   * as a table with no rows.
   */
  function Load(lines: seq<seq<Field>>, schema: Schema): (r: Result<seq<Cell>, LoadError>)
    ensures lines == [] ==> r == Success([])
    ensures r.Success? <==> forall i :: 1 <= i < |lines| ==> WellFormed(lines[i], schema)
    ensures r.Success? ==>
      && |r.value| == (if lines == [] then 0 else |lines| - 1)
      && forall i :: 1 <= i < |lines| ==> Project(lines[i], schema, i) == Success(r.value[i - 1])
  {
    if lines == [] then Success([])
    else
      var rows := lines[1..];
      assert forall i :: 1 <= i < |lines| ==> lines[i] == rows[i - 1];
      ProjectRows(rows, schema, 1)
  }

  /** Membership of a cell's ID in the list of regions. */
  function IdIn(regions: seq<int>): Cell -> bool {
    (c: Cell) => c.id in regions
  }

  /** Membership of a cell's acronym in the list of acronyms. */
  function AcronymIn(acronyms: seq<string>): Cell -> bool {
    (c: Cell) => c.acronym in acronyms
  }

  /** A cell passes the region filter: an empty list puts no constraint on its field. */
  predicate Selected(c: Cell, regions: seq<int>, acronyms: seq<string>) {
    && (|regions| == 0 || c.id in regions)
    && (|acronyms| == 0 || c.acronym in acronyms)
  }

  function Selector(regions: seq<int>, acronyms: seq<string>): Cell -> bool {
    (c: Cell) => Selected(c, regions, acronyms)
  }

  /**
   * The ID filter, applied only when the list of regions is not empty: it
   * keeps exactly the cells whose ID is listed, and an empty list keeps all.
   */
  function ByIds(cells: seq<Cell>, regions: seq<int>): (r: seq<Cell>)
    ensures |r| <= |cells|
    ensures |regions| == 0 ==> r == cells
    ensures forall i :: 0 <= i < |r| ==> r[i] in cells && (|regions| > 0 ==> r[i].id in regions)
    ensures forall j :: 0 <= j < |cells| && (|regions| == 0 || cells[j].id in regions) ==> cells[j] in r
  {
    if |regions| > 0 then
      WhereMembers(cells, IdIn(regions));
      Where(cells, IdIn(regions))
    else cells
  }

  /**
   * The acronym filter, applied only when the list of acronyms is not empty:
   * it keeps exactly the cells whose acronym is listed, and an empty list keeps all.
   */
  function ByAcronyms(cells: seq<Cell>, acronyms: seq<string>): (r: seq<Cell>)
    ensures |r| <= |cells|
    ensures |acronyms| == 0 ==> r == cells
    ensures forall i :: 0 <= i < |r| ==> r[i] in cells && (|acronyms| > 0 ==> r[i].acronym in acronyms)
    ensures forall j :: 0 <= j < |cells| && (|acronyms| == 0 || cells[j].acronym in acronyms) ==> cells[j] in r
  {
    if |acronyms| > 0 then
      WhereMembers(cells, AcronymIn(acronyms));
      Where(cells, AcronymIn(acronyms))
    else cells
  }

  /**
   * The two filters in the scripts' order are the single conjunctive
   * selection, and so is the opposite order: the order does not matter.
   */
  lemma FiltersAreConjunction(cells: seq<Cell>, regions: seq<int>, acronyms: seq<string>)
    ensures ByAcronyms(ByIds(cells, regions), acronyms) == Where(cells, Selector(regions, acronyms))
    ensures ByIds(ByAcronyms(cells, acronyms), regions) == Where(cells, Selector(regions, acronyms))
  {
    var sel := Selector(regions, acronyms);
    if |regions| > 0 && |acronyms| > 0 {
      WhereWhere(cells, IdIn(regions), AcronymIn(acronyms), sel);
      WhereWhere(cells, AcronymIn(acronyms), IdIn(regions), sel);
    } else if |regions| > 0 {
      WhereSame(cells, IdIn(regions), sel);
    } else if |acronyms| > 0 {
      WhereSame(cells, AcronymIn(acronyms), sel);
    } else {
      WhereAll(cells, sel);
    }
  }

  /**
   * The rows that survive both filters: exactly the cells at the ascending
   * `Kept` positions of the conjunctive selection, in table order.
   */
  function Survivors(cells: seq<Cell>, regions: seq<int>, acronyms: seq<string>): (r: seq<Cell>)
    ensures |r| == |Kept(cells, Selector(regions, acronyms))|
    ensures forall k :: 0 <= k < |r| ==> r[k] == cells[Kept(cells, Selector(regions, acronyms))[k]]
  {
    FiltersAreConjunction(cells, regions, acronyms);
    WhereAtKept(cells, Selector(regions, acronyms));
    ByAcronyms(ByIds(cells, regions), acronyms)
  }

  /** The three spatial axes of a cell. */
  datatype Axis = AxisX | AxisY | AxisZ

  function Coord(c: Cell, a: Axis): real {
    match a
    case AxisX => c.x
    case AxisY => c.y
    case AxisZ => c.z
  }

  /** One coordinate column of the table, as a list in row order. */
  function Column(cells: seq<Cell>, a: Axis): (r: seq<real>)
    ensures |r| == |cells|
    ensures forall i :: 0 <= i < |cells| ==> r[i] == Coord(cells[i], a)
  {
    seq(|cells|, i requires 0 <= i < |cells| => Coord(cells[i], a))
  }

  /** Voxels to microns, element by element. */
  function Scaled(xs: seq<real>): (r: seq<real>)
    ensures |r| == |xs|
    ensures forall i :: 0 <= i < |xs| ==> r[i] == AtlasRes * xs[i]
  {
    seq(|xs|, i requires 0 <= i < |xs| => AtlasRes * xs[i])
  }

  function Min(a: nat, b: nat): nat { if a <= b then a else b }

  /** The three scaled columns zipped into points; the zip stops at the shortest list. */
  function Zip3(xs: seq<real>, ys: seq<real>, zs: seq<real>): (r: seq<seq<real>>)
    ensures |r| == Min(|xs|, Min(|ys|, |zs|))
    ensures forall i :: 0 <= i < |r| ==> r[i] == [xs[i], ys[i], zs[i]]
  {
    var n := Min(|xs|, Min(|ys|, |zs|));
    seq(n, i requires 0 <= i < n => [xs[i], ys[i], zs[i]])
  }

  /**
   * `np.vstack` of a list of points: it fails on an empty list and on rows
   * of unequal length, and otherwise keeps the rows as they are.
   */
  function Vstack(rows: seq<seq<real>>): (r: Result<seq<seq<real>>, LoadError>)
    ensures r.Success? <==> |rows| > 0 && forall i :: 0 <= i < |rows| ==> |rows[i]| == |rows[0]|
    ensures r.Success? ==> r.value == rows
    ensures |rows| == 0 ==> r == Failure(EmptyStack)
  {
    if |rows| == 0 then Failure(EmptyStack)
    else if exists i :: 0 <= i < |rows| && |rows[i]| != |rows[0]| then Failure(RaggedRows)
    else Success(rows)
  }

  /**
   * The column-wise pipeline as the scripts write it (take the three columns
   * in the chosen order, scale each, zip) gives, point by point, the cell's
   * three chosen coordinates times the resolution.
   */
  lemma ColumnsZipped(cells: seq<Cell>, a: Axis, b: Axis, c: Axis)
    ensures var pts := Zip3(Scaled(Column(cells, a)), Scaled(Column(cells, b)), Scaled(Column(cells, c)));
      && |pts| == |cells|
      && forall i :: 0 <= i < |cells| ==>
        pts[i] == [AtlasRes * Coord(cells[i], a), AtlasRes * Coord(cells[i], b), AtlasRes * Coord(cells[i], c)]
  {
  }
}
