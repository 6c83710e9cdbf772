/**
 * The BrainJ cell reader of Brainrender/CI_BrainJ_Cells_Render.py
 * (`read_in_BrainJ_cells`): columns 0, 1, 3, 12, 13 as X, Y, Z, ID, Ac, the
 * optional ID and acronym filters, X and Z exchanged, times 25, stacked.
 */
module BrainJRender {
  import opened Wrappers
  import opened Sequences
  import opened Cells

  /** The BrainJ table's X, Y, Z, ID and acronym columns. */
  const BrainJColumns: Schema := Schema(0, 1, 3, 12, 13)

  /** The point the BrainJ convention gives one cell: `[25·Z, 25·Y, 25·X]`. */
  function BrainJPoint(c: Cell): (p: seq<real>)
    ensures p == Scaled([c.z, c.y, c.x])
  {
    [AtlasRes * c.z, AtlasRes * c.y, AtlasRes * c.x]
  }

  /**
   * The script's column-wise construction (the X column becomes the third
   * axis, Y stays, the Z column becomes the first; each scaled; zipped)
   * yields one BrainJ point per cell, in cell order.
   */
  function BrainJPoints(cells: seq<Cell>): (pts: seq<seq<real>>)
    ensures |pts| == |cells|
    ensures forall i :: 0 <= i < |cells| ==> pts[i] == BrainJPoint(cells[i])
  {
    var zs := Column(cells, AxisX);
    var ys := Column(cells, AxisY);
    var xs := Column(cells, AxisZ);
    ColumnsZipped(cells, AxisZ, AxisY, AxisX);
    Zip3(Scaled(xs), Scaled(ys), Scaled(zs))
  }

  /** The BrainJ reader, from the table's lines to the stacked point array. */
  function ReadInBrainJCells(lines: seq<seq<Field>>, regions: seq<int>, acronyms: seq<string>)
    : (r: Result<seq<seq<real>>, LoadError>)
    ensures lines == [] ==> r == Failure(EmptyStack)
    ensures var loaded := Load(lines, BrainJColumns);
      && (loaded.Failure? ==> r == Failure(loaded.error))
      && (loaded.Success? ==>
        var survivors := Survivors(loaded.value, regions, acronyms);
        && (r.Success? <==> |survivors| > 0)
        && (r.Failure? ==> r.error == EmptyStack)
        && (r.Success? ==>
          && |r.value| == |survivors|
          && forall i :: 0 <= i < |survivors| ==> r.value[i] == BrainJPoint(survivors[i])))
  {
    match Load(lines, BrainJColumns)
    case Failure(e) => Failure(e)
    case Success(table) =>
      var pts := BrainJPoints(Survivors(table, regions, acronyms));
      assert forall i :: 0 <= i < |pts| ==> |pts[i]| == 3;
      Vstack(pts)
  }

  /**
   * Every output point comes from a data row that passes both filters, and
   * every row that passes them gives a point: for each point `i` there is
   * a row position `j`, strictly increasing with `i`, with point `i` equal
   * to the remapped cell of that row.
   */
  lemma PointsComeFromSelectedRows(lines: seq<seq<Field>>, regions: seq<int>, acronyms: seq<string>)
    ensures ReadInBrainJCells(lines, regions, acronyms).Success? ==>
      var cells := Load(lines, BrainJColumns).value;
      var pts := ReadInBrainJCells(lines, regions, acronyms).value;
      var kept := Kept(cells, Selector(regions, acronyms));
      && |pts| == |kept|
      && (forall i :: 0 <= i < |pts| ==>
           && (|regions| > 0 ==> cells[kept[i]].id in regions)
           && (|acronyms| > 0 ==> cells[kept[i]].acronym in acronyms)
           && pts[i] == BrainJPoint(cells[kept[i]]))
      && (forall i, j :: 0 <= i < j < |pts| ==> kept[i] < kept[j])
      && (forall j :: 0 <= j < |cells| && Selected(cells[j], regions, acronyms) ==> j in kept)
  {
    if ReadInBrainJCells(lines, regions, acronyms).Success? {
      var cells := Load(lines, BrainJColumns).value;
      var kept := Kept(cells, Selector(regions, acronyms));
      forall i | 0 <= i < |kept|
        ensures Selected(cells[kept[i]], regions, acronyms)
      {
        assert Selector(regions, acronyms)(cells[kept[i]]);
      }
    }
  }

  /** With both lists empty, every data row gives one point, in file order. */
  lemma {:induction false} NoFilterKeepsEveryRow(lines: seq<seq<Field>>)
    requires Load(lines, BrainJColumns).Success?
    requires |lines| > 1
    ensures var pts := ReadInBrainJCells(lines, [], []);
      && pts.Success?
      && |pts.value| == |lines| - 1
      && forall i :: 0 <= i < |pts.value| ==> pts.value[i] == BrainJPoint(Load(lines, BrainJColumns).value[i])
  {
    var cells := Load(lines, BrainJColumns).value;
    FiltersAreConjunction(cells, [], []);
    WhereAll(cells, Selector([], []));
    WhereAtKept(cells, Selector([], []));
    var pts := ReadInBrainJCells(lines, [], []);
    assert 0 in Kept(cells, Selector([], []));
    forall i | 0 <= i < |pts.value|
      ensures pts.value[i] == BrainJPoint(cells[i])
    {
      assert Where(cells, Selector([], []))[i] == cells[i];
    }
  }

  /** The header-only table gives no point, so stacking fails. */
  lemma HeaderOnlyFails(header: seq<Field>, regions: seq<int>, acronyms: seq<string>)
    ensures ReadInBrainJCells([header], regions, acronyms) == Failure(EmptyStack)
  {
  }

  /** The BrainJ remap-and-scale keeps distinct voxel positions apart. */
  lemma BrainJPointInjective(a: Cell, b: Cell)
    ensures BrainJPoint(a) == BrainJPoint(b) <==> (a.x, a.y, a.z) == (b.x, b.y, b.z)
  {
    if BrainJPoint(a) == BrainJPoint(b) {
      assert BrainJPoint(a)[0] == BrainJPoint(b)[0];
      assert BrainJPoint(a)[1] == BrainJPoint(b)[1];
      assert BrainJPoint(a)[2] == BrainJPoint(b)[2];
    }
  }

  /**
   * A cell at X = 10, Y = 20, Z = 30 in region 767 ("MOs5"), filtered to
   * region 767, lands at (750, 500, 250).
   */
  lemma RegionScenario()
    ensures var header := [Text("X"), Text("Y"), Text("Z")];
      var row := [Num(10.0), Num(20.0), Text("-"), Num(30.0), Text("-"), Text("-"), Text("-"), Text("-"),
                  Text("-"), Text("-"), Text("-"), Text("-"), Num(767.0), Text("MOs5")];
      ReadInBrainJCells([header, row], [767], []) == Success([[750.0, 500.0, 250.0]])
  {
    var header := [Text("X"), Text("Y"), Text("Z")];
    var row := [Num(10.0), Num(20.0), Text("-"), Num(30.0), Text("-"), Text("-"), Text("-"), Text("-"),
                Text("-"), Text("-"), Text("-"), Text("-"), Num(767.0), Text("MOs5")];
    var cell := Cell(10.0, 20.0, 30.0, 767, "MOs5");
    assert Project(row, BrainJColumns, 1) == Success(cell);
    assert WellFormed([header, row][1], BrainJColumns);
    var loaded := Load([header, row], BrainJColumns).value;
    assert |loaded| == 1 && loaded[0] == cell;
    assert loaded == [cell];
    assert Load([header, row], BrainJColumns) == Success([cell]);
    assert Selected(cell, [767], []);
    var kept := Kept([cell], Selector([767], []));
    assert KeptFrom([cell], Selector([767], []), 1) == [];
    assert kept == [0];
    var survivors := Survivors([cell], [767], []);
    assert survivors == [cell] by { assert |survivors| == 1 && survivors[0] == cell; }
    var pts := ReadInBrainJCells([header, row], [767], []).value;
    assert pts == [[750.0, 500.0, 250.0]] by { assert |pts| == 1 && pts[0] == BrainJPoint(cell); }
  }
}
