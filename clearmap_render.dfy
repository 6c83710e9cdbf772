/**
 * The ClearMap cell reader of Brainrender/CI_ClearMap_Cells_Render.py
 * (`read_in_ClearMap_cells`): columns 5, 6, 7, 9, 10 as X, Y, Z, ID, Ac,
 * cells with ID 0 dropped, the optional ID and acronym filters, X and Y
 * exchanged, times 25, stacked.
 */
module ClearMapRender {
  import opened Wrappers
  import opened Sequences
  import opened Cells

  /** The ClearMap table's X, Y, Z, ID and acronym columns. */
  const ClearMapColumns: Schema := Schema(5, 6, 7, 9, 10)

  /** The point the ClearMap convention gives one cell: `[25·Y, 25·X, 25·Z]`. */
  function ClearMapPoint(c: Cell): (p: seq<real>)
    ensures p == Scaled([c.y, c.x, c.z])
  {
    [AtlasRes * c.y, AtlasRes * c.x, AtlasRes * c.z]
  }

  /** ID 0 marks a cell outside the brain. */
  function InBrain(): (inBrain: Cell -> bool)
    ensures forall c: Cell :: inBrain(c) <==> c.id != 0
  {
    (c: Cell) => c.id != 0
  }

  /** The full ClearMap selection: inside the brain, then both region filters. */
  function ClearMapSelector(regions: seq<int>, acronyms: seq<string>): Cell -> bool {
    (c: Cell) => c.id != 0 && Selected(c, regions, acronyms)
  }

  /**
   * The in-brain exclusion followed by the two filters picks exactly the
   * cells at the ascending positions of the full selection.
   */
  function ClearMapSurvivors(cells: seq<Cell>, regions: seq<int>, acronyms: seq<string>): (r: seq<Cell>)
    ensures |r| == |Kept(cells, ClearMapSelector(regions, acronyms))|
    ensures forall k :: 0 <= k < |r| ==> r[k] == cells[Kept(cells, ClearMapSelector(regions, acronyms))[k]]
  {
    var inBrain := Where(cells, InBrain());
    FiltersAreConjunction(inBrain, regions, acronyms);
    WhereWhere(cells, InBrain(), Selector(regions, acronyms), ClearMapSelector(regions, acronyms));
    WhereAtKept(cells, ClearMapSelector(regions, acronyms));
    ByAcronyms(ByIds(inBrain, regions), acronyms)
  }

  /**
   * The script's column-wise construction (the X column becomes the second
   * axis, the Y column the first, Z stays; each scaled; zipped) yields one
   * ClearMap point per cell, in cell order. The commented-out axis reversal
   * is not part of it.
   */
  function ClearMapPoints(cells: seq<Cell>): (pts: seq<seq<real>>)
    ensures |pts| == |cells|
    ensures forall i :: 0 <= i < |cells| ==> pts[i] == ClearMapPoint(cells[i])
  {
    var ys := Column(cells, AxisX);
    var xs := Column(cells, AxisY);
    var zs := Column(cells, AxisZ);
    ColumnsZipped(cells, AxisY, AxisX, AxisZ);
    Zip3(Scaled(xs), Scaled(ys), Scaled(zs))
  }

  /** The ClearMap reader, from the table's lines to the stacked point array. */
  function ReadInClearMapCells(lines: seq<seq<Field>>, regions: seq<int>, acronyms: seq<string>)
    : (r: Result<seq<seq<real>>, LoadError>)
    ensures lines == [] ==> r == Failure(EmptyStack)
    ensures var loaded := Load(lines, ClearMapColumns);
      && (loaded.Failure? ==> r == Failure(loaded.error))
      && (loaded.Success? ==>
        var survivors := ClearMapSurvivors(loaded.value, regions, acronyms);
        && (r.Success? <==> |survivors| > 0)
        && (r.Failure? ==> r.error == EmptyStack)
        && (r.Success? ==>
          && |r.value| == |survivors|
          && forall i :: 0 <= i < |survivors| ==> r.value[i] == ClearMapPoint(survivors[i])))
  {
    match Load(lines, ClearMapColumns)
    case Failure(e) => Failure(e)
    case Success(table) =>
      var pts := ClearMapPoints(ClearMapSurvivors(table, regions, acronyms));
      assert forall i :: 0 <= i < |pts| ==> |pts[i]| == 3;
      Vstack(pts)
  }

  /**
   * Every output point comes from a row inside the brain that passes both
   * filters, rows keep their file order, and no passing row is skipped. In
   * particular a cell with ID 0 is dropped even when 0 is a listed region.
   */
  lemma PointsComeFromSelectedRows(lines: seq<seq<Field>>, regions: seq<int>, acronyms: seq<string>)
    ensures ReadInClearMapCells(lines, regions, acronyms).Success? ==>
      var cells := Load(lines, ClearMapColumns).value;
      var pts := ReadInClearMapCells(lines, regions, acronyms).value;
      var kept := Kept(cells, ClearMapSelector(regions, acronyms));
      && |pts| == |kept|
      && (forall i :: 0 <= i < |pts| ==>
           && cells[kept[i]].id != 0
           && (|regions| > 0 ==> cells[kept[i]].id in regions)
           && (|acronyms| > 0 ==> cells[kept[i]].acronym in acronyms)
           && pts[i] == ClearMapPoint(cells[kept[i]]))
      && (forall i, j :: 0 <= i < j < |pts| ==> kept[i] < kept[j])
      && (forall j :: 0 <= j < |cells| && cells[j].id != 0 && Selected(cells[j], regions, acronyms) ==> j in kept)
  {
    if ReadInClearMapCells(lines, regions, acronyms).Success? {
      var cells := Load(lines, ClearMapColumns).value;
      var kept := Kept(cells, ClearMapSelector(regions, acronyms));
      forall i | 0 <= i < |kept|
        ensures cells[kept[i]].id != 0 && Selected(cells[kept[i]], regions, acronyms)
      {
        assert ClearMapSelector(regions, acronyms)(cells[kept[i]]);
      }
      forall j | 0 <= j < |cells| && cells[j].id != 0 && Selected(cells[j], regions, acronyms)
        ensures j in kept
      {
        assert ClearMapSelector(regions, acronyms)(cells[j]);
      }
    }
  }

  /** With both lists empty, the points are those of the in-brain rows, in file order. */
  lemma NoFilterKeepsInBrainRows(lines: seq<seq<Field>>)
    requires Load(lines, ClearMapColumns).Success?
    ensures var cells := Load(lines, ClearMapColumns).value;
      ClearMapSurvivors(cells, [], []) == Where(cells, InBrain())
  {
    var cells := Load(lines, ClearMapColumns).value;
    WhereSame(cells, InBrain(), ClearMapSelector([], []));
    WhereAtKept(cells, ClearMapSelector([], []));
    var a, b := ClearMapSurvivors(cells, [], []), Where(cells, ClearMapSelector([], []));
    assert |a| == |b|;
    forall k | 0 <= k < |a| ensures a[k] == b[k] { }
  }

  /** The ClearMap remap-and-scale keeps distinct voxel positions apart. */
  lemma ClearMapPointInjective(a: Cell, b: Cell)
    ensures ClearMapPoint(a) == ClearMapPoint(b) <==> (a.x, a.y, a.z) == (b.x, b.y, b.z)
  {
    if ClearMapPoint(a) == ClearMapPoint(b) {
      assert ClearMapPoint(a)[0] == ClearMapPoint(b)[0];
      assert ClearMapPoint(a)[1] == ClearMapPoint(b)[1];
      assert ClearMapPoint(a)[2] == ClearMapPoint(b)[2];
    }
  }

  /**
   * A cell with ID 0 is dropped whatever the filters, so a table holding
   * only that cell fails at the stacking step.
   */
  lemma OutsideBrainScenario(regions: seq<int>, acronyms: seq<string>)
    ensures var row := [Text("-"), Text("-"), Text("-"), Text("-"), Text("-"),
                        Num(10.0), Num(20.0), Num(30.0), Text("-"), Num(0.0), Text("CP")];
      ReadInClearMapCells([[], row], regions, acronyms) == Failure(EmptyStack)
  {
    var row := [Text("-"), Text("-"), Text("-"), Text("-"), Text("-"),
                Num(10.0), Num(20.0), Num(30.0), Text("-"), Num(0.0), Text("CP")];
    var cell := Cell(10.0, 20.0, 30.0, 0, "CP");
    assert Project(row, ClearMapColumns, 1) == Success(cell);
    assert WellFormed([[], row][1], ClearMapColumns);
    var loaded := Load([[], row], ClearMapColumns).value;
    assert loaded == [cell] by { assert |loaded| == 1 && loaded[0] == cell; }
    assert KeptFrom([cell], ClearMapSelector(regions, acronyms), 1) == [];
    assert Kept([cell], ClearMapSelector(regions, acronyms)) == [];
  }
}
