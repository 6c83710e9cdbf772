/**
 * Brainrender/CI_BrainJ_Cells_and_Volume_Render.py: the same BrainJ reader
 * (modelled once, in `BrainJRender`), called with empty filter lists, and
 * the GRIN-lens position written in atlas axis order and scaled by 25.
 */
module BrainJVolumeRender {
  import opened Wrappers
  import opened Cells
  import opened BrainJRender

  /** The script's filter lists: both empty, so every cell is plotted. */
  const ScriptRegions: seq<int> := []
  const ScriptAcronyms: seq<string> := []

  /** The lens position in BrainJ axis order, as the script's comment gives it. */
  const LensPositionBrainJOrder: seq<real> := [337.0, 144.0, 173.0]

  /** The lens position as the script writes it, X and Z already exchanged. */
  const LensPosition: seq<real> := [173.0, 144.0, 337.0]

  /**
   * The script's read of its cell table: with its empty lists, a readable
   * table with at least one data row gives one point per data row, in file
   * order; a table with no data row, header-only or empty, fails at the
   * stacking step.
   */
  function ReadInScriptCells(lines: seq<seq<Field>>): (r: Result<seq<seq<real>>, LoadError>)
    ensures Load(lines, BrainJColumns).Failure? ==> r == Failure(Load(lines, BrainJColumns).error)
    ensures Load(lines, BrainJColumns).Success? && |lines| <= 1 ==> r == Failure(EmptyStack)
    ensures Load(lines, BrainJColumns).Success? && |lines| > 1 ==>
      && r.Success?
      && |r.value| == |lines| - 1
      && forall i :: 0 <= i < |r.value| ==> r.value[i] == BrainJPoint(Load(lines, BrainJColumns).value[i])
  {
    var r := ReadInBrainJCells(lines, ScriptRegions, ScriptAcronyms);
    if Load(lines, BrainJColumns).Success? && |lines| > 1 then
      NoFilterKeepsEveryRow(lines);
      r
    else
      r
  }

  /**
   * Scaling a position written in atlas order agrees with the cell remap
   * of the same position written in BrainJ order.
   */
  lemma AtlasOrderPositionMatchesRemap(p: seq<real>, id: int, acronym: string)
    requires |p| == 3
    ensures Scaled([p[2], p[1], p[0]]) == BrainJPoint(Cell(p[0], p[1], p[2], id, acronym))
  {
  }

  /**
   * The hand-written lens position is the BrainJ-order position with its
   * first and third entries exchanged, and scaled it lands where the cell
   * remap puts that voxel: (4325, 3600, 8425) microns.
   */
  lemma LensPositionIsRemapped()
    ensures LensPosition == [LensPositionBrainJOrder[2], LensPositionBrainJOrder[1], LensPositionBrainJOrder[0]]
    ensures Scaled(LensPosition) == [4325.0, 3600.0, 8425.0]
    ensures Scaled(LensPosition) == BrainJPoint(Cell(337.0, 144.0, 173.0, 0, ""))
  {
    AtlasOrderPositionMatchesRemap(LensPositionBrainJOrder, 0, "");
  }
}
