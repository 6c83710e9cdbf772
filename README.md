# Cell tables to atlas-space point clouds

This project models the part of the Brain Visualization and Analysis scripts that the
repository's author wrote: turning cell-detection tables into point clouds in atlas
space, and the shaping of the CellMap cell export. Everything else in the scripts calls
external toolkits (ClearMap2, elastix, brainrender, imio) and is not modelled.

A cell table arrives as its lines. Line 0 is the header. Every later line is a row of
typed fields (`Cells.Field`: a number or a text). A format's `Schema` gives the column
positions of X, Y, Z, ID and Ac: BrainJ uses 0, 1, 3, 12, 13 and ClearMap uses 5, 6, 7,
9, 10. `Cells.Load` skips the header and projects every data row to a `Cell`.

- **BrainJ reader** (`BrainJRender.ReadInBrainJCells`) applies the optional ID filter and
  then the optional acronym filter. An empty list means no filter on that field. It then
  exchanges X and Z, multiplies by 25 µm per voxel and stacks the points.
- **ClearMap reader** (`ClearMapRender.ReadInClearMapCells`) first drops cells with ID 0,
  then filters the same way. It exchanges X and Y and keeps Z.
- **Failure on no points.** Both readers fail when no row survives: `np.vstack` of an
  empty list raises. So a header-only table does not give zero points: stacking the
  empty list fails, and the model follows the code (`BrainJRender.HeaderOnlyFails`).
  A file with no line at all loads as a table with no rows, because the readers supply
  the column names, and then fails at the same stacking step.
- **Comment at line 66 of the BrainJ script.** It says X and Y are exchanged. The code
  exchanges X and Z, and the model follows the code.
- **Duplicate reader.** The volume script contains an identical copy of the BrainJ
  reader. It is modelled once, and `BrainJVolumeRender` calls it with the script's empty
  lists. That module also checks the hand-swapped GRIN-lens position.
- **CellMap export** (`CellMapExport`) covers:
  - the merged record's field order, with `name` last;
  - the CSV header of first letters, joined by `", "`, which `np.savetxt` writes after
    its default `"# "` comment marker;
  - data rows joined by `","`;
  - the ClearMap 1.0 export, one array per group with missing columns filled. The NaN
    fill value is modelled as `None`.

Coordinates are `real`, so the ×25 scaling is exact.

## Model

| member | source | states |
|---|---|---|
| `Sequences.Where` | Brainrender/CI_BrainJ_Cells_Render.py:56-62 | a boolean-mask row selection never has more rows than its input |
| `Sequences.WhereMembers` | Brainrender/CI_BrainJ_Cells_Render.py:56-62 | every selected row is an input row that passes the mask, and every passing input row is selected |
| `Sequences.WhereAtKept` | Brainrender/CI_BrainJ_Cells_Render.py:56-62 | the selected rows are exactly the input rows at the ascending list of passing positions, so the filter is stable and output row k is the k-th passing row |
| `Sequences.WhereWhere` | Brainrender/CI_BrainJ_Cells_Render.py:56-62 | two masks applied one after the other are one mask by their conjunction |
| `Cells.Project` | Brainrender/CI_BrainJ_Cells_Render.py:52 | a row projects to a cell exactly when it has each schema column with the right type, and the cell's X, Y, Z, ID and Ac are those columns' values |
| `Cells.ProjectRows` | Brainrender/CI_BrainJ_Cells_Render.py:52 | the rows load exactly when every row is well formed; then there is one cell per row, in row order |
| `Cells.Load` | Brainrender/CI_BrainJ_Cells_Render.py:52-53 | an empty file loads as no rows; otherwise exactly the one header line is skipped, and data line i becomes cell i-1 |
| `Cells.ByIds` | Brainrender/CI_BrainJ_Cells_Render.py:56-57 | with regions listed, keeps exactly the cells whose ID is listed (every kept cell is listed, every listed cell is kept); with none, keeps the table unchanged |
| `Cells.ByAcronyms` | Brainrender/CI_BrainJ_Cells_Render.py:60-62 | with acronyms listed, keeps exactly the cells whose acronym is listed; with none, keeps the table unchanged |
| `Cells.FiltersAreConjunction` | Brainrender/CI_BrainJ_Cells_Render.py:56-62 | ID filter then acronym filter, in either order, equals the single selection "ID listed or no IDs given, and acronym listed or no acronyms given" |
| `Cells.Survivors` | Brainrender/CI_BrainJ_Cells_Render.py:56-62 | the filtered table is the cells at the ascending positions that pass both filters |
| `Cells.Column` | Brainrender/CI_BrainJ_Cells_Render.py:67-69 | one entry per cell, in row order, holding that cell's chosen coordinate |
| `Cells.Scaled` | Brainrender/CI_BrainJ_Cells_Render.py:72-76 | same length as its input, every entry multiplied by the atlas resolution 25 |
| `Cells.Zip3` | Brainrender/CI_BrainJ_Cells_Render.py:77 | as long as the shortest of the three lists; point i is the three lists' entries i |
| `Cells.Vstack` | Brainrender/CI_BrainJ_Cells_Render.py:78 | stacking succeeds exactly on a non-empty list of equal-length rows and keeps the rows; an empty list fails |
| `Cells.ColumnsZipped` | Brainrender/CI_BrainJ_Cells_Render.py:67-77 | taking three coordinate columns, scaling each by 25 and zipping them gives, per cell and in cell order, the three chosen coordinates times 25 |
| `BrainJRender.BrainJPoint` | Brainrender/CI_BrainJ_Cells_Render.py:67-76 | a cell's point is its voxel triple with X and Z exchanged, scaled by 25; `BrainJPointInjective` shows it keeps distinct voxels apart |
| `BrainJRender.BrainJPoints` | Brainrender/CI_BrainJ_Cells_Render.py:67-77 | the column-wise construction yields one point per cell, `[25·Z, 25·Y, 25·X]` |
| `BrainJRender.ReadInBrainJCells` | Brainrender/CI_BrainJ_Cells_Render.py:49-78 | load errors pass through; otherwise it succeeds exactly when some cell survives; then it gives one point per survivor, in order, equal to `[25·Z, 25·Y, 25·X]`; else it fails at the stacking step |
| `BrainJRender.PointsComeFromSelectedRows` | Brainrender/CI_BrainJ_Cells_Render.py:56-77 | every point comes from a row whose ID is listed (if IDs are given) and whose acronym is listed (if acronyms are given); source rows ascend with the points; no passing row is skipped |
| `BrainJRender.NoFilterKeepsEveryRow` | Brainrender/CI_BrainJ_Cells_Render.py:56-63 | with both lists empty, each data row gives one point, in file order |
| `BrainJRender.HeaderOnlyFails` | Brainrender/CI_BrainJ_Cells_Render.py:78 | a table with only a header fails at the stacking step instead of returning no points |
| `BrainJRender.BrainJPointInjective` | Brainrender/CI_BrainJ_Cells_Render.py:67-76 | two cells give the same point exactly when their voxel coordinates are equal |
| `BrainJRender.RegionScenario` | Brainrender/CI_BrainJ_Cells_Render.py:49-78 | the cell (10, 20, 30) in region 767, filtered to region 767, gives the single point (750, 500, 250) |
| `BrainJVolumeRender.ReadInScriptCells` | Brainrender/CI_BrainJ_Cells_and_Volume_Render.py:47-87 | with the script's empty lists, a readable table with data rows gives one `[25·Z, 25·Y, 25·X]` point per row, in order; a header-only table fails |
| `BrainJVolumeRender.AtlasOrderPositionMatchesRemap` | Brainrender/CI_BrainJ_Cells_and_Volume_Render.py:128-134 | scaling a position written in atlas order gives the cell remap of the same position in BrainJ order |
| `BrainJVolumeRender.LensPositionIsRemapped` | Brainrender/CI_BrainJ_Cells_and_Volume_Render.py:128-134 | `[173,144,337]` is `[337,144,173]` with its first and third entries exchanged; scaled it is `[4325,3600,8425]`, the remap of voxel (337,144,173) |
| `ClearMapRender.InBrain` | Brainrender/CI_ClearMap_Cells_Render.py:53 | a cell passes exactly when its ID is not 0 |
| `ClearMapRender.ClearMapPoint` | Brainrender/CI_ClearMap_Cells_Render.py:64-77 | a cell's point is its voxel triple with X and Y exchanged, scaled by 25; `ClearMapPointInjective` shows it keeps distinct voxels apart |
| `ClearMapRender.ClearMapSurvivors` | Brainrender/CI_ClearMap_Cells_Render.py:53-61 | the ID≠0 exclusion and then the two filters keep exactly the cells at the ascending positions satisfying ID≠0 and both filters |
| `ClearMapRender.ClearMapPoints` | Brainrender/CI_ClearMap_Cells_Render.py:64-78 | the column-wise construction yields one point per cell, `[25·Y, 25·X, 25·Z]`, with no axis reversal |
| `ClearMapRender.ReadInClearMapCells` | Brainrender/CI_ClearMap_Cells_Render.py:45-79 | load errors pass through; otherwise it succeeds exactly when some cell survives; then it gives one point per survivor, in order, equal to `[25·Y, 25·X, 25·Z]`; else it fails at the stacking step |
| `ClearMapRender.PointsComeFromSelectedRows` | Brainrender/CI_ClearMap_Cells_Render.py:53-78 | no point comes from an ID 0 row, even if 0 is listed; every point's row passes both filters; rows keep file order; no passing row is skipped |
| `ClearMapRender.NoFilterKeepsInBrainRows` | Brainrender/CI_ClearMap_Cells_Render.py:53-61 | with both lists empty, the survivors are exactly the ID≠0 cells in order |
| `ClearMapRender.ClearMapPointInjective` | Brainrender/CI_ClearMap_Cells_Render.py:64-77 | two cells give the same point exactly when their voxel coordinates are equal |
| `ClearMapRender.OutsideBrainScenario` | Brainrender/CI_ClearMap_Cells_Render.py:49-79 | a table whose one cell has ID 0 fails at the stacking step for every filter |
| `CellMapExport.MergedFields` | CellMap/CellMap_CI_V1.py:338-345 | the merged record has seven fields more than the raw record, and its last field is `name`; `MergedFieldOrder` gives the full order |
| `CellMapExport.MergedFieldOrder` | CellMap/CellMap_CI_V1.py:338-345 | the merged record is the raw fields, then `xt,yt,zt,order,id,acronym,name`; `name` is the last column and, if no raw field is called `name`, not any earlier one |
| `CellMapExport.ClearMapColumnsPickTransformed` | CellMap/CellMap_CI_V1.py:345 | assuming five raw fields, the ClearMap reader's columns 5,6,7,9,10 are `xt,yt,zt,id,acronym` |
| `Text.Join` | CellMap/CellMap_CI_V1.py:358 | a join of at least one part starts with the first part; `SplitJoin` shows that splitting it at a one-character separator gives the parts back |
| `Text.SplitJoin` | CellMap/CellMap_CI_V1.py:333-359 | splitting fields joined by a one-character delimiter returns every field but the last, if those hold no delimiter, followed by the split of the last field |
| `CellMapExport.Initials` | CellMap/CellMap_CI_V1.py:358 | one one-letter string per field name, in order, holding that name's first character |
| `CellMapExport.Header` | CellMap/CellMap_CI_V1.py:358 | no names give an empty header; n names give a header of 3n-2 characters; `HeaderLayout` places each letter |
| `CellMapExport.HeaderLine` | CellMap/CellMap_CI_V1.py:359 | the written header line is the header behind the two-character comment marker `"# "` |
| `CellMapExport.HeaderLayout` | CellMap/CellMap_CI_V1.py:358-359 | the header has one letter per field name, in field order: letter i is the first character of name i at position 3i, separated by `", "`; the file line starts with `"# "` |
| `CellMapExport.SharedInitialsCollide` | CellMap/CellMap_CI_V1.py:336-358 | names with the same first letter get the same header letter |
| `CellMapExport.CsvRow` | CellMap/CellMap_CI_V1.py:359 | when no value holds a comma, splitting the written line at `,` gives the values back exactly |
| `CellMapExport.NameLastKeepsColumns` | CellMap/CellMap_CI_V1.py:333-359 | splitting a written row at `,` restores every value before the last one, if those have no comma; a comma in the last value (the name) only adds fields after it; with no comma the split is exact |
| `CellMapExport.ColumnOrFill` | CellMap/CellMap_CI_V1.py:371 | as long as the table; every entry is present exactly when the name is a field, and then holds that field's value |
| `CellMapExport.PickColumns` | CellMap/CellMap_CI_V1.py:371 | one array row per listed name; `PickColumnsShape` gives each row's length and entries |
| `CellMapExport.PickColumnsShape` | CellMap/CellMap_CI_V1.py:371 | one array row per listed name, each as long as the table; an entry is present exactly when the name is a field, and then holds that field's value |
| `CellMapExport.ExportClearMap1` | CellMap/CellMap_CI_V1.py:365-372 | writes three arrays in the order points, points_transformed, intensities, each with the columns picked for its group |
| `CellMapExport.TransformedGroupIsComplete` | CellMap/CellMap_CI_V1.py:345-371 | for a table holding all merged-record fields, the points_transformed array has no fill entry |

## Left out

- File reading and the CSV parser are not modelled. The input is already split into typed
  fields, and there is no `imio` volume loader. The parser's behaviour is simplified:
  - Non-numeric coordinates, a non-integral ID or a numeric acronym become a load error.
    The parser would instead keep a mixed or object column.
  - A data row too short for a schema column becomes a load error. The parser would
    fill the row with NaN.
  - The schema's positions are listed in ascending order, so `usecols` ordering is the
    identity here.
- Cells.Load: a file with no line at all loads as a table with no rows, so both readers
  fail with `EmptyStack` as for a header-only table. What pandas' reader itself does on
  an empty file, with caller-given names and integer `usecols`, is not modelled; the
  error label for empty and header-only input is the model's own.
- Floating point is not modelled. Coordinates are exact reals, and the NaN fill value is
  `None`.
- Rendering is not modelled: the brainrender scene, regions, points, density, volume,
  cylinder, ruler, video maker and the process-wide `brainrender.settings` assignments.
  These are external UI calls.
- `np.swapaxes` on the loaded image volume is not modelled. It is an array library
  operation on data loaded from disk.
- Every ClearMap2 call in the CellMap pipeline is not modelled: workspace set-up and
  `ws.debug`, conversion, resampling, elastix alignment and point transformation, cell
  detection with its parameter dictionaries, the size threshold inside `filter_cells`,
  annotation, voxelization and plots. All of them are external toolkit operations. The
  in-place `dtype` renaming of the transformed coordinates is modelled only through the
  field names it assigns.
- Writing the files is not modelled: `np.savetxt`, `io.write` and the sink file names.
  `ExportClearMap1` returns the written arrays paired with their group names. The CSV's
  value formatting (`%s` of numbers) is outside the model, so row values arrive as text.
- The raw ClearMap2 cell record's field list is not modelled. It is defined inside
  ClearMap2. `ClearMapColumnsPickTransformed` takes five raw fields as an assumption.
- The group statistics script is not modelled. Its computation lives in ClearMap2.
