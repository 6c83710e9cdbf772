/**
 * The output shaping at the end of CellMap/CellMap_CI_V1.py: the field
 * order of the merged cell record, the CSV header and rows written from
 * it, and the ClearMap 1.0 export of named column groups.
 */
module CellMapExport {
  import opened Wrappers
  import opened Text
  import opened Cells
  import ClearMapRender

  /** Field names given to the transformed coordinates. */
  const TransformedFields: seq<string> := ["xt", "yt", "zt"]

  /** Annotation fields appended after them; `name` is deliberately last. */
  const AnnotationFields: seq<string> := ["order", "id", "acronym", "name"]

  /**
   * Field names of the merged record: the raw cell fields, then the
   * transformed coordinates, the atlas order label, id, acronym and name.
   */
  function MergedFields(raw: seq<string>): (fields: seq<string>)
    ensures |fields| == |raw| + 7
    ensures fields[|fields| - 1] == "name"
  {
    raw + TransformedFields + AnnotationFields
  }

  /** The merged record's field layout, with `name` in the last column. */
  lemma MergedFieldOrder(raw: seq<string>)
    ensures |MergedFields(raw)| == |raw| + 7
    ensures MergedFields(raw)[..|raw|] == raw
    ensures MergedFields(raw)[|raw|..] == ["xt", "yt", "zt", "order", "id", "acronym", "name"]
    ensures MergedFields(raw)[|MergedFields(raw)| - 1] == "name"
    ensures "name" !in raw ==> forall i :: 0 <= i < |MergedFields(raw)| - 1 ==> MergedFields(raw)[i] != "name"
  {
  }

  /**
   * The link to the ClearMap reader, under the assumption that the raw cell
   * record has exactly five fields: its columns 5, 6, 7, 9, 10 are then the
   * merged record's `xt`, `yt`, `zt`, `id` and `acronym`.
   */
  lemma ClearMapColumnsPickTransformed(raw: seq<string>)
    requires |raw| == 5
    ensures var fields := MergedFields(raw);
      var schema := ClearMapRender.ClearMapColumns;
      && fields[schema.x] == "xt"
      && fields[schema.y] == "yt"
      && fields[schema.z] == "zt"
      && fields[schema.id] == "id"
      && fields[schema.acronym] == "acronym"
  {
  }

  /** The first letter of each field name, as a one-letter string. */
  function Initials(names: seq<string>): (r: seq<string>)
    requires forall i :: 0 <= i < |names| ==> |names[i]| > 0
    ensures |r| == |names|
    ensures forall i :: 0 <= i < |names| ==> r[i] == [names[i][0]]
  {
    seq(|names|, i requires 0 <= i < |names| => [names[i][0]])
  }

  /** The CSV header: the first letter of each field name, joined by ", "; no names give an empty header. */
  function Header(names: seq<string>): (h: string)
    requires forall i :: 0 <= i < |names| ==> |names[i]| > 0
    ensures |names| == 0 ==> h == ""
    ensures |names| > 0 ==> |h| == 3 * |names| - 2
  {
    if |names| > 0 then
      JoinSingles(", ", Initials(names));
      Join(", ", Initials(names))
    else
      Join(", ", Initials(names))
  }

  /** The header line as written to the file, behind the default comment marker. */
  function HeaderLine(names: seq<string>): (line: string)
    requires forall i :: 0 <= i < |names| ==> |names[i]| > 0
    ensures |line| == |Header(names)| + 2
    ensures line[..2] == "# " && line[2..] == Header(names)
  {
    "# " + Header(names)
  }

  /**
   * The header holds one letter per field, in field order: letter `i` at
   * position `3i`, each but the last followed by ", ".
   */
  lemma HeaderLayout(names: seq<string>)
    requires forall i :: 0 <= i < |names| ==> |names[i]| > 0
    requires |names| > 0
    ensures |Header(names)| == 3 * |names| - 2
    ensures forall i :: 0 <= i < |names| ==> Header(names)[3 * i] == names[i][0]
    ensures forall i :: 0 <= i < |names| - 1 ==> Header(names)[3 * i + 1..3 * i + 3] == ", "
    ensures HeaderLine(names)[..2] == "# "
  {
    JoinSingles(", ", Initials(names));
  }

  /** Names that share their first letter share their header letter: `x` and `xt` both give `x`. */
  lemma SharedInitialsCollide(names: seq<string>, i: nat, j: nat)
    requires forall k :: 0 <= k < |names| ==> |names[k]| > 0
    requires i < |names| && j < |names| && names[i][0] == names[j][0]
    ensures |Header(names)| == 3 * |names| - 2
    ensures Header(names)[3 * i] == Header(names)[3 * j]
  {
    HeaderLayout(names);
  }

  /**
   * One data line of the CSV: the record's values as text, joined by ",".
   * When no value holds a comma, splitting the line at "," gives the values back.
   */
  function CsvRow(values: seq<string>): (line: string)
    ensures |values| > 0 && (forall i :: 0 <= i < |values| ==> ',' !in values[i]) ==> Split(line, ',') == values
  {
    if |values| > 0 && (forall i :: 0 <= i < |values| ==> ',' !in values[i]) then
      SplitJoin(values, ',');
      SplitWithout(values[|values| - 1], ',');
      assert values[..|values| - 1] + [values[|values| - 1]] == values;
      Join(",", values)
    else
      Join(",", values)
  }

  /**
   * Because `name` is the last column, splitting a written line at ","
   * gives every earlier value back at its own position, provided those
   * values hold no comma; a comma inside the name only adds fields after it.
   */
  lemma NameLastKeepsColumns(values: seq<string>)
    requires |values| > 0
    requires forall i :: 0 <= i < |values| - 1 ==> ',' !in values[i]
    ensures var fields := Split(CsvRow(values), ',');
      && |fields| >= |values|
      && fields[..|values| - 1] == values[..|values| - 1]
      && (',' !in values[|values| - 1] ==> fields == values)
  {
    SplitJoin(values, ',');
    if ',' !in values[|values| - 1] {
      SplitWithout(values[|values| - 1], ',');
      assert values[..|values| - 1] + [values[|values| - 1]] == values;
    }
  }

  /**
   * A structured cell array: named columns, every one as long as the
   * number of cells.
   */
  datatype Table = Table(columns: map<string, seq<Field>>, count: nat)

  predicate Rectangular(t: Table) {
    forall name :: name in t.columns ==> |t.columns[name]| == t.count
  }

  /** The named column, or a placeholder column of the same length when it is absent. */
  function ColumnOrFill(t: Table, name: string): (col: seq<Option<Field>>)
    requires Rectangular(t)
    ensures |col| == t.count
    ensures forall j :: 0 <= j < t.count ==> (col[j].Some? <==> name in t.columns)
    ensures forall j :: 0 <= j < t.count && col[j].Some? ==> col[j].value == t.columns[name][j]
  {
    if name in t.columns then
      seq(t.count, j requires 0 <= j < t.count => Some(t.columns[name][j]))
    else
      seq(t.count, j requires 0 <= j < t.count => None)
  }

  /** One array row per listed name, in list order. */
  function PickColumns(t: Table, names: seq<string>): (data: seq<seq<Option<Field>>>)
    requires Rectangular(t)
    ensures |data| == |names|
  {
    seq(|names|, i requires 0 <= i < |names| => ColumnOrFill(t, names[i]))
  }

  /**
   * The exported array has one row per listed name, every row as long as
   * the table, and an entry is present exactly when its name is a field of
   * the table, in which case it is that field's value.
   */
  lemma PickColumnsShape(t: Table, names: seq<string>)
    requires Rectangular(t)
    ensures var data := PickColumns(t, names);
      && |data| == |names|
      && (forall i :: 0 <= i < |names| ==> |data[i]| == t.count)
      && (forall i, j :: 0 <= i < |names| && 0 <= j < t.count ==>
            && (data[i][j].Some? <==> names[i] in t.columns)
            && (data[i][j].Some? ==> data[i][j].value == t.columns[names[i]][j]))
  {
  }

  /** The ClearMap 1.0 groups, in the order the export writes them. */
  const ClearMap1Format: seq<(string, seq<string>)> := [
    ("points", ["x", "y", "z"]),
    ("points_transformed", ["xt", "yt", "zt"]),
    ("intensities", ["source", "dog", "background", "size"])
  ]

  /**
   * Writes one array per group: the sinks written, in order, each with its
   * group's name and the columns picked for it.
   */
  method ExportClearMap1(t: Table) returns (written: seq<(string, seq<seq<Option<Field>>>)>)
    requires Rectangular(t)
    ensures |written| == |ClearMap1Format|
    ensures forall k :: 0 <= k < |written| ==>
      written[k] == (ClearMap1Format[k].0, PickColumns(t, ClearMap1Format[k].1))
  {
    written := [];
    var k := 0;
    while k < |ClearMap1Format|
      invariant 0 <= k <= |ClearMap1Format|
      invariant |written| == k
      invariant forall m :: 0 <= m < k ==> written[m] == (ClearMap1Format[m].0, PickColumns(t, ClearMap1Format[m].1))
    {
      var (sink, names) := ClearMap1Format[k];
      var data := PickColumns(t, names);
      written := written + [(sink, data)];
      k := k + 1;
    }
  }

  /**
   * For a table holding every merged-record field, the transformed-points
   * group is never filled: each of its entries is the table's value.
   */
  lemma TransformedGroupIsComplete(t: Table, raw: seq<string>)
    requires Rectangular(t)
    requires forall i :: 0 <= i < |MergedFields(raw)| ==> MergedFields(raw)[i] in t.columns
    ensures var data := PickColumns(t, ClearMap1Format[1].1);
      forall i, j :: 0 <= i < |data| && 0 <= j < t.count ==> data[i][j].Some?
  {
    var names := ClearMap1Format[1].1;
    forall i | 0 <= i < |names| ensures names[i] in t.columns {
      assert names[i] == MergedFields(raw)[|raw| + i];
    }
  }
}
