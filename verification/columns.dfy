/** Header detection shared by the delimited-text and spreadsheet parsers: a header
    row is turned into a map from canonical field name to column index, through a
    lookup table from source label to canonical name. */
module Columns {
  import opened Wrappers

  /** Cell `j` of a header row carries a label the lookup table knows. */
  predicate Known(labels: seq<Option<string>>, names: map<string, string>, j: int) {
    0 <= j < |labels| && labels[j].Some? && labels[j].value in names
  }

  /** The column map built from one header row, cell by cell from the left: every
      known label maps its canonical name to its index (a later duplicate
      overwrites an earlier one) and unknown labels are ignored. */
  function ColumnMap(labels: seq<Option<string>>, names: map<string, string>): (m: map<string, nat>)
    ensures forall k :: k in m ==> Known(labels, names, m[k]) && names[labels[m[k]].value] == k
    ensures forall j :: Known(labels, names, j) ==>
      names[labels[j].value] in m && j <= m[names[labels[j].value]]
    ensures m == map[] <==> forall j :: !Known(labels, names, j)
    decreases |labels|
  {
    if |labels| == 0 then map[]
    else
      var m := ColumnMap(labels[..|labels| - 1], names);
      var j := |labels| - 1;
      assert forall i :: Known(labels[..j], names, i) <==> Known(labels, names, i) && i < j;
      if labels[j].Some? && labels[j].value in names then m[names[labels[j].value] := j]
      else m
  }

  /** `row[column_map[name]]`: a KeyError when the header had no such column, an
      IndexError when the row is too short. */
  function At<T>(row: seq<T>, columns: map<string, nat>, name: string): (r: Result<T>)
    ensures r.Ok? <==> name in columns && columns[name] < |row|
    ensures r.Ok? ==> r.value == row[columns[name]]
    ensures name !in columns ==> r == Err(KeyError(name))
  {
    if name !in columns then Err(KeyError(name))
    else if columns[name] >= |row| then Err(IndexError)
    else Ok(row[columns[name]])
  }
}
