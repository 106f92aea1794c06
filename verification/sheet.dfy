/** The Washington deaths worksheet: typed cells, header detection through a label
    table, and the filter that keeps the statewide rows with their cells passed
    through unchanged. Both Washington modules read the sheet this way; they differ
    in the label table, the name of the average column and the clock conversion. */
module Sheet {
  import opened Wrappers
  import opened Columns

  /** A worksheet cell's value: empty, a whole or fractional number, text, or a
      wall-clock timestamp (seconds, as if the wall clock were UTC). */
  datatype Cell = Blank | Whole(n: int) | Fraction(x: real) | Text(s: string) | Stamp(wall: int)

  type SheetRow = seq<Cell>

  /** How one module reads the sheet: its label table, the county whose rows are
      kept, and the field name the average column is stored under. */
  datatype Layout = Layout(names: map<string, string>, county: string, averageField: string)

  /** A kept row: the converted date, and the deaths and average cells as found. */
  datatype SheetRecord = SheetRecord(date: int, deaths: Cell, rollingAverage: Cell)

  /** Only text cells can match a label. */
  function Labels(row: SheetRow): (r: seq<Option<string>>)
    ensures |r| == |row|
    ensures forall i :: 0 <= i < |row| ==> (r[i].Some? <==> row[i].Text?)
    ensures forall i :: 0 <= i < |row| && row[i].Text? ==> r[i] == Some(row[i].s)
  {
    seq(|row|, i requires 0 <= i < |row| => if row[i].Text? then Some(row[i].s) else None)
  }

  /** The county column holds the county of interest. */
  predicate InCounty(layout: Layout, columns: map<string, nat>, row: SheetRow) {
    "county" in columns && columns["county"] < |row| && row[columns["county"]] == Text(layout.county)
  }

  /** The row reaches every column a record is built from. */
  predicate HasColumns(layout: Layout, columns: map<string, nat>, row: SheetRow) {
    && "date" in columns && columns["date"] < |row|
    && "deaths" in columns && columns["deaths"] < |row|
    && layout.averageField in columns && columns[layout.averageField] < |row|
  }

  /** The record built from a county row: the date cell must be a timestamp (the
      clock conversion rejects anything else), the other two cells are copied. */
  function RecordOf(layout: Layout, toEpoch: int -> int, columns: map<string, nat>, row: SheetRow): (r: Result<SheetRecord>)
    ensures r.Ok? <==> HasColumns(layout, columns, row) && row[columns["date"]].Stamp?
    ensures r.Ok? ==> r.value.date == toEpoch(row[columns["date"]].wall)
    ensures r.Ok? ==> r.value.deaths == row[columns["deaths"]]
    ensures r.Ok? ==> r.value.rollingAverage == row[columns[layout.averageField]]
  {
    var date :- At(row, columns, "date");
    var wall :- if date.Stamp? then Ok(date.wall) else Err(TypeError);
    var deaths :- At(row, columns, "deaths");
    var average :- At(row, columns, layout.averageField);
    Ok(SheetRecord(toEpoch(wall), deaths, average))
  }

  /** One data row: the county cell must exist; rows of other counties are skipped. */
  function DataRow(layout: Layout, toEpoch: int -> int, columns: map<string, nat>, row: SheetRow,
                   recs: seq<SheetRecord>): Result<seq<SheetRecord>>
  {
    var county :- At(row, columns, "county");
    if county != Text(layout.county) then Ok(recs)
    else
      var rec :- RecordOf(layout, toEpoch, columns, row);
      Ok(recs + [rec])
  }

  /** The row loop: until a column map exists every row is tried as the header (and
      consumed); afterwards every row is a data row. Empty rows are not skipped. */
  function Scan(layout: Layout, toEpoch: int -> int, rows: seq<SheetRow>, columns: map<string, nat>,
                recs: seq<SheetRecord>): Result<seq<SheetRecord>>
    decreases |rows|
  {
    if |rows| == 0 then Ok(recs)
    else if columns == map[] then Scan(layout, toEpoch, rows[1..], ColumnMap(Labels(rows[0]), layout.names), recs)
    else
      var next :- DataRow(layout, toEpoch, columns, rows[0], recs);
      Scan(layout, toEpoch, rows[1..], columns, next)
  }

  /** The whole sheet. */
  function Records(layout: Layout, toEpoch: int -> int, rows: seq<SheetRow>): Result<seq<SheetRecord>> {
    Scan(layout, toEpoch, rows, map[], [])
  }

  /** Reference filter: the rows of the county of interest, in sheet order. */
  function CountyRows(layout: Layout, columns: map<string, nat>, rows: seq<SheetRow>): (r: seq<SheetRow>)
    ensures |r| <= |rows|
    ensures forall i :: 0 <= i < |r| ==> InCounty(layout, columns, r[i])
    decreases |rows|
  {
    if |rows| == 0 then []
    else (if InCounty(layout, columns, rows[0]) then [rows[0]] else []) + CountyRows(layout, columns, rows[1..])
  }

  predicate IsHeader(layout: Layout, row: SheetRow) {
    ColumnMap(Labels(row), layout.names) != map[]
  }

  /** `out` holds, in order, the records built from the rows in `kept`, each of
      which builds one. */
  predicate RecordsOf(layout: Layout, toEpoch: int -> int, columns: map<string, nat>,
                      kept: seq<SheetRow>, out: seq<SheetRecord>) {
    && |out| == |kept|
    && forall i :: 0 <= i < |kept| ==>
         RecordOf(layout, toEpoch, columns, kept[i]).Ok?
         && out[i] == RecordOf(layout, toEpoch, columns, kept[i]).value
  }

  /** One more row that builds a record, in front. */
  lemma ConsRecordsOf(layout: Layout, toEpoch: int -> int, columns: map<string, nat>,
                      row: SheetRow, kept: seq<SheetRow>, tail: seq<SheetRecord>)
    requires RecordOf(layout, toEpoch, columns, row).Ok?
    requires RecordsOf(layout, toEpoch, columns, kept, tail)
    ensures RecordsOf(layout, toEpoch, columns, [row] + kept,
                      [RecordOf(layout, toEpoch, columns, row).value] + tail)
  {
    var rows', out' := [row] + kept, [RecordOf(layout, toEpoch, columns, row).value] + tail;
    forall i | 0 <= i < |rows'|
      ensures RecordOf(layout, toEpoch, columns, rows'[i]).Ok?
              && out'[i] == RecordOf(layout, toEpoch, columns, rows'[i]).value
    {
      if i > 0 {
        assert rows'[i] == kept[i - 1] && out'[i] == tail[i - 1];
      }
    }
  }

  /** With a column map in place, the records are exactly the county rows' records,
      in order: nothing is computed, and no other row contributes. */
  lemma {:induction false} ScanIsFilter(layout: Layout, toEpoch: int -> int, rows: seq<SheetRow>,
                                        columns: map<string, nat>, recs: seq<SheetRecord>)
    requires columns != map[]
    requires Scan(layout, toEpoch, rows, columns, recs).Ok?
    ensures var out := Scan(layout, toEpoch, rows, columns, recs).value;
      && |recs| <= |out| && out[..|recs|] == recs
      && RecordsOf(layout, toEpoch, columns, CountyRows(layout, columns, rows), out[|recs|..])
    decreases |rows|
  {
    var out := Scan(layout, toEpoch, rows, columns, recs).value;
    if |rows| == 0 {
      assert out == recs;
      assert RecordsOf(layout, toEpoch, columns, [], out[|recs|..]);
    } else {
      var next := DataRow(layout, toEpoch, columns, rows[0], recs).value;
      assert out == Scan(layout, toEpoch, rows[1..], columns, next).value;
      ScanIsFilter(layout, toEpoch, rows[1..], columns, next);
      var rest := CountyRows(layout, columns, rows[1..]);
      if InCounty(layout, columns, rows[0]) {
        var rec := RecordOf(layout, toEpoch, columns, rows[0]).value;
        assert CountyRows(layout, columns, rows) == [rows[0]] + rest;
        assert next == recs + [rec];
        assert out[..|recs|] == next[..|recs|];
        assert out[|recs|..] == [rec] + out[|next|..];
        ConsRecordsOf(layout, toEpoch, columns, rows[0], rest, out[|next|..]);
      } else {
        assert CountyRows(layout, columns, rows) == rest;
        assert next == recs;
      }
    }
  }

  /** The header is the first row carrying a known label; what follows is read with
      its column map. */
  lemma {:induction false} ScanFindsHeader(layout: Layout, toEpoch: int -> int, rows: seq<SheetRow>, h: int)
    requires 0 <= h < |rows| && IsHeader(layout, rows[h])
    requires forall j :: 0 <= j < h ==> !IsHeader(layout, rows[j])
    ensures Records(layout, toEpoch, rows)
         == Scan(layout, toEpoch, rows[h + 1..], ColumnMap(Labels(rows[h]), layout.names), [])
    decreases h
  {
    if h > 0 {
      assert !IsHeader(layout, rows[0]);
      assert rows[1..][h - 1 + 1..] == rows[h + 1..];
      ScanFindsHeader(layout, toEpoch, rows[1..], h - 1);
    }
  }

  /** The filter read field by field: each kept row's date converted, its deaths
      and average cells copied. */
  lemma ScanPassThrough(layout: Layout, toEpoch: int -> int, rows: seq<SheetRow>, columns: map<string, nat>)
    requires columns != map[]
    requires Scan(layout, toEpoch, rows, columns, []).Ok?
    ensures var kept := CountyRows(layout, columns, rows);
            var out := Scan(layout, toEpoch, rows, columns, []).value;
      && |out| == |kept|
      && forall i :: 0 <= i < |kept| ==>
           && HasColumns(layout, columns, kept[i]) && kept[i][columns["date"]].Stamp?
           && out[i].date == toEpoch(kept[i][columns["date"]].wall)
           && out[i].deaths == kept[i][columns["deaths"]]
           && out[i].rollingAverage == kept[i][columns[layout.averageField]]
  {
    ScanIsFilter(layout, toEpoch, rows, columns, []);
    var kept := CountyRows(layout, columns, rows);
    var out := Scan(layout, toEpoch, rows, columns, []).value;
    assert out[0..] == out;
    forall i | 0 <= i < |kept|
      ensures && HasColumns(layout, columns, kept[i]) && kept[i][columns["date"]].Stamp?
              && out[i] == RecordOf(layout, toEpoch, columns, kept[i]).value
    {
    }
  }

  /** Whole-sheet form: with a header at `h`, the records are the county rows after
      it, each with its date converted and its deaths and average cells copied. */
  lemma SheetRecordsPassThrough(layout: Layout, toEpoch: int -> int, rows: seq<SheetRow>, h: int)
    requires 0 <= h < |rows| && IsHeader(layout, rows[h])
    requires forall j :: 0 <= j < h ==> !IsHeader(layout, rows[j])
    requires Records(layout, toEpoch, rows).Ok?
    ensures var columns := ColumnMap(Labels(rows[h]), layout.names);
            var kept := CountyRows(layout, columns, rows[h + 1..]);
            var out := Records(layout, toEpoch, rows).value;
      && |out| == |kept|
      && forall i :: 0 <= i < |kept| ==>
           && HasColumns(layout, columns, kept[i]) && kept[i][columns["date"]].Stamp?
           && out[i].date == toEpoch(kept[i][columns["date"]].wall)
           && out[i].deaths == kept[i][columns["deaths"]]
           && out[i].rollingAverage == kept[i][columns[layout.averageField]]
  {
    ScanFindsHeader(layout, toEpoch, rows, h);
    ScanPassThrough(layout, toEpoch, rows[h + 1..], ColumnMap(Labels(rows[h]), layout.names));
  }

  /** A row of another county contributes nothing. */
  lemma OtherCountyIgnored(layout: Layout, toEpoch: int -> int, columns: map<string, nat>, row: SheetRow,
                           recs: seq<SheetRecord>)
    requires "county" in columns && columns["county"] < |row|
    requires !InCounty(layout, columns, row)
    ensures DataRow(layout, toEpoch, columns, row, recs) == Ok(recs)
  {
  }

  /** Without any header row nothing is read. */
  lemma {:induction false} NoHeaderNoRecords(layout: Layout, toEpoch: int -> int, rows: seq<SheetRow>)
    requires forall j :: 0 <= j < |rows| ==> !IsHeader(layout, rows[j])
    ensures Records(layout, toEpoch, rows) == Ok([])
    decreases |rows|
  {
    if |rows| > 0 {
      assert !IsHeader(layout, rows[0]);
      NoHeaderNoRecords(layout, toEpoch, rows[1..]);
    }
  }
}
