/** California: two delimited-text sources (daily deaths by area, and deaths among
    vaccinated and boosted people), their derived fields, and the run that decides
    which series to republish. */
module California {
  import opened Wrappers
  import opened Text
  import opened Series
  import opened Columns
  import opened Config
  import opened Publish

  const Cfg: StorageConfig := StorageConfig("ca")

  /** The only area whose epi rows are kept. */
  const AreaOfInterest: string := "California"

  const SecondsPerDay: int := 24 * 3600

  /** The expected columns of each file; a column is looked up by its own header text. */
  const EpiNames: map<string, string> :=
    map["date" := "date", "area" := "area", "reported_deaths" := "reported_deaths"]
  const BreakthroughNames: map<string, string> :=
    map["date" := "date", "area" := "area",
        "vaccinated_deaths" := "vaccinated_deaths", "boosted_deaths" := "boosted_deaths"]

  const CaliforniaLabels: Labels := Labels("California", "Californians")

  /** One line of the file, already split into fields by the CSV reader. */
  type Row = seq<string>

  /** A parsed record: local-midnight epoch seconds, a death count, and the rolling
      average (0 until computed). */
  datatype Sample = Sample(date: int, deaths: int, rollingAverage: real)

  /** A record as published, with its running total. */
  datatype CumulativeSample = CumulativeSample(date: int, deaths: int, rollingAverage: real, cumulativeDeaths: int)

  function Deaths(s: seq<Sample>): (r: seq<int>)
    ensures |r| == |s|
    ensures forall i :: 0 <= i < |s| ==> r[i] == s[i].deaths
  {
    seq(|s|, i requires 0 <= i < |s| => s[i].deaths)
  }

  function RowLabels(row: Row): (r: seq<Option<string>>)
    ensures |r| == |row|
    ensures forall i :: 0 <= i < |row| ==> r[i] == Some(row[i])
  {
    seq(|row|, i requires 0 <= i < |row| => Some(row[i]))
  }

  // ---------------------------------------------------------------------------
  // The row loop shared by both files

  /** A row that can serve as the header: at least one expected column name. */
  predicate IsHeader(row: Row, names: map<string, string>) {
    ColumnMap(RowLabels(row), names) != map[]
  }

  /** The loop of both parsers: empty rows are skipped; while no column map exists
      each row is tried as the header; afterwards every row goes to `handle`. */
  function Scan<S>(rows: seq<Row>, names: map<string, string>, columns: map<string, nat>, st: S,
                   handle: (map<string, nat>, Row, S) -> Result<S>): Result<S>
    decreases |rows|
  {
    if |rows| == 0 then Ok(st)
    else if |rows[0]| == 0 then Scan(rows[1..], names, columns, st, handle)
    else if columns == map[] then Scan(rows[1..], names, ColumnMap(RowLabels(rows[0]), names), st, handle)
    else
      var next :- handle(columns, rows[0], st);
      Scan(rows[1..], names, columns, next, handle)
  }

  /** Reference: the data rows after a fixed header, empty ones skipped. */
  function Fold<S>(rows: seq<Row>, columns: map<string, nat>, st: S,
                   handle: (map<string, nat>, Row, S) -> Result<S>): Result<S>
    decreases |rows|
  {
    if |rows| == 0 then Ok(st)
    else if |rows[0]| == 0 then Fold(rows[1..], columns, st, handle)
    else
      var next :- handle(columns, rows[0], st);
      Fold(rows[1..], columns, next, handle)
  }

  lemma {:induction false} ScanAfterHeader<S>(rows: seq<Row>, names: map<string, string>,
                                               columns: map<string, nat>, st: S,
                                               handle: (map<string, nat>, Row, S) -> Result<S>)
    requires columns != map[]
    ensures Scan(rows, names, columns, st, handle) == Fold(rows, columns, st, handle)
    decreases |rows|
  {
    if |rows| > 0 {
      if |rows[0]| == 0 {
        ScanAfterHeader(rows[1..], names, columns, st, handle);
      } else {
        var next := handle(columns, rows[0], st);
        if next.Ok? {
          ScanAfterHeader(rows[1..], names, columns, next.value, handle);
        }
      }
    }
  }

  /** The header is the first row naming at least one expected column (empty rows
      and rows of unknown names before it are passed over); the rows after it are
      the data rows, parsed with that row's column map. */
  lemma {:induction false} ScanFindsHeader<S>(rows: seq<Row>, names: map<string, string>, st: S,
                                              handle: (map<string, nat>, Row, S) -> Result<S>, h: int)
    requires 0 <= h < |rows| && IsHeader(rows[h], names)
    requires forall j :: 0 <= j < h ==> !IsHeader(rows[j], names)
    ensures Scan(rows, names, map[], st, handle)
         == Fold(rows[h + 1..], ColumnMap(RowLabels(rows[h]), names), st, handle)
    decreases h
  {
    if h == 0 {
      assert exists j :: Known(RowLabels(rows[0]), names, j);
      assert |rows[0]| > 0;
      ScanAfterHeader(rows[1..], names, ColumnMap(RowLabels(rows[0]), names), st, handle);
    } else {
      assert !IsHeader(rows[0], names);
      assert rows[1..][h - 1..] == rows[h..];
      ScanFindsHeader(rows[1..], names, st, handle, h - 1);
    }
  }

  /** Without a header row nothing is parsed at all. */
  lemma {:induction false} ScanWithoutHeader<S>(rows: seq<Row>, names: map<string, string>, st: S,
                                                handle: (map<string, nat>, Row, S) -> Result<S>)
    requires forall j :: 0 <= j < |rows| ==> !IsHeader(rows[j], names)
    ensures Scan(rows, names, map[], st, handle) == Ok(st)
    decreases |rows|
  {
    if |rows| > 0 {
      assert !IsHeader(rows[0], names);
      ScanWithoutHeader(rows[1..], names, st, handle);
    }
  }

  /** An invariant of the handler is an invariant of the whole scan. */
  lemma {:induction false} ScanPreserves<S>(rows: seq<Row>, names: map<string, string>,
                                            columns: map<string, nat>, st: S,
                                            handle: (map<string, nat>, Row, S) -> Result<S>,
                                            inv: S -> bool)
    requires inv(st)
    requires forall c, r, s :: inv(s) && handle(c, r, s).Ok? ==> inv(handle(c, r, s).value)
    requires Scan(rows, names, columns, st, handle).Ok?
    ensures inv(Scan(rows, names, columns, st, handle).value)
    decreases |rows|
  {
    if |rows| > 0 {
      if |rows[0]| == 0 {
        ScanPreserves(rows[1..], names, columns, st, handle, inv);
      } else if columns == map[] {
        ScanPreserves(rows[1..], names, ColumnMap(RowLabels(rows[0]), names), st, handle, inv);
      } else {
        var next := handle(columns, rows[0], st);
        ScanPreserves(rows[1..], names, columns, next.value, handle, inv);
      }
    }
  }

  // ---------------------------------------------------------------------------
  // Field conversions

  /** `int(float(x if x else '0'))`: an empty field counts as zero. */
  function ReportedCount(raw: string): (r: Result<int>)
    ensures raw == "" ==> r == Ok(0)
    ensures forall n: int :: raw == ShowInt(n) ==> r == Ok(n)
  {
    if raw == "" then Ok(0)
    else
      TruncateShowIntAll();
      match ParseDecimal(raw)
      case Some(x) => Ok(Truncate(x))
      case None => Err(ValueError(raw))
  }

  lemma TruncateShowIntAll()
    ensures forall n: int :: ParseDecimal(ShowInt(n)).Some? && Truncate(ParseDecimal(ShowInt(n)).value) == n
  {
    forall n: int
      ensures ParseDecimal(ShowInt(n)).Some? && Truncate(ParseDecimal(ShowInt(n)).value) == n
    {
      TruncateParseDecimalShowInt(n);
    }
  }

  /** `int(x)`. */
  function WholeNumber(raw: string): (r: Result<int>)
    ensures r.Ok? <==> ParseInt(raw).Some?
    ensures r.Ok? ==> r.value == ParseInt(raw).value
  {
    OrFail(ParseInt(raw), ValueError(raw))
  }

  /** A date field the source treats as "no date": empty, or the text `None`. */
  predicate Undated(date: string) {
    date == "" || date == "None"
  }

  // ---------------------------------------------------------------------------
  // Epi file: deaths by area and date

  /** The epi loop's state: the deaths accumulated into the undated bucket, and the
      dated records in file order. */
  datatype EpiTally = EpiTally(undated: int, dated: seq<Sample>)

  /** One data row of the epi file. Rows of other areas are skipped; undated rows
      add to the bucket; every other row becomes a record with average 0. */
  function EpiRow(parseDate: string -> Option<int>, columns: map<string, nat>, row: Row, t: EpiTally): Result<EpiTally>
  {
    var area :- At(row, columns, "area");
    if area != AreaOfInterest then Ok(t)
    else
      var date :- At(row, columns, "date");
      if Undated(date) then
        var raw :- At(row, columns, "reported_deaths");
        var n :- ReportedCount(raw);
        Ok(t.(undated := t.undated + n))
      else
        var ts :- OrFail(parseDate(date), ValueError(date));
        var raw :- At(row, columns, "reported_deaths");
        var n :- ReportedCount(raw);
        Ok(t.(dated := t.dated + [Sample(ts, n, 0.0)]))
  }

  function EpiHandler(parseDate: string -> Option<int>): (map<string, nat>, Row, EpiTally) -> Result<EpiTally> {
    (c, r, t) => EpiRow(parseDate, c, r, t)
  }

  /** A row of another area contributes nothing. */
  lemma OtherAreaIgnored(parseDate: string -> Option<int>, columns: map<string, nat>, row: Row, t: EpiTally)
    requires "area" in columns && columns["area"] < |row|
    requires row[columns["area"]] != AreaOfInterest
    ensures EpiRow(parseDate, columns, row, t) == Ok(t)
  {
  }

  /** An undated row of the area adds its count (an empty count is 0) to the bucket
      and creates no record; a dated row appends one record and leaves the bucket. */
  lemma EpiRowEffect(parseDate: string -> Option<int>, columns: map<string, nat>, row: Row, t: EpiTally)
    requires EpiRow(parseDate, columns, row, t).Ok?
    ensures var t' := EpiRow(parseDate, columns, row, t).value;
      && (row[columns["area"]] != AreaOfInterest ==> t' == t)
      && (row[columns["area"]] == AreaOfInterest && Undated(row[columns["date"]]) ==>
            && t'.dated == t.dated
            && t'.undated == t.undated + ReportedCount(row[columns["reported_deaths"]]).value
            && (row[columns["reported_deaths"]] == "" ==> t'.undated == t.undated))
      && (row[columns["area"]] == AreaOfInterest && !Undated(row[columns["date"]]) ==>
            && t'.undated == t.undated
            && t'.dated == t.dated + [Sample(parseDate(row[columns["date"]]).value,
                                             ReportedCount(row[columns["reported_deaths"]]).value, 0.0)])
  {
  }

  /** The synthetic "undated" record: dropped when its total is 0, otherwise put
      first, one day before the first dated record. */
  function AttachUndated(undated: int, dated: seq<Sample>): (r: Result<seq<Sample>>)
    ensures undated == 0 ==> r == Ok(dated)
    ensures undated != 0 ==> (r.Ok? <==> |dated| > 0)
    ensures undated != 0 && r.Ok? ==>
      && |r.value| == |dated| + 1
      && r.value[1..] == dated
      && r.value[0].deaths == undated
      && r.value[0].date + SecondsPerDay == dated[0].date
      && r.value[0].rollingAverage == 0.0
  {
    if undated == 0 then Ok(dated)
    else if |dated| == 0 then Err(IndexError)
    else Ok([Sample(dated[0].date - SecondsPerDay, undated, 0.0)] + dated)
  }

  /** The epi averages, computed the way the loop fills them in: index i from 7
      on gets the mean of the 7 deaths before it. */
  function TrailingAverages(s: seq<Sample>): (r: seq<Sample>)
    ensures |r| == |s|
    ensures forall i :: 0 <= i < |s| ==> r[i].date == s[i].date && r[i].deaths == s[i].deaths
    decreases |s|
  {
    if |s| == 0 then []
    else
      var n := |s| - 1;
      TrailingAverages(s[..n])
        + [if n < Window then s[n] else s[n].(rollingAverage := WindowMean(Deaths(s), n))]
  }

  /** Each average from index 7 on is the mean of the seven deaths before it, the
      current one excluded; earlier indices keep their value. */
  lemma {:induction false} TrailingAveragesMeans(s: seq<Sample>)
    ensures var r := TrailingAverages(s);
      forall i :: 0 <= i < |s| ==>
        r[i].rollingAverage == if i < Window then s[i].rollingAverage else WindowMean(Deaths(s), i)
    decreases |s|
  {
    if |s| > 0 {
      var n := |s| - 1;
      var init := TrailingAverages(s[..n]);
      var r := TrailingAverages(s);
      var last := if n < Window then s[n] else s[n].(rollingAverage := WindowMean(Deaths(s), n));
      assert r == init + [last];
      TrailingAveragesMeans(s[..n]);
      forall i | 0 <= i < |s|
        ensures r[i].rollingAverage == if i < Window then s[i].rollingAverage else WindowMean(Deaths(s), i)
      {
        if i == n {
          assert r[i] == last;
        } else {
          assert r[i] == init[i];
          assert s[..n][i] == s[i];
          if Window <= i {
            MeanOfPrefix(s, n, i);
          }
        }
      }
    }
  }

  /** A window mean over a prefix of the records is the window mean over the
      records. */
  lemma MeanOfPrefix(s: seq<Sample>, n: int, i: int)
    requires Window <= i <= n <= |s|
    ensures WindowMean(Deaths(s[..n]), i) == WindowMean(Deaths(s), i)
  {
    assert Deaths(s[..n]) == Deaths(s)[..n];
    WindowMeanPrefix(Deaths(s[..n]), Deaths(s), i);
  }

  predicate AllUnaveraged(s: seq<Sample>) {
    forall i :: 0 <= i < |s| ==> s[i].rollingAverage == 0.0
  }

  /** `refresh_epi_data`: the records and the date of the last one. */
  function ParseEpi(rows: seq<Row>, parseDate: string -> Option<int>): Result<(int, seq<Sample>)>
  {
    var t :- Scan(rows, EpiNames, map[], EpiTally(0, []), EpiHandler(parseDate));
    var withUndated :- AttachUndated(t.undated, t.dated);
    var records := TrailingAverages(withUndated);
    if |records| == 0 then Err(IndexError)
    else Ok((records[|records| - 1].date, records))
  }

  /** The epi records' averages: 0 below index 7, from index 7 on the mean of the
      seven deaths before the index (the synthetic record included when present);
      the reported time is the last record's date. */
  lemma ParseEpiAverages(rows: seq<Row>, parseDate: string -> Option<int>)
    requires ParseEpi(rows, parseDate).Ok?
    ensures var (time, records) := ParseEpi(rows, parseDate).value;
      && |records| > 0
      && time == records[|records| - 1].date
      && forall i :: 0 <= i < |records| ==>
           records[i].rollingAverage == if i < Window then 0.0 else WindowMean(Deaths(records), i)
  {
    var handle := EpiHandler(parseDate);
    var inv := (t: EpiTally) => AllUnaveraged(t.dated);
    var t := Scan(rows, EpiNames, map[], EpiTally(0, []), handle).value;
    ScanPreserves(rows, EpiNames, map[], EpiTally(0, []), handle, inv);
    var withUndated := AttachUndated(t.undated, t.dated).value;
    assert AllUnaveraged(withUndated);
    TrailingAveragesMeans(withUndated);
    assert Deaths(TrailingAverages(withUndated)) == Deaths(withUndated);
  }

  /** The undated bucket as the whole file sees it: with a header row, the scan is
      the fold of the data rows after it, and the synthetic record carries the
      bucket's total one day before the first dated record. */
  lemma ParseEpiUndatedRecord(rows: seq<Row>, parseDate: string -> Option<int>, h: int)
    requires 0 <= h < |rows| && IsHeader(rows[h], EpiNames)
    requires forall j :: 0 <= j < h ==> !IsHeader(rows[j], EpiNames)
    requires ParseEpi(rows, parseDate).Ok?
    ensures Fold(rows[h + 1..], ColumnMap(RowLabels(rows[h]), EpiNames), EpiTally(0, []), EpiHandler(parseDate)).Ok?
    ensures var t := Fold(rows[h + 1..], ColumnMap(RowLabels(rows[h]), EpiNames), EpiTally(0, []),
                          EpiHandler(parseDate)).value;
            var records := ParseEpi(rows, parseDate).value.1;
      && (t.undated == 0 ==> Deaths(records) == Deaths(t.dated))
      && (t.undated != 0 ==>
            && |records| == |t.dated| + 1
            && records[0].deaths == t.undated
            && |t.dated| > 0
            && records[0].date + SecondsPerDay == t.dated[0].date)
  {
    ScanFindsHeader(rows, EpiNames, EpiTally(0, []), EpiHandler(parseDate), h);
    var t := Scan(rows, EpiNames, map[], EpiTally(0, []), EpiHandler(parseDate)).value;
    var w := AttachUndated(t.undated, t.dated).value;
    assert ParseEpi(rows, parseDate).value.1 == TrailingAverages(w);
    assert Deaths(TrailingAverages(w)) == Deaths(w);
  }

  // ---------------------------------------------------------------------------
  // Breakthrough file: deaths among vaccinated and boosted people

  /** The breakthrough averages: 0 for the first seven records, then the mean of
      the seven records ending at (and including) the index. */
  predicate InclusiveAverages(recs: seq<Sample>) {
    forall i :: 0 <= i < |recs| ==>
      recs[i].rollingAverage == if i < Window then 0.0 else WindowMean(Deaths(recs), i + 1)
  }

  /** Appending a record as the breakthrough loop does: once there are more than
      seven records, the new one's average is the mean of the last seven. */
  function Append(recs: seq<Sample>, sample: Sample): seq<Sample> {
    var grown := recs + [sample];
    if |grown| > Window then
      grown[|grown| - 1 := sample.(rollingAverage := WindowMean(Deaths(grown), |grown|))]
    else grown
  }

  /** Appending keeps earlier records and their averages, and gives the new record
      the inclusive average. */
  lemma AppendKeepsAverages(recs: seq<Sample>, sample: Sample)
    requires InclusiveAverages(recs)
    requires sample.rollingAverage == 0.0
    ensures var r := Append(recs, sample);
      && InclusiveAverages(r)
      && |r| == |recs| + 1 && r[..|recs|] == recs
      && r[|recs|].date == sample.date && r[|recs|].deaths == sample.deaths
  {
    var grown := recs + [sample];
    var r := Append(recs, sample);
    assert Deaths(r) == Deaths(grown);
    assert Deaths(recs) == Deaths(grown)[..|recs|];
    forall k | Window < k <= |recs|
      ensures WindowMean(Deaths(recs), k) == WindowMean(Deaths(grown), k)
    {
      WindowMeanPrefix(Deaths(recs), Deaths(grown), k);
    }
    assert r[..|recs|] == recs;
  }

  /** One data row of the breakthrough file: deaths are the vaccinated plus the
      boosted count. The area column is not consulted. */
  function BreakthroughRow(parseDate: string -> Option<int>, columns: map<string, nat>, row: Row,
                           recs: seq<Sample>): Result<seq<Sample>>
  {
    var date :- At(row, columns, "date");
    var ts :- OrFail(parseDate(date), ValueError(date));
    var vaccinated :- At(row, columns, "vaccinated_deaths");
    var v :- WholeNumber(vaccinated);
    var boosted :- At(row, columns, "boosted_deaths");
    var b :- WholeNumber(boosted);
    Ok(Append(recs, Sample(ts, v + b, 0.0)))
  }

  function BreakthroughHandler(parseDate: string -> Option<int>): (map<string, nat>, Row, seq<Sample>) -> Result<seq<Sample>> {
    (c, r, s) => BreakthroughRow(parseDate, c, r, s)
  }

  lemma BreakthroughRowKeepsAverages(parseDate: string -> Option<int>, columns: map<string, nat>, row: Row,
                                     recs: seq<Sample>)
    requires InclusiveAverages(recs)
    requires BreakthroughRow(parseDate, columns, row, recs).Ok?
    ensures var r := BreakthroughRow(parseDate, columns, row, recs).value;
      && InclusiveAverages(r)
      && |r| == |recs| + 1 && r[..|recs|] == recs
      && r[|recs|].deaths == WholeNumber(row[columns["vaccinated_deaths"]]).value
                             + WholeNumber(row[columns["boosted_deaths"]]).value
  {
    var ts := parseDate(row[columns["date"]]).value;
    var v := WholeNumber(row[columns["vaccinated_deaths"]]).value;
    var b := WholeNumber(row[columns["boosted_deaths"]]).value;
    assert BreakthroughRow(parseDate, columns, row, recs).value == Append(recs, Sample(ts, v + b, 0.0));
    AppendKeepsAverages(recs, Sample(ts, v + b, 0.0));
  }

  /** `refresh_breakthrough_data`: the records and the date of the last one. */
  function ParseBreakthrough(rows: seq<Row>, parseDate: string -> Option<int>): Result<(int, seq<Sample>)>
  {
    var recs :- Scan(rows, BreakthroughNames, map[], [], BreakthroughHandler(parseDate));
    if |recs| == 0 then Err(IndexError)
    else Ok((recs[|recs| - 1].date, recs))
  }

  /** Every parsed breakthrough series has the inclusive averages, and its time is
      its last record's date. */
  lemma ParseBreakthroughAverages(rows: seq<Row>, parseDate: string -> Option<int>)
    requires ParseBreakthrough(rows, parseDate).Ok?
    ensures var (time, recs) := ParseBreakthrough(rows, parseDate).value;
      && |recs| > 0 && time == recs[|recs| - 1].date && InclusiveAverages(recs)
  {
    var handle := BreakthroughHandler(parseDate);
    forall c, r, s | InclusiveAverages(s) && handle(c, r, s).Ok?
      ensures InclusiveAverages(handle(c, r, s).value)
    {
      BreakthroughRowKeepsAverages(parseDate, c, r, s);
    }
    ScanPreserves(rows, BreakthroughNames, map[], [], handle, InclusiveAverages);
  }

  // ---------------------------------------------------------------------------
  // Derivation, storage and the run

  /** `_process_epi_data` / `_process_breakthrough_data` before serialisation: each
      record gains the running total of deaths, nothing else changes. */
  function WithCumulative(s: seq<Sample>): (r: seq<CumulativeSample>)
    ensures |r| == |s|
    ensures forall i :: 0 <= i < |s| ==>
      r[i].date == s[i].date && r[i].deaths == s[i].deaths && r[i].rollingAverage == s[i].rollingAverage
    ensures forall i :: 0 <= i < |s| ==> r[i].cumulativeDeaths == Sum(Deaths(s)[..i + 1])
  {
    var totals := RunningTotals(Deaths(s), 0);
    seq(|s|, i requires 0 <= i < |s| =>
      CumulativeSample(s[i].date, s[i].deaths, s[i].rollingAverage, totals[i]))
  }

  /** The published totals follow the source's recurrence and never decrease while
      no day reports negative deaths. */
  lemma WithCumulativeTotals(s: seq<Sample>)
    requires |s| > 0
    ensures WithCumulative(s)[0].cumulativeDeaths == s[0].deaths
    ensures forall i :: 0 < i < |s| ==>
      WithCumulative(s)[i].cumulativeDeaths == WithCumulative(s)[i - 1].cumulativeDeaths + s[i].deaths
    ensures NonNegative(Deaths(s)) ==> forall i, j :: 0 <= i <= j < |s| ==>
      0 <= WithCumulative(s)[i].cumulativeDeaths <= WithCumulative(s)[j].cumulativeDeaths
  {
    RunningTotalsStep(Deaths(s), 0);
    if NonNegative(Deaths(s)) {
      forall i, j | 0 <= i <= j < |s|
        ensures 0 <= WithCumulative(s)[i].cumulativeDeaths <= WithCumulative(s)[j].cumulativeDeaths
      {
        RunningTotalsMonotone(Deaths(s), 0, i, j);
      }
    }
  }

  /** What the bucket holds under California's keys. */
  datatype Blob = Series(records: seq<CumulativeSample>) | Meta(metadata: Metadata)

  type Store = map<string, Blob>

  datatype Kind = Epi | Breakthrough

  function SeriesKey(kind: Kind, md5: string): string {
    match kind
    case Epi => EpiDataKey(Cfg, md5)
    case Breakthrough => BreakthroughDataKey(Cfg, md5)
  }

  /** `_get_metadata`: the stored document with California's labels set, or the
      default document when none is stored. */
  function LoadMetadata(store: Store): (r: Result<Metadata>)
    ensures MetadataKey(Cfg) !in store ==> r == Ok(DefaultMetadata(Some(CaliforniaLabels)))
    ensures r.Ok? ==> r.value.labels == Some(CaliforniaLabels)
    ensures MetadataKey(Cfg) in store && store[MetadataKey(Cfg)].Meta? ==>
      r.Ok? && r.value.epi == store[MetadataKey(Cfg)].metadata.epi
      && r.value.breakthrough == store[MetadataKey(Cfg)].metadata.breakthrough
  {
    var key := MetadataKey(Cfg);
    if key !in store then Ok(DefaultMetadata(Some(CaliforniaLabels)))
    else match store[key]
      case Meta(m) => Ok(m.(labels := Some(CaliforniaLabels)))
      case Series(_) => Err(DecodeError(key))
  }

  /** One series' turn in the run: the publication state, the store, and whether
      anything was republished. */
  datatype Step = Step(state: SeriesState, store: Store, updated: bool)

  /** Apply the change-detection rule to one series and, when it fires, derive,
      upload (outside a dry run) and record the URL and time. */
  function Advance(kind: Kind, prior: SeriesState, time: int, samples: seq<Sample>,
                   digest: seq<CumulativeSample> -> string, store: Store,
                   debug: bool, forceRefresh: bool): (s: Step)
    ensures s.updated <==> Republish(time, prior.updateTime, forceRefresh, debug)
    ensures !s.updated ==> s.state == prior && s.store == store
    ensures s.updated ==>
      s.state == SeriesState(time, Some(PublicUrl(SeriesKey(kind, digest(WithCumulative(samples))))))
    ensures debug ==> s.store == store
    ensures s.updated && !debug ==>
      s.store == store[SeriesKey(kind, digest(WithCumulative(samples))) := Series(WithCumulative(samples))]
  {
    if Republish(time, prior.updateTime, forceRefresh, debug) then
      var records := WithCumulative(samples);
      var key := SeriesKey(kind, digest(records));
      Step(SeriesState(time, Some(PublicUrl(key))), if debug then store else store[key := Series(records)], true)
    else Step(prior, store, false)
  }

  datatype Outcome = Outcome(store: Store, metadata: Metadata, invalidated: seq<string>)

  /** `run`: load the metadata, parse and maybe republish the epi series, then the
      breakthrough series, then write the metadata and invalidate its cached path
      when something changed outside a dry run. */
  function Run(store: Store, epiRows: seq<Row>, breakthroughRows: seq<Row>,
               parseDate: string -> Option<int>, digest: seq<CumulativeSample> -> string,
               debug: bool, forceRefresh: bool): Result<Outcome>
  {
    var meta :- LoadMetadata(store);
    var epi :- ParseEpi(epiRows, parseDate);
    var first := Advance(Epi, meta.epi, epi.0, epi.1, digest, store, debug, forceRefresh);
    var breakthrough :- ParseBreakthrough(breakthroughRows, parseDate);
    var second := Advance(Breakthrough, meta.breakthrough, breakthrough.0, breakthrough.1,
                          digest, first.store, debug, forceRefresh);
    var meta' := meta.(epi := first.state, breakthrough := second.state);
    if debug || !(first.updated || second.updated) then Ok(Outcome(second.store, meta', []))
    else Ok(Outcome(second.store[MetadataKey(Cfg) := Meta(meta')], meta', ["/" + MetadataKey(Cfg)]))
  }

  /** Each series is republished exactly when its last record is newer than the
      recorded time, or a refresh is forced outside a dry run; then its time becomes
      the last record's date. */
  lemma RunPublishRule(store: Store, epiRows: seq<Row>, breakthroughRows: seq<Row>,
                       parseDate: string -> Option<int>, digest: seq<CumulativeSample> -> string,
                       debug: bool, forceRefresh: bool)
    requires Run(store, epiRows, breakthroughRows, parseDate, digest, debug, forceRefresh).Ok?
    ensures var out := Run(store, epiRows, breakthroughRows, parseDate, digest, debug, forceRefresh).value;
            var before := LoadMetadata(store).value;
            var (epiTime, epi) := ParseEpi(epiRows, parseDate).value;
            var (btTime, bt) := ParseBreakthrough(breakthroughRows, parseDate).value;
      && out.metadata.epi == (if Republish(epiTime, before.epi.updateTime, forceRefresh, debug)
                              then SeriesState(epiTime, Some(PublicUrl(EpiDataKey(Cfg, digest(WithCumulative(epi))))))
                              else before.epi)
      && out.metadata.breakthrough == (if Republish(btTime, before.breakthrough.updateTime, forceRefresh, debug)
                              then SeriesState(btTime, Some(PublicUrl(BreakthroughDataKey(Cfg, digest(WithCumulative(bt))))))
                              else before.breakthrough)
  {
    var meta := LoadMetadata(store).value;
    var epi := ParseEpi(epiRows, parseDate).value;
    var first := Advance(Epi, meta.epi, epi.0, epi.1, digest, store, debug, forceRefresh);
    var bt := ParseBreakthrough(breakthroughRows, parseDate).value;
    var second := Advance(Breakthrough, meta.breakthrough, bt.0, bt.1, digest, first.store, debug, forceRefresh);
    var out := Run(store, epiRows, breakthroughRows, parseDate, digest, debug, forceRefresh).value;
    assert out.metadata == meta.(epi := first.state, breakthrough := second.state);
  }

  /** A dry run writes nothing and invalidates nothing; a live run writes the
      metadata document (and invalidates its path) exactly when a series was
      republished. */
  lemma RunWrites(store: Store, epiRows: seq<Row>, breakthroughRows: seq<Row>,
                  parseDate: string -> Option<int>, digest: seq<CumulativeSample> -> string,
                  debug: bool, forceRefresh: bool)
    requires Run(store, epiRows, breakthroughRows, parseDate, digest, debug, forceRefresh).Ok?
    ensures var out := Run(store, epiRows, breakthroughRows, parseDate, digest, debug, forceRefresh).value;
            var before := LoadMetadata(store).value;
            var epiTime := ParseEpi(epiRows, parseDate).value.0;
            var btTime := ParseBreakthrough(breakthroughRows, parseDate).value.0;
            var changed := Republish(epiTime, before.epi.updateTime, forceRefresh, debug)
                        || Republish(btTime, before.breakthrough.updateTime, forceRefresh, debug);
      && (debug ==> out.store == store && out.invalidated == [])
      && (!debug && changed ==>
            MetadataKey(Cfg) in out.store && out.store[MetadataKey(Cfg)] == Meta(out.metadata)
            && out.invalidated == ["/" + MetadataKey(Cfg)])
      && (!changed ==> out.store == store && out.invalidated == [])
  {
    var meta := LoadMetadata(store).value;
    var epi := ParseEpi(epiRows, parseDate).value;
    var first := Advance(Epi, meta.epi, epi.0, epi.1, digest, store, debug, forceRefresh);
    var bt := ParseBreakthrough(breakthroughRows, parseDate).value;
    var second := Advance(Breakthrough, meta.breakthrough, bt.0, bt.1, digest, first.store, debug, forceRefresh);
    assert first.updated || second.updated <==>
      Republish(epi.0, meta.epi.updateTime, forceRefresh, debug)
      || Republish(bt.0, meta.breakthrough.updateTime, forceRefresh, debug);
  }
}
