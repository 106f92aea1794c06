/** Washington: the deaths worksheet (statewide rows, stored once per content
    digest), the archive of weekly breakthrough bulletins with its parsed-record
    cache, the two published series, and the run that republishes a series only
    when its data is strictly newer. */
module Washington {
  import opened Wrappers
  import opened Text
  import opened Series
  import opened Config
  import opened Publish
  import opened Sheet
  import opened Bulletin
  import opened Archive
  import opened Bucket

  const Cfg: StorageConfig := StorageConfig("wa")

  /** Sheet labels and the field each one is read into. */
  const EpiNames: map<string, string> :=
    map["Earliest Specimen Collection Date" := "date", "County" := "county",
        "Deaths" := "deaths", "Deaths (7-Day Average)" := "rolling_average"]

  const EpiLayout: Layout := Layout(EpiNames, "Statewide", "rolling_average")

  /** The HTTP status of a successful bulletin download. */
  const StatusOk: int := 200

  // ---------------------------------------------------------------------------
  // The worksheet

  /** The raw artifact's key: the epi prefix without its slashes, then the file
      name. The prefix is the per-state one (see `Config.EpiDataPrefix` for the
      text the configuration actually returns). */
  function EpiArtifactKey(md5: string): string {
    Strip(IntendedEpiDataPrefix(Cfg), '/') + "/" + EpiArtifactName(md5)
  }

  /** The raw artifact's key as the code builds it, through the configuration's
      unfilled epi prefix. */
  function AsWrittenEpiArtifactKey(md5: string): string {
    Strip(EpiDataPrefix(Cfg), '/') + "/" + EpiArtifactName(md5)
  }

  /** As written, the artifact lands in a directory literally named after the
      placeholder, the same for every state. */
  lemma AsWrittenEpiArtifactKeyValue(md5: string)
    ensures AsWrittenEpiArtifactKey(md5) == EpiDataPrefix(Cfg) + EpiArtifactName(md5)
    ensures EpiDataPrefix(Cfg) == "static/epi/{self.state}/"
  {
    var p := "static/epi/{self.state}/";
    var stem := p[..|p| - 1];
    assert LStrip(p, '/') == p by {
      assert p[0] != '/';
    }
    assert RStrip(p, '/') == stem by {
      assert p[|p| - 1] == '/';
      assert stem[|stem| - 1] != '/';
    }
    assert stem + "/" == p;
  }

  /** The artifact lives in Washington's epi directory, named after its digest. */
  lemma EpiArtifactKeyValue(md5: string)
    ensures EpiArtifactKey(md5) == IntendedEpiDataPrefix(Cfg) + EpiArtifactName(md5)
    ensures IntendedEpiDataPrefix(Cfg) == "static/epi/wa/"
  {
    var p := "static/epi/wa/";
    var stem := p[..|p| - 1];
    assert IntendedEpiDataPrefix(Cfg) == p by {
      assert Cfg.state == "wa";
    }
    assert LStrip(p, '/') == p by {
      assert p[0] != '/';
    }
    assert RStrip(p, '/') == stem by {
      assert p[|p| - 1] == '/';
      assert stem[|stem| - 1] != '/';
    }
    assert stem + "/" == p;
  }

  /** The sheet's records, the time of the last one, and the store after the
      raw artifact was (maybe) written. */
  datatype EpiRefresh = EpiRefresh(time: int, records: seq<SheetRecord>, store: Store)

  /** `refresh_epi_data`: read the statewide rows; store them with a sidecar under
      their digest unless that key exists or this is a dry run; report the last
      record's date, failing on an empty sheet. */
  function RefreshEpi(rows: seq<SheetRow>, clock: int -> int, digest: seq<SheetRecord> -> string,
                      store: Store, debug: bool): Result<EpiRefresh>
  {
    var records :- Records(EpiLayout, clock, rows);
    var md5 := digest(records);
    var key := EpiArtifactKey(md5);
    var stored := if key in store || debug then store else PutWithSidecar(store, key, SheetData(records), md5);
    if |records| == 0 then Err(IndexError)
    else Ok(EpiRefresh(records[|records| - 1].date, records, stored))
  }

  /** The refresh reports the last record's date; it writes the artifact and its
      sidecar only when the digest's key is new and this is not a dry run, and
      fails exactly when the sheet has no statewide row. */
  lemma RefreshEpiEffect(rows: seq<SheetRow>, clock: int -> int, digest: seq<SheetRecord> -> string,
                         store: Store, debug: bool)
    requires Records(EpiLayout, clock, rows).Ok?
    ensures var records := Records(EpiLayout, clock, rows).value;
            var key := EpiArtifactKey(digest(records));
            var r := RefreshEpi(rows, clock, digest, store, debug);
      && (r.Ok? <==> |records| > 0)
      && (r.Err? ==> r.fault == IndexError)
      && (r.Ok? ==> r.value.records == records && r.value.time == records[|records| - 1].date)
      && (r.Ok? && (key in store || debug) ==> r.value.store == store)
      && (r.Ok? && key !in store && !debug ==>
            r.value.store == PutWithSidecar(store, key, SheetData(records), digest(records)))
  {
    var records := Records(EpiLayout, clock, rows).value;
    var key := EpiArtifactKey(digest(records));
    var stored := if key in store || debug then store else PutWithSidecar(store, key, SheetData(records), digest(records));
    if |records| == 0 {
      assert RefreshEpi(rows, clock, digest, store, debug) == Err(IndexError);
    } else {
      assert RefreshEpi(rows, clock, digest, store, debug)
          == Ok(EpiRefresh(records[|records| - 1].date, records, stored));
    }
  }

  // ---------------------------------------------------------------------------
  // The published epi series

  /** The deaths cells as numbers; only whole-number cells can be added up. */
  function DeathCounts(recs: seq<SheetRecord>): (r: Result<seq<int>>)
    ensures r.Ok? <==> forall i :: 0 <= i < |recs| ==> recs[i].deaths.Whole?
    ensures r.Ok? ==> |r.value| == |recs| && forall i :: 0 <= i < |recs| ==> r.value[i] == recs[i].deaths.n
    ensures r.Err? ==> r.fault == TypeError
    decreases |recs|
  {
    if |recs| == 0 then Ok([])
    else
      var init :- DeathCounts(recs[..|recs| - 1]);
      var last := recs[|recs| - 1].deaths;
      if last.Whole? then Ok(init + [last.n]) else Err(TypeError)
  }

  /** `_process_epi_data` before serialisation: each record gains its running
      total. Freshly read records carry no earlier total, so the first one starts
      from 0. */
  function EpiSeriesOf(recs: seq<SheetRecord>): (r: Result<seq<EpiRecord>>)
    ensures r.Ok? <==> DeathCounts(recs).Ok?
    ensures r.Ok? ==> |r.value| == |recs|
    ensures r.Ok? ==> forall i :: 0 <= i < |recs| ==>
      && r.value[i].date == recs[i].date
      && Whole(r.value[i].deaths) == recs[i].deaths
      && r.value[i].rollingAverage == recs[i].rollingAverage
  {
    var deaths :- DeathCounts(recs);
    var totals := RunningTotals(deaths, 0);
    Ok(seq(|recs|, i requires 0 <= i < |recs| =>
      EpiRecord(recs[i].date, deaths[i], recs[i].rollingAverage, totals[i])))
  }

  /** The published totals: the first is the first day's deaths, each later one the
      previous total plus that day's deaths, i.e. the prefix sums. */
  lemma EpiSeriesTotals(recs: seq<SheetRecord>)
    requires EpiSeriesOf(recs).Ok?
    ensures var out := EpiSeriesOf(recs).value;
      && (|out| > 0 ==> out[0].cumulativeDeaths == out[0].deaths)
      && (forall i :: 0 < i < |out| ==> out[i].cumulativeDeaths == out[i - 1].cumulativeDeaths + out[i].deaths)
      && (forall i :: 0 <= i < |out| ==> out[i].cumulativeDeaths == Sum(DeathCounts(recs).value[..i + 1]))
  {
    var deaths := DeathCounts(recs).value;
    if |deaths| > 0 {
      RunningTotalsStep(deaths, 0);
    }
  }

  /** A series' public URL and the store after it was (maybe) uploaded. */
  datatype Published = Published(url: string, store: Store)

  function ProcessEpi(recs: seq<SheetRecord>, digest: seq<EpiRecord> -> string, store: Store,
                      debug: bool): (r: Result<Published>)
    ensures r.Ok? <==> EpiSeriesOf(recs).Ok?
    ensures r.Ok? ==> var key := EpiDataKey(Cfg, digest(EpiSeriesOf(recs).value));
      && r.value.url == PublicUrl(key)
      && r.value.store == (if debug then store else store[key := EpiSeries(EpiSeriesOf(recs).value)])
  {
    var series :- EpiSeriesOf(recs);
    var key := EpiDataKey(Cfg, digest(series));
    Ok(Published(PublicUrl(key), if debug then store else store[key := EpiSeries(series)]))
  }

  // ---------------------------------------------------------------------------
  // The bulletin archive

  /** A parsed record and the store after it was (maybe) cached. */
  datatype Loaded = Loaded(report: Report, store: Store)

  /** `_get_processed_report`: the cached record at the `json` key unless a
      refresh is forced; otherwise parse the bulletin and cache the record unless
      this is a dry run. */
  function GetProcessedReport(key: string, store: Store, reader: Reader, debug: bool, forceRefresh: bool): Result<Loaded> {
    var jsonKey := JsonKey(key);
    if !forceRefresh && jsonKey in store then
      match store[jsonKey]
      case ReportData(report) => Ok(Loaded(report, store))
      case _ => Err(DecodeError(jsonKey))
    else if key !in store then Err(NoSuchKey(key))
    else
      match store[key]
      case Pdf(pdf) =>
        var report :- Parse(reader, pdf);
        Ok(Loaded(report, if debug then store else store[jsonKey := ReportData(report)]))
      case _ => Err(DecodeError(key))
  }

  /** The cache rule: a cached record is returned as stored, without parsing and
      without writing, unless a refresh is forced; a forced or missed lookup
      parses the bulletin and caches the result except in a dry run. */
  lemma CacheRule(key: string, store: Store, reader: Reader, debug: bool, forceRefresh: bool)
    ensures var jsonKey := JsonKey(key);
            var r := GetProcessedReport(key, store, reader, debug, forceRefresh);
      && (!forceRefresh && jsonKey in store && store[jsonKey].ReportData? ==>
            r == Ok(Loaded(store[jsonKey].report, store)))
      && ((forceRefresh || jsonKey !in store) && key in store && store[key].Pdf? ==>
            && (r.Ok? <==> Parse(reader, store[key].content).Ok?)
            && (r.Ok? ==> r.value.report == Parse(reader, store[key].content).value)
            && (r.Ok? && !debug ==> r.value.store == store[jsonKey := ReportData(r.value.report)])
            && (r.Ok? && debug ==> r.value.store == store))
      && ((forceRefresh || jsonKey !in store) && key !in store ==> r == Err(NoSuchKey(key)))
  {
  }

  /** Once a bulletin has been parsed outside a dry run, asking again returns the
      same record from the cache and writes nothing. */
  lemma ParsedThenCached(key: string, store: Store, reader: Reader, forceRefresh: bool)
    requires GetProcessedReport(key, store, reader, false, forceRefresh).Ok?
    ensures var first := GetProcessedReport(key, store, reader, false, forceRefresh).value;
      GetProcessedReport(key, first.store, reader, false, false) == Ok(first)
  {
  }

  /** The parsed records of the listed keys that name a bulletin, and the store
      after caching. */
  datatype Collected = Collected(reports: seq<Report>, store: Store)

  /** The listed keys ending in `pdf`, in listing order. */
  function PdfKeys(keys: seq<string>): (r: seq<string>)
    ensures |r| <= |keys|
    ensures forall k :: k in r <==> k in keys && EndsWith(k, "pdf")
    decreases |keys|
  {
    if |keys| == 0 then []
    else (if EndsWith(keys[0], "pdf") then [keys[0]] else []) + PdfKeys(keys[1..])
  }

  /** `_get_processed_breakthrough_data`, given the listing of the reports
      prefix: one record per bulletin key, in listing order. */
  function LoadArchive(keys: seq<string>, store: Store, reader: Reader, debug: bool, forceRefresh: bool): Result<Collected>
    decreases |keys|
  {
    if |keys| == 0 then Ok(Collected([], store))
    else if !EndsWith(keys[0], "pdf") then LoadArchive(keys[1..], store, reader, debug, forceRefresh)
    else
      var first :- GetProcessedReport(keys[0], store, reader, debug, forceRefresh);
      var rest :- LoadArchive(keys[1..], first.store, reader, debug, forceRefresh);
      Ok(Collected([first.report] + rest.reports, rest.store))
  }

  /** One record per bulletin key (other keys are skipped), and a dry run writes
      nothing. */
  lemma {:induction false} LoadArchiveShape(keys: seq<string>, store: Store, reader: Reader, debug: bool,
                                            forceRefresh: bool)
    requires LoadArchive(keys, store, reader, debug, forceRefresh).Ok?
    ensures var c := LoadArchive(keys, store, reader, debug, forceRefresh).value;
      && |c.reports| == |PdfKeys(keys)|
      && (debug ==> c.store == store)
    decreases |keys|
  {
    if |keys| > 0 {
      if !EndsWith(keys[0], "pdf") {
        LoadArchiveShape(keys[1..], store, reader, debug, forceRefresh);
        assert PdfKeys(keys) == PdfKeys(keys[1..]);
      } else {
        var first := GetProcessedReport(keys[0], store, reader, debug, forceRefresh).value;
        assert debug ==> first.store == store;
        LoadArchiveShape(keys[1..], first.store, reader, debug, forceRefresh);
        var rest := LoadArchive(keys[1..], first.store, reader, debug, forceRefresh).value;
        assert LoadArchive(keys, store, reader, debug, forceRefresh).value
            == Collected([first.report] + rest.reports, rest.store);
        assert PdfKeys(keys) == [keys[0]] + PdfKeys(keys[1..]);
      }
    }
  }

  /** A bulletin download. */
  datatype Fetched = Fetched(status: int, content: Bytes)

  /** `_get_latest_breakthrough_data`: a non-200 answer is a dependency failure. */
  function LatestReport(fetched: Fetched, reader: Reader): (r: Result<Report>)
    ensures fetched.status != StatusOk ==> r == Err(DependencyError(fetched.status))
    ensures fetched.status == StatusOk ==> r == Parse(reader, fetched.content)
  {
    if fetched.status != StatusOk then Err(DependencyError(fetched.status))
    else Parse(reader, fetched.content)
  }

  /** The key a new bulletin is archived under, named after its publication date. */
  function LatestKey(report: Report, dateName: int -> string): string {
    ReportKey(BreakthroughDataPrefix(Cfg), dateName(report.reportDate))
  }

  /** `_uplode_latest_breakthrough_report`: the bulletin, its fingerprint sidecar,
      and its parsed record at the bulletin's `json` key. */
  function Upload(store: Store, pdf: Bytes, report: Report, dateName: int -> string): Store {
    var key := LatestKey(report, dateName);
    PutWithSidecar(store, key, Pdf(pdf), report.fingerprint)[JsonKey(key) := ReportData(report)]
  }

  /** An uploaded bulletin is found by the next listing, and its record is then
      served from the cache: the next run parses nothing. */
  lemma UploadThenCached(store: Store, pdf: Bytes, report: Report, dateName: int -> string,
                         reader: Reader, debug: bool)
    ensures var key := LatestKey(report, dateName);
            var after := Upload(store, pdf, report, dateName);
      && StartsWith(key, BreakthroughDataPrefix(Cfg)) && EndsWith(key, "pdf")
      && after[key] == Pdf(pdf)
      && GetProcessedReport(key, after, reader, debug, false) == Ok(Loaded(report, after))
  {
    var key := LatestKey(report, dateName);
    ReportKeyListed(BreakthroughDataPrefix(Cfg), dateName(report.reportDate));
    JsonKeyDiffers(key);
    var put := PutWithSidecar(store, key, Pdf(pdf), report.fingerprint);
    var after := Upload(store, pdf, report, dateName);
    assert after == put[JsonKey(key) := ReportData(report)];
    assert after[key] == put[key] == Pdf(pdf);
    assert after[JsonKey(key)] == ReportData(report);
  }

  /** The merged archive, its time, and the store after the (maybe) upload. */
  datatype BreakthroughRefresh = BreakthroughRefresh(time: int, reports: seq<Report>, store: Store)

  /** `refresh_breakthrough_data`: load the archive, fetch and parse the latest
      bulletin, merge it in by fingerprint, and archive it when new outside a dry
      run. */
  function RefreshBreakthrough(keys: seq<string>, store: Store, fetched: Fetched, reader: Reader,
                               dateName: int -> string, debug: bool, forceRefresh: bool): Result<BreakthroughRefresh>
  {
    var collected :- LoadArchive(keys, store, reader, debug, forceRefresh);
    var latest :- LatestReport(fetched, reader);
    var merged := Merge(collected.reports, latest);
    var stored := if merged.appended && !debug then Upload(collected.store, fetched.content, latest, dateName)
                  else collected.store;
    Ok(BreakthroughRefresh(merged.time, merged.reports, stored))
  }

  /** The refresh returns the merge of the loaded archive with the latest report;
      the bulletin is archived exactly when its fingerprint is new and this is not
      a dry run. */
  lemma RefreshBreakthroughEffect(keys: seq<string>, store: Store, fetched: Fetched, reader: Reader,
                                  dateName: int -> string, debug: bool, forceRefresh: bool)
    requires RefreshBreakthrough(keys, store, fetched, reader, dateName, debug, forceRefresh).Ok?
    ensures var collected := LoadArchive(keys, store, reader, debug, forceRefresh).value;
            var latest := Parse(reader, fetched.content).value;
            var merged := Merge(collected.reports, latest);
            var r := RefreshBreakthrough(keys, store, fetched, reader, dateName, debug, forceRefresh).value;
      && fetched.status == StatusOk
      && r.reports == merged.reports && r.time == merged.time
      && (merged.appended <==> !Archived(collected.reports, latest.fingerprint))
      && (merged.appended && !debug ==> r.store == Upload(collected.store, fetched.content, latest, dateName))
      && (!merged.appended || debug ==> r.store == collected.store)
  {
  }

  /** `_process_breakthrough_data`: drop repeated periods, derive the rates, and
      upload the series under its digest unless this is a dry run. */
  function ProcessBreakthrough(reports: seq<Report>, digest: seq<Derived> -> string, store: Store,
                               debug: bool): (r: Result<Published>)
    ensures r.Ok? <==> Derive(reports).Ok?
    ensures r.Ok? ==> var key := BreakthroughDataKey(Cfg, digest(Derive(reports).value));
      && r.value.url == PublicUrl(key)
      && r.value.store == (if debug then store else store[key := BreakthroughSeries(Derive(reports).value)])
  {
    var derived :- Derive(reports);
    var key := BreakthroughDataKey(Cfg, digest(derived));
    Ok(Published(PublicUrl(key), if debug then store else store[key := BreakthroughSeries(derived)]))
  }

  // ---------------------------------------------------------------------------
  // The run

  /** `_get_metadata`: the stored document, or both series at time 0 with no URL. */
  function LoadMetadata(store: Store): (r: Result<Metadata>)
    ensures MetadataKey(Cfg) !in store ==> r == Ok(DefaultMetadata(None))
    ensures MetadataKey(Cfg) in store && store[MetadataKey(Cfg)].Meta? ==> r == Ok(store[MetadataKey(Cfg)].metadata)
  {
    var key := MetadataKey(Cfg);
    if key !in store then Ok(DefaultMetadata(None))
    else match store[key]
      case Meta(m) => Ok(m)
      case _ => Err(DecodeError(key))
  }

  /** One series' turn: its publication state, the store, and whether it changed. */
  datatype Step = Step(state: SeriesState, store: Store, updated: bool)

  /** The change rule: publish exactly when the new time is strictly later. */
  function AdvanceEpi(prior: SeriesState, refreshed: EpiRefresh, digest: seq<EpiRecord> -> string,
                      debug: bool): (r: Result<Step>)
    ensures refreshed.time <= prior.updateTime ==> r == Ok(Step(prior, refreshed.store, false))
    ensures refreshed.time > prior.updateTime ==>
      (r.Ok? <==> EpiSeriesOf(refreshed.records).Ok?)
      && (r.Ok? ==> (r.value.updated
            && r.value.state == SeriesState(refreshed.time, Some(ProcessEpi(refreshed.records, digest, refreshed.store, debug).value.url))))
  {
    if refreshed.time > prior.updateTime then
      var published :- ProcessEpi(refreshed.records, digest, refreshed.store, debug);
      Ok(Step(SeriesState(refreshed.time, Some(published.url)), published.store, true))
    else Ok(Step(prior, refreshed.store, false))
  }

  function AdvanceBreakthrough(prior: SeriesState, refreshed: BreakthroughRefresh, digest: seq<Derived> -> string,
                               debug: bool): (r: Result<Step>)
    ensures refreshed.time <= prior.updateTime ==> r == Ok(Step(prior, refreshed.store, false))
    ensures refreshed.time > prior.updateTime ==>
      (r.Ok? <==> Derive(refreshed.reports).Ok?)
      && (r.Ok? ==> (r.value.updated
            && r.value.state == SeriesState(refreshed.time, Some(ProcessBreakthrough(refreshed.reports, digest, refreshed.store, debug).value.url))))
  {
    if refreshed.time > prior.updateTime then
      var published :- ProcessBreakthrough(refreshed.reports, digest, refreshed.store, debug);
      Ok(Step(SeriesState(refreshed.time, Some(published.url)), published.store, true))
    else Ok(Step(prior, refreshed.store, false))
  }

  /** The inputs a run reads from outside: the worksheet, the listing of the
      reports prefix, and the latest bulletin download. */
  datatype Sources = Sources(sheet: seq<SheetRow>, listing: seq<string>, latest: Fetched)

  /** The conversions a run relies on: the sheet clock, the bulletin reader, the
      date name of an archived bulletin, and the digests of what is stored. */
  datatype Oracles = Oracles(clock: int -> int, reader: Reader, dateName: int -> string,
                             sheetDigest: seq<SheetRecord> -> string,
                             epiDigest: seq<EpiRecord> -> string,
                             seriesDigest: seq<Derived> -> string)

  datatype Outcome = Outcome(store: Store, metadata: Metadata)

  /** The two series steps of a run, before the metadata document is written. */
  datatype Steps = Steps(epi: Step, breakthrough: Step)

  /** Both series in turn: the epi refresh and its change rule, then the
      breakthrough refresh on the store the first step left, and its rule. */
  function AdvanceSeries(store: Store, meta: Metadata, src: Sources, o: Oracles, debug: bool,
                         forceRefresh: bool): Result<Steps>
  {
    var epi :- RefreshEpi(src.sheet, o.clock, o.sheetDigest, store, debug);
    var first :- AdvanceEpi(meta.epi, epi, o.epiDigest, debug);
    var breakthrough :- RefreshBreakthrough(src.listing, first.store, src.latest, o.reader, o.dateName, debug, forceRefresh);
    var second :- AdvanceBreakthrough(meta.breakthrough, breakthrough, o.seriesDigest, debug);
    Ok(Steps(first, second))
  }

  /** `run`: both series in turn, then the metadata document when something
      changed outside a dry run. The force flag reaches only the cache lookups. */
  function Run(store: Store, src: Sources, o: Oracles, debug: bool, forceRefresh: bool): Result<Outcome> {
    var meta :- LoadMetadata(store);
    var steps :- AdvanceSeries(store, meta, src, o, debug, forceRefresh);
    var meta' := meta.(epi := steps.epi.state, breakthrough := steps.breakthrough.state);
    var changed := steps.epi.updated || steps.breakthrough.updated;
    var refreshed := steps.breakthrough.store;
    Ok(Outcome(if changed && !debug then refreshed[MetadataKey(Cfg) := Meta(meta')] else refreshed, meta'))
  }

  /** No override: a series' recorded time never moves back, it changes only to a
      strictly later time, and the epi series changes exactly when the sheet's last
      date is later than the recorded one. */
  lemma RunDecision(store: Store, src: Sources, o: Oracles, debug: bool, forceRefresh: bool)
    requires Run(store, src, o, debug, forceRefresh).Ok?
    ensures var before := LoadMetadata(store).value;
            var after := Run(store, src, o, debug, forceRefresh).value.metadata;
            var epiTime := RefreshEpi(src.sheet, o.clock, o.sheetDigest, store, debug).value.time;
      && (after.epi != before.epi <==> epiTime > before.epi.updateTime)
      && (after.epi != before.epi ==> after.epi.updateTime == epiTime)
      && after.breakthrough.updateTime >= before.breakthrough.updateTime
      && (after.breakthrough != before.breakthrough ==> after.breakthrough.updateTime > before.breakthrough.updateTime)
      && after.labels == before.labels
  {
    var before := LoadMetadata(store).value;
    var epi := RefreshEpi(src.sheet, o.clock, o.sheetDigest, store, debug).value;
    var first := AdvanceEpi(before.epi, epi, o.epiDigest, debug).value;
    var breakthrough := RefreshBreakthrough(src.listing, first.store, src.latest, o.reader, o.dateName, debug,
                                            forceRefresh).value;
    var second := AdvanceBreakthrough(before.breakthrough, breakthrough, o.seriesDigest, debug).value;
    assert AdvanceSeries(store, before, src, o, debug, forceRefresh) == Ok(Steps(first, second));
    var after := Run(store, src, o, debug, forceRefresh).value.metadata;
    assert after == before.(epi := first.state, breakthrough := second.state);
    assert first.state != before.epi <==> epi.time > before.epi.updateTime by {
      if epi.time > before.epi.updateTime {
        assert first.state.updateTime == epi.time;
      }
    }
    assert second.state.updateTime >= before.breakthrough.updateTime;
  }

  /** A dry run leaves the bucket exactly as it was. */
  lemma DryRunWritesNothing(store: Store, src: Sources, o: Oracles, forceRefresh: bool)
    requires Run(store, src, o, true, forceRefresh).Ok?
    ensures Run(store, src, o, true, forceRefresh).value.store == store
  {
    var meta := LoadMetadata(store).value;
    var epi := RefreshEpi(src.sheet, o.clock, o.sheetDigest, store, true).value;
    var first := AdvanceEpi(meta.epi, epi, o.epiDigest, true).value;
    LoadArchiveShape(src.listing, first.store, o.reader, true, forceRefresh);
    var breakthrough := RefreshBreakthrough(src.listing, first.store, src.latest, o.reader, o.dateName, true, forceRefresh).value;
    var second := AdvanceBreakthrough(meta.breakthrough, breakthrough, o.seriesDigest, true).value;
    assert AdvanceSeries(store, meta, src, o, true, forceRefresh) == Ok(Steps(first, second));
    assert first.store == store;
    assert breakthrough.store == first.store;
    assert second.store == breakthrough.store;
    assert Run(store, src, o, true, forceRefresh).value.store == second.store;
  }

  /** Outside a dry run the metadata document is written exactly when a series
      changed, and then holds the run's metadata; otherwise the bucket is the one
      the series steps left. */
  lemma RunWritesMetadata(store: Store, src: Sources, o: Oracles, forceRefresh: bool)
    requires Run(store, src, o, false, forceRefresh).Ok?
    ensures var before := LoadMetadata(store).value;
            var out := Run(store, src, o, false, forceRefresh).value;
            var refreshed := AdvanceSeries(store, before, src, o, false, forceRefresh).value.breakthrough.store;
      && (out.metadata != before ==> out.store == refreshed[MetadataKey(Cfg) := Meta(out.metadata)])
      && (out.metadata == before ==> out.store == refreshed)
  {
    var before := LoadMetadata(store).value;
    var epi := RefreshEpi(src.sheet, o.clock, o.sheetDigest, store, false).value;
    var first := AdvanceEpi(before.epi, epi, o.epiDigest, false).value;
    var breakthrough := RefreshBreakthrough(src.listing, first.store, src.latest, o.reader, o.dateName, false,
                                            forceRefresh).value;
    var second := AdvanceBreakthrough(before.breakthrough, breakthrough, o.seriesDigest, false).value;
    assert AdvanceSeries(store, before, src, o, false, forceRefresh) == Ok(Steps(first, second));
    var meta' := before.(epi := first.state, breakthrough := second.state);
    var out := Run(store, src, o, false, forceRefresh).value;
    assert out.metadata == meta';
    assert first.updated ==> first.state.updateTime > before.epi.updateTime;
    assert second.updated ==> second.state.updateTime > before.breakthrough.updateTime;
    assert !first.updated ==> first.state == before.epi;
    assert !second.updated ==> second.state == before.breakthrough;
    assert out.store == if first.updated || second.updated then second.store[MetadataKey(Cfg) := Meta(meta')]
                        else second.store;
  }

  // ---------------------------------------------------------------------------
  // What the series steps leave alone

  /** `key` is present in both stores or in neither, with the same object. */
  predicate SameAt(before: Store, after: Store, key: string) {
    && (key in after <==> key in before)
    && (key in before ==> after[key] == before[key])
  }

  /** A key whose eighth character is not `d` lies outside `static/data/`. */
  lemma NotMetadataKey(key: string)
    requires |key| > 7 && key[7] != 'd'
    ensures key != MetadataKey(Cfg)
  {
    assert MetadataKey(Cfg)[7] == 'd';
  }

  /** A key under the reports prefix, its sidecar and its cache key all start with
      `static/r`, so none of them is the metadata key. */
  lemma ReportKeysMissMetadata(key: string)
    requires StartsWith(key, BreakthroughDataPrefix(Cfg))
    ensures key != MetadataKey(Cfg) && SidecarKey(key) != MetadataKey(Cfg) && JsonKey(key) != MetadataKey(Cfg)
  {
    var p := BreakthroughDataPrefix(Cfg);
    assert key[..8] == p[..8] == "static/r";
    NotMetadataKey(key);
    NotMetadataKey(SidecarKey(key));
    ReplaceKeepsHead(key, "pdf", "json", 8);
    assert JsonKey(key)[7] == key[..8][7];
    NotMetadataKey(JsonKey(key));
  }

  /** Loading a listing under the reports prefix caches records only at keys
      under that prefix, never at the metadata key. */
  lemma {:induction false} LoadArchiveKeepsMetadata(keys: seq<string>, store: Store, reader: Reader, debug: bool,
                                                    forceRefresh: bool)
    requires LoadArchive(keys, store, reader, debug, forceRefresh).Ok?
    requires forall k :: k in keys ==> StartsWith(k, BreakthroughDataPrefix(Cfg))
    ensures SameAt(store, LoadArchive(keys, store, reader, debug, forceRefresh).value.store, MetadataKey(Cfg))
    decreases |keys|
  {
    if |keys| > 0 {
      assert forall k :: k in keys[1..] ==> k in keys;
      if !EndsWith(keys[0], "pdf") {
        LoadArchiveKeepsMetadata(keys[1..], store, reader, debug, forceRefresh);
      } else {
        var first := GetProcessedReport(keys[0], store, reader, debug, forceRefresh).value;
        ReportKeysMissMetadata(keys[0]);
        assert SameAt(store, first.store, MetadataKey(Cfg));
        LoadArchiveKeepsMetadata(keys[1..], first.store, reader, debug, forceRefresh);
      }
    }
  }

  /** Writing another key leaves `key` alone. */
  lemma SameAtUpdate(before: Store, other: string, blob: Blob, key: string)
    requires other != key
    ensures SameAt(before, before[other := blob], key)
  {
  }

  /** Storing the raw sheet writes two keys under the epi prefix. */
  lemma ArtifactKeepsMetadata(store: Store, records: seq<SheetRecord>, md5: string)
    ensures SameAt(store, PutWithSidecar(store, EpiArtifactKey(md5), SheetData(records), md5), MetadataKey(Cfg))
  {
    var m := MetadataKey(Cfg);
    var key := EpiArtifactKey(md5);
    EpiArtifactKeyValue(md5);
    NotMetadataKey(key);
    NotMetadataKey(SidecarKey(key));
    SameAtUpdate(store, key, SheetData(records), m);
    SameAtUpdate(store[key := SheetData(records)], SidecarKey(key), Sidecar(md5), m);
  }

  /** The sheet refresh stores only the raw sheet. */
  lemma RefreshEpiKeepsMetadata(rows: seq<SheetRow>, clock: int -> int, digest: seq<SheetRecord> -> string,
                                store: Store, debug: bool)
    requires RefreshEpi(rows, clock, digest, store, debug).Ok?
    ensures SameAt(store, RefreshEpi(rows, clock, digest, store, debug).value.store, MetadataKey(Cfg))
  {
    var records := Records(EpiLayout, clock, rows).value;
    RefreshEpiEffect(rows, clock, digest, store, debug);
    ArtifactKeepsMetadata(store, records, digest(records));
  }

  /** The epi step writes the raw sheet under the epi prefix and the series under
      its own key, never the metadata key. */
  lemma EpiStepKeepsMetadata(store: Store, prior: SeriesState, src: Sources, o: Oracles, debug: bool)
    requires RefreshEpi(src.sheet, o.clock, o.sheetDigest, store, debug).Ok?
    requires AdvanceEpi(prior, RefreshEpi(src.sheet, o.clock, o.sheetDigest, store, debug).value, o.epiDigest, debug).Ok?
    ensures SameAt(store, AdvanceEpi(prior, RefreshEpi(src.sheet, o.clock, o.sheetDigest, store, debug).value,
                                     o.epiDigest, debug).value.store, MetadataKey(Cfg))
  {
    var epi := RefreshEpi(src.sheet, o.clock, o.sheetDigest, store, debug).value;
    RefreshEpiKeepsMetadata(src.sheet, o.clock, o.sheetDigest, store, debug);
    if epi.time > prior.updateTime && !debug {
      var series := EpiSeriesOf(epi.records).value;
      KeysOfOneStateDiffer(Cfg, o.epiDigest(series), "");
      SameAtUpdate(epi.store, EpiDataKey(Cfg, o.epiDigest(series)), EpiSeries(series), MetadataKey(Cfg));
    }
  }

  /** Archiving a bulletin writes three keys under the reports prefix. */
  lemma UploadKeepsMetadata(store: Store, pdf: Bytes, report: Report, dateName: int -> string)
    ensures SameAt(store, Upload(store, pdf, report, dateName), MetadataKey(Cfg))
  {
    var m := MetadataKey(Cfg);
    var key := LatestKey(report, dateName);
    ReportKeyListed(BreakthroughDataPrefix(Cfg), dateName(report.reportDate));
    ReportKeysMissMetadata(key);
    var put := store[key := Pdf(pdf)];
    var withSidecar := put[SidecarKey(key) := Sidecar(report.fingerprint)];
    SameAtUpdate(store, key, Pdf(pdf), m);
    SameAtUpdate(put, SidecarKey(key), Sidecar(report.fingerprint), m);
    SameAtUpdate(withSidecar, JsonKey(key), ReportData(report), m);
    assert Upload(store, pdf, report, dateName) == withSidecar[JsonKey(key) := ReportData(report)];
  }

  /** The breakthrough step caches records and archives the bulletin under the
      reports prefix and writes the series under its own key, never the metadata
      key, when the listing holds only keys under the reports prefix. */
  lemma BreakthroughStepKeepsMetadata(store: Store, prior: SeriesState, src: Sources, o: Oracles, debug: bool,
                                      forceRefresh: bool)
    requires forall k :: k in src.listing ==> StartsWith(k, BreakthroughDataPrefix(Cfg))
    requires RefreshBreakthrough(src.listing, store, src.latest, o.reader, o.dateName, debug, forceRefresh).Ok?
    requires AdvanceBreakthrough(prior, RefreshBreakthrough(src.listing, store, src.latest, o.reader, o.dateName,
                                                            debug, forceRefresh).value, o.seriesDigest, debug).Ok?
    ensures SameAt(store, AdvanceBreakthrough(prior, RefreshBreakthrough(src.listing, store, src.latest, o.reader,
                                                                         o.dateName, debug, forceRefresh).value,
                                              o.seriesDigest, debug).value.store, MetadataKey(Cfg))
  {
    var m := MetadataKey(Cfg);
    var collected := LoadArchive(src.listing, store, o.reader, debug, forceRefresh).value;
    LoadArchiveKeepsMetadata(src.listing, store, o.reader, debug, forceRefresh);
    var latest := LatestReport(src.latest, o.reader).value;
    var merged := Merge(collected.reports, latest);
    var bt := RefreshBreakthrough(src.listing, store, src.latest, o.reader, o.dateName, debug, forceRefresh).value;
    assert SameAt(collected.store, bt.store, m) by {
      if merged.appended && !debug {
        UploadKeepsMetadata(collected.store, src.latest.content, latest, o.dateName);
      }
    }
    if bt.time > prior.updateTime && !debug {
      var digest := o.seriesDigest(Derive(bt.reports).value);
      KeysOfOneStateDiffer(Cfg, "", digest);
      SameAtUpdate(bt.store, BreakthroughDataKey(Cfg, digest), BreakthroughSeries(Derive(bt.reports).value), m);
    }
  }

  /** The series steps never touch the metadata document, when the listing holds
      only keys under the reports prefix (the prefix the run lists). */
  lemma AdvanceKeepsMetadata(store: Store, meta: Metadata, src: Sources, o: Oracles, debug: bool,
                             forceRefresh: bool)
    requires forall k :: k in src.listing ==> StartsWith(k, BreakthroughDataPrefix(Cfg))
    requires AdvanceSeries(store, meta, src, o, debug, forceRefresh).Ok?
    ensures SameAt(store, AdvanceSeries(store, meta, src, o, debug, forceRefresh).value.breakthrough.store,
                   MetadataKey(Cfg))
  {
    var epi := RefreshEpi(src.sheet, o.clock, o.sheetDigest, store, debug).value;
    var first := AdvanceEpi(meta.epi, epi, o.epiDigest, debug).value;
    EpiStepKeepsMetadata(store, meta.epi, src, o, debug);
    BreakthroughStepKeepsMetadata(first.store, meta.breakthrough, src, o, debug, forceRefresh);
  }

  /** Together: a live run whose metadata is unchanged leaves the metadata
      document as it found it, and one whose metadata changed holds it there. */
  lemma RunMetadataDocument(store: Store, src: Sources, o: Oracles, forceRefresh: bool)
    requires forall k :: k in src.listing ==> StartsWith(k, BreakthroughDataPrefix(Cfg))
    requires Run(store, src, o, false, forceRefresh).Ok?
    ensures var before := LoadMetadata(store).value;
            var out := Run(store, src, o, false, forceRefresh).value;
      && (out.metadata == before ==> SameAt(store, out.store, MetadataKey(Cfg)))
      && (out.metadata != before ==> MetadataKey(Cfg) in out.store && out.store[MetadataKey(Cfg)] == Meta(out.metadata))
  {
    RunWritesMetadata(store, src, o, forceRefresh);
    AdvanceKeepsMetadata(store, LoadMetadata(store).value, src, o, false, forceRefresh);
  }
}
