/** The earlier single-file Washington job. It reads the same sheet and bulletins,
    but has no dry-run or override switches: it always caches and always archives,
    and it dates the sheet by the stored artifact's modification time rather than
    by its last record. Entries carry that modification time.

    Its dates are its own: it converts a bulletin's date text with `mktime` of the
    naive date and names an archived bulletin with `fromtimestamp` in the host's
    zone, where the newer job first localises to, and names in, the Pacific zone.
    The `reader` the functions here take is the old job's, date conversion
    included; the comparisons with the newer job state when the two agree. */
module LegacyWashington {
  import opened Wrappers
  import opened Text
  import opened Config
  import opened Sheet
  import opened Bulletin
  import opened Archive
  import opened Bucket
  import Washington

  /** A stored object and the time (wall-clock seconds, UTC) it was last written. */
  datatype Entry = Entry(blob: Blob, modified: int)

  type TimedStore = map<string, Entry>

  const EpiPrefix: string := "static/epi/wa/"
  const BreakthroughPrefix: string := "static/reports/wa/"

  /** The same labels as the newer job, but the average is stored under another
      field name. */
  const EpiNames: map<string, string> :=
    map["Earliest Specimen Collection Date" := "date", "County" := "county",
        "Deaths" := "deaths", "Deaths (7-Day Average)" := "deaths_seven_day_average"]

  const EpiLayout: Layout := Layout(EpiNames, "Statewide", "deaths_seven_day_average")

  /** The old job's date conversion agrees with the newer job's on every date text,
      as it does when the host runs in the Pacific zone. */
  ghost predicate SameDates(hostToEpoch: string -> Option<int>, reader: Reader) {
    forall t :: hostToEpoch(t) == reader.toEpoch(t)
  }

  /** The old job names every publication time as the newer job does. */
  ghost predicate SameNames(hostName: int -> string, pacificName: int -> string) {
    forall d :: hostName(d) == pacificName(d)
  }

  /** The objects without their times: what the newer job sees of the same bucket. */
  function Blobs(store: TimedStore): (r: Store)
    ensures r.Keys == store.Keys
    ensures forall k :: k in store ==> r[k] == store[k].blob
  {
    map k | k in store :: store[k].blob
  }

  /** Writing an entry writes its object. */
  lemma BlobsOfPut(store: TimedStore, key: string, blob: Blob, now: int)
    ensures Blobs(store[key := Entry(blob, now)]) == Blobs(store)[key := blob]
  {
  }

  /** The legacy prefixes are the per-state ones the configuration evidently
      intends for Washington: with the corrected epi prefix, both jobs read and
      write the same objects. */
  lemma PrefixesAgree()
    ensures EpiPrefix == IntendedEpiDataPrefix(Washington.Cfg)
    ensures BreakthroughPrefix == BreakthroughDataPrefix(Washington.Cfg)
  {
  }

  function EpiArtifactKey(md5: string): string {
    Strip(EpiPrefix, '/') + "/" + EpiArtifactName(md5)
  }

  /** The raw artifact lands where the newer job, with the corrected epi prefix,
      stores it. */
  lemma EpiArtifactKeysAgree(md5: string)
    ensures EpiArtifactKey(md5) == Washington.EpiArtifactKey(md5)
  {
    PrefixesAgree();
  }

  /** As written, the newer job stores the raw sheet under another key than the
      old job, whatever the digest. */
  lemma EpiArtifactKeysDivergeAsWritten(md5: string)
    ensures EpiArtifactKey(md5) != Washington.AsWrittenEpiArtifactKey(md5)
  {
    var name := EpiArtifactName(md5);
    var ours, theirs := "static/epi/wa/", "static/epi/{self.state}/";
    assert ours[11] != theirs[11] by {
      assert ours[11] == 'w';
      assert theirs[11] == '{';
    }
    assert (ours + name)[11] == ours[11];
    assert (theirs + name)[11] == theirs[11];
    EpiArtifactKeysAgree(md5);
    Washington.EpiArtifactKeyValue(md5);
    Washington.AsWrittenEpiArtifactKeyValue(md5);
  }

  /** An object and its sidecar written at `now`. */
  function PutWithSidecar(store: TimedStore, key: string, blob: Blob, md5: string, now: int): (r: TimedStore)
    ensures Blobs(r) == Bucket.PutWithSidecar(Blobs(store), key, blob, md5)
    ensures r[key].modified == now
  {
    BlobsOfPut(store, key, blob, now);
    BlobsOfPut(store[key := Entry(blob, now)], SidecarKey(key), Sidecar(md5), now);
    store[key := Entry(blob, now)][SidecarKey(key) := Entry(Sidecar(md5), now)]
  }

  datatype EpiRefresh = EpiRefresh(time: int, records: seq<SheetRecord>, store: TimedStore)

  /** `refresh_epi_data`: the records are stored under their digest when new; the
      update time is the stored artifact's modification time, read through the
      same clock conversion as the sheet's dates. An empty sheet is no error. */
  function RefreshEpi(rows: seq<SheetRow>, clock: int -> int, digest: seq<SheetRecord> -> string,
                      store: TimedStore, now: int): Result<EpiRefresh>
  {
    var records :- Records(EpiLayout, clock, rows);
    var md5 := digest(records);
    var key := EpiArtifactKey(md5);
    var stored := if key in store then store else PutWithSidecar(store, key, SheetData(records), md5, now);
    Ok(EpiRefresh(clock(stored[key].modified), records, stored))
  }

  /** The sheet is dated by when its content was first stored: an unchanged sheet
      keeps its time and writes nothing, a changed one is stored and dated now. */
  lemma EpiFreshness(rows: seq<SheetRow>, clock: int -> int, digest: seq<SheetRecord> -> string,
                     store: TimedStore, now: int)
    requires Records(EpiLayout, clock, rows).Ok?
    ensures var records := Records(EpiLayout, clock, rows).value;
            var key := EpiArtifactKey(digest(records));
            var r := RefreshEpi(rows, clock, digest, store, now);
      && r.Ok? && r.value.records == records
      && (key in store ==> r.value.time == clock(store[key].modified) && r.value.store == store)
      && (key !in store ==> (r.value.time == clock(now)
            && Blobs(r.value.store) == Bucket.PutWithSidecar(Blobs(store), key, SheetData(records), digest(records))))
  {
  }

  /** Re-reading an unchanged sheet, at any later moment, reports the first time
      again and leaves the bucket alone. */
  lemma EpiRefreshStable(rows: seq<SheetRow>, clock: int -> int, digest: seq<SheetRecord> -> string,
                         store: TimedStore, now: int, later: int)
    requires RefreshEpi(rows, clock, digest, store, now).Ok?
    ensures var first := RefreshEpi(rows, clock, digest, store, now).value;
            var again := RefreshEpi(rows, clock, digest, first.store, later);
      again == Ok(first)
  {
  }

  datatype Loaded = Loaded(report: Report, store: TimedStore)

  /** `_get_processed_report`: the cached record whenever there is one; otherwise
      parse the bulletin and cache the record, always. */
  function GetProcessedReport(key: string, store: TimedStore, reader: Reader, now: int): Result<Loaded> {
    var jsonKey := JsonKey(key);
    if jsonKey in store then
      match store[jsonKey].blob
      case ReportData(report) => Ok(Loaded(report, store))
      case _ => Err(DecodeError(jsonKey))
    else if key !in store then Err(NoSuchKey(key))
    else
      match store[key].blob
      case Pdf(pdf) =>
        var report :- Parse(reader, pdf);
        Ok(Loaded(report, store[jsonKey := Entry(ReportData(report), now)]))
      case _ => Err(DecodeError(key))
  }

  /** With the same date conversion, the legacy cache is the newer one with
      neither switch set: same record or same error, same objects written. */
  lemma CacheAsWithoutSwitches(key: string, store: TimedStore, reader: Reader, hostToEpoch: string -> Option<int>,
                               now: int)
    requires SameDates(hostToEpoch, reader)
    ensures var legacy := GetProcessedReport(key, store, reader.(toEpoch := hostToEpoch), now);
            var current := Washington.GetProcessedReport(key, Blobs(store), reader, false, false);
      && (legacy.Ok? <==> current.Ok?)
      && (legacy.Err? ==> legacy.fault == current.fault)
      && (legacy.Ok? ==> (legacy.value.report == current.value.report
                        && Blobs(legacy.value.store) == current.value.store))
  {
    var jsonKey := JsonKey(key);
    if jsonKey !in store && key in store && store[key].blob.Pdf? {
      ParseAgrees(reader, hostToEpoch, store[key].blob.content);
      var r := Parse(reader, store[key].blob.content);
      if r.Ok? {
        BlobsOfPut(store, jsonKey, ReportData(r.value), now);
      }
    }
  }

  datatype Collected = Collected(reports: seq<Report>, store: TimedStore)

  /** `_get_processed_breakthrough_data`, given the listing of the reports prefix. */
  function LoadArchive(keys: seq<string>, store: TimedStore, reader: Reader, now: int): Result<Collected>
    decreases |keys|
  {
    if |keys| == 0 then Ok(Collected([], store))
    else if !EndsWith(keys[0], "pdf") then LoadArchive(keys[1..], store, reader, now)
    else
      var first :- GetProcessedReport(keys[0], store, reader, now);
      var rest :- LoadArchive(keys[1..], first.store, reader, now);
      Ok(Collected([first.report] + rest.reports, rest.store))
  }

  /** With the same date conversion, loading the archive loads the same records,
      with the same writes, as the newer job does with neither switch set. */
  lemma {:induction false} LoadArchiveAsWithoutSwitches(keys: seq<string>, store: TimedStore, reader: Reader,
                                                        hostToEpoch: string -> Option<int>, now: int)
    requires SameDates(hostToEpoch, reader)
    ensures var legacy := LoadArchive(keys, store, reader.(toEpoch := hostToEpoch), now);
            var current := Washington.LoadArchive(keys, Blobs(store), reader, false, false);
      && (legacy.Ok? <==> current.Ok?)
      && (legacy.Err? ==> legacy.fault == current.fault)
      && (legacy.Ok? ==> (legacy.value.reports == current.value.reports
                        && Blobs(legacy.value.store) == current.value.store))
    decreases |keys|
  {
    if |keys| > 0 {
      if !EndsWith(keys[0], "pdf") {
        LoadArchiveAsWithoutSwitches(keys[1..], store, reader, hostToEpoch, now);
      } else {
        CacheAsWithoutSwitches(keys[0], store, reader, hostToEpoch, now);
        var first := GetProcessedReport(keys[0], store, reader.(toEpoch := hostToEpoch), now);
        if first.Ok? {
          LoadArchiveAsWithoutSwitches(keys[1..], first.value.store, reader, hostToEpoch, now);
        }
      }
    }
  }

  /** `_uplode_latest_breakthrough_report`: the bulletin, its sidecar and its
      record, under the name `hostName` gives the publication time. These are the
      newer job's writes when it names the bulletin the same way. */
  function Upload(store: TimedStore, pdf: Bytes, report: Report, hostName: int -> string, now: int): (r: TimedStore)
    ensures Blobs(r) == Washington.Upload(Blobs(store), pdf, report, hostName)
  {
    var key := ReportKey(BreakthroughPrefix, hostName(report.reportDate));
    PrefixesAgree();
    BlobsOfPut(PutWithSidecar(store, key, Pdf(pdf), report.fingerprint, now), JsonKey(key), ReportData(report), now);
    PutWithSidecar(store, key, Pdf(pdf), report.fingerprint, now)[JsonKey(key) := Entry(ReportData(report), now)]
  }

  /** When the two jobs name the publication time alike, the old archiving
      writes the same objects as the newer one. */
  lemma UploadAsNewer(store: TimedStore, pdf: Bytes, report: Report, hostName: int -> string,
                      pacificName: int -> string, now: int)
    requires hostName(report.reportDate) == pacificName(report.reportDate)
    ensures Blobs(Upload(store, pdf, report, hostName, now)) == Washington.Upload(Blobs(store), pdf, report, pacificName)
  {
    assert Washington.LatestKey(report, hostName) == Washington.LatestKey(report, pacificName);
  }

  /** When they name it differently, the old job archives the bulletin under
      another key than the newer one. */
  lemma UploadKeysDiverge(report: Report, hostName: int -> string, pacificName: int -> string)
    requires hostName(report.reportDate) != pacificName(report.reportDate)
    ensures ReportKey(BreakthroughPrefix, hostName(report.reportDate)) != Washington.LatestKey(report, pacificName)
  {
    var a, b := hostName(report.reportDate), pacificName(report.reportDate);
    PrefixesAgree();
    var p := RStrip(BreakthroughPrefix, '/') + "/";
    if ReportKey(BreakthroughPrefix, a) == ReportKey(BreakthroughPrefix, b) {
      assert ReportKey(BreakthroughPrefix, a) == p + a + ReportFileSuffix;
      assert ReportKey(BreakthroughPrefix, b) == p + b + ReportFileSuffix;
      Unwrap(p, a, b, ReportFileSuffix);
    }
  }

  datatype BreakthroughRefresh = BreakthroughRefresh(time: int, reports: seq<Report>, store: TimedStore)

  /** `refresh_breakthrough_data`: a new bulletin is always archived. */
  function RefreshBreakthrough(keys: seq<string>, store: TimedStore, fetched: Washington.Fetched, reader: Reader,
                               hostName: int -> string, now: int): Result<BreakthroughRefresh>
  {
    var collected :- LoadArchive(keys, store, reader, now);
    var latest :- Washington.LatestReport(fetched, reader);
    var merged := Merge(collected.reports, latest);
    var stored := if merged.appended then Upload(collected.store, fetched.content, latest, hostName, now)
                  else collected.store;
    Ok(BreakthroughRefresh(merged.time, merged.reports, stored))
  }

  /** With the same date conversion and naming, the legacy refresh is the newer
      one outside a dry run and without override. */
  lemma RefreshBreakthroughAsWithoutSwitches(keys: seq<string>, store: TimedStore, fetched: Washington.Fetched,
                                             reader: Reader, hostToEpoch: string -> Option<int>,
                                             hostName: int -> string, pacificName: int -> string, now: int)
    requires SameDates(hostToEpoch, reader) && SameNames(hostName, pacificName)
    ensures var legacy := RefreshBreakthrough(keys, store, fetched, reader.(toEpoch := hostToEpoch), hostName, now);
            var current := Washington.RefreshBreakthrough(keys, Blobs(store), fetched, reader, pacificName, false, false);
      && (legacy.Ok? <==> current.Ok?)
      && (legacy.Ok? ==> (legacy.value.time == current.value.time
                        && legacy.value.reports == current.value.reports
                        && Blobs(legacy.value.store) == current.value.store))
  {
    LoadArchiveAsWithoutSwitches(keys, store, reader, hostToEpoch, now);
    ParseAgrees(reader, hostToEpoch, fetched.content);
    var collected := LoadArchive(keys, store, reader.(toEpoch := hostToEpoch), now);
    var latest := Washington.LatestReport(fetched, reader);
    if collected.Ok? && latest.Ok? {
      UploadAsNewer(collected.value.store, fetched.content, latest.value, hostName, pacificName, now);
    }
  }

  /** `run`: both refreshes, one after the other, at the same moment; the results
      are not published. */
  function Run(store: TimedStore, src: Washington.Sources, clock: int -> int, reader: Reader,
               hostName: int -> string, sheetDigest: seq<SheetRecord> -> string, now: int): Result<TimedStore>
  {
    var epi :- RefreshEpi(src.sheet, clock, sheetDigest, store, now);
    var breakthrough :- RefreshBreakthrough(src.listing, epi.store, src.latest, reader, hostName, now);
    Ok(breakthrough.store)
  }

  /** Every write of the legacy job adds or replaces an object: nothing is removed. */
  lemma {:induction false} LoadArchiveKeepsKeys(keys: seq<string>, store: TimedStore, reader: Reader, now: int)
    requires LoadArchive(keys, store, reader, now).Ok?
    ensures store.Keys <= LoadArchive(keys, store, reader, now).value.store.Keys
    decreases |keys|
  {
    if |keys| > 0 {
      if !EndsWith(keys[0], "pdf") {
        LoadArchiveKeepsKeys(keys[1..], store, reader, now);
      } else {
        var first := GetProcessedReport(keys[0], store, reader, now).value;
        LoadArchiveKeepsKeys(keys[1..], first.store, reader, now);
      }
    }
  }

  lemma RunKeepsKeys(store: TimedStore, src: Washington.Sources, clock: int -> int, reader: Reader,
                     hostName: int -> string, sheetDigest: seq<SheetRecord> -> string, now: int)
    requires Run(store, src, clock, reader, hostName, sheetDigest, now).Ok?
    ensures store.Keys <= Run(store, src, clock, reader, hostName, sheetDigest, now).value.Keys
  {
    var epi := RefreshEpi(src.sheet, clock, sheetDigest, store, now).value;
    LoadArchiveKeepsKeys(src.listing, epi.store, reader, now);
  }
}
