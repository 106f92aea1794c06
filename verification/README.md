# beyblade data pipeline: a Dafny model

The pipeline behind the beyblade site republishes two death series for US states:
- the "epi" series of all COVID deaths by day;
- the "breakthrough" series of deaths among vaccinated people.

It keeps both in an object bucket and records what it last published in a per-state metadata document.

This project models the core of that pipeline as pure functions over immutable data. It models:

- **California** (`beyblade_lambda/ca.py`): two CSV parsers.
  - Header detection from the first row that names an expected column.
  - Empty rows are skipped.
  - The epi parser keeps only the state-wide area. It folds rows without a date into one synthetic "undated" record, dated one day before the first dated record. From index 7 on, each record carries the mean of the seven deaths before it.
  - The breakthrough parser sums vaccinated and boosted deaths. Once more than seven records exist, it gives the newest one the mean of the last seven.
  - The running totals.
  - The run rule: a series is republished when its data is newer, or when a refresh is forced outside a dry run. After a live run that changed something, the metadata is written and its public path is invalidated.
- **Washington** (`beyblade_lambda/wa.py`):
  - The worksheet filter. Header detection through a label table, then the "Statewide" rows with their cells passed through unchanged.
  - The raw sheet artifact, stored once per content digest with an `.md5` sidecar.
  - The archive of weekly breakthrough bulletins, with:
    - the `pdf` → `json` parsed-record cache;
    - the fields derived from the bulletin's text;
    - the merge of the latest bulletin by content fingerprint, plus its archiving;
    - the removal of reports that repeat the next report's period end;
    - the death-rate derivation.
  - The run rule. Here it has no force override: a series changes only when its time is strictly later. A dry run writes nothing.
- **The earlier Washington job** (`lambda/wa.py`). It has no dry-run or override switches. It dates the sheet by the stored artifact's modification time. Its date conversions are its own: it reads dates and names archived bulletins in the host's zone, where the newer job uses the Pacific zone. The model proves its cache, archive loading and breakthrough refresh equal the newer job's with both switches off, whenever the two jobs' conversions agree.
- **Storage naming** (`beyblade_lambda/config.py`): every key builder. This includes the epi prefix, which lacks its `f` prefix (see Findings).

Everything the code takes from outside is a parameter of the model:
- the HTTP answers and the spreadsheet rows;
- the PDF text extraction and the bulletin's regular expressions;
- `strptime`/`mktime` and `strftime`;
- the MD5 digests;
- the current time.

The bucket is a `map` from key to a typed object. A failure is a `Result` carrying the exception kind the Python code would raise.

Files, one module each:
- `wrappers.dfy`, `text.dfy`, `series.dfy`, `columns.dfy`: foundations.
- `config.dfy`, `publish.dfy`: key naming and the change rule.
- `california.dfy`.
- `sheet.dfy`, `bulletin.dfy`, `archive.dfy`, `bucket.dfy`: the Washington building blocks.
- `washington.dfy`.
- `legacy_washington.dfy`.

## Model

| member | source | states |
|---|---|---|
| Wrappers.OrFail | beyblade_lambda/wa.py:150-152 | A missing match becomes the given failure; a present one passes through unchanged. |
| Text.Without | beyblade_lambda/wa.py:148 | Removing a character leaves no copy of it, keeps every other character, and leaves text without it unchanged. |
| Text.WithoutAppend | beyblade_lambda/wa.py:144-148 | Removing a character distributes over concatenation, so the text of several pages can be cleaned page by page. |
| Text.WithoutIdempotent | beyblade_lambda/wa.py:148 | Cleaning already cleaned text changes nothing. |
| Text.ReplaceAbsent | beyblade_lambda/wa.py:196 | `replace` on a key without the pattern returns the key unchanged. |
| Text.ReplaceLengthens | beyblade_lambda/wa.py:196 | Replacing `pdf` by the longer `json` strictly lengthens every key that contains it. |
| Text.RStrip | beyblade_lambda/wa.py:254 | The result is a prefix of the input that does not end in the character; only copies of it were dropped. |
| Text.LStrip | beyblade_lambda/wa.py:91 | The result is a suffix of the input that does not start with the character; only copies of it were dropped. |
| Text.Strip | beyblade_lambda/wa.py:91 | The result is a slice of the input with only copies of the character cut from either end, and it neither starts nor ends with the character. |
| Text.StripTrims | beyblade_lambda/wa.py:91 | Stripping the left end and then the right end keeps the slice that starts where the leading copies of the character end. |
| Text.ParseNat | beyblade_lambda/wa.py:161-162 | `int` of unsigned text succeeds exactly on a nonempty run of digits. |
| Text.ParseInt | beyblade_lambda/wa.py:161-162 | `int` succeeds exactly on a nonempty digit run, optionally after one sign. The value is the run's decimal value, negated after a minus sign. |
| Text.ParseUnsignedDecimal | beyblade_lambda/wa.py:166 | Unsigned `float` succeeds exactly on a digit run or on digits around one point, with at least one digit. The value is the whole part plus the fraction digits over their power of ten, and is never negative. |
| Text.PointIsFirst | beyblade_lambda/wa.py:166 | A point with digits on both sides is the text's first point, and a digit run has none. |
| Text.ParseDecimal | beyblade_lambda/wa.py:166 | `float` succeeds exactly on unsigned decimal text, optionally after one sign. Its value is the unsigned value, whole part plus fraction, negated after a minus sign. |
| Text.ReplaceKeepsHead | beyblade_lambda/wa.py:196 | `replace` leaves untouched a head of the key in which the pattern cannot start. |
| Text.Truncate | beyblade_lambda/ca.py:84 | Python's `int` of a float rounds toward zero, for both signs. |
| Text.ParseShowNat | beyblade_lambda/ca.py:84 | Reading back printed digits gives the number printed. |
| Text.ParseShowInt | beyblade_lambda/ca.py:54 | `int` of printed integer text, with or without a sign, gives the integer. |
| Text.TruncateParseDecimalShowInt | beyblade_lambda/ca.py:84 | `int(float(x))` of printed integer text gives the integer back. |
| Series.WindowMeanPrefix | beyblade_lambda/ca.py:103-104 | A window mean reads only the values before its end, so later records do not change it. |
| Series.RunningTotals | beyblade_lambda/ca.py:109-116 | Each running total is the base plus the sum of all values up to and including its index. |
| Series.RunningTotalsStep | beyblade_lambda/ca.py:112-116 | The totals follow the source's recurrence: the first is the base plus the first value, each later one the previous total plus its value. |
| Series.RunningTotalsMonotone | beyblade_lambda/ca.py:109-116 | With no negative deaths the running total never decreases and never drops below the base. |
| Columns.ColumnMap | beyblade_lambda/ca.py:44-47 | Every known label in the header row maps its field to its column, later duplicates winning, and unknown labels are ignored. The map is empty exactly when no label is known. |
| Columns.At | beyblade_lambda/ca.py:49 | A cell lookup fails with a KeyError for a field the header lacked and an IndexError for a short row; otherwise it returns that cell. |
| Config.StateIsConstructorArgument | beyblade_lambda/config.py:2-7 | The `state` property returns what the configuration was built with. |
| Config.EpiDataPrefix | beyblade_lambda/config.py:9-10 | As written, the epi prefix keeps the unfilled `{` placeholder and ends in `/`. |
| Config.EpiDataPrefixIgnoresState | beyblade_lambda/config.py:9-10 | As written, every state gets the same epi prefix. |
| Config.EpiDataPrefixMissesState | beyblade_lambda/config.py:9-13 | For Washington the as-written prefix differs from the per-state directory `static/epi/wa/`. |
| Config.IntendedEpiDataPrefix | beyblade_lambda/config.py:9-10 | The corrected prefix is a directory under `static/epi/`. |
| Config.IntendedEpiDataPrefixInjective | beyblade_lambda/config.py:9-10 | With the state filled in, distinct states get distinct epi directories. |
| Config.BreakthroughDataPrefix | beyblade_lambda/config.py:12-13 | The reports prefix is the directory `static/reports/<state>/`, with the state between the fixed parts. |
| Config.ProcessedDataPrefix | beyblade_lambda/config.py:15-16 | The processed-data prefix lies under `static/data/` and has no trailing `/` of its own. |
| Config.MetadataKey | beyblade_lambda/config.py:18-19 | The metadata key is `metadata.json` inside the processed-data directory. |
| Config.EpiDataKey | beyblade_lambda/config.py:21-22 | The epi series key lies in the processed-data directory and ends with its digest and `.json`. |
| Config.BreakthroughDataKey | beyblade_lambda/config.py:24-25 | The breakthrough series key lies in the processed-data directory and ends with its digest and `.json`. |
| Config.PublicUrl | beyblade_lambda/wa.py:330 | A public URL is the site address, one `/`, then the key. |
| Config.DataKeysInjective | beyblade_lambda/config.py:21-25 | Content-addressed keys of one series are equal exactly when the digests are. |
| Config.KeysOfOneStateDiffer | beyblade_lambda/config.py:18-25 | Within one state, the metadata document and the two series never share a key, whatever the digests. |
| Publish.DefaultMetadata | beyblade_lambda/wa.py:291-300 | The assumed document has both series at time 0 with no URL. |
| Publish.RepublishModes | beyblade_lambda/ca.py:171-177 | The force flag is ignored in a dry run and always republishes in a live run; without it only strictly newer data republishes. |
| California.ScanAfterHeader | beyblade_lambda/ca.py:41-48 | Once a column map exists, the loop folds the handler over exactly the nonempty rows, in order. |
| California.ScanFindsHeader | beyblade_lambda/ca.py:41-47 | The header is the first nonempty row that names an expected column. Everything before it is consumed unparsed, and everything after it is parsed with its map. |
| California.ScanWithoutHeader | beyblade_lambda/ca.py:41-47 | Without any header row no data row is parsed. |
| California.ScanPreserves | beyblade_lambda/ca.py:41-58 | A property every row handler keeps holds for the whole scan. |
| California.ReportedCount | beyblade_lambda/ca.py:84 | An empty count field reads as 0, and printed integer text reads as that integer. |
| California.TruncateShowIntAll | beyblade_lambda/ca.py:84 | A printed integer count is read back exactly. |
| California.WholeNumber | beyblade_lambda/ca.py:54 | A breakthrough count is `int` of its field, and succeeds exactly when that does. |
| California.OtherAreaIgnored | beyblade_lambda/ca.py:74-75 | A row of another area changes nothing. |
| California.EpiRowEffect | beyblade_lambda/ca.py:76-95 | An undated row of the area adds its count to the undated bucket and creates no record. A dated row appends one record with average 0 and leaves the bucket alone. |
| California.AttachUndated | beyblade_lambda/ca.py:97-101 | A zero undated total is dropped. Otherwise it becomes the first record, one day before the first dated record, which must exist. |
| California.TrailingAverages | beyblade_lambda/ca.py:103-104 | The averaging pass keeps the number of records, and each record's date and deaths. |
| California.TrailingAveragesMeans | beyblade_lambda/ca.py:103-104 | From index 7 on, each average is the mean of the seven deaths before it, the current one excluded. Earlier records keep their average. |
| California.ParseEpiAverages | beyblade_lambda/ca.py:63-106 | Every parsed epi series has average 0 below index 7 and the exclusive seven-day mean from index 7 on. Its time is its last record's date. |
| California.ParseEpiUndatedRecord | beyblade_lambda/ca.py:66-101 | With a header row and a nonzero undated total, the series starts with that total one day before the first dated record. |
| California.AppendKeepsAverages | beyblade_lambda/ca.py:52-58 | Appending keeps the earlier records. The new record's average is 0 up to seven records, then the mean of the last seven including itself. |
| California.BreakthroughRowKeepsAverages | beyblade_lambda/ca.py:48-58 | A breakthrough row keeps the inclusive-average property of the records so far. |
| California.ParseBreakthroughAverages | beyblade_lambda/ca.py:37-60 | Every parsed breakthrough series has the inclusive seven-day averages, and its time is its last record's date. |
| California.WithCumulative | beyblade_lambda/ca.py:109-116 | Each published record keeps its fields and gains the running total of deaths. |
| California.WithCumulativeTotals | beyblade_lambda/ca.py:125-132 | The totals follow the source's recurrence and never decrease while no day has negative deaths. |
| California.LoadMetadata | beyblade_lambda/ca.py:141-164 | A stored document keeps its series state and gets California's labels. Without one, both series start at time 0 with no URL and the labels set. |
| California.Advance | beyblade_lambda/ca.py:171-174 | A series is republished, with the new URL and time, exactly when the change rule fires; otherwise its state is kept. |
| California.RunPublishRule | beyblade_lambda/ca.py:167-180 | Each series is republished exactly when its last record is newer than the recorded time, or a refresh is forced outside a dry run. Its new time is then that record's date. |
| California.RunWrites | beyblade_lambda/ca.py:182-187 | A dry run writes and invalidates nothing. A live run writes the metadata and invalidates its path exactly when a series was republished. |
| Sheet.Labels | beyblade_lambda/wa.py:76-78 | Only text cells can match a header label. |
| Sheet.RecordOf | beyblade_lambda/wa.py:80-86 | A kept row yields a record exactly when its date cell is a timestamp. The date goes through the clock, and the deaths and average cells are copied. |
| Sheet.CountyRows | beyblade_lambda/wa.py:79 | The reference filter keeps only rows of the county of interest. |
| Sheet.ScanIsFilter | beyblade_lambda/wa.py:74-86 | With a column map, the records are exactly the county rows' records, in order. |
| Sheet.ScanFindsHeader | beyblade_lambda/wa.py:74-78 | The header is the first row carrying a known label, and the rows after it are read with its map. |
| Sheet.SheetRecordsPassThrough | beyblade_lambda/wa.py:72-86 | For the whole sheet, the records are the county rows after the header, each with its date converted and its cells copied. |
| Sheet.OtherCountyIgnored | beyblade_lambda/wa.py:79 | A row of another county contributes nothing. |
| Sheet.NoHeaderNoRecords | beyblade_lambda/wa.py:74-78 | Without any header row nothing is read. |
| Bulletin.PlainText | beyblade_lambda/wa.py:144-148 | The text the patterns see has no line breaks. |
| Bulletin.IntOf | beyblade_lambda/wa.py:162 | `int` of a capture, or a ValueError naming it. |
| Bulletin.DeathCount | beyblade_lambda/wa.py:164-169 | An explicit death count wins. Otherwise the floor of the percentage of the case count is used, or a missing-pattern failure. |
| Bulletin.ParseFields | beyblade_lambda/wa.py:141-178 | Every field of a parsed report traces back to its capture, and the fingerprint is the digest of the whole bulletin. |
| Bulletin.ParseMissingPattern | beyblade_lambda/wa.py:150-166 | A bulletin whose patterns do not all match is an error, naming the date range first and the report date second. |
| Bulletin.ParseAgrees | beyblade_lambda/wa.py:55-58 | Two date conversions that agree on every date text parse every bulletin to the same report or the same failure. |
| Bulletin.ParseDiverges | lambda/wa.py:67-68 | Two date conversions that disagree on a bulletin's publication date parse it to different reports, whenever both succeed. |
| Bulletin.SeparatorsIgnored | beyblade_lambda/wa.py:161 | Thousands separators anywhere in the case count are ignored. |
| Bulletin.ShareBounds | beyblade_lambda/wa.py:167 | A derived death count lies between zero and the case count. |
| Bulletin.FallbackExample | beyblade_lambda/wa.py:161-167 | A bulletin with 1,234 cases, a 1.5% death share and no explicit count yields 18 deaths. |
| Archive.Insert | beyblade_lambda/wa.py:128 | Inserting into a date-sorted list keeps it sorted and is a permutation of the list plus the element. |
| Archive.SortByDate | beyblade_lambda/wa.py:128 | The sorted archive is a permutation of the loaded one, ordered by report date. |
| Archive.SortSortedIdentity | beyblade_lambda/wa.py:128 | Sorting an already sorted archive changes nothing. |
| Archive.Merge | beyblade_lambda/wa.py:125-138 | The latest report is appended exactly when its fingerprint is not archived. The result is the sorted archive plus that report, and the time is its last report's date. |
| Archive.MergeKnownIsNoOp | beyblade_lambda/wa.py:132 | A report whose fingerprint is archived leaves an already sorted archive unchanged and is not appended. |
| Archive.MergeIdempotent | beyblade_lambda/wa.py:125-138 | When the latest report is no older than the archive, merging it a second time adds nothing and changes neither the reports nor the time. |
| Archive.MergeTimeIsNewest | beyblade_lambda/wa.py:138 | When the latest report is already archived, the refresh time is no earlier than any archived report's date. |
| Archive.RemoveDuplicates | beyblade_lambda/wa.py:334-342 | The two-pass deletion equals the reference filter: a report is dropped when it is neither first nor last and the next report has the same period end. |
| Archive.DedupKeepsEnds | beyblade_lambda/wa.py:336-337 | The first and last reports always survive. |
| Archive.DedupDistinctNeighbours | beyblade_lambda/wa.py:338-342 | After removal no surviving report past the first shares its period end with its successor. |
| Archive.DedupIdempotent | beyblade_lambda/wa.py:334-342 | Removing duplicates twice is removing them once. |
| Archive.Rate | beyblade_lambda/wa.py:344-362 | A rate fails with ZeroDivision exactly when its day count is zero. A rate after the first is never negative when the period end advances, and never positive when it moves backwards. |
| Archive.DeriveFrom | beyblade_lambda/wa.py:344-363 | The derivation succeeds exactly when every day count is nonzero. Then each report gets its rate, with its own death count as the cumulative figure. |
| Archive.DeriveFields | beyblade_lambda/wa.py:344-363 | The first report's rate is deaths per week of its own period. Each later rate is the non-negative death increase per day since the previous period end. |
| Archive.DeriveZeroDivision | beyblade_lambda/wa.py:336-362 | Derivation fails exactly on a zero day count. A repeated period end can survive only at the first pair, and there it makes the derivation fail. |
| Bucket.SidecarKey | beyblade_lambda/wa.py:111 | The sidecar key is the object key followed by `.md5`. |
| Bucket.JsonKeyDiffers | beyblade_lambda/wa.py:196 | A bulletin's cache key and sidecar key both differ from its own key. |
| Bucket.ReportKeyListed | beyblade_lambda/wa.py:250-254 | An archived bulletin's key lies under the listing prefix and ends in `pdf`, so the next listing picks it up. |
| Bucket.PutWithSidecar | beyblade_lambda/wa.py:100-120 | Writing an object adds it and its digest sidecar and leaves every other key unchanged. |
| Washington.EpiArtifactKeyValue | beyblade_lambda/wa.py:88-91 | The raw sheet is stored under `static/epi/wa/`, named after its digest. |
| Washington.RefreshEpiEffect | beyblade_lambda/wa.py:61-122 | The refresh fails with an IndexError exactly when no statewide row exists; otherwise it reports the last record's date. The artifact and its sidecar are written only when the digest's key is new and this is not a dry run. |
| Washington.DeathCounts | beyblade_lambda/wa.py:321-324 | Deaths can be added up exactly when every deaths cell holds a whole number. |
| Washington.EpiSeriesOf | beyblade_lambda/wa.py:316-324 | Each published record keeps its date, deaths and average. |
| Washington.EpiSeriesTotals | beyblade_lambda/wa.py:316-324 | Fresh records start their running total from 0. The totals follow the recurrence and equal the prefix sums of deaths. |
| Washington.ProcessEpi | beyblade_lambda/wa.py:316-330 | The series is served from its content-addressed key, and is written there unless this is a dry run. |
| Washington.CacheRule | beyblade_lambda/wa.py:195-213 | A cached record is returned as stored, with no parse and no write, unless a refresh is forced. Otherwise the bulletin is parsed and cached except in a dry run, and a missing bulletin fails. |
| Washington.ParsedThenCached | beyblade_lambda/wa.py:195-213 | Once a bulletin is parsed outside a dry run, asking again returns the same record from the cache and writes nothing. |
| Washington.PdfKeys | beyblade_lambda/wa.py:231-233 | The listed keys kept for loading are exactly those ending in `pdf`. |
| Washington.LoadArchiveShape | beyblade_lambda/wa.py:216-235 | Loading yields one record per bulletin key, and a dry run writes nothing. |
| Washington.LatestReport | beyblade_lambda/wa.py:238-245 | A non-200 answer is a dependency failure carrying the status. Otherwise the download is parsed. |
| Washington.UploadThenCached | beyblade_lambda/wa.py:248-279 | An archived bulletin's key is listable (it lies under the reports prefix and ends in `pdf`), and its record is then served from the cache. |
| Washington.RefreshBreakthroughEffect | beyblade_lambda/wa.py:125-138 | The refresh returns the merge of the loaded archive with the latest report. The bulletin is archived exactly when its fingerprint is new and this is not a dry run. |
| Washington.ProcessBreakthrough | beyblade_lambda/wa.py:333-369 | The derived series is served from its content-addressed key, and is written there unless this is a dry run. |
| Washington.LoadMetadata | beyblade_lambda/wa.py:282-300 | A stored document is used as it is. Without one, both series start at time 0 with no URL and no labels. |
| Washington.AdvanceEpi | beyblade_lambda/wa.py:375-378 | The epi series changes, to the new time and URL, exactly when its time is strictly later; otherwise it is kept. |
| Washington.AdvanceBreakthrough | beyblade_lambda/wa.py:381-384 | The breakthrough series changes, to the new time and URL, exactly when its time is strictly later; otherwise it is kept. |
| Washington.RunDecision | beyblade_lambda/wa.py:372-384 | With no override, a recorded time only moves forward. The epi series changes exactly when the sheet's last date is later than the recorded one. |
| Washington.DryRunWritesNothing | beyblade_lambda/wa.py:372-400 | A dry run leaves the bucket exactly as it was. |
| Washington.RunWritesMetadata | beyblade_lambda/wa.py:372-400 | Outside a dry run, a changed document is written to the metadata key on top of the series steps' bucket. An unchanged one leaves that bucket exactly as the steps left it. |
| Washington.ReportKeysMissMetadata | beyblade_lambda/wa.py:196 | A key under the reports prefix, its sidecar key and its `json` cache key are never the metadata key. |
| Washington.LoadArchiveKeepsMetadata | beyblade_lambda/wa.py:216-235 | Loading a listing of the reports prefix never writes or removes the metadata document. |
| Washington.ArtifactKeepsMetadata | beyblade_lambda/wa.py:88-122 | Storing the raw sheet and its sidecar leaves the metadata document alone. |
| Washington.RefreshEpiKeepsMetadata | beyblade_lambda/wa.py:61-122 | The sheet refresh leaves the metadata document alone. |
| Washington.EpiStepKeepsMetadata | beyblade_lambda/wa.py:374-378 | The epi step, the refresh and the series write, leaves the metadata document alone. |
| Washington.UploadKeepsMetadata | beyblade_lambda/wa.py:248-279 | Archiving a bulletin leaves the metadata document alone. |
| Washington.BreakthroughStepKeepsMetadata | beyblade_lambda/wa.py:380-384 | The breakthrough step, given a listing of the reports prefix, leaves the metadata document alone. |
| Washington.AdvanceKeepsMetadata | beyblade_lambda/wa.py:374-384 | Both series steps together leave the metadata document alone, given a listing of the reports prefix. |
| Washington.RunMetadataDocument | beyblade_lambda/wa.py:372-400 | In a live run, an unchanged metadata leaves its document as it was, and a changed one is held in the document. |
| Washington.AsWrittenEpiArtifactKeyValue | beyblade_lambda/config.py:9-10 | As written, the raw sheet goes to the literal `static/epi/{self.state}/` directory, named after its digest. |
| LegacyWashington.PrefixesAgree | lambda/wa.py:27-45 | The old job's prefixes are the per-state prefixes for Washington, with the corrected epi prefix. |
| LegacyWashington.EpiArtifactKeysAgree | lambda/wa.py:98-101 | With the corrected epi prefix, the old job stores the raw sheet under the same key as the newer one. |
| LegacyWashington.EpiArtifactKeysDivergeAsWritten | lambda/wa.py:98-101 | As the newer job is written, it stores the raw sheet under another key than the old job, whatever the digest. |
| LegacyWashington.PutWithSidecar | lambda/wa.py:111-130 | A timed write stores the same objects as an untimed one, stamped with the current time. |
| LegacyWashington.EpiFreshness | lambda/wa.py:103-138 | An unchanged sheet keeps the stored artifact's time and writes nothing. A changed one is stored and dated now. An empty sheet is no error. |
| LegacyWashington.EpiRefreshStable | lambda/wa.py:103-138 | Re-reading an unchanged sheet at any later moment reports the first time again and leaves the bucket alone. |
| LegacyWashington.CacheAsWithoutSwitches | lambda/wa.py:211-227 | When the old job's date conversion agrees with the newer job's, the old cache behaves as the newer one with neither switch set: the same record or the same failure, and the same objects written. |
| LegacyWashington.LoadArchiveAsWithoutSwitches | lambda/wa.py:230-249 | When the date conversions agree, the old archive loading yields the same records and writes as the newer one with neither switch set. |
| LegacyWashington.Upload | lambda/wa.py:262-292 | The old archiving writes the objects the newer one writes when both name the bulletin by the same date text. |
| LegacyWashington.UploadAsNewer | lambda/wa.py:264-268 | When the host-zone name of the publication time equals the Pacific-zone name, the old archiving writes the newer job's objects. |
| LegacyWashington.UploadKeysDiverge | lambda/wa.py:264-268 | When the two names differ, the old job archives the bulletin under another key than the newer one. |
| LegacyWashington.RefreshBreakthroughAsWithoutSwitches | lambda/wa.py:141-153 | When the date conversions and names agree, the old breakthrough refresh is the newer one outside a dry run and without override. |
| LegacyWashington.RunKeepsKeys | lambda/wa.py:295-297 | The old run only adds or replaces objects; no key disappears. |

## Left out

- Network and bucket access (HTTP gets, object gets, puts and listings) are modelled as data. The listing is one sequence of keys, so its pagination by marker is not modelled. A bucket error other than a missing key is not modelled.
- Spreadsheet loading (openpyxl), PDF text extraction and the bulletin regular expressions are parameters. The model takes rows of typed cells, page texts, and the captures each pattern would yield.
- Dates are parameters:
  - `strptime`, the time-zone localisation, `mktime`, `fromtimestamp` and `strftime` are functions the caller supplies;
  - the model does not compute calendars or daylight-saving rules;
  - the Washington day counts use whole-day floor division of the second difference, as `timedelta.days` does.
- JSON serialisation and MD5 digests are parameters. Stored objects are typed values, not bytes, and a stored object of the wrong kind is a decode failure.
- A failed step returns only the failure. Objects a Python run had already written before raising are not modelled.
- Python's `int()` and `float()` are modelled on optionally signed decimal digits with at most one point. Surrounding whitespace, underscores, exponents, `inf` and `nan` are left out.
- Floating-point rounding is left out. Averages and rates are exact reals, and the death share uses the exact product before the floor.
- The CloudFront invalidation and the metadata upload helpers of the shared library are not part of this model. The California run records the invalidated path and the written document.
- The debug printing of records (`pprint`) is left out, because it has no effect on the bucket or the result.
- Archive.SortByDate: the source's sort is stable, and so is the insertion sort, but stability is not stated as a property.
- Archive.Rate: a later report whose period end precedes the previous one gets a negative day count and so a rate that is zero or negative, as in the source. The model does not promise non-negative rates in that case.
- Washington.DeathCounts: a fractional or empty deaths cell fails with a TypeError. Python would add a float, or fail on `None`.
- Washington.RunDecision: the refreshed breakthrough time is the merged archive's last date. That date can be earlier than a recorded time when the latest bulletin is older than the archive, and the model states only that a recorded time never moves back.
- Washington.EpiArtifactKeyValue: the newer job reads the raw sheet's key through the configuration's epi prefix. The model uses the corrected prefix (see Findings), so it states the key the code evidently intends. The key as written is Washington.AsWrittenEpiArtifactKey, and LegacyWashington.EpiArtifactKeysDivergeAsWritten shows that it differs from the old job's key.
- LegacyWashington.CacheAsWithoutSwitches, LegacyWashington.LoadArchiveAsWithoutSwitches and LegacyWashington.RefreshBreakthroughAsWithoutSwitches: the two jobs convert date text differently. The old one calls `mktime` on the naive date (lambda/wa.py:67-68); the newer one first localises it to the Pacific zone (beyblade_lambda/wa.py:55-58). The equivalences hold only when the two conversions agree on every date text, as when the host runs in the Pacific zone. Bulletin.ParseDiverges shows the reports differ otherwise.
- LegacyWashington.Upload and LegacyWashington.RefreshBreakthroughAsWithoutSwitches: the old job names an archived bulletin with `fromtimestamp` in the host's zone (lambda/wa.py:264); the newer one names it in the Pacific zone (beyblade_lambda/wa.py:250). The refresh equivalence assumes the two namings agree; LegacyWashington.UploadKeysDiverge shows the keys differ otherwise.
- Washington.AdvanceKeepsMetadata and Washington.RunMetadataDocument assume every listed key lies under the reports prefix, as the listing the run requests does. A listing is data here, so the prefix filter of the bucket is not modelled.
- The Washington breakthrough derivation keeps the source's crash when the first two reports share a period end (Archive.DeriveZeroDivision). It is not counted as a finding, because the source's choice to keep the first report may be deliberate.

## Findings

| source | as written | input that shows it | evidently intended | confidence | as-written member | corrected member |
|---|---|---|---|---|---|---|
| beyblade_lambda/config.py:9-10 | The epi prefix template lacks the `f` prefix, so it returns the literal `static/epi/{self.state}/` for every state | `StorageConfig("wa")` and `StorageConfig("ca")` both give `static/epi/{self.state}/` | `static/epi/<state>/`, like the reports prefix on the next lines and the older Washington job's `static/epi/wa/` | high, not executed | Config.EpiDataPrefixMissesState | Config.IntendedEpiDataPrefixInjective |
