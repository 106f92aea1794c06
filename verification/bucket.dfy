/** The Washington objects in the bucket, and the key conventions both Washington
    modules share: the `.md5` sidecar next to a content-addressed object, the
    report file name, and the `pdf` to `json` key of a report's parsed record. */
module Bucket {
  import opened Text
  import opened Publish
  import opened Sheet
  import opened Bulletin
  import opened Archive

  /** A published epi record: the sheet record with its deaths count and running
      total. */
  datatype EpiRecord = EpiRecord(date: int, deaths: int, rollingAverage: Cell, cumulativeDeaths: int)

  /** What a key can hold: the raw sheet records, a digest sidecar, a bulletin, a
      bulletin's parsed record, a published series, or the metadata document. */
  datatype Blob =
    | SheetData(records: seq<SheetRecord>)
    | Sidecar(digest: string)
    | Pdf(content: Bytes)
    | ReportData(report: Report)
    | EpiSeries(epi: seq<EpiRecord>)
    | BreakthroughSeries(derived: seq<Derived>)
    | Meta(metadata: Metadata)

  type Store = map<string, Blob>

  /** The name every bulletin is archived under, after its publication date. */
  const ReportFileSuffix: string := "-420-339-VaccineBreakthroughReport.pdf"

  /** The raw epi artifact's file name. */
  function EpiArtifactName(md5: string): string {
    "epi_deaths_data." + md5 + ".json"
  }

  function SidecarKey(key: string): (r: string)
    ensures |r| == |key| + 4 && StartsWith(r, key) && EndsWith(r, ".md5")
  {
    key + ".md5"
  }

  /** Where a report's parsed record is cached: every `pdf` in the key becomes
      `json`. */
  function JsonKey(key: string): string {
    ReplaceAll(key, "pdf", "json")
  }

  /** A key naming a pdf is never its own cache key, nor its sidecar's. */
  lemma JsonKeyDiffers(key: string)
    requires EndsWith(key, "pdf")
    ensures JsonKey(key) != key
    ensures SidecarKey(key) != key
  {
    assert OccursAt(key, "pdf", |key| - 3);
    ReplaceLengthens(key, "pdf", "json");
  }

  /** `f"{prefix.rstrip('/')}/{date}-420-339-VaccineBreakthroughReport.pdf"`. */
  function ReportKey(prefix: string, dateText: string): string {
    RStrip(prefix, '/') + "/" + dateText + ReportFileSuffix
  }

  /** An archived bulletin lands under the listing prefix with a `pdf` ending, so
      the next listing picks it up. */
  lemma ReportKeyListed(prefix: string, dateText: string)
    requires |prefix| >= 2 && prefix[|prefix| - 1] == '/' && prefix[|prefix| - 2] != '/'
    ensures StartsWith(ReportKey(prefix, dateText), prefix)
    ensures EndsWith(ReportKey(prefix, dateText), "pdf")
  {
    var stem := prefix[..|prefix| - 1];
    assert RStrip(prefix, '/') == RStrip(stem, '/');
    assert RStrip(stem, '/') == stem;
    assert prefix == stem + "/";
    var key := ReportKey(prefix, dateText);
    assert key == stem + "/" + dateText + ReportFileSuffix;
    assert key[|key| - 3..] == ReportFileSuffix[|ReportFileSuffix| - 3..];
  }

  /** Write a content-addressed object and its sidecar holding the digest text. */
  function PutWithSidecar(store: Store, key: string, blob: Blob, md5: string): (r: Store)
    ensures r.Keys == store.Keys + {key, SidecarKey(key)}
    ensures r[key] == blob && r[SidecarKey(key)] == Sidecar(md5)
    ensures forall k :: k in store && k != key && k != SidecarKey(key) ==> r[k] == store[k]
  {
    store[key := blob][SidecarKey(key) := Sidecar(md5)]
  }
}
