/** Storage-key naming for one state's objects in the bucket (the `StorageConfig`
    class), and the public URL an uploaded key is served at. */
module Config {
  import opened Text

  /** The configuration is just the state's short name, e.g. "ca" or "wa". */
  datatype StorageConfig = StorageConfig(state: string)

  /** Where the site is served from; keys are appended to it after one '/'. */
  const BaseUrl: string := "https://beybla.de"

  /** The `state` property. */
  function State(cfg: StorageConfig): string {
    cfg.state
  }

  /** The property hands back exactly what the configuration was built with. */
  lemma StateIsConstructorArgument(s: string)
    ensures State(StorageConfig(s)) == s
  {
  }

  /** `get_epi_data_prefix` as written: the template lacks its `f` prefix, so the
      placeholder is never filled in and every state gets the same literal text. */
  function EpiDataPrefix(cfg: StorageConfig): (r: string)
    ensures '{' in r && EndsWith(r, "/")
  {
    "static/epi/{self.state}/"
  }

  /** The as-written prefix does not depend on the state. */
  lemma EpiDataPrefixIgnoresState(a: StorageConfig, b: StorageConfig)
    ensures EpiDataPrefix(a) == EpiDataPrefix(b)
  {
  }

  /** For Washington the as-written prefix is not the per-state directory the
      other prefixes use (and that the older Washington module hard-codes). */
  lemma EpiDataPrefixMissesState()
    ensures EpiDataPrefix(StorageConfig("wa")) != IntendedEpiDataPrefix(StorageConfig("wa"))
    ensures IntendedEpiDataPrefix(StorageConfig("wa")) == "static/epi/wa/"
  {
    assert EpiDataPrefix(StorageConfig("wa"))[11] == '{';
    assert IntendedEpiDataPrefix(StorageConfig("wa"))[11] == 'w';
  }

  /** The epi prefix with the state filled in, as the `f`-string would give. */
  function IntendedEpiDataPrefix(cfg: StorageConfig): (r: string)
    ensures StartsWith(r, "static/epi/") && EndsWith(r, "/")
  {
    "static/epi/" + cfg.state + "/"
  }

  /** Distinct states get distinct epi directories. */
  lemma IntendedEpiDataPrefixInjective(a: StorageConfig, b: StorageConfig)
    ensures IntendedEpiDataPrefix(a) == IntendedEpiDataPrefix(b) <==> a == b
  {
    if IntendedEpiDataPrefix(a) == IntendedEpiDataPrefix(b) {
      Unwrap("static/epi/", a.state, b.state, "/");
    }
  }

  /** `get_breakthrough_data_prefix`: a directory, ending in '/'. */
  function BreakthroughDataPrefix(cfg: StorageConfig): (r: string)
    ensures StartsWith(r, "static/reports/") && EndsWith(r, "/")
    ensures |r| == |"static/reports/"| + |cfg.state| + 1
    ensures r[|"static/reports/"|..|r| - 1] == cfg.state
  {
    "static/reports/" + cfg.state + "/"
  }

  /** `get_processed_data_prefix`: no trailing '/' of its own (the keys below add one). */
  function ProcessedDataPrefix(cfg: StorageConfig): (r: string)
    ensures StartsWith(r, "static/data/")
    ensures |cfg.state| > 0 && cfg.state[|cfg.state| - 1] != '/' ==> r[|r| - 1] != '/'
  {
    "static/data/" + cfg.state
  }

  function MetadataKey(cfg: StorageConfig): (r: string)
    ensures StartsWith(r, ProcessedDataPrefix(cfg) + "/") && EndsWith(r, "/metadata.json")
  {
    ProcessedDataPrefix(cfg) + "/metadata.json"
  }

  function EpiDataKey(cfg: StorageConfig, md5: string): (r: string)
    ensures StartsWith(r, ProcessedDataPrefix(cfg) + "/epi_") && EndsWith(r, md5 + ".json")
  {
    ProcessedDataPrefix(cfg) + "/epi_" + md5 + ".json"
  }

  function BreakthroughDataKey(cfg: StorageConfig, md5: string): (r: string)
    ensures StartsWith(r, ProcessedDataPrefix(cfg) + "/breakthrough_") && EndsWith(r, md5 + ".json")
  {
    ProcessedDataPrefix(cfg) + "/breakthrough_" + md5 + ".json"
  }

  /** `f"{BEYBLADE_URL.rstrip('/')}/{key}"`. */
  function PublicUrl(key: string): (r: string)
    ensures StartsWith(r, BaseUrl + "/") && EndsWith(r, key)
  {
    RStrip(BaseUrl, '/') + "/" + key
  }

  /** Equal strings with equal surroundings have equal middles. */
  lemma Unwrap(p: string, a: string, b: string, q: string)
    requires p + a + q == p + b + q
    ensures a == b
  {
    assert |a| == |b|;
    assert a == (p + a + q)[|p|..|p| + |a|];
    assert b == (p + b + q)[|p|..|p| + |b|];
  }

  /** Content-addressed keys are injective in the digest, for both series. */
  lemma DataKeysInjective(cfg: StorageConfig, m1: string, m2: string)
    ensures EpiDataKey(cfg, m1) == EpiDataKey(cfg, m2) <==> m1 == m2
    ensures BreakthroughDataKey(cfg, m1) == BreakthroughDataKey(cfg, m2) <==> m1 == m2
  {
    var p := ProcessedDataPrefix(cfg);
    if EpiDataKey(cfg, m1) == EpiDataKey(cfg, m2) {
      assert EpiDataKey(cfg, m1) == (p + "/epi_") + m1 + ".json";
      assert EpiDataKey(cfg, m2) == (p + "/epi_") + m2 + ".json";
      Unwrap(p + "/epi_", m1, m2, ".json");
    }
    if BreakthroughDataKey(cfg, m1) == BreakthroughDataKey(cfg, m2) {
      assert BreakthroughDataKey(cfg, m1) == (p + "/breakthrough_") + m1 + ".json";
      assert BreakthroughDataKey(cfg, m2) == (p + "/breakthrough_") + m2 + ".json";
      Unwrap(p + "/breakthrough_", m1, m2, ".json");
    }
  }

  /** Within one state the metadata document, the epi series and the breakthrough
      series never share a key, whatever the digests. */
  lemma KeysOfOneStateDiffer(cfg: StorageConfig, m1: string, m2: string)
    ensures EpiDataKey(cfg, m1) != BreakthroughDataKey(cfg, m2)
    ensures MetadataKey(cfg) != EpiDataKey(cfg, m1)
    ensures MetadataKey(cfg) != BreakthroughDataKey(cfg, m2)
  {
    var n := |ProcessedDataPrefix(cfg)| + 1;
    assert EpiDataKey(cfg, m1)[n] == 'e';
    assert BreakthroughDataKey(cfg, m2)[n] == 'b';
    assert MetadataKey(cfg)[n] == 'm';
  }
}
