/** Per-state publication state (the metadata document) and the change-detection
    rule that decides whether a series is republished. */
module Publish {
  import opened Wrappers

  /** What was last published for one series: the newest time it covered and the
      public URL of the uploaded artifact (`None` before the first upload). */
  datatype SeriesState = SeriesState(updateTime: int, url: Option<string>)

  /** Display labels, which only the California document carries. */
  datatype Labels = Labels(stateLabel: string, humanLabel: string)

  /** The metadata document of one state. */
  datatype Metadata = Metadata(epi: SeriesState, breakthrough: SeriesState, labels: Option<Labels>)

  /** The document assumed when none is stored yet: both series at time 0 with no
      URL. */
  function DefaultMetadata(labels: Option<Labels>): (m: Metadata)
    ensures m.epi.updateTime == 0 && m.epi.url == None
    ensures m.breakthrough.updateTime == 0 && m.breakthrough.url == None
    ensures m.labels == labels
  {
    Metadata(SeriesState(0, None), SeriesState(0, None), labels)
  }

  /** The change-detection rule: republish when the fresh data is strictly newer
      than what was recorded, or when a refresh is forced outside a dry run. */
  predicate Republish(newTime: int, recorded: int, forceRefresh: bool, debug: bool) {
    newTime > recorded || (forceRefresh && !debug)
  }

  /** How the rule behaves in each mode: a dry run ignores the force flag, a forced
      live run always republishes, and otherwise only strictly newer data counts. */
  lemma RepublishModes(newTime: int, recorded: int, forceRefresh: bool, debug: bool)
    ensures debug ==> (Republish(newTime, recorded, forceRefresh, debug) <==> newTime > recorded)
    ensures forceRefresh && !debug ==> Republish(newTime, recorded, forceRefresh, debug)
    ensures !forceRefresh ==> (Republish(newTime, recorded, forceRefresh, debug) <==> newTime > recorded)
    ensures Republish(newTime, recorded, forceRefresh, debug) == Republish(newTime, recorded, forceRefresh && !debug, false)
  {
  }
}
