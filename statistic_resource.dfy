/** `SearchStatisticResource`: the JSON view of one snapshot. */
module StatisticResource {
  import opened Wrappers
  import opened Clock
  import opened SearchStatistics

  /**
   * The view, one field per key of the array (`top_queries`,
   * `average_response_time_ms`, `popular_hours`, `total_searches`,
   * `last_computed_at`); `lastComputedAt` is `computed_at` as 'Y-m-d H:i:s'.
   */
  datatype StatisticView = StatisticView(
    topQueries: seq<TopQuery>,
    averageResponseTimeMs: nat,
    popularHours: seq<HourVolume>,
    totalSearches: nat,
    lastComputedAt: string)

  function ToArray(s: Snapshot): StatisticView
  {
    StatisticView(s.topQueries, s.avgResponseTime, s.popularHours, s.totalSearches, Format(s.computedAt))
  }

  /**
   * The view copies the three aggregates unchanged, renames the average, and
   * renders `computed_at` as a 19-character zero-padded timestamp that reads
   * back as the same instant (for four-digit years).
   */
  lemma ToArrayFaithful(s: Snapshot)
    requires 0 <= s.computedAt.year <= 9999
    ensures var v := ToArray(s);
      && v.topQueries == s.topQueries
      && v.averageResponseTimeMs == s.avgResponseTime
      && v.popularHours == s.popularHours
      && v.totalSearches == s.totalSearches
      && |v.lastComputedAt| == 19
      && Parse(v.lastComputedAt) == Some(s.computedAt)
  {
    FormatRoundTrip(s.computedAt);
  }

  /** Two snapshots computed at different instants never show the same `last_computed_at`. */
  lemma DistinctInstantsDistinctText(s: Snapshot, t: Snapshot)
    requires 0 <= s.computedAt.year <= 9999 && 0 <= t.computedAt.year <= 9999
    requires s.computedAt != t.computedAt
    ensures ToArray(s).lastComputedAt != ToArray(t).lastComputedAt
  {
    FormatRoundTrip(s.computedAt);
    FormatRoundTrip(t.computedAt);
  }
}
