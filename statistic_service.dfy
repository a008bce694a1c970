/** `SearchStatisticService`: the statistics as the rest of the application reads them. */
module StatisticService {
  import opened Wrappers
  import opened Clock
  import opened Sorting
  import opened SearchStatistics
  import opened StatisticRepository

  const NoStatisticsMessage: string := "No statistics available yet. Statistics are computed every 5 minutes."

  /** The `data` block of the formatted statistics; `lastComputedAt` is an ISO 8601 string. */
  datatype FormattedData = FormattedData(
    topQueries: seq<TopQuery>,
    averageResponseTimeMs: nat,
    popularHours: seq<HourVolume>,
    totalSearches: nat,
    lastComputedAt: string)

  /** The array `getFormattedStatistics` returns: an optional `message` and a nullable `data`. */
  datatype Formatted = Formatted(message: Option<string>, data: Option<FormattedData>)

  /** `getLatestStatistics`: the repository's latest snapshot. */
  function GetLatestStatistics(rows: seq<Snapshot>): (r: Option<Snapshot>)
    ensures r == Latest(rows)
    ensures r.None? <==> rows == []
  {
    Latest(rows)
  }

  /**
   * `getFormattedStatistics`. `iso` stands for Carbon's `toIso8601String`,
   * whose exact rendering is not modelled.
   */
  function GetFormattedStatistics(rows: seq<Snapshot>, iso: DateTime -> string): (r: Formatted)
    ensures rows == [] <==> r == Formatted(Some(NoStatisticsMessage), None)
    ensures rows != [] ==> r.message.None? && r.data.Some?
    ensures rows != [] ==> var s := Latest(rows).value; var d := r.data.value;
      && d.topQueries == s.topQueries
      && d.averageResponseTimeMs == s.avgResponseTime
      && d.popularHours == s.popularHours
      && d.totalSearches == s.totalSearches
      && d.lastComputedAt == iso(s.computedAt)
  {
    match GetLatestStatistics(rows)
    case None => Formatted(Some(NoStatisticsMessage), None)
    case Some(s) =>
      Formatted(None, Some(FormattedData(s.topQueries, s.avgResponseTime, s.popularHours, s.totalSearches, iso(s.computedAt))))
  }

  /** `getStatisticsHistory(limit)`: the repository's history, 10 entries by default. */
  function GetStatisticsHistory(rows: seq<Snapshot>, limit: int := 10): (r: seq<Snapshot>)
    ensures r == GetAll(rows, limit)
  {
    GetAll(rows, limit)
  }

  /** With the default limit the history holds the ten newest snapshots, or all of them when there are fewer. */
  lemma DefaultHistory(rows: seq<Snapshot>)
    ensures |GetStatisticsHistory(rows)| == if |rows| < 10 then |rows| else 10
    ensures SortedDesc(GetStatisticsHistory(rows), ByComputedAt)
    ensures forall x, i :: x in multiset(rows) - multiset(GetStatisticsHistory(rows)) && 0 <= i < |GetStatisticsHistory(rows)| ==>
      ByComputedAt(x) <= ByComputedAt(GetStatisticsHistory(rows)[i])
  {
    HistoryOmitsOnlyOlder(rows, 10);
  }
}
