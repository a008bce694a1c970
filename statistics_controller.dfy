/** `StatisticsController::index`: GET api/v1/statistics. */
module StatisticsController {
  import opened Wrappers
  import opened Clock
  import opened SearchStatistics
  import opened StatisticRepository
  import opened StatisticService
  import opened StatisticResource

  /** The response: the "no statistics" message with null data, or the resource of the latest snapshot. */
  datatype IndexResponse = NoStatistics(message: string) | Resource(view: StatisticView)

  function Index(rows: seq<Snapshot>): (r: IndexResponse)
    ensures rows == [] <==> r == NoStatistics(NoStatisticsMessage)
    ensures rows != [] ==> r == Resource(ToArray(Latest(rows).value))
  {
    match GetLatestStatistics(rows)
    case None => NoStatistics(NoStatisticsMessage)
    case Some(s) => Resource(ToArray(s))
  }

  ghost predicate IsNewest(s: Snapshot, rows: seq<Snapshot>)
  {
    forall i :: 0 <= i < |rows| ==> !Earlier(s.computedAt, rows[i].computedAt)
  }

  /** The endpoint shows the newest snapshot: no stored snapshot is newer than the one rendered. */
  lemma IndexShowsNewest(rows: seq<Snapshot>)
    requires rows != []
    ensures Index(rows).Resource?
    ensures exists s :: s in rows && Index(rows).view == ToArray(s) && IsNewest(s, rows)
  {
    LatestIsNewest(rows);
  }

  /** The endpoint and the service agree on the message and on the figures shown. */
  lemma IndexAgreesWithService(rows: seq<Snapshot>, iso: DateTime -> string)
    ensures Index(rows).NoStatistics? <==> GetFormattedStatistics(rows, iso).data.None?
    ensures Index(rows).NoStatistics? ==> Some(Index(rows).message) == GetFormattedStatistics(rows, iso).message
    ensures Index(rows).Resource? ==>
      var v, d := Index(rows).view, GetFormattedStatistics(rows, iso).data.value;
      v.topQueries == d.topQueries && v.averageResponseTimeMs == d.averageResponseTimeMs &&
      v.popularHours == d.popularHours && v.totalSearches == d.totalSearches
  {
  }
}
