/** The `search_statistics` table: one snapshot per run of the statistics job. */
module SearchStatistics {
  import opened Clock

  /** One entry of `top_queries`; `percentage` in hundredths of a percent (33.33 is 3333). */
  datatype TopQuery = TopQuery(term: string, count: nat, percentage: nat)

  /** One entry of `popular_hours`. */
  datatype HourVolume = HourVolume(hour: Hour, count: nat)

  /** A `search_statistics` row; `avgResponseTime` in hundredths of a millisecond. */
  datatype Snapshot = Snapshot(
    topQueries: seq<TopQuery>,
    avgResponseTime: nat,
    popularHours: seq<HourVolume>,
    totalSearches: nat,
    computedAt: DateTime)

  /** The table, rows in insertion order. */
  class SnapshotTable {
    var rows: seq<Snapshot>

    constructor ()
      ensures rows == []
    {
      rows := [];
    }

    /** `SearchStatistic::create`: appends one row. */
    method Create(s: Snapshot)
      modifies this
      ensures rows == old(rows) + [s]
    {
      rows := rows + [s];
    }
  }
}
