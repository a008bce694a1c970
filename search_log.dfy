/** The `search_logs` table: one row per logged search request. */
module SearchLogs {
  import opened Wrappers
  import opened Clock

  /**
   * A `search_logs` row. `searchTerm` is nullable; `responseTime` is the
   * latency in hundredths of a millisecond (the column keeps two decimals).
   */
  datatype LogEntry = LogEntry(
    entityType: string,
    searchTerm: Option<string>,
    resultsCount: nat,
    responseTime: nat,
    searchedAt: DateTime)

  /** The table, rows in insertion order. */
  class SearchLogTable {
    var rows: seq<LogEntry>

    constructor ()
      ensures rows == []
    {
      rows := [];
    }

    /** `SearchLog::create`: appends one row. */
    method Create(e: LogEntry)
      modifies this
      ensures rows == old(rows) + [e]
    {
      rows := rows + [e];
    }
  }
}
