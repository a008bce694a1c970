/** `SearchStatisticRepository`: read-only queries over the snapshot table. */
module StatisticRepository {
  import opened Wrappers
  import opened Clock
  import opened Sorting
  import opened SearchStatistics

  /** The `computed_at` column as a sort key. */
  function ByComputedAt(s: Snapshot): int
  {
    Rank(s.computedAt)
  }

  /** `latest('computed_at')->first()`: a snapshot computed last, or null when there is none. */
  function Latest(rows: seq<Snapshot>): (r: Option<Snapshot>)
    ensures r.None? <==> rows == []
    ensures r.Some? ==> r.value in rows
    ensures r.Some? ==> forall i :: 0 <= i < |rows| ==> ByComputedAt(rows[i]) <= ByComputedAt(r.value)
  {
    if rows == [] then None
    else match Latest(rows[1..])
      case None => Some(rows[0])
      case Some(s) =>
        assert forall i :: 1 <= i < |rows| ==> rows[i] == rows[1..][i - 1];
        if ByComputedAt(s) > ByComputedAt(rows[0]) then Some(s) else Some(rows[0])
  }

  /** In calendar terms: no stored snapshot was computed after the one `Latest` returns. */
  lemma LatestIsNewest(rows: seq<Snapshot>)
    requires rows != []
    ensures forall i :: 0 <= i < |rows| ==> !Earlier(Latest(rows).value.computedAt, rows[i].computedAt)
  {
    var l := Latest(rows).value;
    forall i | 0 <= i < |rows| ensures !Earlier(l.computedAt, rows[i].computedAt) {
      RankIsChronological(l.computedAt, rows[i].computedAt);
    }
  }

  /**
   * `latest('computed_at')->limit(limit)->get()`, newest first. A negative
   * limit is ignored by the query builder, so every row is returned.
   */
  function GetAll(rows: seq<Snapshot>, limit: int := 10): (r: seq<Snapshot>)
    ensures |r| == if 0 <= limit < |rows| then limit else |rows|
    ensures SortedDesc(r, ByComputedAt)
    ensures multiset(r) <= multiset(rows)
  {
    var sorted := SortDesc(rows, ByComputedAt);
    if 0 <= limit < |rows| then
      assert sorted == sorted[..limit] + sorted[limit..];
      assert multiset(sorted) == multiset(sorted[..limit]) + multiset(sorted[limit..]);
      sorted[..limit]
    else
      sorted
  }

  /** No snapshot left out of the history is newer than one in it. */
  lemma HistoryOmitsOnlyOlder(rows: seq<Snapshot>, limit: int)
    ensures var r := GetAll(rows, limit);
            forall x, i :: x in multiset(rows) - multiset(r) && 0 <= i < |r| ==> ByComputedAt(x) <= ByComputedAt(r[i])
  {
    var sorted := SortDesc(rows, ByComputedAt);
    var k := if 0 <= limit < |rows| then limit else |rows|;
    assert GetAll(rows, limit) == sorted[..k];
    PrefixDominates(sorted, k, ByComputedAt);
  }

  /** The first entry of a one-entry history was computed exactly when the latest snapshot was. */
  lemma LatestLeadsHistory(rows: seq<Snapshot>)
    requires rows != []
    ensures |GetAll(rows, 1)| == 1
    ensures GetAll(rows, 1)[0].computedAt == Latest(rows).value.computedAt
  {
    var h := GetAll(rows, 1);
    var l := Latest(rows).value;
    assert h[0] in multiset(rows);
    assert h[0] in rows;
    HistoryOmitsOnlyOlder(rows, 1);
    if l != h[0] {
      assert multiset(h) == multiset{h[0]};
      assert l in multiset(rows) - multiset(h);
    }
    assert ByComputedAt(l) == ByComputedAt(h[0]);
    RankIsChronological(l.computedAt, h[0].computedAt);
  }
}
