/**
 * The `ComputeSearchStatistics` job: aggregates the search log into one
 * statistics snapshot. The three queries it runs are modelled as functions of
 * the log rows; grouping is by exact equality and the order of groups with
 * equal counts is left open by the reference predicates.
 */
module ComputeSearchStatistics {
  import opened Wrappers
  import opened Clock
  import opened Sorting
  import opened Tally
  import opened SearchLogs
  import opened SearchStatistics

  /** `->limit(5)` on the top queries. */
  const TopLimit: nat := 5

  /** The number of rows searching for exactly `t`. */
  function CountTerm(logs: seq<LogEntry>, t: string): nat
  {
    if logs == [] then 0
    else (if logs[0].searchTerm == Some(t) then 1 else 0) + CountTerm(logs[1..], t)
  }

  /** The number of rows whose `searched_at` falls in hour `h`. */
  function CountHour(logs: seq<LogEntry>, h: Hour): nat
  {
    if logs == [] then 0
    else (if logs[0].searchedAt.hour == h then 1 else 0) + CountHour(logs[1..], h)
  }

  /** `whereNotNull('search_term')`, projected on the term. */
  function Terms(logs: seq<LogEntry>): seq<string>
  {
    if logs == [] then []
    else (match logs[0].searchTerm case Some(t) => [t] case None => []) + Terms(logs[1..])
  }

  /** `HOUR(searched_at)` of every row. */
  function Hours(logs: seq<LogEntry>): seq<Hour>
  {
    if logs == [] then [] else [logs[0].searchedAt.hour] + Hours(logs[1..])
  }

  lemma {:induction false} TermsCount(logs: seq<LogEntry>, t: string)
    ensures multiset(Terms(logs))[t] == CountTerm(logs, t)
    ensures |Terms(logs)| <= |logs|
  {
    if logs != [] {
      TermsCount(logs[1..], t);
    }
  }

  lemma {:induction false} HoursCount(logs: seq<LogEntry>, h: Hour)
    ensures multiset(Hours(logs))[h] == CountHour(logs, h)
    ensures |Hours(logs)| == |logs|
  {
    if logs != [] {
      HoursCount(logs[1..], h);
    }
  }

  /** `a / b` rounded to the nearest integer, halves up (PHP's `round` on a non-negative quotient). */
  function RoundDiv(a: nat, b: nat): (r: nat)
    requires b > 0
    ensures 2 * b * r <= 2 * a + b < 2 * b * (r + 1)
  {
    var q := (2 * a + b) / (2 * b);
    assert 2 * b * q + (2 * a + b) % (2 * b) == 2 * a + b;
    q
  }

  lemma MulCancelLt(c: int, x: int, y: int)
    requires c > 0 && c * x < c * y
    ensures x < y
  {
  }

  /** Rounding a quotient that lies in [lo, hi] stays in [lo, hi]. */
  lemma RoundDivBetween(a: nat, b: nat, lo: nat, hi: nat)
    requires b > 0 && b * lo <= a <= b * hi
    ensures lo <= RoundDiv(a, b) <= hi
  {
    var r := RoundDiv(a, b);
    assert (2 * b) * lo < (2 * b) * (r + 1);
    MulCancelLt(2 * b, lo, r + 1);
    assert (2 * b) * r < (2 * b) * (hi + 1);
    MulCancelLt(2 * b, r, hi + 1);
  }

  /** `round(count / total * 100, 2)` in hundredths of a percent; never above 100.00 % for a part of the total. */
  function Percent(count: nat, total: nat): (r: nat)
    requires total > 0
    ensures count <= total ==> r <= 10000
    ensures count == total ==> r == 10000
  {
    if count <= total then
      RoundDivBetween(count * 10000, total, if count == total then 10000 else 0, 10000);
      RoundDiv(count * 10000, total)
    else
      RoundDiv(count * 10000, total)
  }

  /** The rounding the statistics page shows for its sample snapshot (15, 10 and 5 of 30; 25 of 40). */
  lemma PercentExamples()
    ensures Percent(15, 30) == 5000 && Percent(10, 30) == 3333 && Percent(5, 30) == 1667
    ensures Percent(25, 40) == 6250
  {
  }

  /** Sum of `response_time_ms` over the rows. */
  function SumTimes(logs: seq<LogEntry>): nat
  {
    if logs == [] then 0 else logs[0].responseTime + SumTimes(logs[1..])
  }

  /** `round(avg('response_time_ms'), 2)` in hundredths of a millisecond. */
  function AverageResponseTime(logs: seq<LogEntry>): nat
    requires |logs| > 0
  {
    RoundDiv(SumTimes(logs), |logs|)
  }

  lemma {:induction false} SumTimesBounds(logs: seq<LogEntry>, lo: nat, hi: nat)
    requires forall i :: 0 <= i < |logs| ==> lo <= logs[i].responseTime <= hi
    ensures |logs| * lo <= SumTimes(logs) <= |logs| * hi
  {
    if logs != [] {
      var n := |logs| - 1;
      assert |logs[1..]| == n;
      SumTimesBounds(logs[1..], lo, hi);
      assert |logs| * lo == n * lo + lo && |logs| * hi == n * hi + hi;
      assert SumTimes(logs) == logs[0].responseTime + SumTimes(logs[1..]);
    }
  }

  /** The average lies between the fastest and the slowest response. */
  lemma AverageBounds(logs: seq<LogEntry>, lo: nat, hi: nat)
    requires |logs| > 0
    requires forall i :: 0 <= i < |logs| ==> lo <= logs[i].responseTime <= hi
    ensures lo <= AverageResponseTime(logs) <= hi
  {
    SumTimesBounds(logs, lo, hi);
    RoundDivBetween(SumTimes(logs), |logs|, lo, hi);
  }

  /** The top queries: the five largest term groups, each with its share of all rows. */
  function TopQueries(logs: seq<LogEntry>): seq<TopQuery>
    requires |logs| > 0
  {
    var r := Ranked(Terms(logs));
    var k := if |r| < TopLimit then |r| else TopLimit;
    seq(k, i requires 0 <= i < k => TopQuery(r[i].key, r[i].count, Percent(r[i].count, |logs|)))
  }

  /** The search volume per hour of day, busiest first. */
  function PopularHours(logs: seq<LogEntry>): seq<HourVolume>
  {
    var r := Ranked(Hours(logs));
    seq(|r|, i requires 0 <= i < |r| => HourVolume(r[i].key, r[i].count))
  }

  /** The snapshot a run over a non-empty log writes. */
  function ComputeSnapshot(logs: seq<LogEntry>, now: DateTime): Snapshot
    requires |logs| > 0
  {
    Snapshot(TopQueries(logs), AverageResponseTime(logs), PopularHours(logs), |logs|, now)
  }

  function SumQueryCounts(tq: seq<TopQuery>): nat
  {
    if tq == [] then 0 else tq[0].count + SumQueryCounts(tq[1..])
  }

  function SumHourCounts(hv: seq<HourVolume>): nat
  {
    if hv == [] then 0 else hv[0].count + SumHourCounts(hv[1..])
  }

  /**
   * Every acceptable `top_queries` for `logs`: at most five distinct non-null
   * terms with their exact counts and shares, largest count first, and no
   * term left out that outnumbers one kept (so one is left out only when all
   * five places are taken).
   */
  ghost predicate IsTopQueries(tq: seq<TopQuery>, logs: seq<LogEntry>)
    requires |logs| > 0
  {
    && |tq| <= TopLimit
    && (forall i, j :: 0 <= i < j < |tq| ==> tq[i].term != tq[j].term)
    && (forall i :: 0 <= i < |tq| ==> 0 < tq[i].count == CountTerm(logs, tq[i].term))
    && (forall i :: 0 <= i < |tq| ==> tq[i].percentage == Percent(tq[i].count, |logs|))
    && (forall i, j :: 0 <= i < j < |tq| ==> tq[j].count <= tq[i].count)
    && (forall t :: 0 < CountTerm(logs, t) && (forall i :: 0 <= i < |tq| ==> tq[i].term != t) ==>
          |tq| == TopLimit && forall i :: 0 <= i < |tq| ==> CountTerm(logs, t) <= tq[i].count)
  }

  /**
   * Every acceptable `popular_hours` for `logs`: one entry per hour that
   * occurs, with its exact count, busiest first.
   */
  ghost predicate IsHourVolumes(hv: seq<HourVolume>, logs: seq<LogEntry>)
  {
    && (forall i, j :: 0 <= i < j < |hv| ==> hv[i].hour != hv[j].hour)
    && (forall i :: 0 <= i < |hv| ==> 0 < hv[i].count == CountHour(logs, hv[i].hour))
    && (forall h: Hour :: 0 < CountHour(logs, h) ==> exists i :: 0 <= i < |hv| && hv[i].hour == h)
    && (forall i, j :: 0 <= i < j < |hv| ==> hv[j].count <= hv[i].count)
  }

  lemma {:induction false} SumQueryCountsIsTotal(tq: seq<TopQuery>, gs: seq<Group<string>>)
    requires |tq| == |gs| && forall i :: 0 <= i < |tq| ==> tq[i].count == gs[i].count
    ensures SumQueryCounts(tq) == Total(gs)
  {
    if tq != [] {
      SumQueryCountsIsTotal(tq[1..], gs[1..]);
    }
  }

  lemma {:induction false} SumHourCountsIsTotal(hv: seq<HourVolume>, gs: seq<Group<Hour>>)
    requires |hv| == |gs| && forall i :: 0 <= i < |hv| ==> hv[i].count == gs[i].count
    ensures SumHourCounts(hv) == Total(gs)
  {
    if hv != [] {
      SumHourCountsIsTotal(hv[1..], gs[1..]);
    }
  }

  /** A term outside the kept prefix of the ranking counts no more than any kept term. */
  lemma OmittedTermDominated(r: seq<Group<string>>, k: nat, idx: nat)
    requires SortedDesc(r, CountOf) && DistinctKeys(r) && k <= idx < |r|
    ensures forall i :: 0 <= i < k ==> r[idx].count <= r[i].count
  {
    assert multiset(r[..k])[r[idx]] == 0 by {
      forall j | 0 <= j < k ensures r[..k][j] != r[idx] {
        assert r[j].key != r[idx].key;
      }
    }
    assert r[idx] in multiset(r) - multiset(r[..k]);
    PrefixDominates(r, k, CountOf);
    forall i | 0 <= i < k ensures r[idx].count <= r[i].count {
      assert CountOf(r[idx]) <= CountOf(r[i]);
    }
  }

  /**
   * `r` groups the terms of `logs` correctly: distinct terms, each with the
   * number of rows searching for it, and every searched term present.
   */
  ghost predicate GroupsTerms(r: seq<Group<string>>, logs: seq<LogEntry>)
  {
    && DistinctKeys(r)
    && (forall i :: 0 <= i < |r| ==> 0 < r[i].count == CountTerm(logs, r[i].key))
    && (forall t :: 0 < CountTerm(logs, t) ==> exists i :: 0 <= i < |r| && r[i].key == t)
  }

  /** `r` groups the hours of `logs` correctly. */
  ghost predicate GroupsHours(r: seq<Group<Hour>>, logs: seq<LogEntry>)
  {
    && DistinctKeys(r)
    && (forall i :: 0 <= i < |r| ==> 0 < r[i].count == CountHour(logs, r[i].key))
    && (forall h: Hour :: 0 < CountHour(logs, h) ==> exists i :: 0 <= i < |r| && r[i].key == h)
  }

  lemma {:induction false} CountTermBound(logs: seq<LogEntry>, t: string)
    ensures CountTerm(logs, t) <= |logs|
  {
    if logs != [] {
      CountTermBound(logs[1..], t);
    }
  }

  /** The groups of a correct tally of the terms carry the exact per-term counts. */
  lemma TallyTermCounts(logs: seq<LogEntry>, r: seq<Group<string>>)
    requires Tallies(r, Terms(logs))
    ensures forall i :: 0 <= i < |r| ==> 0 < r[i].count == CountTerm(logs, r[i].key)
  {
    forall i | 0 <= i < |r| ensures 0 < r[i].count == CountTerm(logs, r[i].key) {
      TermsCount(logs, r[i].key);
    }
  }

  /** Every searched term has a group in a correct tally of the terms. */
  lemma TallyTermsCovered(logs: seq<LogEntry>, r: seq<Group<string>>)
    requires Tallies(r, Terms(logs))
    ensures forall t :: 0 < CountTerm(logs, t) ==> exists i :: 0 <= i < |r| && r[i].key == t
  {
    forall t | 0 < CountTerm(logs, t) ensures exists i :: 0 <= i < |r| && r[i].key == t {
      TermsCount(logs, t);
      assert t in Terms(logs);
    }
  }

  /** The ranking of the terms groups them correctly, largest group first, and its counts add up to at most the rows. */
  lemma TermRanking(logs: seq<LogEntry>)
    ensures GroupsTerms(Ranked(Terms(logs)), logs)
    ensures SortedDesc(Ranked(Terms(logs)), CountOf)
    ensures Total(Ranked(Terms(logs))) <= |logs|
  {
    RankedCorrect(Terms(logs));
    TallyTermCounts(logs, Ranked(Terms(logs)));
    TallyTermsCovered(logs, Ranked(Terms(logs)));
    TermsCount(logs, "");
  }

  /** The groups of a correct tally of the hours carry the exact per-hour counts. */
  lemma TallyHourCounts(logs: seq<LogEntry>, r: seq<Group<Hour>>)
    requires Tallies(r, Hours(logs))
    ensures forall i :: 0 <= i < |r| ==> 0 < r[i].count == CountHour(logs, r[i].key)
  {
    forall i | 0 <= i < |r| ensures 0 < r[i].count == CountHour(logs, r[i].key) {
      HoursCount(logs, r[i].key);
    }
  }

  /** Every hour that occurs has a group in a correct tally of the hours. */
  lemma TallyHoursCovered(logs: seq<LogEntry>, r: seq<Group<Hour>>)
    requires Tallies(r, Hours(logs))
    ensures forall h: Hour :: 0 < CountHour(logs, h) ==> exists i :: 0 <= i < |r| && r[i].key == h
  {
    forall h: Hour | 0 < CountHour(logs, h) ensures exists i :: 0 <= i < |r| && r[i].key == h {
      HoursCount(logs, h);
      assert h in Hours(logs);
    }
  }

  /** The ranking of the hours groups them correctly, busiest first, and its counts add up to the rows. */
  lemma HourRanking(logs: seq<LogEntry>)
    ensures GroupsHours(Ranked(Hours(logs)), logs)
    ensures SortedDesc(Ranked(Hours(logs)), CountOf)
    ensures Total(Ranked(Hours(logs))) == |logs|
  {
    RankedCorrect(Hours(logs));
    TallyHourCounts(logs, Ranked(Hours(logs)));
    TallyHoursCovered(logs, Ranked(Hours(logs)));
    HoursCount(logs, 0);
  }

  /** A prefix of a correct ranking of the terms, with shares, is an acceptable `top_queries`. */
  lemma TopOfRanking(logs: seq<LogEntry>, r: seq<Group<string>>, tq: seq<TopQuery>)
    requires |logs| > 0
    requires GroupsTerms(r, logs) && SortedDesc(r, CountOf)
    requires |tq| == (if |r| < TopLimit then |r| else TopLimit)
    requires forall i :: 0 <= i < |tq| ==> tq[i] == TopQuery(r[i].key, r[i].count, Percent(r[i].count, |logs|))
    ensures IsTopQueries(tq, logs)
  {
    forall i, j | 0 <= i < j < |tq| ensures tq[j].count <= tq[i].count {
      assert CountOf(r[j]) <= CountOf(r[i]);
    }
    forall t | 0 < CountTerm(logs, t) && (forall i :: 0 <= i < |tq| ==> tq[i].term != t)
      ensures |tq| == TopLimit && forall i :: 0 <= i < |tq| ==> CountTerm(logs, t) <= tq[i].count
    {
      var idx :| 0 <= idx < |r| && r[idx].key == t;
      assert |tq| <= idx;
      OmittedTermDominated(r, |tq|, idx);
    }
  }

  /** The computed top queries are an acceptable answer. */
  lemma TopQueriesCorrect(logs: seq<LogEntry>)
    requires |logs| > 0
    ensures IsTopQueries(TopQueries(logs), logs)
  {
    TermRanking(logs);
    TopOfRanking(logs, Ranked(Terms(logs)), TopQueries(logs));
  }

  /** The top counts never add up to more than the rows, and every share is at most 100.00 %. */
  lemma TopQueriesBounded(logs: seq<LogEntry>)
    requires |logs| > 0
    ensures SumQueryCounts(TopQueries(logs)) <= |logs|
    ensures forall i :: 0 <= i < |TopQueries(logs)| ==> TopQueries(logs)[i].percentage <= 10000
  {
    var r := Ranked(Terms(logs));
    var tq := TopQueries(logs);
    TermRanking(logs);
    SumQueryCountsIsTotal(tq, r[..|tq|]);
    TotalPrefix(r, |tq|);
    forall i | 0 <= i < |tq| ensures tq[i].count <= |logs| {
      CountTermBound(logs, r[i].key);
    }
  }

  /** A correct ranking of the hours is an acceptable `popular_hours` that accounts for every row. */
  lemma HoursOfRanking(logs: seq<LogEntry>, r: seq<Group<Hour>>, hv: seq<HourVolume>)
    requires GroupsHours(r, logs) && SortedDesc(r, CountOf) && Total(r) == |logs|
    requires |hv| == |r| && forall i :: 0 <= i < |hv| ==> hv[i] == HourVolume(r[i].key, r[i].count)
    ensures IsHourVolumes(hv, logs)
    ensures SumHourCounts(hv) == |logs|
  {
    forall h: Hour | 0 < CountHour(logs, h) ensures exists i :: 0 <= i < |hv| && hv[i].hour == h {
      var idx :| 0 <= idx < |r| && r[idx].key == h;
      assert hv[idx].hour == h;
    }
    forall i, j | 0 <= i < j < |hv| ensures hv[j].count <= hv[i].count {
      assert CountOf(r[j]) <= CountOf(r[i]);
    }
    SumHourCountsIsTotal(hv, r);
  }

  /** The computed hourly volumes are an acceptable answer, and they account for every row. */
  lemma PopularHoursCorrect(logs: seq<LogEntry>)
    ensures IsHourVolumes(PopularHours(logs), logs)
    ensures SumHourCounts(PopularHours(logs)) == |logs|
  {
    HourRanking(logs);
    HoursOfRanking(logs, Ranked(Hours(logs)), PopularHours(logs));
  }

  /** `handle`: an empty log leaves the statistics untouched; otherwise one snapshot stamped `now` is added. */
  method Handle(logs: SearchLogTable, stats: SnapshotTable, now: DateTime)
    modifies stats
    ensures |logs.rows| == 0 ==> stats.rows == old(stats.rows)
    ensures |logs.rows| > 0 ==> stats.rows == old(stats.rows) + [ComputeSnapshot(logs.rows, now)]
  {
    var total := |logs.rows|;
    if total == 0 {
      return;
    }
    var snapshot := Snapshot(TopQueries(logs.rows), AverageResponseTime(logs.rows), PopularHours(logs.rows), total, now);
    stats.Create(snapshot);
  }

  /**
   * Every snapshot the job writes satisfies the reference predicates, counts
   * every row, and reports an average within any bounds `lo`..`hi` on the
   * observed response times.
   */
  lemma SnapshotCorrect(logs: seq<LogEntry>, now: DateTime, lo: nat, hi: nat)
    requires |logs| > 0
    ensures var s := ComputeSnapshot(logs, now);
            && IsTopQueries(s.topQueries, logs)
            && IsHourVolumes(s.popularHours, logs)
            && s.totalSearches == |logs| == SumHourCounts(s.popularHours)
            && SumQueryCounts(s.topQueries) <= s.totalSearches
            && s.computedAt == now
    ensures (forall i :: 0 <= i < |logs| ==> lo <= logs[i].responseTime <= hi) ==>
            lo <= ComputeSnapshot(logs, now).avgResponseTime <= hi
  {
    if forall i :: 0 <= i < |logs| ==> lo <= logs[i].responseTime <= hi {
      AverageBounds(logs, lo, hi);
    }
    TopQueriesCorrect(logs);
    TopQueriesBounded(logs);
    PopularHoursCorrect(logs);
  }
}
