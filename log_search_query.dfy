/** The `LogSearchQuery` middleware: records each search request in the search log. */
module LogSearchQuery {
  import opened Wrappers
  import opened Json
  import opened Text
  import opened Clock
  import opened SearchLogs

  /** An incoming request: its path (no leading or trailing '/') and its query string. */
  datatype HttpRequest = HttpRequest(path: string, query: map<string, string>)

  /** What `handle` gives back: the downstream response, or the `TypeError` PHP's `count` raises. */
  datatype Handled = Returned(response: Json) | CountError

  /** The handled outcome together with the search log after the call. */
  datatype Step = Step(handled: Handled, rows: seq<LogEntry>)

  const PeopleSearchPath: string := "api/v1/people/search"
  const FilmsSearchPath: string := "api/v1/films/search"
  const PeoplePrefix: string := "api/v1/people/"
  const FilmsPrefix: string := "api/v1/films/"

  predicate IsPrefix(p: string, s: string)
  {
    |p| <= |s| && s[..|p|] == p
  }

  /** `shouldLog`: only the two search endpoints are logged. */
  predicate ShouldLog(req: HttpRequest)
  {
    req.path == PeopleSearchPath || req.path == FilmsSearchPath
  }

  /** `getEntityType`: "people" under the prefix `api/v1/people/`, "films" under `api/v1/films/`, else "unknown". */
  function EntityType(req: HttpRequest): (r: string)
    ensures r == "people" || r == "films" || r == "unknown"
  {
    if IsPrefix(PeoplePrefix, req.path) then "people"
    else if IsPrefix(FilmsPrefix, req.path) then "films"
    else "unknown"
  }

  /** `getSearchTerm`: the `name` query value, else the `title` one, else null. */
  function SearchTerm(req: HttpRequest): (r: Option<string>)
    ensures r.None? <==> "name" !in req.query && "title" !in req.query
    ensures r.Some? ==> r.value in req.query.Values
    ensures "name" in req.query ==> r == Some(req.query["name"])
    ensures "name" !in req.query && "title" in req.query ==> r == Some(req.query["title"])
  {
    if "name" in req.query then Some(req.query["name"])
    else if "title" in req.query then Some(req.query["title"])
    else None
  }

  /**
   * `isset($data['data']) ? count($data['data']) : 0`: None when `data` is a
   * scalar, for which `count` raises a `TypeError`.
   */
  function ResultsCount(body: Json): (r: Option<nat>)
    ensures Field(body, "data") == JNull ==> r == Some(0)
    ensures Field(body, "data").JList? ==> r == Some(|Field(body, "data").items|)
    ensures Field(body, "data").JMap? ==> r == Some(|Field(body, "data").fields|)
    ensures r.None? <==> Field(body, "data").JBool? || Field(body, "data").JInt? || Field(body, "data").JStr?
  {
    if Isset(body, "data") then Count(Field(body, "data")) else Some(0)
  }

  /** `round(elapsed_ms, 2)` in hundredths of a millisecond, from the latency in microseconds. */
  function ResponseTime(elapsedMicros: nat): (r: nat)
    ensures 10 * r <= elapsedMicros + 5 < 10 * r + 10
  {
    (elapsedMicros + 5) / 10
  }

  /** The row `handle` writes for a logged request whose body can be counted. */
  function Row(req: HttpRequest, count: nat, elapsedMicros: nat, now: DateTime): LogEntry
  {
    LogEntry(EntityType(req), SearchTerm(req), count, ResponseTime(elapsedMicros), now)
  }

  /** `handle` on a request whose downstream response is `response`. */
  function HandleOutcome(rows: seq<LogEntry>, req: HttpRequest, response: Json, elapsedMicros: nat, now: DateTime): (s: Step)
    ensures !ShouldLog(req) ==> s == Step(Returned(response), rows)
    ensures ShouldLog(req) && ResultsCount(response).Some? ==>
      s == Step(Returned(response), rows + [Row(req, ResultsCount(response).value, elapsedMicros, now)])
    ensures s.handled.CountError? <==> ShouldLog(req) && ResultsCount(response).None?
    ensures s.handled.CountError? ==> s.rows == rows
    ensures s.handled.Returned? ==> s.handled.response == response
  {
    if !ShouldLog(req) then Step(Returned(response), rows)
    else match ResultsCount(response)
      case None => Step(CountError, rows)
      case Some(n) => Step(Returned(response), rows + [Row(req, n, elapsedMicros, now)])
  }

  /**
   * The middleware: the downstream response arrives as `response`, the time
   * it took as `elapsedMicros`, the clock reading as `now`.
   */
  method Handle(table: SearchLogTable, req: HttpRequest, response: Json, elapsedMicros: nat, now: DateTime)
    returns (out: Handled)
    modifies table
    ensures HandleOutcome(old(table.rows), req, response, elapsedMicros, now) == Step(out, table.rows)
  {
    if ShouldLog(req) {
      var data := Field(response, "data");
      var count: nat := 0;
      if data != JNull {
        match Count(data) {
          case None =>
            return CountError;
          case Some(n) =>
            count := n;
        }
      }
      table.Create(LogEntry(EntityType(req), SearchTerm(req), count, ResponseTime(elapsedMicros), now));
    }
    out := Returned(response);
  }

  /** A logged request is attributed to the entity of its endpoint, never to "unknown". */
  lemma LoggedEntityIsKnown(req: HttpRequest)
    requires ShouldLog(req)
    ensures req.path == PeopleSearchPath ==> EntityType(req) == "people"
    ensures req.path == FilmsSearchPath ==> EntityType(req) == "films"
    ensures EntityType(req) != "unknown"
  {
    if req.path == PeopleSearchPath {
      assert req.path[..|PeoplePrefix|] == PeoplePrefix;
    } else {
      assert req.path[..|FilmsPrefix|] == FilmsPrefix;
      assert req.path[7] != PeoplePrefix[7];
    }
  }

  /** The two entity prefixes exclude each other, so the order of the two tests does not matter. */
  lemma PrefixesExclusive(path: string)
    ensures !(IsPrefix(PeoplePrefix, path) && IsPrefix(FilmsPrefix, path))
  {
    if IsPrefix(FilmsPrefix, path) {
      assert path[7] == 'f' != PeoplePrefix[7];
    }
  }

  /** A lookup by id, `api/v1/people/{id}` or `api/v1/films/{id}`, is never logged. */
  lemma ShowIsNotLogged(id: int, query: map<string, string>)
    ensures !ShouldLog(HttpRequest(PeoplePrefix + IntToDecimal(id), query))
    ensures !ShouldLog(HttpRequest(FilmsPrefix + IntToDecimal(id), query))
  {
    var d := IntToDecimal(id);
    assert d[0] == '-' || IsDigit(d[0]);
    var p, f := PeoplePrefix + d, FilmsPrefix + d;
    assert p[|PeoplePrefix|] == d[0] && PeopleSearchPath[|PeoplePrefix|] == 's';
    assert f[|FilmsPrefix|] == d[0] && FilmsSearchPath[|FilmsPrefix|] == 's';
  }

  /** A "no results" body (`data` null) and a validation-error body (no `data`) are logged with count 0. */
  lemma EmptyBodiesCountZero(message: string, errors: Json)
    ensures ResultsCount(JMap([("message", JStr(message)), ("data", JNull)])) == Some(0)
    ensures ResultsCount(JMap([("message", JStr(message)), ("errors", errors)])) == Some(0)
  {
  }

  /** Each call appends at most one row and never alters the rows already there. */
  lemma HandleAppendsAtMostOne(rows: seq<LogEntry>, req: HttpRequest, response: Json, elapsedMicros: nat, now: DateTime)
    ensures var s := HandleOutcome(rows, req, response, elapsedMicros, now);
            |rows| <= |s.rows| <= |rows| + 1 && s.rows[..|rows|] == rows
            && (|s.rows| == |rows| + 1 <==> ShouldLog(req) && s.handled.Returned?)
  {
    var s := HandleOutcome(rows, req, response, elapsedMicros, now);
    if |s.rows| == |rows| + 1 {
      assert s.rows[..|rows|] == rows;
    }
  }

  /**
   * The row a logged search appends carries `name` when the query has one,
   * and `title` only when `name` is absent, whichever endpoint was called.
   */
  lemma LoggedTermPrefersName(rows: seq<LogEntry>, req: HttpRequest, response: Json, elapsedMicros: nat, now: DateTime)
    requires ShouldLog(req) && ResultsCount(response).Some?
    ensures var s := HandleOutcome(rows, req, response, elapsedMicros, now);
            && |s.rows| == |rows| + 1
            && ("name" in req.query ==> s.rows[|rows|].searchTerm == Some(req.query["name"]))
            && ("name" !in req.query && "title" in req.query ==> s.rows[|rows|].searchTerm == Some(req.query["title"]))
            && ("name" !in req.query && "title" !in req.query ==> s.rows[|rows|].searchTerm.None?)
  {
  }

  /**
   * A film search that also carries a `name` parameter is logged under that
   * name, not under the title the controller searched for.
   */
  lemma FilmSearchLogsStrayName(rows: seq<LogEntry>, response: Json, elapsedMicros: nat, now: DateTime)
    requires ResultsCount(response).Some?
    ensures var req := HttpRequest(FilmsSearchPath, map["title" := "Hope", "name" := "x"]);
            var s := HandleOutcome(rows, req, response, elapsedMicros, now);
            && |s.rows| == |rows| + 1
            && s.rows[|rows|].entityType == "films"
            && s.rows[|rows|].searchTerm == Some("x")
  {
    var req := HttpRequest(FilmsSearchPath, map["title" := "Hope", "name" := "x"]);
    LoggedEntityIsKnown(req);
  }
}
