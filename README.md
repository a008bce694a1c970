# Star Wars API proxy: a Dafny model

This project models the core of a Laravel application that serves people and
films from the public Star Wars catalogue (SWAPI), logs every search, and
periodically aggregates the log into statistics snapshots. The model covers:

- **The SWAPI services** (`BaseService`, `PeopleService`, `FilmService`). The
  cache-key builder `swapi:{resource}:{type}:{lower-cased value}`, the request
  shapes, and the read-through cache with a one-hour TTL. The cache store is a
  class whose entries map the methods update. The catalogue is a function
  from request to outcome.
- **The search log middleware** (`LogSearchQuery`). It decides which paths it
  logs, derives the entity type, the search term, the result count and the
  response time, and appends at most one row to the `search_logs` table. The
  table is a class over a `seq` of rows.
- **The statistics job** (`ComputeSearchStatistics`). It computes the top five
  terms with their percentages, the rounded average response time, the
  volume per hour of day and the total. It writes one snapshot, and none for
  an empty log. Each query is proved against a reference predicate of
  everything an acceptable answer may be.
- **Snapshot reading** (`SearchStatisticRepository`, `SearchStatisticService`,
  `StatisticsController`, `SearchStatisticResource`). These cover the latest
  snapshot, the history with its limit, the formatted array, and the resource
  with `computed_at` rendered as `Y-m-d H:i:s`.
- **Entity responses** (`PeopleResource`, `FilmResource`, `PeopleController`,
  `FilmController`). These cover the nested-or-flat field selection in a
  fixed key order, and the empty-result message and 404 rule. Each
  controller is a class holding its service and calls it exactly once.
- **Input validation** (`SearchPeopleRequest`, `SearchFilmRequest`). This is
  `required|string|min:2` on the search term with the custom messages. The
  validator's stop-after-`required` behaviour and the lookup of
  `attribute.rule` message keys are modelled too.

Numbers the application keeps as floats are modelled as exact integers in
hundredths: milliseconds for response times and percent for shares.
Rounding is half up, which is PHP's `round` on non-negative values. Clock
readings, elapsed time and the catalogue's answers are parameters.

## Model

| member | source | states |
|---|---|---|
| Cache.RememberOutcome | app/Services/Swapi/BaseService.php:139-142 | A live, non-null entry is returned without running the producer and the store is unchanged. Otherwise the producer runs once, and its value is stored under that key only. It is live from `now` up to `now + ttl` and expired from then on. Every other key reads as before. |
| Cache.CacheStore.Remember | app/Services/Swapi/BaseService.php:139-142 | The store's new entries, the returned value and whether the producer ran are exactly what `RememberOutcome` gives for the old entries. |
| Swapi.Get | app/Services/Swapi/BaseService.php:45-60 | The fetch yields null exactly when the request failed or the body decoded to null. Otherwise it yields the decoded body. |
| Swapi.RequestDefaults | app/Services/Swapi/BaseService.php:68-103 | `getAll` sends page 1 and limit 10 by default. `search` sends `search`, page 1 and limit 10. `getById(1)` asks for "{resource}/1" with no parameters. |
| Swapi.KeyPrefix | app/Services/Swapi/BaseService.php:118-125 | Every key is "swapi:{resource}:" followed by "{type}:{lower-cased value}". |
| Swapi.KeyEqualIff | app/Services/Swapi/BaseService.php:118-125 | Two keys of one resource and type are equal if and only if their values lower-case to the same string. |
| Swapi.KeyIgnoresCase | app/Services/Swapi/BaseService.php:120-124 | Values that differ only in ASCII letter case share one key. |
| Swapi.KeyOfLowered | app/Services/Swapi/BaseService.php:122 | Lower-casing a value before building its key changes nothing. |
| Swapi.IdKeyIsDecimal | app/Services/Swapi/BaseService.php:118-124 | An id key is "swapi:{resource}:id:" followed by the id in decimal, with no case change. |
| Swapi.KeysSeparateResources | app/Services/Swapi/BaseService.php:124 | Keys of two different colon-free resources never collide, whatever their types and values. |
| Swapi.CacheOrFetchOutcome | app/Services/Swapi/BaseService.php:139-142 | On a hit there is no request and the entries are unchanged. On a miss exactly the given request is sent and its answer is returned. The answer is cached for exactly 3600 seconds: live before `now + 3600` and expired from then on. All other keys are untouched. |
| Swapi.SecondReadHits | app/Services/Swapi/BaseService.php:139-142 | A second read of the same key within the TTL, after a non-null fetch, sends no request and returns the first value. |
| Swapi.NullIsRetried | app/Services/Swapi/BaseService.php:139-142 | After a fetch that yielded null, the next read of the key asks the catalogue again. |
| Swapi.ExpiredIsRefetched | app/Services/Swapi/BaseService.php:139-142 | A read of the key from 3600 seconds after a fetch on asks the catalogue again. |
| Swapi.GetFromCacheOrFetch | app/Services/Swapi/BaseService.php:139-142 | The store's new entries, the value and the request sent are exactly `CacheOrFetchOutcome` of the old entries. |
| People.KeyShapes | app/Services/Swapi/PeopleService.php:21-50 | A person's key is "swapi:people:id:{id}" and a name search's key is "swapi:people:search:{lower-cased name}". Both start with "swapi:people:". |
| People.KeyExamples | app/Services/Swapi/BaseService.php:110-112 | Id 1 gives "swapi:people:id:1" and "Luke" gives "swapi:people:search:luke". |
| People.MissRequests | app/Services/Swapi/PeopleService.php:26-48 | On a miss, `getPerson(id)` asks for "people/{id}". `searchByName(n)` asks for "people" with the single parameter `name` set to `n` in its original case. |
| People.LukeThenUpperCase | app/Services/Swapi/PeopleService.php:40-50 | "Luke" then "LUKE" within the hour reach the catalogue at most once when the first answer is not null. A cached second answer equals the first. |
| People.PeopleService.GetPerson | app/Services/Swapi/PeopleService.php:21-29 | The new cache state, the result and the request sent are exactly `GetPersonOutcome` of the old state. |
| People.PeopleService.SearchByName | app/Services/Swapi/PeopleService.php:40-50 | The new cache state, the result and the request sent are exactly `SearchByNameOutcome` of the old state. |
| Films.KeyShapes | app/Services/Swapi/FilmService.php:21-50 | A film's key is "swapi:films:id:{id}" and a title search's key is "swapi:films:search:{lower-cased title}". Both start with "swapi:films:". |
| Films.KeyExamples | app/Services/Swapi/BaseService.php:110-112 | Id 1 gives "swapi:films:id:1" and "Hope" gives "swapi:films:search:hope". |
| Films.MissRequests | app/Services/Swapi/FilmService.php:26-48 | On a miss, `getFilm(id)` asks for "films/{id}". `searchByTitle(t)` asks for "films" with the single parameter `title` set to `t` unchanged. |
| Films.KeysDisjointFromPeople | app/Services/Swapi/BaseService.php:124 | No film key equals any people key. |
| Films.FilmService.GetFilm | app/Services/Swapi/FilmService.php:21-29 | The new cache state, the result and the request sent are exactly `GetFilmOutcome` of the old state. |
| Films.FilmService.SearchByTitle | app/Services/Swapi/FilmService.php:40-50 | The new cache state, the result and the request sent are exactly `SearchByTitleOutcome` of the old state. |
| LogSearchQuery.EntityType | app/Http/Middleware/LogSearchQuery.php:40-45 | The entity type is always one of "people", "films" or "unknown". |
| LogSearchQuery.SearchTerm | app/Http/Middleware/LogSearchQuery.php:47-51 | `name` wins when the query has it. `title` is used only when `name` is absent. The term is null exactly when both are absent. |
| LogSearchQuery.ResultsCount | app/Http/Middleware/LogSearchQuery.php:25 | A null or missing `data` counts 0. A list or array `data` counts its elements. A scalar `data` is the `count()` TypeError. |
| LogSearchQuery.ResponseTime | app/Http/Middleware/LogSearchQuery.php:18-26 | The logged time is the elapsed time in hundredths of a millisecond, rounded to the nearest. |
| LogSearchQuery.HandleOutcome | app/Http/Middleware/LogSearchQuery.php:11-32 | Unlogged paths pass the response through and leave the rows alone. A logged path appends exactly one row with the derived fields, or raises on a scalar `data` and appends nothing. The response is returned unchanged. |
| LogSearchQuery.Handle | app/Http/Middleware/LogSearchQuery.php:11-32 | The table's new rows and the outcome are exactly `HandleOutcome` of the old rows. |
| LogSearchQuery.LoggedEntityIsKnown | app/Http/Middleware/LogSearchQuery.php:34-45 | A logged request is typed "people" on the people search path and "films" on the film search path, never "unknown". |
| LogSearchQuery.PrefixesExclusive | app/Http/Middleware/LogSearchQuery.php:42-43 | No path matches both the people and the films pattern. |
| LogSearchQuery.ShowIsNotLogged | app/Http/Middleware/LogSearchQuery.php:34-38 | Lookups by id, such as "api/v1/people/{id}", are never logged. |
| LogSearchQuery.EmptyBodiesCountZero | app/Http/Middleware/LogSearchQuery.php:25 | The empty-result body and a validation-error body are logged with 0 results. |
| LogSearchQuery.HandleAppendsAtMostOne | app/Http/Middleware/LogSearchQuery.php:17-29 | Each request keeps the existing rows as a prefix and adds at most one row. It adds one if and only if the path is logged and the count succeeded. |
| LogSearchQuery.LoggedTermPrefersName | app/Http/Middleware/LogSearchQuery.php:22-28 | The row a logged search appends carries the `name` value when there is one, otherwise the `title` value, otherwise null. |
| LogSearchQuery.FilmSearchLogsStrayName | app/Http/Middleware/LogSearchQuery.php:47-51 | A film search with `title=Hope&name=x` is logged as a films search for "x", not for the title the controller searched. |
| SearchLogs.SearchLogTable.Create | app/Http/Middleware/LogSearchQuery.php:22-28 | `SearchLog::create` appends the row and changes nothing else. |
| SearchStatistics.SnapshotTable.Create | app/Jobs/ComputeSearchStatistics.php:68-74 | `SearchStatistic::create` appends the snapshot and changes nothing else. |
| Clock.RankIsChronological | app/Repositories/SearchStatisticRepository.php:24 | The sort key for `computed_at` orders instants chronologically and is injective. |
| Clock.FormatRoundTrip | app/Http/Resources/SearchStatisticResource.php:22 | 'Y-m-d H:i:s' yields 19 characters that parse back to the same instant, for years 0 to 9999. |
| Tally.TallyCorrect | app/Jobs/ComputeSearchStatistics.php:35-37 | Grouping gives each distinct value once with its exact number of occurrences, and the counts add up to the number of rows. |
| Tally.RankedCorrect | app/Jobs/ComputeSearchStatistics.php:35-40 | Grouping then `orderByDesc('count')` gives distinct groups with exact counts, in non-increasing count order, adding up to the number of rows. |
| ComputeSearchStatistics.TermsCount | app/Jobs/ComputeSearchStatistics.php:35-37 | The non-null terms projected from the log contain each term exactly as often as rows search for it. |
| ComputeSearchStatistics.HoursCount | app/Jobs/ComputeSearchStatistics.php:53-57 | The hour projection has one hour per row, with the right multiplicity for each hour. |
| ComputeSearchStatistics.RoundDiv | app/Jobs/ComputeSearchStatistics.php:45 | The result is the quotient rounded to the nearest integer, halves up. |
| ComputeSearchStatistics.RoundDivBetween | app/Jobs/ComputeSearchStatistics.php:70 | Rounding a quotient that lies between two integers stays between them. |
| ComputeSearchStatistics.Percent | app/Jobs/ComputeSearchStatistics.php:45 | A part of the total never exceeds 100.00 %, and the whole total is exactly 100.00 %. |
| ComputeSearchStatistics.PercentExamples | app/Jobs/ComputeSearchStatistics.php:45 | 15, 10 and 5 of 30 give 50.00, 33.33 and 16.67. 25 of 40 gives 62.50. |
| ComputeSearchStatistics.SumTimesBounds | app/Jobs/ComputeSearchStatistics.php:50 | The sum of response times lies between n times the smallest and n times the largest. |
| ComputeSearchStatistics.AverageBounds | app/Jobs/ComputeSearchStatistics.php:50-70 | The rounded average lies between the fastest and the slowest response. |
| ComputeSearchStatistics.SumQueryCountsIsTotal | app/Jobs/ComputeSearchStatistics.php:41-47 | Top queries copied from groups carry the same total count as those groups. |
| ComputeSearchStatistics.SumHourCountsIsTotal | app/Jobs/ComputeSearchStatistics.php:60-65 | Hour volumes copied from groups carry the same total count as those groups. |
| ComputeSearchStatistics.OmittedTermDominated | app/Jobs/ComputeSearchStatistics.php:38-39 | In a ranking sorted by count, every group past the cut is no larger than any group before it. |
| ComputeSearchStatistics.CountTermBound | app/Jobs/ComputeSearchStatistics.php:35-37 | No term is searched more often than there are rows. |
| ComputeSearchStatistics.TallyTermCounts | app/Jobs/ComputeSearchStatistics.php:35-37 | Every group of a term tally has a positive count equal to the number of rows searching for its term. |
| ComputeSearchStatistics.TallyTermsCovered | app/Jobs/ComputeSearchStatistics.php:35-37 | Every searched term has a group in the tally. |
| ComputeSearchStatistics.TermRanking | app/Jobs/ComputeSearchStatistics.php:35-38 | The ranked term groups are distinct and exact, sorted by count, and add up to at most the number of rows. |
| ComputeSearchStatistics.TallyHourCounts | app/Jobs/ComputeSearchStatistics.php:53-57 | Every group of an hour tally has a positive count equal to the number of rows in that hour. |
| ComputeSearchStatistics.TallyHoursCovered | app/Jobs/ComputeSearchStatistics.php:53-57 | Every hour with a search has a group in the tally. |
| ComputeSearchStatistics.HourRanking | app/Jobs/ComputeSearchStatistics.php:53-58 | The ranked hour groups are distinct and exact, sorted by count, and add up to the number of rows. |
| ComputeSearchStatistics.TopOfRanking | app/Jobs/ComputeSearchStatistics.php:35-47 | The first min(5, groups) entries of an exact sorted ranking satisfy the top-queries reference. |
| ComputeSearchStatistics.TopQueriesCorrect | app/Jobs/ComputeSearchStatistics.php:35-47 | The top queries are at most five distinct terms, with exact counts and shares, largest first. Any term left out is searched no more often than each listed term. |
| ComputeSearchStatistics.TopQueriesBounded | app/Jobs/ComputeSearchStatistics.php:41-46 | The listed counts add up to at most the total, and every percentage is at most 100.00. |
| ComputeSearchStatistics.HoursOfRanking | app/Jobs/ComputeSearchStatistics.php:53-65 | An exact sorted hour ranking satisfies the hour-volume reference and its counts add up to the total. |
| ComputeSearchStatistics.PopularHoursCorrect | app/Jobs/ComputeSearchStatistics.php:53-65 | Every hour with searches is listed once with its exact count, busiest first, and the counts add up to the total. |
| ComputeSearchStatistics.Handle | app/Jobs/ComputeSearchStatistics.php:26-75 | An empty log writes nothing. Otherwise exactly one snapshot, computed from the current rows and clock, is appended. |
| ComputeSearchStatistics.SnapshotCorrect | app/Jobs/ComputeSearchStatistics.php:28-74 | A snapshot's total is the row count. Its top queries and hours meet their references. Its average lies within any bounds on the observed response times, and it carries the given time. |
| StatisticRepository.Latest | app/Repositories/SearchStatisticRepository.php:21-26 | There is no snapshot exactly when the table is empty. Otherwise the result is a row with the greatest `computed_at`. |
| StatisticRepository.LatestIsNewest | app/Repositories/SearchStatisticRepository.php:21-26 | No snapshot was computed after the latest one. |
| StatisticRepository.GetAll | app/Repositories/SearchStatisticRepository.php:34-40 | The result holds `limit` rows, or all rows when the limit is negative or too large. It is newest first and is a sub-multiset of the table. |
| StatisticRepository.HistoryOmitsOnlyOlder | app/Repositories/SearchStatisticRepository.php:34-40 | Any snapshot left out of the history is no newer than each snapshot in it. |
| StatisticRepository.LatestLeadsHistory | app/Repositories/SearchStatisticRepository.php:21-40 | A history of one holds the latest snapshot's instant. |
| StatisticService.GetLatestStatistics | app/Services/SearchStatisticService.php:22-25 | The result is the repository's latest snapshot, absent exactly when there is none. |
| StatisticService.GetFormattedStatistics | app/Services/SearchStatisticService.php:32-52 | With no snapshot the result is the fixed message with null `data`. Otherwise there is no message, and `data` copies the latest snapshot's aggregates with its instant in ISO form. |
| StatisticService.GetStatisticsHistory | app/Services/SearchStatisticService.php:60-63 | The history is the repository's, with the same limit. |
| StatisticService.DefaultHistory | app/Services/SearchStatisticService.php:60-63 | By default the ten newest snapshots are returned, or all of them when there are fewer, newest first. |
| StatisticResource.ToArrayFaithful | app/Http/Resources/SearchStatisticResource.php:17-23 | The aggregates are copied unchanged, the average is renamed, and `last_computed_at` reads back as `computed_at`. |
| StatisticResource.DistinctInstantsDistinctText | app/Http/Resources/SearchStatisticResource.php:22 | Different instants never render to the same `last_computed_at`. |
| StatisticsController.Index | app/Http/Controllers/StatisticsController.php:23-35 | The empty-state message is returned exactly when there is no snapshot. Otherwise the result is the resource of the latest one. |
| StatisticsController.IndexShowsNewest | app/Http/Controllers/StatisticsController.php:25-34 | With snapshots, the response shows one of them that nothing is newer than. |
| StatisticsController.IndexAgreesWithService | app/Http/Controllers/StatisticsController.php:23-35 | `index` and `getFormattedStatistics` agree on the empty case and its message, and on the aggregates shown. |
| ResourceFields.Project | app/Http/Resources/PeopleResource.php:20-36 | The projected array has exactly the keys `uid`, label, details and `url`, in that order. |
| ResourceFields.ProjectFields | app/Http/Resources/PeopleResource.php:18-36 | `uid` is copied. The label and `url` come from `properties` when set, else from the top level. Each detail comes from `properties` only. |
| ResourceFields.FlatItem | app/Http/Resources/PeopleResource.php:22-35 | An item without `properties` keeps its top-level label and `url`, and all its details are null. |
| PeopleResource.ToArray | app/Http/Resources/PeopleResource.php:15-37 | The result is an array whose keys follow the people layout. |
| PeopleResource.Shape | app/Http/Resources/PeopleResource.php:20-36 | The eleven keys `uid` through `url` are always present, in that order. |
| PeopleResource.ToArrayFields | app/Http/Resources/PeopleResource.php:18-36 | `uid` is copied, or null. `name` and `url` are nested when `properties` is set, else top-level. `gender` to `homeworld` come only from `properties`. |
| PeopleResource.ListItemView | app/Http/Resources/PeopleResource.php:18-35 | A flat list entry keeps its uid, name and url, with every detail null. |
| PeopleResource.LukeView | app/Http/Resources/PeopleResource.php:18-32 | The nested Luke record shows uid "1", name "Luke Skywalker", gender, homeworld and url. |
| FilmResource.ToArray | app/Http/Resources/FilmResource.php:15-39 | The result is an array whose keys follow the film layout. |
| FilmResource.Shape | app/Http/Resources/FilmResource.php:20-38 | The thirteen keys `uid` through `url` are always present, in that order. |
| FilmResource.ToArrayFields | app/Http/Resources/FilmResource.php:18-38 | `uid` is copied, or null. `title` and `url` are nested when `properties` is set, else top-level. `episode_id` to `species` come only from `properties`. |
| FilmResource.ListItemView | app/Http/Resources/FilmResource.php:18-37 | A flat list entry keeps its uid, title and url, with every detail null. |
| FilmResource.NewHopeView | app/Http/Resources/FilmResource.php:18-24 | The nested "A New Hope" record shows uid "1", its title and its url. |
| FilmResource.NewHopeEpisode | app/Http/Resources/FilmResource.php:25 | `episode_id` is taken from `properties` unchanged (4). |
| EntityResponses.NoResultIffNotIsset | app/Http/Controllers/PeopleController.php:35 | "null, or `result` not set" holds exactly when the result has no non-null `result` member. |
| EntityResponses.SearchResult | app/Http/Controllers/PeopleController.php:32-42 | The no-results message is returned exactly when there is no non-null `result`. Otherwise the answer is the collection of exactly those items. |
| EntityResponses.ShowResult | app/Http/Controllers/PeopleController.php:53-60 | The answer is 404 with the given message exactly when there is no non-null `result`. Otherwise it is the view of that item. |
| EntityResponses.NoResultsBody | app/Http/Controllers/PeopleController.php:36-39 | The body carries the message and a null `data`. |
| EntityResponses.EmptyResults | app/Http/Controllers/PeopleController.php:35-60 | Null, `[]` and a null or missing `result` give the message and the 404. A non-null `result` is passed on as it is. |
| EntityResponses.NoResultsLoggedAsZero | app/Http/Middleware/LogSearchQuery.php:25 | The empty-result answer is logged as a search with 0 results. |
| PeopleEndpoints.ShowOutcome | app/Http/Controllers/PeopleController.php:53-60 | The answer is 404 "Person not found" exactly without a non-null `result`. Otherwise it is the `PeopleResource` of it. |
| PeopleEndpoints.ShowLuke | app/Http/Controllers/PeopleController.php:53-60 | `show(1)` on Luke's payload answers with uid "1" and name "Luke Skywalker". |
| PeopleEndpoints.ShowMissing | app/Http/Controllers/PeopleController.php:56-58 | A null result and an empty array both give 404 "Person not found". |
| PeopleEndpoints.PeopleController.Search | app/Http/Controllers/PeopleController.php:28-43 | One `searchByName` call with the name unchanged; the cache state is that call's, and the answer follows the outcome rule. |
| PeopleEndpoints.PeopleController.Show | app/Http/Controllers/PeopleController.php:51-61 | One `getPerson(id)` call; the cache state is that call's, and the answer is `ShowOutcome` of its result. |
| FilmEndpoints.ShowOutcome | app/Http/Controllers/FilmController.php:53-60 | The answer is 404 "Film not found" exactly without a non-null `result`. Otherwise it is the `FilmResource` of it. |
| FilmEndpoints.ShowNewHope | app/Http/Controllers/FilmController.php:53-60 | `show(1)` on the "A New Hope" payload answers with uid "1" and that title. |
| FilmEndpoints.ShowMissing | app/Http/Controllers/FilmController.php:56-58 | A null result and an empty array both give 404 "Film not found". |
| FilmEndpoints.FilmController.Search | app/Http/Controllers/FilmController.php:28-43 | One `searchByTitle` call with the title unchanged; the cache state is that call's, and the answer follows the outcome rule. |
| FilmEndpoints.FilmController.Show | app/Http/Controllers/FilmController.php:51-61 | One `getFilm(id)` call; the cache state is that call's, and the answer is `ShowOutcome` of its result. |
| Validation.Failures | app/Http/Requests/SearchPeopleRequest.php:25 | Every failure listed is one of the attribute's rules, was applicable to the value, and does not hold for it. |
| Validation.Errors | app/Http/Requests/SearchPeopleRequest.php:22-43 | Errors are reported only for attributes that have rules. |
| Validation.UnruledInputIgnored | app/Http/Requests/SearchPeopleRequest.php:22-27 | An input for an attribute without rules never changes the errors. |
| Validation.RequiredStringMin | app/Http/Requests/SearchPeopleRequest.php:25 | `required|string|min:n`: missing, null, blank or an empty array fails `required` alone. A short string fails `min`. An array fails `string`, plus `min` when it is short. |
| Validation.RequiredStringMinPasses | app/Http/Requests/SearchPeopleRequest.php:25 | The value passes if and only if it is a non-blank string of at least n characters. |
| SearchTermRequest.CustomTexts | app/Http/Requests/SearchPeopleRequest.php:37-38 | `term.required` and `term.min` carry the two custom texts. |
| SearchTermRequest.Validate | app/Http/Requests/SearchPeopleRequest.php:22-27 | Only the term can carry errors. |
| SearchTermRequest.AcceptsExactly | app/Http/Requests/SearchPeopleRequest.php:25 | The request passes if and only if the term is a non-blank string of two or more characters. |
| SearchTermRequest.MissingTerm | app/Http/Requests/SearchPeopleRequest.php:25-37 | A missing or null term gives exactly one error, on the term, with the custom "required" text. |
| SearchTermRequest.TooShort | app/Http/Requests/SearchPeopleRequest.php:25-38 | A one-character term gives exactly one error, on the term, with the custom "min" text. |
| SearchTermRequest.PageAndLimitIgnored | app/Http/Requests/SearchPeopleRequest.php:24-41 | `page` and `limit` have messages but no rules, so their values never change the outcome. |
| SearchPeopleRequest.Validate | app/Http/Requests/SearchPeopleRequest.php:22-27 | Only `name` can carry errors. |
| SearchPeopleRequest.AsDeclared | app/Http/Requests/SearchPeopleRequest.php:12-43 | The rules are `name: required, string, min:2`, the five message texts are as declared, and `authorize` is true. |
| SearchPeopleRequest.TermTexts | app/Http/Requests/SearchPeopleRequest.php:37-38 | The two custom texts for `name`. |
| SearchPeopleRequest.TermKeys | app/Http/Requests/SearchPeopleRequest.php:37-38 | The two message keys are `name.required` and `name.min`. |
| SearchPeopleRequest.Accepts | app/Http/Requests/SearchPeopleRequest.php:25 | A people search passes if and only if `name` is a non-blank string of two or more characters. |
| SearchPeopleRequest.MissingName | app/Http/Requests/SearchPeopleRequest.php:25-37 | Without `name` the only error is on `name`: "The name field is required to search." |
| SearchPeopleRequest.OneLetterAndLuke | app/Http/Requests/SearchPeopleRequest.php:25-38 | `name=L` fails with "The name must be at least 2 characters." and `name=Luke` passes. |
| SearchPeopleRequest.PageAndLimitIgnored | app/Http/Requests/SearchPeopleRequest.php:24-41 | `page` and `limit` never change the outcome. |
| SearchFilmRequest.Validate | app/Http/Requests/SearchFilmRequest.php:22-27 | Only `title` can carry errors. |
| SearchFilmRequest.AsDeclared | app/Http/Requests/SearchFilmRequest.php:12-43 | The rules are `title: required, string, min:2`, the five message texts are as declared, and `authorize` is true. |
| SearchFilmRequest.TermTexts | app/Http/Requests/SearchFilmRequest.php:37-38 | The two custom texts for `title`. |
| SearchFilmRequest.TermKeys | app/Http/Requests/SearchFilmRequest.php:37-38 | The two message keys are `title.required` and `title.min`. |
| SearchFilmRequest.Accepts | app/Http/Requests/SearchFilmRequest.php:25 | A film search passes if and only if `title` is a non-blank string of two or more characters. |
| SearchFilmRequest.MissingTitle | app/Http/Requests/SearchFilmRequest.php:25-37 | Without `title` the only error is on `title`: "The title field is required to search." |
| SearchFilmRequest.OneLetterAndHope | app/Http/Requests/SearchFilmRequest.php:25-38 | `title=L` fails with "The title must be at least 2 characters." and `title=Hope` passes. |
| SearchFilmRequest.PageAndLimitIgnored | app/Http/Requests/SearchFilmRequest.php:24-41 | `page` and `limit` never change the outcome. |

## Left out

- HTTP transport: the base URL, the 30-second timeout and the three retries in `BaseService::get` are not modelled. The catalogue is a function from request to outcome, and any `RequestException` becomes null.
- Exceptions other than `RequestException` that escape `get` are not modelled.
- Clocks: `microtime`, `now()` and the cache clock are parameters (elapsed microseconds, a `DateTime`, integer seconds).
- Floating point: response times, averages and percentages are exact integers in hundredths, rounded half up. Binary floating-point error and the `float` casts of the models are not modelled.
- StatisticService.GetFormattedStatistics: Carbon's `toIso8601String` is the parameter `iso`; its exact rendering and time zone are not modelled.
- The time zone of `computed_at` and of `HOUR(searched_at)` is not modelled; every instant is a calendar reading.
- SQL details: the collation used by `groupBy('search_term')` (grouping is by exact string equality), and the order of groups or snapshots with equal keys. The order of equal counts is fixed by the model's stable sort. `IsTopQueries` and `IsHourVolumes` accept any order among ties.
- `PeopleCollection` and `FilmCollection` are not part of this model. `search` returns the items under `result`, and how the collection wraps them is left out.
- The validator's 422 response, its default message texts, and the attribute order of the error bag are not modelled. Default messages are kept as `Default(attribute, rule)`.
- The validator's optional-field rules (`nullable`, `sometimes`, `bail`) are not modelled; these requests use none of them.
- Numeric and boolean inputs from JSON bodies are not modelled. Query-string values are strings or arrays.
- Laravel's global `TrimStrings` and `ConvertEmptyStringsToNull` middleware are not modelled. Blank terms are rejected by `required` in the model, as they are after that middleware.
- LogSearchQuery.SearchTerm: array-valued `name` or `title` query parameters are not modelled; every query value is a string.
- LogSearchQuery.ResultsCount: a Json object is assumed to have distinct keys, as `json_decode` produces. `Count` counts fields, so an object with a repeated key would count more than PHP's `count()`.
- Route matching in the middleware: `Request::is` patterns are modelled as exact paths and as prefix matches for the `*` patterns.
- Scheduling and concurrency: the five-minute schedule of the statistics job and interleavings of requests and job runs are not modelled. Each operation runs alone.
- PeopleEndpoints.PeopleController.Show and FilmEndpoints.FilmController.Show: the `int $id` route binding is the method's `id` parameter. A non-numeric path segment never reaches the controller.
- FilmResource.NewHopeEpisode: only `episode_id` of the sample record's details is spelled out. The other details follow from `FilmResource.ToArrayFields`.
