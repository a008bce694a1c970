/** FilmController: `search` and `show` for films, over the film service. */
module FilmEndpoints {
  import opened Wrappers
  import opened Json
  import opened Cache
  import opened Films
  import FilmResource
  import opened EntityResponses

  const FilmNotFound: string := "Film not found"

  /** `show` once the service has answered `result`. */
  function ShowOutcome(result: Json): (r: ShowResponse)
    ensures r.NotFound? <==> !HasResult(result)
    ensures r.NotFound? ==> r == NotFound(404, FilmNotFound)
    ensures r.Found? ==> r.resource == FilmResource.ToArray(Field(result, "result"))
  {
    ShowResult(result, FilmNotFound, FilmResource.ToArray)
  }

  /** `show(1)` with the record of "A New Hope" answers with uid "1" and that title. */
  lemma ShowNewHope()
    ensures ShowOutcome(JMap([("result", FilmResource.NewHope)])).Found?
    ensures Field(ShowOutcome(JMap([("result", FilmResource.NewHope)])).resource, "uid") == JStr("1")
    ensures Field(ShowOutcome(JMap([("result", FilmResource.NewHope)])).resource, "title") == JStr("A New Hope")
  {
    EmptyResults(FilmNotFound, FilmResource.ToArray, FilmResource.NewHope);
    FilmResource.NewHopeView();
  }

  /** `show` aborts with 404 "Film not found" for a null result and for an empty array. */
  lemma ShowMissing()
    ensures ShowOutcome(JNull) == NotFound(404, "Film not found")
    ensures ShowOutcome(JList([])) == NotFound(404, "Film not found")
    ensures ShowOutcome(JMap([])) == NotFound(404, "Film not found")
  {
    EmptyResults(FilmNotFound, FilmResource.ToArray, JNull);
  }

  /** The film controller, holding the service it was built with. */
  class FilmController {
    const filmService: FilmService

    constructor (filmService: FilmService)
      ensures this.filmService == filmService
    {
      this.filmService := filmService;
    }

    /**
     * `search`: the validated `title` goes to `searchByTitle` unchanged, in one
     * call, and the answer follows the shared outcome rule.
     */
    method Search(title: string, now: int) returns (response: SearchResponse)
      modifies filmService.store
      ensures var c := SearchByTitleOutcome(old(filmService.store.entries), filmService.upstream, title, now);
              filmService.store.entries == c.entries && response == SearchResult(c.value)
    {
      var result, _ := filmService.SearchByTitle(title, now);
      response := SearchResult(result);
    }

    /** `show`: one `getFilm(id)` call, then 404 or the film's view. */
    method Show(id: int, now: int) returns (response: ShowResponse)
      modifies filmService.store
      ensures var c := GetFilmOutcome(old(filmService.store.entries), filmService.upstream, id, now);
              filmService.store.entries == c.entries && response == ShowOutcome(c.value)
    {
      var result, _ := filmService.GetFilm(id, now);
      response := ShowOutcome(result);
    }
  }
}
