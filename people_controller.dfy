/** PeopleController: `search` and `show` for people, over the people service. */
module PeopleEndpoints {
  import opened Wrappers
  import opened Json
  import opened Cache
  import opened People
  import PeopleResource
  import opened EntityResponses

  const PersonNotFound: string := "Person not found"

  /** `show` once the service has answered `result`. */
  function ShowOutcome(result: Json): (r: ShowResponse)
    ensures r.NotFound? <==> !HasResult(result)
    ensures r.NotFound? ==> r == NotFound(404, PersonNotFound)
    ensures r.Found? ==> r.resource == PeopleResource.ToArray(Field(result, "result"))
  {
    ShowResult(result, PersonNotFound, PeopleResource.ToArray)
  }

  /** `show(1)` with Luke's record answers with uid "1" and name "Luke Skywalker". */
  lemma ShowLuke()
    ensures ShowOutcome(JMap([("result", PeopleResource.Luke)])).Found?
    ensures Field(ShowOutcome(JMap([("result", PeopleResource.Luke)])).resource, "uid") == JStr("1")
    ensures Field(ShowOutcome(JMap([("result", PeopleResource.Luke)])).resource, "name") == JStr("Luke Skywalker")
  {
    EmptyResults(PersonNotFound, PeopleResource.ToArray, PeopleResource.Luke);
    PeopleResource.LukeView();
  }

  /** `show` aborts with 404 "Person not found" for a null result and for an empty array. */
  lemma ShowMissing()
    ensures ShowOutcome(JNull) == NotFound(404, "Person not found")
    ensures ShowOutcome(JList([])) == NotFound(404, "Person not found")
    ensures ShowOutcome(JMap([])) == NotFound(404, "Person not found")
  {
    EmptyResults(PersonNotFound, PeopleResource.ToArray, JNull);
  }

  /** The people controller, holding the service it was built with. */
  class PeopleController {
    const peopleService: PeopleService

    constructor (peopleService: PeopleService)
      ensures this.peopleService == peopleService
    {
      this.peopleService := peopleService;
    }

    /**
     * `search`: the validated `name` goes to `searchByName` unchanged, in one
     * call, and the answer follows the shared outcome rule.
     */
    method Search(name: string, now: int) returns (response: SearchResponse)
      modifies peopleService.store
      ensures var c := SearchByNameOutcome(old(peopleService.store.entries), peopleService.upstream, name, now);
              peopleService.store.entries == c.entries && response == SearchResult(c.value)
    {
      var result, _ := peopleService.SearchByName(name, now);
      response := SearchResult(result);
    }

    /** `show`: one `getPerson(id)` call, then 404 or the person's view. */
    method Show(id: int, now: int) returns (response: ShowResponse)
      modifies peopleService.store
      ensures var c := GetPersonOutcome(old(peopleService.store.entries), peopleService.upstream, id, now);
              peopleService.store.entries == c.entries && response == ShowOutcome(c.value)
    {
      var result, _ := peopleService.GetPerson(id, now);
      response := ShowOutcome(result);
    }
  }
}
