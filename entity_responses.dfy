/**
 * The outcome rule PeopleController and FilmController share: a service
 * result without a non-null `result` member is "nothing found"; otherwise
 * the item or items under `result` are returned.
 */
module EntityResponses {
  import opened Wrappers
  import opened Json
  import LogSearchQuery

  const NoResultsMessage: string := "No results found for the search term."
  const NotFoundStatus: nat := 404

  /** What `search` answers: the empty-result message, or the items under `result` for the collection. */
  datatype SearchResponse = NoResults(message: string) | Collection(items: Json)

  /** What `show` answers: an abort with a status and a message, or the resource view of the item. */
  datatype ShowResponse = NotFound(status: nat, message: string) | Found(resource: Json)

  /** True when the service result carries a non-null `result` member. */
  predicate HasResult(result: Json)
  {
    && result.JMap?
    && (exists i :: 0 <= i < |result.fields| && result.fields[i].0 == "result" &&
                   KeyLookup(result.fields, "result") == Some(result.fields[i].1) && result.fields[i].1 != JNull)
  }

  /** `$result === null || !isset($result['result'])` is exactly the absence of a non-null `result` member. */
  lemma {:induction false} NoResultIffNotIsset(result: Json)
    ensures (result == JNull || !Isset(result, "result")) <==> !HasResult(result)
  {
    if result.JMap? {
      match KeyLookup(result.fields, "result")
      case None =>
      case Some(v) =>
        var i :| 0 <= i < |result.fields| && result.fields[i] == ("result", v);
        assert result.fields[i].0 == "result";
    }
  }

  /** `search` after the service call: the message when there is no result, the items otherwise. */
  function SearchResult(result: Json): (r: SearchResponse)
    ensures r.NoResults? <==> !HasResult(result)
    ensures r.NoResults? ==> r.message == NoResultsMessage
    ensures r.Collection? ==> r.items != JNull && Field(result, "result") == r.items
  {
    NoResultIffNotIsset(result);
    if result == JNull || !Isset(result, "result") then NoResults(NoResultsMessage)
    else Collection(Field(result, "result"))
  }

  /** `show` after the service call: 404 with `notFound` when there is no result, the item's view otherwise. */
  function ShowResult(result: Json, notFound: string, view: Json -> Json): (r: ShowResponse)
    ensures r.NotFound? <==> !HasResult(result)
    ensures r.NotFound? ==> r.status == NotFoundStatus && r.message == notFound
    ensures r.Found? ==> Field(result, "result") != JNull && r.resource == view(Field(result, "result"))
  {
    NoResultIffNotIsset(result);
    if result == JNull || !Isset(result, "result") then NotFound(NotFoundStatus, notFound)
    else Found(view(Field(result, "result")))
  }

  /** The JSON body of the empty-result answer: the message with `data` null. */
  function NoResultsBody(message: string): (r: Json)
    ensures Field(r, "message") == JStr(message) && Field(r, "data") == JNull
  {
    JMap([("message", JStr(message)), ("data", JNull)])
  }

  /**
   * A null service result, an empty array and an array whose `result` is
   * missing or null all give the empty-result answer and the 404; a
   * non-null `result` is passed on as it is.
   */
  lemma EmptyResults(notFound: string, view: Json -> Json, items: Json)
    ensures forall result :: result in [JNull, JList([]), JMap([]), JMap([("result", JNull)])] ==>
      SearchResult(result) == NoResults(NoResultsMessage) && ShowResult(result, notFound, view) == NotFound(404, notFound)
    ensures items != JNull ==> SearchResult(JMap([("result", items)])) == Collection(items)
    ensures items != JNull ==> ShowResult(JMap([("result", items)]), notFound, view) == Found(view(items))
  {
    assert !HasResult(JMap([("result", JNull)])) by {
      NoResultIffNotIsset(JMap([("result", JNull)]));
    }
    if items != JNull {
      assert HasResult(JMap([("result", items)])) by {
        NoResultIffNotIsset(JMap([("result", items)]));
      }
    }
  }

  /** The search middleware records the empty-result answer as a search with zero results. */
  lemma NoResultsLoggedAsZero()
    ensures LogSearchQuery.ResultsCount(NoResultsBody(NoResultsMessage)) == Some(0)
  {
  }
}
