/** FilmService: films by id and by title, read through the cache. */
module Films {
  import opened Wrappers
  import opened Json
  import opened Text
  import opened Cache
  import opened Swapi
  import People

  const Resource: string := "films"

  /** `makeCacheKey('id', id)` for films. */
  function FilmKey(id: int): string
  {
    MakeCacheKey(Resource, "id", IntToDecimal(id))
  }

  /** `makeCacheKey('search', title)` for films. */
  function TitleKey(title: string): string
  {
    MakeCacheKey(Resource, "search", title)
  }

  /** The request `searchByTitle` sends on a miss: "films" with the single parameter `title`, case kept. */
  function TitleRequest(title: string): Request
  {
    Request(Resource, [("title", PStr(title))])
  }

  /** `getFilm(id)` at time `now`. */
  function GetFilmOutcome(entries: map<string, Entry>, upstream: Upstream, id: int, now: int): Cached
  {
    CacheOrFetchOutcome(entries, FilmKey(id), ByIdRequest(Resource, id), upstream, now)
  }

  /** `searchByTitle(title)` at time `now`. */
  function SearchByTitleOutcome(entries: map<string, Entry>, upstream: Upstream, title: string, now: int): Cached
  {
    CacheOrFetchOutcome(entries, TitleKey(title), TitleRequest(title), upstream, now)
  }

  /** Every key of this service starts with "swapi:films:"; a film's key is its id in decimal. */
  lemma KeyShapes(id: int, title: string)
    ensures FilmKey(id) == "swapi:films:id:" + IntToDecimal(id)
    ensures TitleKey(title) == "swapi:films:search:" + Lower(title)
    ensures FilmKey(id)[..12] == "swapi:films:" && TitleKey(title)[..12] == "swapi:films:"
  {
    IdKeyIsDecimal(Resource, id);
    KeyPrefix(Resource, "id", IntToDecimal(id));
    KeyPrefix(Resource, "search", title);
    assert "swapi:" + Resource + ":" == "swapi:films:";
  }

  /** The keys of id 1 and of the search term "Hope". */
  lemma KeyExamples()
    ensures FilmKey(1) == "swapi:films:id:1"
    ensures TitleKey("Hope") == "swapi:films:search:hope"
  {
    IdKeyIsDecimal(Resource, 1);
    assert Lower("Hope") == "hope";
  }

  /** A miss on `getFilm(id)` asks for "films/{id}"; one on `searchByTitle(title)` sends `title` unchanged. */
  lemma MissRequests(entries: map<string, Entry>, upstream: Upstream, id: int, title: string, now: int)
    ensures GetFilmOutcome(entries, upstream, id, now).fetched.Some? ==>
      GetFilmOutcome(entries, upstream, id, now).fetched == Some(Request("films/" + IntToDecimal(id), []))
    ensures SearchByTitleOutcome(entries, upstream, title, now).fetched.Some? ==>
      SearchByTitleOutcome(entries, upstream, title, now).fetched == Some(Request("films", [("title", PStr(title))]))
  {
    assert Resource + "/" == "films/";
  }

  /** Film entries and people entries never share a cache key, so neither service can read the other's. */
  lemma KeysDisjointFromPeople(kind1: string, v1: string, kind2: string, v2: string)
    ensures MakeCacheKey(Resource, kind1, v1) != MakeCacheKey(People.Resource, kind2, v2)
  {
    KeysSeparateResources(Resource, kind1, v1, People.Resource, kind2, v2);
  }

  /** The film service: its cache store and its view of the catalogue. */
  class FilmService {
    const store: CacheStore
    const upstream: Upstream

    constructor (store: CacheStore, upstream: Upstream)
      ensures this.store == store && this.upstream == upstream
    {
      this.store := store;
      this.upstream := upstream;
    }

    method GetFilm(id: int, now: int) returns (r: Json, fetched: Option<Request>)
      modifies store
      ensures GetFilmOutcome(old(store.entries), upstream, id, now) == Cached(r, store.entries, fetched)
    {
      r, fetched := GetFromCacheOrFetch(store, FilmKey(id), ByIdRequest(Resource, id), upstream, now);
    }

    method SearchByTitle(title: string, now: int) returns (r: Json, fetched: Option<Request>)
      modifies store
      ensures SearchByTitleOutcome(old(store.entries), upstream, title, now) == Cached(r, store.entries, fetched)
    {
      r, fetched := GetFromCacheOrFetch(store, TitleKey(title), TitleRequest(title), upstream, now);
    }
  }
}
