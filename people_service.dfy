/** PeopleService: people by id and by name, read through the cache. */
module People {
  import opened Wrappers
  import opened Json
  import opened Text
  import opened Cache
  import opened Swapi

  const Resource: string := "people"

  /** `makeCacheKey('id', id)` for people. */
  function PersonKey(id: int): string
  {
    MakeCacheKey(Resource, "id", IntToDecimal(id))
  }

  /** `makeCacheKey('search', name)` for people. */
  function NameKey(name: string): string
  {
    MakeCacheKey(Resource, "search", name)
  }

  /** The request `searchByName` sends on a miss: "people" with the single parameter `name`, case kept. */
  function NameRequest(name: string): Request
  {
    Request(Resource, [("name", PStr(name))])
  }

  /** `getPerson(id)` at time `now`. */
  function GetPersonOutcome(entries: map<string, Entry>, upstream: Upstream, id: int, now: int): Cached
  {
    CacheOrFetchOutcome(entries, PersonKey(id), ByIdRequest(Resource, id), upstream, now)
  }

  /** `searchByName(name)` at time `now`. */
  function SearchByNameOutcome(entries: map<string, Entry>, upstream: Upstream, name: string, now: int): Cached
  {
    CacheOrFetchOutcome(entries, NameKey(name), NameRequest(name), upstream, now)
  }

  /** Every key of this service starts with "swapi:people:"; a person's key is its id in decimal. */
  lemma KeyShapes(id: int, name: string)
    ensures PersonKey(id) == "swapi:people:id:" + IntToDecimal(id)
    ensures NameKey(name) == "swapi:people:search:" + Lower(name)
    ensures PersonKey(id)[..13] == "swapi:people:" && NameKey(name)[..13] == "swapi:people:"
  {
    IdKeyIsDecimal(Resource, id);
    KeyPrefix(Resource, "id", IntToDecimal(id));
    KeyPrefix(Resource, "search", name);
    assert "swapi:" + Resource + ":" == "swapi:people:";
  }

  /** The keys of id 1 and of the search term "Luke". */
  lemma KeyExamples()
    ensures PersonKey(1) == "swapi:people:id:1"
    ensures NameKey("Luke") == "swapi:people:search:luke"
  {
    IdKeyIsDecimal(Resource, 1);
    assert Lower("Luke") == "luke";
  }

  /** A miss on `getPerson(id)` asks for "people/{id}"; one on `searchByName(name)` sends `name` unchanged. */
  lemma MissRequests(entries: map<string, Entry>, upstream: Upstream, id: int, name: string, now: int)
    ensures GetPersonOutcome(entries, upstream, id, now).fetched.Some? ==>
      GetPersonOutcome(entries, upstream, id, now).fetched == Some(Request("people/" + IntToDecimal(id), []))
    ensures SearchByNameOutcome(entries, upstream, name, now).fetched.Some? ==>
      SearchByNameOutcome(entries, upstream, name, now).fetched == Some(Request("people", [("name", PStr(name))]))
  {
    assert Resource + "/" == "people/";
  }

  /**
   * `searchByName("Luke")` then `searchByName("LUKE")` within the hour asks
   * the catalogue at most once when the first answer is not null, and a
   * second call served from the cache returns the first call's payload.
   */
  lemma LukeThenUpperCase(entries: map<string, Entry>, upstream: Upstream, now1: int, now2: int)
    requires now1 <= now2 < now1 + CacheTTL
    requires Get(upstream, NameRequest("Luke")) != JNull
    ensures var c1 := SearchByNameOutcome(entries, upstream, "Luke", now1);
            var c2 := SearchByNameOutcome(c1.entries, upstream, "LUKE", now2);
            && (c1.fetched.None? || c2.fetched.None?)
            && (c1.fetched.Some? ==> c2.value == c1.value)
  {
    KeyIgnoresCase(Resource, "search", "Luke", "LUKE");
    SecondReadHits(entries, NameKey("Luke"), NameRequest("Luke"), NameRequest("LUKE"), upstream, now1, now2);
  }

  /** The people service: its cache store and its view of the catalogue. */
  class PeopleService {
    const store: CacheStore
    const upstream: Upstream

    constructor (store: CacheStore, upstream: Upstream)
      ensures this.store == store && this.upstream == upstream
    {
      this.store := store;
      this.upstream := upstream;
    }

    method GetPerson(id: int, now: int) returns (r: Json, fetched: Option<Request>)
      modifies store
      ensures GetPersonOutcome(old(store.entries), upstream, id, now) == Cached(r, store.entries, fetched)
    {
      r, fetched := GetFromCacheOrFetch(store, PersonKey(id), ByIdRequest(Resource, id), upstream, now);
    }

    method SearchByName(name: string, now: int) returns (r: Json, fetched: Option<Request>)
      modifies store
      ensures SearchByNameOutcome(old(store.entries), upstream, name, now) == Cached(r, store.entries, fetched)
    {
      r, fetched := GetFromCacheOrFetch(store, NameKey(name), NameRequest(name), upstream, now);
    }
  }
}
