/**
 * The shared part of the upstream services (BaseService): the requests sent
 * to the Star Wars catalogue, the cache-key scheme and the cache-aside read.
 */
module Swapi {
  import opened Wrappers
  import opened Json
  import opened Text
  import opened Cache

  /** Seconds a fetched payload stays cached: one hour. */
  const CacheTTL: int := 3600

  datatype Param = PStr(s: string) | PInt(i: int)

  /** One GET to the catalogue: a path relative to the base URL and its query parameters, in order. */
  datatype Request = Request(endpoint: string, params: seq<(string, Param)>)

  /** What the HTTP client yields for a request: the decoded body, or a RequestException. */
  datatype FetchOutcome = Body(json: Json) | RequestFailed

  /** The catalogue as seen through the HTTP client (timeout, retries and decoding included). */
  type Upstream = Request -> FetchOutcome

  /** `get`: the decoded body; a RequestException is absorbed into null. */
  function Get(upstream: Upstream, req: Request): (r: Json)
    ensures r == JNull <==> upstream(req) in {RequestFailed, Body(JNull)}
    ensures r != JNull ==> upstream(req) == Body(r)
  {
    match upstream(req)
    case Body(j) => j
    case RequestFailed => JNull
  }

  /** The request `getById` sends: "{resource}/{id}", no parameters. */
  function ByIdRequest(resource: string, id: int): Request
  {
    Request(resource + "/" + IntToDecimal(id), [])
  }

  /** The request `getAll` sends. */
  function AllRequest(resource: string, page: int := 1, limit: int := 10): Request
  {
    Request(resource, [("page", PInt(page)), ("limit", PInt(limit))])
  }

  /** The request `search` sends. */
  function SearchRequest(resource: string, query: string, page: int := 1, limit: int := 10): Request
  {
    Request(resource, [("search", PStr(query)), ("page", PInt(page)), ("limit", PInt(limit))])
  }

  /** The defaults of `getAll` and `search` are page 1 and 10 per page. */
  lemma RequestDefaults(resource: string, query: string)
    ensures AllRequest(resource).params == [("page", PInt(1)), ("limit", PInt(10))]
    ensures SearchRequest(resource, query).params ==
      [("search", PStr(query)), ("page", PInt(1)), ("limit", PInt(10))]
    ensures ByIdRequest(resource, 1) == Request(resource + "/1", [])
  {
  }

  /** `makeCacheKey`: "swapi:{resource}:{type}:{lower-cased value}". */
  function MakeCacheKey(resource: string, kind: string, value: string): string
  {
    "swapi:" + resource + ":" + kind + ":" + Lower(value)
  }

  /** A key is the resource's prefix "swapi:{resource}:" followed by "{type}:{lower-cased value}". */
  lemma KeyPrefix(resource: string, kind: string, value: string)
    ensures MakeCacheKey(resource, kind, value) == ("swapi:" + resource + ":") + (kind + ":" + Lower(value))
    ensures MakeCacheKey(resource, kind, value)[..|resource| + 7] == "swapi:" + resource + ":"
  {
    var p := "swapi:" + resource + ":";
    assert MakeCacheKey(resource, kind, value) == p + (kind + ":" + Lower(value));
    assert |p| == |resource| + 7;
  }

  /** Keys of one resource and kind coincide exactly when the values lower-case to the same string. */
  lemma KeyEqualIff(resource: string, kind: string, a: string, b: string)
    ensures MakeCacheKey(resource, kind, a) == MakeCacheKey(resource, kind, b) <==> Lower(a) == Lower(b)
  {
    var p := "swapi:" + resource + ":" + kind + ":";
    assert MakeCacheKey(resource, kind, a) == p + Lower(a);
    assert MakeCacheKey(resource, kind, b) == p + Lower(b);
    if p + Lower(a) == p + Lower(b) {
      assert Lower(a) == (p + Lower(a))[|p|..];
      assert Lower(b) == (p + Lower(b))[|p|..];
    }
  }

  /** Values that differ only in ASCII letter case share one key ("Luke" and "luke"). */
  lemma KeyIgnoresCase(resource: string, kind: string, a: string, b: string)
    requires |a| == |b| && forall i :: 0 <= i < |a| ==> LowerChar(a[i]) == LowerChar(b[i])
    ensures MakeCacheKey(resource, kind, a) == MakeCacheKey(resource, kind, b)
  {
    LowerEqualIff(a, b);
  }

  /** Normalising first changes nothing: the key of lower(v) is the key of v. */
  lemma KeyOfLowered(resource: string, kind: string, v: string)
    ensures MakeCacheKey(resource, kind, Lower(v)) == MakeCacheKey(resource, kind, v)
  {
    LowerIdempotent(v);
  }

  /** An integer id is rendered in decimal, untouched by lower-casing. */
  lemma IdKeyIsDecimal(resource: string, id: int)
    ensures MakeCacheKey(resource, "id", IntToDecimal(id)) == "swapi:" + resource + ":id:" + IntToDecimal(id)
  {
    var d := IntToDecimal(id);
    assert forall i :: 0 <= i < |d| ==> !IsUpper(d[i]) by {
      var n := NatToDecimal(if id < 0 then -id else id);
      assert AllDigits(n);
      if id < 0 {
        assert d == "-" + n;
        assert forall i :: 1 <= i < |d| ==> d[i] == n[i - 1];
      }
    }
    LowerFixes(d);
  }

  /** Keys of two different resource names never collide when neither name contains ':'. */
  lemma KeysSeparateResources(r1: string, k1: string, v1: string, r2: string, k2: string, v2: string)
    requires r1 != r2 && ':' !in r1 && ':' !in r2
    ensures MakeCacheKey(r1, k1, v1) != MakeCacheKey(r2, k2, v2)
  {
    var a, b := MakeCacheKey(r1, k1, v1), MakeCacheKey(r2, k2, v2);
    assert a[6..6 + |r1|] == r1 && a[6 + |r1|] == ':';
    assert b[6..6 + |r2|] == r2 && b[6 + |r2|] == ':';
    if |r1| < |r2| {
      assert b[6 + |r1|] == r2[|r1|] != ':';
    } else if |r2| < |r1| {
      assert a[6 + |r2|] == r1[|r2|] != ':';
    } else {
      var i :| 0 <= i < |r1| && r1[i] != r2[i];
      assert a[6 + i] == r1[i] && b[6 + i] == r2[i];
    }
  }

  /** The callback `getFromCacheOrFetch` is given: issue `req` through `get`. */
  function Producer(upstream: Upstream, req: Request): () -> Json
  {
    () => Get(upstream, req)
  }

  /** One cache-aside read: the value returned, the cache left behind, and the request sent upstream, if any. */
  datatype Cached = Cached(value: Json, entries: map<string, Entry>, fetched: Option<Request>)

  /** `getFromCacheOrFetch(key, fn () => get(req))` at time `now`. */
  function CacheOrFetchOutcome(entries: map<string, Entry>, key: string, req: Request, upstream: Upstream, now: int): (c: Cached)
    ensures c.fetched.None? <==> Lookup(entries, key, now).Some?
    ensures c.fetched.None? ==> Lookup(entries, key, now) == Some(c.value) && c.entries == entries
    ensures c.fetched.Some? ==> c.fetched == Some(req) && c.value == Get(upstream, req)
    ensures c.fetched.Some? ==> forall t :: now <= t < now + CacheTTL ==>
      Lookup(c.entries, key, t) == if c.value == JNull then None else Some(c.value)
    ensures c.fetched.Some? ==> forall t :: now + CacheTTL <= t ==> Lookup(c.entries, key, t).None?
    ensures forall k, t :: k != key ==> Lookup(c.entries, k, t) == Lookup(entries, k, t)
  {
    var o := RememberOutcome(entries, key, CacheTTL, now, Producer(upstream, req));
    Cached(o.value, o.entries, if o.ran then Some(req) else None)
  }

  /**
   * Two reads of one key within the hour, the first of which fetched a
   * non-null payload: the second is served from the cache, so the catalogue
   * is asked at most once.
   */
  lemma SecondReadHits(entries: map<string, Entry>, key: string, req1: Request, req2: Request,
                       upstream: Upstream, now1: int, now2: int)
    requires now1 <= now2 < now1 + CacheTTL
    requires Get(upstream, req1) != JNull
    ensures var c1 := CacheOrFetchOutcome(entries, key, req1, upstream, now1);
            var c2 := CacheOrFetchOutcome(c1.entries, key, req2, upstream, now2);
            && (c1.fetched.None? || c2.fetched.None?)
            && (c1.fetched.Some? ==> c2.value == c1.value)
  {
  }

  /** A null payload (a failed or empty fetch) is not served later: the next read asks the catalogue again. */
  lemma NullIsRetried(entries: map<string, Entry>, key: string, req1: Request, req2: Request,
                      upstream: Upstream, now1: int, now2: int)
    requires Get(upstream, req1) == JNull
    ensures var c1 := CacheOrFetchOutcome(entries, key, req1, upstream, now1);
            var c2 := CacheOrFetchOutcome(c1.entries, key, req2, upstream, now2);
            c1.fetched.Some? ==> c2.fetched == Some(req2)
  {
  }

  /** A payload fetched at `now1` expires after the hour: a read from `now1 + 3600` on asks the catalogue again. */
  lemma ExpiredIsRefetched(entries: map<string, Entry>, key: string, req1: Request, req2: Request,
                           upstream: Upstream, now1: int, now2: int)
    requires now1 + CacheTTL <= now2
    ensures var c1 := CacheOrFetchOutcome(entries, key, req1, upstream, now1);
            var c2 := CacheOrFetchOutcome(c1.entries, key, req2, upstream, now2);
            c1.fetched.Some? ==> c2.fetched == Some(req2)
  {
  }

  /** `getFromCacheOrFetch` against the shared cache store. */
  method GetFromCacheOrFetch(store: CacheStore, key: string, req: Request, upstream: Upstream, now: int)
    returns (value: Json, fetched: Option<Request>)
    modifies store
    ensures CacheOrFetchOutcome(old(store.entries), key, req, upstream, now) == Cached(value, store.entries, fetched)
  {
    var ran;
    value, ran := store.Remember(key, CacheTTL, now, Producer(upstream, req));
    fetched := if ran then Some(req) else None;
  }
}
