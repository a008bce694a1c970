/**
 * The keyed cache store behind Laravel's `Cache::remember`: entries with an
 * absolute expiry, read-through population on a miss.
 *
 * Assumption, from the framework rather than from this repository: a stored
 * null reads as a miss, so a null produced by the callback is written but
 * never served.
 */
module Cache {
  import opened Wrappers
  import opened Json

  /** A cached value and the instant (in seconds) from which it is expired. */
  datatype Entry = Entry(value: Json, expiresAt: int)

  /** `Cache::get`: the live, non-null value under `key` at time `now`. */
  function Lookup(entries: map<string, Entry>, key: string, now: int): Option<Json>
  {
    if key in entries && now < entries[key].expiresAt && entries[key].value != JNull
    then Some(entries[key].value)
    else None
  }

  /** What one `remember` call returns and leaves behind; `ran` says whether the callback was invoked. */
  datatype Remembered = Remembered(value: Json, entries: map<string, Entry>, ran: bool)

  /**
   * `Cache::remember(key, ttl, produce)` at time `now`: a hit returns the
   * stored value without invoking `produce`; a miss invokes it once, stores
   * its result for `ttl` seconds and returns it.
   */
  function RememberOutcome(entries: map<string, Entry>, key: string, ttl: int, now: int, produce: () -> Json): (o: Remembered)
    requires ttl > 0
    ensures !o.ran <==> Lookup(entries, key, now).Some?
    ensures !o.ran ==> Lookup(entries, key, now) == Some(o.value) && o.entries == entries
    ensures o.ran ==> o.value == produce()
    ensures o.ran ==> forall t :: now <= t < now + ttl ==>
      Lookup(o.entries, key, t) == if o.value == JNull then None else Some(o.value)
    ensures o.ran ==> forall t :: now + ttl <= t ==> Lookup(o.entries, key, t).None?
    ensures o.ran ==> o.entries.Keys == entries.Keys + {key}
    ensures forall k, t :: k != key ==> Lookup(o.entries, k, t) == Lookup(entries, k, t)
  {
    match Lookup(entries, key, now)
    case Some(v) => Remembered(v, entries, false)
    case None =>
      var v := produce();
      Remembered(v, entries[key := Entry(v, now + ttl)], true)
  }

  /** The cache store, updated in place by `remember`. */
  class CacheStore {
    var entries: map<string, Entry>

    constructor ()
      ensures entries == map[]
    {
      entries := map[];
    }

    method Remember(key: string, ttl: int, now: int, produce: () -> Json) returns (value: Json, ran: bool)
      requires ttl > 0
      modifies this
      ensures RememberOutcome(old(entries), key, ttl, now, produce) == Remembered(value, entries, ran)
    {
      var hit := Lookup(entries, key, now);
      if hit.Some? {
        value, ran := hit.value, false;
      } else {
        value := produce();
        entries := entries[key := Entry(value, now + ttl)];
        ran := true;
      }
    }
  }
}
