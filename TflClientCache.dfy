/**
 * The browser-side cache of `src/lib/tfl-client.ts`: one localStorage slot
 * holding the last raw stop-point document and the time it was stored.
 *
 * A slot that is empty and a slot whose text does not parse read the same
 * (`getCachedData` returns null for both), so the store is an
 * `Option<CacheEntry>`. A failed `setItem` is caught and logged, which leaves
 * the slot as it was. The fetch outcome and whether the write succeeds are
 * parameters; the ghost counter `fetches` counts the calls of
 * `fetchRawTubeStationsFromAPI`, which makes a request only when the key is set.
 *
 * Each operation is specified by a step function on the store before the call.
 */
module TflClient {
  import opened Options
  import opened TflModel
  import opened TflExtract
  import opened TflCache

  /** The slot after `setCachedData(raw)` at time `now`. */
  function Written(store: Option<CacheEntry>, now: int, raw: RawDoc, writeOk: bool): Option<CacheEntry> {
    if writeOk then Some(CacheEntry(Millis(now), Some(raw))) else store
  }

  /** `cacheData && isCacheValid(cacheData)`. */
  predicate Hit(store: Option<CacheEntry>, now: int) {
    store.Some? && IsCacheValid(store.value.lastUpdated, now)
  }

  /** `getTubeStations`: a fresh entry is projected without fetching; otherwise fetch, store and project. */
  function StationsStep(store: Option<CacheEntry>, now: int, fetched: Option<RawDoc>, writeOk: bool)
    : Step<Option<CacheEntry>, Call<seq<StopPoint>>>
  {
    if Hit(store, now) then Step(ProjectStations(store.value.data), store, false)
    else if fetched.None? then Step(Returned([]), store, true)
    else Step(ProjectStations(fetched), Written(store, now, fetched.value, writeOk), true)
  }

  /** `getTubeLines`: the same cache policy with `extractLines`, which cannot throw. */
  function LinesStep(store: Option<CacheEntry>, now: int, fetched: Option<RawDoc>, writeOk: bool)
    : Step<Option<CacheEntry>, seq<Line>>
  {
    if Hit(store, now) then Step(LinesOf(store.value.data), store, false)
    else if fetched.None? then Step([], store, true)
    else Step(LinesOf(fetched), Written(store, now, fetched.value, writeOk), true)
  }

  /**
   * `cacheTubeStations`: always fetches; a null document is an error; the write
   * is attempted and its failure swallowed; then the document is projected,
   * which rethrows if it is malformed.
   */
  function CacheStep(store: Option<CacheEntry>, now: int, fetched: Option<RawDoc>, writeOk: bool)
    : Step<Option<CacheEntry>, Outcome<CacheError>>
  {
    if fetched.None? then Step(Fail(FetchFailed), store, true)
    else
      var after := Written(store, now, fetched.value, writeOk);
      if StationsWellFormed(fetched) then Step(Pass, after, true) else Step(Fail(Malformed), after, true)
  }

  /** `getStationById`: `getTubeStations` followed by the search. */
  function StationByIdStep(store: Option<CacheEntry>, now: int, fetched: Option<RawDoc>, writeOk: bool, id: string)
    : Step<Option<CacheEntry>, Call<Option<StopPoint>>>
  {
    var s := StationsStep(store, now, fetched, writeOk);
    Step(StationById(s.reply, id), s.store, s.fetched)
  }

  class LocalStorageCache {
    /** The `tubeStationsCache` slot, as `getCachedData` reads it. */
    var entry: Option<CacheEntry>
    /** How many times this cache has called `fetchRawTubeStationsFromAPI`. */
    ghost var fetches: nat

    constructor (initial: Option<CacheEntry>)
      ensures entry == initial && fetches == 0
    {
      entry := initial;
      fetches := 0;
    }

    /** `getCachedData`: the slot as parsed, or null. */
    method GetCachedData() returns (c: Option<CacheEntry>)
      ensures c == entry
    {
      c := entry;
    }

    /** `setCachedData`: overwrite the slot with `{ now, raw }`; a failed write changes nothing. */
    method SetCachedData(raw: RawDoc, now: int, writeOk: bool)
      modifies this
      ensures entry == Written(old(entry), now, raw, writeOk)
      ensures fetches == old(fetches)
    {
      if writeOk {
        entry := Some(CacheEntry(Millis(now), Some(raw)));
      }
    }

    /** `fetchRawTubeStationsFromAPI`: one call, whose outcome is `outcome` (null for a missing key, when no request is made, or for a non-ok response). */
    method FetchRawTubeStations(outcome: Option<RawDoc>) returns (raw: Option<RawDoc>)
      modifies this
      ensures raw == outcome
      ensures entry == old(entry) && fetches == old(fetches) + 1
    {
      fetches := fetches + 1;
      raw := outcome;
    }

    method GetTubeStations(now: int, fetched: Option<RawDoc>, writeOk: bool) returns (r: Call<seq<StopPoint>>)
      modifies this
      ensures var s := StationsStep(old(entry), now, fetched, writeOk);
        r == s.reply && entry == s.store && fetches == old(fetches) + (if s.fetched then 1 else 0)
    {
      var cached := GetCachedData();
      if cached.Some? && IsCacheValid(cached.value.lastUpdated, now) {
        return ProjectStations(cached.value.data);
      }
      var raw := FetchRawTubeStations(fetched);
      if raw.None? {
        return Returned([]);
      }
      SetCachedData(raw.value, now, writeOk);
      r := ProjectStations(raw);
    }

    method GetTubeLines(now: int, fetched: Option<RawDoc>, writeOk: bool) returns (r: seq<Line>)
      modifies this
      ensures var s := LinesStep(old(entry), now, fetched, writeOk);
        r == s.reply && entry == s.store && fetches == old(fetches) + (if s.fetched then 1 else 0)
    {
      var cached := GetCachedData();
      if cached.Some? && IsCacheValid(cached.value.lastUpdated, now) {
        r := ExtractLines(cached.value.data);
        return;
      }
      var raw := FetchRawTubeStations(fetched);
      if raw.None? {
        return [];
      }
      SetCachedData(raw.value, now, writeOk);
      r := ExtractLines(raw);
    }

    method CacheTubeStations(now: int, fetched: Option<RawDoc>, writeOk: bool) returns (r: Outcome<CacheError>)
      modifies this
      ensures var s := CacheStep(old(entry), now, fetched, writeOk);
        r == s.reply && entry == s.store && fetches == old(fetches) + 1
    {
      var raw := FetchRawTubeStations(fetched);
      if raw.None? {
        return Fail(FetchFailed);
      }
      SetCachedData(raw.value, now, writeOk);
      var stations := ProjectStations(raw);
      r := if stations.Threw? then Fail(Malformed) else Pass;
    }

    method GetStationById(now: int, fetched: Option<RawDoc>, writeOk: bool, id: string) returns (r: Call<Option<StopPoint>>)
      modifies this
      ensures var s := StationByIdStep(old(entry), now, fetched, writeOk, id);
        r == s.reply && entry == s.store && fetches == old(fetches) + (if s.fetched then 1 else 0)
    {
      var stations := GetTubeStations(now, fetched, writeOk);
      r := StationById(stations, id);
    }
  }

  // ---- the cache policy ----

  /** A fresh entry is used as it is: no fetch call, no write, its document projected. */
  lemma {:induction false} HitDoesNotFetch(store: Option<CacheEntry>, now: int, fetched: Option<RawDoc>, writeOk: bool)
    requires Hit(store, now)
    ensures var s := StationsStep(store, now, fetched, writeOk);
      !s.fetched && s.store == store && s.reply == ProjectStations(store.value.data)
    ensures var l := LinesStep(store, now, fetched, writeOk);
      !l.fetched && l.store == store && l.reply == LinesOf(store.value.data)
  {
  }

  /**
   * Without a fresh entry exactly one fetch call is made. A null document gives
   * `[]` and leaves the slot alone; a document is stored and projected.
   */
  lemma {:induction false} MissFetchesOnce(store: Option<CacheEntry>, now: int, fetched: Option<RawDoc>, writeOk: bool)
    requires !Hit(store, now)
    ensures var s := StationsStep(store, now, fetched, writeOk);
      && s.fetched
      && (fetched.None? ==> s.reply == Returned([]) && s.store == store)
      && (fetched.Some? ==> s.reply == ProjectStations(fetched))
      && (fetched.Some? && writeOk ==> s.store == Some(CacheEntry(Millis(now), fetched)))
  {
  }

  /** A stale or missing entry never reaches the reply: any two such stores answer alike. */
  lemma {:induction false} StaleEntryUnused(a: Option<CacheEntry>, b: Option<CacheEntry>, now: int, fetched: Option<RawDoc>, writeOk: bool)
    requires !Hit(a, now) && !Hit(b, now)
    ensures StationsStep(a, now, fetched, writeOk).reply == StationsStep(b, now, fetched, writeOk).reply
    ensures LinesStep(a, now, fetched, writeOk).reply == LinesStep(b, now, fetched, writeOk).reply
  {
  }

  /**
   * After a call that fetched a document and stored it, a second call less than
   * 24 hours later makes no fetch call and gives the same stations.
   */
  lemma {:induction false} SecondCallWithinADayHits(store: Option<CacheEntry>, now: int, raw: RawDoc,
                                                    later: int, fetched: Option<RawDoc>, writeOk: bool)
    requires !Hit(store, now)
    requires later < now + CacheDurationMs
    ensures var first := StationsStep(store, now, Some(raw), true);
      var second := StationsStep(first.store, later, fetched, writeOk);
      !second.fetched && second.store == first.store && second.reply == first.reply
  {
    FreshForADay(now, later);
  }

  /** The browser projects a fresh cached document without a guard: a malformed one makes the call throw. */
  lemma {:induction false} MalformedCacheThrows(store: Option<CacheEntry>, now: int, fetched: Option<RawDoc>, writeOk: bool)
    requires Hit(store, now) && !StationsWellFormed(store.value.data)
    ensures StationsStep(store, now, fetched, writeOk) == Step(Threw, store, false)
  {
  }

  /** A failed write changes only the slot, never the reply. */
  lemma {:induction false} WriteFailureSwallowed(store: Option<CacheEntry>, now: int, fetched: Option<RawDoc>)
    ensures StationsStep(store, now, fetched, false).reply == StationsStep(store, now, fetched, true).reply
    ensures StationsStep(store, now, fetched, false).store == store
    ensures LinesStep(store, now, fetched, false).reply == LinesStep(store, now, fetched, true).reply
    ensures CacheStep(store, now, fetched, false).reply == CacheStep(store, now, fetched, true).reply
  {
  }

  /** Stations and lines follow one cache policy: the same fetch calls and the same slot afterwards. */
  lemma {:induction false} LinesFollowStationsPolicy(store: Option<CacheEntry>, now: int, fetched: Option<RawDoc>, writeOk: bool)
    ensures LinesStep(store, now, fetched, writeOk).store == StationsStep(store, now, fetched, writeOk).store
    ensures LinesStep(store, now, fetched, writeOk).fetched == StationsStep(store, now, fetched, writeOk).fetched
  {
  }

  /**
   * `cacheTubeStations` fails exactly for a null document or a malformed one,
   * never because of the write; whenever a document arrives it is stored (if
   * the write succeeds), even when projecting it then throws.
   */
  lemma {:induction false} CacheOutcomes(store: Option<CacheEntry>, now: int, fetched: Option<RawDoc>, writeOk: bool)
    ensures var c := CacheStep(store, now, fetched, writeOk);
      && c.fetched
      && (c.reply == Fail(FetchFailed) <==> fetched.None?)
      && c.reply != Fail(WriteFailed)
      && (c.reply == Pass <==> fetched.Some? && StationsWellFormed(fetched))
      && (fetched.None? ==> c.store == store)
      && (fetched.Some? ==> c.store == Written(store, now, fetched.value, writeOk))
  {
  }

  /** Refreshing and then reading within 24 hours: the read makes no fetch call and projects the refreshed document. */
  lemma {:induction false} RefreshThenRead(store: Option<CacheEntry>, now: int, raw: RawDoc,
                                           later: int, fetched: Option<RawDoc>, writeOk: bool)
    requires CacheStep(store, now, Some(raw), true).reply == Pass
    requires later < now + CacheDurationMs
    ensures var s := StationsStep(CacheStep(store, now, Some(raw), true).store, later, fetched, writeOk);
      !s.fetched && s.reply == Returned(ExtractStations(Some(raw)))
  {
    FreshForADay(now, later);
  }

  /** `getStationById` throws exactly when `getTubeStations` does, and otherwise searches its stations. */
  lemma {:induction false} StationByIdSpec(store: Option<CacheEntry>, now: int, fetched: Option<RawDoc>, writeOk: bool, id: string)
    ensures var s, b := StationsStep(store, now, fetched, writeOk), StationByIdStep(store, now, fetched, writeOk, id);
      && (b.reply.Threw? <==> s.reply.Threw?)
      && (s.reply.Returned? ==> b.reply == Returned(FindById(s.reply.value, id)))
      && b.store == s.store && b.fetched == s.fetched
  {
  }
}
