/**
 * The server-side cache of `src/actions/tfl.ts`: the file
 * `public/data/tubeStations.json` holding the last raw stop-point document and
 * the time it was written.
 *
 * The file is absent, present but unreadable or unparseable (`Corrupt`), or
 * holds an entry. Reading, parsing, the freshness test and, for stations, the
 * projection of the cached document all sit inside one `try`: any failure
 * there falls through to a fresh fetch call. The write after a fetch call is in
 * its own `try` in the getters, but not in `cacheTubeStations`, where a write
 * error is rethrown. The ghost counter `fetches` counts the calls of
 * `fetchRawTubeStationsFromAPI`, which makes a request only when the key is set.
 *
 * Each operation is specified by a step function on the file before the call.
 */
module TflServer {
  import opened Options
  import opened TflModel
  import opened TflExtract
  import opened TflCache

  /** The cache file as the server finds it. */
  datatype CacheFile = Absent | Corrupt | Present(entry: CacheEntry)

  /** The file after `writeFile` with `{ lastUpdated: now, data: raw }`; a failed write leaves it as it was. */
  function Written(file: CacheFile, now: int, raw: RawDoc, writeOk: bool): CacheFile {
    if writeOk then Present(CacheEntry(Millis(now), Some(raw))) else file
  }

  /** The file exists, parses, and is less than 24 hours old. */
  predicate Fresh(file: CacheFile, now: int) {
    file.Present? && IsCacheValid(file.entry.lastUpdated, now)
  }

  /** `getTubeStations` returns from inside the `try` only when the cached document also projects without throwing. */
  predicate StationsHit(file: CacheFile, now: int) {
    Fresh(file, now) && StationsWellFormed(file.entry.data)
  }

  /** `getTubeStations`: a usable cached document is projected; otherwise fetch, write and project. */
  function StationsStep(file: CacheFile, now: int, fetched: Option<RawDoc>, writeOk: bool)
    : Step<CacheFile, Call<seq<StopPoint>>>
  {
    if StationsHit(file, now) then Step(Returned(ExtractStations(file.entry.data)), file, false)
    else if fetched.None? then Step(Returned([]), file, true)
    else Step(ProjectStations(fetched), Written(file, now, fetched.value, writeOk), true)
  }

  /** `getTubeLines`: the same policy; `extractLines` cannot throw, so freshness alone decides. */
  function LinesStep(file: CacheFile, now: int, fetched: Option<RawDoc>, writeOk: bool)
    : Step<CacheFile, seq<Line>>
  {
    if Fresh(file, now) then Step(LinesOf(file.entry.data), file, false)
    else if fetched.None? then Step([], file, true)
    else Step(LinesOf(fetched), Written(file, now, fetched.value, writeOk), true)
  }

  /**
   * `cacheTubeStations`: always fetches; a null document is an error; a write
   * error is rethrown; after the write the document is projected, which
   * rethrows if it is malformed.
   */
  function CacheStep(file: CacheFile, now: int, fetched: Option<RawDoc>, writeOk: bool)
    : Step<CacheFile, Outcome<CacheError>>
  {
    if fetched.None? then Step(Fail(FetchFailed), file, true)
    else if !writeOk then Step(Fail(WriteFailed), file, true)
    else
      var after := Written(file, now, fetched.value, true);
      if StationsWellFormed(fetched) then Step(Pass, after, true) else Step(Fail(Malformed), after, true)
  }

  /** `getStationById`: `getTubeStations` followed by the search. */
  function StationByIdStep(file: CacheFile, now: int, fetched: Option<RawDoc>, writeOk: bool, id: string)
    : Step<CacheFile, Call<Option<StopPoint>>>
  {
    var s := StationsStep(file, now, fetched, writeOk);
    Step(StationById(s.reply, id), s.store, s.fetched)
  }

  class FileCache {
    /** `public/data/tubeStations.json`. */
    var file: CacheFile
    /** How many times this server has called `fetchRawTubeStationsFromAPI`. */
    ghost var fetches: nat

    constructor (initial: CacheFile)
      ensures file == initial && fetches == 0
    {
      file := initial;
      fetches := 0;
    }

    /** `existsSync`, `readFile` and `JSON.parse`: the entry, or nothing when any of them fails. */
    method ReadCacheFile() returns (c: Option<CacheEntry>)
      ensures c.Some? <==> file.Present?
      ensures c.Some? ==> c.value == file.entry
    {
      c := if file.Present? then Some(file.entry) else None;
    }

    /** `writeFile` with `{ lastUpdated: now, data: raw }`; `writeOk` is whether it succeeds. */
    method WriteCacheFile(raw: RawDoc, now: int, writeOk: bool)
      modifies this
      ensures file == Written(old(file), now, raw, writeOk)
      ensures fetches == old(fetches)
    {
      if writeOk {
        file := Present(CacheEntry(Millis(now), Some(raw)));
      }
    }

    /** `fetchRawTubeStationsFromAPI`: one call, whose outcome is `outcome` (null for a missing key, when no request is made, or for a non-ok response). */
    method FetchRawTubeStations(outcome: Option<RawDoc>) returns (raw: Option<RawDoc>)
      modifies this
      ensures raw == outcome
      ensures file == old(file) && fetches == old(fetches) + 1
    {
      fetches := fetches + 1;
      raw := outcome;
    }

    method GetTubeStations(now: int, fetched: Option<RawDoc>, writeOk: bool) returns (r: Call<seq<StopPoint>>)
      modifies this
      ensures var s := StationsStep(old(file), now, fetched, writeOk);
        r == s.reply && file == s.store && fetches == old(fetches) + (if s.fetched then 1 else 0)
    {
      var cached := ReadCacheFile();
      if cached.Some? && IsCacheValid(cached.value.lastUpdated, now) {
        var projected := ProjectStations(cached.value.data);
        if projected.Returned? {
          return projected;
        }
        // the projection threw inside the `try`: caught, and the fetch call below is made
      }
      var raw := FetchRawTubeStations(fetched);
      if raw.None? {
        return Returned([]);
      }
      WriteCacheFile(raw.value, now, writeOk);
      r := ProjectStations(raw);
    }

    method GetTubeLines(now: int, fetched: Option<RawDoc>, writeOk: bool) returns (r: seq<Line>)
      modifies this
      ensures var s := LinesStep(old(file), now, fetched, writeOk);
        r == s.reply && file == s.store && fetches == old(fetches) + (if s.fetched then 1 else 0)
    {
      var cached := ReadCacheFile();
      if cached.Some? && IsCacheValid(cached.value.lastUpdated, now) {
        r := ExtractLines(cached.value.data);
        return;
      }
      var raw := FetchRawTubeStations(fetched);
      if raw.None? {
        return [];
      }
      WriteCacheFile(raw.value, now, writeOk);
      r := ExtractLines(raw);
    }

    method CacheTubeStations(now: int, fetched: Option<RawDoc>, writeOk: bool) returns (r: Outcome<CacheError>)
      modifies this
      ensures var s := CacheStep(old(file), now, fetched, writeOk);
        r == s.reply && file == s.store && fetches == old(fetches) + 1
    {
      var raw := FetchRawTubeStations(fetched);
      if raw.None? {
        return Fail(FetchFailed);
      }
      if !writeOk {
        return Fail(WriteFailed);
      }
      WriteCacheFile(raw.value, now, true);
      var stations := ProjectStations(raw);
      r := if stations.Threw? then Fail(Malformed) else Pass;
    }

    method GetStationById(now: int, fetched: Option<RawDoc>, writeOk: bool, id: string) returns (r: Call<Option<StopPoint>>)
      modifies this
      ensures var s := StationByIdStep(old(file), now, fetched, writeOk, id);
        r == s.reply && file == s.store && fetches == old(fetches) + (if s.fetched then 1 else 0)
    {
      var stations := GetTubeStations(now, fetched, writeOk);
      r := StationById(stations, id);
    }
  }

  // ---- the cache policy ----

  /** A fresh, well-formed file is used as it is: no fetch call, the file unchanged, its document projected. */
  lemma {:induction false} HitDoesNotFetch(file: CacheFile, now: int, fetched: Option<RawDoc>, writeOk: bool)
    requires StationsHit(file, now)
    ensures StationsStep(file, now, fetched, writeOk) == Step(Returned(ExtractStations(file.entry.data)), file, false)
    ensures LinesStep(file, now, fetched, writeOk) == Step(LinesOf(file.entry.data), file, false)
  {
  }

  /**
   * When the file is missing, corrupt, stale or holds a malformed document,
   * exactly one fetch call is made. A null document gives `[]` and leaves the file
   * alone; otherwise the document is written and projected.
   */
  lemma {:induction false} MissFetchesOnce(file: CacheFile, now: int, fetched: Option<RawDoc>, writeOk: bool)
    requires !StationsHit(file, now)
    ensures var s := StationsStep(file, now, fetched, writeOk);
      && s.fetched
      && (fetched.None? ==> s.reply == Returned([]) && s.store == file)
      && (fetched.Some? ==> s.reply == ProjectStations(fetched))
      && (fetched.Some? && writeOk ==> s.store == Present(CacheEntry(Millis(now), fetched)))
  {
  }

  /** A malformed cached document is caught and replaced by a fetch call: the server never throws on its own file. */
  lemma {:induction false} MalformedCacheRefetches(file: CacheFile, now: int, fetched: Option<RawDoc>, writeOk: bool)
    requires Fresh(file, now) && !StationsWellFormed(file.entry.data)
    ensures StationsStep(file, now, fetched, writeOk).fetched
    ensures StationsStep(file, now, fetched, writeOk).reply.Threw? ==> !StationsWellFormed(fetched)
  {
  }

  /** A corrupt file is treated as a missing one. */
  lemma {:induction false} CorruptLikeAbsent(now: int, fetched: Option<RawDoc>, writeOk: bool)
    ensures StationsStep(Corrupt, now, fetched, writeOk).reply == StationsStep(Absent, now, fetched, writeOk).reply
    ensures StationsStep(Corrupt, now, fetched, writeOk).fetched && StationsStep(Absent, now, fetched, writeOk).fetched
    ensures LinesStep(Corrupt, now, fetched, writeOk).reply == LinesStep(Absent, now, fetched, writeOk).reply
    ensures fetched.Some? && writeOk ==>
      StationsStep(Corrupt, now, fetched, writeOk).store == StationsStep(Absent, now, fetched, writeOk).store
  {
  }

  /** A failed write in the getters leaves the file as it was and does not change the reply. */
  lemma {:induction false} WriteFailureSwallowed(file: CacheFile, now: int, fetched: Option<RawDoc>)
    ensures StationsStep(file, now, fetched, false).reply == StationsStep(file, now, fetched, true).reply
    ensures StationsStep(file, now, fetched, false).store == file
    ensures LinesStep(file, now, fetched, false).reply == LinesStep(file, now, fetched, true).reply
  {
  }

  /**
   * `cacheTubeStations` fails for a null document, for a failed write (the
   * file then unchanged), and for a malformed document (the file already
   * written); it succeeds exactly when the document arrives, is written and projects.
   */
  lemma {:induction false} CacheOutcomes(file: CacheFile, now: int, fetched: Option<RawDoc>, writeOk: bool)
    ensures var c := CacheStep(file, now, fetched, writeOk);
      && c.fetched
      && (c.reply == Fail(FetchFailed) <==> fetched.None?)
      && (c.reply == Fail(WriteFailed) <==> fetched.Some? && !writeOk)
      && (c.reply == Pass <==> fetched.Some? && writeOk && StationsWellFormed(fetched))
      && (fetched.None? || !writeOk ==> c.store == file)
      && (fetched.Some? && writeOk ==> c.store == Present(CacheEntry(Millis(now), fetched)))
  {
  }

  /**
   * After a call that fetched and wrote a document, a second call less than 24
   * hours later makes no fetch call and gives the same stations, provided the
   * document projects.
   */
  lemma {:induction false} SecondCallWithinADayHits(file: CacheFile, now: int, raw: RawDoc,
                                                    later: int, fetched: Option<RawDoc>, writeOk: bool)
    requires !StationsHit(file, now) && StationsWellFormed(Some(raw))
    requires later < now + CacheDurationMs
    ensures var first := StationsStep(file, now, Some(raw), true);
      var second := StationsStep(first.store, later, fetched, writeOk);
      !second.fetched && second.store == first.store && second.reply == first.reply
  {
    FreshForADay(now, later);
  }

  /** Refreshing the file and then reading within 24 hours: the read makes no fetch call and projects the refreshed document. */
  lemma {:induction false} RefreshThenRead(file: CacheFile, now: int, raw: RawDoc,
                                           later: int, fetched: Option<RawDoc>, writeOk: bool)
    requires CacheStep(file, now, Some(raw), true).reply == Pass
    requires later < now + CacheDurationMs
    ensures var s := StationsStep(CacheStep(file, now, Some(raw), true).store, later, fetched, writeOk);
      !s.fetched && s.reply == Returned(ExtractStations(Some(raw)))
    ensures var l := LinesStep(CacheStep(file, now, Some(raw), true).store, later, fetched, writeOk);
      !l.fetched && l.reply == LinesOf(Some(raw))
  {
    FreshForADay(now, later);
  }

  /** `getStationById` throws exactly when `getTubeStations` does, and otherwise searches its stations. */
  lemma {:induction false} StationByIdSpec(file: CacheFile, now: int, fetched: Option<RawDoc>, writeOk: bool, id: string)
    ensures var s, b := StationsStep(file, now, fetched, writeOk), StationByIdStep(file, now, fetched, writeOk, id);
      && (b.reply.Threw? <==> s.reply.Threw?)
      && (s.reply.Returned? ==> b.reply == Returned(FindById(s.reply.value, id)))
      && b.store == s.store && b.fetched == s.fetched
  {
  }
}
