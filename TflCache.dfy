/**
 * What the browser cache and the file cache share: the stored entry, the
 * 24-hour freshness rule, the projection of a stored or fetched document to
 * stations (which can throw), and `getStationById`'s search.
 *
 * Time is an integer number of milliseconds since the epoch. A stored
 * `lastUpdated` string either parses to such a number or it does not, in which
 * case `new Date(...)` is an invalid date and every comparison with it is false.
 */
module TflCache {
  import opened Options
  import opened TflModel
  import opened TflExtract

  /** Twenty-four hours, in milliseconds. */
  const CacheDurationMs: int := 24 * 60 * 60 * 1000

  /** A parsed `lastUpdated` value. */
  datatype Timestamp = Millis(ms: int) | Unparseable

  /** The stored `{ lastUpdated, data }` record; `data` is the raw stop-point document, or null. */
  datatype CacheEntry = CacheEntry(lastUpdated: Timestamp, data: Option<RawDoc>)

  /** What one call of a cache operation leaves behind: its reply, the store afterwards, and whether it fetched. */
  datatype Step<S, T> = Step(reply: T, store: S, fetched: bool)

  /** How `cacheTubeStations` can fail. */
  datatype CacheError = FetchFailed | WriteFailed | Malformed

  /**
   * `isCacheValid`, with the code's floating-point hour count: the hours since
   * the update are fewer than 24. An unparseable timestamp gives NaN, and
   * `NaN < 24` is false.
   */
  predicate IsCacheValid(lastUpdated: Timestamp, now: int) {
    match lastUpdated
    case Unparseable => false
    case Millis(t) => (now - t) as real / (1000.0 * 60.0 * 60.0) < 24.0
  }

  /** Freshness in whole milliseconds: valid exactly when less than 24 hours have passed. */
  lemma {:induction false} IsCacheValidMillis(lastUpdated: Timestamp, now: int)
    ensures IsCacheValid(lastUpdated, now) <==> lastUpdated.Millis? && now - lastUpdated.ms < CacheDurationMs
  {
    if lastUpdated.Millis? {
      var d := (now - lastUpdated.ms) as real;
      assert d / 3600000.0 < 24.0 <==> d < 86400000.0;
    }
  }

  /** A timestamp in the future still counts as fresh, and so does one at `now`. */
  lemma {:induction false} FutureTimestampIsValid(t: int, now: int)
    requires t >= now
    ensures IsCacheValid(Millis(t), now)
  {
    IsCacheValidMillis(Millis(t), now);
  }

  /** An entry written at `now` stays fresh for exactly 24 hours. */
  lemma {:induction false} FreshForADay(written: int, now: int)
    ensures IsCacheValid(Millis(written), now) <==> now < written + CacheDurationMs
  {
    IsCacheValidMillis(Millis(written), now);
  }

  /** `extractStation` as a call: reading `lineModeGroups.find` on a stop without it throws. */
  function ExtractStationCall(stop: RawStop): (r: Call<StopPoint>)
    ensures r.Threw? <==> stop.lineModeGroups.None?
  {
    if stop.lineModeGroups.None? then Threw else Returned(StationOf(stop))
  }

  /** Every stop has `lineModeGroups` exactly when the first does and every later one does. */
  lemma {:induction false} AllHaveModeGroupsCons(ms: seq<RawStop>)
    requires ms != []
    ensures AllHaveModeGroups(ms) <==> ms[0].lineModeGroups.Some? && AllHaveModeGroups(ms[1..])
  {
    if ms[0].lineModeGroups.Some? && AllHaveModeGroups(ms[1..]) {
      forall k | 0 <= k < |ms| ensures ms[k].lineModeGroups.Some? {
        if k > 0 {
          assert ms[k] == ms[1..][k - 1];
        }
      }
    }
  }

  /** `stations.map(extractStation)`: the first station that throws aborts the whole map. */
  function MapStations(ms: seq<RawStop>): (r: Call<seq<StopPoint>>)
    ensures r.Threw? <==> !AllHaveModeGroups(ms)
    ensures r.Returned? ==> |r.value| == |ms| && forall k :: 0 <= k < |ms| ==> r.value[k] == ExtractStationCall(ms[k]).value
  {
    if ms == [] then Returned([])
    else
      AllHaveModeGroupsCons(ms);
      match ExtractStationCall(ms[0])
      case Threw => Threw
      case Returned(st) =>
        match MapStations(ms[1..])
        case Threw => Threw
        case Returned(rest) =>
          assert forall k :: 0 < k < |ms| ==> ms[1..][k - 1] == ms[k];
          Returned([st] + rest)
  }

  /**
   * `extractStations` on a stored or fetched document: nothing for a missing
   * document or `stopPoints`, otherwise the map over the metro stations. It
   * throws exactly when a metro station lacks `lineModeGroups`, and otherwise
   * returns `ExtractStations`.
   */
  function ProjectStations(doc: Option<RawDoc>): (r: Call<seq<StopPoint>>)
    ensures r.Threw? <==> !StationsWellFormed(doc)
    ensures r.Returned? ==> r.value == ExtractStations(doc)
  {
    if doc.None? || doc.value.stopPoints.None? then Returned([])
    else
      var ms := MetroStations(doc.value.stopPoints.value);
      var r := MapStations(ms);
      assert r.Returned? ==> r.value == StationsOf(ms);
      r
  }

  /** `stations.find(station => station.id === id) || null`. */
  function FindById(stations: seq<StopPoint>, id: string): (r: Option<StopPoint>)
    ensures r.Some? ==> r.value in stations && r.value.id == id
  {
    if stations == [] then None
    else if stations[0].id == id then Some(stations[0])
    else FindById(stations[1..], id)
  }

  /** The search finds nothing exactly when no station has the id, and otherwise the first one that does. */
  lemma {:induction false} FindByIdSpec(stations: seq<StopPoint>, id: string)
    ensures FindById(stations, id).None? <==> forall k :: 0 <= k < |stations| ==> stations[k].id != id
    ensures FindById(stations, id).Some? ==>
      exists k :: 0 <= k < |stations| && stations[k] == FindById(stations, id).value &&
        forall j :: 0 <= j < k ==> stations[j].id != id
  {
    if stations != [] && stations[0].id != id {
      var rest := stations[1..];
      FindByIdSpec(rest, id);
      if FindById(rest, id).Some? {
        var k :| 0 <= k < |rest| && rest[k] == FindById(rest, id).value &&
          forall j :: 0 <= j < k ==> rest[j].id != id;
        assert stations[k + 1] == rest[k];
        forall j | 0 <= j < k + 1 ensures stations[j].id != id {
          if j > 0 {
            assert stations[j] == rest[j - 1];
          }
        }
      } else {
        forall k | 0 <= k < |stations| ensures stations[k].id != id {
          if k > 0 {
            assert stations[k] == rest[k - 1];
          }
        }
      }
    } else if stations != [] {
      assert stations[0] == FindById(stations, id).value;
    }
  }

  /** `getStationById` given how its `getTubeStations` call ended: an error passes through. */
  function StationById(stations: Call<seq<StopPoint>>, id: string): Call<Option<StopPoint>> {
    match stations
    case Threw => Threw
    case Returned(ss) => Returned(FindById(ss, id))
  }
}
