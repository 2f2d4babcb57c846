# Tube board transit-data pipeline, in Dafny

This project models the transit-data core of a London Underground departure board. The board is a Next.js/Tauri app. It fetches the transport-for-London stop-point document for mode "tube" and turns it into stations and lines, keeping the raw document in a single-entry cache that goes stale after 24 hours. For the chosen station it fetches the arrival predictions, filters them by platform, sorts them by time to station and keeps the first few.

The pipeline exists twice, almost line for line:

- `src/lib/tfl-client.ts` runs in the browser and caches in one localStorage slot.
- `src/actions/tfl.ts` runs on the server and caches in the file `public/data/tubeStations.json`.

The extraction functions are identical in the two files, so they are modelled once (`TflExtract`, `TflArrivals`). Each row of the table below that cites `tfl-client.ts` for extraction also covers the matching lines of `tfl.ts`:

- `extractStation`: tfl.ts:22-45
- `extractStations`: tfl.ts:47-54
- `extractLines`: tfl.ts:120-146
- `extractArrival(s)`: tfl.ts:190-208
- `getArrivalsForStation`: tfl.ts:210-231

The two caches differ, so each has its own module: `TflClient` for the browser and `TflServer` for the server. The board page and the station picker contribute small integer and list rules (`BoardPage`, `StationConfig`).

## Modules

- `Options`: `Option` (JavaScript's null/undefined) and `Outcome` (completes, or throws an error).
- `Seqs`: `Array.prototype.filter`, `slice(0, n)`, `some`, and a flat-map, with their algebra.
- `Text`: `endsWith`, `trim` over the ECMAScript whitespace set, the `/ Underground Station$/` replacement, and decimal rendering of integers (proved against a parser).
- `TflModel`: the raw stop-point and arrivals documents (a field the code checks for presence is an `Option`), the output shapes `Line`, `StopPoint`, `Arrival`, and `Call<T>` (a promise that resolves or rejects).
- `TflExtract` / `TflExtractLemmas` cover the extraction engine:
  - the per-station and global line lists are one accumulator, `Dedup`, run by the `push`-in-`forEach` loops `PushTubeLines` and `ExtractLines`;
  - `StationOf` builds a station;
  - `ExtractStations` maps the metro stations.
- `TflArrivals`: `extractArrival(s)` and the arrivals query.
  - The platform filter, a stable insertion sort done in place on an array (`SortByTimeInPlace`, specified by the function `SortByTime`), and the limit.
- `TflCache`: the stored entry, `isCacheValid` (with the code's floating-point hour count), `extractStations` as a call that can throw, and `getStationById`'s search.
- `TflClient`: the class `LocalStorageCache` over `entry: Option<CacheEntry>`. A parse failure reads as an empty slot.
- `TflServer`: the class `FileCache` over `file: Absent | Corrupt | Present(entry)`.
- `BoardPage`: the birthday countdown, its texts, the arrival minute label, the platform button and the banner, refetch and fireworks tests of `src/app/page.tsx`.
- `StationConfig`: line toggling, station selection and confirmation, and the station filter of `src/app/config/station/page.tsx`.

Both cache classes are specified the same way. Each method's `ensures` equals its reply, its new store and its fetch count to a step function of the store before the call (`StationsStep`, `LinesStep`, `CacheStep`, `StationByIdStep`). The cache policy is then proved as lemmas about those step functions. The fetch outcome (`Option<RawDoc>`, null meaning a missing key or a non-ok response), whether the write succeeds, and `now` in milliseconds are parameters of every operation. A ghost counter `fetches` counts the calls of `fetchRawTubeStationsFromAPI` ("fetch calls" below). A fetch call makes a network request only when the application key is set; without it the function returns null at once.

## Model

| member | source | states |
|---|---|---|
| TflExtract.FindTubeGroup | src/lib/tfl-client.ts:64 | `lineModeGroups.find(g => g.modeName === 'tube')`: none exactly when no group is "tube"; otherwise the first such group |
| TflExtractLemmas.TubeLineIdsFirstGroup | src/lib/tfl-client.ts:64-66 | the admitted ids are the `lineIdentifier` of the first "tube" group |
| TflExtract.PushTubeLines | src/lib/tfl-client.ts:68-76 | the guarded push loop appends exactly `Dedup` of the admitted raw lines to an accumulator built from earlier candidates |
| TflExtract.ExtractStation | src/lib/tfl-client.ts:63-86 | the imperative `extractStation` builds `StationOf(stop)`; it requires `lineModeGroups`, which line 64 reads unguarded |
| TflExtract.StationLines | src/lib/tfl-client.ts:64-78 | one stop's line list, the admitted lines of the stop de-duplicated in first-seen order; its properties are those of `StationLinesSpec` |
| TflExtract.StationOf | src/lib/tfl-client.ts:63-86 | the station built from a stop: its id, cleaned name, line list and platform count; it requires `lineModeGroups` as line 64 reads it unguarded |
| TflExtractLemmas.StationLinesSpec | src/lib/tfl-client.ts:64-78 | the line list is empty without a tube group, `lineIdentifier` or `lines`. Otherwise its ids are exactly the admitted ids occurring in `lines`, with no duplicates; each entry is the first raw line with its id, in first-occurrence order |
| TflExtract.DedupIds | src/lib/tfl-client.ts:69-75 | the de-duplicating accumulator has no duplicate ids, and an id is present exactly when some candidate has it |
| TflExtract.DedupFirstSeen | src/lib/tfl-client.ts:69-75 | each entry is the first candidate with its id, and entries are ordered by first occurrence |
| TflExtract.DedupSnoc | src/lib/tfl-client.ts:69-75 | one step of the loop: a candidate is appended exactly when its id is not yet present |
| Text.CleanStationName | src/lib/tfl-client.ts:82 | `commonName.replace(/ Underground Station$/, '').trim()`; characterised by `CleanStationNameSpec` |
| Text.CleanStationNameSpec | src/lib/tfl-client.ts:82 | one trailing " Underground Station" is removed, then the result is trimmed; the result has no edge whitespace |
| Text.CleanStationNameOxfordCircus | src/lib/tfl-client.ts:82 | "Oxford Circus Underground Station" becomes "Oxford Circus" |
| Text.CleanStationNameBank | src/lib/tfl-client.ts:82 | "Bank" stays "Bank" |
| Text.StripRemovesOneSuffix | src/lib/tfl-client.ts:82 | the `$`-anchored replace removes only one copy of the suffix |
| Text.TrimIsSlice | src/lib/tfl-client.ts:82 | `trim` returns a slice with no whitespace at either edge, having removed only whitespace |
| Text.TrimIdempotent | src/lib/tfl-client.ts:82 | trimming twice is trimming once |
| TflExtract.PlatformCount | src/lib/tfl-client.ts:79 | the count of children of type "NaptanMetroPlatform", 0 without `children`; characterised by `PlatformCountSpec` |
| TflExtractLemmas.PlatformCountSpec | src/lib/tfl-client.ts:79 | `platformCount` is 0 without `children`; otherwise it is the number of children of type "NaptanMetroPlatform" (their multiplicity), and it adds up over concatenation |
| TflExtract.ExtractStations | src/lib/tfl-client.ts:88-95 | `extractStations` on a document whose metro stations all carry `lineModeGroups`; characterised by `ExtractStationsSpec` |
| TflExtractLemmas.ExtractStationsSpec | src/lib/tfl-client.ts:88-95 | `[]` for a null document or missing `stopPoints`; otherwise one station per "NaptanMetroStation" stop, the k-th from the k-th such stop, and every such stop represented |
| TflExtract.ExtractLines | src/lib/tfl-client.ts:135-161 | the station-by-station loop computes `LinesOf(doc)`; a station without `lineModeGroups` is skipped, not faulted on |
| TflExtract.LinesOf | src/lib/tfl-client.ts:135-161 | the line list `extractLines` accumulates, as a function of the document; `ExtractLines` is proved to compute it and `LinesOfSpec` characterises it |
| TflExtractLemmas.LinesOfSpec | src/lib/tfl-client.ts:135-161 | `[]` for a null document or missing `stopPoints`. No duplicate ids; the id set is the union of the stations' tube line ids. Ordered by first contributing station: a line after another never has an earlier first contributor |
| TflExtractLemmas.LinesAgreeWithStations | src/lib/tfl-client.ts:135-161 | the global line ids of `extractLines` are exactly the ids appearing in the line lists of the stations `extractStations` (lines 88-95) builds |
| TflArrivals.ToArrival | src/lib/tfl-client.ts:185-196 | `extractArrival` copies id, line id and name, direction, towards and `timeToStation` |
| TflArrivals.ExtractArrivals | src/lib/tfl-client.ts:198-203 | `Array.isArray(data) ? data.map(extractArrival) : []`; characterised by `ExtractArrivalsSpec` |
| TflArrivals.ExtractArrivalsSpec | src/lib/tfl-client.ts:198-203 | `[]` for a non-array body; otherwise a map that keeps length and order |
| TflArrivals.InsertInPlace | src/lib/tfl-client.ts:220 | one insertion step of the sort on the array: the first i+1 cells become `InsertByTime` of the sorted prefix, later cells unchanged |
| TflArrivals.SortByTimeInPlace | src/lib/tfl-client.ts:220 | `arrivals.sort(...)` in place: the array becomes `SortByTime` of its old contents |
| TflArrivals.SortByTimeSorted | src/lib/tfl-client.ts:220 | the sort's result is ascending by `timeToStation` |
| TflArrivals.SortByTimePermutes | src/lib/tfl-client.ts:220 | the sort's result is a permutation of its input |
| TflArrivals.SortByTimeStable | src/lib/tfl-client.ts:220 | arrivals at equal `timeToStation` keep their order (the sort is stable) |
| TflArrivals.RawQuery | src/lib/tfl-client.ts:216-223 | the raw arrivals kept: platform filter, stable sort by `timeToStation`, then the first `limit` when `limit > 0`; characterised by the `RawQuery*` lemmas |
| TflArrivals.ArrivalsQuery | src/lib/tfl-client.ts:216-225 | the query's result, `RawQuery` projected by `extractArrival`; `ArrivalsQuerySorted` states its order |
| TflArrivals.ArrivalsReply | src/lib/tfl-client.ts:205-226 | the reply after the key check and the request; `ArrivalsReplyCases` states its cases and `GetArrivalsForStation` is proved to return it |
| TflArrivals.GetArrivalsForStation | src/lib/tfl-client.ts:205-226 | the imperative query (filter, in-place sort, slice, map) returns `ArrivalsReply`: null without a key, `[]` for a non-ok response, an error for a non-array body, else the query |
| TflArrivals.ArrivalsReplyCases | src/lib/tfl-client.ts:206-215 | null exactly without a key; an error exactly for a non-array body; `[]` for a non-ok response |
| TflArrivals.ByPlatformMembership | src/lib/tfl-client.ts:217-219 | an arrival passes the platform filter exactly when it is in the response and, for platform > 0, its `platformName` ends with "Platform n" |
| TflArrivals.PlatformFiltersDisjoint | src/lib/tfl-client.ts:218 | no platform name passes the filters of two different platforms |
| TflArrivals.ArrivalsQuerySorted | src/lib/tfl-client.ts:216-225 | the query's output is ascending by `timeToStation` |
| TflArrivals.RawQueryPlatform | src/lib/tfl-client.ts:216-223 | every kept arrival is from the response and, for platform > 0, ends with "Platform n" |
| TflArrivals.RawQueryLength | src/lib/tfl-client.ts:216-223 | the length is min(limit, #matches) for limit > 0, else #matches |
| TflArrivals.RawQueryPermutes | src/lib/tfl-client.ts:216-223 | without a limit the query is a permutation of the matches |
| TflArrivals.RawQueryKeepsEarliest | src/lib/tfl-client.ts:220-223 | the limit keeps the earliest: a match strictly earlier than a kept arrival is kept |
| TflArrivals.RawQueryStable | src/lib/tfl-client.ts:216-223 | without a limit, arrivals at the same time keep their response order |
| TflCache.IsCacheValid | src/lib/tfl-client.ts:41-46 | `isCacheValid` with its floating-point hour count, and false for an unparseable timestamp; `IsCacheValidMillis` characterises it |
| TflCache.IsCacheValidMillis | src/lib/tfl-client.ts:41-46 | the floating-point hour test holds exactly when the timestamp parses and less than 86 400 000 ms have passed |
| TflCache.FutureTimestampIsValid | src/lib/tfl-client.ts:41-46 | a timestamp at or after `now` counts as fresh |
| TflCache.FreshForADay | src/actions/tfl.ts:65-69 | an entry written at t is fresh exactly before t + 24 h |
| TflCache.ExtractStationCall | src/lib/tfl-client.ts:63-86 | `extractStation` as a call: it throws exactly when the stop has no `lineModeGroups` |
| TflCache.MapStations | src/lib/tfl-client.ts:94 | `stations.map(extractStation)`: throws exactly when some station lacks `lineModeGroups`, else the stations built one by one |
| TflCache.ProjectStations | src/lib/tfl-client.ts:92-94 | `extractStations` throws exactly when a metro station lacks `lineModeGroups`, and otherwise returns `ExtractStations` |
| TflCache.FindByIdSpec | src/lib/tfl-client.ts:228-231 | the search gives null exactly when no station has the id, and otherwise the first station that has it |
| TflClient.StationsStep | src/lib/tfl-client.ts:97-117 | what `getTubeStations` does to the slot: a fresh entry is projected with no fetch call, otherwise one fetch call whose document is stored and projected; the `TflClient` lemmas characterise it |
| TflClient.LinesStep | src/lib/tfl-client.ts:163-183 | what `getTubeLines` does: the same slot and fetch calls as `StationsStep`, with `LinesOf` as the reply |
| TflClient.CacheStep | src/lib/tfl-client.ts:119-133 | what `cacheTubeStations` does: one fetch call, a failure for a null document, otherwise a write and then a projection that may throw |
| TflClient.StationByIdStep | src/lib/tfl-client.ts:228-231 | what `getStationById` does: `StationsStep` followed by the search |
| TflClient.LocalStorageCache.FetchRawTubeStations | src/lib/tfl-client.ts:48-61 | one call of `fetchRawTubeStationsFromAPI`: the raw document, or null for a missing key (no request made) or a non-ok response; the fetch-call count goes up by one |
| TflClient.LocalStorageCache.GetCachedData | src/lib/tfl-client.ts:14-24 | reads the slot; a missing or unparseable slot reads as null |
| TflClient.LocalStorageCache.SetCachedData | src/lib/tfl-client.ts:26-39 | overwrites the slot with `{now, raw}`; a failed `setItem` is swallowed and leaves the slot as it was |
| TflClient.LocalStorageCache.GetTubeStations | src/lib/tfl-client.ts:97-117 | reply, slot and fetch-call count are those of `StationsStep` |
| TflClient.LocalStorageCache.GetTubeLines | src/lib/tfl-client.ts:163-183 | reply, slot and fetch-call count are those of `LinesStep`, with the imperative `ExtractLines` |
| TflClient.LocalStorageCache.CacheTubeStations | src/lib/tfl-client.ts:119-133 | outcome and slot are those of `CacheStep`; exactly one fetch call |
| TflClient.LocalStorageCache.GetStationById | src/lib/tfl-client.ts:228-231 | `getTubeStations` followed by the search |
| TflClient.HitDoesNotFetch | src/lib/tfl-client.ts:99-104 | a fresh entry makes no fetch call, leaves the slot unchanged and projects the cached document (the same holds for lines, at lines 165-170) |
| TflClient.MissFetchesOnce | src/lib/tfl-client.ts:106-116 | otherwise one fetch call. A null result gives `[]` and leaves the slot untouched; a document is projected, and stored when the write succeeds |
| TflClient.StaleEntryUnused | src/lib/tfl-client.ts:101-116 | a stale or missing entry never reaches the reply |
| TflClient.SecondCallWithinADayHits | src/lib/tfl-client.ts:97-117 | after a call that fetched and stored, a call less than 24 h later makes no fetch call and gives the same reply |
| TflClient.MalformedCacheThrows | src/lib/tfl-client.ts:101-104 | a fresh cached document that `extractStations` faults on makes the browser call throw, without a fetch call |
| TflClient.WriteFailureSwallowed | src/lib/tfl-client.ts:36-38 | a failed write changes no reply and leaves the slot as it was |
| TflClient.LinesFollowStationsPolicy | src/lib/tfl-client.ts:163-183 | `getTubeLines` makes the same fetch calls and leaves the same slot as `getTubeStations` |
| TflClient.CacheOutcomes | src/lib/tfl-client.ts:119-133 | fails exactly for a null or malformed document, never for the write; a document is stored even when projecting it then throws |
| TflClient.RefreshThenRead | src/lib/tfl-client.ts:119-133 | after a successful `cacheTubeStations`, a read within 24 h makes no fetch call and projects the refreshed document |
| TflClient.StationByIdSpec | src/lib/tfl-client.ts:228-231 | `getStationById` throws exactly when `getTubeStations` does, else searches its stations |
| TflServer.StationsStep | src/actions/tfl.ts:56-98 | what the server's `getTubeStations` does to the file: a fresh, well-formed file is projected with no fetch call, otherwise one fetch call whose document is written and projected |
| TflServer.LinesStep | src/actions/tfl.ts:148-188 | what the server's `getTubeLines` does: a fresh file gives `LinesOf` with no fetch call, otherwise one fetch call |
| TflServer.CacheStep | src/actions/tfl.ts:100-118 | what the server's `cacheTubeStations` does: one fetch call; null fails, a failed write fails with the file unchanged, otherwise a write and then a projection that may fail |
| TflServer.StationByIdStep | src/actions/tfl.ts:233-236 | what the server's `getStationById` does: `StationsStep` followed by the search |
| TflServer.FileCache.FetchRawTubeStations | src/actions/tfl.ts:8-20 | `fetchRawTubeStationsFromAPI`: the raw document, or null for a missing key (no request made) or a non-ok response; the fetch-call count goes up by one |
| TflServer.FileCache.ReadCacheFile | src/actions/tfl.ts:60-64 | the entry when the file exists and parses, else nothing |
| TflServer.FileCache.WriteCacheFile | src/actions/tfl.ts:86-95 | overwrites the file with `{now, raw}`; a failed write leaves it as it was |
| TflServer.FileCache.GetTubeStations | src/actions/tfl.ts:56-98 | reply, file and fetch-call count are those of `StationsStep` |
| TflServer.FileCache.GetTubeLines | src/actions/tfl.ts:148-188 | reply, file and fetch-call count are those of `LinesStep` |
| TflServer.FileCache.CacheTubeStations | src/actions/tfl.ts:100-118 | outcome and file are those of `CacheStep`; exactly one fetch call |
| TflServer.FileCache.GetStationById | src/actions/tfl.ts:233-236 | `getTubeStations` followed by the search |
| TflServer.HitDoesNotFetch | src/actions/tfl.ts:60-72 | a fresh, well-formed file makes no fetch call, stays unchanged and is projected (lines: a fresh file, at lines 151-163) |
| TflServer.MissFetchesOnce | src/actions/tfl.ts:79-97 | otherwise one fetch call. A null result gives `[]` with the file unchanged; a document is projected, and written when the write succeeds |
| TflServer.MalformedCacheRefetches | src/actions/tfl.ts:62-75 | a fresh cached document that `extractStations` faults on is caught and replaced by a fetch call |
| TflServer.CorruptLikeAbsent | src/actions/tfl.ts:60-76 | an unreadable or unparseable file behaves like a missing one |
| TflServer.WriteFailureSwallowed | src/actions/tfl.ts:93-95 | a failed write in the getters changes no reply and leaves the file as it was (likewise in `getTubeLines`, lines 183-185) |
| TflServer.CacheOutcomes | src/actions/tfl.ts:100-118 | fails for a null document, for a failed write (file unchanged, error rethrown at :116) and for a malformed document (file already written); passes exactly otherwise |
| TflServer.SecondCallWithinADayHits | src/actions/tfl.ts:56-98 | after a call that fetched and wrote a well-formed document, a call less than 24 h later makes no fetch call and gives the same reply |
| TflServer.RefreshThenRead | src/actions/tfl.ts:100-118 | after a successful `cacheTubeStations`, stations and lines (lines 151-163) read within 24 h make no fetch call and project the written document |
| TflServer.StationByIdSpec | src/actions/tfl.ts:233-236 | `getStationById` throws exactly when `getTubeStations` does, else searches its stations |
| BoardPage.Decompose | src/app/page.tsx:126-130 | the split of the time left into days, hours, minutes and seconds with `Math.floor` and JavaScript's `%`; `DecomposeSpec` characterises it |
| BoardPage.DecomposeSpec | src/app/page.tsx:126-130 | for t ≥ 0: hours in 0..23, minutes and seconds in 0..59, days the whole days, and the recomposition r satisfies r ≤ t < r + 1000 |
| BoardPage.DecomposeRecompose | src/app/page.tsx:126-130 | a countdown in range is what its own duration decomposes to |
| BoardPage.GetTimeToAge | src/app/page.tsx:116-139 | a birthday already past is moved one year on. The age is that year minus the birth year, and the fields decompose the time left; they are in range when next year's birthday is not past |
| BoardPage.TimeToAgeText | src/app/page.tsx:141-155 | `getTimeToAgeText`; `TimeToAgeTextSpec` characterises it |
| BoardPage.TimeToAgeTextSpec | src/app/page.tsx:141-155 | the text names the first of days, hours, minutes that is positive (else seconds), adds "s" unless the count is 1, and ends with "th birthday" |
| BoardPage.CongratText | src/app/page.tsx:157-168 | `getCongratText` as written, with `> 1` on every unit; `CongratTextSpec` characterises it |
| BoardPage.BubbleShown | src/app/page.tsx:212 | the speech bubble holding both texts is drawn only while days, hours or minutes is positive |
| BoardPage.CongratTextSpec | src/app/page.tsx:157-168 | the text is "Happy birthday!" exactly when days, hours and minutes are each at most 1 |
| BoardPage.CongratTextADayEarly | src/app/page.tsx:157-168 | with exactly one day left the bubble is drawn and already says "Happy birthday!" |
| BoardPage.CongratTextIntended | src/app/page.tsx:157-168 | `getCongratText` with `days > 0` and `hours > 0`, keeping `minutes > 1` |
| BoardPage.CongratTextIntendedShown | src/app/page.tsx:157-168 | with the corrected tests the drawn bubble says "Happy birthday!" exactly when between one and two minutes are left |
| BoardPage.FireworksStart | src/app/page.tsx:307-310 | the fireworks start when every field of the countdown is 0; `FireworksInLastSecond` says when that is |
| BoardPage.FireworksInLastSecond | src/app/page.tsx:307-310 | for t ≥ 0 all four fields are 0 exactly when less than a second is left |
| BoardPage.Remaining | src/app/page.tsx:58 | `max(0, timeToStation − elapsed)` is non-negative and either 0 or the difference |
| BoardPage.MinutesUp | src/app/page.tsx:71 | `Math.ceil(s / 60)` is the m with (m − 1)·60 < s ≤ m·60 |
| BoardPage.ArrivalLabel | src/app/page.tsx:57-74 | the minute label of `renderArrivalItem`; `ArrivalLabelSpec` characterises it |
| BoardPage.ArrivalLabelSpec | src/app/page.tsx:57-74 | a label is shown exactly when at least 10 s remain; it is then ⌈remaining/60⌉ followed by " min" |
| BoardPage.ElapsedSeconds | src/app/page.tsx:393 | whole seconds since the arrivals were fetched, rounded down |
| BoardPage.TrainApproaching | src/app/page.tsx:421-424 | `isAnyTrainApproaching`; `TrainApproachingSpec` characterises it |
| BoardPage.TrainApproachingSpec | src/app/page.tsx:421-424 | the banner is on exactly when some arrival has 0 < timeToStation − elapsed ≤ 10 |
| BoardPage.TrainArrived | src/app/page.tsx:397 | `hasArrivedTrain`, which triggers a refetch; `TrainArrivedSpec` characterises it |
| BoardPage.TrainArrivedSpec | src/app/page.tsx:397 | a refetch fires exactly when some arrival has no time remaining, and such an arrival shows no minute label |
| BoardPage.NextPlatform | src/app/page.tsx:101 | the platform button's step, back to 1 after the last platform; `NextPlatformInRange` and `FullCycle` characterise it |
| BoardPage.ShowPlatformButton | src/app/page.tsx:98 | the button is drawn for a station with at least two platforms |
| BoardPage.NextPlatformInRange | src/app/page.tsx:98-101 | the button keeps the platform in 1..platformCount, and when shown (at least two platforms) it changes the platform |
| BoardPage.CycleValue | src/app/page.tsx:101 | n ≤ count presses move n platforms on, wrapping past the last |
| BoardPage.FullCycle | src/app/page.tsx:101 | platformCount presses return to the start, every platform shown on the way |
| StationConfig.ToggleLineSelection | src/app/config/station/page.tsx:35-43 | `toggleLineSelection`; `ToggleLineSelectionSpec` characterises it |
| StationConfig.ToggleLineSelectionSpec | src/app/config/station/page.tsx:35-43 | toggling removes every copy of a selected id or appends an unselected one; no other id's count changes |
| StationConfig.ToggleTwiceRestores | src/app/config/station/page.tsx:35-43 | toggling an unselected id twice restores the selection |
| StationConfig.ToggleTwiceMovesLast | src/app/config/station/page.tsx:35-43 | toggling a selected id twice leaves one copy of it at the end |
| StationConfig.SelectStation | src/app/config/station/page.tsx:45-51 | choosing the selected station (same id) clears the selection, any other choice selects it |
| StationConfig.SelectTwiceClears | src/app/config/station/page.tsx:45-51 | choosing a station twice from a state where it is not selected leaves nothing selected |
| StationConfig.ConfirmStation | src/app/config/station/page.tsx:53-57 | an address exactly when a station is selected |
| StationConfig.BoardStationId | src/app/page.tsx:270 | `searchParams.get('stationId')`, falling back to "940GZZLUHSD", for an address starting `/?stationId=`: the value up to `&` or `#`, or the default station when it is missing or empty |
| StationConfig.ConfirmStationRoundTrip | src/app/config/station/page.tsx:55 | for a non-empty id without `&`, `#`, `+`, `%`, tab, line feed or carriage return, whose last character is neither a space nor a C0 control, the board reads the confirmed address back as the selected station's id |
| StationConfig.ConfirmEmptyIdShowsDefault | src/app/config/station/page.tsx:55 | a selected station with an empty id sends the board to the default station "940GZZLUHSD" |
| StationConfig.FilterStations | src/app/config/station/page.tsx:75-85 | the station list shown for the selected lines; `FilterStationsSpec` characterises it |
| StationConfig.FilterStationsSpec | src/app/config/station/page.tsx:75-85 | both branches are one filter: the stations, in order, that have every selected line (all of them for an empty selection) |
| StationConfig.AddingLineNarrows | src/app/config/station/page.tsx:79 | one more selected line narrows the list to the current stations that also serve it |
| StationConfig.ToggleOnNarrows | src/app/config/station/page.tsx:35-43 | toggling on an unselected line narrows the filtered list (lines 75-85) the same way |
| Seqs.FilterMembership | src/lib/tfl-client.ts:93 | `filter` keeps exactly the elements satisfying the predicate |
| Seqs.FilterFilter | src/app/config/station/page.tsx:77-80 | filtering twice is filtering by the conjunction |
| Seqs.AnyExists | src/app/page.tsx:397 | `some` holds exactly when a satisfying element exists |
| Text.NatToStringRoundTrip | src/lib/tfl-client.ts:218 | the decimal rendering in template strings reads back as the number, without a leading zero |

## Left out

- Network, file and storage I/O are not modelled. This covers `fetch` to the API, `fs` (`existsSync`, `readFile`, `writeFile`), `localStorage`, `JSON.parse`/`stringify` and `response.json()`. The store is a field; a fetch outcome and write success are parameters.
- A `fetch` that rejects (network error) and a `response.json()` that fails are not modelled; the fetch outcome is only a document or null.
- FetchRawTubeStations: the counter `fetches` counts calls of `fetchRawTubeStationsFromAPI`, not network requests. A missing application key returns null before any request (src/lib/tfl-client.ts:50-54, src/actions/tfl.ts:9-13), so a fetch call then makes no request; the model does not tell this null apart from a non-ok response, and both are the `None` fetch outcome.
- `src/actions/network.ts` is not part of this model: it is a connectivity probe, pure network I/O.
- `src/lib/tls.ts` is not part of this model: it is a constant id-to-CSS table.
- `src/app/layout.tsx` is not part of this model. React hooks, intervals and timeouts, rendering and animations are left out.
- Each operation reads the clock once (`now`). The code reads `new Date()` separately for the freshness test and for the stored timestamp.
- `Date` parsing and ISO strings are left out: a stored timestamp is an integer or unparseable.
- `IsCacheValid` keeps the floating-point division as exact real division; rounding is left out.
- The calendar construction in `getTimeToAge` (local-time year, month and day, `setFullYear` roll-over) is left out. `GetTimeToAge` takes the birthday instant per year as a function parameter.
- The server-side rendering branch (`typeof window === 'undefined'`) in `getCachedData`/`setCachedData` is left out.
- A partial file write is not modelled: a write either succeeds or leaves the file as it was.
- `localeCompare` sorting of stations and lines in the station picker (src/app/config/station/page.tsx:62, :68) is left out, because it depends on locale collation.
- Arrivals without `platformName` are not modelled (the filter would throw on them). Neither are arrays whose elements are not arrival objects.
- `timeToStation` and the platform number are integers; fractional values are not modelled.
- GetArrivalsForStation: the default arguments `platform = -1` and `limit = 6` (src/lib/tfl-client.ts:205) are not modelled, so callers always pass both. `limit` is an integer, so a fractional `limit` and its `slice` rounding are not modelled; a negative one is, and it keeps every match as `limit > 0` fails.
- BoardStationId: the URL parsing that `router.push` does is not modelled: it removes every tab, line feed and carriage return and strips trailing spaces and C0 controls. Neither are `URLSearchParams` decoding (`+` as a space, `%xx` escapes) and addresses carrying other parameters before `stationId`. `ConfirmStationRoundTrip` is therefore stated only for ids that all three leave unchanged (`PlainId`): no `&`, `#`, `+`, `%`, tab, line feed or carriage return, and no space or C0 control at the end.
- The board-switch button (src/app/page.tsx:447-449) and the avatar toggle are React state and are left out.
- Logging and async sequencing are left out. The awaited calls run one after another with no real concurrency.
- `ExtractStations` requires every metro station to carry `lineModeGroups` (`StationsWellFormed`), because `extractStation` reads it unguarded. Where the code can meet a document without it, the model returns the thrown error through `ProjectStations` instead.

## Findings

| source | as written | input that shows it | evidently intended | confidence | as-written member | corrected member |
|---|---|---|---|---|---|---|
| src/app/page.tsx:157-168 | `getCongratText` tests `days > 1`, `hours > 1`, `minutes > 1`, so it greets whenever each field is at most 1 | exactly one day left (days 1, hours 0, minutes 0) gives "Happy birthday!" | test `days > 0` and `hours > 0` and keep `minutes > 1`. The bubble at line 212 is hidden in the last minute, so the greeting is then on screen only while between one and two minutes are left | medium, not executed | BoardPage.CongratTextADayEarly | BoardPage.CongratTextIntendedShown |
