/**
 * The station picker of `src/app/config/station/page.tsx`, as pure functions
 * of its state: toggling a line in the selection, selecting and confirming a
 * station, and the list of stations shown for the selected lines.
 */
module StationConfig {
  import opened Options
  import opened Seqs
  import opened TflModel
  import opened TflExtract

  /** `toggleLineSelection`: drop every occurrence of a selected id, or append an unselected one. */
  function ToggleLineSelection(prev: seq<string>, lineId: string): seq<string> {
    if lineId in prev then Filter(prev, (id: string) => id != lineId) else prev + [lineId]
  }

  /** Toggling flips the membership of the toggled id and leaves every other id's count as it was. */
  lemma {:induction false} ToggleLineSelectionSpec(prev: seq<string>, lineId: string)
    ensures var r := ToggleLineSelection(prev, lineId);
      && (lineId in r <==> lineId !in prev)
      && (lineId in prev ==> multiset(r)[lineId] == 0)
      && (lineId !in prev ==> multiset(r)[lineId] == 1)
      && forall other :: other != lineId ==> multiset(r)[other] == multiset(prev)[other]
  {
    var r := ToggleLineSelection(prev, lineId);
    var p := (id: string) => id != lineId;
    if lineId in prev {
      FilterMembership(prev, p, lineId);
      FilterMultiset(prev, p, lineId);
      forall other | other != lineId ensures multiset(r)[other] == multiset(prev)[other] {
        FilterMultiset(prev, p, other);
      }
    } else {
      assert multiset(r) == multiset(prev) + multiset{lineId};
    }
  }

  /** Toggling an unselected id twice gives back the original selection. */
  lemma {:induction false} ToggleTwiceRestores(prev: seq<string>, lineId: string)
    requires lineId !in prev
    ensures ToggleLineSelection(ToggleLineSelection(prev, lineId), lineId) == prev
  {
    var p := (id: string) => id != lineId;
    assert lineId in prev + [lineId];
    FilterSnoc(prev, lineId, p);
    FilterAll(prev, p);
  }

  /** Toggling a selected id twice keeps the other ids in order and puts one copy of it last. */
  lemma {:induction false} ToggleTwiceMovesLast(prev: seq<string>, lineId: string)
    requires lineId in prev
    ensures ToggleLineSelection(ToggleLineSelection(prev, lineId), lineId) ==
      Filter(prev, (id: string) => id != lineId) + [lineId]
  {
    var p := (id: string) => id != lineId;
    FilterMembership(prev, p, lineId);
  }

  /** `selectStation`: choosing the selected station (by id) clears the selection; any other choice selects it. */
  function SelectStation(selected: Option<StopPoint>, station: StopPoint): (r: Option<StopPoint>)
    ensures r.None? <==> selected.Some? && selected.value.id == station.id
    ensures r.Some? ==> r.value == station
  {
    if selected.Some? && selected.value.id == station.id then None else Some(station)
  }

  /** Choosing the same station twice from a state where it is not selected leaves nothing selected. */
  lemma {:induction false} SelectTwiceClears(selected: Option<StopPoint>, station: StopPoint)
    requires !(selected.Some? && selected.value.id == station.id)
    ensures SelectStation(SelectStation(selected, station), station) == None
  {
  }

  const StationQuery: string := "/?stationId="

  /** `confirmStation`: the address the router is sent to, or none without a selection. */
  function ConfirmStation(selected: Option<StopPoint>): (r: Option<string>)
    ensures r.Some? <==> selected.Some?
  {
    if selected.Some? then Some(StationQuery + selected.value.id) else None
  }

  /** The station the board shows when the address names none. */
  const DefaultStationId: string := "940GZZLUHSD"

  /** A query value ends at the next `&` (another parameter) or `#` (the fragment). */
  function ParamValue(rest: string): (v: string)
    ensures v <= rest
    ensures forall k :: 0 <= k < |v| ==> v[k] != '&' && v[k] != '#'
  {
    if rest == [] || rest[0] == '&' || rest[0] == '#' then [] else [rest[0]] + ParamValue(rest[1..])
  }

  /**
   * The board's `searchParams.get('stationId') || "940GZZLUHSD"` for an address
   * that starts with `/?stationId=`: the value, or the default station when the
   * parameter is missing or empty.
   */
  function BoardStationId(url: string): (id: string)
    ensures id != ""
  {
    var v := if |url| >= |StationQuery| && url[..|StationQuery|] == StationQuery then ParamValue(url[|StationQuery|..]) else "";
    if v == "" then DefaultStationId else v
  }

  /**
   * An id that reads back unchanged from the address: non-empty, with no
   * separator or escape character, no tab, line feed or carriage return (URL
   * parsing removes those everywhere), and a last character that is neither a
   * space nor a C0 control (URL parsing strips those at the end).
   */
  predicate PlainId(id: string) {
    && id != ""
    && (forall k :: 0 <= k < |id| ==>
          id[k] != '&' && id[k] != '#' && id[k] != '+' && id[k] != '%' &&
          id[k] != '\t' && id[k] != '\n' && id[k] != '\r')
    && id[|id| - 1] != ' ' && id[|id| - 1] as int > 0x1F
  }

  /** A value with no `&` or `#` is read whole. */
  lemma {:induction false} ParamValueWhole(rest: string)
    requires forall k :: 0 <= k < |rest| ==> rest[k] != '&' && rest[k] != '#'
    ensures ParamValue(rest) == rest
  {
    if rest != [] {
      assert forall k :: 0 <= k < |rest[1..]| ==> rest[1..][k] == rest[k + 1];
      ParamValueWhole(rest[1..]);
    }
  }

  /** The confirmed address carries a plain station id back to the board. */
  lemma {:induction false} ConfirmStationRoundTrip(selected: Option<StopPoint>)
    requires selected.Some? && PlainId(selected.value.id)
    ensures BoardStationId(ConfirmStation(selected).value) == selected.value.id
  {
    var url := ConfirmStation(selected).value;
    assert url[..|StationQuery|] == StationQuery;
    assert url[|StationQuery|..] == selected.value.id;
    ParamValueWhole(selected.value.id);
  }

  /** A station with an empty id sends the board to the default station instead. */
  lemma {:induction false} ConfirmEmptyIdShowsDefault(selected: Option<StopPoint>)
    requires selected.Some? && selected.value.id == ""
    ensures BoardStationId(ConfirmStation(selected).value) == DefaultStationId
  {
    var url := ConfirmStation(selected).value;
    assert url[..|StationQuery|] == StationQuery;
    assert url[|StationQuery|..] == "";
  }

  /** `selectedLineIds.every(id => station.lines.map(l => l.id).includes(id))`. */
  predicate ServesAll(station: StopPoint, selectedLineIds: seq<string>) {
    forall id :: id in selectedLineIds ==> id in Ids(station.lines)
  }

  /** The station list shown: every station when nothing is selected, otherwise those serving every selected line. */
  function FilterStations(allStations: seq<StopPoint>, selectedLineIds: seq<string>): seq<StopPoint> {
    if |selectedLineIds| > 0 then Filter(allStations, (st: StopPoint) => ServesAll(st, selectedLineIds))
    else allStations
  }

  /**
   * Both branches are one filter: the stations of `allStations`, in order, that
   * have every selected line (vacuously all of them for an empty selection).
   */
  lemma {:induction false} FilterStationsSpec(allStations: seq<StopPoint>, selectedLineIds: seq<string>)
    ensures FilterStations(allStations, selectedLineIds) ==
      Filter(allStations, (st: StopPoint) => ServesAll(st, selectedLineIds))
    ensures forall st :: st in FilterStations(allStations, selectedLineIds) <==>
      st in allStations && forall id :: id in selectedLineIds ==> exists l :: l in st.lines && l.id == id
  {
    var p := (st: StopPoint) => ServesAll(st, selectedLineIds);
    if |selectedLineIds| == 0 {
      FilterAll(allStations, p);
    }
    forall st ensures st in FilterStations(allStations, selectedLineIds) <==>
      st in allStations && forall id :: id in selectedLineIds ==> exists l :: l in st.lines && l.id == id
    {
      FilterMembership(allStations, p, st);
      assert ServesAll(st, selectedLineIds) <==>
        forall id :: id in selectedLineIds ==> exists l :: l in st.lines && l.id == id
      by {
        forall id ensures id in Ids(st.lines) <==> exists l :: l in st.lines && l.id == id {
          if id in Ids(st.lines) {
            var k :| 0 <= k < |st.lines| && Ids(st.lines)[k] == id;
            assert st.lines[k] in st.lines;
          }
          if exists l :: l in st.lines && l.id == id {
            var l :| l in st.lines && l.id == id;
            var k :| 0 <= k < |st.lines| && st.lines[k] == l;
            assert Ids(st.lines)[k] == id;
          }
        }
      }
    }
  }

  /** Selecting one more line narrows the list to those of the current list that also serve it. */
  lemma {:induction false} AddingLineNarrows(allStations: seq<StopPoint>, selectedLineIds: seq<string>, lineId: string)
    ensures FilterStations(allStations, selectedLineIds + [lineId]) ==
      Filter(FilterStations(allStations, selectedLineIds), (st: StopPoint) => lineId in Ids(st.lines))
    ensures |FilterStations(allStations, selectedLineIds + [lineId])| <= |FilterStations(allStations, selectedLineIds)|
  {
    var sel := selectedLineIds + [lineId];
    var p := (st: StopPoint) => ServesAll(st, selectedLineIds);
    var q := (st: StopPoint) => lineId in Ids(st.lines);
    var r := (st: StopPoint) => ServesAll(st, sel);
    FilterStationsSpec(allStations, selectedLineIds);
    forall st ensures r(st) == (p(st) && q(st)) {
      assert forall id :: id in sel <==> id in selectedLineIds || id == lineId;
    }
    FilterFilter(allStations, p, q, r);
  }

  /** Toggling on a line that was not selected narrows the list in the same way. */
  lemma {:induction false} ToggleOnNarrows(allStations: seq<StopPoint>, selectedLineIds: seq<string>, lineId: string)
    requires lineId !in selectedLineIds
    ensures FilterStations(allStations, ToggleLineSelection(selectedLineIds, lineId)) ==
      Filter(FilterStations(allStations, selectedLineIds), (st: StopPoint) => lineId in Ids(st.lines))
  {
    AddingLineNarrows(allStations, selectedLineIds, lineId);
  }
}
