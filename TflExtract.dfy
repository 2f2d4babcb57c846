/**
 * The extraction engine: projections of the raw stop-point and arrivals
 * documents into `StopPoint`, `Line` and `Arrival`. The browser module and the
 * server module carry the same code; it is modelled once here and both cache
 * modules use it.
 *
 * The per-station line list and the global line list are built by the same
 * accumulator: walk the candidate raw lines in order and append each one whose
 * id is not yet present. `Dedup` is that accumulator as a function;
 * `PushTubeLines` is the loop that runs it.
 */
module TflExtract {
  import opened Options
  import opened Seqs
  import opened Text
  import opened TflModel

  /** `groups.find(g => g.modeName === 'tube')`: the first group of mode "tube", if there is one. */
  function FindTubeGroup(groups: seq<RawModeGroup>): (r: Option<RawModeGroup>)
    ensures r.None? <==> forall k :: 0 <= k < |groups| ==> groups[k].modeName != TubeMode
    ensures r.Some? ==> exists k :: 0 <= k < |groups| && groups[k] == r.value && r.value.modeName == TubeMode &&
                                    forall j :: 0 <= j < k ==> groups[j].modeName != TubeMode
  {
    if groups == [] then None
    else if groups[0].modeName == TubeMode then Some(groups[0])
    else
      var r := FindTubeGroup(groups[1..]);
      assert r.Some? ==> exists k :: 1 <= k < |groups| && groups[k] == r.value && r.value.modeName == TubeMode &&
                                     forall j :: 1 <= j < k ==> groups[j].modeName != TubeMode by {
        if r.Some? {
          var k :| 0 <= k < |groups[1..]| && groups[1..][k] == r.value && r.value.modeName == TubeMode &&
                   forall j :: 0 <= j < k ==> groups[1..][j].modeName != TubeMode;
          assert groups[k + 1] == r.value;
          assert forall j :: 1 <= j < k + 1 ==> groups[j] == groups[1..][j - 1];
        }
      }
      r
  }

  /** The line ids listed by the first tube group, or none when there is no such group or it lists none. */
  function TubeLineIds(groups: seq<RawModeGroup>): Option<seq<string>> {
    match FindTubeGroup(groups)
    case None => None
    case Some(g) => g.lineIdentifier
  }

  /** The raw lines whose id the tube group lists, in the order of `lines`. */
  function Eligible(lines: seq<RawLine>, ids: seq<string>): seq<RawLine> {
    Filter(lines, (l: RawLine) => l.id in ids)
  }

  /**
   * The raw lines of one stop that are candidates for its line list: nothing
   * when it has no line-mode groups, no tube group, no line identifiers or no
   * lines; otherwise its lines whose id the tube group lists.
   */
  function Candidates(stop: RawStop): seq<RawLine> {
    if stop.lineModeGroups.None? || stop.lines.None? then []
    else match TubeLineIds(stop.lineModeGroups.value)
      case None => []
      case Some(ids) => Eligible(stop.lines.value, ids)
  }

  function ToLine(l: RawLine): Line {
    Line(l.id, l.name)
  }

  /** The ids of a line list, in order. */
  function Ids(ls: seq<Line>): (r: seq<string>)
    ensures |r| == |ls| && forall k :: 0 <= k < |ls| ==> r[k] == ls[k].id
  {
    seq(|ls|, k requires 0 <= k < |ls| => ls[k].id)
  }

  /** Some raw line of `c` has id `id`. */
  predicate HasRawId(c: seq<RawLine>, id: string) {
    exists k :: 0 <= k < |c| && c[k].id == id
  }

  predicate NoDuplicateIds(ls: seq<Line>) {
    forall i, j :: 0 <= i < j < |ls| ==> ls[i].id != ls[j].id
  }

  /** The position of the first raw line with id `id`. */
  function FirstIndex(c: seq<RawLine>, id: string): (k: nat)
    requires HasRawId(c, id)
    ensures k < |c| && c[k].id == id
    ensures forall j :: 0 <= j < k ==> c[j].id != id
  {
    var init := c[..|c| - 1];
    if HasRawId(init, id) then
      var k := FirstIndex(init, id);
      assert c[k] == init[k];
      k
    else
      assert forall j :: 0 <= j < |c| - 1 ==> c[j] == init[j];
      |c| - 1
  }

  /**
   * The list the guarded `push` loop builds from the candidates `c`: each
   * candidate is appended, as a `Line`, unless a line with its id is already there.
   */
  function Dedup(c: seq<RawLine>): seq<Line>
    decreases |c|
  {
    if c == [] then []
    else
      var prev := Dedup(c[..|c| - 1]);
      var l := c[|c| - 1];
      if l.id in Ids(prev) then prev else prev + [ToLine(l)]
  }

  /** The first occurrence of an id in a sequence is found within any prefix that contains it. */
  lemma {:induction false} FirstIndexInPrefix(a: seq<RawLine>, b: seq<RawLine>, id: string)
    requires HasRawId(a, id)
    ensures HasRawId(a + b, id) && FirstIndex(a + b, id) == FirstIndex(a, id)
  {
    var k2 := FirstIndex(a, id);
    assert (a + b)[k2] == a[k2];
    var k1 := FirstIndex(a + b, id);
    assert k1 <= k2;
    assert a[k1] == (a + b)[k1];
  }

  lemma {:induction false} HasRawIdSnoc(c: seq<RawLine>, x: RawLine, id: string)
    ensures HasRawId(c + [x], id) <==> HasRawId(c, id) || x.id == id
  {
    if HasRawId(c, id) {
      var k :| 0 <= k < |c| && c[k].id == id;
      assert (c + [x])[k] == c[k];
    }
    if HasRawId(c + [x], id) && x.id != id {
      var k :| 0 <= k < |c| + 1 && (c + [x])[k].id == id;
      assert c[k] == (c + [x])[k];
    }
    assert (c + [x])[|c|] == x;
  }

  /**
   * `Dedup` keeps no id twice, and its ids are exactly the ids of the candidates.
   */
  lemma {:induction false} DedupIds(c: seq<RawLine>)
    ensures NoDuplicateIds(Dedup(c))
    ensures forall id :: id in Ids(Dedup(c)) <==> HasRawId(c, id)
  {
    if c != [] {
      var init, x := c[..|c| - 1], c[|c| - 1];
      assert c == init + [x];
      DedupIds(init);
      DedupSnoc(init, x);
      forall id ensures HasRawId(c, id) <==> HasRawId(init, id) || x.id == id {
        HasRawIdSnoc(init, x, id);
      }
      var prev := Dedup(init);
      if x.id !in Ids(prev) {
        assert Ids(prev + [ToLine(x)]) == Ids(prev) + [x.id];
      }
    }
  }

  /**
   * Each line of `Dedup(c)` is built from the FIRST candidate carrying its
   * id, and the lines come in the order in which their ids first occur.
   */
  lemma {:induction false} DedupFirstSeen(c: seq<RawLine>)
    ensures forall j :: 0 <= j < |Dedup(c)| ==>
      HasRawId(c, Dedup(c)[j].id) && Dedup(c)[j] == ToLine(c[FirstIndex(c, Dedup(c)[j].id)])
    ensures forall i, j :: 0 <= i < j < |Dedup(c)| ==>
      HasRawId(c, Dedup(c)[i].id) && HasRawId(c, Dedup(c)[j].id) &&
      FirstIndex(c, Dedup(c)[i].id) < FirstIndex(c, Dedup(c)[j].id)
  {
    DedupIds(c);
    if c != [] {
      var init, x := c[..|c| - 1], c[|c| - 1];
      assert c == init + [x];
      DedupFirstSeen(init);
      DedupIds(init);
      DedupSnoc(init, x);
      var prev := Dedup(init);
      forall j | 0 <= j < |prev| ensures HasRawId(init, prev[j].id) && FirstIndex(c, prev[j].id) == FirstIndex(init, prev[j].id) {
        assert prev[j].id in Ids(prev);
        FirstIndexInPrefix(init, [x], prev[j].id);
      }
      if x.id !in Ids(prev) {
        var r := prev + [ToLine(x)];
        assert !HasRawId(init, x.id);
        assert FirstIndex(c, x.id) == |c| - 1;
        forall j | 0 <= j < |r| ensures HasRawId(c, r[j].id) && r[j] == ToLine(c[FirstIndex(c, r[j].id)]) {
          if j < |prev| {
            assert r[j] == prev[j];
          }
        }
      }
    }
  }

  /** The line list of one stop: its candidates, de-duplicated in first-seen order. */
  function StationLines(stop: RawStop): seq<Line> {
    Dedup(Candidates(stop))
  }

  /** `children ? children.filter(child => child.stopType === 'NaptanMetroPlatform').length : 0`. */
  function PlatformCount(children: Option<seq<RawChild>>): nat {
    match children
    case None => 0
    case Some(cs) => |Filter(cs, (ch: RawChild) => ch.stopType == MetroPlatform)|
  }

  /** The station a raw stop becomes. The code reads `lineModeGroups` without a guard, so it must be present. */
  function StationOf(stop: RawStop): StopPoint
    requires stop.lineModeGroups.Some?
  {
    StopPoint(stop.id, CleanStationName(stop.commonName), StationLines(stop), PlatformCount(stop.children))
  }

  /**
   * The loop `lines.forEach(line => { if (ids.includes(line.id) && !acc.some(l => l.id === line.id)) acc.push(...) })`:
   * given an accumulator built from the candidates `seen`, the result is the
   * accumulator built from `seen` followed by the lines of `raw` that `ids` admits.
   */
  method PushTubeLines(acc: seq<Line>, raw: seq<RawLine>, ids: seq<string>, ghost seen: seq<RawLine>) returns (r: seq<Line>)
    requires acc == Dedup(seen)
    ensures r == Dedup(seen + Eligible(raw, ids))
  {
    r := acc;
    var i := 0;
    assert seen + Eligible(raw[..0], ids) == seen;
    while i < |raw|
      invariant 0 <= i <= |raw|
      invariant r == Dedup(seen + Eligible(raw[..i], ids))
    {
      var line := raw[i];
      EligibleSnoc(seen, raw, i, ids);
      if line.id in ids && line.id !in Ids(r) {
        r := r + [ToLine(line)];
      }
      i := i + 1;
    }
    assert raw[..|raw|] == raw;
  }

  /** One step of the loop: the accumulator after one more raw line. */
  lemma {:induction false} EligibleSnoc(seen: seq<RawLine>, raw: seq<RawLine>, i: nat, ids: seq<string>)
    requires i < |raw|
    ensures Dedup(seen + Eligible(raw[..i + 1], ids)) ==
      var prev := Dedup(seen + Eligible(raw[..i], ids));
      if raw[i].id in ids && raw[i].id !in Ids(prev) then prev + [ToLine(raw[i])] else prev
  {
    var x := raw[i];
    var a := Eligible(raw[..i], ids);
    var b := Eligible(raw[..i + 1], ids);
    assert raw[..i + 1] == raw[..i] + [x];
    FilterSnoc(raw[..i], x, (l: RawLine) => l.id in ids);
    assert b == a + (if x.id in ids then [x] else []);
    if x.id in ids {
      assert seen + b == (seen + a) + [x];
      DedupSnoc(seen + a, x);
    } else {
      assert seen + b == seen + a;
    }
  }

  lemma {:induction false} DedupSnoc(c: seq<RawLine>, x: RawLine)
    ensures Dedup(c + [x]) == if x.id in Ids(Dedup(c)) then Dedup(c) else Dedup(c) + [ToLine(x)]
  {
    assert (c + [x])[..|c|] == c;
  }

  /** `extractStation`: the station a raw stop becomes, built by the source's loop. */
  method ExtractStation(stop: RawStop) returns (st: StopPoint)
    requires stop.lineModeGroups.Some?
    ensures st == StationOf(stop)
  {
    var lines: seq<Line> := [];
    var tube := FindTubeGroup(stop.lineModeGroups.value);
    if tube.Some? && tube.value.lineIdentifier.Some? && stop.lines.Some? {
      assert [] + Eligible(stop.lines.value, tube.value.lineIdentifier.value) == Candidates(stop);
      lines := PushTubeLines(lines, stop.lines.value, tube.value.lineIdentifier.value, []);
    }
    st := StopPoint(stop.id, CleanStationName(stop.commonName), lines, PlatformCount(stop.children));
  }

  /** The stops whose type marks them as metro stations, in document order. */
  function MetroStations(stops: seq<RawStop>): seq<RawStop> {
    Filter(stops, (s: RawStop) => s.stopType == MetroStation)
  }

  /** Every stop of `ms` carries `lineModeGroups`, so `extractStation` cannot fault on it. */
  predicate AllHaveModeGroups(ms: seq<RawStop>) {
    forall k :: 0 <= k < |ms| ==> ms[k].lineModeGroups.Some?
  }

  /** Every metro station of the document carries `lineModeGroups`. */
  predicate StationsWellFormed(doc: Option<RawDoc>) {
    doc.Some? && doc.value.stopPoints.Some? ==> AllHaveModeGroups(MetroStations(doc.value.stopPoints.value))
  }

  /** `stations.map(extractStation)`. */
  function StationsOf(ms: seq<RawStop>): (r: seq<StopPoint>)
    requires AllHaveModeGroups(ms)
  {
    seq(|ms|, k requires 0 <= k < |ms| => StationOf(ms[k]))
  }

  /** `extractStations`: nothing for a missing document or `stopPoints`, else one station per metro station. */
  function ExtractStations(doc: Option<RawDoc>): (r: seq<StopPoint>)
    requires StationsWellFormed(doc)
  {
    if doc.None? || doc.value.stopPoints.None? then []
    else StationsOf(MetroStations(doc.value.stopPoints.value))
  }

  /** The stations of this document that the global line list draws on, concatenated in document order. */
  function AllCandidates(stations: seq<RawStop>): seq<RawLine> {
    FlatMap(stations, Candidates)
  }

  /** The accumulator of `extractLines` as a function of the document. */
  function LinesOf(doc: Option<RawDoc>): seq<Line> {
    if doc.None? || doc.value.stopPoints.None? then []
    else Dedup(AllCandidates(MetroStations(doc.value.stopPoints.value)))
  }

  /** The body of the `stations.forEach` in `extractLines`: one station's tube lines added to the accumulator. */
  method PushStationLines(acc: seq<Line>, station: RawStop, ghost seen: seq<RawLine>) returns (r: seq<Line>)
    requires acc == Dedup(seen)
    ensures r == Dedup(seen + Candidates(station))
  {
    r := acc;
    if station.lineModeGroups.Some? {
      var tube := FindTubeGroup(station.lineModeGroups.value);
      if tube.Some? && tube.value.lineIdentifier.Some? && station.lines.Some? {
        r := PushTubeLines(r, station.lines.value, tube.value.lineIdentifier.value, seen);
        return;
      }
    }
    assert Candidates(station) == [];
    assert seen + [] == seen;
  }

  /**
   * `extractLines`: the station-by-station loop over one shared accumulator.
   * A station without `lineModeGroups` contributes nothing instead of faulting.
   */
  method ExtractLines(doc: Option<RawDoc>) returns (lines: seq<Line>)
    ensures lines == LinesOf(doc)
  {
    lines := [];
    if doc.Some? && doc.value.stopPoints.Some? {
      var stations := MetroStations(doc.value.stopPoints.value);
      var i := 0;
      while i < |stations|
        invariant 0 <= i <= |stations|
        invariant lines == Dedup(AllCandidates(stations[..i]))
      {
        assert stations[..i + 1][..i] == stations[..i];
        lines := PushStationLines(lines, stations[i], AllCandidates(stations[..i]));
        i := i + 1;
      }
      assert stations[..|stations|] == stations;
    }
  }
}
