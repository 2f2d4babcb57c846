/**
 * Properties of the extraction engine: what a station's line list contains
 * and in which order, what the platform count counts, which stations
 * `extractStations` yields, and how the global line list relates to the
 * stations' own lists.
 */
module TflExtractLemmas {
  import opened Options
  import opened Seqs
  import opened Text
  import opened TflModel
  import opened TflExtract

  lemma {:induction false} HasRawIdAppend(a: seq<RawLine>, b: seq<RawLine>, id: string)
    ensures HasRawId(a + b, id) <==> HasRawId(a, id) || HasRawId(b, id)
  {
    if HasRawId(a, id) {
      var k :| 0 <= k < |a| && a[k].id == id;
      assert (a + b)[k] == a[k];
    }
    if HasRawId(b, id) {
      var k :| 0 <= k < |b| && b[k].id == id;
      assert (a + b)[|a| + k] == b[k];
    }
    if HasRawId(a + b, id) {
      var k :| 0 <= k < |a + b| && (a + b)[k].id == id;
      if k < |a| { assert a[k] == (a + b)[k]; } else { assert b[k - |a|] == (a + b)[k]; }
    }
  }

  /** A raw line survives the tube filter exactly when its id is listed. */
  lemma {:induction false} HasRawIdEligible(ls: seq<RawLine>, ids: seq<string>, id: string)
    ensures HasRawId(Eligible(ls, ids), id) <==> HasRawId(ls, id) && id in ids
  {
    if ls != [] {
      var init, x := ls[..|ls| - 1], ls[|ls| - 1];
      assert ls == init + [x];
      HasRawIdEligible(init, ids, id);
      FilterSnoc(init, x, (l: RawLine) => l.id in ids);
      HasRawIdAppend(Eligible(init, ids), if x.id in ids then [x] else [], id);
      HasRawIdAppend(init, [x], id);
      assert HasRawId([x], id) <==> x.id == id by {
        assert [x][0] == x;
      }
      assert !HasRawId([], id);
    }
  }

  /** The first index is the one position carrying the id with none before it. */
  lemma {:induction false} FirstIndexUnique(c: seq<RawLine>, id: string, k: nat)
    requires k < |c| && c[k].id == id && forall j :: 0 <= j < k ==> c[j].id != id
    ensures HasRawId(c, id) && FirstIndex(c, id) == k
  {
  }

  /**
   * Filtering by a listed id keeps the first raw line carrying it, at the
   * position given by the number of kept lines before it.
   */
  lemma {:induction false} FirstIndexEligibleAt(ls: seq<RawLine>, ids: seq<string>, a: string)
    requires a in ids && HasRawId(ls, a)
    ensures HasRawId(Eligible(ls, ids), a)
    ensures FirstIndex(Eligible(ls, ids), a) == |Eligible(ls[..FirstIndex(ls, a)], ids)|
    ensures Eligible(ls, ids)[FirstIndex(Eligible(ls, ids), a)] == ls[FirstIndex(ls, a)]
  {
    var f := FirstIndex(ls, a);
    var p := (l: RawLine) => l.id in ids;
    var pre, x, post := ls[..f], ls[f], ls[f + 1..];
    assert ls == pre + [x] + post;
    FilterAppend(pre + [x], post, p);
    FilterSnoc(pre, x, p);
    var ep := Eligible(pre, ids);
    var e := Eligible(ls, ids);
    assert e == ep + [x] + Eligible(post, ids);
    forall j | 0 <= j < |pre| ensures pre[j].id != a {
      assert pre[j] == ls[j];
    }
    HasRawIdEligible(pre, ids, a);
    assert e[|ep|] == x;
    forall j | 0 <= j < |ep| ensures e[j].id != a {
      assert e[j] == ep[j];
    }
    FirstIndexUnique(e, a, |ep|);
  }

  /** Filtering by listed ids keeps the relative order of first occurrences. */
  lemma {:induction false} FirstIndexEligibleOrder(ls: seq<RawLine>, ids: seq<string>, a: string, b: string)
    requires a in ids && b in ids && HasRawId(ls, a) && HasRawId(ls, b)
    ensures HasRawId(Eligible(ls, ids), a) && HasRawId(Eligible(ls, ids), b)
    ensures FirstIndex(Eligible(ls, ids), a) < FirstIndex(Eligible(ls, ids), b) <==> FirstIndex(ls, a) < FirstIndex(ls, b)
  {
    FirstIndexEligibleAt(ls, ids, a);
    FirstIndexEligibleAt(ls, ids, b);
    var fa, fb := FirstIndex(ls, a), FirstIndex(ls, b);
    if fa < fb {
      EligiblePrefixGrows(ls, ids, fa, fb);
    } else if fb < fa {
      EligiblePrefixGrows(ls, ids, fb, fa);
    }
  }

  /** Between two positions with an eligible line at the first, the eligible prefix grows strictly. */
  lemma {:induction false} EligiblePrefixGrows(ls: seq<RawLine>, ids: seq<string>, m: nat, n: nat)
    requires m < n <= |ls| && ls[m].id in ids
    ensures |Eligible(ls[..m], ids)| < |Eligible(ls[..n], ids)|
  {
    var p := (l: RawLine) => l.id in ids;
    assert ls[..n] == ls[..m] + ls[m..n];
    FilterAppend(ls[..m], ls[m..n], p);
    FilterMembership(ls[m..n], p, ls[m]);
    assert ls[m] in ls[m..n];
  }

  /**
   * The line list of a station holds only lines of the first tube group's
   * `lineIdentifier` that occur in the stop's `lines`, no id twice, every such
   * id once, each named as at its first occurrence in `lines`, in the order of
   * first occurrence; it is empty when there is no tube group, no
   * `lineIdentifier` or no `lines`.
   */
  lemma {:induction false} StationLinesSpec(stop: RawStop)
    requires stop.lineModeGroups.Some?
    ensures TubeLineIds(stop.lineModeGroups.value).None? || stop.lines.None? ==> StationLines(stop) == []
    ensures NoDuplicateIds(StationLines(stop))
    ensures TubeLineIds(stop.lineModeGroups.value).Some? && stop.lines.Some? ==>
      var ids, ls, r := TubeLineIds(stop.lineModeGroups.value).value, stop.lines.value, StationLines(stop);
      && (forall id :: id in Ids(r) <==> id in ids && HasRawId(ls, id))
      && (forall j :: 0 <= j < |r| ==> HasRawId(ls, r[j].id) && r[j] == ToLine(ls[FirstIndex(ls, r[j].id)]))
      && (forall i, j :: 0 <= i < j < |r| ==>
            HasRawId(ls, r[i].id) && HasRawId(ls, r[j].id) && FirstIndex(ls, r[i].id) < FirstIndex(ls, r[j].id))
  {
    var c := Candidates(stop);
    DedupIds(c);
    DedupFirstSeen(c);
    if TubeLineIds(stop.lineModeGroups.value).Some? && stop.lines.Some? {
      var ids, ls, r := TubeLineIds(stop.lineModeGroups.value).value, stop.lines.value, StationLines(stop);
      assert c == Eligible(ls, ids);
      forall id ensures id in Ids(r) <==> id in ids && HasRawId(ls, id) {
        HasRawIdEligible(ls, ids, id);
      }
      forall j | 0 <= j < |r| ensures HasRawId(ls, r[j].id) && r[j] == ToLine(ls[FirstIndex(ls, r[j].id)]) {
        assert r[j].id in Ids(r);
        HasRawIdEligible(ls, ids, r[j].id);
        FirstIndexEligibleAt(ls, ids, r[j].id);
      }
      forall i, j | 0 <= i < j < |r|
        ensures HasRawId(ls, r[i].id) && HasRawId(ls, r[j].id) && FirstIndex(ls, r[i].id) < FirstIndex(ls, r[j].id)
      {
        assert r[i].id in Ids(r) && r[j].id in Ids(r);
        HasRawIdEligible(ls, ids, r[i].id);
        HasRawIdEligible(ls, ids, r[j].id);
        FirstIndexEligibleOrder(ls, ids, r[i].id, r[j].id);
      }
    }
  }

  /** The lookup of the tube group: the FIRST group whose mode is "tube" supplies the identifiers. */
  lemma {:induction false} TubeLineIdsFirstGroup(groups: seq<RawModeGroup>, k: nat)
    requires k < |groups| && groups[k].modeName == TubeMode
    requires forall j :: 0 <= j < k ==> groups[j].modeName != TubeMode
    ensures TubeLineIds(groups) == groups[k].lineIdentifier
  {
    var g := FindTubeGroup(groups);
    var k' :| 0 <= k' < |groups| && groups[k'] == g.value && g.value.modeName == TubeMode &&
              forall j :: 0 <= j < k' ==> groups[j].modeName != TubeMode;
    assert k' == k;
  }

  /**
   * `platformCount` is the number of children typed "NaptanMetroPlatform": 0
   * without children, at most the number of children, and additive over
   * concatenation.
   */
  lemma {:induction false} PlatformCountSpec(cs: seq<RawChild>, more: seq<RawChild>)
    ensures PlatformCount(None) == 0
    ensures PlatformCount(Some(cs)) <= |cs|
    ensures PlatformCount(Some(cs)) == multiset(StopTypes(cs))[MetroPlatform]
    ensures PlatformCount(Some(cs + more)) == PlatformCount(Some(cs)) + PlatformCount(Some(more))
  {
    var p := (ch: RawChild) => ch.stopType == MetroPlatform;
    FilterAppend(cs, more, p);
    PlatformCountIsMultiplicity(cs);
  }

  /** The `stopType` of each child, in order. */
  function StopTypes(cs: seq<RawChild>): (r: seq<string>)
    ensures |r| == |cs| && forall k :: 0 <= k < |cs| ==> r[k] == cs[k].stopType
  {
    if cs == [] then [] else [cs[0].stopType] + StopTypes(cs[1..])
  }

  lemma {:induction false} PlatformCountIsMultiplicity(cs: seq<RawChild>)
    ensures PlatformCount(Some(cs)) == multiset(StopTypes(cs))[MetroPlatform]
  {
    if cs != [] {
      PlatformCountIsMultiplicity(cs[1..]);
      assert multiset(StopTypes(cs)) == multiset{cs[0].stopType} + multiset(StopTypes(cs[1..]));
    }
  }

  /**
   * `extractStations` yields nothing for a missing document or a missing
   * `stopPoints`; otherwise one station per "NaptanMetroStation" entry of
   * `stopPoints`, the k-th built from the k-th such entry, and every such
   * entry is represented.
   */
  lemma {:induction false} ExtractStationsSpec(doc: Option<RawDoc>)
    requires StationsWellFormed(doc)
    ensures doc.None? || doc.value.stopPoints.None? ==> ExtractStations(doc) == []
    ensures doc.Some? && doc.value.stopPoints.Some? ==>
      var stops, r := doc.value.stopPoints.value, ExtractStations(doc);
      var ms := MetroStations(stops);
      && |r| == |ms|
      && (forall k :: 0 <= k < |r| ==>
            (ms[k].stopType == MetroStation && ms[k] in stops && r[k] == StationOf(ms[k])))
      && (forall k :: 0 <= k < |stops| && stops[k].stopType == MetroStation ==>
            stops[k].lineModeGroups.Some? && StationOf(stops[k]) in r)
  {
    if doc.Some? && doc.value.stopPoints.Some? {
      var stops, r := doc.value.stopPoints.value, ExtractStations(doc);
      var ms := MetroStations(stops);
      var p := (s: RawStop) => s.stopType == MetroStation;
      forall k | 0 <= k < |ms| ensures ms[k].stopType == MetroStation && ms[k] in stops {
        FilterMembership(stops, p, ms[k]);
      }
      forall k | 0 <= k < |stops| && stops[k].stopType == MetroStation
        ensures stops[k].lineModeGroups.Some? && StationOf(stops[k]) in r
      {
        FilterMembership(stops, p, stops[k]);
        var j :| 0 <= j < |ms| && ms[j] == stops[k];
        assert r[j] == StationOf(ms[j]);
      }
    }
  }

  lemma {:induction false} AllCandidatesAppend(a: seq<RawStop>, b: seq<RawStop>)
    ensures AllCandidates(a + b) == AllCandidates(a) + AllCandidates(b)
  {
    FlatMapAppend(a, b, Candidates);
  }

  /** An id occurs among all candidates exactly when some station contributes it. */
  lemma {:induction false} AllCandidatesHasId(ss: seq<RawStop>, id: string)
    ensures HasRawId(AllCandidates(ss), id) <==> exists k :: 0 <= k < |ss| && HasRawId(Candidates(ss[k]), id)
  {
    if ss != [] {
      var init, x := ss[..|ss| - 1], ss[|ss| - 1];
      AllCandidatesHasId(init, id);
      HasRawIdAppend(AllCandidates(init), Candidates(x), id);
      if exists k :: 0 <= k < |ss| && HasRawId(Candidates(ss[k]), id) {
        var k :| 0 <= k < |ss| && HasRawId(Candidates(ss[k]), id);
        if k < |ss| - 1 {
          assert ss[k] == init[k];
        }
      }
      if exists k :: 0 <= k < |init| && HasRawId(Candidates(init[k]), id) {
        var k :| 0 <= k < |init| && HasRawId(Candidates(init[k]), id);
        assert ss[k] == init[k];
      }
    } else {
      assert !HasRawId([], id);
    }
  }

  /** The ids of a station's line list are the ids of its candidates. */
  lemma {:induction false} StationLinesIds(stop: RawStop, id: string)
    ensures id in Ids(StationLines(stop)) <==> HasRawId(Candidates(stop), id)
  {
    DedupIds(Candidates(stop));
  }

  /** An id is in the global list exactly when some station's own list has it. */
  lemma {:induction false} LinesIds(ms: seq<RawStop>, id: string)
    ensures id in Ids(Dedup(AllCandidates(ms))) <==> exists k :: 0 <= k < |ms| && id in Ids(StationLines(ms[k]))
  {
    DedupIds(AllCandidates(ms));
    AllCandidatesHasId(ms, id);
    forall k | 0 <= k < |ms| ensures id in Ids(StationLines(ms[k])) <==> HasRawId(Candidates(ms[k]), id) {
      StationLinesIds(ms[k], id);
    }
  }

  /**
   * `extractLines` yields nothing for a missing document or `stopPoints`;
   * otherwise a list with no id twice whose ids are exactly the union of the
   * stations' own tube line ids (a station without `lineModeGroups` adding
   * none), ordered by first contributing station: when station k contributes
   * the later of two lines, some station at or before k contributes the earlier.
   */
  lemma {:induction false} LinesOfSpec(doc: Option<RawDoc>)
    ensures doc.None? || doc.value.stopPoints.None? ==> LinesOf(doc) == []
    ensures NoDuplicateIds(LinesOf(doc))
    ensures doc.Some? && doc.value.stopPoints.Some? ==>
      var ms, r := MetroStations(doc.value.stopPoints.value), LinesOf(doc);
      && (forall id :: id in Ids(r) <==> exists k :: 0 <= k < |ms| && id in Ids(StationLines(ms[k])))
      && (forall i, j, k :: 0 <= i < j < |r| && 0 <= k < |ms| && r[j].id in Ids(StationLines(ms[k])) ==>
            exists k' :: 0 <= k' <= k && r[i].id in Ids(StationLines(ms[k'])))
  {
    if doc.Some? && doc.value.stopPoints.Some? {
      var ms := MetroStations(doc.value.stopPoints.value);
      var r := Dedup(AllCandidates(ms));
      assert LinesOf(doc) == r;
      DedupIds(AllCandidates(ms));
      forall id ensures id in Ids(r) <==> exists k :: 0 <= k < |ms| && id in Ids(StationLines(ms[k])) {
        LinesIds(ms, id);
      }
      forall i, j, k | 0 <= i < j < |r| && 0 <= k < |ms| && r[j].id in Ids(StationLines(ms[k]))
        ensures exists k' :: 0 <= k' <= k && r[i].id in Ids(StationLines(ms[k']))
      {
        FirstContributorOrder(ms, r, i, j, k);
      }
    } else {
      DedupIds([]);
    }
  }

  lemma {:induction false} FirstContributorOrder(ms: seq<RawStop>, r: seq<Line>, i: nat, j: nat, k: nat)
    requires r == Dedup(AllCandidates(ms))
    requires i < j < |r| && k < |ms| && r[j].id in Ids(StationLines(ms[k]))
    ensures exists k' :: 0 <= k' <= k && r[i].id in Ids(StationLines(ms[k']))
  {
    var c := AllCandidates(ms);
    DedupFirstSeen(c);
    var front, back := ms[..k + 1], ms[k + 1..];
    assert ms == front + back;
    AllCandidatesAppend(front, back);
    var p := AllCandidates(front);
    StationLinesIds(ms[k], r[j].id);
    AllCandidatesHasId(front, r[j].id);
    assert front[k] == ms[k];
    FirstIndexInPrefix(p, AllCandidates(back), r[j].id);
    var fi := FirstIndex(c, r[i].id);
    assert fi < FirstIndex(c, r[j].id);
    assert p[fi] == c[fi];
    assert HasRawId(p, r[i].id);
    AllCandidatesHasId(front, r[i].id);
    var k' :| 0 <= k' < |front| && HasRawId(Candidates(front[k']), r[i].id);
    assert front[k'] == ms[k'];
    StationLinesIds(ms[k'], r[i].id);
  }

  /**
   * For a document `extractStations` can process, the global line list and
   * the stations' line lists name the same ids.
   */
  lemma {:induction false} LinesAgreeWithStations(doc: Option<RawDoc>)
    requires StationsWellFormed(doc)
    ensures forall id :: id in Ids(LinesOf(doc)) <==>
      exists k :: 0 <= k < |ExtractStations(doc)| && id in Ids(ExtractStations(doc)[k].lines)
  {
    LinesOfSpec(doc);
    if doc.None? || doc.value.stopPoints.None? {
      assert Ids([]) == [];
    } else {
      var ms, r := MetroStations(doc.value.stopPoints.value), ExtractStations(doc);
      assert |r| == |ms|;
      forall k | 0 <= k < |ms| ensures r[k].lines == StationLines(ms[k]) {
        assert r[k] == StationOf(ms[k]);
      }
    }
  }
}
