/**
 * The arrivals query of `getArrivalsForStation`, identical in the browser and
 * server modules: keep the arrivals whose platform name ends with
 * "Platform <n>" when a platform is asked for, sort them ascending by
 * `timeToStation` with a stable sort, keep the first `limit` of them when a
 * limit is given, and project each to an `Arrival`.
 *
 * `SortByTime` is the stable sort as a function (insertion of each element
 * after every element that is not later); `SortByTimeInPlace` is the in-place
 * sort on an array that the query runs.
 */
module TflArrivals {
  import opened Options
  import opened Seqs
  import opened Text
  import opened TflModel

  /** `extractArrival`: the raw fields copied into the output shape. */
  function ToArrival(r: RawArrival): (a: Arrival)
    ensures a.id == r.id && a.line == Line(r.lineId, r.lineName) && a.timeToStation == r.timeToStation
    ensures a.direction == r.direction && a.towards == r.towards
  {
    Arrival(r.id, Line(r.lineId, r.lineName), r.direction, r.towards, r.timeToStation)
  }

  /** `rawData.map(extractArrival)`. */
  function MapArrivals(items: seq<RawArrival>): (r: seq<Arrival>)
    ensures |r| == |items| && forall k :: 0 <= k < |items| ==> r[k] == ToArrival(items[k])
  {
    seq(|items|, k requires 0 <= k < |items| => ToArrival(items[k]))
  }

  /** `extractArrivals`: nothing for a body that is not an array, else one arrival per element, in order. */
  function ExtractArrivals(body: ArrivalsBody): seq<Arrival> {
    match body
    case NotAnArray => []
    case JsonArray(items) => MapArrivals(items)
  }

  /** The template string `Platform ${platform}` for a positive platform number. */
  function PlatformSuffix(platform: nat): string {
    "Platform " + NatToString(platform)
  }

  /** The platform filter, applied only when `platform > 0`. */
  function ByPlatform(items: seq<RawArrival>, platform: int): seq<RawArrival> {
    if platform > 0 then Filter(items, (a: RawArrival) => EndsWith(a.platformName, PlatformSuffix(platform)))
    else items
  }

  predicate SortedByTime(s: seq<RawArrival>) {
    forall i, j :: 0 <= i < j < |s| ==> s[i].timeToStation <= s[j].timeToStation
  }

  /** `s` with `x` placed after every element whose time is not later than its own. */
  function InsertByTime(s: seq<RawArrival>, x: RawArrival): seq<RawArrival>
    decreases |s|
  {
    if s == [] || s[|s| - 1].timeToStation <= x.timeToStation then s + [x]
    else InsertByTime(s[..|s| - 1], x) + [s[|s| - 1]]
  }

  /** The stable ascending sort by `timeToStation`. */
  function SortByTime(s: seq<RawArrival>): seq<RawArrival>
    decreases |s|
  {
    if s == [] then [] else InsertByTime(SortByTime(s[..|s| - 1]), s[|s| - 1])
  }

  /** The arrivals with time `t`, in order. */
  function AtTime(s: seq<RawArrival>, t: int): seq<RawArrival> {
    Filter(s, (a: RawArrival) => a.timeToStation == t)
  }

  /** `arrivals.slice(0, limit)`, applied only when `limit > 0`. */
  function Limit(s: seq<RawArrival>, limit: int): seq<RawArrival> {
    if limit > 0 then Take(s, limit) else s
  }

  /** The raw arrivals the query keeps, in the order it returns them. */
  function RawQuery(items: seq<RawArrival>, platform: int, limit: int): seq<RawArrival> {
    Limit(SortByTime(ByPlatform(items, platform)), limit)
  }

  /** What `getArrivalsForStation` returns for an array body. */
  function ArrivalsQuery(items: seq<RawArrival>, platform: int, limit: int): seq<Arrival> {
    MapArrivals(RawQuery(items, platform, limit))
  }

  // ---- the sort ----

  lemma {:induction false} InsertByTimeLength(s: seq<RawArrival>, x: RawArrival)
    ensures |InsertByTime(s, x)| == |s| + 1
    decreases |s|
  {
    if !(s == [] || s[|s| - 1].timeToStation <= x.timeToStation) {
      InsertByTimeLength(s[..|s| - 1], x);
    }
  }

  /** Insertion keeps a sorted sequence sorted; its last element is the later of `x` and the old last. */
  lemma {:induction false} InsertByTimeSorted(s: seq<RawArrival>, x: RawArrival)
    requires SortedByTime(s)
    ensures SortedByTime(InsertByTime(s, x))
    ensures InsertByTime(s, x) != []
    ensures var r := InsertByTime(s, x);
      r[|r| - 1] == (if s == [] || s[|s| - 1].timeToStation <= x.timeToStation then x else s[|s| - 1])
    decreases |s|
  {
    if s == [] || s[|s| - 1].timeToStation <= x.timeToStation {
      var r := s + [x];
      forall i, j | 0 <= i < j < |r| ensures r[i].timeToStation <= r[j].timeToStation {
        if j < |s| { assert r[i] == s[i] && r[j] == s[j]; }
        else if i < |s| - 1 { assert r[i] == s[i]; assert s[i].timeToStation <= s[|s| - 1].timeToStation; }
      }
    } else {
      var init, last := s[..|s| - 1], s[|s| - 1];
      assert SortedByTime(init) by {
        forall i, j | 0 <= i < j < |init| ensures init[i].timeToStation <= init[j].timeToStation {
          assert init[i] == s[i] && init[j] == s[j];
        }
      }
      InsertByTimeSorted(init, x);
      var q := InsertByTime(init, x);
      var r := q + [last];
      assert q[|q| - 1].timeToStation <= last.timeToStation;
      forall i, j | 0 <= i < j < |r| ensures r[i].timeToStation <= r[j].timeToStation {
        if j < |q| {
          assert r[i] == q[i] && r[j] == q[j];
        } else if i < |q| - 1 {
          assert r[i] == q[i];
          assert q[i].timeToStation <= q[|q| - 1].timeToStation;
        }
      }
    }
  }

  lemma {:induction false} InsertByTimeMultiset(s: seq<RawArrival>, x: RawArrival)
    ensures multiset(InsertByTime(s, x)) == multiset(s) + multiset{x}
    decreases |s|
  {
    if !(s == [] || s[|s| - 1].timeToStation <= x.timeToStation) {
      var init, last := s[..|s| - 1], s[|s| - 1];
      assert s == init + [last];
      InsertByTimeMultiset(init, x);
    }
  }

  /** Among arrivals with equal time, the inserted one comes last: insertion is stable. */
  lemma {:induction false} InsertByTimeStable(s: seq<RawArrival>, x: RawArrival, t: int)
    ensures AtTime(InsertByTime(s, x), t) == AtTime(s, t) + AtTime([x], t)
    decreases |s|
  {
    var p := (a: RawArrival) => a.timeToStation == t;
    if s == [] || s[|s| - 1].timeToStation <= x.timeToStation {
      FilterAppend(s, [x], p);
    } else {
      var init, last := s[..|s| - 1], s[|s| - 1];
      assert s == init + [last];
      var q := InsertByTime(init, x);
      InsertByTimeStable(init, x, t);
      FilterAppend(q, [last], p);
      FilterAppend(init, [last], p);
      // `last` is strictly later than `x`, so at most one of them has time `t`.
      assert AtTime([last], t) == [] || AtTime([x], t) == [];
    }
  }

  /** `SortByTime` sorts. */
  lemma {:induction false} SortByTimeSorted(s: seq<RawArrival>)
    ensures SortedByTime(SortByTime(s))
    decreases |s|
  {
    if s != [] {
      SortByTimeSorted(s[..|s| - 1]);
      InsertByTimeSorted(SortByTime(s[..|s| - 1]), s[|s| - 1]);
    }
  }

  /** `SortByTime` permutes. */
  lemma {:induction false} SortByTimePermutes(s: seq<RawArrival>)
    ensures multiset(SortByTime(s)) == multiset(s)
    ensures |SortByTime(s)| == |s|
    decreases |s|
  {
    if s != [] {
      var init, last := s[..|s| - 1], s[|s| - 1];
      assert s == init + [last];
      SortByTimePermutes(init);
      InsertByTimeMultiset(SortByTime(init), last);
      InsertByTimeLength(SortByTime(init), last);
    }
  }

  /** `SortByTime` is stable: the arrivals with any given time keep their relative order. */
  lemma {:induction false} SortByTimeStable(s: seq<RawArrival>, t: int)
    ensures AtTime(SortByTime(s), t) == AtTime(s, t)
    decreases |s|
  {
    if s != [] {
      var init, last := s[..|s| - 1], s[|s| - 1];
      assert s == init + [last];
      SortByTimeStable(init, t);
      InsertByTimeStable(SortByTime(init), last, t);
      FilterAppend(init, [last], (a: RawArrival) => a.timeToStation == t);
    }
  }

  /**
   * Where `x` goes: after every element no later than it, when everything
   * from position `j` on is strictly later and the element before `j` is not.
   */
  lemma {:induction false} InsertByTimeSplit(s: seq<RawArrival>, x: RawArrival, j: nat)
    requires j <= |s| && (j == 0 || s[j - 1].timeToStation <= x.timeToStation)
    requires forall k :: j <= k < |s| ==> s[k].timeToStation > x.timeToStation
    ensures InsertByTime(s, x) == s[..j] + [x] + s[j..]
    decreases |s|
  {
    if j == |s| {
      assert s[..j] == s && s[j..] == [];
    } else {
      var init, last := s[..|s| - 1], s[|s| - 1];
      InsertByTimeSplit(init, x, j);
      assert init[..j] == s[..j];
      assert init[j..] == s[j..|s| - 1];
      assert s[j..] == s[j..|s| - 1] + [last];
    }
  }

  /** The array prefix after the inner loop: the earlier elements, then `x`, then the shifted ones. */
  lemma {:induction false} InsertByTimePlaced(sorted: seq<RawArrival>, x: RawArrival, j: nat, b: seq<RawArrival>)
    requires j <= |sorted| && |b| == |sorted| + 1
    requires j == 0 || sorted[j - 1].timeToStation <= x.timeToStation
    requires forall k :: j <= k < |sorted| ==> sorted[k].timeToStation > x.timeToStation
    requires forall k :: 0 <= k < j ==> b[k] == sorted[k]
    requires b[j] == x
    requires forall k :: j < k < |b| ==> b[k] == sorted[k - 1]
    ensures b == InsertByTime(sorted, x)
  {
    InsertByTimeSplit(sorted, x, j);
    assert b == sorted[..j] + [x] + sorted[j..];
  }

  /**
   * The inner loop of one insertion pass: every element of the sorted prefix
   * `a[..i]` that is strictly later than `x` moves one cell right, and `j` is
   * the cell left free for `x`.
   */
  method ShiftLater(a: array<RawArrival>, i: nat, x: RawArrival, ghost sorted: seq<RawArrival>) returns (j: nat)
    requires i < a.Length && |sorted| == i
    requires forall k :: 0 <= k < i ==> a[k] == sorted[k]
    modifies a
    ensures j <= i
    ensures j == 0 || sorted[j - 1].timeToStation <= x.timeToStation
    ensures forall k :: 0 <= k < j ==> a[k] == sorted[k]
    ensures forall k :: j < k <= i ==> a[k] == sorted[k - 1]
    ensures forall k :: i < k < a.Length ==> a[k] == old(a[k])
    ensures forall k :: j <= k < i ==> sorted[k].timeToStation > x.timeToStation
  {
    j := i;
    while j > 0 && a[j - 1].timeToStation > x.timeToStation
      invariant 0 <= j <= i
      invariant forall k :: 0 <= k < j ==> a[k] == sorted[k]
      invariant forall k :: j < k <= i ==> a[k] == sorted[k - 1]
      invariant forall k :: i < k < a.Length ==> a[k] == old(a[k])
      invariant forall k :: j <= k < i ==> sorted[k].timeToStation > x.timeToStation
    {
      assert a[j - 1] == sorted[j - 1];
      a[j] := a[j - 1];
      j := j - 1;
    }
    if j > 0 {
      assert a[j - 1] == sorted[j - 1];
    }
  }

  /**
   * One pass of the insertion sort: the element at `i` slides left past every
   * earlier element that is strictly later, so the prefix `a[..i + 1]` becomes
   * the sorted prefix with that element inserted.
   */
  method InsertInPlace(a: array<RawArrival>, i: nat, ghost sorted: seq<RawArrival>)
    requires i < a.Length && a[..i] == sorted
    modifies a
    ensures a[..i + 1] == InsertByTime(sorted, old(a[i]))
    ensures forall k :: i < k < a.Length ==> a[k] == old(a[k])
  {
    var x := a[i];
    assert forall k :: 0 <= k < i ==> a[k] == sorted[k];
    var j := ShiftLater(a, i, x, sorted);
    a[j] := x;
    InsertByTimePlaced(sorted, x, j, a[..i + 1]);
  }

  /** Sorting one more element of a sequence inserts it into the sorted prefix. */
  lemma {:induction false} SortByTimeSnoc(s: seq<RawArrival>, i: nat)
    requires i < |s|
    ensures SortByTime(s[..i + 1]) == InsertByTime(SortByTime(s[..i]), s[i])
  {
    assert s[..i + 1][..i] == s[..i];
  }

  /**
   * `arrivals.sort((a, b) => a.timeToStation - b.timeToStation)` as a stable
   * in-place insertion sort: afterwards the array holds `SortByTime` of its old contents.
   */
  method SortByTimeInPlace(a: array<RawArrival>)
    modifies a
    ensures a[..] == SortByTime(old(a[..]))
  {
    ghost var input := a[..];
    var i := 0;
    while i < a.Length
      invariant 0 <= i <= a.Length
      invariant a[..i] == SortByTime(input[..i])
      invariant forall k :: i <= k < a.Length ==> a[k] == input[k]
    {
      ghost var prefix := a[..i];
      SortByTimeSnoc(input, i);
      InsertInPlace(a, i, prefix);
      i := i + 1;
    }
    assert input[..a.Length] == input;
  }

  // ---- the query ----

  /**
   * `getArrivalsForStation` after the key check and the request: `null` with
   * no application key, `[]` for a response that is not ok, a thrown error
   * when the body is not an array (`.filter` and `.sort` do not exist on it),
   * and otherwise the query on the array.
   */
  function ArrivalsReply(hasKey: bool, response: ArrivalsResponse, platform: int, limit: int): Call<Option<seq<Arrival>>> {
    if !hasKey then Returned(None)
    else match response
      case NotOk => Returned(Some([]))
      case Ok(NotAnArray) => Threw
      case Ok(JsonArray(items)) => Returned(Some(ArrivalsQuery(items, platform, limit)))
  }

  /** The imperative query: reassign `arrivals` by the filter, sort it in place, slice it, then project. */
  method GetArrivalsForStation(hasKey: bool, response: ArrivalsResponse, platform: int, limit: int)
    returns (r: Call<Option<seq<Arrival>>>)
    ensures r == ArrivalsReply(hasKey, response, platform, limit)
  {
    if !hasKey {
      return Returned(None);
    }
    match response {
      case NotOk =>
        r := Returned(Some([]));
      case Ok(NotAnArray) =>
        r := Threw;
      case Ok(JsonArray(items)) =>
        var arrivals := items;
        if platform > 0 {
          arrivals := Filter(arrivals, (a: RawArrival) => EndsWith(a.platformName, PlatformSuffix(platform)));
        }
        var buffer := new RawArrival[|arrivals|](k requires 0 <= k < |arrivals| => arrivals[k]);
        assert buffer[..] == arrivals;
        SortByTimeInPlace(buffer);
        var sorted := buffer[..];
        if limit > 0 {
          sorted := Take(sorted, limit);
        }
        r := Returned(Some(ExtractArrivals(JsonArray(sorted))));
    }
  }

  /** The platform filter keeps exactly the arrivals whose platform name ends with the suffix. */
  lemma {:induction false} ByPlatformMembership(items: seq<RawArrival>, platform: int, a: RawArrival)
    ensures a in ByPlatform(items, platform) <==>
      a in items && (platform > 0 ==> EndsWith(a.platformName, PlatformSuffix(platform)))
  {
    if platform > 0 {
      FilterMembership(items, (x: RawArrival) => EndsWith(x.platformName, PlatformSuffix(platform)), a);
    }
  }

  /** After its first character a platform suffix has no 'P': the rest is "latform " and digits. */
  lemma {:induction false} PlatformSuffixInnerChars(p: nat)
    ensures forall k :: 0 < k < |PlatformSuffix(p)| ==> PlatformSuffix(p)[k] != 'P'
  {
    var s, d := PlatformSuffix(p), NatToString(p);
    forall k | 0 < k < |s| ensures s[k] != 'P' {
      if k >= 9 {
        assert s[k] == d[k - 9];
      }
    }
  }

  /** Of two suffixes of one string, the shorter is a suffix of the longer. */
  lemma {:induction false} SuffixOfSuffix(name: string, a: string, b: string)
    requires EndsWith(name, a) && EndsWith(name, b) && |a| <= |b|
    ensures EndsWith(b, a)
  {
    var offset := |b| - |a|;
    forall k | 0 <= k < |a| ensures b[offset + k] == a[k] {
      assert b[offset + k] == name[|name| - |b| + offset + k];
      assert a[k] == name[|name| - |a| + k];
    }
  }

  /** When a name ends with two platform suffixes, the shorter one is the longer one. */
  lemma {:induction false} ShorterSuffixIsSame(name: string, p: nat, q: nat)
    requires EndsWith(name, PlatformSuffix(p)) && EndsWith(name, PlatformSuffix(q))
    ensures |PlatformSuffix(p)| <= |PlatformSuffix(q)| ==> PlatformSuffix(p) == PlatformSuffix(q)
  {
    var sp, sq := PlatformSuffix(p), PlatformSuffix(q);
    if |sp| <= |sq| {
      SuffixOfSuffix(name, sp, sq);
      PlatformSuffixInnerChars(q);
      assert sq[|sq| - |sp|] == sp[0];
    }
  }

  /** A platform name matches the filter of at most one platform: the filters of distinct platforms are disjoint. */
  lemma {:induction false} PlatformFiltersDisjoint(name: string, p: nat, q: nat)
    ensures EndsWith(name, PlatformSuffix(p)) && EndsWith(name, PlatformSuffix(q)) ==> p == q
  {
    if EndsWith(name, PlatformSuffix(p)) && EndsWith(name, PlatformSuffix(q)) {
      ShorterSuffixIsSame(name, p, q);
      ShorterSuffixIsSame(name, q, p);
      var s := PlatformSuffix(p);
      assert NatToString(p) == s[9..] && NatToString(q) == PlatformSuffix(q)[9..];
      NatToStringInjective(p, q);
    }
  }

  /** The query's output is ascending by `timeToStation`. */
  lemma {:induction false} ArrivalsQuerySorted(items: seq<RawArrival>, platform: int, limit: int)
    ensures var out := ArrivalsQuery(items, platform, limit);
      forall i, j :: 0 <= i < j < |out| ==> out[i].timeToStation <= out[j].timeToStation
  {
    var m := ByPlatform(items, platform);
    var sorted := SortByTime(m);
    SortByTimeSorted(m);
    var q := RawQuery(items, platform, limit);
    assert q <= sorted;
    var out := ArrivalsQuery(items, platform, limit);
    forall i, j | 0 <= i < j < |out| ensures out[i].timeToStation <= out[j].timeToStation {
      assert out[i].timeToStation == sorted[i].timeToStation;
      assert out[j].timeToStation == sorted[j].timeToStation;
    }
  }

  /**
   * Every arrival the query keeps is one of the response's arrivals and, when a
   * platform is asked for, one whose platform name ends with "Platform <n>".
   */
  lemma {:induction false} RawQueryPlatform(items: seq<RawArrival>, platform: int, limit: int)
    ensures forall a :: a in RawQuery(items, platform, limit) ==>
      a in items && (platform > 0 ==> EndsWith(a.platformName, PlatformSuffix(platform)))
  {
    var m := ByPlatform(items, platform);
    var sorted := SortByTime(m);
    SortByTimePermutes(m);
    forall a | a in RawQuery(items, platform, limit)
      ensures a in items && (platform > 0 ==> EndsWith(a.platformName, PlatformSuffix(platform)))
    {
      assert a in sorted;
      assert a in multiset(sorted);
      assert a in m;
      ByPlatformMembership(items, platform, a);
    }
  }

  /** With a positive limit at most `limit` matching arrivals are kept, and all of them when there are fewer. */
  lemma {:induction false} RawQueryLength(items: seq<RawArrival>, platform: int, limit: int)
    ensures var n := |ByPlatform(items, platform)|;
      |RawQuery(items, platform, limit)| == if limit > 0 && limit < n then limit else n
  {
    SortByTimePermutes(ByPlatform(items, platform));
  }

  /** Nothing is lost or duplicated when no limit applies: the query is a permutation of the matches. */
  lemma {:induction false} RawQueryPermutes(items: seq<RawArrival>, platform: int, limit: int)
    requires limit <= 0
    ensures multiset(RawQuery(items, platform, limit)) == multiset(ByPlatform(items, platform))
  {
    SortByTimePermutes(ByPlatform(items, platform));
  }

  /** In a sorted sequence a strictly earlier arrival sits at a smaller index. */
  lemma {:induction false} SortedEarlierBefore(s: seq<RawArrival>, i: nat, j: nat)
    requires SortedByTime(s) && i < |s| && j < |s|
    requires s[j].timeToStation < s[i].timeToStation
    ensures j < i
  {
  }

  /**
   * The limit keeps the earliest arrivals: a matching arrival strictly earlier
   * than a kept one is kept too.
   */
  lemma {:induction false} RawQueryKeepsEarliest(items: seq<RawArrival>, platform: int, limit: int, x: RawArrival, y: RawArrival)
    requires x in RawQuery(items, platform, limit) && y in ByPlatform(items, platform)
    requires y.timeToStation < x.timeToStation
    ensures y in RawQuery(items, platform, limit)
  {
    var m := ByPlatform(items, platform);
    var sorted := SortByTime(m);
    var q := RawQuery(items, platform, limit);
    assert q <= sorted;
    SortByTimeSorted(m);
    SortByTimePermutes(m);
    var ix :| 0 <= ix < |q| && q[ix] == x;
    assert y in multiset(sorted);
    var iy :| 0 <= iy < |sorted| && sorted[iy] == y;
    SortedEarlierBefore(sorted, ix, iy);
    assert q[iy] == y;
  }

  /** Arrivals at the same time keep their response order when no limit applies. */
  lemma {:induction false} RawQueryStable(items: seq<RawArrival>, platform: int, limit: int, t: int)
    requires limit <= 0
    ensures AtTime(RawQuery(items, platform, limit), t) == AtTime(ByPlatform(items, platform), t)
  {
    SortByTimeStable(ByPlatform(items, platform), t);
  }

  /** `extractArrivals`: `[]` for a non-array body, else a map that keeps length and order. */
  lemma {:induction false} ExtractArrivalsSpec(body: ArrivalsBody)
    ensures body.NotAnArray? ==> ExtractArrivals(body) == []
    ensures body.JsonArray? ==> |ExtractArrivals(body)| == |body.items|
    ensures body.JsonArray? ==>
      forall k :: 0 <= k < |body.items| ==> ExtractArrivals(body)[k] == ToArrival(body.items[k])
  {
  }

  /** The reply's outcomes: `null` without a key, `[]` for a failed request, an error for a non-array body. */
  lemma {:induction false} ArrivalsReplyCases(hasKey: bool, response: ArrivalsResponse, platform: int, limit: int)
    ensures var r := ArrivalsReply(hasKey, response, platform, limit);
      && (r == Returned(None) <==> !hasKey)
      && (r == Threw <==> hasKey && response == Ok(NotAnArray))
      && (hasKey && response.NotOk? ==> r == Returned(Some([])))
  {
  }
}
