/**
 * The integer and list rules of the home board, `src/app/page.tsx`: the
 * birthday countdown and its texts, the minute label of an arrival, the
 * platform button, and the tests that light the approach banner, trigger a
 * refetch and start the fireworks.
 */
module BoardPage {
  import opened Options
  import opened Seqs
  import opened Text
  import opened TflModel

  // The unit lengths in milliseconds are written out as literals below:
  // a second 1000, a minute 60000, an hour 3600000, a day 86400000.

  /** JavaScript's `%`: the remainder takes the sign of the dividend. */
  function JsRem(a: int, b: int): (r: int)
    requires b > 0
    ensures a >= 0 ==> 0 <= r < b
    ensures a < 0 ==> -b < r <= 0
  {
    if a >= 0 then a % b else -((-a) % b)
  }

  /** The four fields of a countdown. */
  datatype Countdown = Countdown(days: int, hours: int, minutes: int, seconds: int)

  /**
   * The split of `timeToBirthday` in `getTimeToAge`. `Math.floor(x / d)` for a
   * positive `d` is Dafny's `x / d`, which rounds towards negative infinity.
   */
  function Decompose(t: int): Countdown {
    Countdown(t / 86400000, JsRem(t, 86400000) / 3600000, JsRem(t, 3600000) / 60000, JsRem(t, 60000) / 1000)
  }

  /** The number of milliseconds a countdown stands for. */
  function Recompose(c: Countdown): int {
    c.days * 86400000 + c.hours * 3600000 + c.minutes * 60000 + c.seconds * 1000
  }

  predicate InRange(c: Countdown) {
    c.days >= 0 && 0 <= c.hours < 24 && 0 <= c.minutes < 60 && 0 <= c.seconds < 60
  }

  /**
   * For a non-negative duration the fields are in range, `days` counts whole
   * days, and recomposing loses less than one second.
   */
  lemma {:induction false} DecomposeSpec(t: int)
    requires t >= 0
    ensures var c := Decompose(t);
      && InRange(c)
      && c.days * 86400000 <= t < (c.days + 1) * 86400000
      && Recompose(c) <= t < Recompose(c) + 1000
  {
    var q, r := t / 86400000, t % 86400000;
    assert t == q * 86400000 + r && 0 <= r < 86400000;
    var h, r2 := r / 3600000, r % 3600000;
    assert r == h * 3600000 + r2 && 0 <= r2 < 3600000;
    assert t % 3600000 == r2 by {
      assert t == (q * 24 + h) * 3600000 + r2;
    }
    var m, r3 := r2 / 60000, r2 % 60000;
    assert r2 == m * 60000 + r3 && 0 <= r3 < 60000;
    assert t % 60000 == r3 by {
      assert t == ((q * 24 + h) * 60 + m) * 60000 + r3;
    }
    var s, r4 := r3 / 1000, r3 % 1000;
    assert r3 == s * 1000 + r4 && 0 <= r4 < 1000;
    assert Decompose(t) == Countdown(q, h, m, s);
  }

  /** A countdown in range is what its own duration decomposes to. */
  lemma {:induction false} DecomposeRecompose(c: Countdown)
    requires InRange(c)
    ensures Decompose(Recompose(c)) == c
  {
    var t := Recompose(c);
    var secs := c.seconds * 1000;
    var mins := c.minutes * 60000 + secs;
    var hours := c.hours * 3600000 + mins;
    UnitDivision(t, 86400000, c.days, hours);
    UnitDivision(t, 3600000, c.days * 24 + c.hours, mins);
    UnitDivision(hours, 3600000, c.hours, mins);
    UnitDivision(t, 60000, (c.days * 24 + c.hours) * 60 + c.minutes, secs);
    UnitDivision(mins, 60000, c.minutes, secs);
    UnitDivision(secs, 1000, c.seconds, 0);
  }

  /** Division by one of the unit lengths: the quotient and remainder are the unique ones. */
  lemma {:induction false} UnitDivision(t: int, unit: int, q: int, r: int)
    requires unit == 1000 || unit == 60000 || unit == 3600000 || unit == 86400000
    requires t == q * unit + r && 0 <= r < unit
    ensures t / unit == q && t % unit == r
  {
    if unit == 1000 {
      assert t == q * 1000 + r;
    } else if unit == 60000 {
      assert t == q * 60000 + r;
    } else if unit == 3600000 {
      assert t == q * 3600000 + r;
    } else {
      assert t == q * 86400000 + r;
    }
  }

  /** `getTimeToAge`'s result. */
  datatype TimeToAge = TimeToAge(nextAge: int, days: int, hours: int, minutes: int, seconds: int)

  function CountdownOf(a: TimeToAge): Countdown {
    Countdown(a.days, a.hours, a.minutes, a.seconds)
  }

  /**
   * `getTimeToAge` at time `now` in local year `year`. The calendar is the
   * parameter `birthdayIn`: the instant of the birthday in a given year. The
   * code builds this year's birthday and, when that is already past, moves the
   * same date object one year on with `setFullYear`.
   */
  method GetTimeToAge(now: int, year: int, birthYear: int, birthdayIn: int -> int) returns (age: TimeToAge)
    ensures var y := if birthdayIn(year) < now then year + 1 else year;
      age.nextAge == y - birthYear && CountdownOf(age) == Decompose(birthdayIn(y) - now)
    ensures birthdayIn(year + 1) >= now ==> InRange(CountdownOf(age))
  {
    var nextYear := year;
    var nextBirthday := birthdayIn(year);
    if nextBirthday < now {
      nextYear := nextYear + 1;
      nextBirthday := birthdayIn(nextYear);
    }
    var nextAge := nextYear - birthYear;
    var timeToBirthday := nextBirthday - now;
    if timeToBirthday >= 0 {
      DecomposeSpec(timeToBirthday);
    }
    var c := Decompose(timeToBirthday);
    age := TimeToAge(nextAge, c.days, c.hours, c.minutes, c.seconds);
  }

  /** JavaScript's `${n}` for the count and a unit word, singular exactly for 1. */
  function Plural(n: int, singular: string, plural: string): string {
    IntToString(n) + " " + (if n == 1 then singular else plural)
  }

  /** `getTimeToAgeText`. */
  function TimeToAgeText(a: TimeToAge): string {
    var tail := " to your " + IntToString(a.nextAge) + "th birthday";
    if a.days > 0 then Plural(a.days, "day", "days") + tail
    else if a.hours > 0 then Plural(a.hours, "hour", "hours") + tail
    else if a.minutes > 0 then Plural(a.minutes, "minute", "minutes") + tail
    else Plural(a.seconds, "second", "seconds") + tail
  }

  /** The units of a countdown from the largest down, each with its count. */
  function Units(a: TimeToAge): seq<(int, string)> {
    [(a.days, "day"), (a.hours, "hour"), (a.minutes, "minute"), (a.seconds, "second")]
  }

  /** The position of the first of `us[..3]` with a positive count, or 3 when there is none. */
  function Leading(us: seq<(int, string)>, from: nat): (k: nat)
    requires from <= 3 < |us|
    ensures from <= k <= 3
    ensures k < 3 ==> us[k].0 > 0
    ensures forall j :: from <= j < k ==> us[j].0 <= 0
    decreases 3 - from
  {
    if from == 3 || us[from].0 > 0 then from else Leading(us, from + 1)
  }

  /**
   * The countdown text names the largest unit with a positive count (seconds
   * when days, hours and minutes are all zero or less), adds an "s" unless the
   * count is 1, and always says "th birthday".
   */
  lemma {:induction false} TimeToAgeTextSpec(a: TimeToAge)
    ensures var us := Units(a);
      var k := Leading(us, 0);
      var (n, unit) := us[k];
      TimeToAgeText(a) == IntToString(n) + " " + unit + (if n == 1 then "" else "s") +
        " to your " + IntToString(a.nextAge) + "th birthday"
    ensures EndsWith(TimeToAgeText(a), "th birthday")
  {
    var us := Units(a);
    var k := Leading(us, 0);
    if a.days > 0 {
      assert k == 0;
      WordSpec(a.days, "day", "days", a.nextAge);
    } else if a.hours > 0 {
      assert k == 1;
      WordSpec(a.hours, "hour", "hours", a.nextAge);
    } else if a.minutes > 0 {
      assert k == 2;
      WordSpec(a.minutes, "minute", "minutes", a.nextAge);
    } else {
      assert k == 3;
      WordSpec(a.seconds, "second", "seconds", a.nextAge);
    }
    TimeToAgeTextSuffix(a);
  }

  lemma {:induction false} TimeToAgeTextSuffix(a: TimeToAge)
    ensures EndsWith(TimeToAgeText(a), "th birthday")
  {
    var tail := " to your " + IntToString(a.nextAge) + "th birthday";
    assert EndsWith("th birthday", "th birthday");
    EndsWithAppend(" to your " + IntToString(a.nextAge), "th birthday", "th birthday");
    var head := if a.days > 0 then Plural(a.days, "day", "days")
      else if a.hours > 0 then Plural(a.hours, "hour", "hours")
      else if a.minutes > 0 then Plural(a.minutes, "minute", "minutes")
      else Plural(a.seconds, "second", "seconds");
    assert TimeToAgeText(a) == head + tail;
    EndsWithAppend(head, tail, "th birthday");
  }

  /** Concatenation regroups. */
  lemma {:induction false} AppendAssoc(x: string, y: string, z: string)
    ensures x + (y + z) == x + y + z
  {
  }

  /** One sentence of the countdown text, with the unit word made plural by an "s". */
  lemma {:induction false} WordSpec(n: int, singular: string, plural: string, age: int)
    requires plural == singular + "s"
    ensures Plural(n, singular, plural) + (" to your " + IntToString(age) + "th birthday") ==
      IntToString(n) + " " + singular + (if n == 1 then "" else "s") + " to your " + IntToString(age) + "th birthday"
  {
    var head, word := IntToString(n) + " ", if n == 1 then "" else "s";
    var mid, ageText, th := " to your ", IntToString(age), "th birthday";
    assert singular + word == (if n == 1 then singular else plural);
    AppendAssoc(head, singular, word);
    var p := head + singular + word;
    AppendAssoc(p, mid + ageText, th);
    AppendAssoc(p, mid, ageText);
  }

  /** `getCongratText`, as written: each unit is tested with `> 1`. */
  function CongratText(a: TimeToAge): string {
    if a.days > 1 then "Getting excited?"
    else if a.hours > 1 then "Almost there!"
    else if a.minutes > 1 then "Just a few minutes to go!"
    else "Happy birthday!"
  }

  /** The speech bubble holding the countdown and the greeting is drawn only while a minute or more is left. */
  predicate BubbleShown(a: TimeToAge) {
    a.days > 0 || a.hours > 0 || a.minutes > 0
  }

  /** The greeting text is chosen whenever days, hours and minutes are each at most 1. */
  lemma {:induction false} CongratTextSpec(a: TimeToAge)
    ensures CongratText(a) == "Happy birthday!" <==> a.days <= 1 && a.hours <= 1 && a.minutes <= 1
  {
  }

  /** With exactly one day to go the bubble is drawn and already says "Happy birthday!". */
  lemma {:induction false} CongratTextADayEarly(nextAge: int)
    ensures var c := Decompose(86400000);
      var a := TimeToAge(nextAge, c.days, c.hours, c.minutes, c.seconds);
      BubbleShown(a) && CongratText(a) == "Happy birthday!"
  {
    DecomposeRecompose(Countdown(1, 0, 0, 0));
  }

  /** `getCongratText` with `days > 0` and `hours > 0`, keeping `minutes > 1`. */
  function CongratTextIntended(a: TimeToAge): string {
    if a.days > 0 then "Getting excited?"
    else if a.hours > 0 then "Almost there!"
    else if a.minutes > 1 then "Just a few minutes to go!"
    else "Happy birthday!"
  }

  /**
   * With the corrected tests the bubble shows the greeting exactly in the
   * minute before the last one: the last minute hides the bubble and shows
   * the seconds instead.
   */
  lemma {:induction false} CongratTextIntendedShown(nextAge: int, t: int)
    requires t >= 0
    ensures var c := Decompose(t);
      var a := TimeToAge(nextAge, c.days, c.hours, c.minutes, c.seconds);
      (BubbleShown(a) && CongratTextIntended(a) == "Happy birthday!") <==> 60000 <= t < 120000
  {
    DecomposeSpec(t);
  }

  /** The fireworks start when every field of the countdown is 0. */
  predicate FireworksStart(a: TimeToAge) {
    a.days == 0 && a.hours == 0 && a.minutes == 0 && a.seconds == 0
  }

  /** For a non-negative duration that is exactly the last second before the birthday. */
  lemma {:induction false} FireworksInLastSecond(nextAge: int, t: int)
    requires t >= 0
    ensures var c := Decompose(t);
      FireworksStart(TimeToAge(nextAge, c.days, c.hours, c.minutes, c.seconds)) <==> t < 1000
  {
    DecomposeSpec(t);
  }

  // ---- arrivals on the board ----

  /** `Math.max(0, timeToStation - elapsedSeconds)`. */
  function Remaining(timeToStation: int, elapsed: int): (r: int)
    ensures r >= 0 && r >= timeToStation - elapsed
    ensures r == 0 || r == timeToStation - elapsed
  {
    if timeToStation - elapsed > 0 then timeToStation - elapsed else 0
  }

  /** `Math.ceil(s / 60)`. */
  function MinutesUp(s: int): (m: int)
    ensures (m - 1) * 60 < s <= m * 60
  {
    (s + 59) / 60
  }

  /** The minute label of `renderArrivalItem`. */
  function ArrivalLabel(timeToStation: int, elapsed: int): string {
    var remaining := Remaining(timeToStation, elapsed);
    if remaining <= 0 then ""
    else if remaining >= 10 then IntToString(MinutesUp(remaining)) + " min"
    else ""
  }

  /**
   * A label is shown exactly when at least 10 seconds remain, and then it is
   * the number of started minutes remaining followed by " min".
   */
  lemma {:induction false} ArrivalLabelSpec(timeToStation: int, elapsed: int)
    ensures var remaining := Remaining(timeToStation, elapsed);
      && (ArrivalLabel(timeToStation, elapsed) != "" <==> remaining >= 10)
      && forall m: nat :: (m - 1) * 60 < remaining <= m * 60 && remaining >= 10 ==>
           ArrivalLabel(timeToStation, elapsed) == NatToString(m) + " min"
  {
    var remaining := Remaining(timeToStation, elapsed);
    if remaining >= 10 {
      var k := MinutesUp(remaining);
      assert |IntToString(k) + " min"| > 0;
      forall m: nat | (m - 1) * 60 < remaining <= m * 60
        ensures ArrivalLabel(timeToStation, elapsed) == NatToString(m) + " min"
      {
        assert m == k;
      }
    }
  }

  /** `Math.floor((Date.now() - arrivalsTimestamp) / 1000)`: whole seconds since the arrivals were fetched. */
  function ElapsedSeconds(now: int, fetchedAt: int): (e: int)
    ensures e * 1000 <= now - fetchedAt < e * 1000 + 1000
  {
    (now - fetchedAt) / 1000
  }

  /** `isAnyTrainApproaching`. */
  predicate TrainApproaching(arrivals: seq<Arrival>, elapsed: int) {
    Any(arrivals, (a: Arrival) =>
      Remaining(a.timeToStation, elapsed) <= 10 && Remaining(a.timeToStation, elapsed) > 0)
  }

  /** The banner is on exactly when some train is due in more than 0 and at most 10 seconds. */
  lemma {:induction false} TrainApproachingSpec(arrivals: seq<Arrival>, elapsed: int)
    ensures TrainApproaching(arrivals, elapsed) <==>
      exists k :: 0 <= k < |arrivals| && 0 < arrivals[k].timeToStation - elapsed <= 10
  {
    AnyExists(arrivals, (a: Arrival) =>
      Remaining(a.timeToStation, elapsed) <= 10 && Remaining(a.timeToStation, elapsed) > 0);
  }

  /** `hasArrivedTrain`, which triggers a new arrivals request. */
  predicate TrainArrived(arrivals: seq<Arrival>, elapsed: int) {
    Any(arrivals, (a: Arrival) => a.timeToStation <= elapsed)
  }

  /** A refetch fires exactly when some train has no time remaining, which is when its label went blank for arrival. */
  lemma {:induction false} TrainArrivedSpec(arrivals: seq<Arrival>, elapsed: int)
    ensures TrainArrived(arrivals, elapsed) <==>
      exists k :: 0 <= k < |arrivals| && Remaining(arrivals[k].timeToStation, elapsed) == 0
    ensures forall k :: 0 <= k < |arrivals| && arrivals[k].timeToStation <= elapsed ==>
      ArrivalLabel(arrivals[k].timeToStation, elapsed) == ""
  {
    AnyExists(arrivals, (a: Arrival) => a.timeToStation <= elapsed);
  }

  // ---- the platform button ----

  /** The button's step: after the last platform comes platform 1. */
  function NextPlatform(p: int, platformCount: int): int {
    if p >= platformCount then 1 else p + 1
  }

  /** The button is drawn only for a station with at least two platforms. */
  predicate ShowPlatformButton(station: Option<StopPoint>) {
    station.Some? && station.value.platformCount >= 2
  }

  /** A platform in 1..count stays in 1..count, and when the button is shown it changes. */
  lemma {:induction false} NextPlatformInRange(p: int, station: StopPoint)
    requires 1 <= p <= station.platformCount
    ensures 1 <= NextPlatform(p, station.platformCount) <= station.platformCount
    ensures ShowPlatformButton(Some(station)) ==> NextPlatform(p, station.platformCount) != p
  {
  }

  /** The platform after `n` presses. */
  function Cycle(p: int, platformCount: int, n: nat): int {
    if n == 0 then p else NextPlatform(Cycle(p, platformCount, n - 1), platformCount)
  }

  /** Up to a full turn, `n` presses move `n` platforms on, wrapping past the last one. */
  lemma {:induction false} CycleValue(p: int, platformCount: int, n: nat)
    requires 1 <= p <= platformCount && n <= platformCount
    ensures Cycle(p, platformCount, n) == if p + n <= platformCount then p + n else p + n - platformCount
  {
    if n > 0 {
      CycleValue(p, platformCount, n - 1);
    }
  }

  /** Platform `q` comes up within fewer than `platformCount` presses from `p`. */
  predicate Reached(p: int, platformCount: int, q: int) {
    exists n: nat :: n < platformCount && Cycle(p, platformCount, n) == q
  }

  /** `platformCount` presses come back to the starting platform, having shown every platform on the way. */
  lemma {:induction false} FullCycle(p: int, platformCount: int)
    requires 1 <= p <= platformCount
    ensures Cycle(p, platformCount, platformCount) == p
    ensures forall q :: 1 <= q <= platformCount ==> Reached(p, platformCount, q)
  {
    CycleValue(p, platformCount, platformCount);
    forall q | 1 <= q <= platformCount
      ensures Reached(p, platformCount, q)
    {
      var n: nat := if q >= p then q - p else q - p + platformCount;
      CycleValue(p, platformCount, n);
    }
  }
}
