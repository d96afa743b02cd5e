/** Hourly activity from a day's cumulative curve: every hour is a difference of boundary totals, and they telescope. */
module Activity {
  import opened Common
  import opened Curves

  const HOUR_MS: int := 3600000
  const BOUNDARY_MAX_AGE_MS: int := 30 * 60000

  datatype Interval = Measured(tokens: real) | Current(tokens: real) | Future | Unmeasured

  datatype BucketState = BucketMeasured | BucketCurrent | BucketFuture | BucketUnmeasured | BucketNonexistent

  datatype HourlyBucket = HourlyBucket(hour: nat, state: BucketState, tokens: Option<real>)

  /** One day's points, its bounds, and the clock hour of each instant; daylight saving makes hours repeat or vanish. */
  datatype Day = Day(points: seq<Point>, startMs: int, endMs: int, hourOf: int -> nat, today: bool)

  /** Points of a valid curve inside the day. */
  ghost predicate DayOk(d: Day) {
    && d.startMs <= d.endMs && Rising(d.points)
    && (forall i :: 0 <= i < |d.points| ==> d.startMs <= d.points[i].at < d.endMs)
    && forall at :: d.hourOf(at) < 24
  }

  function WithinDay(points: seq<Point>, startMs: int, endMs: int): seq<Point> {
    if points == [] then []
    else
      var last := points[|points| - 1];
      WithinDay(points[..|points| - 1], startMs, endMs) + (if startMs <= last.at < endMs then [last] else [])
  }

  lemma {:induction false} WithinMembers(points: seq<Point>, startMs: int, endMs: int)
    ensures forall p :: p in WithinDay(points, startMs, endMs) <==> p in points && startMs <= p.at < endMs
  {
    if points != [] {
      WithinMembers(points[..|points| - 1], startMs, endMs);
      assert points == points[..|points| - 1] + [points[|points| - 1]];
    }
  }

  lemma {:induction false} WithinRises(points: seq<Point>, startMs: int, endMs: int)
    requires Rising(points)
    ensures Rising(WithinDay(points, startMs, endMs))
  {
    if points != [] {
      var init, last := points[..|points| - 1], points[|points| - 1];
      WithinRises(init, startMs, endMs);
      WithinMembers(init, startMs, endMs);
      forall p | p in init ensures p.at < last.at && p.total <= last.total {
        var j :| 0 <= j < |init| && init[j] == p;
        assert points[j] == p;
      }
      RisesBy(WithinDay(init, startMs, endMs), last);
    }
  }

  lemma RisesBy(kept: seq<Point>, last: Point)
    requires Rising(kept) && last.total >= 0.0 && forall p :: p in kept ==> p.at < last.at && p.total <= last.total
    ensures Rising(kept + [last])
  {
    assert forall i :: 0 <= i < |kept| ==> kept[i] in kept;
  }

  /** The day of any valid curve: readings outside the day's bounds are set aside. */
  lemma CurveDay(points: seq<Point>, startMs: int, endMs: int, hourOf: int -> nat, today: bool)
    requires Rising(points) && startMs <= endMs && forall at :: hourOf(at) < 24
    ensures DayOk(Day(WithinDay(points, startMs, endMs), startMs, endMs, hourOf, today))
    ensures forall p :: p in WithinDay(points, startMs, endMs) <==> p in points && startMs <= p.at < endMs
  {
    WithinRises(points, startMs, endMs);
    WithinMembers(points, startMs, endMs);
    var kept := WithinDay(points, startMs, endMs);
    forall i | 0 <= i < |kept| ensures startMs <= kept[i].at < endMs {
      assert kept[i] in kept;
    }
  }

  // ----- totals at boundaries -----

  function Newest(points: seq<Point>, boundary: int): Option<Point> {
    if points == [] then None
    else if points[|points| - 1].at <= boundary then Some(points[|points| - 1])
    else Newest(points[..|points| - 1], boundary)
  }

  /** The total as of a boundary: zero at midnight, otherwise the newest reading, unless it is too old. */
  function TotalAt(points: seq<Point>, boundary: int, dayStart: int): Option<real> {
    if boundary == dayStart then Some(0.0)
    else
      var latest := Newest(points, boundary);
      if latest.Some? && boundary - latest.value.at <= BOUNDARY_MAX_AGE_MS then Some(latest.value.total) else None
  }

  lemma {:induction false} NewestPrefix(points: seq<Point>, n: nat, boundary: int)
    requires Rising(points) && n <= |points|
    requires forall i :: 0 <= i < n ==> points[i].at <= boundary
    requires forall i :: n <= i < |points| ==> points[i].at > boundary
    ensures Newest(points, boundary) == if n == 0 then None else Some(points[n - 1])
    decreases |points|
  {
    if n < |points| {
      var init := points[..|points| - 1];
      NewestPrefix(init, n, boundary);
    }
  }

  /** The last reading at or before a boundary. */
  ghost predicate LastBy(points: seq<Point>, boundary: int, i: int) {
    0 <= i < |points| && points[i].at <= boundary && forall j :: i < j < |points| ==> points[j].at > boundary
  }

  lemma {:induction false} NewestIsLast(points: seq<Point>, boundary: int) returns (i: int)
    ensures Newest(points, boundary).None? ==> forall j :: 0 <= j < |points| ==> points[j].at > boundary
    ensures Newest(points, boundary).Some? ==>
              LastBy(points, boundary, i) && Newest(points, boundary) == Some(points[i])
  {
    i := |points| - 1;
    if points != [] && points[i].at > boundary {
      i := NewestIsLast(points[..i], boundary);
    }
  }

  /** Away from midnight a total is known exactly when a reading lies in the half hour up to the boundary. */
  lemma TotalKnownExactly(points: seq<Point>, boundary: int, dayStart: int)
    requires Rising(points) && boundary != dayStart
    ensures TotalAt(points, boundary, dayStart).Some?
            <==> exists i :: 0 <= i < |points| && boundary - 1800000 <= points[i].at <= boundary
    ensures TotalAt(points, boundary, dayStart).Some? ==>
              exists i :: LastBy(points, boundary, i) && TotalAt(points, boundary, dayStart) == Some(points[i].total)
  {
    var i := NewestIsLast(points, boundary);
  }

  method TotalAtBoundary(points: seq<Point>, boundary: int, dayStart: int) returns (total: Option<real>)
    requires Rising(points)
    ensures total == TotalAt(points, boundary, dayStart)
  {
    if boundary == dayStart {
      return Some(0.0);
    }
    var latest: Option<Point> := None;
    var n := 0;
    while n < |points| && points[n].at <= boundary
      invariant 0 <= n <= |points| && forall i :: 0 <= i < n ==> points[i].at <= boundary
      invariant latest == if n == 0 then None else Some(points[n - 1])
    {
      latest := Some(points[n]);
      n := n + 1;
    }
    NewestPrefix(points, n, boundary);
    total := if latest.Some? && boundary - latest.value.at <= BOUNDARY_MAX_AGE_MS
      then Some(latest.value.total) else None;
  }

  /** Later boundaries never show less. */
  lemma {:induction false} TotalsRise(points: seq<Point>, a: int, b: int, dayStart: int)
    requires Rising(points) && dayStart <= a <= b
    requires TotalAt(points, a, dayStart).Some? && TotalAt(points, b, dayStart).Some?
    ensures 0.0 <= TotalAt(points, a, dayStart).value <= TotalAt(points, b, dayStart).value
  {
    NewestRises(points, a, b);
  }

  lemma {:induction false} NewestRises(points: seq<Point>, a: int, b: int)
    requires Rising(points) && a <= b
    ensures Newest(points, a).Some? ==> Newest(points, a).value in points && Newest(points, b).Some?
                                        && 0.0 <= Newest(points, a).value.total <= Newest(points, b).value.total
    ensures Newest(points, b).Some? ==> Newest(points, b).value in points && Newest(points, b).value.total >= 0.0
  {
    if points != [] {
      NewestRises(points[..|points| - 1], a, b);
    }
  }

  // ----- intervals -----

  function IntervalStart(d: Day, k: int): int {
    d.startMs + k * HOUR_MS
  }

  function IntervalEnd(d: Day, k: int): int {
    if IntervalStart(d, k + 1) <= d.endMs then IntervalStart(d, k + 1) else d.endMs
  }

  /** Where the `k`-th interval's measurement ends: at the latest reading inside it, on the current day. */
  function EffectiveEnd(d: Day, k: int): int {
    if d.today && d.points != [] && d.points[|d.points| - 1].at < IntervalEnd(d, k) then d.points[|d.points| - 1].at
    else IntervalEnd(d, k)
  }

  predicate IsFuture(d: Day, k: int) {
    d.today && (d.points == [] || d.points[|d.points| - 1].at < IntervalStart(d, k))
  }

  predicate IsCurrent(d: Day, k: int) {
    d.today && d.points != [] && d.points[|d.points| - 1].at < IntervalEnd(d, k)
  }

  /** The `k`-th hour-long interval, its difference clamped at zero. */
  function IntervalAt(d: Day, k: int): Interval {
    if IsFuture(d, k) then Future
    else
      var from := TotalAt(d.points, IntervalStart(d, k), d.startMs);
      var to := TotalAt(d.points, EffectiveEnd(d, k), d.startMs);
      if from.None? || to.None? then Unmeasured
      else
        var tokens := MaxTotal(0.0, to.value - from.value);
        if IsCurrent(d, k) then Current(tokens) else Measured(tokens)
  }

  function Tokens(i: Interval): real {
    match i
    case Measured(tokens) => tokens
    case Current(tokens) => tokens
    case Future => 0.0
    case Unmeasured => 0.0
  }

  /** How many intervals a day has. */
  function IntervalCount(d: Day): nat {
    if d.endMs <= d.startMs then 0 else (d.endMs - d.startMs + HOUR_MS - 1) / HOUR_MS
  }

  method MeasureInterval(d: Day, intervalStart: int, ghost k: int) returns (part: Interval)
    requires DayOk(d) && intervalStart == IntervalStart(d, k)
    ensures part == IntervalAt(d, k)
  {
    var intervalEnd := if intervalStart + HOUR_MS <= d.endMs then intervalStart + HOUR_MS else d.endMs;
    var observed := d.points != [];
    if d.today && (!observed || d.points[|d.points| - 1].at < intervalStart) {
      return Future;
    }
    var current := d.today && observed && d.points[|d.points| - 1].at < intervalEnd;
    var effectiveEnd := if current then d.points[|d.points| - 1].at else intervalEnd;
    var startTotal := TotalAtBoundary(d.points, intervalStart, d.startMs);
    var endTotal := TotalAtBoundary(d.points, effectiveEnd, d.startMs);
    if startTotal.None? || endTotal.None? {
      part := Unmeasured;
    } else {
      var tokens := MaxTotal(0.0, endTotal.value - startTotal.value);
      part := if current then Current(tokens) else Measured(tokens);
    }
  }

  // ----- buckets -----

  /** The intervals among the first `k` whose clock hour is `h`. */
  function PartsOf(d: Day, h: nat, k: nat): seq<Interval> {
    if k == 0 then []
    else PartsOf(d, h, k - 1) + (if d.hourOf(IntervalStart(d, k - 1)) == h then [IntervalAt(d, k - 1)] else [])
  }

  function PartsTokens(parts: seq<Interval>): real {
    if parts == [] then 0.0 else PartsTokens(parts[..|parts| - 1]) + Tokens(parts[|parts| - 1])
  }

  function BucketOf(h: nat, parts: seq<Interval>): HourlyBucket {
    if parts == [] then HourlyBucket(h, BucketNonexistent, None)
    else if forall i :: 0 <= i < |parts| ==> parts[i].Future? then HourlyBucket(h, BucketFuture, None)
    else if exists i :: 0 <= i < |parts| && parts[i].Unmeasured? then HourlyBucket(h, BucketUnmeasured, None)
    else
      var current := exists i :: 0 <= i < |parts| && (parts[i].Current? || parts[i].Future?);
      HourlyBucket(h, if current then BucketCurrent else BucketMeasured, Some(MaxTotal(0.0, PartsTokens(parts))))
  }

  method ReduceCurveActivity(d: Day) returns (buckets: seq<HourlyBucket>)
    requires DayOk(d)
    ensures |buckets| == 24 && forall h :: 0 <= h < 24 ==> buckets[h] == BucketOf(h, PartsOf(d, h, IntervalCount(d)))
  {
    var byHour: seq<seq<Interval>> := seq(24, h => []);
    var intervalStart := d.startMs;
    ghost var k := 0;
    while intervalStart < d.endMs
      invariant k >= 0 && intervalStart == IntervalStart(d, k) && k <= IntervalCount(d)
      invariant |byHour| == 24 && forall h :: 0 <= h < 24 ==> byHour[h] == PartsOf(d, h, k)
      decreases d.endMs - intervalStart
    {
      var part := MeasureInterval(d, intervalStart, k);
      var hour := d.hourOf(intervalStart);
      byHour := byHour[hour := byHour[hour] + [part]];
      intervalStart := intervalStart + HOUR_MS;
      k := k + 1;
    }
    assert k == IntervalCount(d);
    buckets := seq(24, h requires 0 <= h < 24 && |byHour| == 24 => BucketOf(h, byHour[h]));
  }

  // ----- telescoping -----

  /** The tokens of the first `k` intervals. */
  ghost function FirstTokens(d: Day, k: nat): real {
    if k == 0 then 0.0 else FirstTokens(d, k - 1) + Tokens(IntervalAt(d, k - 1))
  }

  /** The clamp at zero never changes an interval's difference. */
  lemma ClampIdle(d: Day, k: nat)
    requires DayOk(d) && k < IntervalCount(d) && IntervalAt(d, k) != Future && IntervalAt(d, k) != Unmeasured
    ensures var from := TotalAt(d.points, IntervalStart(d, k), d.startMs);
            var to := TotalAt(d.points, EffectiveEnd(d, k), d.startMs);
            from.Some? && to.Some? && Tokens(IntervalAt(d, k)) == to.value - from.value
  {
    assert IntervalStart(d, k) < d.endMs;
    assert IntervalStart(d, k) <= EffectiveEnd(d, k);
    TotalsRise(d.points, IntervalStart(d, k), EffectiveEnd(d, k), d.startMs);
  }

  ghost predicate AllMeasured(d: Day, k: nat) {
    forall j :: 0 <= j < k ==> !IntervalAt(d, j).Unmeasured?
  }

  /** Measured intervals telescope to the total at the end of the last one. */
  lemma {:induction false} Telescopes(d: Day, k: nat)
    requires DayOk(d) && 0 < k <= IntervalCount(d) && AllMeasured(d, k) && !IsFuture(d, k - 1)
    ensures TotalAt(d.points, EffectiveEnd(d, k - 1), d.startMs) == Some(FirstTokens(d, k))
    decreases k
  {
    ClampIdle(d, k - 1);
    if k > 1 {
      assert IntervalStart(d, k - 1) < d.endMs;
      assert !IsFuture(d, k - 2) && EffectiveEnd(d, k - 2) == IntervalStart(d, k - 1);
      Telescopes(d, k - 1);
    } else {
      assert FirstTokens(d, 1) == FirstTokens(d, 0) + Tokens(IntervalAt(d, 0));
    }
  }

  /** Intervals after the latest reading add nothing. */
  lemma {:induction false} FutureAddsNothing(d: Day, j: nat, k: nat)
    requires j <= k && forall i :: j <= i < k ==> IsFuture(d, i)
    ensures FirstTokens(d, k) == FirstTokens(d, j)
    decreases k
  {
    if j < k {
      FutureAddsNothing(d, j, k - 1);
    }
  }

  /** Today: the measured intervals add up to the latest reading, taken after midnight. */
  lemma TodayTotal(d: Day)
    requires DayOk(d) && d.today && d.points != [] && d.points[|d.points| - 1].at > d.startMs
    requires AllMeasured(d, IntervalCount(d))
    ensures FirstTokens(d, IntervalCount(d)) == d.points[|d.points| - 1].total
  {
    var latest := d.points[|d.points| - 1];
    var k := (latest.at - d.startMs) / HOUR_MS;
    assert IntervalStart(d, k) <= latest.at < IntervalStart(d, k + 1);
    assert k < IntervalCount(d);
    Telescopes(d, k + 1);
    assert EffectiveEnd(d, k) == latest.at;
    assert Newest(d.points, latest.at) == Some(latest);
    FutureAddsNothing(d, k + 1, IntervalCount(d));
  }

  /** A closed day: the measured intervals add up to its last reading. */
  lemma ClosedTotal(d: Day)
    requires DayOk(d) && !d.today && d.startMs < d.endMs && AllMeasured(d, IntervalCount(d))
    ensures d.points != [] && FirstTokens(d, IntervalCount(d)) == d.points[|d.points| - 1].total
  {
    var n := IntervalCount(d);
    Telescopes(d, n);
    assert IntervalEnd(d, n - 1) == d.endMs;
    if d.points != [] {
      assert Newest(d.points, d.endMs) == Some(d.points[|d.points| - 1]);
    }
  }

  // ----- from intervals to buckets -----

  /** The tokens of the first `k` intervals, summed over the first `n` clock hours. */
  ghost function HourSum(d: Day, n: nat, k: nat): real {
    if n == 0 then 0.0 else HourSum(d, n - 1, k) + PartsTokens(PartsOf(d, n - 1, k))
  }

  lemma {:induction false} HourSumStep(d: Day, n: nat, k: nat)
    ensures HourSum(d, n, k + 1)
            == HourSum(d, n, k) + (if d.hourOf(IntervalStart(d, k)) < n then Tokens(IntervalAt(d, k)) else 0.0)
  {
    if n > 0 {
      HourSumStep(d, n - 1, k);
      var parts := PartsOf(d, n - 1, k);
      if d.hourOf(IntervalStart(d, k)) == n - 1 {
        assert (parts + [IntervalAt(d, k)])[..|parts|] == parts;
      } else {
        assert parts + [] == parts;
      }
    }
  }

  /** Every interval counts in exactly one hour. */
  lemma {:induction false} HoursCover(d: Day, hours: nat, k: nat)
    requires forall at :: d.hourOf(at) < hours
    ensures HourSum(d, hours, k) == FirstTokens(d, k)
    decreases k
  {
    if k == 0 {
      NoParts(d, hours);
    } else {
      HoursCover(d, hours, k - 1);
      HourSumStep(d, hours, k - 1);
    }
  }

  lemma {:induction false} NoParts(d: Day, n: nat)
    ensures HourSum(d, n, 0) == 0.0
  {
    if n > 0 {
      NoParts(d, n - 1);
    }
  }

  ghost function BucketSum(buckets: seq<HourlyBucket>): real {
    if buckets == [] then 0.0
    else BucketSum(buckets[..|buckets| - 1])
         + (if buckets[|buckets| - 1].tokens.Some? then buckets[|buckets| - 1].tokens.value else 0.0)
  }

  /** The buckets a day deserves. */
  ghost predicate BucketsOf(d: Day, buckets: seq<HourlyBucket>) {
    |buckets| == 24 && forall h :: 0 <= h < 24 ==> buckets[h] == BucketOf(h, PartsOf(d, h, IntervalCount(d)))
  }

  lemma {:induction false} PartsNonNegative(parts: seq<Interval>)
    requires forall i :: 0 <= i < |parts| ==> Tokens(parts[i]) >= 0.0
    ensures PartsTokens(parts) >= 0.0
    ensures (forall i :: 0 <= i < |parts| ==> parts[i].Future?) ==> PartsTokens(parts) == 0.0
  {
    if parts != [] {
      PartsNonNegative(parts[..|parts| - 1]);
    }
  }

  lemma {:induction false} PartsClamped(d: Day, h: nat, k: nat)
    ensures forall i :: 0 <= i < |PartsOf(d, h, k)| ==> Tokens(PartsOf(d, h, k)[i]) >= 0.0
  {
    if k > 0 {
      PartsClamped(d, h, k - 1);
    }
  }

  lemma {:induction false} BucketsAdd(d: Day, buckets: seq<HourlyBucket>, n: nat)
    requires BucketsOf(d, buckets) && n <= 24
    requires forall h :: 0 <= h < 24 ==> buckets[h].state != BucketUnmeasured
    ensures BucketSum(buckets[..n]) == HourSum(d, n, IntervalCount(d))
  {
    if n > 0 {
      BucketsAdd(d, buckets, n - 1);
      assert buckets[..n][..n - 1] == buckets[..n - 1];
      PartsClamped(d, n - 1, IntervalCount(d));
      PartsNonNegative(PartsOf(d, n - 1, IntervalCount(d)));
    }
  }

  /** An unmeasured interval makes its bucket unmeasured. */
  lemma {:induction false} UnmeasuredShows(d: Day, j: nat, k: nat)
    requires DayOk(d) && j < k && IntervalAt(d, j).Unmeasured?
    ensures Unmeasured in PartsOf(d, d.hourOf(IntervalStart(d, j)), k)
    decreases k
  {
    if j < k - 1 {
      UnmeasuredShows(d, j, k - 1);
    }
  }

  lemma UnmeasuredBucket(d: Day, j: nat)
    requires DayOk(d) && j < IntervalCount(d) && IntervalAt(d, j).Unmeasured?
    ensures var h := d.hourOf(IntervalStart(d, j));
            BucketOf(h, PartsOf(d, h, IntervalCount(d))).state == BucketUnmeasured
  {
    var h := d.hourOf(IntervalStart(d, j));
    UnmeasuredShows(d, j, IntervalCount(d));
    var i :| 0 <= i < |PartsOf(d, h, IntervalCount(d))| && PartsOf(d, h, IntervalCount(d))[i] == Unmeasured;
  }

  lemma MeasuredBuckets(d: Day, buckets: seq<HourlyBucket>)
    requires DayOk(d) && BucketsOf(d, buckets)
    requires forall h :: 0 <= h < 24 ==> buckets[h].state != BucketUnmeasured
    ensures AllMeasured(d, IntervalCount(d)) && BucketSum(buckets) == FirstTokens(d, IntervalCount(d))
  {
    forall j | 0 <= j < IntervalCount(d) ensures !IntervalAt(d, j).Unmeasured? {
      if IntervalAt(d, j).Unmeasured? {
        UnmeasuredBucket(d, j);
      }
    }
    BucketsAdd(d, buckets, 24);
    TakeAll(buckets);
    HoursCover(d, 24, IntervalCount(d));
  }

  /** Today's buckets, when none is unmeasured, add up to the curve's latest total. */
  lemma TodayTelescopes(d: Day, buckets: seq<HourlyBucket>)
    requires DayOk(d) && BucketsOf(d, buckets) && d.today && d.points != [] && d.points[|d.points| - 1].at > d.startMs
    requires forall h :: 0 <= h < 24 ==> buckets[h].state != BucketUnmeasured
    ensures BucketSum(buckets) == d.points[|d.points| - 1].total
  {
    MeasuredBuckets(d, buckets);
    TodayTotal(d);
  }

  /** A curve's own day, from its midnight to the next. */
  function DayOf(curve: Curve, midnight: int -> int, hourOf: int -> nat, today: bool): Day {
    var startMs, endMs := midnight(curve.day), midnight(curve.day + 1);
    Day(WithinDay(curve.points, startMs, endMs), startMs, endMs, hourOf, today)
  }

  /** The total published for the day before: the last reading inside it, if the curve kept is that day's. */
  function YesterdayTotal(curves: DayCurves, midnight: int -> int): Option<real> {
    if curves.yesterday.None? || curves.yesterday.value.day != curves.today.day - 1 then None
    else
      var yesterday := curves.yesterday.value;
      var points := WithinDay(yesterday.points, midnight(yesterday.day), midnight(yesterday.day + 1));
      if points == [] then None else Some(points[|points| - 1].total)
  }

  /**
   * The day before, when none of its buckets is unmeasured, adds up to its
   * published total; a curve kept from any other day publishes none.
   */
  lemma YesterdayTelescopes(curves: DayCurves, midnight: int -> int, hourOf: int -> nat, buckets: seq<HourlyBucket>)
    requires curves.yesterday.Some? && Rising(curves.yesterday.value.points)
    requires midnight(curves.yesterday.value.day) < midnight(curves.yesterday.value.day + 1)
    requires forall at :: hourOf(at) < 24
    requires BucketsOf(DayOf(curves.yesterday.value, midnight, hourOf, false), buckets)
    requires forall h :: 0 <= h < 24 ==> buckets[h].state != BucketUnmeasured
    ensures YesterdayTotal(curves, midnight)
            == if curves.yesterday.value.day == curves.today.day - 1 then Some(BucketSum(buckets)) else None
  {
    var yesterday := curves.yesterday.value;
    var d := DayOf(yesterday, midnight, hourOf, false);
    CurveDay(yesterday.points, d.startMs, d.endMs, hourOf, false);
    MeasuredBuckets(d, buckets);
    ClosedTotal(d);
  }
}
