/** Day curves of token totals: thinning, recovery from retained samples, the collector's poll, and its reader. */
module Curves {
  import opened Common
  import opened Sorting

  const POINT_LIMIT: nat := 96
  const SAMPLE_LIMIT: nat := 288
  const HALF_HOUR_MS: int := 30 * 60000

  datatype Point = Point(at: Instant, total: real)

  /** Provider days are calendar days, counted. */
  datatype Curve = Curve(day: int, points: seq<Point>)

  datatype DayCurves = DayCurves(today: Curve, yesterday: Option<Curve>)

  datatype Sample = Sample(at: Instant, total: real, day: int)

  datatype Usage = Usage(day: int, total: real, unavailable: bool, fetchedAt: Option<Instant>,
                         samples: seq<Sample>, curves: Option<DayCurves>)

  // ----- the reader's contract -----

  /** Strictly increasing in time, never decreasing in total, no negative total. */
  ghost predicate Rising(points: seq<Point>) {
    && (forall i :: 0 <= i < |points| ==> points[i].total >= 0.0)
    && (forall i, j :: 0 <= i < j < |points| ==> points[i].at < points[j].at && points[i].total <= points[j].total)
  }

  ghost predicate CurveOk(c: Curve) {
    |c.points| <= POINT_LIMIT && Rising(c.points)
  }

  ghost predicate CurvesOk(curves: DayCurves) {
    CurveOk(curves.today) && (curves.yesterday.Some? ==> CurveOk(curves.yesterday.value))
  }

  ghost predicate UsageOk(u: Usage) {
    && u.total >= 0.0 && |u.samples| <= SAMPLE_LIMIT
    && (forall i :: 0 <= i < |u.samples| ==> u.samples[i].total >= 0.0)
    && (u.curves.Some? ==> CurvesOk(u.curves.value))
  }

  /** The reader compares neighbours only. */
  method ParseDayCurve(c: Curve) returns (ok: bool)
    ensures ok <==> CurveOk(c)
  {
    if |c.points| > POINT_LIMIT {
      return false;
    }
    for i := 0 to |c.points|
      invariant forall j :: 0 <= j < i ==> c.points[j].total >= 0.0
    {
      if c.points[i].total < 0.0 {
        return false;
      }
    }
    var i := 1;
    while i < |c.points|
      invariant forall h, j :: 0 <= h < j < i && j < |c.points| ==>
                  c.points[h].at < c.points[j].at && c.points[h].total <= c.points[j].total
    {
      if c.points[i].at <= c.points[i - 1].at || c.points[i].total < c.points[i - 1].total {
        return false;
      }
      i := i + 1;
    }
    ok := true;
  }

  method ParseTokenUsageSnapshot(u: Usage) returns (ok: bool)
    ensures ok <==> UsageOk(u)
  {
    if u.total < 0.0 || |u.samples| > SAMPLE_LIMIT {
      return false;
    }
    if u.curves.Some? {
      ok := ParseDayCurve(u.curves.value.today);
      if !ok {
        return false;
      }
      if u.curves.value.yesterday.Some? {
        ok := ParseDayCurve(u.curves.value.yesterday.value);
        if !ok {
          return false;
        }
      }
    }
    for i := 0 to |u.samples|
      invariant forall j :: 0 <= j < i ==> u.samples[j].total >= 0.0
    {
      if u.samples[i].total < 0.0 {
        return false;
      }
    }
    ok := true;
  }

  // ----- thinning -----

  function Bucket(p: Point): int {
    p.at / HALF_HOUR_MS
  }

  /** A point survives when the next one falls in another half hour. */
  function Thinned(points: seq<Point>): seq<Point> {
    if |points| <= 1 then points
    else if Bucket(points[0]) == Bucket(points[1]) then Thinned(points[1..])
    else [points[0]] + Thinned(points[1..])
  }

  function Tail<T>(s: seq<T>, n: nat): seq<T> {
    if |s| <= n then s else s[|s| - n..]
  }

  lemma {:induction false} ThinnedSnoc(points: seq<Point>, p: Point)
    ensures points != [] ==> Thinned(points) != [] && Thinned(points)[|Thinned(points)| - 1] == points[|points| - 1]
    ensures Thinned(points + [p])
            == (if points != [] && Bucket(points[|points| - 1]) == Bucket(p)
                then Thinned(points)[..|Thinned(points)| - 1] else Thinned(points)) + [p]
  {
    if |points| > 1 {
      assert (points + [p])[1..] == points[1..] + [p];
      ThinnedSnoc(points[1..], p);
    } else if |points| == 1 {
      assert (points + [p])[1..] == [p];
      assert Thinned([p]) == [p];
    }
  }

  method RetainLatestHalfHourPoints(points: seq<Point>) returns (retained: seq<Point>)
    ensures retained == Tail(Thinned(points), POINT_LIMIT)
  {
    retained := [];
    for n := 0 to |points|
      invariant retained == Thinned(points[..n])
    {
      TakeStep(points, n);
      ThinnedSnoc(points[..n], points[n]);
      if retained != [] && Bucket(retained[|retained| - 1]) == Bucket(points[n]) {
        retained := retained[|retained| - 1 := points[n]];
      } else {
        retained := retained + [points[n]];
      }
    }
    TakeAll(points);
    retained := Tail(retained, POINT_LIMIT);
  }

  /** The latest point of its half hour. */
  ghost predicate LatestInBucket(points: seq<Point>, p: Point) {
    p in points && forall q :: q in points && Bucket(q) == Bucket(p) ==> q.at <= p.at
  }

  lemma BucketsRise(points: seq<Point>)
    requires Rising(points) && |points| > 1
    ensures Rising(points[1..])
    ensures forall q :: q in points[1..] ==> q.at >= points[1].at > points[0].at && q.total >= points[0].total
    ensures forall q :: q in points <==> q == points[0] || q in points[1..]
    ensures Bucket(points[0]) != Bucket(points[1]) ==> forall q :: q in points[1..] ==> Bucket(q) != Bucket(points[0])
  {
    assert points == [points[0]] + points[1..];
  }

  /** On a rising curve, thinning keeps exactly the latest point of every half hour. */
  lemma {:induction false} ThinnedExactly(points: seq<Point>)
    requires Rising(points)
    ensures forall p :: p in Thinned(points) <==> LatestInBucket(points, p)
  {
    if |points| > 1 {
      ThinnedExactly(points[1..]);
      BucketsRise(points);
      assert points[1] in points[1..];
      forall p ensures p in Thinned(points) <==> LatestInBucket(points, p) {
        ThinnedStep(points, p);
      }
    }
  }

  lemma ThinnedStep(points: seq<Point>, p: Point)
    requires Rising(points) && |points| > 1
    requires p in Thinned(points[1..]) <==> LatestInBucket(points[1..], p)
    ensures p in Thinned(points) <==> LatestInBucket(points, p)
  {
    BucketsRise(points);
    assert points[1] in points[1..];
    if Bucket(points[0]) == Bucket(points[1]) {
      assert !LatestInBucket(points, points[0]);
    }
  }

  lemma {:induction false} ThinnedRises(points: seq<Point>)
    requires Rising(points)
    ensures Rising(Thinned(points))
    ensures forall p :: p in Thinned(points) ==> p in points
  {
    if |points| > 1 {
      BucketsRise(points);
      ThinnedRises(points[1..]);
      PutFirst(points[0], points[1..], Thinned(points[1..]));
    }
  }

  lemma PutFirst(p: Point, rest: seq<Point>, thin: seq<Point>)
    requires p.total >= 0.0 && Rising(thin) && forall q :: q in thin ==> q in rest
    requires forall q :: q in rest ==> q.at > p.at && q.total >= p.total
    ensures Rising([p] + thin)
  {
    forall j | 0 <= j < |thin| ensures p.at < thin[j].at && p.total <= thin[j].total {
      assert thin[j] in thin;
    }
  }

  /** The kept tail of a rising curve is a curve the reader accepts, with the same endpoint. */
  lemma RetainedOk(day: int, points: seq<Point>)
    requires Rising(points)
    ensures CurveOk(Curve(day, Tail(Thinned(points), POINT_LIMIT)))
    ensures points != [] ==>
              var kept := Tail(Thinned(points), POINT_LIMIT);
              kept != [] && kept[|kept| - 1] == points[|points| - 1]
  {
    ThinnedRises(points);
    if points != [] {
      ThinnedSnoc(points, points[0]);
    }
  }

  // ----- appending -----

  function MaxTotal(a: real, b: real): real {
    if a >= b then a else b
  }

  /**
   * Extend today's curve with a running maximum, drop an observation that does not advance the clock, or rotate
   * the day.
   */
  function AppendDayCurvePoint(curves: Option<DayCurves>, day: int, point: Point): DayCurves {
    if curves.Some? && curves.value.today.day == day then
      var points := curves.value.today.points;
      if points != [] && point.at <= points[|points| - 1].at then curves.value
      else
        var floor := if points == [] then 0.0 else points[|points| - 1].total;
        var extended := points + [Point(point.at, MaxTotal(point.total, floor))];
        DayCurves(Curve(day, Tail(Thinned(extended), POINT_LIMIT)), curves.value.yesterday)
    else
      var rotates := curves.Some? && curves.value.today.day == day - 1 && curves.value.today.points != [];
      DayCurves(Curve(day, [point]), if rotates then Some(curves.value.today) else None)
  }

  /** Where today's curve ends after an observation: unmoved by a regressing clock, else at the running maximum. */
  function ExpectedEnd(curves: Option<DayCurves>, day: int, point: Point): Point {
    if curves.Some? && curves.value.today.day == day && curves.value.today.points != [] then
      var last := curves.value.today.points[|curves.value.today.points| - 1];
      if point.at <= last.at then last else Point(point.at, MaxTotal(point.total, last.total))
    else point
  }

  ghost predicate EndsAt(points: seq<Point>, end: Point) {
    points != [] && points[|points| - 1] == end
  }

  lemma ExtendedRises(points: seq<Point>, p: Point)
    requires Rising(points) && p.total >= 0.0
    requires points != [] ==> points[|points| - 1].at < p.at && points[|points| - 1].total <= p.total
    ensures Rising(points + [p])
  {
  }

  /** Appending keeps the curves valid, on the day, and ends them where an observation should. */
  lemma AppendKeeps(curves: Option<DayCurves>, day: int, point: Point)
    requires curves.Some? ==> CurvesOk(curves.value)
    requires point.total >= 0.0
    ensures var next := AppendDayCurvePoint(curves, day, point);
            CurvesOk(next) && next.today.day == day && EndsAt(next.today.points, ExpectedEnd(curves, day, point))
  {
    if curves.Some? && curves.value.today.day == day {
      var points := curves.value.today.points;
      if points == [] || point.at > points[|points| - 1].at {
        var floor := if points == [] then 0.0 else points[|points| - 1].total;
        ExtendedRises(points, Point(point.at, MaxTotal(point.total, floor)));
        RetainedOk(day, points + [Point(point.at, MaxTotal(point.total, floor))]);
      }
    }
  }

  /** Date-key seeded curves against the current day: pass, rotate, or drop. */
  function ReconcileSeededDayCurves(curves: Option<DayCurves>, currentDay: int): (r: Option<DayCurves>)
    ensures curves.Some? && CurvesOk(curves.value) && r.Some? ==> CurvesOk(r.value)
    ensures r.Some? ==> curves.Some? && r.value.today.day == currentDay
    ensures r.Some? && r != curves ==>
              r.value.yesterday == Some(curves.value.today) && curves.value.today.day == currentDay - 1
    ensures r.None? <==> curves.None? || !(currentDay - 1 <= curves.value.today.day <= currentDay)
    ensures r.Some? && curves.value.today.day == currentDay ==> r == curves
    ensures r.Some? && curves.value.today.day == currentDay - 1 ==> r.value.today.points == []
  {
    if curves.None? then None
    else if curves.value.today.day == currentDay then curves
    else if curves.value.today.day == currentDay - 1 then
      Some(DayCurves(Curve(currentDay, []), Some(curves.value.today)))
    else None
  }

  // ----- recovery -----

  predicate PointLeq(a: Point, b: Point) {
    a.at < b.at || (a.at == b.at && a.total <= b.total)
  }

  ghost predicate InOrder(points: seq<Point>) {
    forall i, j :: 0 <= i < j < |points| ==> PointLeq(points[i], points[j])
  }

  /** The first authoritative point at or after an instant. */
  method FirstAtOrAfter(points: seq<Point>, at: Instant) returns (next: Option<Point>)
    ensures next.None? ==> forall i :: 0 <= i < |points| ==> points[i].at < at
    ensures next.Some? ==> exists i :: NextAt(points, at, i) && points[i] == next.value
  {
    for i := 0 to |points|
      invariant forall j :: 0 <= j < i ==> points[j].at < at
    {
      if points[i].at >= at {
        assert NextAt(points, at, i);
        return Some(points[i]);
      }
    }
    next := None;
  }

  /** Index `i` is the first authoritative point at or after an instant. */
  ghost predicate NextAt(points: seq<Point>, at: Instant, i: int) {
    0 <= i < |points| && points[i].at >= at && forall j :: 0 <= j < i ==> points[j].at < at
  }

  /** The day's own sample, taken before the endpoint, and not above the first authoritative total that follows it. */
  ghost predicate Fits(points: seq<Point>, day: int, sample: Sample) {
    && sample.day == day && points != [] && sample.at < points[|points| - 1].at
    && forall i :: NextAt(points, sample.at, i) ==> sample.total <= points[i].total
  }

  method SampleFits(points: seq<Point>, day: int, sample: Sample) returns (fits: bool)
    ensures fits <==> Fits(points, day, sample)
  {
    if sample.day != day || points == [] || sample.at >= points[|points| - 1].at {
      return false;
    }
    var next := FirstAtOrAfter(points, sample.at);
    assert points[|points| - 1].at >= sample.at;
    fits := next.Some? && sample.total <= next.value.total;
    ghost var i :| NextAt(points, sample.at, i) && points[i] == next.value;
    assert forall j :: NextAt(points, sample.at, j) ==> j == i;
  }

  lemma PointInserted(points: seq<Point>, p: Point)
    requires InOrder(points)
    ensures var more := Insert(PointLeq, points, p);
            InOrder(more) && forall q :: q in more <==> q in points || q == p
  {
    InsertSorted(PointLeq, points, p, Elements(points) + {p});
  }

  /** The authoritative points and the fitting samples, by instant and then by total. */
  method OrderedPoints(points: seq<Point>, day: int, samples: seq<Sample>) returns (ordered: seq<Point>)
    ensures InOrder(ordered)
    ensures forall p :: p in ordered <==> p in points || IsFitting(points, day, samples, p)
  {
    ordered := [];
    for n := 0 to |points|
      invariant InOrder(ordered) && forall p :: p in ordered <==> p in points[..n]
    {
      PointInserted(ordered, points[n]);
      ordered := Insert(PointLeq, ordered, points[n]);
    }
    TakeAll(points);
    for n := 0 to |samples|
      invariant InOrder(ordered)
      invariant forall p :: p in ordered <==> p in points || IsFitting(points, day, samples[..n], p)
    {
      FittingStep(points, day, samples, n);
      var fits := SampleFits(points, day, samples[n]);
      if fits {
        PointInserted(ordered, Point(samples[n].at, samples[n].total));
        ordered := Insert(PointLeq, ordered, Point(samples[n].at, samples[n].total));
      }
    }
    TakeAll(samples);
  }

  ghost predicate FitsAs(points: seq<Point>, day: int, sample: Sample, p: Point) {
    p == Point(sample.at, sample.total) && Fits(points, day, sample)
  }

  ghost predicate IsFitting(points: seq<Point>, day: int, samples: seq<Sample>, p: Point) {
    exists i :: 0 <= i < |samples| && FitsAs(points, day, samples[i], p)
  }

  lemma FittingStep(points: seq<Point>, day: int, samples: seq<Sample>, n: nat)
    requires n < |samples|
    ensures forall p :: IsFitting(points, day, samples[..n + 1], p)
                   <==> IsFitting(points, day, samples[..n], p) || FitsAs(points, day, samples[n], p)
  {
    forall p ensures IsFitting(points, day, samples[..n + 1], p)
                <==> IsFitting(points, day, samples[..n], p) || FitsAs(points, day, samples[n], p)
    {
      if IsFitting(points, day, samples[..n], p) {
        var i :| 0 <= i < n && FitsAs(points, day, samples[..n][i], p);
        assert samples[..n + 1][i] == samples[i];
      }
      assert samples[..n + 1][n] == samples[n];
      if IsFitting(points, day, samples[..n + 1], p) {
        var more := samples[..n + 1];
        var i :| 0 <= i < |more| && FitsAs(points, day, more[i], p);
        assert i < n ==> samples[..n][i] == more[i];
      }
    }
  }

  /** `m` is the highest total observed up to an instant. */
  ghost predicate HighestBy(points: seq<Point>, at: Instant, m: real) {
    && (forall i :: 0 <= i < |points| && points[i].at <= at ==> points[i].total <= m)
    && (exists i :: 0 <= i < |points| && points[i].at <= at && points[i].total == m)
  }

  ghost predicate ObservedAt(points: seq<Point>, at: Instant) {
    exists i :: 0 <= i < |points| && points[i].at == at
  }

  /** One point per observed instant, in order, at the highest total observed by then. */
  ghost predicate Envelope(points: seq<Point>, curve: seq<Point>) {
    && Rising(curve)
    && (forall i :: 0 <= i < |curve| ==> HighestBy(points, curve[i].at, curve[i].total))
    && (forall at :: ObservedAt(points, at) <==> ObservedAt(curve, at))
  }

  lemma HighestStep(points: seq<Point>, p: Point, at: Instant, m: real)
    requires HighestBy(points, at, m)
    ensures p.at > at || p.total <= m ==> HighestBy(points + [p], at, m)
    ensures p.at <= at && p.total >= m ==> HighestBy(points + [p], at, p.total)
  {
    var i :| 0 <= i < |points| && points[i].at <= at && points[i].total == m;
    assert (points + [p])[i] == points[i] && (points + [p])[|points|] == p;
  }

  lemma ObservedStep(points: seq<Point>, p: Point, at: Instant)
    ensures ObservedAt(points + [p], at) <==> ObservedAt(points, at) || p.at == at
  {
    if ObservedAt(points, at) {
      var i :| 0 <= i < |points| && points[i].at == at;
      assert (points + [p])[i].at == at;
    }
    assert (points + [p])[|points|] == p;
  }

  /** The curve and the running maximum after the points so far. */
  ghost predicate Running(points: seq<Point>, curve: seq<Point>, runningMax: real) {
    && Envelope(points, curve) && (curve == [] <==> points == [])
    && (points == [] ==> runningMax == 0.0)
    && (points != [] ==> curve[|curve| - 1] == Point(points[|points| - 1].at, runningMax)
                         && HighestBy(points, points[|points| - 1].at, runningMax))
  }

  lemma FirstRunning(p: Point)
    requires p.total >= 0.0
    ensures Running([p], [p], p.total)
  {
    assert [p][0] == p;
  }

  lemma NextHighest(points: seq<Point>, p: Point, runningMax: real)
    requires points != [] && p.at >= points[|points| - 1].at && InOrder(points)
    requires HighestBy(points, points[|points| - 1].at, runningMax)
    ensures HighestBy(points + [p], p.at, MaxTotal(runningMax, p.total))
  {
    assert HighestBy(points, p.at, runningMax);
    HighestStep(points, p, p.at, runningMax);
  }

  /** A new instant extends the curve; the same instant overwrites its end. */
  function Advance(curve: seq<Point>, recovered: Point): seq<Point> {
    if curve != [] && curve[|curve| - 1].at == recovered.at then curve[..|curve| - 1] + [recovered]
    else curve + [recovered]
  }

  lemma AdvanceObserved(curve: seq<Point>, recovered: Point, at: Instant)
    ensures ObservedAt(Advance(curve, recovered), at) <==> ObservedAt(curve, at) || at == recovered.at
  {
    if curve != [] && curve[|curve| - 1].at == recovered.at {
      var kept := curve[..|curve| - 1];
      assert curve == kept + [curve[|curve| - 1]];
      ObservedStep(kept, curve[|curve| - 1], at);
      ObservedStep(kept, recovered, at);
    } else {
      ObservedStep(curve, recovered, at);
    }
  }

  lemma AdvanceRises(curve: seq<Point>, recovered: Point)
    requires Rising(curve) && recovered.total >= 0.0
    requires curve != [] ==> recovered.at >= curve[|curve| - 1].at && recovered.total >= curve[|curve| - 1].total
    ensures Rising(Advance(curve, recovered))
  {
    var next := Advance(curve, recovered);
    var n := |next| - 1;
    assert forall i :: 0 <= i < n ==> next[i] == curve[i];
  }

  lemma AdvanceHighest(points: seq<Point>, p: Point, curve: seq<Point>, top: real)
    requires Rising(curve) && (curve != [] ==> curve[|curve| - 1].at <= p.at)
    requires forall i :: 0 <= i < |curve| ==> HighestBy(points, curve[i].at, curve[i].total)
    requires HighestBy(points + [p], p.at, top)
    ensures var next := Advance(curve, Point(p.at, top));
            forall i :: 0 <= i < |next| ==> HighestBy(points + [p], next[i].at, next[i].total)
  {
    var next := Advance(curve, Point(p.at, top));
    forall i | 0 <= i < |next| - 1 ensures HighestBy(points + [p], next[i].at, next[i].total) {
      assert next[i] == curve[i] && curve[i].at < p.at;
      HighestStep(points, p, curve[i].at, curve[i].total);
    }
  }

  lemma RunningStep(points: seq<Point>, p: Point, curve: seq<Point>, runningMax: real)
    requires points != [] && Running(points, curve, runningMax) && InOrder(points) && p.at >= points[|points| - 1].at
    requires p.total >= 0.0
    ensures var top := MaxTotal(runningMax, p.total);
            Running(points + [p], Advance(curve, Point(p.at, top)), top)
  {
    var top := MaxTotal(runningMax, p.total);
    NextHighest(points, p, runningMax);
    AdvanceRises(curve, Point(p.at, top));
    AdvanceHighest(points, p, curve, top);
    forall at ensures ObservedAt(points + [p], at) <==> ObservedAt(Advance(curve, Point(p.at, top)), at) {
      ObservedStep(points, p, at);
      AdvanceObserved(curve, Point(p.at, top), at);
    }
  }

  method RunningMaximum(ordered: seq<Point>) returns (monotone: seq<Point>)
    requires InOrder(ordered) && forall i :: 0 <= i < |ordered| ==> ordered[i].total >= 0.0
    ensures Envelope(ordered, monotone)
  {
    monotone := [];
    var runningMax := 0.0;
    for n := 0 to |ordered|
      invariant Running(ordered[..n], monotone, runningMax)
    {
      RunningNext(ordered, n, monotone, runningMax);
      runningMax := MaxTotal(runningMax, ordered[n].total);
      monotone := Advance(monotone, Point(ordered[n].at, runningMax));
    }
    TakeAll(ordered);
  }

  lemma RunningNext(ordered: seq<Point>, n: nat, curve: seq<Point>, runningMax: real)
    requires n < |ordered| && InOrder(ordered) && ordered[n].total >= 0.0 && Running(ordered[..n], curve, runningMax)
    ensures var top := MaxTotal(runningMax, ordered[n].total);
            Running(ordered[..n + 1], Advance(curve, Point(ordered[n].at, top)), top)
  {
    TakeStep(ordered, n);
    if n == 0 {
      FirstRunning(ordered[0]);
    } else {
      RunningStep(ordered[..n], ordered[n], curve, runningMax);
    }
  }

  // ----- recovery never alters an accepted total -----

  /** The points recovery works from: the authoritative curve and fitting samples. */
  ghost predicate RecoveryBase(authority: seq<Point>, day: int, samples: seq<Sample>, ordered: seq<Point>) {
    forall p :: p in ordered <==> p in authority || IsFitting(authority, day, samples, p)
  }

  /** A point recovery may use never exceeds the authoritative total at or after its instant. */
  lemma BelowAuthority(authority: seq<Point>, day: int, samples: seq<Sample>, p: Point, i: nat)
    requires Rising(authority) && i < |authority| && p.at <= authority[i].at
    requires p in authority || IsFitting(authority, day, samples, p)
    ensures p.total <= authority[i].total
  {
    if p in authority {
      var j :| 0 <= j < |authority| && authority[j] == p;
    } else {
      var k :| 0 <= k < |samples| && FitsAs(authority, day, samples[k], p);
      var j := FindNext(authority, p.at, i);
      assert NextAt(authority, samples[k].at, j);
    }
  }

  lemma FindNext(points: seq<Point>, at: Instant, i: nat) returns (j: nat)
    requires i < |points| && at <= points[i].at
    ensures j <= i && NextAt(points, at, j)
  {
    j := 0;
    while points[j].at < at
      invariant j <= i && forall h :: 0 <= h < j ==> points[h].at < at
      decreases i - j
    {
      j := j + 1;
    }
  }

  /**
   * Before thinning, the recovered curve passes through every authoritative point and ends where the authority
   * ends.
   */
  lemma AuthorityKept(authority: seq<Point>, day: int, samples: seq<Sample>, ordered: seq<Point>, curve: seq<Point>)
    requires Rising(authority) && RecoveryBase(authority, day, samples, ordered) && Envelope(ordered, curve)
    ensures forall i :: 0 <= i < |authority| ==> authority[i] in curve
    ensures curve == [] <==> authority == []
    ensures authority != [] ==> curve[|curve| - 1] == authority[|authority| - 1]
  {
    forall i | 0 <= i < |authority| ensures authority[i] in curve {
      AuthorityPoint(authority, day, samples, ordered, curve, i);
    }
    forall j | 0 <= j < |curve| ensures authority != [] && curve[j].at <= authority[|authority| - 1].at {
      WithinAuthority(authority, day, samples, ordered, curve, j);
    }
    if curve != [] {
      WithinAuthority(authority, day, samples, ordered, curve, 0);
    }
    if authority != [] {
      AuthorityPoint(authority, day, samples, ordered, curve, |authority| - 1);
      var j :| 0 <= j < |curve| && curve[j] == authority[|authority| - 1];
      LastByTime(curve, j);
    }
  }

  lemma LastByTime(points: seq<Point>, j: nat)
    requires Rising(points) && j < |points| && points[|points| - 1].at <= points[j].at
    ensures j == |points| - 1
  {
  }

  lemma InObserved(points: seq<Point>, p: Point)
    requires p in points
    ensures ObservedAt(points, p.at)
  {
    var k :| 0 <= k < |points| && points[k] == p;
  }

  lemma AuthorityPoint(authority: seq<Point>, day: int, samples: seq<Sample>, ordered: seq<Point>, curve: seq<Point>,
                       i: nat)
    requires Rising(authority) && RecoveryBase(authority, day, samples, ordered) && Envelope(ordered, curve)
    requires i < |authority|
    ensures authority[i] in curve
  {
    assert authority[i] in ordered;
    InObserved(ordered, authority[i]);
    var j :| 0 <= j < |curve| && curve[j].at == authority[i].at;
    EnvelopeMeets(authority, day, samples, ordered, curve, i, j);
  }

  lemma EnvelopeMeets(authority: seq<Point>, day: int, samples: seq<Sample>, ordered: seq<Point>, curve: seq<Point>,
                      i: nat, j: nat)
    requires Rising(authority) && RecoveryBase(authority, day, samples, ordered) && Envelope(ordered, curve)
    requires i < |authority| && authority[i] in ordered && j < |curve| && curve[j].at == authority[i].at
    ensures curve[j] == authority[i]
  {
    var h :| 0 <= h < |ordered| && ordered[h].at <= curve[j].at && ordered[h].total == curve[j].total;
    BelowAuthority(authority, day, samples, ordered[h], i);
  }

  lemma WithinAuthority(authority: seq<Point>, day: int, samples: seq<Sample>, ordered: seq<Point>, curve: seq<Point>,
                        j: nat)
    requires Rising(authority) && RecoveryBase(authority, day, samples, ordered) && Envelope(ordered, curve)
    requires j < |curve|
    ensures authority != [] && curve[j].at <= authority[|authority| - 1].at
  {
    assert ObservedAt(curve, curve[j].at);
    var i :| 0 <= i < |ordered| && ordered[i].at == curve[j].at;
    assert ordered[i] in ordered;
    if ordered[i] in authority {
      var h :| 0 <= h < |authority| && authority[h] == ordered[i];
    } else {
      var k :| 0 <= k < |samples| && FitsAs(authority, day, samples[k], ordered[i]);
    }
  }

  /** A recovered point is of an instant somebody observed, and between the authoritative totals around it. */
  ghost predicate RecoveredWithin(authority: seq<Point>, day: int, samples: seq<Sample>, p: Point) {
    && ((exists i :: 0 <= i < |authority| && authority[i].at == p.at)
        || exists i :: 0 <= i < |samples| && samples[i].day == day && samples[i].at == p.at)
    && (forall i :: 0 <= i < |authority| && authority[i].at <= p.at ==> authority[i].total <= p.total)
    && (forall i :: 0 <= i < |authority| && p.at <= authority[i].at ==> p.total <= authority[i].total)
  }

  lemma EnvelopeWithin(authority: seq<Point>, day: int, samples: seq<Sample>, ordered: seq<Point>, curve: seq<Point>,
                       j: nat)
    requires Rising(authority) && RecoveryBase(authority, day, samples, ordered) && Envelope(ordered, curve)
    requires j < |curve|
    ensures RecoveredWithin(authority, day, samples, curve[j])
  {
    var p := curve[j];
    assert ObservedAt(curve, p.at);
    var i :| 0 <= i < |ordered| && ordered[i].at == p.at;
    assert ordered[i] in ordered;
    var h :| 0 <= h < |ordered| && ordered[h].at <= p.at && ordered[h].total == p.total;
    assert ordered[h] in ordered;
    forall n | 0 <= n < |authority| && authority[n].at <= p.at ensures authority[n].total <= p.total {
      assert authority[n] in ordered;
    }
    forall n | 0 <= n < |authority| && p.at <= authority[n].at ensures p.total <= authority[n].total {
      BelowAuthority(authority, day, samples, ordered[h], n);
    }
  }

  /** The recovered curve is the thinned envelope of the authority and the fitting samples. */
  ghost predicate Recovered(authority: seq<Point>, day: int, samples: seq<Sample>, points: seq<Point>) {
    exists ordered, curve :: RecoveryBase(authority, day, samples, ordered) && Envelope(ordered, curve)
                             && points == Tail(Thinned(curve), POINT_LIMIT)
  }

  /** Recovery keeps the accepted endpoint and yields a curve the reader accepts. */
  lemma RecoveredOk(authority: seq<Point>, day: int, samples: seq<Sample>, points: seq<Point>)
    requires Rising(authority) && Recovered(authority, day, samples, points)
    ensures CurveOk(Curve(day, points))
    ensures authority != [] ==> points != [] && points[|points| - 1] == authority[|authority| - 1]
  {
    var ordered, curve :| RecoveryBase(authority, day, samples, ordered) && Envelope(ordered, curve)
                          && points == Tail(Thinned(curve), POINT_LIMIT);
    AuthorityKept(authority, day, samples, ordered, curve);
    RetainedOk(day, curve);
  }

  /** Every point of a recovered day is within the authority. */
  lemma RecoveredPoints(authority: seq<Point>, day: int, samples: seq<Sample>, points: seq<Point>)
    requires Rising(authority) && Recovered(authority, day, samples, points)
    ensures forall p :: p in points ==> RecoveredWithin(authority, day, samples, p)
  {
    var ordered, curve :| RecoveryBase(authority, day, samples, ordered) && Envelope(ordered, curve)
                          && points == Tail(Thinned(curve), POINT_LIMIT);
    ThinnedRises(curve);
    forall p | p in points ensures RecoveredWithin(authority, day, samples, p) {
      assert p in Thinned(curve) && p in curve;
      var j :| 0 <= j < |curve| && curve[j] == p;
      EnvelopeWithin(authority, day, samples, ordered, curve, j);
    }
  }

  ghost predicate SamplesOk(samples: seq<Sample>) {
    |samples| <= SAMPLE_LIMIT && forall i :: 0 <= i < |samples| ==> samples[i].total >= 0.0
  }

  method RecoverActiveDayCurve(curves: DayCurves, day: int, samples: seq<Sample>) returns (recovered: DayCurves)
    requires CurvesOk(curves) && SamplesOk(samples)
    ensures curves.today.day != day ==> recovered == curves
    ensures curves.today.day == day ==>
              recovered.today.day == day && recovered.yesterday == curves.yesterday
              && Recovered(curves.today.points, day, samples, recovered.today.points)
    ensures CurvesOk(recovered)
  {
    if curves.today.day != day {
      return curves;
    }
    var ordered := OrderedPoints(curves.today.points, day, samples);
    forall i | 0 <= i < |ordered| ensures ordered[i].total >= 0.0 {
      assert ordered[i] in ordered;
    }
    var monotone := RunningMaximum(ordered);
    var points := RetainLatestHalfHourPoints(monotone);
    assert RecoveryBase(curves.today.points, day, samples, ordered);
    RecoveredOk(curves.today.points, day, samples, points);
    recovered := DayCurves(Curve(day, points), curves.yesterday);
  }

  // ----- the collector -----

  class TokenUsageCollector {
    var snapshot: Usage
    var failed: bool
    var lastWritten: Option<Usage>
    /** What the published file holds, as the reader parses it. */
    ghost var published: Option<Usage>

    ghost predicate Valid()
      reads this
    {
      && UsageOk(snapshot) && failed == snapshot.unavailable
      && (lastWritten.Some? ==> published == lastWritten)
      && (published.Some? ==> UsageOk(published.value))
    }

    /** Seed last-good state from a readable earlier publication, its curves date-keyed to the current day. */
    constructor (currentDay: int, seed: Option<Usage>)
      requires seed.Some? ==> UsageOk(seed.value)
      ensures Valid() && published == seed
      ensures seed.None? ==> snapshot == Usage(currentDay, 0.0, true, None, [], None)
      ensures seed.Some? ==> snapshot == seed.value.(curves := ReconcileSeededDayCurves(seed.value.curves, currentDay))
    {
      snapshot := if seed.None? then Usage(currentDay, 0.0, true, None, [], None)
                  else seed.value.(curves := ReconcileSeededDayCurves(seed.value.curves, currentDay));
      failed := seed.None? || seed.value.unavailable;
      lastWritten, published := seed, seed;
    }

    method MarkFailed()
      requires Valid()
      modifies this
      ensures Valid() && snapshot == old(snapshot).(unavailable := true)
      ensures lastWritten == old(lastWritten) && published == old(published)
    {
      snapshot, failed := snapshot.(unavailable := true), true;
    }

    /** Take one accepted or clock-regressing total into the state. */
    method Observe(providerDay: int, total: real, fetchedAt: Instant)
      requires Valid() && total >= 0.0
      modifies this
      ensures Valid() && lastWritten == old(lastWritten) && published == old(published)
      ensures Observed(old(snapshot), snapshot, providerDay, total, fetchedAt)
    {
      AppendKeeps(snapshot.curves, providerDay, Point(fetchedAt, total));
      var appended := AppendDayCurvePoint(snapshot.curves, providerDay, Point(fetchedAt, total));
      var accepted := Some(appended) != snapshot.curves;
      var samples := if accepted then Tail(snapshot.samples + [Sample(fetchedAt, total, providerDay)], SAMPLE_LIMIT)
                     else snapshot.samples;
      var curves := RecoverActiveDayCurve(appended, providerDay, snapshot.samples);
      snapshot := Usage(providerDay, total, false, Some(fetchedAt), samples, Some(curves));
      failed := false;
    }

    /** One pass: `total` is what the helper reported, if anything; the write is skipped when nothing changed. */
    method PollNow(providerDay: int, total: Option<real>, fetchedAt: Instant, writeSucceeds: bool)
      requires Valid() && (total.Some? ==> total.value >= 0.0)
      modifies this
      ensures Valid()
      ensures total.None? ==> snapshot == old(snapshot).(unavailable := true)
      ensures total.Some? ==> Observed(old(snapshot), snapshot, providerDay, total.value, fetchedAt)
      ensures published == if writeSucceeds then Some(snapshot) else old(published)
    {
      if total.None? {
        MarkFailed();
      } else {
        Observe(providerDay, total.value, fetchedAt);
      }
      if Some(snapshot) != lastWritten && writeSucceeds {
        published, lastWritten := Some(snapshot), Some(snapshot);
      }
    }
  }

  /** What one observation does to the state. */
  ghost predicate Observed(u: Usage, w: Usage, day: int, total: real, at: Instant) {
    var appended := AppendDayCurvePoint(u.curves, day, Point(at, total));
    && w.day == day && w.total == total && !w.unavailable && w.fetchedAt == Some(at)
    && w.samples == (if Some(appended) == u.curves then u.samples
                     else Tail(u.samples + [Sample(at, total, day)], SAMPLE_LIMIT))
    && w.curves.Some? && w.curves.value.yesterday == appended.yesterday && w.curves.value.today.day == day
    && Recovered(appended.today.points, day, u.samples, w.curves.value.today.points)
  }

  /** Through recovery and thinning, the curve ends exactly where the accepted observations put it. */
  lemma EndpointAdvances(u: Usage, w: Usage, day: int, total: real, at: Instant)
    requires UsageOk(u) && total >= 0.0 && Observed(u, w, day, total, at)
    ensures w.curves.Some? && EndsAt(w.curves.value.today.points, ExpectedEnd(u.curves, day, Point(at, total)))
  {
    AppendKeeps(u.curves, day, Point(at, total));
    var appended := AppendDayCurvePoint(u.curves, day, Point(at, total));
    RecoveredOk(appended.today.points, day, u.samples, w.curves.value.today.points);
  }

  // ----- one observation, column by column -----

  /** The clock has not moved past the day's last reading. */
  predicate Regresses(u: Usage, day: int, at: Instant) {
    && u.curves.Some? && u.curves.value.today.day == day && u.curves.value.today.points != []
    && at <= u.curves.value.today.points[|u.curves.value.today.points| - 1].at
  }

  /** The newest samples, the oldest giving way. */
  ghost predicate Appended(before: seq<Sample>, after: seq<Sample>, s: Sample) {
    && after != [] && after[|after| - 1] == s
    && |after| == (if |before| < SAMPLE_LIMIT then |before| + 1 else SAMPLE_LIMIT) <= |before| + 1
    && forall i :: 0 <= i < |after| - 1 ==> after[i] == before[|before| + 1 - |after| + i]
  }

  /** The day before today is kept as it ended, and only if it was the day before and had a reading. */
  ghost predicate DayTurns(u: Usage, w: Usage, day: int)
    requires w.curves.Some?
  {
    w.curves.value.yesterday ==
    if u.curves.None? then None
    else if u.curves.value.today.day == day then u.curves.value.yesterday
    else if u.curves.value.today.day == day - 1 && u.curves.value.today.points != [] then Some(u.curves.value.today)
    else None
  }

  /** Today's curve ends at the new reading, never below the one before it on the same day. */
  ghost predicate ReadingLands(u: Usage, w: Usage, day: int, total: real, at: Instant)
    requires w.curves.Some?
  {
    var points := w.curves.value.today.points;
    && w.curves.value.today.day == day && points != []
    && var last := points[|points| - 1];
       if u.curves.None? || u.curves.value.today.day != day || u.curves.value.today.points == []
       then last == Point(at, total)
       else
         var before := u.curves.value.today.points[|u.curves.value.today.points| - 1];
         if at <= before.at then last == before
         else last.at == at && last.total >= total && last.total >= before.total
              && (last.total == total || last.total == before.total)
  }

  /** What one observation makes of the collector's state. */
  lemma ObservationLands(u: Usage, w: Usage, day: int, total: real, at: Instant)
    requires UsageOk(u) && total >= 0.0 && Observed(u, w, day, total, at)
    ensures w.curves.Some? && DayTurns(u, w, day) && ReadingLands(u, w, day, total, at)
    ensures if Regresses(u, day, at) then w.samples == u.samples
            else Appended(u.samples, w.samples, Sample(at, total, day))
  {
    EndpointAdvances(u, w, day, total, at);
    AcceptedExactly(u.curves, day, Point(at, total));
    if !Regresses(u, day, at) {
      TailAppended(u.samples, Sample(at, total, day));
    }
  }

  lemma AcceptedExactly(curves: Option<DayCurves>, day: int, point: Point)
    requires (curves.Some? ==> CurvesOk(curves.value)) && point.total >= 0.0
    ensures Some(AppendDayCurvePoint(curves, day, point)) == curves
            <==> curves.Some? && curves.value.today.day == day && curves.value.today.points != []
                 && point.at <= curves.value.today.points[|curves.value.today.points| - 1].at
  {
    AppendKeeps(curves, day, point);
  }

  lemma TailAppended(samples: seq<Sample>, s: Sample)
    requires |samples| <= SAMPLE_LIMIT
    ensures Appended(samples, Tail(samples + [s], SAMPLE_LIMIT), s)
  {
  }
}
