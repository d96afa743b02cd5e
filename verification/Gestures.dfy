/** Gesture classification: one stroke at a time, from pointer inputs to intents. */
module Gestures {
  import opened Common

  const LONG_PRESS_MS: int := 500
  const MOVE_SLOP_PX: real := 12.0
  const DRAG_LOCK_MIN_PX: real := 16.0
  const VELOCITY_WINDOW_MS: int := 100
  const FLICK_MIN_VERTICAL_PX: real := 56.0
  const FLICK_MAX_HORIZONTAL_PX: real := 48.0

  datatype Point = Point(x: real, y: real)

  datatype Input =
    | Down(point: Point, now: int)
    | Move(point: Point, now: int)
    | Up(point: Point, now: int)
    | Cancel(now: int)
    | Tick(now: int)
    | Context(point: Point, now: int)

  datatype Vertical = Upward | Downward

  datatype Intent =
    | LongPress(point: Point)
    | DragStart
    | DragMove(dx: real)
    | DragEnd(dx: real, velocity: real)
    | DragCancel
    | Flick(direction: Vertical)
    | SuppressClick

  datatype Sample = Sample(x: real, now: int)

  datatype Stroke = Stroke(start: Point, deadline: int, moved: bool, longPressed: bool,
                           dragging: bool, verticalLocked: bool, samples: seq<Sample>)

  function Abs(x: real): real {
    if x < 0.0 then -x else x
  }

  /** Whether a displacement is longer than a length. */
  predicate Beyond(dx: real, dy: real, length: real) {
    dx * dx + dy * dy > length * length
  }

  // ----- velocity -----

  function DropStale(samples: seq<Sample>, now: int): seq<Sample> {
    if samples != [] && now - samples[0].now > VELOCITY_WINDOW_MS then DropStale(samples[1..], now) else samples
  }

  function Anchor(samples: seq<Sample>, now: int): Option<Sample> {
    if samples == [] then None
    else if now - samples[0].now <= VELOCITY_WINDOW_MS then Some(samples[0])
    else Anchor(samples[1..], now)
  }

  /** Pixels per millisecond over the trailing window; zero without an earlier sample there. */
  function ReleaseVelocity(samples: seq<Sample>, x: real, now: int): real {
    var anchor := Anchor(samples, now);
    if anchor.None? || anchor.value.now == now then 0.0
    else (x - anchor.value.x) / (now - anchor.value.now) as real
  }

  /** The anchor is the oldest sample still inside the window. */
  lemma {:induction false} AnchorIsOldest(samples: seq<Sample>, now: int) returns (i: nat)
    ensures Anchor(samples, now).None? ==> forall j :: 0 <= j < |samples| ==> now - samples[j].now > VELOCITY_WINDOW_MS
    ensures Anchor(samples, now).Some? ==>
              i < |samples| && samples[i] == Anchor(samples, now).value && now - samples[i].now <= VELOCITY_WINDOW_MS
              && forall j :: 0 <= j < i ==> now - samples[j].now > VELOCITY_WINDOW_MS
  {
    i := 0;
    if samples != [] && now - samples[0].now > VELOCITY_WINDOW_MS {
      var rest := samples[1..];
      i := AnchorIsOldest(rest, now);
      if Anchor(rest, now).None? {
        forall j | 0 <= j < |samples| ensures now - samples[j].now > VELOCITY_WINDOW_MS {
          assert j > 0 ==> samples[j] == rest[j - 1];
        }
      } else {
        forall j | 0 <= j < i + 1 ensures now - samples[j].now > VELOCITY_WINDOW_MS {
          assert j > 0 ==> samples[j] == rest[j - 1];
        }
        i := i + 1;
      }
    }
  }

  // ----- what each input does to the stroke -----

  function NewStroke(point: Point, now: int): Stroke {
    Stroke(point, now + LONG_PRESS_MS, false, false, false, false, [Sample(point.x, now)])
  }

  predicate AxisRaceOver(s: Stroke, dx: real, dy: real) {
    !s.dragging && !s.verticalLocked && (Abs(dx) >= DRAG_LOCK_MIN_PX || Abs(dy) >= DRAG_LOCK_MIN_PX)
  }

  /** The stroke after a move: dirtied past the slop, its axis locked by whichever displacement dominates first. */
  function MovedStroke(s: Stroke, point: Point, now: int): Stroke {
    var dx, dy := point.x - s.start.x, point.y - s.start.y;
    var t := s.(moved := s.moved || Beyond(dx, dy, MOVE_SLOP_PX),
                samples := DropStale(s.samples + [Sample(point.x, now)], now));
    if !AxisRaceOver(s, dx, dy) then t
    else if Abs(dx) > Abs(dy) then t.(dragging := true)
    else t.(verticalLocked := true)
  }

  /** The stroke can still turn into a long press. */
  predicate CanHold(s: Stroke) {
    !s.moved && !s.longPressed && !s.dragging
  }

  /** What a release means, by the first rule that applies. */
  function Released(s: Stroke, point: Point, now: int): seq<Intent> {
    var dx, dy := point.x - s.start.x, point.y - s.start.y;
    var end := DragEnd(dx, ReleaseVelocity(s.samples, point.x, now));
    if s.longPressed then [SuppressClick]
    else if s.dragging then [end, SuppressClick]
    else if !s.verticalLocked && Abs(dx) >= DRAG_LOCK_MIN_PX && Abs(dx) > Abs(dy)
      then [DragStart, DragMove(dx), end, SuppressClick]
    else if Abs(dy) >= FLICK_MIN_VERTICAL_PX && (s.verticalLocked || Abs(dx) <= FLICK_MAX_HORIZONTAL_PX) then
      [Flick(if dy < 0.0 then Upward else Downward), SuppressClick]
    else if s.moved || Beyond(dx, dy, MOVE_SLOP_PX) then [SuppressClick]
    else []
  }

  /** The stroke and the intents after one input. */
  function Step(stroke: Option<Stroke>, input: Input): (Option<Stroke>, seq<Intent>) {
    match input
    case Down(point, now) => (if stroke.Some? then stroke else Some(NewStroke(point, now)), [])
    case Move(point, now) =>
      if stroke.None? || stroke.value.longPressed then (stroke, [])
      else
        var t := MovedStroke(stroke.value, point, now);
        var dx := point.x - stroke.value.start.x;
        (Some(t), (if t.dragging && !stroke.value.dragging then [DragStart] else [])
                  + if t.dragging then [DragMove(dx)] else [])
    case Tick(now) =>
      if stroke.Some? && CanHold(stroke.value) && now >= stroke.value.deadline
      then (Some(stroke.value.(longPressed := true)), [LongPress(stroke.value.start)]) else (stroke, [])
    case Up(point, now) => (None, if stroke.None? then [] else Released(stroke.value, point, now))
    case Cancel(_) => (None, if stroke.Some? && stroke.value.dragging then [DragCancel] else [])
    case Context(point, _) =>
      if stroke.None? then (None, [LongPress(point)])
      else if !CanHold(stroke.value) then (stroke, [])
      else (Some(stroke.value.(longPressed := true)), [LongPress(stroke.value.start)])
  }

  // ----- the laws of a stroke -----

  ghost predicate IsDragging(stroke: Option<Stroke>) {
    stroke.Some? && stroke.value.dragging
  }

  /** One owner per stroke: a drag is neither vertical nor a hold, and a locked stroke has moved. */
  ghost predicate StrokeOk(stroke: Option<Stroke>) {
    stroke.Some? ==>
      var s := stroke.value;
      && !(s.dragging && s.verticalLocked) && !(s.dragging && s.longPressed)
      && (s.dragging || s.verticalLocked ==> s.moved)
  }

  /** One intent's effect on a drag: it starts once, and moves and ends only while live. */
  ghost function FollowOne(live: bool, i: Intent): Option<bool> {
    match i
    case DragStart => if live then None else Some(true)
    case DragMove(_) => if live then Some(true) else None
    case DragEnd(_, _) => if live then Some(false) else None
    case DragCancel => if live then Some(false) else None
    case _ => Some(live)
  }

  /** A drag through the first `n` intents of a batch; nothing when they are out of order. */
  ghost function FollowDrag(live: bool, intents: seq<Intent>, n: nat): Option<bool>
    requires n <= |intents|
  {
    if n == 0 then Some(live)
    else
      match FollowDrag(live, intents, n - 1)
      case None => None
      case Some(next) => FollowOne(next, intents[n - 1])
  }

  predicate IsOutcome(i: Intent) {
    i.LongPress? || i.DragEnd? || i.DragCancel? || i.Flick?
  }

  function Outcomes(intents: seq<Intent>): nat {
    if intents == [] then 0
    else Outcomes(intents[..|intents| - 1]) + (if IsOutcome(intents[|intents| - 1]) then 1 else 0)
  }

  lemma LockMoves(dx: real, dy: real)
    requires Abs(dx) >= DRAG_LOCK_MIN_PX || Abs(dy) >= DRAG_LOCK_MIN_PX
    ensures Beyond(dx, dy, MOVE_SLOP_PX)
  {
    SquareBeyond(dx);
    SquareBeyond(dy);
  }

  lemma SquareBeyond(x: real)
    ensures x * x >= 0.0
    ensures Abs(x) >= DRAG_LOCK_MIN_PX ==> x * x > MOVE_SLOP_PX * MOVE_SLOP_PX
  {
    if Abs(x) >= DRAG_LOCK_MIN_PX {
      assert Abs(x) * Abs(x) >= DRAG_LOCK_MIN_PX * DRAG_LOCK_MIN_PX;
    }
  }

  /** One input keeps the stroke's laws and the drag's order. */
  lemma StepLaws(stroke: Option<Stroke>, input: Input)
    requires StrokeOk(stroke)
    ensures var (next, intents) := Step(stroke, input);
            StrokeOk(next) && FollowDrag(IsDragging(stroke), intents, |intents|) == Some(IsDragging(next))
  {
    if input.Move? && stroke.Some? && !stroke.value.longPressed {
      var dx, dy := input.point.x - stroke.value.start.x, input.point.y - stroke.value.start.y;
      if AxisRaceOver(stroke.value, dx, dy) {
        LockMoves(dx, dy);
      }
    }
    BatchUnfolds(IsDragging(stroke), Step(stroke, input).1);
  }

  /** A batch holds at most four intents. */
  lemma BatchUnfolds(live: bool, intents: seq<Intent>)
    requires |intents| <= 4
    ensures forall n {:trigger FollowDrag(live, intents, n)} :: 0 < n <= |intents| ==>
              FollowDrag(live, intents, n)
              == match FollowDrag(live, intents, n - 1)
                 case None => None
                 case Some(next) => FollowOne(next, intents[n - 1])
  {
  }

  /** How many outcomes a stroke may still have: none once it was held, one otherwise. */
  function OutcomesLeft(stroke: Option<Stroke>): nat {
    if stroke.Some? && !stroke.value.longPressed then 1 else 0
  }

  /** A live stroke spends its outcomes and never gets one back. */
  lemma OutcomesSpent(stroke: Option<Stroke>, input: Input)
    requires stroke.Some? && StrokeOk(stroke)
    ensures var (next, intents) := Step(stroke, input);
            Outcomes(intents) + OutcomesLeft(next) <= OutcomesLeft(stroke)
  {
    var intents := Step(stroke, input).1;
    CountBatch(intents);
  }

  lemma CountBatch(intents: seq<Intent>)
    requires |intents| <= 4
    requires forall i, j :: 0 <= i < j < |intents| ==> !(IsOutcome(intents[i]) && IsOutcome(intents[j]))
    ensures Outcomes(intents) <= 1
    ensures (forall i :: 0 <= i < |intents| ==> !IsOutcome(intents[i])) ==> Outcomes(intents) == 0
    decreases |intents|
  {
    if intents != [] {
      CountBatch(intents[..|intents| - 1]);
    }
  }

  ghost predicate HoldsNone(intents: seq<Intent>) {
    forall i :: 0 <= i < |intents| ==> !intents[i].LongPress?
  }

  /** A long press arrives alone and never from or into a drag; a release never brings one. */
  lemma LongPressAlone(stroke: Option<Stroke>, input: Input)
    requires StrokeOk(stroke)
    ensures var (next, intents) := Step(stroke, input);
            HoldsNone(intents) || (|intents| == 1 && intents[0].LongPress? && !IsDragging(stroke) && !IsDragging(next))
    ensures input.Up? ==> HoldsNone(Step(stroke, input).1)
  {
  }

  // ----- a whole stroke, read off its path -----

  datatype Waypoint = Waypoint(point: Point, now: int)

  /** The stroke after a press and a path of moves. */
  ghost function Traced(start: Point, at: int, path: seq<Waypoint>): Option<Stroke> {
    if path == [] then Step(None, Down(start, at)).0
    else
      var w := path[|path| - 1];
      Step(Traced(start, at, path[..|path| - 1]), Move(w.point, w.now)).0
  }

  /** The waypoint is outside the slop circle. */
  ghost predicate Strays(start: Point, p: Point) {
    (p.x - start.x) * (p.x - start.x) + (p.y - start.y) * (p.y - start.y) > MOVE_SLOP_PX * MOVE_SLOP_PX
  }

  ghost predicate Sideways(start: Point, p: Point) {
    Abs(p.x - start.x) > Abs(p.y - start.y)
  }

  /** The waypoint is far enough along an axis to decide the stroke. */
  ghost predicate Decides(start: Point, p: Point) {
    Abs(p.x - start.x) >= DRAG_LOCK_MIN_PX || Abs(p.y - start.y) >= DRAG_LOCK_MIN_PX
  }

  /** The first waypoint that decides, if any, and which way. */
  ghost predicate DecidedAt(start: Point, path: seq<Waypoint>, i: nat) {
    i < |path| && Decides(start, path[i].point) && forall j :: 0 <= j < i ==> !Decides(start, path[j].point)
  }

  ghost predicate Decided(start: Point, path: seq<Waypoint>, sideways: bool) {
    exists i: nat :: DecidedAt(start, path, i) && (Sideways(start, path[i].point) <==> sideways)
  }

  ghost predicate AnyStrays(start: Point, path: seq<Waypoint>) {
    exists i :: 0 <= i < |path| && Strays(start, path[i].point)
  }

  /** The path alone says whether the stroke has moved and which axis owns it. */
  ghost predicate ReadsPath(s: Stroke, start: Point, path: seq<Waypoint>) {
    && s.start == start && !s.longPressed
    && (s.moved <==> AnyStrays(start, path))
    && (s.dragging <==> Decided(start, path, true)) && (s.verticalLocked <==> Decided(start, path, false))
  }

  /** A move of a live stroke: what it adds to the stroke's reading. */
  lemma MoveReads(s: Stroke, p: Point, now: int)
    ensures var t := MovedStroke(s, p, now);
            var decides := !s.dragging && !s.verticalLocked && Decides(s.start, p);
            t.start == s.start && t.deadline == s.deadline && t.longPressed == s.longPressed
            && (t.moved <==> s.moved || Strays(s.start, p))
            && (t.dragging <==> s.dragging || (decides && Sideways(s.start, p)))
            && (t.verticalLocked <==> s.verticalLocked || (decides && !Sideways(s.start, p)))
  {
  }

  lemma StepMoves(s: Stroke, p: Point, now: int)
    requires !s.longPressed
    ensures Step(Some(s), Move(p, now)).0 == Some(MovedStroke(s, p, now))
  {
  }

  lemma {:induction false} TraceReads(start: Point, at: int, path: seq<Waypoint>)
    ensures Traced(start, at, path).Some? && ReadsPath(Traced(start, at, path).value, start, path)
    ensures Traced(start, at, path).value.deadline == at + LONG_PRESS_MS
  {
    if path != [] {
      var init, w := path[..|path| - 1], path[|path| - 1];
      TraceReads(start, at, init);
      var s := Traced(start, at, init).value;
      StepMoves(s, w.point, w.now);
      MoveReads(s, w.point, w.now);
      assert path == init + [w];
      ReadsOn(s, MovedStroke(s, w.point, w.now), start, init, w);
    }
  }

  lemma ReadsOn(s: Stroke, t: Stroke, start: Point, init: seq<Waypoint>, w: Waypoint)
    requires ReadsPath(s, start, init) && t.start == start && !t.longPressed
    requires t.moved <==> s.moved || Strays(start, w.point)
    requires var decides := !s.dragging && !s.verticalLocked && Decides(start, w.point);
             (t.dragging <==> s.dragging || (decides && Sideways(start, w.point)))
             && (t.verticalLocked <==> s.verticalLocked || (decides && !Sideways(start, w.point)))
    ensures ReadsPath(t, start, init + [w])
  {
    PathGrows(start, init, w);
  }

  lemma PathGrows(start: Point, init: seq<Waypoint>, w: Waypoint)
    ensures AnyStrays(start, init + [w]) <==> AnyStrays(start, init) || Strays(start, w.point)
    ensures forall sideways :: Decided(start, init + [w], sideways)
              <==> Decided(start, init, sideways)
                   || (!Decided(start, init, true) && !Decided(start, init, false)
                       && Decides(start, w.point) && (Sideways(start, w.point) <==> sideways))
  {
    var path := init + [w];
    assert path[|init|] == w && forall i :: 0 <= i < |init| ==> path[i] == init[i];
    forall i: nat | i < |init| ensures DecidedAt(start, path, i) <==> DecidedAt(start, init, i) {
    }
    if forall i :: 0 <= i < |init| ==> !Decides(start, init[i].point) {
      assert DecidedAt(start, path, |init|) <==> Decides(start, w.point);
    } else {
      var i := FirstDecision(start, init);
      assert Decided(start, init, Sideways(start, init[i].point));
    }
  }

  lemma FirstDecision(start: Point, path: seq<Waypoint>) returns (i: nat)
    requires exists j :: 0 <= j < |path| && Decides(start, path[j].point)
    ensures DecidedAt(start, path, i)
  {
    i := 0;
    while !Decides(start, path[i].point)
      invariant i < |path| && forall j :: 0 <= j < i ==> !Decides(start, path[j].point)
      decreases |path| - i
    {
      i := i + 1;
    }
  }

  /**
   * What a release means: a drag that the path decided, or decides now, ends;
   * otherwise a long enough vertical travel, along a decided axis or nearly
   * straight, is a flick; otherwise a stroke that left the slop circle only
   * swallows its click; and a still one is a tap.
   */
  lemma ReleaseReads(start: Point, at: int, path: seq<Waypoint>, p: Point, now: int)
    ensures var intents := Step(Traced(start, at, path), Up(p, now)).1;
            var dx, dy := p.x - start.x, p.y - start.y;
            if Decided(start, path, true) then |intents| == 2 && Settles(intents[0], dx) && intents[1] == SuppressClick
            else if !Decided(start, path, false) && Abs(dx) >= DRAG_LOCK_MIN_PX && Sideways(start, p)
            then |intents| == 4 && intents[..2] == [DragStart, DragMove(dx)] && Settles(intents[2], dx)
                 && intents[3] == SuppressClick
            else if Abs(dy) >= FLICK_MIN_VERTICAL_PX
                    && (Decided(start, path, false) || Abs(dx) <= FLICK_MAX_HORIZONTAL_PX)
            then intents == [Flick(if p.y < start.y then Upward else Downward), SuppressClick]
            else intents == if AnyStrays(start, path) || Strays(start, p) then [SuppressClick] else []
  {
    TraceReads(start, at, path);
    UpReads(Traced(start, at, path).value, p, now);
  }

  /** What a release of a stroke that is not held means, by its flags and where it is. */
  lemma UpReads(s: Stroke, p: Point, now: int)
    requires !s.longPressed
    ensures var intents := Step(Some(s), Up(p, now)).1;
            var dx, dy := p.x - s.start.x, p.y - s.start.y;
            if s.dragging then |intents| == 2 && Settles(intents[0], dx) && intents[1] == SuppressClick
            else if !s.verticalLocked && Abs(dx) >= DRAG_LOCK_MIN_PX && Sideways(s.start, p)
            then |intents| == 4 && intents[..2] == [DragStart, DragMove(dx)] && Settles(intents[2], dx)
                 && intents[3] == SuppressClick
            else if Abs(dy) >= FLICK_MIN_VERTICAL_PX && (s.verticalLocked || Abs(dx) <= FLICK_MAX_HORIZONTAL_PX)
            then intents == [Flick(if p.y < s.start.y then Upward else Downward), SuppressClick]
            else intents == if s.moved || Strays(s.start, p) then [SuppressClick] else []
  {
  }

  ghost predicate Settles(i: Intent, dx: real) {
    i.DragEnd? && i.dx == dx
  }

  // ----- the recognizer -----

  class GestureRecognizer {
    var stroke: Option<Stroke>

    constructor ()
      ensures stroke == None
    {
      stroke := None;
    }

    /** When a tick is due; only a stroke the tick can act on advertises a deadline. */
    function LongPressDueAt(): (due: Option<int>)
      reads this
      ensures forall now :: Step(stroke, Tick(now)).1 != [] <==> due.Some? && now >= due.value
    {
      if stroke.Some? && CanHold(stroke.value) then Some(stroke.value.deadline) else None
    }

    method Feed(input: Input) returns (intents: seq<Intent>)
      modifies this
      ensures (stroke, intents) == Step(old(stroke), input)
    {
      intents := [];
      match input
      case Down(point, now) =>
        if stroke.None? {
          stroke := Some(NewStroke(point, now));
        }
      case Move(point, now) =>
        if stroke.Some? && !stroke.value.longPressed {
          intents := Track(point, now);
        }
      case Tick(now) =>
        if stroke.Some? && CanHold(stroke.value) && now >= stroke.value.deadline {
          stroke := Some(stroke.value.(longPressed := true));
          intents := [LongPress(stroke.value.start)];
        }
      case Up(point, now) =>
        if stroke.Some? {
          intents := Released(stroke.value, point, now);
        }
        stroke := None;
      case Cancel(_) =>
        if stroke.Some? && stroke.value.dragging {
          intents := [DragCancel];
        }
        stroke := None;
      case Context(point, _) =>
        if stroke.None? {
          intents := [LongPress(point)];
        } else if CanHold(stroke.value) {
          stroke := Some(stroke.value.(longPressed := true));
          intents := [LongPress(stroke.value.start)];
        }
    }

    /** A move of a live stroke: slop, samples, then the axis race. */
    method Track(point: Point, now: int) returns (intents: seq<Intent>)
      requires stroke.Some? && !stroke.value.longPressed
      modifies this
      ensures (stroke, intents) == Step(old(stroke), Move(point, now))
    {
      var s := stroke.value;
      var dx, dy := point.x - s.start.x, point.y - s.start.y;
      if Beyond(dx, dy, MOVE_SLOP_PX) {
        stroke := Some(stroke.value.(moved := true));
      }
      stroke := Some(stroke.value.(samples := DropStale(s.samples + [Sample(point.x, now)], now)));
      intents := [];
      if AxisRaceOver(s, dx, dy) {
        if Abs(dx) > Abs(dy) {
          stroke := Some(stroke.value.(dragging := true));
          intents := [DragStart];
        } else {
          stroke := Some(stroke.value.(verticalLocked := true));
        }
      }
      if stroke.value.dragging {
        intents := intents + [DragMove(dx)];
      }
      assert intents == Step(old(stroke), Move(point, now)).1;
    }
  }

  // ----- scroll bursts -----

  const SCROLL_THRESHOLD_PX: real := FLICK_MIN_VERTICAL_PX
  const SCROLL_IDLE_MS: int := 150

  datatype ScrollIntent = PageTurn(forward: bool) | ScrollFlick(direction: Vertical)

  /** One sample of a scroll burst. */
  datatype ScrollInput = ScrollInput(deltaX: real, deltaY: real, now: int)

  class ScrollRecognizer {
    var lastAt: Option<int>
    var totalX: real
    var totalY: real
    var fired: bool
    /** The burst in progress, oldest sample first, and what it has produced. */
    ghost var burst: seq<ScrollInput>
    ghost var produced: seq<ScrollIntent>

    ghost predicate Valid()
      reads this
    {
      && totalX == Travel(burst).0 && totalY == Travel(burst).1
      && fired == (produced != []) && |produced| <= 1
      && (lastAt.None? ==> burst == [] && !fired)
      && (burst != [] ==> lastAt == Some(burst[|burst| - 1].now))
      && (fired || NeverReached(burst))
    }

    constructor ()
      ensures Valid() && lastAt == None
    {
      lastAt, totalX, totalY, fired := None, 0.0, 0.0, false;
      burst, produced := [], [];
    }

    /** A burst acts once, at the first sample where its whole travel reaches the threshold, along the longer axis. */
    method Feed(input: ScrollInput) returns (started: bool, intents: seq<ScrollIntent>)
      requires Valid()
      modifies this
      ensures Valid() && (started <==> old(lastAt).None? || input.now - old(lastAt).value > SCROLL_IDLE_MS)
      ensures burst == (if started then [] else old(burst)) + [input]
      ensures produced == (if started then [] else old(produced)) + intents
      ensures intents != [] <==> Reaches(burst) && (started || !old(fired))
      ensures intents != [] ==> intents == [ScrollVerdict(Travel(burst).0, Travel(burst).1)]
    {
      started := lastAt.None? || input.now - lastAt.value > SCROLL_IDLE_MS;
      if started {
        totalX, totalY, fired := 0.0, 0.0, false;
        burst, produced := [], [];
      }
      lastAt := Some(input.now);
      totalX, totalY := totalX + input.deltaX, totalY + input.deltaY;
      ghost var before := burst;
      burst := burst + [input];
      BurstStep(before, input);
      intents := [];
      if !fired && !(Abs(totalX) < SCROLL_THRESHOLD_PX && Abs(totalY) < SCROLL_THRESHOLD_PX) {
        fired := true;
        intents := [ScrollVerdict(totalX, totalY)];
      }
      produced := produced + intents;
    }
  }

  function ScrollVerdict(totalX: real, totalY: real): ScrollIntent {
    if Abs(totalX) > Abs(totalY) then PageTurn(totalX > 0.0)
    else ScrollFlick(if totalY < 0.0 then Upward else Downward)
  }

  ghost function Travel(burst: seq<ScrollInput>): (real, real) {
    if burst == [] then (0.0, 0.0)
    else
      var before := Travel(burst[..|burst| - 1]);
      (before.0 + burst[|burst| - 1].deltaX, before.1 + burst[|burst| - 1].deltaY)
  }

  ghost predicate Reaches(burst: seq<ScrollInput>) {
    Abs(Travel(burst).0) >= SCROLL_THRESHOLD_PX || Abs(Travel(burst).1) >= SCROLL_THRESHOLD_PX
  }

  /** No sample of the burst has reached the threshold yet. */
  ghost predicate NeverReached(burst: seq<ScrollInput>) {
    burst == [] || (!Reaches(burst) && NeverReached(burst[..|burst| - 1]))
  }

  lemma BurstStep(burst: seq<ScrollInput>, input: ScrollInput)
    ensures Travel(burst + [input]) == (Travel(burst).0 + input.deltaX, Travel(burst).1 + input.deltaY)
    ensures NeverReached(burst + [input]) <==> NeverReached(burst) && !Reaches(burst + [input])
  {
    assert (burst + [input])[..|burst|] == burst;
  }
}
