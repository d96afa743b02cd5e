/** Drag-follow paging, snapshot deferral, and the two composed with the gesture recognizer. */
module Paging {
  import opened Common
  import opened Gestures

  const COMMIT_FRACTION: real := 0.25
  const COMMIT_VELOCITY: real := 0.6
  const RUBBER_BAND: real := 0.3

  datatype Direction = Previous | Next

  /** The page under the finger at drag start, and the board it belongs to. */
  datatype Bounds = Bounds(page: int, pageCount: int, boardWidth: real)

  datatype Settle = Commit(direction: Direction, from: int, target: int) | SnapBack

  datatype Phase = AtRest | Dragging | Settling

  function DragDirection(dx: real): Direction {
    if dx < 0.0 then Next else Previous
  }

  predicate PageExists(b: Bounds, direction: Direction) {
    if direction == Next then b.page < b.pageCount - 1 else b.page > 0
  }

  function Clamp(x: real, limit: real): real {
    var below := if x < limit then x else limit;
    if -limit > below then -limit else below
  }

  /** One to one toward an existing page, rubber-banded elsewhere, never more than one page of travel. */
  function DragOffset(dx: real, b: Bounds): (offset: real)
    ensures b.boardWidth >= 0.0 ==> Abs(offset) <= b.boardWidth && Abs(offset) <= Abs(dx)
    ensures b.boardWidth >= 0.0 ==> (dx >= 0.0 ==> offset >= 0.0) && (dx <= 0.0 ==> offset <= 0.0)
    ensures PageExists(b, DragDirection(dx)) && Abs(dx) <= b.boardWidth ==> offset == dx
  {
    Clamp(if PageExists(b, DragDirection(dx)) then dx else dx * RUBBER_BAND, b.boardWidth)
  }

  predicate SameSign(a: real, b: real) {
    (a > 0.0 && b > 0.0) || (a < 0.0 && b < 0.0)
  }

  /** Far enough, or flung fast enough the same way. */
  predicate Committed(dx: real, velocity: real, b: Bounds) {
    Abs(dx) >= b.boardWidth * COMMIT_FRACTION || (SameSign(velocity, dx) && Abs(velocity) >= COMMIT_VELOCITY)
  }

  /** Where a release settles; a commit always names an existing neighbour of its own page. */
  function SettleDrag(dx: real, velocity: real, b: Bounds): (settle: Settle)
    ensures settle.Commit? <==>
              (dx < 0.0 && b.page < b.pageCount - 1 && (-dx >= b.boardWidth * 0.25 || velocity <= -0.6))
              || (dx > 0.0 && b.page > 0 && (dx >= b.boardWidth * 0.25 || velocity >= 0.6))
    ensures settle.Commit? ==> settle.from == b.page && settle.direction == DragDirection(dx)
    ensures settle.Commit? && 0 <= b.page < b.pageCount ==>
              0 <= settle.target < b.pageCount && settle.target == b.page + (if dx < 0.0 then 1 else -1)
  {
    var direction := DragDirection(dx);
    if dx == 0.0 || !PageExists(b, direction) then SnapBack
    else if Committed(dx, velocity, b) then Commit(direction, b.page, b.page + (if direction == Next then 1 else -1))
    else SnapBack
  }

  // ----- the session -----

  class PagingSession {
    var phase: Phase
    var bounds: Bounds

    constructor ()
      ensures phase == AtRest
    {
      phase, bounds := AtRest, Bounds(0, 1, 0.0);
    }

    /** Begin a drag; a settling board is not grabbable. */
    method Start(next: Bounds) returns (accepted: bool)
      modifies this
      ensures accepted <==> old(phase) == AtRest
      ensures accepted ==> phase == Dragging && bounds == next
      ensures !accepted ==> phase == old(phase) && bounds == old(bounds)
    {
      accepted := phase == AtRest;
      if accepted {
        phase, bounds := Dragging, next;
      }
    }

    function Move(dx: real): Option<real>
      reads this
    {
      if phase == Dragging then Some(DragOffset(dx, bounds)) else None
    }

    /** The verdict on this session's live drag, if it has one. */
    method Release(dx: real, velocity: real) returns (settle: Option<Settle>)
      modifies this
      ensures settle == if old(phase) == Dragging then Some(SettleDrag(dx, velocity, bounds)) else None
      ensures phase == if old(phase) == Dragging then Settling else old(phase)
      ensures bounds == old(bounds)
    {
      settle := None;
      if phase == Dragging {
        phase := Settling;
        settle := Some(SettleDrag(dx, velocity, bounds));
      }
    }

    method Cancel() returns (settle: Option<Settle>)
      modifies this
      ensures settle == if old(phase) == Dragging then Some(SnapBack) else None
      ensures phase == if old(phase) == Dragging then Settling else old(phase)
      ensures bounds == old(bounds)
    {
      settle := None;
      if phase == Dragging {
        phase, settle := Settling, Some(SnapBack);
      }
    }

    method Settled()
      modifies this
      ensures phase == AtRest && bounds == old(bounds)
    {
      phase := AtRest;
    }
  }

  // ----- the strip -----

  /**
   * What reducing a payload yields at the moment it is applied: the pages it
   * fills then, with whatever is hidden by then, or None while the wake grace
   * holds the board as it is.
   */
  type Reduction = Option<nat>

  /** The page shown and the page count, keeping the page when it still exists. */
  function Reboarded(page: int, pageCount: int, reduced: Reduction): (int, int) {
    match reduced
    case None => (page, pageCount)
    case Some(pages) =>
      var count := if pages > 0 then pages else 1;
      (if page < count then page else count - 1, count)
  }

  /** The board, the deferral latch, and the log of what was applied; payloads go by their place in submission order. */
  class Strip {
    const gestures: GestureRecognizer
    const paging: PagingSession
    var page: int
    var pageCount: int
    var settling: Option<Settle>
    var press: Option<Point>
    var boardWidth: real
    var offset: real
    var clickSuppressed: bool
    var pending: Option<nat>
    var latest: Option<nat>
    var submitted: nat
    ghost var applied: seq<nat>
    ghost var outcomes: nat

    /** Everything that holds between events. */
    ghost predicate Valid()
      reads this, gestures, paging
    {
      StrokeValid() && BoardValid() && LatchValid()
    }

    /** The session drags only while the recognizer holds a live, horizontally locked stroke. */
    ghost predicate StrokeValid()
      reads this, gestures, paging
    {
      && StrokeOk(gestures.stroke) && outcomes + OutcomesLeft(gestures.stroke) <= 1
      && (paging.phase == Dragging ==> IsDragging(gestures.stroke))
    }

    /** While a drag or its settle owns the board, the board stays the one the drag began on. */
    ghost predicate BoardValid()
      reads this, paging
    {
      && 0 <= page < pageCount
      && (paging.phase != AtRest ==> paging.bounds.page == page && paging.bounds.pageCount == pageCount)
      && (settling.Some? <==> paging.phase == Settling)
      && (settling.Some? && settling.value.Commit? ==>
            settling.value.from == page && 0 <= settling.value.target < pageCount
            && (settling.value.target == page + 1 || settling.value.target == page - 1))
    }

    /** Payloads are applied in submission order, and the newest one is either applied or waiting. */
    ghost predicate LatchValid()
      reads this, paging
    {
      && InSubmissionOrder()
      && (pending.Some? ==> paging.phase != AtRest && pending == latest)
      && (latest.Some? && pending.None? ==> applied != [] && applied[|applied| - 1] == submitted)
    }

    ghost predicate InSubmissionOrder()
      reads this
    {
      && (latest.Some? ==> latest.value == submitted)
      && (forall i, j :: 0 <= i < j < |applied| ==> applied[i] <= applied[j])
      && (forall i :: 0 <= i < |applied| ==> applied[i] <= submitted)
    }

    constructor ()
      ensures Valid() && fresh(gestures) && fresh(paging)
    {
      gestures := new GestureRecognizer();
      paging := new PagingSession();
      page, pageCount, settling, press := 0, 1, None, None;
      pending, latest, submitted := None, None, 0;
      boardWidth, offset, clickSuppressed := 0.0, 0.0, false;
      applied, outcomes := [], 0;
    }

    // ----- snapshots -----

    /** Hand a payload to the reduction and show what comes of it. */
    method Apply(serial: nat, reduced: Reduction)
      modifies this`page, this`pageCount, this`applied
      ensures (page, pageCount) == Reboarded(old(page), old(pageCount), reduced)
      ensures applied == old(applied) + [serial]
    {
      if reduced.Some? {
        pageCount := if reduced.value > 0 then reduced.value else 1;
        if page >= pageCount {
          page := pageCount - 1;
        }
      }
      applied := applied + [serial];
    }

    /** Apply now, or hold the newest while a drag or its settle owns the board. */
    method SubmitLatest(reduced: Reduction)
      requires StrokeValid() && BoardValid() && InSubmissionOrder() && latest.Some?
      modifies this`page, this`pageCount, this`applied, this`pending
      ensures Valid()
      ensures paging.phase != AtRest ==>
                pending == latest && applied == old(applied) && (page, pageCount) == old((page, pageCount))
      ensures paging.phase == AtRest ==>
                pending == None && applied == old(applied) + [submitted]
                && (page, pageCount) == Reboarded(old(page), old(pageCount), reduced)
    {
      if paging.phase != AtRest {
        pending := latest;
      } else {
        pending := None;
        Apply(latest.value, reduced);
      }
    }

    method Submit(reduced: Reduction)
      requires Valid()
      modifies this`page, this`pageCount, this`applied, this`pending, this`latest, this`submitted
      ensures Valid() && submitted == old(submitted) + 1 && latest == Some(submitted)
      ensures paging.phase != AtRest ==>
                pending == latest && applied == old(applied) && (page, pageCount) == old((page, pageCount))
      ensures paging.phase == AtRest ==>
                pending == None && applied == old(applied) + [submitted]
                && (page, pageCount) == Reboarded(old(page), old(pageCount), reduced)
    {
      submitted := submitted + 1;
      latest := Some(submitted);
      SubmitLatest(reduced);
    }

    /**
     * A local re-reduction goes through the latch: the newest payload is applied again or waits, and never an
     * older one.
     */
    method ResubmitLatest(reduced: Reduction)
      requires Valid()
      modifies this`page, this`pageCount, this`applied, this`pending
      ensures Valid()
      ensures latest.Some? && paging.phase != AtRest ==> pending == Some(submitted)
      ensures latest.None? || paging.phase != AtRest ==>
                applied == old(applied) && (page, pageCount) == old((page, pageCount))
      ensures latest.Some? && paging.phase == AtRest ==>
                pending == None && applied == old(applied) + [submitted]
                && (page, pageCount) == Reboarded(old(page), old(pageCount), reduced)
    {
      if latest.Some? {
        SubmitLatest(reduced);
      }
    }

    /** Page navigation is refused while a gesture or settle owns the board. */
    method JumpToPage(target: int)
      requires BoardValid()
      modifies this`page
      ensures BoardValid()
      ensures paging.phase != AtRest ==> page == old(page)
      ensures paging.phase == AtRest && 0 <= target < pageCount ==> page == target
    {
      if paging.phase == AtRest {
        page := if target < 0 then 0 else if target < pageCount then target else pageCount - 1;
      }
    }

    /**
     * The settle animation finished: the commit lands on the neighbour it named, then the newest payload is
     * applied.
     */
    method SettleDone(reduced: Reduction)
      requires Valid() && settling.Some?
      modifies this`page, this`pageCount, this`applied, this`pending, this`settling, paging
      ensures Valid() && paging.phase == AtRest && settling == None && pending == None
      ensures latest.Some? ==> applied != [] && applied[|applied| - 1] == submitted
      ensures var landed := if old(settling).value.Commit? then old(settling).value.target else old(page);
              if old(pending).Some?
              then applied == old(applied) + [submitted]
                   && (page, pageCount) == Reboarded(landed, old(pageCount), reduced)
              else applied == old(applied) && (page, pageCount) == (landed, old(pageCount))
    {
      paging.Settled();
      var verdict := settling.value;
      settling := None;
      if verdict.Commit? {
        JumpToPage(verdict.target);
      }
      if pending.Some? {
        var newest := pending.value;
        pending := None;
        Apply(newest, reduced);
      }
    }

    // ----- gestures -----

    /** The recognizer's share of one input. */
    method Recognize(input: Input) returns (intents: seq<Intent>)
      requires StrokeOk(gestures.stroke) && outcomes + OutcomesLeft(gestures.stroke) <= 1
      modifies this`outcomes, gestures
      ensures (gestures.stroke, intents) == Step(old(gestures.stroke), input)
      ensures StrokeOk(gestures.stroke) && outcomes + OutcomesLeft(gestures.stroke) <= 1
      ensures old(gestures.stroke).Some? ==> outcomes == old(outcomes) + Outcomes(intents)
      ensures FollowDrag(IsDragging(old(gestures.stroke)), intents, |intents|) == Some(IsDragging(gestures.stroke))
    {
      StepLaws(gestures.stroke, input);
      if gestures.stroke.Some? {
        OutcomesSpent(gestures.stroke, input);
      }
      ghost var before := gestures.stroke;
      intents := gestures.Feed(input);
      outcomes := if before.Some? then outcomes + Outcomes(intents) else 0;
    }

    /** One intent other than a long press. */
    method HandleIntent(i: Intent, ghost live: bool)
      requires BoardValid() && LatchValid() && (paging.phase == Dragging ==> live)
      requires FollowOne(live, i).Some? && !i.LongPress?
      modifies this`settling, this`press, this`offset, this`clickSuppressed, paging
      ensures BoardValid() && LatchValid() && (paging.phase == Dragging ==> FollowOne(live, i).value)
    {
      match i
      case DragStart =>
        var accepted := paging.Start(Bounds(page, pageCount, boardWidth));
        if accepted {
          offset := 0.0;
        }
      case DragMove(dx) =>
        var shown := paging.Move(dx);
        if shown.Some? {
          offset := shown.value;
        }
      case DragEnd(dx, velocity) =>
        var verdict := paging.Release(dx, velocity);
        if verdict.Some? {
          settling := verdict;
        }
      case DragCancel =>
        var verdict := paging.Cancel();
        if verdict.Some? {
          settling := verdict;
        }
      case Flick(_) => press := None;
      case SuppressClick => clickSuppressed := true;
    }

    method HandleIntents(intents: seq<Intent>, ghost live: bool)
      requires BoardValid() && LatchValid() && (paging.phase == Dragging ==> live)
      requires FollowDrag(live, intents, |intents|).Some? && HoldsNone(intents)
      modifies this`settling, this`press, this`offset, this`clickSuppressed, paging
      ensures BoardValid() && LatchValid()
      ensures paging.phase == Dragging ==> FollowDrag(live, intents, |intents|).value
    {
      for n := 0 to |intents|
        invariant BoardValid() && LatchValid()
        invariant FollowDrag(live, intents, n).Some?
        invariant paging.phase == Dragging ==> FollowDrag(live, intents, n).value
      {
        FollowPrefix(live, intents, n + 1);
        HandleIntent(intents[n], FollowDrag(live, intents, n).value);
      }
    }

    /** The overlay takes the pointer, so the stroke is released where it was pressed. */
    method HandleLongPress(now: int)
      requires BoardValid() && LatchValid() && paging.phase != Dragging
      requires StrokeOk(gestures.stroke) && !IsDragging(gestures.stroke)
      requires outcomes + OutcomesLeft(gestures.stroke) <= 1
      modifies this`settling, this`press, this`offset, this`clickSuppressed, this`outcomes, paging, gestures
      ensures Valid()
    {
      if press.Some? {
        var point := press.value;
        press := None;
        ghost var stroke := gestures.stroke;
        LongPressAlone(stroke, Up(point, now));
        var intents := Recognize(Up(point, now));
        HandleIntents(intents, IsDragging(stroke));
      }
    }

    /** The recognizer's intents go to the strip, a long press by its own way. */
    method Route(input: Input)
      requires Valid()
      modifies this`settling, this`press, this`offset, this`clickSuppressed, this`outcomes, paging, gestures
      ensures Valid()
    {
      ghost var stroke := gestures.stroke;
      LongPressAlone(stroke, input);
      var intents := Recognize(input);
      if |intents| == 1 && intents[0].LongPress? {
        HandleLongPress(input.now);
      } else {
        HandleIntents(intents, IsDragging(stroke));
      }
    }

    /** One pointer input, as the wiring feeds it; `hit` is the card under a press. */
    method Feed(input: Input, hit: Option<Point>)
      requires Valid()
      modifies this`settling, this`press, this`offset, this`clickSuppressed, this`outcomes, paging, gestures
      ensures Valid()
    {
      if input.Down? || (input.Context? && hit.Some?) {
        press := hit;
      }
      Route(input);
      if input.Up? || input.Cancel? {
        press := None;
      }
    }
  }

  /** An ordered batch is ordered up to each of its intents. */
  lemma {:induction false} FollowPrefix(live: bool, intents: seq<Intent>, n: nat)
    requires n <= |intents| && FollowDrag(live, intents, |intents|).Some?
    ensures FollowDrag(live, intents, n).Some?
    decreases |intents| - n
  {
    if n < |intents| {
      FollowPrefix(live, intents, n + 1);
    }
  }
}
