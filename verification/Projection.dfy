/** The projection over the lineage: statuses carried up in place, ledgers marked above, results rolled up. */
module Projection {
  import opened Common
  import opened Forest
  import opened Cycles
  import opened Walks
  import opened Schema
  import opened ProjectionSpec
  import opened ProjectionLaws

  // ----- the in-place carry -----

  /** The declarative maximum of every root. */
  ghost function Caps(links: map<Id, Id>, native: map<Id, Status>): map<Id, Status>
    requires IsForest(links)
  {
    map r | r in native :: CarriedStatus(links, native, r)
  }

  /** Caps grow towards the ancestors. */
  ghost predicate Climbing(links: map<Id, Id>, caps: map<Id, Status>) {
    forall c :: c in links ==> c in caps && links[c] in caps && Priority(caps[c]) <= Priority(caps[links[c]])
  }

  lemma CapsClimb(links: map<Id, Id>, native: map<Id, Status>)
    requires IsForest(links)
    requires forall c :: c in links ==> c in native && links[c] in native
    ensures Climbing(links, Caps(links, native))
    ensures Bounded(native, Caps(links, native), native)
  {
    forall c | c in links
      ensures Priority(CarriedStatus(links, native, c)) <= Priority(CarriedStatus(links, native, links[c]))
    {
      CarriedIsMaximum(links, native, c);
      CarriedIsMaximum(links, native, links[c]);
      var d :| d in native && Below(links, d, c) && native[d] == CarriedStatus(links, native, c);
      BelowTransitive(links, d, c, links[c]);
    }
    forall r | r in native ensures Priority(native[r]) <= Priority(CarriedStatus(links, native, r)) {
      CarriedIsMaximum(links, native, r);
    }
  }

  /** Every status lies between its native start and the declarative maximum. */
  ghost predicate Bounded(native: map<Id, Status>, caps: map<Id, Status>, eff: map<Id, Status>) {
    && eff.Keys == native.Keys == caps.Keys
    && forall r :: r in native ==> Priority(native[r]) <= Priority(eff[r]) <= Priority(caps[r])
  }

  /** The statuses of `done` have reached all their ancestors. */
  ghost predicate Pushed(links: map<Id, Id>, native: map<Id, Status>, eff: map<Id, Status>, done: seq<Id>)
    requires IsForest(links)
  {
    forall d, a :: d in done && d in native && a in native && a in eff && Below(links, d, a) ==>
      Priority(native[d]) <= Priority(eff[a])
  }

  lemma CarryDone(links: map<Id, Id>, native: map<Id, Status>, eff: map<Id, Status>, order: seq<Id>)
    requires IsForest(links) && Bounded(native, Caps(links, native), eff) && Pushed(links, native, eff, order)
    requires forall r :: r in native ==> r in order
    ensures forall r :: r in native ==> eff[r] == CarriedStatus(links, native, r)
  {
    forall r | r in native ensures eff[r] == CarriedStatus(links, native, r) {
      CarriedIsMaximum(links, native, r);
      var d :| d in native && Below(links, d, r) && native[d] == CarriedStatus(links, native, r);
      assert d in order;
    }
  }

  /** One root's walk in progress: what has been lifted, and what is carried to `p`. */
  ghost predicate Lifting(links: map<Id, Id>, native: map<Id, Status>, caps: map<Id, Status>, before: map<Id, Status>,
                          eff: map<Id, Status>, root: Id, carried: Status, p: Option<Id>)
    requires IsForest(links) && root in native && before.Keys == native.Keys
  {
    && Bounded(native, caps, eff)
    && (forall a :: a in native ==> Priority(before[a]) <= Priority(eff[a]))
    && Priority(native[root]) <= Priority(carried)
    && (p.Some? ==> p.value in native && Below(links, root, p.value) && Priority(carried) <= Priority(caps[p.value]))
    && (forall a :: a in native && Below(links, root, a) ==>
          Priority(native[root]) <= Priority(eff[a]) || (p.Some? && Below(links, p.value, a)))
  }

  lemma LiftStep(links: map<Id, Id>, native: map<Id, Status>, caps: map<Id, Status>, before: map<Id, Status>,
                 eff: map<Id, Status>, root: Id, carried: Status, p: Id)
    requires IsForest(links) && root in native && before.Keys == native.Keys && Climbing(links, caps)
    requires Lifting(links, native, caps, before, eff, root, carried, Some(p))
    ensures var combined := MaxStatus(carried, eff[p]);
            Lifting(links, native, caps, before, eff[p := combined], root, combined,
                    if p in links then Some(links[p]) else None)
  {
    LiftedReach(links, native, eff, root, carried, p);
    if p in links {
      BelowTransitive(links, root, p, links[p]);
    }
  }

  /** Lifting `p` settles it; what is still due hangs above its parent. */
  lemma LiftedReach(links: map<Id, Id>, native: map<Id, Status>, eff: map<Id, Status>, root: Id, carried: Status, p: Id)
    requires IsForest(links) && root in native && p in native && eff.Keys == native.Keys
    requires Priority(native[root]) <= Priority(carried)
    requires forall a :: a in native && Below(links, root, a) ==>
               Priority(native[root]) <= Priority(eff[a]) || Below(links, p, a)
    ensures var lifted := eff[p := MaxStatus(carried, eff[p])];
            forall a :: a in native && Below(links, root, a) ==>
              Priority(native[root]) <= Priority(lifted[a]) || (p in links && Below(links, links[p], a))
  {
  }

  /** Walk one root's ancestors, lifting each to at least what has been carried so far. */
  method CarryFrom(links: map<Id, Id>, ghost native: map<Id, Status>, ghost caps: map<Id, Status>,
                   before: map<Id, Status>, root: Id)
    returns (eff: map<Id, Status>)
    requires IsForest(links) && root in native && Bounded(native, caps, before) && Climbing(links, caps)
    ensures Bounded(native, caps, eff)
    ensures forall a :: a in native ==> Priority(before[a]) <= Priority(eff[a])
    ensures forall a :: a in native && Below(links, root, a) ==> Priority(native[root]) <= Priority(eff[a])
  {
    eff := before;
    var carried := eff[root];
    var parentKey := if root in links then Some(links[root]) else None;
    var visited: set<Id> := {};
    while parentKey.Some?
      invariant Lifting(links, native, caps, before, eff, root, carried, parentKey)
      invariant parentKey.Some? ==> forall x :: x in visited ==> Depth(links, x) > Depth(links, parentKey.value)
      decreases parentKey.Some?, if parentKey.Some? then Depth(links, parentKey.value) else 0
    {
      var p := parentKey.value;
      if p in visited {
        assert false; // the lineage is acyclic: a walk never returns
      }
      visited := visited + {p};
      if p !in eff {
        assert false; // corrupt-row
      }
      LiftStep(links, native, caps, before, eff, root, carried, p);
      var combined := MaxStatus(carried, eff[p]);
      eff := eff[p := combined];
      carried := combined;
      parentKey := if p in links then Some(links[p]) else None;
    }
  }

  method CarryStatuses(links: map<Id, Id>, native: map<Id, Status>, order: seq<Id>) returns (eff: map<Id, Status>)
    requires IsForest(links) && Lists(order, native.Keys)
    requires forall c :: c in links ==> c in native && links[c] in native
    ensures eff.Keys == native.Keys
    ensures forall r :: r in native ==> eff[r] == CarriedStatus(links, native, r)
  {
    eff := native;
    ghost var caps := Caps(links, native);
    CapsClimb(links, native);
    for n := 0 to |order|
      invariant Bounded(native, caps, eff)
      invariant Pushed(links, native, eff, order[..n])
    {
      assert order[n] in order;
      ghost var before := eff;
      eff := CarryFrom(links, native, caps, eff, order[n]);
      forall d, a | d in order[..n + 1] && d in native && a in native && a in eff && Below(links, d, a)
        ensures Priority(native[d]) <= Priority(eff[a])
      {
        if d != order[n] {
          assert d in order[..n];
        }
      }
    }
    assert order[..|order|] == order;
    CarryDone(links, native, eff, order);
  }

  // ----- ledgers -----

  method MarkAncestors(v: View, before: set<Id>, key: Id) returns (marked: set<Id>)
    requires LineageOk(v) && key in v.final
    ensures forall a :: a in marked <==> a in before || (a != key && Below(v.links, key, a))
  {
    marked := before;
    var visited: set<Id> := {};
    var parentKey := if key in v.links then Some(v.links[key]) else None;
    while parentKey.Some?
      invariant forall a :: a in marked ==> a in before || (a != key && Below(v.links, key, a))
      invariant before <= marked
      invariant parentKey.Some? ==> parentKey.value != key && Below(v.links, key, parentKey.value)
      invariant parentKey.Some? ==> forall x :: x in visited ==> Depth(v.links, x) > Depth(v.links, parentKey.value)
      invariant forall a :: a != key && Below(v.links, key, a) ==>
                  a in marked || (parentKey.Some? && Below(v.links, parentKey.value, a))
      decreases parentKey.Some?, if parentKey.Some? then Depth(v.links, parentKey.value) else 0
    {
      var p := parentKey.value;
      if p in visited {
        assert false; // the lineage is acyclic
      }
      visited := visited + {p};
      marked := marked + {p};
      if p in v.links {
        BelowTransitive(v.links, key, p, v.links[p]);
        BelowDepth(v.links, key, p);
        parentKey := Some(v.links[p]);
      } else {
        parentKey := None;
      }
    }
  }

  method DescendantLedgers(v: View, order: seq<Id>) returns (hasDescendantLedger: set<Id>)
    requires LineageOk(v) && Lists(order, v.final.Keys)
    ensures forall a :: a in hasDescendantLedger <==> HasDescendantLedger(v, a)
  {
    hasDescendantLedger := {};
    for n := 0 to |order|
      invariant forall a :: a in hasDescendantLedger <==>
                  exists d :: d in order[..n] && d in v.final && d != a && Below(v.links, d, a) && HoldsLedger(v.t[d])
    {
      var key := order[n];
      assert key in order;
      assert order[..n + 1] == order[..n] + [key];
      if HoldsLedger(v.t[key]) {
        hasDescendantLedger := MarkAncestors(v, hasDescendantLedger, key);
      }
    }
    assert order[..|order|] == order;
  }

  // ----- the roll-up -----

  /** `x` hangs under `r` or under something that has rolled. */
  ghost predicate Hangs(v: View, r: Id, rolled: set<Id>, x: Id) {
    x in v.links && (v.links[x] == r || v.links[x] in rolled)
  }

  /** A roll-up walk below `r`: who has rolled, who stopped it, and what is due. */
  ghost predicate Rolling(v: View, r: Id, rolled: set<Id>, stopped: set<Id>, stack: seq<Id>)
    requires LineageOk(v)
  {
    && Distinct(stack)
    && (forall x :: x in stack ==> Hangs(v, r, rolled, x) && x !in rolled && x !in stopped)
    && (forall x :: x in rolled ==> x in v.final && RollsTo(v, x, r) && Hangs(v, r, rolled, x))
    && (forall x :: x in stopped ==> x in v.final && Speaks(v, x) && Hangs(v, r, rolled, x))
    && (forall c :: Hangs(v, r, rolled, c) ==> c in rolled || c in stopped || c in stack)
  }

  lemma {:induction false} RolledAll(v: View, r: Id, rolled: set<Id>, stopped: set<Id>, d: Id)
    requires LineageOk(v) && Rolling(v, r, rolled, stopped, []) && d in v.final && RollsTo(v, d, r)
    ensures d in rolled
    decreases Depth(v.links, d)
  {
    if v.links[d] != r {
      RolledAll(v, r, rolled, stopped, v.links[d]);
    }
    assert Hangs(v, r, rolled, d);
  }

  ghost function UnreadStamps(t: Table, r: Id, rolled: set<Id>): set<Option<Instant>>
    requires r in t && forall d :: d in rolled ==> d in t
  {
    {t[r].unread} + set d | d in rolled :: t[d].unread
  }

  ghost function DoneStamps(t: Table, r: Id, rolled: set<Id>): set<Option<Instant>>
    requires r in t && forall d :: d in rolled ==> d in t
  {
    {t[r].done} + set d | d in rolled :: t[d].done
  }

  ghost function UnreadMembers(t: Table, rolled: set<Id>): set<Id>
    requires forall d :: d in rolled ==> d in t
  {
    set d | d in rolled && t[d].unread.Some?
  }

  /** The running facts of a roll-up. */
  datatype Tally = Tally(pending: nat, unread: Option<Instant>, done: Option<Instant>)

  ghost predicate Tallied(t: Table, r: Id, rolled: set<Id>, tally: Tally)
    requires r in t && forall d :: d in rolled ==> d in t
  {
    && tally.pending == |UnreadMembers(t, rolled)|
    && IsLatest(UnreadStamps(t, r, rolled), tally.unread)
    && IsLatest(DoneStamps(t, r, rolled), tally.done)
  }

  /** One hidden descendant's stamps join the running facts: a count, and the later of each stamp. */
  function Add(tally: Tally, row: Row): Tally {
    Tally(if row.unread.Some? then tally.pending + 1 else tally.pending,
          if Newer(row.unread, tally.unread) then row.unread else tally.unread,
          if Newer(row.done, tally.done) then row.done else tally.done)
  }

  lemma LatestGrows(s: set<Option<Instant>>, o: Option<Instant>, x: Option<Instant>)
    requires IsLatest(s, o)
    ensures IsLatest(s + {x}, if Newer(x, o) then x else o)
  {
  }

  lemma LatestUnique(s: set<Option<Instant>>, a: Option<Instant>, b: Option<Instant>)
    requires IsLatest(s, a) && IsLatest(s, b)
    ensures a == b
  {
    assert !Newer(a, b) && !Newer(b, a);
  }

  lemma StampsStep(t: Table, r: Id, rolled: set<Id>, x: Id)
    requires r in t && x in t && forall d :: d in rolled ==> d in t
    ensures UnreadStamps(t, r, rolled + {x}) == UnreadStamps(t, r, rolled) + {t[x].unread}
    ensures DoneStamps(t, r, rolled + {x}) == DoneStamps(t, r, rolled) + {t[x].done}
  {
  }

  lemma TallyStep(t: Table, r: Id, rolled: set<Id>, tally: Tally, x: Id)
    requires r in t && x in t && x !in rolled
    requires (forall d :: d in rolled ==> d in t) && Tallied(t, r, rolled, tally)
    ensures Tallied(t, r, rolled + {x}, Add(tally, t[x]))
  {
    var now := rolled + {x};
    assert UnreadMembers(t, now) == UnreadMembers(t, rolled) + (if t[x].unread.Some? then {x} else {});
    StampsStep(t, r, rolled, x);
    LatestGrows(UnreadStamps(t, r, rolled), tally.unread, t[x].unread);
    LatestGrows(DoneStamps(t, r, rolled), tally.done, t[x].done);
  }

  lemma RollingStop(v: View, r: Id, rolled: set<Id>, stopped: set<Id>, stack: seq<Id>)
    requires LineageOk(v) && Rolling(v, r, rolled, stopped, stack) && stack != []
    requires stack[|stack| - 1] in v.final && Speaks(v, stack[|stack| - 1])
    ensures Rolling(v, r, rolled, stopped + {stack[|stack| - 1]}, stack[..|stack| - 1])
  {
    var x, rest := stack[|stack| - 1], stack[..|stack| - 1];
    assert stack == rest + [x];
    assert x in stack;
  }

  lemma RollingStep(v: View, r: Id, rolled: set<Id>, stopped: set<Id>, stack: seq<Id>, kids: seq<Id>)
    requires LineageOk(v) && r in v.final && Rolling(v, r, rolled, stopped, stack) && stack != []
    requires stack[|stack| - 1] in v.final && !Speaks(v, stack[|stack| - 1])
    requires Distinct(kids) && forall c :: c in kids <==> c in v.links && v.links[c] == stack[|stack| - 1]
    ensures Rolling(v, r, rolled + {stack[|stack| - 1]}, stopped, stack[..|stack| - 1] + kids)
  {
    var x, rest := stack[|stack| - 1], stack[..|stack| - 1];
    assert x in stack;
    assert RollsTo(v, x, r);
    RollsBelow(v, x, r);
    forall c | c in kids ensures c !in rolled && c !in stopped && c !in stack {
      assert !Hangs(v, r, rolled, c);
    }
    forall c | c in kids ensures c != x {
      BelowDepth(v.links, c, x);
    }
    PopDistinct([], stack, x, kids, [x], rest + kids);
    forall c ensures Hangs(v, r, rolled + {x}, c) <==> Hangs(v, r, rolled, c) || c in kids {
    }
  }

  ghost predicate RollState(v: View, r: Id, rolled: set<Id>, stopped: set<Id>, stack: seq<Id>, visited: set<Id>,
                            tally: Tally)
    requires LineageOk(v) && r in v.final
  {
    && Rolling(v, r, rolled, stopped, stack)
    && visited == {r} + rolled + stopped && visited <= v.final.Keys
    && Tallied(v.t, r, rolled, tally)
  }

  /** Pop hidden descendants until each has either spoken for itself or joined the card. */
  method RollUp(v: View, paseoChildren: map<Id, seq<Id>>, r: Id) returns (tally: Tally)
    requires LineageOk(v) && r in v.final && ChildLists(v.links, paseoChildren)
    ensures tally == Tally(PendingResults(v, r), AggregatedUnread(v, r), AggregatedDone(v, r))
  {
    tally := Tally(0, v.t[r].unread, v.t[r].done);
    var visited := {r};
    var stack := Kids(paseoChildren, r);
    ghost var rolled: set<Id> := {};
    ghost var stopped: set<Id> := {};
    RollingStart(v, r, stack);
    while stack != []
      invariant RollState(v, r, rolled, stopped, stack, visited, tally)
      decreases |v.final.Keys - visited|
    {
      var childKey := stack[|stack| - 1];
      var kids := Kids(paseoChildren, childKey);
      DueChild(v, r, rolled, stopped, stack, visited, tally);
      KidsOf(v.links, paseoChildren, childKey);
      if childKey in visited {
        assert false; // the lineage is a forest: nothing is pushed twice
      }
      if childKey !in v.final {
        assert false; // corrupt-row
      }
      if IsSpeaking(v, childKey) {
        StopTransition(v, r, rolled, stopped, stack, visited, tally);
        stopped := stopped + {childKey};
        stack := stack[..|stack| - 1];
      } else {
        RollTransition(v, r, rolled, stopped, stack, visited, tally, kids);
        rolled := rolled + {childKey};
        tally := Add(tally, v.t[childKey]);
        stack := stack[..|stack| - 1] + kids;
      }
      visited := visited + {childKey};
    }
    RollResult(v, r, rolled, stopped, visited, tally);
  }

  lemma DueChild(v: View, r: Id, rolled: set<Id>, stopped: set<Id>, stack: seq<Id>, visited: set<Id>, tally: Tally)
    requires LineageOk(v) && r in v.final && stack != [] && RollState(v, r, rolled, stopped, stack, visited, tally)
    ensures var x := stack[|stack| - 1];
            x in v.final && x !in visited
            && |v.final.Keys - (visited + {x})| < |v.final.Keys - visited|
  {
    var x := stack[|stack| - 1];
    FreshChild(v, r, rolled, stopped, stack);
    SmallerSet(v.final.Keys - (visited + {x}), v.final.Keys - visited);
  }

  lemma StopTransition(v: View, r: Id, rolled: set<Id>, stopped: set<Id>, stack: seq<Id>, visited: set<Id>,
                       tally: Tally)
    requires LineageOk(v) && r in v.final && stack != [] && RollState(v, r, rolled, stopped, stack, visited, tally)
    requires stack[|stack| - 1] in v.final && Speaks(v, stack[|stack| - 1])
    ensures var x := stack[|stack| - 1];
            RollState(v, r, rolled, stopped + {x}, stack[..|stack| - 1], visited + {x}, tally)
  {
    RollingStop(v, r, rolled, stopped, stack);
  }

  lemma RollTransition(v: View, r: Id, rolled: set<Id>, stopped: set<Id>, stack: seq<Id>, visited: set<Id>,
                       tally: Tally, kids: seq<Id>)
    requires LineageOk(v) && r in v.final && stack != [] && RollState(v, r, rolled, stopped, stack, visited, tally)
    requires stack[|stack| - 1] in v.final && !Speaks(v, stack[|stack| - 1])
    requires Distinct(kids) && forall c :: c in kids <==> c in v.links && v.links[c] == stack[|stack| - 1]
    ensures var x := stack[|stack| - 1];
            RollState(v, r, rolled + {x}, stopped, stack[..|stack| - 1] + kids, visited + {x}, Add(tally, v.t[x]))
  {
    var x := stack[|stack| - 1];
    assert x in stack;
    RollingStep(v, r, rolled, stopped, stack, kids);
    TallyStep(v.t, r, rolled, tally, x);
  }

  lemma RollResult(v: View, r: Id, rolled: set<Id>, stopped: set<Id>, visited: set<Id>, tally: Tally)
    requires LineageOk(v) && r in v.final && RollState(v, r, rolled, stopped, [], visited, tally)
    ensures tally == Tally(PendingResults(v, r), AggregatedUnread(v, r), AggregatedDone(v, r))
  {
    RolledExactly(v, r, rolled, stopped);
    LatestUnique(UnreadStamps(v.t, r, rolled), tally.unread, AggregatedUnread(v, r));
    LatestUnique(DoneStamps(v.t, r, rolled), tally.done, AggregatedDone(v, r));
    assert UnreadMembers(v.t, rolled) == set d | d in Rolled(v, r) && v.t[d].unread.Some?;
  }

  predicate IsSpeaking(v: View, d: Id)
    requires LineageOk(v) && d in v.final
    ensures IsSpeaking(v, d) == Speaks(v, d)
  {
    v.final[d] != Idle || (d !in v.links && HoldsLedger(v.t[d]))
  }

  lemma RollingStart(v: View, r: Id, stack: seq<Id>)
    requires LineageOk(v) && r in v.final && Distinct(stack)
    requires forall c :: c in stack <==> c in v.links && v.links[c] == r
    ensures Rolling(v, r, {}, {}, stack)
    ensures Tallied(v.t, r, {}, Tally(0, v.t[r].unread, v.t[r].done))
  {
    assert UnreadStamps(v.t, r, {}) == {v.t[r].unread};
    assert DoneStamps(v.t, r, {}) == {v.t[r].done};
    assert UnreadMembers(v.t, {}) == {};
  }

  lemma FreshChild(v: View, r: Id, rolled: set<Id>, stopped: set<Id>, stack: seq<Id>)
    requires LineageOk(v) && r in v.final && Rolling(v, r, rolled, stopped, stack) && stack != []
    ensures stack[|stack| - 1] in v.final && stack[|stack| - 1] !in {r} + rolled + stopped
  {
    var x := stack[|stack| - 1];
    assert x in stack;
    if v.links[x] != r {
      RollsBelow(v, v.links[x], r);
    }
    BelowDepth(v.links, x, r);
    BelowDepth(v.links, v.links[x], r);
  }

  lemma RolledExactly(v: View, r: Id, rolled: set<Id>, stopped: set<Id>)
    requires LineageOk(v) && r in v.final && Rolling(v, r, rolled, stopped, [])
    ensures rolled == Rolled(v, r)
  {
    forall d | d in v.final && RollsTo(v, d, r) ensures d in rolled {
      RolledAll(v, r, rolled, stopped, d);
    }
  }
}
