/** Cycles of a functional graph, and the forest left when their edges are cut. */
module Cycles {
  import opened Common
  import opened Forest

  /** `n` parent steps lead from `a` to `b`. */
  ghost predicate Reaches<K>(m: map<K, K>, a: K, b: K, n: nat) {
    if n == 0 then a == b else a in m && Reaches(m, m[a], b, n - 1)
  }

  /** `b` is a strict ancestor of `a`. */
  ghost predicate Leads<K>(m: map<K, K>, a: K, b: K) {
    exists n: nat :: n > 0 && Reaches(m, a, b, n)
  }

  ghost predicate OnCycle<K>(m: map<K, K>, a: K) {
    Leads(m, a, a)
  }

  /** The links left when every node on a cycle loses its parent edge. */
  ghost function CutCycles<K>(m: map<K, K>): map<K, K> {
    map k | k in m && !OnCycle(m, k) :: m[k]
  }

  lemma {:induction false} ReachesJoin<K>(m: map<K, K>, a: K, b: K, c: K, i: nat, j: nat)
    requires Reaches(m, a, b, i) && Reaches(m, b, c, j)
    ensures Reaches(m, a, c, i + j)
  {
    if i > 0 {
      ReachesJoin(m, m[a], b, c, i - 1, j);
    }
  }

  /** From anywhere a cyclic node reaches, the way leads back to it. */
  lemma {:induction false} CycleReturns<K>(m: map<K, K>, a: K, c: K, s: nat) returns (j: nat)
    requires OnCycle(m, a) && Reaches(m, a, c, s)
    ensures Reaches(m, c, a, j)
    decreases s
  {
    if s == 0 {
      j := 0;
    } else {
      var n: nat :| n > 0 && Reaches(m, a, a, n);
      assert Reaches(m, m[a], m[a], n) by {
        assert Reaches(m, a, m[a], 1) by { assert Reaches(m, m[a], m[a], 0); }
        ReachesJoin(m, m[a], a, m[a], n - 1, 1);
      }
      var i := CycleReturns(m, m[a], c, s - 1);
      ReachesJoin(m, c, m[a], a, i, n - 1);
      j := i + (n - 1);
    }
  }

  lemma {:induction false} ClosedUnderReach<K>(m: map<K, K>, s: set<K>, a: K, b: K, n: nat)
    requires forall k :: k in s && k in m ==> m[k] in s
    requires a in s && Reaches(m, a, b, n)
    ensures b in s
  {
    if n > 0 {
      ClosedUnderReach(m, s, m[a], b, n - 1);
    }
  }

  /** A node outside a closed set that leads into it lies on no cycle. */
  lemma LeadsAway<K>(m: map<K, K>, s: set<K>, k: K, c: K, n: nat)
    requires forall x :: x in s && x in m ==> m[x] in s
    requires k !in s && c in s && Reaches(m, k, c, n)
    ensures !OnCycle(m, k)
  {
    if OnCycle(m, k) {
      var j := CycleReturns(m, k, c, n);
      ClosedUnderReach(m, s, c, k, j);
    }
  }

  lemma {:induction false} ReachesRooted<K>(m: map<K, K>, a: K, b: K, i: nat, n: nat)
    requires Reaches(m, a, b, i) && Rooted(m, a, n)
    ensures i <= n && Rooted(m, b, n - i)
  {
    if i > 0 {
      ReachesRooted(m, m[a], b, i - 1, n - 1);
    }
  }

  /** A finite functional graph is well-founded exactly when no node lies on a cycle. */
  lemma ForestIffAcyclic<K(!new)>(m: map<K, K>)
    ensures IsForest(m) <==> forall k :: k in m ==> !OnCycle(m, k)
  {
    if IsForest(m) {
      forall k | k in m ensures !OnCycle(m, k) {
        if OnCycle(m, k) {
          var n: nat :| n > 0 && Reaches(m, k, k, n);
          ReachesRooted(m, k, k, n, Depth(m, k));
        }
      }
    }
    if forall k :: k in m ==> !OnCycle(m, k) {
      forall k | k in m ensures Grounded(m, k) {
        AcyclicGrounded(m, k, {});
      }
    }
  }

  lemma {:induction false} AcyclicGrounded<K>(m: map<K, K>, a: K, seen: set<K>)
    requires forall k :: k in m ==> !OnCycle(m, k)
    requires seen <= m.Keys
    requires forall v :: v in seen ==> Leads(m, v, a)
    ensures Grounded(m, a)
    decreases |m.Keys - seen|
  {
    if a !in m {
      assert Rooted(m, a, 0);
    } else {
      assert a !in seen;
      var seen' := seen + {a};
      assert Reaches(m, a, m[a], 1) by { assert Reaches(m, m[a], m[a], 0); }
      forall v | v in seen' ensures Leads(m, v, m[a]) {
        if v in seen {
          var n: nat :| n > 0 && Reaches(m, v, a, n);
          ReachesJoin(m, v, a, m[a], n, 1);
          assert Reaches(m, v, m[a], n + 1);
        }
      }
      assert m.Keys - seen' < m.Keys - seen by { assert a in m.Keys - seen; }
      SmallerSet(m.Keys - seen', m.Keys - seen);
      AcyclicGrounded(m, m[a], seen');
      var j: nat :| Rooted(m, m[a], j);
      assert Rooted(m, a, j + 1);
    }
  }

  lemma SmallerSet<K>(a: set<K>, b: set<K>)
    requires a < b
    ensures |a| < |b|
  {
    assert b == a + (b - a);
    assert b - a != {};
  }

  lemma {:induction false} CutReaches<K>(m: map<K, K>, s: map<K, K>, a: K, b: K, n: nat)
    requires forall x :: x in s ==> x in m && s[x] == m[x]
    requires Reaches(s, a, b, n)
    ensures Reaches(m, a, b, n)
  {
    if n > 0 {
      CutReaches(m, s, s[a], b, n - 1);
    }
  }

  /** Cutting every cycle leaves a forest. */
  lemma CutCyclesForest<K(!new)>(m: map<K, K>)
    ensures IsForest(CutCycles(m))
  {
    var s := CutCycles(m);
    forall k | k in s ensures !OnCycle(s, k) {
      if OnCycle(s, k) {
        var n: nat :| n > 0 && Reaches(s, k, k, n);
        CutReaches(m, s, k, k, n);
      }
    }
    ForestIffAcyclic(s);
  }

  /** `path` follows parent links. */
  ghost predicate IsPath<K>(m: map<K, K>, path: seq<K>) {
    forall i :: 0 <= i < |path| - 1 ==> path[i] in m && m[path[i]] == path[i + 1]
  }

  lemma {:induction false} PathReaches<K>(m: map<K, K>, path: seq<K>, i: nat, j: nat)
    requires IsPath(m, path) && i <= j < |path|
    ensures Reaches(m, path[i], path[j], j - i)
    decreases j - i
  {
    if i < j {
      PathReaches(m, path, i + 1, j);
    }
  }

  /**
   * The cycle search shared by lineage resolution and, in its rejecting form,
   * by the agent-graph check: walk from each unfinished node until the walk
   * leaves the links, meets finished territory, or bites its own tail.
   */
  method CycleMembers<K(==, !new)>(links: map<K, K>) returns (cycleMembers: set<K>)
    ensures forall k :: k in cycleMembers <==> OnCycle(links, k)
  {
    var done: set<K> := {};
    cycleMembers := {};
    var starts := links.Keys;
    while starts != {}
      invariant forall k :: k in links ==> k in starts || k in done
      invariant forall k :: k in done && k in links ==> links[k] in done
      invariant forall k :: k in done ==> (k in cycleMembers <==> OnCycle(links, k))
      invariant cycleMembers <= done
      decreases |starts|
    {
      var start :| start in starts;
      starts := starts - {start};
      var path, tail := WalkFrom(links, done, start);
      if tail < |path| {
        cycleMembers := cycleMembers + (set i | tail <= i < |path| :: path[i]);
      }
      ClassifyPath(links, done, path, tail);
      var walked := set i | 0 <= i < |path| :: path[i];
      forall k | k in walked && k in links ensures links[k] in done + walked {
        var i :| 0 <= i < |path| && path[i] == k;
        if i < |path| - 1 {
          assert links[k] == path[i + 1];
        }
      }
      done := done + walked;
    }
    forall k | OnCycle(links, k) ensures k in cycleMembers {
      assert k in links;
    }
  }

  /** What one walk found: where it stopped, and the index where it met itself (or its length). */
  ghost predicate WalkEnds<K>(links: map<K, K>, done: set<K>, path: seq<K>, tail: nat) {
    && IsPath(links, path) && Distinct(path)
    && (forall i :: 0 <= i < |path| ==> path[i] !in done)
    && tail <= |path|
    && (path != [] ==>
          var last := path[|path| - 1];
          if tail < |path| then last in links && links[last] == path[tail]
          else last in links ==> links[last] in done)
  }

  /** The walk so far: a repetition-free path from `start`, indexed, about to visit `current`. */
  ghost predicate Walking<K>(links: map<K, K>, done: set<K>, start: K,
                             path: seq<K>, indexInPath: map<K, nat>, current: Option<K>) {
    && IsPath(links, path) && Distinct(path)
    && (forall i :: 0 <= i < |path| ==> path[i] !in done)
    && (forall k :: k in indexInPath ==> indexInPath[k] < |path| && path[indexInPath[k]] == k)
    && (forall i :: 0 <= i < |path| ==> path[i] in indexInPath)
    && (path == [] ==> current == Some(start))
    && (path != [] ==> path[0] == start)
    && (path != [] ==> current == var last := path[|path| - 1]; if last in links then Some(links[last]) else None)
  }

  lemma WalkStep<K>(links: map<K, K>, done: set<K>, start: K, path: seq<K>, indexInPath: map<K, nat>, k: K)
    requires Walking(links, done, start, path, indexInPath, Some(k))
    requires k !in indexInPath && k !in done
    ensures Walking(links, done, start, path + [k], indexInPath[k := |path|],
                    if k in links then Some(links[k]) else None)
  {
  }

  method WalkFrom<K(==, !new)>(links: map<K, K>, done: set<K>, start: K) returns (path: seq<K>, tail: nat)
    ensures WalkEnds(links, done, path, tail)
    ensures start in done || start in path
  {
    path := [];
    var indexInPath: map<K, nat> := map[];
    var current := Some(start);
    ghost var nodes := links.Keys + links.Values + {start};
    while current.Some? && current.value !in done
      invariant Walking(links, done, start, path, indexInPath, current)
      invariant indexInPath.Keys <= nodes
      invariant current.Some? ==> current.value in nodes
      decreases |nodes - indexInPath.Keys|
    {
      if current.value in indexInPath {
        assert path != [];
        return path, indexInPath[current.value];
      }
      WalkStep(links, done, start, path, indexInPath, current.value);
      SmallerSet(nodes - (indexInPath.Keys + {current.value}), nodes - indexInPath.Keys);
      indexInPath := indexInPath[current.value := |path|];
      path := path + [current.value];
      current := if current.value in links then Some(links[current.value]) else None;
    }
    tail := |path|;
  }

  /** Exactly the part of a walk from its meeting point on lies on a cycle. */
  lemma ClassifyPath<K(!new)>(links: map<K, K>, done: set<K>, path: seq<K>, tail: nat)
    requires WalkEnds(links, done, path, tail)
    requires forall k :: k in done && k in links ==> links[k] in done
    ensures forall i :: 0 <= i < |path| ==> (OnCycle(links, path[i]) <==> tail <= i)
  {
    forall i | 0 <= i < |path| ensures OnCycle(links, path[i]) <==> tail <= i {
      var end := |path| - 1;
      var last := path[end];
      PathReaches(links, path, i, end);
      if tail < |path| {
        assert Reaches(links, last, path[tail], 1) by { assert Reaches(links, path[tail], path[tail], 0); }
        ReachesJoin(links, path[i], last, path[tail], end - i, 1);
        var ring := set j | tail <= j < |path| :: path[j];
        if tail <= i {
          PathReaches(links, path, tail, i);
          ReachesJoin(links, path[i], path[tail], path[i], end - i + 1, i - tail);
        } else {
          forall k | k in ring && k in links ensures links[k] in ring {
            var j :| tail <= j < |path| && path[j] == k;
            if j < end {
              assert links[k] == path[j + 1];
            }
          }
          assert path[tail] in ring;
          LeadsAway(links, ring, path[i], path[tail], end - i + 1);
        }
      } else if last in links {
        assert Reaches(links, last, links[last], 1) by { assert Reaches(links, links[last], links[last], 0); }
        ReachesJoin(links, path[i], last, links[last], end - i, 1);
        LeadsAway(links, done, path[i], links[last], end - i + 1);
      } else if i < end {
        LeadsAway(links, {last}, path[i], last, end - i);
      }
    }
  }
}
