/** The projection's native half: classification, depth-first order and bottom-up status. */
module NativePass {
  import opened Common
  import opened Forest
  import opened Walks
  import opened Preorder
  import opened Schema
  import opened ProjectionSpec
  import opened ProjectionLaws

  lemma EntryGrows(rows: seq<Entry>, e: Entry, k: Id)
    ensures HasEntry(rows + [e], k) <==> HasEntry(rows, k) || k == e.id
  {
    if HasEntry(rows, k) {
      var i :| 0 <= i < |rows| && rows[i].id == k;
      assert (rows + [e])[i].id == k;
    }
    assert (rows + [e])[|rows|].id == e.id;
  }

  /** The table holds exactly the entries, each with its row. */
  ghost predicate Holds(rows: seq<Entry>, u: Table) {
    && (forall k :: k in u <==> HasEntry(rows, k))
    && (forall i :: 0 <= i < |rows| ==> rows[i].id in u && u[rows[i].id] == rows[i].row)
    && |u| == |rows|
  }

  /** One more row over a table of distinct entries. */
  lemma TableStep(rows: seq<Entry>, e: Entry, u: Table)
    requires Holds(rows, u) && !HasEntry(rows, e.id)
    ensures Holds(rows + [e], u[e.id := e.row])
  {
    TableRows(rows, e, u);
    var w := u[e.id := e.row];
    assert w.Keys == u.Keys + {e.id};
    forall k ensures k in w <==> HasEntry(rows + [e], k) {
      EntryGrows(rows, e, k);
    }
  }

  lemma TableRows(rows: seq<Entry>, e: Entry, u: Table)
    requires forall i :: 0 <= i < |rows| ==> rows[i].id in u && u[rows[i].id] == rows[i].row
    requires !HasEntry(rows, e.id)
    ensures var more, w := rows + [e], u[e.id := e.row];
            forall i :: 0 <= i < |more| ==> more[i].id in w && w[more[i].id] == more[i].row
  {
    assert forall i :: 0 <= i < |rows| ==> rows[i].id != e.id;
  }

  lemma {:induction false} TableMembers(rows: seq<Entry>)
    requires DistinctEntries(rows)
    ensures forall k :: k in TableOf(rows) <==> HasEntry(rows, k)
    ensures forall i :: 0 <= i < |rows| ==> rows[i].id in TableOf(rows) && TableOf(rows)[rows[i].id] == rows[i].row
    ensures |TableOf(rows)| == |rows|
  {
    if rows != [] {
      var init, last := rows[..|rows| - 1], rows[|rows| - 1];
      assert rows == init + [last];
      assert DistinctEntries(init) && !HasEntry(init, last.id);
      TableMembers(init);
      TableStep(init, last, TableOf(init));
    }
  }

  method IndexRows(rows: seq<Entry>) returns (byIdentity: Table, duplicate: bool)
    ensures duplicate <==> !DistinctEntries(rows)
    ensures !duplicate ==> byIdentity == TableOf(rows)
  {
    byIdentity, duplicate := map[], false;
    for n := 0 to |rows|
      invariant DistinctEntries(rows[..n])
      invariant byIdentity == TableOf(rows[..n])
    {
      TableMembers(rows[..n]);
      TakeTake(rows, n);
      if rows[n].id in byIdentity {
        assert HasEntry(rows[..n], rows[n].id);
        return byIdentity, true;
      }
      byIdentity := byIdentity[rows[n].id := rows[n].row];
      assert forall i :: 0 <= i < n ==> HasEntry(rows[..n], rows[..n][i].id);
    }
    TakeAll(rows);
  }

  /** The verdict on one row, in the projection's order of checks. */
  method CheckRow(rows: seq<Entry>, byIdentity: Table, k: Id, row: Row) returns (error: Option<ProjectionError>)
    requires DistinctEntries(rows) && byIdentity == TableOf(rows)
    ensures error == RowError(rows, k, row)
  {
    TableMembers(rows);
    if row.parent.None? {
      if row.ghosttyTerminalId.Some? && k.provider != Claude {
        return Some(NonClaudeTerminalBinding);
      }
      if row.slot.None? || row.slot.value < 1 {
        return Some(TopLevelWithoutPositiveSlot);
      }
      return None;
    }
    if row.ghosttyTerminalId.Some? {
      return Some(ChildWithTerminalBinding);
    }
    if row.slot.Some? {
      return Some(ChildWithSlot);
    }
    var parentKey := ParentId(k, row);
    if parentKey !in byIdentity {
      var underAnotherProvider := NamedByAnotherProvider(rows, parentKey);
      return Some(if underAnotherProvider then CrossProviderParent else MissingParent);
    }
    return None;
  }

  /** Roots and children lists of the first `n` rows. */
  ghost predicate Classified(rows: seq<Entry>, n: nat, rootRows: seq<Id>, childrenOf: map<Id, seq<Id>>) {
    && n <= |rows|
    && Distinct(rootRows)
    && (forall k :: k in rootRows <==> IsRoot(TableOf(rows[..n]), k))
    && ChildLists(NativeLinks(TableOf(rows[..n])), childrenOf)
  }

  method ClassifyRows(rows: seq<Entry>, byIdentity: Table)
    returns (error: Option<ProjectionError>, rootRows: seq<Id>, childrenOf: map<Id, seq<Id>>)
    requires DistinctEntries(rows) && byIdentity == TableOf(rows)
    ensures error.Some? ==> FirstRowError(rows, error.value) && !RowsOk(rows)
    ensures error.None? ==> RowsOk(rows) && Classified(rows, |rows|, rootRows, childrenOf)
  {
    rootRows, childrenOf, error := [], map[], None;
    assert NativeLinks(map[]) == map[];
    for n := 0 to |rows|
      invariant error.None?
      invariant Classified(rows, n, rootRows, childrenOf)
      invariant forall i :: 0 <= i < n ==> RowError(rows, rows[i].id, rows[i].row).None?
    {
      var k, row := rows[n].id, rows[n].row;
      error := CheckRow(rows, byIdentity, k, row);
      if error.Some? {
        return;
      }
      ClassifyStep(rows, n, rootRows, childrenOf);
      if row.parent.None? {
        rootRows := rootRows + [k];
      } else {
        childrenOf := AddKid(childrenOf, ParentId(k, row), k);
      }
    }
  }

  lemma ClassifyStep(rows: seq<Entry>, n: nat, rootRows: seq<Id>, childrenOf: map<Id, seq<Id>>)
    requires DistinctEntries(rows) && n < |rows| && Classified(rows, n, rootRows, childrenOf)
    ensures var k, row := rows[n].id, rows[n].row;
            if row.parent.None? then Classified(rows, n + 1, rootRows + [k], childrenOf)
            else Classified(rows, n + 1, rootRows, AddKid(childrenOf, ParentId(k, row), k))
  {
    var k, row := rows[n].id, rows[n].row;
    var before := TableOf(rows[..n]);
    assert rows[..n + 1][..n] == rows[..n];
    TableMembers(rows[..n]);
    assert forall i :: 0 <= i < n ==> rows[..n][i].id == rows[i].id != k;
    RowJoins(before, k, row, rootRows);
    if row.parent.Some? {
      AddKidLists(NativeLinks(before), childrenOf, ParentId(k, row), k);
    }
  }

  /** A new row changes the roots or the links, never both. */
  lemma RowJoins(t: Table, k: Id, row: Row, rootRows: seq<Id>)
    requires k !in t && Distinct(rootRows) && forall j :: j in rootRows <==> IsRoot(t, j)
    ensures row.parent.None? ==>
              NativeLinks(t[k := row]) == NativeLinks(t) && Distinct(rootRows + [k])
              && forall j :: j in rootRows + [k] <==> IsRoot(t[k := row], j)
    ensures row.parent.Some? ==>
              NativeLinks(t[k := row]) == NativeLinks(t)[k := ParentId(k, row)]
              && forall j :: j in rootRows <==> IsRoot(t[k := row], j)
  {
    assert k !in rootRows;
  }

  // ----- depth-first order -----

  /** The links of the nodes whose chains end; a detached cycle is not among them. */
  ghost function GroundedPart<K>(m: map<K, K>): map<K, K> {
    map k | k in m && Grounded(m, k) :: m[k]
  }

  lemma GroundedPartForest<K(!new)>(m: map<K, K>)
    ensures IsForest(GroundedPart(m))
    ensures forall c :: c in m && Grounded(m, m[c]) ==> c in GroundedPart(m)
    ensures forall k :: k in GroundedPart(m) ==> Grounded(m, m[k])
    ensures IsForest(m) ==> GroundedPart(m) == m
  {
    var g := GroundedPart(m);
    forall k | k in g ensures Grounded(g, k) {
      var n: nat :| Rooted(m, k, n);
      RestrictGrounded(m, g, k, n);
    }
    forall c | c in m && Grounded(m, m[c]) ensures c in g {
      var n: nat :| Rooted(m, m[c], n);
      assert Rooted(m, c, n + 1);
    }
    forall k | k in g ensures Grounded(m, m[k]) {
      var n: nat :| Rooted(m, k, n);
      assert Rooted(m, m[k], n - 1);
    }
  }

  lemma {:induction false} SubtreeGrounded<K(!new)>(m: map<K, K>, root: K, b: K)
    requires IsForest(GroundedPart(m)) && root !in m && Below(GroundedPart(m), b, root)
    ensures Grounded(m, b)
  {
    if b == root {
      assert Rooted(m, b, 0);
    }
  }

  /** One root's depth-first walk; neither its step bound nor its revisit check can fire. */
  method VisitRoot(links: map<Id, Id>, childrenOf: map<Id, seq<Id>>, root: Id, rowCount: nat, ghost nodes: set<Id>)
    returns (order: seq<Id>)
    requires ChildLists(links, childrenOf) && IsForest(GroundedPart(links))
    requires root !in links && root in nodes && links.Keys <= nodes && |nodes| == rowCount
    ensures Lists(order, Subtree(GroundedPart(links), root))
    ensures ParentsFirst(GroundedPart(links), order) && order != [] && order[0] == root
  {
    ghost var g := GroundedPart(links);
    var visited: set<Id> := {};
    order := [];
    var stack := [root];
    var steps := 0;
    GroundedPartForest(links);
    while stack != []
      invariant Exploring(g, root, order, stack)
      invariant forall x :: x in visited <==> x in order
      invariant steps == |order|
      decreases |Subtree(g, root)| - |order|
    {
      var current := stack[|stack| - 1];
      WalkBound(g, root, order, stack, nodes);
      steps := steps + 1;
      if steps > rowCount + 1 {
        assert false; // traversal-bound-exceeded
      }
      assert current in stack;
      if current in visited {
        assert false; // cycle
      }
      SubtreeGrounded(links, root, current);
      GroundedKids(links, childrenOf, current);
      ExploreStep(g, root, order, stack, Kids(childrenOf, current));
      visited := visited + {current};
      order := order + [current];
      stack := stack[..|stack| - 1] + Kids(childrenOf, current);
    }
    ExploredSubtree(g, root, order);
  }

  lemma WalkBound(g: map<Id, Id>, root: Id, order: seq<Id>, stack: seq<Id>, nodes: set<Id>)
    requires IsForest(g) && Exploring(g, root, order, stack) && stack != []
    requires root in nodes && g.Keys <= nodes
    ensures |order| < |Subtree(g, root)| <= |nodes|
  {
    VisitRoom(g, root, order, stack);
    assert Subtree(g, root) <= nodes;
    assert nodes == Subtree(g, root) + (nodes - Subtree(g, root));
  }

  lemma GroundedKids(links: map<Id, Id>, childrenOf: map<Id, seq<Id>>, k: Id)
    requires ChildLists(links, childrenOf) && Grounded(links, k)
    ensures Distinct(Kids(childrenOf, k))
    ensures forall c :: c in Kids(childrenOf, k) <==> c in GroundedPart(links) && GroundedPart(links)[c] == k
  {
    GroundedPartForest(links);
  }

  /** Every root's walk, one after the other. */
  ghost predicate Walked(links: map<Id, Id>, roots: seq<Id>, order: seq<Id>, rootOf: map<Id, Id>)
    requires IsForest(GroundedPart(links))
  {
    && Distinct(order)
    && (forall k :: k in order <==> Top(GroundedPart(links), k) in roots)
    && (forall i :: 0 <= i < |order| && order[i] in GroundedPart(links) ==> links[order[i]] in order[..i])
    && (forall k :: k in order ==> k in rootOf && rootOf[k] == Top(GroundedPart(links), k))
  }

  lemma WalkedStep(links: map<Id, Id>, roots: seq<Id>, root: Id, order: seq<Id>, more: seq<Id>,
                   rootOf: map<Id, Id>, rootOf': map<Id, Id>)
    requires IsForest(GroundedPart(links)) && Walked(links, roots, order, rootOf)
    requires root !in links && root !in roots
    requires Lists(more, Subtree(GroundedPart(links), root))
    requires ParentsFirst(GroundedPart(links), more) && more != [] && more[0] == root
    requires rootOf' == rootOf + map k | k in more :: root
    ensures Walked(links, roots + [root], order + more, rootOf')
  {
    TopsOfSubtree(GroundedPart(links), root, more);
    WalkOrder(links, order, more, root);
    DistinctJoin(order, more);
    WalkTops(GroundedPart(links), roots, root, order, more);
  }

  lemma TopsOfSubtree(g: map<Id, Id>, root: Id, more: seq<Id>)
    requires IsForest(g) && root !in g && Lists(more, Subtree(g, root))
    ensures forall k :: k in more <==> Top(g, k) == root
  {
    forall k ensures k in more <==> Top(g, k) == root {
      if k in more { TopUnique(g, k, root); }
      if Top(g, k) == root { BelowTop(g, k); }
    }
  }

  lemma WalkTops(g: map<Id, Id>, roots: seq<Id>, root: Id, order: seq<Id>, more: seq<Id>)
    requires IsForest(g) && forall k :: k in order <==> Top(g, k) in roots
    requires forall k :: k in more <==> Top(g, k) == root
    ensures forall k :: k in order + more <==> Top(g, k) in roots + [root]
  {
  }

  lemma DistinctJoin(order: seq<Id>, more: seq<Id>)
    requires Distinct(order) && Distinct(more) && forall k :: k in more ==> k !in order
    ensures Distinct(order + more)
  {
    var all := order + more;
    forall i, j | 0 <= i < j < |all| ensures all[i] != all[j] {
      if i < |order| <= j {
        assert all[i] in order && all[j] in more;
      }
    }
  }

  lemma WalkOrder(links: map<Id, Id>, order: seq<Id>, more: seq<Id>, root: Id)
    requires root !in links && ParentsFirst(GroundedPart(links), more) && more != [] && more[0] == root
    requires forall i :: 0 <= i < |order| && order[i] in GroundedPart(links) ==> links[order[i]] in order[..i]
    ensures var all := order + more;
            forall i :: 0 <= i < |all| && all[i] in GroundedPart(links) ==> links[all[i]] in all[..i]
  {
    var all := order + more;
    forall i | 0 <= i < |all| && all[i] in GroundedPart(links) ensures links[all[i]] in all[..i] {
      if i < |order| {
        assert all[..i] == order[..i];
      } else {
        assert all[..i] == order + more[..i - |order|];
      }
    }
  }

  method NativeOrder(t: Table, rootOrder: seq<Id>, childrenOf: map<Id, seq<Id>>, rowCount: nat)
    returns (nativeOrder: seq<Id>, nativeRootByIdentity: map<Id, Id>, totalVisited: nat)
    requires ChildLists(NativeLinks(t), childrenOf) && |t| == rowCount
    requires Distinct(rootOrder) && forall k :: k in rootOrder <==> IsRoot(t, k)
    ensures IsForest(GroundedPart(NativeLinks(t)))
    ensures Walked(NativeLinks(t), rootOrder, nativeOrder, nativeRootByIdentity)
    ensures totalVisited == |nativeOrder|
  {
    var links := NativeLinks(t);
    GroundedPartForest(links);
    nativeOrder, nativeRootByIdentity, totalVisited := [], map[], 0;
    for n := 0 to |rootOrder|
      invariant Walked(links, rootOrder[..n], nativeOrder, nativeRootByIdentity)
      invariant totalVisited == |nativeOrder|
    {
      var root := rootOrder[n];
      assert IsRoot(t, root);
      var order := VisitRoot(links, childrenOf, root, rowCount, t.Keys);
      assert root !in rootOrder[..n];
      ghost var before := nativeRootByIdentity;
      nativeRootByIdentity := nativeRootByIdentity + map k | k in order :: root;
      WalkedStep(links, rootOrder[..n], root, nativeOrder, order, before, nativeRootByIdentity);
      assert rootOrder[..n + 1] == rootOrder[..n] + [root];
      nativeOrder := nativeOrder + order;
      totalVisited := totalVisited + |order|;
    }
    assert rootOrder[..|rootOrder|] == rootOrder;
  }

  /** All rows were reached exactly when the native links form a forest. */
  lemma AllVisitedIffForest(t: Table, rootOrder: seq<Id>, order: seq<Id>, rootOf: map<Id, Id>)
    requires ForeignKeys(t)
    requires forall k :: k in rootOrder <==> IsRoot(t, k)
    requires IsForest(GroundedPart(NativeLinks(t))) && Walked(NativeLinks(t), rootOrder, order, rootOf)
    ensures |order| == |t| <==> IsForest(NativeLinks(t))
    ensures IsForest(NativeLinks(t)) ==> Lists(order, t.Keys)
  {
    var links := NativeLinks(t);
    var g := GroundedPart(links);
    GroundedPartForest(links);
    forall k | k in order ensures k in t && Grounded(links, k) {
      BelowTop(g, k);
      SubtreeGrounded(links, Top(g, k), k);
    }
    if IsForest(links) {
      forall k | k in t ensures k in order {
        TopStays(t, k);
      }
      ListingSize(order, t.Keys);
    } else {
      var k :| k in links && !Grounded(links, k);
      assert k !in order;
      DistinctSubset(order, t.Keys);
    }
  }

  lemma {:induction false} TopStays(t: Table, k: Id)
    requires ForeignKeys(t) && IsForest(NativeLinks(t)) && k in t
    ensures IsRoot(t, Top(NativeLinks(t), k))
    decreases Depth(NativeLinks(t), k)
  {
    if k in NativeLinks(t) {
      TopStays(t, NativeLinks(t)[k]);
    }
  }

  // ----- bottom-up status -----

  datatype NodeResult = NodeResult(effectiveStatus: Status, descendantCount: nat)

  lemma MaxOfUnion(a: set<Status>, b: set<Status>)
    requires a != {} && b != {}
    ensures MaxOf(a + b) == MaxStatus(MaxOf(a), MaxOf(b))
  {
    MaxOfBounds(a);
    MaxOfBounds(b);
  }

  /** Rows covered once a node and the first `n` of its children are folded in. */
  ghost function Folded(t: Table, k: Id, kids: seq<Id>): set<Id>
    requires IsForest(NativeLinks(t))
  {
    set j | j in t && (j == k || BelowOne(NativeLinks(t), j, kids))
  }

  ghost function FoldedStatus(t: Table, s: set<Id>): Status {
    MaxOf(set j | j in s && j in t :: OwnStatus(t[j]))
  }

  lemma FoldStep(t: Table, k: Id, kids: seq<Id>, n: nat)
    requires IsForest(NativeLinks(t)) && k in t && n < |kids| && Distinct(kids)
    requires forall c :: c in kids ==> c in NativeLinks(t) && NativeLinks(t)[c] == k
    ensures var a, b := Folded(t, k, kids[..n]), Folded(t, k, kids[..n + 1]);
            FoldedStatus(t, b) == MaxStatus(FoldedStatus(t, a), NativeStatus(t, kids[n]))
            && |b| == |a| + 1 + DescendantCount(t, kids[n])
  {
    var links := NativeLinks(t);
    var c := kids[n];
    assert c in kids;
    var a, b := Folded(t, k, kids[..n]), Folded(t, k, kids[..n + 1]);
    var below := set j | j in t && Below(links, j, c);
    forall j | j in t ensures j in b <==> j in a || j in below {
      BelowOneGrows(links, j, kids, n);
    }
    assert b == a + below;
    forall j | j in below ensures j !in a {
      KidsApart(links, k, kids, n, j);
    }
    FoldCounts(t, k, c, a, below);
    FoldStatuses(t, c, a, b, below, k);
  }

  lemma BelowOneGrows(links: map<Id, Id>, j: Id, kids: seq<Id>, n: nat)
    requires IsForest(links) && n < |kids|
    ensures BelowOne(links, j, kids[..n + 1]) <==> BelowOne(links, j, kids[..n]) || Below(links, j, kids[n])
  {
    var longer, shorter := kids[..n + 1], kids[..n];
    if i :| 0 <= i < |shorter| && Below(links, j, shorter[i]) {
      assert longer[i] == shorter[i];
    }
    assert longer[n] == kids[n];
    if BelowOne(links, j, longer) && !Below(links, j, kids[n]) {
      var i :| 0 <= i < |longer| && Below(links, j, longer[i]);
      assert shorter[i] == longer[i];
    }
  }

  lemma FoldCounts(t: Table, k: Id, c: Id, a: set<Id>, below: set<Id>)
    requires IsForest(NativeLinks(t)) && c in t && a !! below
    requires below == set j | j in t && Below(NativeLinks(t), j, c)
    ensures |a + below| == |a| + 1 + DescendantCount(t, c)
  {
    var strict := set j | j in t && j != c && Below(NativeLinks(t), j, c);
    assert below == strict + {c};
  }

  lemma FoldStatuses(t: Table, c: Id, a: set<Id>, b: set<Id>, below: set<Id>, k: Id)
    requires IsForest(NativeLinks(t)) && c in t && k in t && k in a
    requires below == set j | j in t && Below(NativeLinks(t), j, c)
    requires b == a + below
    ensures FoldedStatus(t, b) == MaxStatus(FoldedStatus(t, a), NativeStatus(t, c))
  {
    var links := NativeLinks(t);
    var sa := set j | j in a && j in t :: OwnStatus(t[j]);
    var sc := set j | j in t && Below(links, j, c) :: OwnStatus(t[j]);
    assert OwnStatus(t[k]) in sa;
    assert OwnStatus(t[c]) in sc;
    assert (set j | j in b && j in t :: OwnStatus(t[j])) == sa + sc;
    MaxOfUnion(sa, sc);
  }

  lemma KidsApart(links: map<Id, Id>, k: Id, kids: seq<Id>, n: nat, j: Id)
    requires IsForest(links) && n < |kids| && Distinct(kids)
    requires forall c :: c in kids ==> c in links && links[c] == k
    requires Below(links, j, kids[n])
    ensures j != k
    ensures !BelowOne(links, j, kids[..n])
  {
    assert kids[n] in kids;
    BelowDepth(links, j, kids[n]);
    SiblingsApart(links, k, kids);
  }

  lemma FoldAll(t: Table, k: Id, kids: seq<Id>)
    requires IsForest(NativeLinks(t)) && k in t
    requires forall c :: c in kids <==> c in NativeLinks(t) && NativeLinks(t)[c] == k
    ensures FoldedStatus(t, Folded(t, k, kids)) == NativeStatus(t, k)
    ensures |Folded(t, k, kids)| == DescendantCount(t, k) + 1
  {
    var links := NativeLinks(t);
    forall j | j in t ensures j in Folded(t, k, kids) <==> Below(links, j, k) {
      if Below(links, j, k) && j != k {
        var c := BelowChild(links, j, k);
        var i :| 0 <= i < |kids| && kids[i] == c;
      }
      if BelowOne(links, j, kids) {
        var i :| 0 <= i < |kids| && Below(links, j, kids[i]);
        assert kids[i] in kids;
        BelowTransitive(links, j, kids[i], k);
      }
    }
    assert (set j | j in Folded(t, k, kids) && j in t :: OwnStatus(t[j]))
        == set j | j in t && Below(links, j, k) :: OwnStatus(t[j]);
    var strict := set j | j in t && j != k && Below(links, j, k);
    assert Folded(t, k, kids) == strict + {k};
  }

  /** Fold one node's children into its own status; every child is already done. */
  method FoldNode(t: Table, k: Id, kids: seq<Id>, results: map<Id, NodeResult>) returns (result: NodeResult)
    requires IsForest(NativeLinks(t)) && k in t && Distinct(kids)
    requires forall c :: c in kids <==> c in NativeLinks(t) && NativeLinks(t)[c] == k
    requires ResultsRight(t, results) && forall c :: c in kids ==> c in results
    ensures result == NodeResult(NativeStatus(t, k), DescendantCount(t, k))
  {
    var effectiveStatus := OwnStatus(t[k]);
    var descendantCount := 0;
    assert Folded(t, k, kids[..0]) == {k};
    assert (set j | j in {k} && j in t :: OwnStatus(t[j])) == {OwnStatus(t[k])};
    for n := 0 to |kids|
      invariant effectiveStatus == FoldedStatus(t, Folded(t, k, kids[..n]))
      invariant descendantCount + 1 == |Folded(t, k, kids[..n])|
    {
      assert kids[n] in kids;
      if kids[n] !in results {
        assert false; // corrupt-row
      }
      FoldStep(t, k, kids, n);
      effectiveStatus := MaxStatus(effectiveStatus, results[kids[n]].effectiveStatus);
      descendantCount := descendantCount + results[kids[n]].descendantCount + 1;
    }
    assert kids[..|kids|] == kids;
    FoldAll(t, k, kids);
    result := NodeResult(effectiveStatus, descendantCount);
  }

  method NativeResults(t: Table, nativeOrder: seq<Id>, childrenOf: map<Id, seq<Id>>)
    returns (results: map<Id, NodeResult>)
    requires IsForest(NativeLinks(t)) && ChildLists(NativeLinks(t), childrenOf)
    requires Lists(nativeOrder, t.Keys)
    requires forall i :: 0 <= i < |nativeOrder| && nativeOrder[i] in NativeLinks(t) ==>
               NativeLinks(t)[nativeOrder[i]] in nativeOrder[..i]
    ensures results.Keys == t.Keys && ResultsRight(t, results)
  {
    results := map[];
    var n := |nativeOrder|;
    while n > 0
      invariant 0 <= n <= |nativeOrder|
      invariant forall k :: k in results <==> k in nativeOrder[n..]
      invariant ResultsRight(t, results)
    {
      n := n - 1;
      var k := nativeOrder[n];
      assert nativeOrder[n..] == [k] + nativeOrder[n + 1..];
      assert k in nativeOrder;
      LaterKids(t, nativeOrder, childrenOf, n);
      var result := FoldNode(t, k, Kids(childrenOf, k), results);
      results := results[k := result];
    }
    assert nativeOrder[0..] == nativeOrder;
  }

  ghost predicate ResultsRight(t: Table, results: map<Id, NodeResult>)
    requires IsForest(NativeLinks(t))
  {
    forall k :: k in results ==> results[k] == NodeResult(NativeStatus(t, k), DescendantCount(t, k))
  }

  lemma LaterKids(t: Table, order: seq<Id>, childrenOf: map<Id, seq<Id>>, n: nat)
    requires Lists(order, t.Keys) && n < |order| && ChildLists(NativeLinks(t), childrenOf)
    requires forall i :: 0 <= i < |order| && order[i] in NativeLinks(t) ==> NativeLinks(t)[order[i]] in order[..i]
    ensures Distinct(Kids(childrenOf, order[n]))
    ensures forall c :: c in Kids(childrenOf, order[n]) <==> c in NativeLinks(t) && NativeLinks(t)[c] == order[n]
    ensures forall c :: c in Kids(childrenOf, order[n]) ==> c in order[n + 1..]
  {
    KidsOf(NativeLinks(t), childrenOf, order[n]);
    LaterChildren(NativeLinks(t), order, n);
  }

  lemma LaterChildren(links: map<Id, Id>, order: seq<Id>, n: nat)
    requires Distinct(order) && n < |order|
    requires forall c :: c in links ==> c in order
    requires forall i :: 0 <= i < |order| && order[i] in links ==> links[order[i]] in order[..i]
    ensures forall c :: c in links && links[c] == order[n] ==> c in order[n + 1..]
  {
    forall c | c in links && links[c] == order[n] ensures c in order[n + 1..] {
      var i :| 0 <= i < |order| && order[i] == c;
      var j :| 0 <= j < i && order[j] == order[n];
      assert order[n + 1..][i - n - 1] == c;
    }
  }
}
