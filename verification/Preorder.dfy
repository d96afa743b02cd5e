/** Depth-first preorder of a forest whose children are listed in a chosen order. */
module Preorder {
  import opened Common
  import opened Forest
  import opened Cycles
  import opened Walks

  lemma SubtreeShrinks<K>(links: map<K, K>, c: K)
    requires IsForest(links) && c in links
    ensures |Subtree(links, c)| < |Subtree(links, links[c])|
  {
    var p := links[c];
    forall x | x in Subtree(links, c) ensures x in Subtree(links, p) {
      BelowTransitive(links, x, c, p);
    }
    assert p !in Subtree(links, c) by {
      if Below(links, p, c) {
        BelowDepth(links, p, c);
      }
    }
    assert p in Subtree(links, p);
    SmallerSet(Subtree(links, c), Subtree(links, p));
  }

  /** The node, then each child's preorder in list order. */
  ghost function Tree<K(!new)>(links: map<K, K>, kids: map<K, seq<K>>, k: K): seq<K>
    requires IsForest(links) && ChildLists(links, kids)
    decreases |Subtree(links, k)|, 1, 0
  {
    [k] + Branches(links, kids, k, Kids(kids, k))
  }

  ghost function Branches<K(!new)>(links: map<K, K>, kids: map<K, seq<K>>, p: K, cs: seq<K>): seq<K>
    requires IsForest(links) && ChildLists(links, kids)
    requires forall c :: c in cs ==> c in links && links[c] == p
    decreases |Subtree(links, p)|, 0, |cs|
  {
    if cs == [] then []
    else
      assert cs[0] in cs;
      SubtreeShrinks(links, cs[0]);
      Tree(links, kids, cs[0]) + Branches(links, kids, p, cs[1..])
  }

  /** The preorders of a list of roots, one after the other. */
  ghost function Grove<K(!new)>(links: map<K, K>, kids: map<K, seq<K>>, roots: seq<K>): seq<K>
    requires IsForest(links) && ChildLists(links, kids)
  {
    if roots == [] then [] else Tree(links, kids, roots[0]) + Grove(links, kids, roots[1..])
  }

  ghost predicate BelowOne<K>(links: map<K, K>, x: K, roots: seq<K>)
    requires IsForest(links)
  {
    exists i :: 0 <= i < |roots| && Below(links, x, roots[i])
  }

  /** No two of the listed nodes share a descendant. */
  ghost predicate Apart<K(!new)>(links: map<K, K>, roots: seq<K>)
    requires IsForest(links)
  {
    forall i, j, x :: 0 <= i < j < |roots| && Below(links, x, roots[i]) ==> !Below(links, x, roots[j])
  }

  /** Every node comes after its parent, unless its parent is outside the listing's `from`. */
  ghost predicate ParentEarlier<K>(links: map<K, K>, xs: seq<K>, heads: seq<K>) {
    forall i :: 0 <= i < |xs| ==> xs[i] in heads || (xs[i] in links && links[xs[i]] in xs[..i])
  }

  lemma ConcatParentEarlier<K>(links: map<K, K>, xs: seq<K>, ys: seq<K>, hs: seq<K>, gs: seq<K>)
    requires ParentEarlier(links, xs, hs) && ParentEarlier(links, ys, gs)
    ensures ParentEarlier(links, xs + ys, hs + gs)
  {
    var zs := xs + ys;
    forall i | 0 <= i < |zs| ensures zs[i] in hs + gs || (zs[i] in links && links[zs[i]] in zs[..i]) {
      if i < |xs| {
        assert zs[..i] == xs[..i];
      } else {
        assert zs[..i] == xs + ys[..i - |xs|];
      }
    }
  }

  lemma ConcatLists<K(!new)>(xs: seq<K>, ys: seq<K>, s: set<K>, r: set<K>)
    requires Lists(xs, s) && Lists(ys, r) && s !! r
    ensures Lists(xs + ys, s + r)
  {
    forall i, j | 0 <= i < j < |xs + ys| ensures (xs + ys)[i] != (xs + ys)[j] {
      if i < |xs| <= j {
        assert xs[i] in s && ys[j - |xs|] in r;
      }
    }
  }

  ghost function Union<K>(links: map<K, K>, roots: seq<K>): set<K>
    requires IsForest(links)
  {
    set x | x in links.Keys + Elements(roots) && BelowOne(links, x, roots)
  }

  lemma SiblingsApart<K(!new)>(links: map<K, K>, p: K, cs: seq<K>)
    requires IsForest(links) && Distinct(cs)
    requires forall c :: c in cs ==> c in links && links[c] == p
    ensures Apart(links, cs)
  {
    forall i, j, x | 0 <= i < j < |cs| && Below(links, x, cs[i]) ensures !Below(links, x, cs[j]) {
      if Below(links, x, cs[j]) {
        AncestorsChain(links, x, cs[i], cs[j]);
        SiblingsUnrelated(links, cs[i], cs[j]);
      }
    }
  }

  lemma SiblingsUnrelated<K>(links: map<K, K>, a: K, b: K)
    requires IsForest(links) && a in links && b in links && links[a] == links[b] && a != b
    ensures !Below(links, a, b) && !Below(links, b, a)
  {
    if Below(links, a, b) { BelowDepth(links, links[a], b); }
    if Below(links, b, a) { BelowDepth(links, links[b], a); }
  }

  lemma RootsApart<K(!new)>(links: map<K, K>, roots: seq<K>)
    requires IsForest(links) && Distinct(roots)
    requires forall r :: r in roots ==> r !in links
    ensures Apart(links, roots)
  {
    forall i, j, x | 0 <= i < j < |roots| && Below(links, x, roots[i]) ensures !Below(links, x, roots[j]) {
      assert roots[i] in roots && roots[j] in roots;
      TopUnique(links, x, roots[i]);
      if Below(links, x, roots[j]) {
        TopUnique(links, x, roots[j]);
      }
    }
  }

  lemma UnionStep<K(!new)>(links: map<K, K>, roots: seq<K>)
    requires IsForest(links) && roots != [] && Apart(links, roots)
    ensures Union(links, roots) == Subtree(links, roots[0]) + Union(links, roots[1..])
    ensures Subtree(links, roots[0]) !! Union(links, roots[1..])
    ensures Apart(links, roots[1..])
  {
    var rest := roots[1..];
    forall x ensures BelowOne(links, x, roots) <==> Below(links, x, roots[0]) || BelowOne(links, x, rest) {
      if BelowOne(links, x, rest) {
        var i :| 0 <= i < |rest| && Below(links, x, rest[i]);
        assert rest[i] == roots[i + 1];
      }
      if i :| 0 <= i < |roots| && Below(links, x, roots[i]) {
        if i > 0 { assert rest[i - 1] == roots[i]; }
      }
    }
    forall x | x in Union(links, rest) ensures x !in Subtree(links, roots[0]) {
      var i :| 0 <= i < |rest| && Below(links, x, rest[i]);
      assert rest[i] == roots[i + 1];
    }
    forall x | BelowOne(links, x, roots) ensures x in links.Keys + Elements(roots) {
      var i :| 0 <= i < |roots| && Below(links, x, roots[i]);
    }
    forall x | BelowOne(links, x, rest) ensures x in links.Keys + Elements(rest) {
      var i :| 0 <= i < |rest| && Below(links, x, rest[i]);
    }
  }

  /** A preorder lists exactly the subtree, each node once, after its parent. */
  lemma {:induction false} TreeLists<K(!new)>(links: map<K, K>, kids: map<K, seq<K>>, k: K)
    requires IsForest(links) && ChildLists(links, kids)
    ensures Lists(Tree(links, kids, k), Subtree(links, k))
    ensures ParentEarlier(links, Tree(links, kids, k), [k])
    ensures Tree(links, kids, k)[0] == k
    decreases |Subtree(links, k)|, 1, 0
  {
    var cs := Kids(kids, k);
    assert Distinct(cs);
    BranchesLists(links, kids, k, cs);
    SubtreeSplit(links, k, cs);
    assert Lists([k], {k});
    ConcatLists([k], Branches(links, kids, k, cs), {k}, Union(links, cs));
    var xs := Tree(links, kids, k);
    forall i | 0 <= i < |xs| ensures xs[i] in [k] || (xs[i] in links && links[xs[i]] in xs[..i]) {
      if i > 0 {
        var bs := Branches(links, kids, k, cs);
        assert xs[..i] == [k] + bs[..i - 1];
        if bs[i - 1] in cs {
          assert links[bs[i - 1]] == k;
        }
      }
    }
  }

  lemma {:induction false} BranchesLists<K(!new)>(links: map<K, K>, kids: map<K, seq<K>>, p: K, cs: seq<K>)
    requires IsForest(links) && ChildLists(links, kids)
    requires Distinct(cs) && forall c :: c in cs ==> c in links && links[c] == p
    ensures Lists(Branches(links, kids, p, cs), Union(links, cs))
    ensures ParentEarlier(links, Branches(links, kids, p, cs), cs)
    decreases |Subtree(links, p)|, 0, |cs|
  {
    if cs != [] {
      assert cs[0] in cs;
      SubtreeShrinks(links, cs[0]);
      TreeLists(links, kids, cs[0]);
      BranchesLists(links, kids, p, cs[1..]);
      SiblingsApart(links, p, cs);
      UnionStep(links, cs);
      ConcatLists(Tree(links, kids, cs[0]), Branches(links, kids, p, cs[1..]),
                  Subtree(links, cs[0]), Union(links, cs[1..]));
      ConcatParentEarlier(links, Tree(links, kids, cs[0]), Branches(links, kids, p, cs[1..]), [cs[0]], cs[1..]);
      assert [cs[0]] + cs[1..] == cs;
    }
  }

  lemma SubtreeSplit<K(!new)>(links: map<K, K>, k: K, cs: seq<K>)
    requires IsForest(links)
    requires forall c :: c in cs <==> c in links && links[c] == k
    ensures Subtree(links, k) == {k} + Union(links, cs)
    ensures k !in Union(links, cs)
  {
    forall x | x in links.Keys + {k} ensures Below(links, x, k) <==> x == k || BelowOne(links, x, cs) {
      if Below(links, x, k) && x != k {
        var c := BelowChild(links, x, k);
        var i :| 0 <= i < |cs| && cs[i] == c;
      }
      if i :| 0 <= i < |cs| && Below(links, x, cs[i]) {
        assert cs[i] in cs;
        BelowTransitive(links, x, cs[i], k);
      }
    }
    if BelowOne(links, k, cs) {
      var i :| 0 <= i < |cs| && Below(links, k, cs[i]);
      assert cs[i] in cs;
      BelowDepth(links, k, cs[i]);
    }
  }

  /** A grove over unlinked roots lists exactly what hangs below them, each node once, after its parent. */
  lemma {:induction false} GroveLists<K(!new)>(links: map<K, K>, kids: map<K, seq<K>>, roots: seq<K>)
    requires IsForest(links) && ChildLists(links, kids)
    requires Distinct(roots) && forall r :: r in roots ==> r !in links
    ensures Lists(Grove(links, kids, roots), Union(links, roots))
    ensures ParentEarlier(links, Grove(links, kids, roots), roots)
  {
    if roots != [] {
      TreeLists(links, kids, roots[0]);
      GroveLists(links, kids, roots[1..]);
      RootsApart(links, roots);
      UnionStep(links, roots);
      ConcatLists(Tree(links, kids, roots[0]), Grove(links, kids, roots[1..]),
                  Subtree(links, roots[0]), Union(links, roots[1..]));
      ConcatParentEarlier(links, Tree(links, kids, roots[0]), Grove(links, kids, roots[1..]), [roots[0]], roots[1..]);
      assert [roots[0]] + roots[1..] == roots;
    }
  }

  /** When the roots are exactly the unlinked nodes of a closed set, the grove covers the set. */
  lemma GroveCovers<K(!new)>(links: map<K, K>, roots: seq<K>, nodes: set<K>)
    requires IsForest(links)
    requires forall k :: k in links ==> k in nodes && links[k] in nodes
    requires forall r :: r in roots <==> r in nodes && r !in links
    ensures Union(links, roots) == nodes
  {
    forall k | k in nodes ensures BelowOne(links, k, roots) {
      BelowTop(links, k);
      TopInside(links, nodes, k);
      var i :| 0 <= i < |roots| && roots[i] == Top(links, k);
    }
    forall x | x in Union(links, roots) ensures x in nodes {
      if x !in links {
        var i :| 0 <= i < |roots| && Below(links, x, roots[i]);
        assert roots[i] in roots;
      }
    }
  }

  lemma {:induction false} TopInside<K>(links: map<K, K>, nodes: set<K>, k: K)
    requires IsForest(links) && k in nodes
    requires forall x :: x in links ==> links[x] in nodes
    ensures Top(links, k) in nodes
    decreases Depth(links, k)
  {
    if k in links {
      TopInside(links, nodes, links[k]);
    }
  }

  // ----- the shape of a listing -----

  ghost predicate Precedes<K>(cs: seq<K>, x: K, y: K) {
    exists a, b :: 0 <= a < b < |cs| && cs[a] == x && cs[b] == y
  }

  /** What lies between a node and one of its descendants is below the node too. */
  ghost predicate DepthFirst<K>(links: map<K, K>, xs: seq<K>)
    requires IsForest(links)
  {
    forall i, j, n :: 0 <= i < j < n < |xs| && Below(links, xs[n], xs[i]) ==> Below(links, xs[j], xs[i])
  }

  ghost predicate Siblings<K>(links: map<K, K>, x: K, y: K) {
    x in links && y in links && links[x] == links[y]
  }

  /** Siblings come in the order their parent lists them. */
  ghost predicate SiblingsInOrder<K>(links: map<K, K>, kids: map<K, seq<K>>, xs: seq<K>) {
    forall i, j :: 0 <= i < j < |xs| && Siblings(links, xs[i], xs[j]) ==>
      Precedes(Kids(kids, links[xs[i]]), xs[i], xs[j])
  }

  /** Two listings that no descent crosses, whose siblings across the seam are in order. */
  lemma ConcatShape<K>(links: map<K, K>, kids: map<K, seq<K>>, xs: seq<K>, ys: seq<K>)
    requires IsForest(links) && DepthFirst(links, xs) && DepthFirst(links, ys)
    requires SiblingsInOrder(links, kids, xs) && SiblingsInOrder(links, kids, ys)
    requires forall a, b :: 0 <= a < |xs| && 0 <= b < |ys| ==> !Below(links, ys[b], xs[a])
    requires forall a, b :: 0 <= a < |xs| && 0 <= b < |ys| && Siblings(links, xs[a], ys[b]) ==>
               Precedes(Kids(kids, links[xs[a]]), xs[a], ys[b])
    ensures DepthFirst(links, xs + ys) && SiblingsInOrder(links, kids, xs + ys)
  {
    var zs := xs + ys;
    forall i, j, n | 0 <= i < j < n < |zs| && Below(links, zs[n], zs[i]) ensures Below(links, zs[j], zs[i]) {
      if i < |xs| <= n {
        assert false;
      }
    }
    forall i, j | 0 <= i < j < |zs| && Siblings(links, zs[i], zs[j])
      ensures Precedes(Kids(kids, links[zs[i]]), zs[i], zs[j])
    {
      if i < |xs| <= j {
        assert zs[i] == xs[i] && zs[j] == ys[j - |xs|];
      }
    }
  }

  /** Nodes below two unrelated nodes are unrelated, and siblings only as those two themselves. */
  lemma SubtreesUnrelated<K>(links: map<K, K>, a: K, b: K, x: K, y: K)
    requires IsForest(links) && Below(links, x, a) && Below(links, y, b)
    requires forall z :: Below(links, z, a) ==> !Below(links, z, b)
    ensures !Below(links, y, x)
    ensures Siblings(links, x, y) ==> x == a && y == b
  {
    if Below(links, y, x) {
      BelowTransitive(links, y, x, a);
      assert false;
    }
    if Siblings(links, x, y) && (x != a || y != b) {
      assert false;
    }
  }

  lemma {:induction false} TreeShape<K(!new)>(links: map<K, K>, kids: map<K, seq<K>>, k: K)
    requires IsForest(links) && ChildLists(links, kids)
    ensures DepthFirst(links, Tree(links, kids, k)) && SiblingsInOrder(links, kids, Tree(links, kids, k))
    decreases |Subtree(links, k)|, 1, 0
  {
    var cs := Kids(kids, k);
    forall a, b | 0 <= a < b < |cs| ensures Precedes(cs, cs[a], cs[b]) {
    }
    BranchesShape(links, kids, k, cs);
    HeadShape(links, kids, k, Branches(links, kids, k, cs));
  }

  /** A node in front of a listing of its descendants. */
  lemma HeadShape<K(!new)>(links: map<K, K>, kids: map<K, seq<K>>, k: K, bs: seq<K>)
    requires IsForest(links) && DepthFirst(links, bs) && SiblingsInOrder(links, kids, bs)
    requires forall x :: x in bs ==> Below(links, x, k) && x != k
    ensures DepthFirst(links, [k] + bs) && SiblingsInOrder(links, kids, [k] + bs)
  {
    var xs := [k] + bs;
    forall j | 0 < j < |xs| ensures !Siblings(links, k, xs[j]) && Below(links, xs[j], k) {
      assert xs[j] in bs;
      if Siblings(links, k, xs[j]) {
        assert Below(links, links[k], k);
        BelowDepth(links, links[k], k);
      }
    }
  }

  lemma {:induction false} BranchesShape<K(!new)>(links: map<K, K>, kids: map<K, seq<K>>, p: K, cs: seq<K>)
    requires IsForest(links) && ChildLists(links, kids) && Distinct(cs)
    requires forall c :: c in cs ==> c in links && links[c] == p
    requires forall a, b :: 0 <= a < b < |cs| ==> Precedes(Kids(kids, p), cs[a], cs[b])
    ensures DepthFirst(links, Branches(links, kids, p, cs))
    ensures SiblingsInOrder(links, kids, Branches(links, kids, p, cs))
    ensures forall x :: x in Branches(links, kids, p, cs) ==> Below(links, x, p) && x != p
    decreases |Subtree(links, p)|, 0, |cs|
  {
    if cs != [] {
      assert cs[0] in cs;
      var rest := cs[1..];
      SubtreeShrinks(links, cs[0]);
      TreeShape(links, kids, cs[0]);
      BranchesShape(links, kids, p, rest);
      TreeLists(links, kids, cs[0]);
      BranchesLists(links, kids, p, rest);
      SiblingsApart(links, p, cs);
      var xs, ys := Tree(links, kids, cs[0]), Branches(links, kids, p, rest);
      forall x, y | x in xs && y in ys
        ensures !Below(links, y, x) && (Siblings(links, x, y) ==> Precedes(Kids(kids, links[x]), x, y))
      {
        var m :| 0 <= m < |rest| && Below(links, y, rest[m]);
        assert rest[m] == cs[m + 1];
        SubtreesUnrelated(links, cs[0], cs[m + 1], x, y);
      }
      ConcatShape(links, kids, xs, ys);
      forall x | x in xs ensures Below(links, x, p) && x != p {
        BelowTransitive(links, x, cs[0], p);
        BelowDepth(links, x, cs[0]);
      }
    }
  }

  /** A grove is listed depth first, siblings in their parent's order. */
  lemma {:induction false} GroveShape<K(!new)>(links: map<K, K>, kids: map<K, seq<K>>, roots: seq<K>)
    requires IsForest(links) && ChildLists(links, kids)
    requires Distinct(roots) && forall r :: r in roots ==> r !in links
    ensures DepthFirst(links, Grove(links, kids, roots)) && SiblingsInOrder(links, kids, Grove(links, kids, roots))
  {
    if roots != [] {
      assert roots[0] in roots;
      var rest := roots[1..];
      TreeShape(links, kids, roots[0]);
      GroveShape(links, kids, rest);
      TreeLists(links, kids, roots[0]);
      GroveLists(links, kids, rest);
      RootsApart(links, roots);
      var xs, ys := Tree(links, kids, roots[0]), Grove(links, kids, rest);
      forall x, y | x in xs && y in ys ensures !Below(links, y, x) && !Siblings(links, x, y) {
        var m :| 0 <= m < |rest| && Below(links, y, rest[m]);
        assert rest[m] == roots[m + 1];
        SubtreesUnrelated(links, roots[0], roots[m + 1], x, y);
      }
      ConcatShape(links, kids, xs, ys);
    }
  }

  ghost predicate HeadsInOrder<K>(links: map<K, K>, roots: seq<K>, xs: seq<K>) {
    forall i, j :: 0 <= i < j < |xs| && xs[i] !in links && xs[j] !in links ==> Precedes(roots, xs[i], xs[j])
  }

  /** The roots themselves appear in the order they were given. */
  lemma {:induction false} GroveHeads<K(!new)>(links: map<K, K>, kids: map<K, seq<K>>, roots: seq<K>)
    requires IsForest(links) && ChildLists(links, kids)
    requires Distinct(roots) && forall r :: r in roots ==> r !in links
    ensures HeadsInOrder(links, roots, Grove(links, kids, roots))
  {
    if roots != [] {
      var rest := roots[1..];
      TreeLists(links, kids, roots[0]);
      GroveLists(links, kids, rest);
      GroveHeads(links, kids, rest);
      HeadFirst(links, roots, Tree(links, kids, roots[0]), Grove(links, kids, rest));
    }
  }

  lemma HeadFirst<K(!new)>(links: map<K, K>, roots: seq<K>, xs: seq<K>, ys: seq<K>)
    requires IsForest(links) && roots != []
    requires Lists(xs, Subtree(links, roots[0])) && Lists(ys, Union(links, roots[1..]))
    requires HeadsInOrder(links, roots[1..], ys)
    ensures HeadsInOrder(links, roots, xs + ys)
  {
    var zs, rest := xs + ys, roots[1..];
    forall i | 0 <= i < |xs| && xs[i] !in links ensures xs[i] == roots[0] {
      assert xs[i] in Subtree(links, roots[0]);
    }
    forall i, j | 0 <= i < j < |zs| && zs[i] !in links && zs[j] !in links ensures Precedes(roots, zs[i], zs[j]) {
      if i >= |xs| {
        var a, b :| 0 <= a < b < |rest| && rest[a] == zs[i] && rest[b] == zs[j];
        assert rest[a] == roots[a + 1] && rest[b] == roots[b + 1];
      } else if j >= |xs| {
        assert ys[j - |xs|] in ys;
        var m :| 0 <= m < |rest| && Below(links, ys[j - |xs|], rest[m]);
        assert rest[m] == roots[m + 1];
      }
    }
  }

  lemma {:induction false} GroveJoin<K(!new)>(links: map<K, K>, kids: map<K, seq<K>>, a: seq<K>, b: seq<K>)
    requires IsForest(links) && ChildLists(links, kids)
    ensures Grove(links, kids, a + b) == Grove(links, kids, a) + Grove(links, kids, b)
  {
    if a == [] {
      assert a + b == b;
    } else {
      assert (a + b)[1..] == a[1..] + b;
      GroveJoin(links, kids, a[1..], b);
    }
  }

  /** One more child at the end of the list. */
  lemma {:induction false} BranchesSnoc<K(!new)>(links: map<K, K>, kids: map<K, seq<K>>, p: K, cs: seq<K>, c: K)
    requires IsForest(links) && ChildLists(links, kids)
    requires forall x :: x in cs + [c] ==> x in links && links[x] == p
    ensures Branches(links, kids, p, cs + [c]) == Branches(links, kids, p, cs) + Tree(links, kids, c)
    decreases |cs|
  {
    if cs == [] {
      assert cs + [c] == [c];
      assert Branches(links, kids, p, [c]) == Tree(links, kids, c) + Branches(links, kids, p, []);
    } else {
      assert (cs + [c])[1..] == cs[1..] + [c];
      forall x | x in cs[1..] + [c] ensures x in cs + [c] {
      }
      BranchesSnoc(links, kids, p, cs[1..], c);
    }
  }

  lemma GroveSnoc<K(!new)>(links: map<K, K>, kids: map<K, seq<K>>, roots: seq<K>, r: K)
    requires IsForest(links) && ChildLists(links, kids)
    ensures Grove(links, kids, roots + [r]) == Grove(links, kids, roots) + Tree(links, kids, r)
  {
    GroveJoin(links, kids, roots, [r]);
    assert Grove(links, kids, [r]) == Tree(links, kids, r) + Grove(links, kids, []);
  }

  /** What a depth-first append has added below `parent` after its first `n` children. */
  ghost predicate Listed<K(!new)>(links: map<K, K>, kids: map<K, seq<K>>, parent: K, n: nat, ids0: seq<K>, ids: seq<K>)
    requires IsForest(links) && ChildLists(links, kids)
  {
    && n <= |Kids(kids, parent)|
    && (forall c :: c in Kids(kids, parent)[..n] ==> c in links && links[c] == parent)
    && ids == ids0 + Branches(links, kids, parent, Kids(kids, parent)[..n])
  }

  lemma PushChild<K(!new)>(links: map<K, K>, kids: map<K, seq<K>>, parent: K, n: nat, ids0: seq<K>, ids: seq<K>)
    requires IsForest(links) && ChildLists(links, kids) && n < |Kids(kids, parent)|
    requires Listed(links, kids, parent, n, ids0, ids)
    ensures var c := Kids(kids, parent)[n];
            c in links && |Subtree(links, c)| < |Subtree(links, parent)|
            && Listed(links, kids, parent, n + 1, ids0, ids + Tree(links, kids, c))
  {
    var children := Kids(kids, parent);
    KidsOf(links, kids, parent);
    assert children[n] in children;
    SubtreeShrinks(links, children[n]);
    TakeStep(children, n);
    BranchesSnoc(links, kids, parent, children[..n], children[n]);
  }

  lemma AllPushed<K(!new)>(links: map<K, K>, kids: map<K, seq<K>>, parent: K, ids0: seq<K>, ids: seq<K>)
    requires IsForest(links) && ChildLists(links, kids)
    requires Listed(links, kids, parent, |Kids(kids, parent)|, ids0 + [parent], ids)
    ensures ids == ids0 + Tree(links, kids, parent)
  {
    TakeAll(Kids(kids, parent));
  }
}
