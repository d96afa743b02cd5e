/** Stack walks over the children of a forest. */
module Walks {
  import opened Common
  import opened Forest
  import opened Cycles

  /** The children of `p`, as a list keyed by parent; a missing key means none. */
  function Kids<K>(childrenOf: map<K, seq<K>>, p: K): seq<K> {
    if p in childrenOf then childrenOf[p] else []
  }

  /** `childrenOf` lists each node's children exactly once. */
  ghost predicate ChildLists<K(!new)>(links: map<K, K>, childrenOf: map<K, seq<K>>) {
    && (forall p {:trigger Kids(childrenOf, p)} :: Distinct(Kids(childrenOf, p)))
    && (forall p, c :: c in Kids(childrenOf, p) <==> c in links && links[c] == p)
  }

  lemma KidsOf<K(!new)>(links: map<K, K>, childrenOf: map<K, seq<K>>, p: K)
    requires ChildLists(links, childrenOf)
    ensures Distinct(Kids(childrenOf, p))
    ensures forall c :: c in Kids(childrenOf, p) <==> c in links && links[c] == p
  {
  }

  /** Append a child to its parent's list. */
  function AddKid<K>(childrenOf: map<K, seq<K>>, p: K, c: K): map<K, seq<K>> {
    childrenOf[p := Kids(childrenOf, p) + [c]]
  }

  lemma AddKidLists<K(!new)>(links: map<K, K>, childrenOf: map<K, seq<K>>, p: K, c: K)
    requires ChildLists(links, childrenOf) && c !in links
    ensures ChildLists(links[c := p], AddKid(childrenOf, p, c))
  {
    var next := AddKid(childrenOf, p, c);
    forall q ensures Distinct(Kids(next, q)) {
      assert Distinct(Kids(childrenOf, q));
      assert c !in Kids(childrenOf, q);
    }
    forall q, x ensures x in Kids(next, q) <==> x in links[c := p] && links[c := p][x] == q {
      assert x in Kids(childrenOf, q) <==> x in links && links[x] == q;
    }
  }

  method ListChildren<K(==, !new)>(links: map<K, K>) returns (childrenOf: map<K, seq<K>>)
    ensures ChildLists(links, childrenOf)
  {
    childrenOf := map[];
    var todo := links.Keys;
    while todo != {}
      invariant todo <= links.Keys
      invariant ChildLists(links - todo, childrenOf)
      decreases |todo|
    {
      var c :| c in todo;
      AddKidLists(links - todo, childrenOf, links[c], c);
      assert (links - todo)[c := links[c]] == links - (todo - {c});
      childrenOf := AddKid(childrenOf, links[c], c);
      todo := todo - {c};
    }
    assert links - {} == links;
  }

  /** A walk below `seed`: `order` is visited parents-first, `stack` is due. */
  ghost predicate Exploring<K(!new)>(links: map<K, K>, seed: K, order: seq<K>, stack: seq<K>)
    requires IsForest(links)
  {
    && Distinct(order) && Distinct(stack)
    && (forall x :: x in order ==> x !in stack && Below(links, x, seed))
    && (forall x :: x in stack ==> Below(links, x, seed) && (x != seed ==> x in links && links[x] in order))
    && (order == [] ==> stack == [seed])
    && (order != [] ==> order[0] == seed)
    && (forall c :: c in links && links[c] in order ==> c in order || c in stack)
    && ParentsFirst(links, order)
  }

  /** Every node but the first comes after its parent. */
  ghost predicate ParentsFirst<K>(links: map<K, K>, order: seq<K>) {
    forall i :: 0 < i < |order| ==> order[i] in links && links[order[i]] in order[..i]
  }

  /** The children about to be pushed are new to the walk. */
  lemma FreshKids<K(!new)>(links: map<K, K>, seed: K, order: seq<K>, stack: seq<K>, c: K)
    requires IsForest(links) && Exploring(links, seed, order, stack) && stack != []
    requires c in links && links[c] == stack[|stack| - 1]
    ensures c !in order && c !in stack && Below(links, c, seed)
  {
    var k := stack[|stack| - 1];
    assert k in stack && Below(links, k, seed);
    if c == seed {
      BelowDepth(links, k, seed);
      BelowDepth(links, c, k);
    }
  }

  /** The top of the stack leaves it for the order, and its children take its place. */
  ghost predicate Pops<K(!new)>(order: seq<K>, stack: seq<K>, k: K, kids: seq<K>, order': seq<K>, stack': seq<K>) {
    && stack != [] && k == stack[|stack| - 1]
    && order' == order + [k]
    && stack' == stack[..|stack| - 1] + kids
  }

  lemma PopDistinct<K(!new)>(order: seq<K>, stack: seq<K>, k: K, kids: seq<K>, order': seq<K>, stack': seq<K>)
    requires Pops(order, stack, k, kids, order', stack')
    requires Distinct(order) && Distinct(stack) && Distinct(kids)
    requires forall x :: x in order ==> x !in stack
    requires forall c :: c in kids ==> c !in order && c !in stack
    ensures Distinct(order') && Distinct(stack')
    ensures forall x :: x in order' ==> x !in stack'
    ensures forall x :: x in order' <==> x in order || x == k
    ensures forall x :: x in stack' <==> (x in stack && x != k) || x in kids
  {
    var rest := stack[..|stack| - 1];
    assert stack == rest + [k];
    assert k in stack;
    forall x ensures x in rest <==> x in stack && x != k {
      if x in stack && x != k {
        var i :| 0 <= i < |stack| && stack[i] == x;
        assert rest[i] == x;
      }
    }
    forall i, j | 0 <= i < j < |stack'| ensures stack'[i] != stack'[j] {
      if i < |rest| <= j {
        assert stack'[i] in rest && stack'[j] in kids;
      }
    }
  }

  /** Visit the top of the stack and push its children. */
  lemma ExploreStep<K(!new)>(links: map<K, K>, seed: K, order: seq<K>, stack: seq<K>, kids: seq<K>)
    requires IsForest(links)
    requires Exploring(links, seed, order, stack) && stack != []
    requires Distinct(kids)
    requires forall c :: c in kids <==> c in links && links[c] == stack[|stack| - 1]
    ensures Exploring(links, seed, order + [stack[|stack| - 1]], stack[..|stack| - 1] + kids)
    ensures forall c :: c in kids ==> c !in order && c !in stack
  {
    var k := stack[|stack| - 1];
    forall c | c in kids ensures c !in order && c !in stack && Below(links, c, seed) {
      FreshKids(links, seed, order, stack, c);
    }
    assert k in stack;
    VisitedParentsFirst(links, order, k);
    ExplorePop(links, seed, order, stack, k, kids, order + [k], stack[..|stack| - 1] + kids);
  }

  lemma ExplorePop<K(!new)>(links: map<K, K>, seed: K, order: seq<K>, stack: seq<K>, k: K, kids: seq<K>,
                            order': seq<K>, stack': seq<K>)
    requires IsForest(links) && Exploring(links, seed, order, stack) && Pops(order, stack, k, kids, order', stack')
    requires Distinct(kids) && ParentsFirst(links, order') && k in stack
    requires forall c :: c in kids <==> c in links && links[c] == k
    requires forall c :: c in kids ==> c !in order && c !in stack && Below(links, c, seed)
    ensures Exploring(links, seed, order', stack')
  {
    PopDistinct(order, stack, k, kids, order', stack');
    assert order != [] ==> order'[0] == order[0];
    ExploreMembers(links, seed, Elements(order), Elements(stack), k, Elements(kids));
    forall x | x in order' ensures Below(links, x, seed) {
    }
    forall x | x in stack' ensures Below(links, x, seed) && (x != seed ==> x in links && links[x] in order') {
    }
    forall c | c in links && links[c] in order' ensures c in order' || c in stack' {
    }
  }

  /** The same step on sets: what is due hangs below visited nodes, and no child of a visited node is missing. */
  lemma ExploreMembers<K(!new)>(links: map<K, K>, seed: K, done: set<K>, due: set<K>, k: K, kids: set<K>)
    requires IsForest(links) && k in due
    requires forall x :: x in due ==> Below(links, x, seed) && (x != seed ==> x in links && links[x] in done)
    requires forall c :: c in links && links[c] in done ==> c in done || c in due
    requires forall c :: c in kids <==> c in links && links[c] == k
    requires forall c :: c in kids ==> Below(links, c, seed)
    ensures forall x :: x in (due - {k}) + kids ==>
              Below(links, x, seed) && (x != seed ==> x in links && links[x] in done + {k})
    ensures forall c :: c in links && links[c] in done + {k} ==> c in done + {k} || c in (due - {k}) + kids
  {
  }

  lemma VisitedParentsFirst<K>(links: map<K, K>, order: seq<K>, k: K)
    requires ParentsFirst(links, order)
    requires order != [] ==> k in links && links[k] in order
    ensures ParentsFirst(links, order + [k])
  {
    var after := order + [k];
    forall i | 0 < i < |after| ensures after[i] in links && links[after[i]] in after[..i] {
      if i < |order| {
        assert after[..i] == order[..i];
      } else {
        assert after[..i] == order;
      }
    }
  }

  lemma {:induction false} AllVisited<K(!new)>(links: map<K, K>, seed: K, order: seq<K>, b: K)
    requires IsForest(links) && Exploring(links, seed, order, [])
    requires Below(links, b, seed)
    ensures b in order
    decreases Depth(links, b)
  {
    if b != seed {
      AllVisited(links, seed, order, links[b]);
    }
  }

  /** A finished walk has visited exactly the subtree. */
  lemma ExploredSubtree<K(!new)>(links: map<K, K>, seed: K, order: seq<K>)
    requires IsForest(links) && Exploring(links, seed, order, [])
    ensures Lists(order, Subtree(links, seed))
  {
    forall b ensures b in order <==> b in Subtree(links, seed) {
      if b in Subtree(links, seed) {
        AllVisited(links, seed, order, b);
      }
    }
  }

  lemma DistinctSubset<K(!new)>(s: seq<K>, keys: set<K>)
    requires Distinct(s) && forall x :: x in s ==> x in keys
    ensures |s| <= |keys|
    ensures (exists x :: x in keys && x !in s) ==> |s| < |keys|
  {
    ListingSize(s, Elements(s));
    assert Elements(s) <= keys;
    assert keys == Elements(s) + (keys - Elements(s));
    if x :| x in keys && x !in s {
      assert x in keys - Elements(s);
    }
  }

  lemma PopMembers<K(!new)>(stack: seq<K>, k: K, kids: seq<K>)
    requires stack != [] && k == stack[|stack| - 1]
    ensures forall x :: x in stack || x in kids <==> x == k || x in stack[..|stack| - 1] + kids
  {
    assert stack == stack[..|stack| - 1] + [k];
  }

  /** Push the children not seen before, marking each. */
  method PushNew<K(==, !new)>(rest: seq<K>, seen: set<K>, kids: seq<K>) returns (stack: seq<K>, visited: set<K>)
    requires Distinct(kids) && forall c :: c in kids ==> c !in seen
    ensures stack == rest + kids
    ensures forall x :: x in visited <==> x in seen || x in kids
  {
    stack, visited := rest, seen;
    for i := 0 to |kids|
      invariant stack == rest + kids[..i]
      invariant forall x :: x in visited <==> x in seen || x in kids[..i]
    {
      assert kids[i] !in kids[..i];
      if kids[i] !in visited {
        visited := visited + {kids[i]};
        stack := stack + [kids[i]];
      }
    }
    assert kids[..|kids|] == kids;
  }

  /** Everything below `seed`, parents first, marking identities as they are pushed. */
  method CollectSubtree<K(==, !new)>(links: map<K, K>, seed: K) returns (identities: seq<K>)
    requires IsForest(links)
    ensures Lists(identities, Subtree(links, seed))
  {
    var childrenOf := ListChildren(links);
    identities := [];
    var visited := {seed};
    var stack := [seed];
    while stack != []
      invariant Exploring(links, seed, identities, stack)
      invariant forall x :: x in visited <==> x in identities || x in stack
      decreases |Subtree(links, seed)| - |identities|
    {
      var key := stack[|stack| - 1];
      ExploreStep(links, seed, identities, stack, Kids(childrenOf, key));
      VisitRoom(links, seed, identities, stack);
      PopMembers(stack, key, Kids(childrenOf, key));
      identities := identities + [key];
      stack, visited := PushNew(stack[..|stack| - 1], visited, Kids(childrenOf, key));
    }
    ExploredSubtree(links, seed, identities);
  }

  /** A walk with work left has visited fewer nodes than the subtree holds. */
  lemma VisitRoom<K(!new)>(links: map<K, K>, seed: K, order: seq<K>, stack: seq<K>)
    requires IsForest(links) && Exploring(links, seed, order, stack) && stack != []
    ensures |order| < |Subtree(links, seed)|
  {
    assert stack[0] in stack;
    DistinctSubset(order, Subtree(links, seed));
  }

  // ----- undirected closure -----

  /** An edge of the graph whose links are read both ways. */
  ghost predicate Edge<K>(links: map<K, K>, a: K, b: K) {
    (a in links && links[a] == b) || (b in links && links[b] == a)
  }

  function AddEdge<K>(neighbors: map<K, seq<K>>, a: K, b: K): map<K, seq<K>> {
    AddKid(AddKid(neighbors, a, b), b, a)
  }

  method AddLinks<K(==, !new)>(before: map<K, seq<K>>, links: map<K, K>) returns (neighbors: map<K, seq<K>>)
    ensures forall a, b :: b in Kids(neighbors, a) <==> b in Kids(before, a) || Edge(links, a, b)
  {
    neighbors := before;
    var todo := links.Keys;
    while todo != {}
      invariant todo <= links.Keys
      invariant forall a, b :: b in Kids(neighbors, a) <==> b in Kids(before, a) || Edge(links - todo, a, b)
      decreases |todo|
    {
      var k :| k in todo;
      EdgeStep(links, todo, k);
      ghost var previous := neighbors;
      neighbors := AddEdge(neighbors, k, links[k]);
      todo := todo - {k};
      forall a, b ensures b in Kids(neighbors, a) <==> b in Kids(before, a) || Edge(links - todo, a, b) {
        assert b in Kids(neighbors, a)
          <==> b in Kids(previous, a) || (a == k && b == links[k]) || (b == k && a == links[k]);
      }
    }
    assert links - {} == links;
  }

  lemma EdgeStep<K(!new)>(links: map<K, K>, todo: set<K>, k: K)
    requires k in todo && todo <= links.Keys
    ensures forall a, b :: Edge(links - (todo - {k}), a, b) <==>
              Edge(links - todo, a, b) || (a == k && b == links[k]) || (b == k && a == links[k])
  {
  }

  /** Push the members of `kids` not seen before, marking each. */
  method PushUnseen<K(==, !new)>(rest: seq<K>, seen: set<K>, kids: seq<K>) returns (stack: seq<K>, visited: set<K>)
    ensures visited == seen + Elements(kids)
    ensures forall x :: x in stack <==> x in rest || (x in kids && x !in seen)
    ensures visited == seen ==> stack == rest
  {
    stack, visited := rest, seen;
    for i := 0 to |kids|
      invariant visited == seen + Elements(kids[..i])
      invariant forall x :: x in stack <==> x in rest || (x in kids[..i] && x !in seen)
      invariant visited == seen ==> stack == rest
    {
      assert Elements(kids[..i + 1]) == Elements(kids[..i]) + {kids[i]};
      if kids[i] !in visited {
        visited := visited + {kids[i]};
        stack := stack + [kids[i]];
      }
    }
    assert kids[..|kids|] == kids;
  }

  /** The closure in progress: `stack` holds what is marked but not yet expanded. */
  ghost predicate Closing<K(!new)>(neighbors: map<K, seq<K>>, keep: set<K>, stack: seq<K>) {
    && (forall k :: k in stack ==> k in keep)
    && (forall a, b :: a in keep && a !in stack && b in Kids(neighbors, a) ==> b in keep)
  }

  lemma ClosingStep<K(!new)>(neighbors: map<K, seq<K>>, keep: set<K>, stack: seq<K>, next: seq<K>)
    requires Closing(neighbors, keep, stack) && stack != []
    requires var near := Kids(neighbors, stack[|stack| - 1]);
             forall x :: x in next <==> x in stack[..|stack| - 1] || (x in near && x !in keep)
    ensures Closing(neighbors, keep + Elements(Kids(neighbors, stack[|stack| - 1])), next)
  {
    var key, rest := stack[|stack| - 1], stack[..|stack| - 1];
    assert stack == rest + [key];
    var grown := keep + Elements(Kids(neighbors, key));
    forall a, b | a in grown && a !in next && b in Kids(neighbors, a) ensures b in grown {
      if a != key {
        assert a in keep && a !in stack;
      }
    }
  }

  /** Spread marks over neighbours until nothing new turns up; marks only follow edges from the seeds. */
  method Closure<K(==, !new)>(neighbors: map<K, seq<K>>, seeds: set<K>, due: seq<K>,
                              ghost universe: set<K>, ghost alive: K -> bool)
    returns (keep: set<K>)
    requires forall k :: k in due <==> k in seeds
    requires forall k :: k in seeds ==> k in universe && alive(k)
    requires forall a, b :: alive(a) && b in Kids(neighbors, a) ==> b in universe && alive(b)
    ensures seeds <= keep
    ensures forall k :: k in keep ==> alive(k)
    ensures forall a, b :: a in keep && b in Kids(neighbors, a) ==> b in keep
  {
    keep := seeds;
    var stack := due;
    while stack != []
      invariant seeds <= keep <= universe
      invariant forall k :: k in keep ==> alive(k)
      invariant Closing(neighbors, keep, stack)
      decreases |universe - keep|, |stack|
    {
      var key := stack[|stack| - 1];
      assert key in keep;
      var next, grown := PushUnseen(stack[..|stack| - 1], keep, Kids(neighbors, key));
      ClosingStep(neighbors, keep, stack, next);
      if grown != keep {
        assert exists b :: b in grown && b !in keep && b in universe;
        SmallerSet(universe - grown, universe - keep);
      }
      keep, stack := grown, next;
    }
  }
}
