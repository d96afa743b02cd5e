/**
 * Finite functional graphs: a `map<K, K>` sends each linked node to its parent.
 * Native parentage, resolved Paseo lineage and the published agent graph are
 * all of this kind.
 */
module Forest {

  /** The chain from `k` leaves the linked nodes after exactly `n` steps. */
  ghost predicate Rooted<K>(m: map<K, K>, k: K, n: nat) {
    if k !in m then n == 0 else n > 0 && Rooted(m, m[k], n - 1)
  }

  ghost predicate Grounded<K>(m: map<K, K>, k: K) {
    exists n: nat :: Rooted(m, k, n)
  }

  /** Every chain ends: the parent relation is well-founded. */
  ghost predicate IsForest<K>(m: map<K, K>) {
    forall k :: k in m ==> Grounded(m, k)
  }

  lemma {:induction false} RootedUnique<K>(m: map<K, K>, k: K, a: nat, b: nat)
    requires Rooted(m, k, a) && Rooted(m, k, b)
    ensures a == b
  {
    if k in m {
      RootedUnique(m, m[k], a - 1, b - 1);
    }
  }

  ghost function Depth<K>(m: map<K, K>, k: K): (n: nat)
    requires IsForest(m)
    ensures Rooted(m, k, n)
    ensures forall j: nat :: Rooted(m, k, j) ==> j == n
    ensures k in m ==> n > 0 && forall j: nat :: Rooted(m, m[k], j) ==> j == n - 1
  {
    assert k !in m ==> Rooted(m, k, 0);
    var n: nat :| Rooted(m, k, n);
    assert forall j: nat :: Rooted(m, k, j) ==> j == n by {
      forall j: nat | Rooted(m, k, j) ensures j == n { RootedUnique(m, k, j, n); }
    }
    assert k in m ==> forall j: nat :: Rooted(m, m[k], j) ==> j == n - 1 by {
      if k in m {
        forall j: nat | Rooted(m, m[k], j) ensures j == n - 1 { RootedUnique(m, m[k], j, n - 1); }
      }
    }
    n
  }

  /** `b` is `a` or one of its descendants. */
  predicate Below<K(==)>(m: map<K, K>, b: K, a: K)
    requires IsForest(m)
    decreases Depth(m, b)
  {
    b == a || (b in m && Below(m, m[b], a))
  }

  /** The last node of the chain from `k`. */
  ghost function Top<K>(m: map<K, K>, k: K): (r: K)
    requires IsForest(m)
    ensures r !in m
    decreases Depth(m, k)
  {
    if k in m then Top(m, m[k]) else k
  }

  ghost function Subtree<K>(m: map<K, K>, a: K): set<K>
    requires IsForest(m)
  {
    set b | b in m.Keys + {a} && Below(m, b, a)
  }

  lemma {:induction false} BelowTransitive<K>(m: map<K, K>, c: K, b: K, a: K)
    requires IsForest(m)
    requires Below(m, c, b) && Below(m, b, a)
    ensures Below(m, c, a)
    decreases Depth(m, c)
  {
    if c != b {
      BelowTransitive(m, m[c], b, a);
    }
  }

  lemma {:induction false} BelowDepth<K>(m: map<K, K>, b: K, a: K)
    requires IsForest(m)
    requires Below(m, b, a)
    ensures Depth(m, b) >= Depth(m, a)
    ensures b != a ==> Depth(m, b) > Depth(m, a)
    decreases Depth(m, b)
  {
    if b != a {
      BelowDepth(m, m[b], a);
    }
  }

  /** The ancestors of a node form a chain. */
  lemma {:induction false} AncestorsChain<K>(m: map<K, K>, c: K, a: K, b: K)
    requires IsForest(m)
    requires Below(m, c, a) && Below(m, c, b)
    ensures Below(m, a, b) || Below(m, b, a)
    decreases Depth(m, c)
  {
    if c != a && c != b {
      AncestorsChain(m, m[c], a, b);
    }
  }

  lemma {:induction false} BelowTop<K>(m: map<K, K>, k: K)
    requires IsForest(m)
    ensures Below(m, k, Top(m, k))
    decreases Depth(m, k)
  {
    if k in m {
      BelowTop(m, m[k]);
    }
  }

  lemma {:induction false} TopUnique<K>(m: map<K, K>, k: K, r: K)
    requires IsForest(m)
    requires Below(m, k, r) && r !in m
    ensures Top(m, k) == r
    decreases Depth(m, k)
  {
    if k != r {
      TopUnique(m, m[k], r);
    }
  }

  /** A strict descendant of `a` lies below a child of `a`. */
  lemma {:induction false} BelowChild<K>(m: map<K, K>, b: K, a: K) returns (c: K)
    requires IsForest(m)
    requires Below(m, b, a) && b != a
    ensures c in m && m[c] == a && Below(m, b, c)
    decreases Depth(m, b)
  {
    if m[b] == a {
      c := b;
    } else {
      c := BelowChild(m, m[b], a);
    }
  }

  // ----- changing a forest -----

  /** Forgetting links keeps a forest. */
  lemma {:induction false} RestrictGrounded<K>(m: map<K, K>, s: map<K, K>, k: K, n: nat)
    requires forall x :: x in s ==> x in m && s[x] == m[x]
    requires Rooted(m, k, n)
    ensures Grounded(s, k)
    decreases n
  {
    if k in s {
      RestrictGrounded(m, s, m[k], n - 1);
      var j: nat :| Rooted(s, s[k], j);
      assert Rooted(s, k, j + 1);
    } else {
      assert Rooted(s, k, 0);
    }
  }

  lemma SubForest<K>(m: map<K, K>, s: map<K, K>)
    requires IsForest(m)
    requires forall x :: x in s ==> x in m && s[x] == m[x]
    ensures IsForest(s)
  {
    forall k | k in s ensures Grounded(s, k) {
      RestrictGrounded(m, s, k, Depth(m, k));
    }
  }

  /** Descent in fewer links is descent in more. */
  lemma {:induction false} SubForestBelow<K>(m: map<K, K>, s: map<K, K>, b: K, a: K)
    requires IsForest(m) && IsForest(s)
    requires forall x :: x in s ==> x in m && s[x] == m[x]
    requires Below(s, b, a)
    ensures Below(m, b, a)
    decreases Depth(s, b)
  {
    if b != a {
      SubForestBelow(m, s, s[b], a);
    }
  }

  /** Hanging `c` under `p` keeps a forest when `p` is not below `c`. */
  lemma RelinkForest<K>(m: map<K, K>, c: K, p: K)
    requires IsForest(m)
    requires !Below(m, p, c)
    ensures IsForest(m[c := p])
  {
    RelinkGroundedAbove(m, c, p, p);
    var s := m[c := p];
    forall k | k in s ensures Grounded(s, k) {
      RelinkGrounded(m, c, p, k);
    }
  }

  lemma {:induction false} RelinkGroundedAbove<K>(m: map<K, K>, c: K, p: K, k: K)
    requires IsForest(m)
    requires !Below(m, k, c)
    ensures Grounded(m[c := p], k)
    decreases Depth(m, k)
  {
    var s := m[c := p];
    if k in m {
      RelinkGroundedAbove(m, c, p, m[k]);
      var j: nat :| Rooted(s, s[k], j);
      assert Rooted(s, k, j + 1);
    } else {
      assert Rooted(s, k, 0);
    }
  }

  lemma {:induction false} RelinkGrounded<K>(m: map<K, K>, c: K, p: K, k: K)
    requires IsForest(m)
    requires Grounded(m[c := p], p)
    ensures Grounded(m[c := p], k)
    decreases Depth(m, k)
  {
    var s := m[c := p];
    if k == c {
      var j: nat :| Rooted(s, p, j);
      assert Rooted(s, c, j + 1);
    } else if k in m {
      RelinkGrounded(m, c, p, m[k]);
      var j: nat :| Rooted(s, s[k], j);
      assert Rooted(s, k, j + 1);
    } else {
      assert Rooted(s, k, 0);
    }
  }

  /** Links among the roots of a forest extend it to a forest. */
  lemma JoinForest<K>(m: map<K, K>, r: map<K, K>)
    requires IsForest(m) && IsForest(r)
    requires forall k :: k in r ==> k !in m && r[k] !in m
    ensures IsForest(m + r)
  {
    forall k | k in m + r ensures Grounded(m + r, k) {
      JoinGrounded(m, r, k);
    }
  }

  lemma {:induction false} JoinGrounded<K>(m: map<K, K>, r: map<K, K>, k: K)
    requires IsForest(m) && IsForest(r)
    requires forall x :: x in r ==> x !in m && r[x] !in m
    ensures Grounded(m + r, k)
    decreases Depth(m, k)
  {
    if k in m {
      JoinGrounded(m, r, m[k]);
      var j: nat :| Rooted(m + r, m[k], j);
      assert Rooted(m + r, k, j + 1);
    } else {
      JoinGroundedRoot(m, r, k);
    }
  }

  lemma {:induction false} JoinGroundedRoot<K>(m: map<K, K>, r: map<K, K>, k: K)
    requires IsForest(m) && IsForest(r)
    requires forall x :: x in r ==> x !in m && r[x] !in m
    requires k !in m
    ensures Grounded(m + r, k)
    decreases Depth(r, k)
  {
    if k in r {
      JoinGroundedRoot(m, r, r[k]);
      var j: nat :| Rooted(m + r, r[k], j);
      assert Rooted(m + r, k, j + 1);
    } else {
      assert Rooted(m + r, k, 0);
    }
  }
}
