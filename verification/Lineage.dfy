/** Paseo lineage: who dispatched whom, resolved from the roots' origin facts. */
module Lineage {
  import opened Common
  import opened Forest
  import opened Cycles

  /** One root's Paseo routing facts. */
  datatype Facts = Facts(originRef: Option<string>, originSubagent: bool, originParentRef: Option<string>)

  datatype LineageRow = LineageRow(id: Id, facts: Facts)

  /** Distinct identities: the primary key of the table the rows come from. */
  ghost predicate DistinctIds(rows: seq<LineageRow>) {
    forall i, j :: 0 <= i < j < |rows| ==> rows[i].id != rows[j].id
  }

  ghost predicate Carries(facts: map<Id, Facts>, k: Id, r: string) {
    k in facts && facts[k].originRef == Some(r)
  }

  /** `k` carries the ref and nobody else does. */
  ghost predicate SoleCarrier(facts: map<Id, Facts>, k: Id, r: string) {
    Carries(facts, k, r) && forall j :: Carries(facts, j, r) ==> j == k
  }

  /** A marked subagent names a parent ref that exactly one root carries. */
  ghost predicate IsRawLink(facts: map<Id, Facts>, c: Id, p: Id) {
    && c in facts && facts[c].originSubagent && facts[c].originParentRef.Some?
    && SoleCarrier(facts, p, facts[c].originParentRef.value)
  }

  ghost function RawLinks(facts: map<Id, Facts>): (links: map<Id, Id>)
    ensures forall c, p :: (c in links && links[c] == p) <==> IsRawLink(facts, c, p)
  {
    map c | c in facts && (exists p :: IsRawLink(facts, c, p)) :: (var p :| IsRawLink(facts, c, p); p)
  }

  /** The unique-ref parent edges, minus those leaving a node that lies on a cycle. */
  ghost function ResolvedLinks(facts: map<Id, Facts>): (links: map<Id, Id>)
    ensures IsForest(links)
    ensures forall c :: c in links ==> IsRawLink(facts, c, links[c])
  {
    CutCyclesForest(RawLinks(facts));
    CutCycles(RawLinks(facts))
  }

  /** The published lineage, edge by edge. */
  lemma ResolvedExactly(facts: map<Id, Facts>, c: Id, p: Id)
    ensures (c in ResolvedLinks(facts) && ResolvedLinks(facts)[c] == p)
              <==> (IsRawLink(facts, c, p) && !OnCycle(RawLinks(facts), c))
  {
    assert IsRawLink(facts, c, p) <==> c in RawLinks(facts) && RawLinks(facts)[c] == p;
  }

  /** A root without a ref, a mark or a parent ref takes no part in the resolution. */
  lemma IgnoredRoots(facts: map<Id, Facts>, fewer: map<Id, Facts>)
    requires forall k :: k in fewer ==> k in facts && fewer[k] == facts[k]
    requires forall k :: k in facts && k !in fewer ==>
               facts[k].originRef.None? && (!facts[k].originSubagent || facts[k].originParentRef.None?)
    ensures ResolvedLinks(facts) == ResolvedLinks(fewer)
  {
    forall k, r ensures Carries(facts, k, r) <==> Carries(fewer, k, r) {
    }
    forall c, p ensures IsRawLink(facts, c, p) <==> IsRawLink(fewer, c, p) {
      if c in fewer && fewer[c].originParentRef.Some? {
        var r := fewer[c].originParentRef.value;
        assert Carries(facts, p, r) <==> Carries(fewer, p, r);
      }
    }
    var a, b := RawLinks(facts), RawLinks(fewer);
    forall c ensures c in a <==> c in b {
      if c in a { assert IsRawLink(facts, c, a[c]); }
      if c in b { assert IsRawLink(fewer, c, b[c]); }
    }
    forall c | c in a ensures a[c] == b[c] {
      assert IsRawLink(facts, c, a[c]);
    }
    assert a == b;
  }

  ghost predicate Ambiguous(facts: map<Id, Facts>, r: string) {
    exists j, k :: j != k && Carries(facts, j, r) && Carries(facts, k, r)
  }

  /** What the first scan knows: refs carried once map to their carrier, refs seen again are ambiguous. */
  ghost predicate Scanned(seen: map<Id, Facts>, rootByOriginRef: map<string, Id>, ambiguousOriginRefs: set<string>) {
    && (forall r :: r in rootByOriginRef ==> SoleCarrier(seen, rootByOriginRef[r], r))
    && (forall r :: r in ambiguousOriginRefs ==> Ambiguous(seen, r))
    && (forall k :: k in seen && seen[k].originRef.Some? ==>
          seen[k].originRef.value in rootByOriginRef || seen[k].originRef.value in ambiguousOriginRefs)
  }

  lemma ScanStep(seen: map<Id, Facts>, byRef: map<string, Id>, ambiguous: set<string>, row: LineageRow)
    requires Scanned(seen, byRef, ambiguous) && row.id !in seen
    ensures var seen' := seen[row.id := row.facts];
            match row.facts.originRef
            case None => Scanned(seen', byRef, ambiguous)
            case Some(r) =>
              if r in ambiguous then Scanned(seen', byRef, ambiguous)
              else if r in byRef then Scanned(seen', byRef - {r}, ambiguous + {r})
              else Scanned(seen', byRef[r := row.id], ambiguous)
  {
    var seen' := seen[row.id := row.facts];
    forall k, r
      ensures Carries(seen', k, r) <==> Carries(seen, k, r) || (k == row.id && row.facts.originRef == Some(r))
    {
    }
    forall r | Ambiguous(seen, r) ensures Ambiguous(seen', r) {
      var j, k :| j != k && Carries(seen, j, r) && Carries(seen, k, r);
      assert Carries(seen', j, r) && Carries(seen', k, r);
    }
    if row.facts.originRef.Some? {
      var r := row.facts.originRef.value;
      if r !in ambiguous && r in byRef {
        assert Carries(seen', byRef[r], r) && Carries(seen', row.id, r);
        assert Ambiguous(seen', r);
      } else if r !in ambiguous {
        forall k | Carries(seen, k, r) ensures false {
        }
        assert SoleCarrier(seen', row.id, r);
      }
    }
  }

  method CarriersByRef(rows: seq<LineageRow>) returns (rootByOriginRef: map<string, Id>)
    requires DistinctIds(rows)
    ensures forall r, k :: (r in rootByOriginRef && rootByOriginRef[r] == k) <==> SoleCarrier(FactsOf(rows), k, r)
  {
    rootByOriginRef := map[];
    var ambiguousOriginRefs: set<string> := {};
    for n := 0 to |rows|
      invariant Scanned(FactsOf(rows[..n]), rootByOriginRef, ambiguousOriginRefs)
    {
      var row := rows[n];
      FactsGrow(rows, n);
      ScanStep(FactsOf(rows[..n]), rootByOriginRef, ambiguousOriginRefs, row);
      if row.facts.originRef.None? {
        continue;
      }
      var r := row.facts.originRef.value;
      if r in ambiguousOriginRefs {
        continue;
      }
      if r in rootByOriginRef {
        rootByOriginRef := rootByOriginRef - {r};
        ambiguousOriginRefs := ambiguousOriginRefs + {r};
      } else {
        rootByOriginRef := rootByOriginRef[r := row.id];
      }
    }
    assert rows[..|rows|] == rows;
  }

  ghost function FactsOf(rows: seq<LineageRow>): map<Id, Facts>
  {
    if rows == [] then map[]
    else FactsOf(rows[..|rows| - 1])[rows[|rows| - 1].id := rows[|rows| - 1].facts]
  }

  lemma FactsGrow(rows: seq<LineageRow>, n: nat)
    requires DistinctIds(rows) && n < |rows|
    ensures FactsOf(rows[..n + 1]) == FactsOf(rows[..n])[rows[n].id := rows[n].facts]
    ensures rows[n].id !in FactsOf(rows[..n])
  {
    assert rows[..n + 1][..n] == rows[..n];
    FactsMembers(rows[..n]);
  }

  lemma {:induction false} FactsMembers(rows: seq<LineageRow>)
    requires DistinctIds(rows)
    ensures forall k :: k in FactsOf(rows) <==> exists i :: 0 <= i < |rows| && rows[i].id == k
    ensures forall i :: 0 <= i < |rows| ==> rows[i].id in FactsOf(rows) && FactsOf(rows)[rows[i].id] == rows[i].facts
  {
    if rows != [] {
      FactsMembers(rows[..|rows| - 1]);
    }
  }

  /** The second scan: each marked row takes the carrier of the ref it names as its parent. */
  method RawParentLinks(rows: seq<LineageRow>, rootByOriginRef: map<string, Id>) returns (paseoParent: map<Id, Id>)
    requires DistinctIds(rows)
    requires forall r, k :: (r in rootByOriginRef && rootByOriginRef[r] == k) <==> SoleCarrier(FactsOf(rows), k, r)
    ensures paseoParent == RawLinks(FactsOf(rows))
  {
    paseoParent := map[];
    FactsMembers(rows);
    for n := 0 to |rows|
      invariant forall c :: c in paseoParent ==> IsRawLink(FactsOf(rows), c, paseoParent[c])
      invariant forall i, p :: 0 <= i < n && IsRawLink(FactsOf(rows), rows[i].id, p) ==> rows[i].id in paseoParent
    {
      var row := rows[n];
      if row.facts.originSubagent && row.facts.originParentRef.Some? {
        var r := row.facts.originParentRef.value;
        if r in rootByOriginRef {
          assert SoleCarrier(FactsOf(rows), rootByOriginRef[r], r);
          paseoParent := paseoParent[row.id := rootByOriginRef[r]];
        }
      }
    }
    var raw := RawLinks(FactsOf(rows));
    forall c ensures c in paseoParent <==> c in raw {
      if c in raw {
        assert IsRawLink(FactsOf(rows), c, raw[c]);
        var i :| 0 <= i < |rows| && rows[i].id == c;
      }
    }
  }

  /** The lineage every consumer walks: registry deletes and gestures, the prune, and the projection. */
  method ResolvePaseoParentLinks(rows: seq<LineageRow>) returns (paseoParent: map<Id, Id>)
    requires DistinctIds(rows)
    ensures paseoParent == ResolvedLinks(FactsOf(rows))
    ensures IsForest(paseoParent)
  {
    var rootByOriginRef := CarriersByRef(rows);
    paseoParent := RawParentLinks(rows, rootByOriginRef);
    var cycleMembers := CycleMembers(paseoParent);
    paseoParent := paseoParent - cycleMembers;
  }

  /** The links depend on the rows' facts alone, never on their order. */
  lemma RowOrderIrrelevant(rows: seq<LineageRow>, others: seq<LineageRow>)
    requires DistinctIds(rows) && DistinctIds(others)
    requires forall row :: row in rows <==> row in others
    ensures ResolvedLinks(FactsOf(rows)) == ResolvedLinks(FactsOf(others))
  {
    FactsMembers(rows);
    FactsMembers(others);
    var a, b := FactsOf(rows), FactsOf(others);
    forall k ensures k in a <==> k in b {
      if k in a {
        var i :| 0 <= i < |rows| && rows[i].id == k;
        assert rows[i] in others;
      }
      if k in b {
        var i :| 0 <= i < |others| && others[i].id == k;
        assert others[i] in rows;
      }
    }
    forall k | k in a ensures a[k] == b[k] {
      var i :| 0 <= i < |rows| && rows[i].id == k;
      assert rows[i] in others;
    }
    assert a == b;
  }
}
