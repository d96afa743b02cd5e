/** The reader's structural checks on a snapshot, and what they accept. */
module Protocol {
  import opened Common
  import opened Forest
  import opened Cycles
  import opened ProjectionSpec
  import Schema

  datatype SnapshotError =
    | BadSession | DuplicateSessionSlot | RoleInvariants | DuplicateAgent | DuplicateAgentSlot
    | MissingAgentParent | NativeParentProvider | PaseoParentNotRoot | CyclicGraph

  predicate Positive(slot: Option<int>) {
    slot.Some? && slot.value >= 1
  }

  predicate BareNativeFacts(f: CardFacts) {
    && f.logicalSlot.None? && f.ghosttyTerminalId.None? && f.transcriptPath.None?
    && f.originKind.None? && f.originRef.None? && !f.originSubagent && f.originParentRef.None?
    && f.unreadSince.None? && f.doneSince.None? && f.pendingResults == 0 && f.endedAt.None?
  }

  /** The role invariants of one agent. */
  predicate AgentOk(n: AgentNode) {
    && (n.facts.ghosttyTerminalId.Some? ==> n.id.provider == Claude)
    && match n.role
       case Primary => n.lineage.None? && n.parent.None? && Positive(n.facts.logicalSlot) && !n.facts.originSubagent
       case Subagent =>
         match n.lineage
         case None => false
         case Some(Native) => n.parent.Some? && n.parent.value.provider == n.id.provider && BareNativeFacts(n.facts)
         case Some(PaseoLineage) =>
           Positive(n.facts.logicalSlot) && n.facts.originKind == Some(Schema.Paseo) && n.facts.originSubagent
  }

  predicate SessionOk(s: Session) {
    && Positive(s.facts.logicalSlot)
    && (s.facts.ghosttyTerminalId.Some? ==> s.id.provider == Claude)
  }

  /** Agents by identity, a later agent winning. */
  function Index(agents: seq<AgentNode>): map<Id, AgentNode> {
    if agents == [] then map[]
    else
      var last := agents[|agents| - 1];
      Index(agents[..|agents| - 1])[last.id := last]
  }

  lemma {:induction false} IndexMembers(agents: seq<AgentNode>)
    ensures forall i :: 0 <= i < |agents| ==> agents[i].id in Index(agents)
    ensures forall k :: k in Index(agents) ==> Index(agents)[k].id == k && Index(agents)[k] in agents
  {
    if agents != [] {
      IndexMembers(agents[..|agents| - 1]);
    }
  }

  ghost predicate RolesOk(agents: seq<AgentNode>) {
    forall i :: 0 <= i < |agents| ==> AgentOk(agents[i])
  }

  ghost predicate IdentitiesUnique(agents: seq<AgentNode>) {
    forall i, j :: 0 <= i < j < |agents| ==> agents[i].id != agents[j].id
  }

  ghost predicate SlotsUnique(agents: seq<AgentNode>) {
    forall i, j :: 0 <= i < j < |agents| && agents[i].facts.logicalSlot.Some? ==>
      agents[i].facts.logicalSlot != agents[j].facts.logicalSlot
  }

  /** The parent check on one agent against all of them. */
  function ParentError(byIdentity: map<Id, AgentNode>, n: AgentNode): Option<SnapshotError> {
    if n.parent.None? then None
    else if n.parent.value !in byIdentity then Some(MissingAgentParent)
    else if n.lineage == Some(Native) && n.parent.value.provider != n.id.provider then Some(NativeParentProvider)
    else if n.lineage == Some(PaseoLineage) && byIdentity[n.parent.value].facts.logicalSlot.None?
      then Some(PaseoParentNotRoot)
    else None
  }

  ghost predicate ParentsOk(agents: seq<AgentNode>) {
    forall i :: 0 <= i < |agents| ==> ParentError(Index(agents), agents[i]).None?
  }

  /** Each agent's parent, by identity. */
  function ParentLinks(nodes: map<Id, AgentNode>): map<Id, Id> {
    map k | k in nodes && nodes[k].parent.Some? :: nodes[k].parent.value
  }

  /** An agent graph the reader accepts. */
  ghost predicate GraphOk(agents: seq<AgentNode>) {
    && RolesOk(agents) && IdentitiesUnique(agents) && SlotsUnique(agents) && ParentsOk(agents)
    && IsForest(ParentLinks(Index(agents)))
  }

  /** What an agent error says about the graph: earlier checks passed, this one did not. */
  ghost predicate AgentsFault(agents: seq<AgentNode>, e: SnapshotError) {
    match e
    case BadSession => false
    case DuplicateSessionSlot => false
    case RoleInvariants => !RolesOk(agents)
    case DuplicateAgent => RolesOk(agents) && !IdentitiesUnique(agents)
    case DuplicateAgentSlot => RolesOk(agents) && !SlotsUnique(agents)
    case CyclicGraph =>
      RolesOk(agents) && IdentitiesUnique(agents) && SlotsUnique(agents) && ParentsOk(agents)
      && exists k :: k in ParentLinks(Index(agents)) && OnCycle(ParentLinks(Index(agents)), k)
    case _ =>
      RolesOk(agents) && IdentitiesUnique(agents) && SlotsUnique(agents)
      && exists i :: 0 <= i < |agents| && ParentError(Index(agents), agents[i]) == Some(e)
  }

  lemma FaultsRejected(agents: seq<AgentNode>, e: SnapshotError)
    requires AgentsFault(agents, e)
    ensures !GraphOk(agents)
  {
    ForestIffAcyclic(ParentLinks(Index(agents)));
  }

  /** What the role checks let through: primaries head, native children are bare, lineage children stand on a slot. */
  lemma RolesSay(n: AgentNode)
    ensures AgentOk(n) <==>
              (n.facts.ghosttyTerminalId.Some? ==> n.id.provider == Claude)
              && if n.role == Primary
                 then n.lineage.None? && n.parent.None? && !n.facts.originSubagent
                      && n.facts.logicalSlot.Some? && n.facts.logicalSlot.value > 0
                 else if n.lineage == Some(PaseoLineage)
                 then n.facts.originKind == Some(Schema.Paseo) && n.facts.originSubagent
                      && n.facts.logicalSlot.Some? && n.facts.logicalSlot.value > 0
                 else n.lineage == Some(Native) && NativeChild(n)
  {
  }

  /** A child of its own provider that carries nothing of a card's. */
  predicate NativeChild(n: AgentNode) {
    && n.parent.Some? && n.parent.value.provider == n.id.provider
    && n.facts.logicalSlot.None? && n.facts.ghosttyTerminalId.None? && n.facts.transcriptPath.None?
    && n.facts.originKind.None? && n.facts.originRef.None? && !n.facts.originSubagent && n.facts.originParentRef.None?
    && n.facts.unreadSince.None? && n.facts.doneSince.None? && n.facts.pendingResults == 0 && n.facts.endedAt.None?
  }

  /** What the parent checks let through: listed parents, native ones of the same provider, lineage ones on a slot. */
  lemma ParentsSay(agents: seq<AgentNode>)
    ensures ParentsOk(agents)
            <==> forall i :: 0 <= i < |agents| && agents[i].parent.Some? ==>
                   var p := agents[i].parent.value;
                   p in Index(agents) && (agents[i].lineage == Some(Native) ==> p.provider == agents[i].id.provider)
                   && (agents[i].lineage == Some(PaseoLineage) ==> Index(agents)[p].facts.logicalSlot.Some?)
  {
    forall i | 0 <= i < |agents|
      ensures ParentError(Index(agents), agents[i]).None?
              <==> (agents[i].parent.Some? ==>
                      var p := agents[i].parent.value;
                      p in Index(agents) && (agents[i].lineage == Some(Native) ==> p.provider == agents[i].id.provider)
                      && (agents[i].lineage == Some(PaseoLineage) ==> Index(agents)[p].facts.logicalSlot.Some?))
    {
    }
  }

  ghost predicate SlotSeen(agents: seq<AgentNode>, n: nat, slot: int)
    requires n <= |agents|
  {
    exists i :: 0 <= i < n && agents[i].facts.logicalSlot == Some(slot)
  }

  /** No two of the first `n` agents share a slot. */
  ghost predicate SlotsApart(agents: seq<AgentNode>, n: nat)
    requires n <= |agents|
  {
    forall i, j :: 0 <= i < j < n && agents[i].facts.logicalSlot.Some? ==>
      agents[i].facts.logicalSlot != agents[j].facts.logicalSlot
  }

  lemma SlotStep(agents: seq<AgentNode>, n: nat)
    requires n < |agents| && SlotsApart(agents, n)
    ensures var slot := agents[n].facts.logicalSlot;
            if slot.Some? && SlotSeen(agents, n, slot.value) then !SlotsUnique(agents) else SlotsApart(agents, n + 1)
  {
    var slot := agents[n].facts.logicalSlot;
    if slot.Some? && SlotSeen(agents, n, slot.value) {
      var i :| 0 <= i < n && agents[i].facts.logicalSlot == Some(slot.value);
    } else {
      assert slot.Some? ==> !SlotSeen(agents, n, slot.value);
      assert forall i :: 0 <= i < n && agents[i].facts.logicalSlot.Some? ==> agents[i].facts.logicalSlot != slot;
    }
  }

  lemma SeenStep(agents: seq<AgentNode>, n: nat, s: int)
    requires n < |agents|
    ensures SlotSeen(agents, n + 1, s) <==> SlotSeen(agents, n, s) || agents[n].facts.logicalSlot == Some(s)
  {
  }

  lemma IndexStep(agents: seq<AgentNode>, n: nat)
    requires n < |agents|
    ensures Index(agents[..n + 1]) == Index(agents[..n])[agents[n].id := agents[n]]
    ensures agents[n].id in Index(agents[..n]) <==> exists i :: 0 <= i < n && agents[i].id == agents[n].id
  {
    assert agents[..n + 1][..n] == agents[..n];
    IndexMembers(agents[..n]);
    if agents[n].id in Index(agents[..n]) {
      assert Index(agents[..n])[agents[n].id] in agents[..n];
    }
    forall i | 0 <= i < n && agents[i].id == agents[n].id ensures agents[n].id in Index(agents[..n]) {
      assert agents[..n][i].id in Index(agents[..n]);
    }
  }

  method IndexAgents(agents: seq<AgentNode>) returns (byIdentity: map<Id, AgentNode>, error: Option<SnapshotError>)
    ensures match error
            case None => IdentitiesUnique(agents) && SlotsUnique(agents) && byIdentity == Index(agents)
            case Some(e) =>
              (e == DuplicateAgent && !IdentitiesUnique(agents)) || (e == DuplicateAgentSlot && !SlotsUnique(agents))
  {
    byIdentity := map[];
    var seenSlots: set<int> := {};
    for n := 0 to |agents|
      invariant byIdentity == Index(agents[..n])
      invariant forall i, j :: 0 <= i < j < n ==> agents[i].id != agents[j].id
      invariant SlotsApart(agents, n)
      invariant forall s :: s in seenSlots <==> SlotSeen(agents, n, s)
    {
      IndexStep(agents, n);
      SlotStep(agents, n);
      forall s
        ensures SlotSeen(agents, n + 1, s) <==> SlotSeen(agents, n, s) || agents[n].facts.logicalSlot == Some(s)
      {
        SeenStep(agents, n, s);
      }
      if agents[n].id in byIdentity {
        return byIdentity, Some(DuplicateAgent);
      }
      byIdentity := byIdentity[agents[n].id := agents[n]];
      var slot := agents[n].facts.logicalSlot;
      if slot.Some? {
        if slot.value in seenSlots {
          return byIdentity, Some(DuplicateAgentSlot);
        }
        seenSlots := seenSlots + {slot.value};
      }
    }
    TakeAll(agents);
    error := None;
  }

  method RejectCycles(agents: seq<AgentNode>, links: map<Id, Id>) returns (cyclic: bool)
    requires forall k :: k in links ==> exists i :: 0 <= i < |agents| && agents[i].id == k
    ensures cyclic <==> !IsForest(links)
  {
    var done: set<Id> := {};
    cyclic := false;
    for n := 0 to |agents|
      invariant forall i :: 0 <= i < n ==> agents[i].id in done
      invariant forall k :: k in done && k in links ==> links[k] in done
      invariant forall k :: k in done ==> !OnCycle(links, k)
    {
      var path, tail := WalkFrom(links, done, agents[n].id);
      ClassifyPath(links, done, path, tail);
      if tail < |path| {
        assert OnCycle(links, path[tail]);
        ForestIffAcyclic(links);
        return true;
      }
      var walked := set i | 0 <= i < |path| :: path[i];
      WalkedClosed(links, done, path, tail);
      done := done + walked;
    }
    ForestIffAcyclic(links);
  }

  lemma WalkedClosed<K>(links: map<K, K>, done: set<K>, path: seq<K>, tail: nat)
    requires WalkEnds(links, done, path, tail) && tail == |path|
    ensures forall i :: 0 <= i < |path| && path[i] in links ==> links[path[i]] in done || links[path[i]] in path
  {
    forall i | 0 <= i < |path| && path[i] in links ensures links[path[i]] in done || links[path[i]] in path {
      if i < |path| - 1 {
        assert links[path[i]] == path[i + 1];
      }
    }
  }

  method CheckRoles(agents: seq<AgentNode>) returns (ok: bool)
    ensures ok <==> RolesOk(agents)
  {
    for n := 0 to |agents|
      invariant forall i :: 0 <= i < n ==> AgentOk(agents[i])
    {
      if !AgentOk(agents[n]) {
        return false;
      }
    }
    ok := true;
  }

  method CheckParents(agents: seq<AgentNode>, byIdentity: map<Id, AgentNode>) returns (error: Option<SnapshotError>)
    ensures error.None? <==> forall i :: 0 <= i < |agents| ==> ParentError(byIdentity, agents[i]).None?
    ensures error.Some? ==> exists i :: 0 <= i < |agents| && ParentError(byIdentity, agents[i]) == error
  {
    for n := 0 to |agents|
      invariant forall i :: 0 <= i < n ==> ParentError(byIdentity, agents[i]).None?
    {
      error := ParentError(byIdentity, agents[n]);
      if error.Some? {
        return error;
      }
    }
    error := None;
  }

  method CheckAcyclic(agents: seq<AgentNode>, links: map<Id, Id>) returns (cyclic: bool)
    requires links == ParentLinks(Index(agents))
    ensures cyclic <==> !IsForest(links)
    ensures cyclic <==> exists k :: k in links && OnCycle(links, k)
  {
    forall k | k in links ensures exists i :: 0 <= i < |agents| && agents[i].id == k {
      IndexMembers(agents);
      assert Index(agents)[k] in agents;
    }
    cyclic := RejectCycles(agents, links);
    ForestIffAcyclic(links);
  }

  /** Accepts exactly the well-founded graphs that keep the other rules, and says which rule broke. */
  method ParseAgents(agents: seq<AgentNode>) returns (r: Result<seq<AgentNode>, SnapshotError>)
    ensures r.Success? <==> GraphOk(agents)
    ensures r.Success? ==> r.value == agents
    ensures r.Failure? ==> AgentsFault(agents, r.error)
  {
    var rolesOk := CheckRoles(agents);
    if !rolesOk {
      return Failure(RoleInvariants);
    }
    var byIdentity, error := IndexAgents(agents);
    if error.Some? {
      return Failure(error.value);
    }
    error := CheckParents(agents, byIdentity);
    if error.Some? {
      return Failure(error.value);
    }
    var cyclic := CheckAcyclic(agents, ParentLinks(byIdentity));
    r := if cyclic then Failure(CyclicGraph) else Success(agents);
  }

  ghost predicate SessionsOk(sessions: seq<Session>) {
    && (forall i :: 0 <= i < |sessions| ==> SessionOk(sessions[i]))
    && (forall i, j :: 0 <= i < j < |sessions| ==> sessions[i].facts.logicalSlot != sessions[j].facts.logicalSlot)
  }

  ghost predicate SnapshotOk(p: Projected) {
    SessionsOk(p.sessions) && GraphOk(p.agents)
  }

  method ParseSessions(sessions: seq<Session>) returns (error: Option<SnapshotError>)
    ensures error.None? <==> SessionsOk(sessions)
    ensures error.Some? ==> error.value == BadSession || error.value == DuplicateSessionSlot
    ensures error == Some(DuplicateSessionSlot) ==> forall i :: 0 <= i < |sessions| ==> SessionOk(sessions[i])
  {
    for n := 0 to |sessions|
      invariant forall i :: 0 <= i < n ==> SessionOk(sessions[i])
    {
      if !SessionOk(sessions[n]) {
        return Some(BadSession);
      }
    }
    var seenSlots: set<int> := {};
    for n := 0 to |sessions|
      invariant forall i, j :: 0 <= i < j < n ==> sessions[i].facts.logicalSlot != sessions[j].facts.logicalSlot
      invariant forall s :: s in seenSlots <==> exists i :: 0 <= i < n && sessions[i].facts.logicalSlot == Some(s)
    {
      if sessions[n].facts.logicalSlot.value in seenSlots {
        return Some(DuplicateSessionSlot);
      }
      seenSlots := seenSlots + {sessions[n].facts.logicalSlot.value};
    }
    error := None;
  }

  method ParseSessionSnapshot(p: Projected) returns (r: Result<Projected, SnapshotError>)
    ensures r.Success? <==> SnapshotOk(p)
    ensures r.Success? ==> r.value == p
    ensures r.Failure? ==> !SessionsOk(p.sessions) || AgentsFault(p.agents, r.error)
  {
    var error := ParseSessions(p.sessions);
    if error.Some? {
      return Failure(error.value);
    }
    var agents := ParseAgents(p.agents);
    match agents
    case Failure(e) => return Failure(e);
    case Success(_) => return Success(p);
  }
}
