/** What a rollout's lines say about its session and its turn, read off the lines instead of folding them. */
module RolloutLaws {
  import opened Common
  import opened RegistrySpec
  import opened Rollout

  // ----- what a line says -----

  ghost predicate Opens(decode: Decoder, line: seq<Byte>, session: Option<string>) {
    Says(decode, line, SessionMeta(session))
  }

  ghost predicate Ends(decode: Decoder, line: seq<Byte>, id: string, at: Instant) {
    Says(decode, line, EventMsg(TaskEnded, Some(id), Some(at)))
  }

  ghost predicate Responds(decode: Decoder, line: seq<Byte>, at: Instant) {
    Says(decode, line, ResponseItem(Some(at)))
  }

  ghost predicate OpensNone(decode: Decoder, line: seq<Byte>) {
    forall session :: !Opens(decode, line, session)
  }

  /** No line from `from` on opens another session. */
  ghost predicate OneSession(decode: Decoder, lines: seq<seq<Byte>>, from: nat) {
    forall h :: from <= h < |lines| ==> OpensNone(decode, lines[h])
  }

  // ----- the session -----

  /** The session is the one the last opening line names. */
  lemma {:induction false} SessionIsLast(decode: Decoder, lines: seq<seq<Byte>>, m: nat, session: Option<string>)
    requires m < |lines| && Opens(decode, lines[m], session) && OneSession(decode, lines, m + 1)
    ensures FoldLines(decode, lines).sessionId == session
  {
    if m < |lines| - 1 {
      SessionShorter(decode, lines, m + 1);
      SessionKept(decode, lines);
      SessionIsLast(decode, lines[..|lines| - 1], m, session);
    }
  }

  /** And there is none without such a line. */
  lemma {:induction false} SessionUnknown(decode: Decoder, lines: seq<seq<Byte>>)
    requires OneSession(decode, lines, 0)
    ensures FoldLines(decode, lines).sessionId == None
  {
    if lines != [] {
      SessionShorter(decode, lines, 0);
      SessionKept(decode, lines);
      SessionUnknown(decode, lines[..|lines| - 1]);
    }
  }

  lemma SessionKept(decode: Decoder, lines: seq<seq<Byte>>)
    requires lines != [] && OpensNone(decode, lines[|lines| - 1])
    ensures FoldLines(decode, lines).sessionId == FoldLines(decode, lines[..|lines| - 1]).sessionId
  {
    var line := lines[|lines| - 1];
    assert forall session :: Opens(decode, line, session) <==>
             |line| <= MAX_LINE_BYTES && decode(line) == Some(SessionMeta(session));
  }

  lemma SessionShorter(decode: Decoder, lines: seq<seq<Byte>>, from: nat)
    requires lines != [] && OneSession(decode, lines, from)
    ensures OneSession(decode, lines[..|lines| - 1], from)
    ensures from < |lines| ==> OpensNone(decode, lines[|lines| - 1])
  {
  }

  // ----- the turn -----

  /** Line `i` starts the turn that counts: the last one of the session to start at the latest time. */
  ghost predicate Leads(decode: Decoder, lines: seq<seq<Byte>>, i: nat, id: string, at: Instant) {
    && i < |lines| && StartsTurn(decode, lines[i], id, at)
    && (forall h :: i < h < |lines| ==> LeavesTurn(decode, lines[h], at))
    && forall h, other, since ::
         0 <= h < i && StartsTurn(decode, lines[h], other, since) && SameSession(decode, lines, h, i) ==> since <= at
  }

  ghost predicate SameSession(decode: Decoder, lines: seq<seq<Byte>>, h: nat, i: nat)
    requires i <= |lines|
  {
    forall m :: h < m < i ==> OpensNone(decode, lines[m])
  }

  /** Line `j` ends the turn at or after everything it had been observed at: its start and the responses before. */
  ghost predicate EndCounts(decode: Decoder, lines: seq<seq<Byte>>, i: nat, id: string, at: Instant, j: nat,
                            x: Instant)
  {
    && i < j < |lines| && Ends(decode, lines[j], id, x) && at <= x
    && forall h, y :: i < h < j && Responds(decode, lines[h], y) ==> y <= x
  }

  ghost predicate Stopped(decode: Decoder, lines: seq<seq<Byte>>, i: nat, id: string, at: Instant) {
    exists j: nat, x :: EndCounts(decode, lines, i, id, at, j, x)
  }

  /** The latest of the start and the responses since. */
  ghost predicate LatestHeard(decode: Decoder, lines: seq<seq<Byte>>, i: nat, at: Instant, o: Instant) {
    && at <= o && (forall h, y :: i < h < |lines| && Responds(decode, lines[h], y) ==> y <= o)
    && (o == at || exists h :: i < h < |lines| && Responds(decode, lines[h], o))
  }

  /** The latest of the turn's ends, from the first that counts. */
  ghost predicate LatestEnd(decode: Decoder, lines: seq<seq<Byte>>, i: nat, id: string, at: Instant, o: Instant) {
    exists j: nat, x :: EndCounts(decode, lines, i, id, at, j, x) && NoneCountsBefore(decode, lines, i, id, at, j)
                   && LatestFrom(decode, lines, id, j, o)
  }

  ghost predicate NoneCountsBefore(decode: Decoder, lines: seq<seq<Byte>>, i: nat, id: string, at: Instant, j: nat) {
    forall h: nat, x :: h < j ==> !EndCounts(decode, lines, i, id, at, h, x)
  }

  ghost predicate LatestFrom(decode: Decoder, lines: seq<seq<Byte>>, id: string, j: nat, o: Instant) {
    && (forall h, y :: j <= h < |lines| && Ends(decode, lines[h], id, y) ==> y <= o)
    && exists h :: j <= h < |lines| && Ends(decode, lines[h], id, o)
  }

  /** What the lines make of the turn that line `i` starts. */
  ghost predicate TurnOf(decode: Decoder, lines: seq<seq<Byte>>, i: nat, id: string, at: Instant, t: Turn) {
    && t.id == id && t.startedAt == at
    && (t.status == TurnStopped <==> Stopped(decode, lines, i, id, at))
    && (if t.status == TurnStopped then LatestEnd(decode, lines, i, id, at, t.observedAt)
        else LatestHeard(decode, lines, i, at, t.observedAt))
  }

  // ----- one line more -----

  /** The turn so far is no younger than the line that would start the next. */
  lemma EarlierTurn(decode: Decoder, init: seq<seq<Byte>>, id: string, at: Instant, line: seq<Byte>)
    requires Leads(decode, init + [line], |init|, id, at) && FoldLines(decode, init).turn.Some?
    ensures FoldLines(decode, init).turn.value.startedAt <= at
  {
    var lines := init + [line];
    var t := FoldLines(decode, init).turn.value;
    var i, j := TurnWitness(decode, init);
    forall m | i < m < |init| ensures OpensNone(decode, lines[m]) {
      assert LeavesTurn(decode, init[m], t.startedAt);
    }
    assert lines[i] == init[i] && SameSession(decode, lines, i, |init|);
  }

  lemma TurnBegins(decode: Decoder, init: seq<seq<Byte>>, id: string, at: Instant, line: seq<Byte>)
    requires Leads(decode, init + [line], |init|, id, at)
    ensures FoldLines(decode, init + [line]).turn == Some(Turn(id, at, at, TurnWorking))
    ensures TurnOf(decode, init + [line], |init|, id, at, Turn(id, at, at, TurnWorking))
  {
    var lines := init + [line];
    assert lines[..|init|] == init;
    if FoldLines(decode, init).turn.Some? {
      EarlierTurn(decode, init, id, at, line);
    }
  }

  lemma CountsEarlier(decode: Decoder, init: seq<seq<Byte>>, line: seq<Byte>, i: nat, id: string, at: Instant)
    ensures forall j: nat, x :: j < |init| ==>
              (EndCounts(decode, init + [line], i, id, at, j, x) <==> EndCounts(decode, init, i, id, at, j, x))
  {
    var lines := init + [line];
    assert forall h :: 0 <= h < |init| ==> lines[h] == init[h];
  }

  /** A line that neither ends this turn nor counts for it leaves it as it was. */
  lemma TurnUnmoved(decode: Decoder, init: seq<seq<Byte>>, line: seq<Byte>, i: nat, id: string, at: Instant, t: Turn)
    requires i < |init| && TurnOf(decode, init, i, id, at, t)
    requires forall x :: !Ends(decode, line, id, x)
    requires t.status == TurnWorking ==> forall y :: Responds(decode, line, y) ==> y <= t.observedAt
    ensures TurnOf(decode, init + [line], i, id, at, t)
  {
    var lines := init + [line];
    CountsEarlier(decode, init, line, i, id, at);
    assert forall h :: 0 <= h < |init| ==> lines[h] == init[h];
    StoppedAgain(decode, init, line, i, id, at);
    if t.status == TurnStopped {
      LatestEndStays(decode, init, line, i, id, at, t.observedAt);
    }
  }

  lemma StoppedAgain(decode: Decoder, init: seq<seq<Byte>>, line: seq<Byte>, i: nat, id: string, at: Instant)
    ensures Stopped(decode, init + [line], i, id, at)
            <==> Stopped(decode, init, i, id, at) || exists x :: EndCounts(decode, init + [line], i, id, at, |init|, x)
  {
    CountsEarlier(decode, init, line, i, id, at);
    if Stopped(decode, init, i, id, at) {
      var j: nat, x :| EndCounts(decode, init, i, id, at, j, x);
      assert EndCounts(decode, init + [line], i, id, at, j, x);
    }
    if Stopped(decode, init + [line], i, id, at) {
      var j: nat, x :| EndCounts(decode, init + [line], i, id, at, j, x);
      assert j < |init| ==> EndCounts(decode, init, i, id, at, j, x);
    }
  }

  /** The latest end stays the latest unless the line ends the turn later. */
  lemma LatestEndStays(decode: Decoder, init: seq<seq<Byte>>, line: seq<Byte>, i: nat, id: string, at: Instant,
                       o: Instant)
    requires LatestEnd(decode, init, i, id, at, o) && forall x :: Ends(decode, line, id, x) ==> x <= o
    ensures LatestEnd(decode, init + [line], i, id, at, o)
  {
    var lines := init + [line];
    CountsEarlier(decode, init, line, i, id, at);
    var j: nat, x :| EndCounts(decode, init, i, id, at, j, x) && NoneCountsBefore(decode, init, i, id, at, j)
                     && LatestFrom(decode, init, id, j, o);
    assert forall h :: 0 <= h < |init| ==> lines[h] == init[h];
    assert EndCounts(decode, lines, i, id, at, j, x);
    assert NoneCountsBefore(decode, lines, i, id, at, j);
    assert LatestFrom(decode, lines, id, j, o);
  }

  /** A response heard later than anything before moves a working turn. */
  lemma TurnHeard(decode: Decoder, init: seq<seq<Byte>>, line: seq<Byte>, i: nat, id: string, at: Instant, t: Turn,
                  y: Instant)
    requires i < |init| && TurnOf(decode, init, i, id, at, t) && t.status == TurnWorking
    requires Responds(decode, line, y) && y > t.observedAt
    requires FoldLines(decode, init).turn == Some(t)
    ensures FoldLines(decode, init + [line]).turn == Some(t.(observedAt := y))
    ensures TurnOf(decode, init + [line], i, id, at, t.(observedAt := y))
  {
    var lines := init + [line];
    assert lines[..|init|] == init;
    CountsEarlier(decode, init, line, i, id, at);
    StoppedAgain(decode, init, line, i, id, at);
    assert forall h :: 0 <= h < |init| ==> lines[h] == init[h];
    assert Responds(decode, lines[|init|], y);
  }

  /** An end at or after everything observed stops the turn then. */
  lemma TurnEnds(decode: Decoder, init: seq<seq<Byte>>, line: seq<Byte>, i: nat, id: string, at: Instant, t: Turn,
                 x: Instant)
    requires i < |init| && TurnOf(decode, init, i, id, at, t) && Ends(decode, line, id, x) && x >= t.observedAt
    requires FoldLines(decode, init).turn == Some(t)
    ensures FoldLines(decode, init + [line]).turn == Some(Turn(id, at, x, TurnStopped))
    ensures TurnOf(decode, init + [line], i, id, at, Turn(id, at, x, TurnStopped))
  {
    var lines := init + [line];
    assert lines[..|init|] == init;
    CountsEarlier(decode, init, line, i, id, at);
    StoppedAgain(decode, init, line, i, id, at);
    assert forall h :: 0 <= h < |init| ==> lines[h] == init[h];
    assert Ends(decode, lines[|init|], id, x);
    if t.status == TurnWorking {
      assert EndCounts(decode, lines, i, id, at, |init|, x);
      assert NoneCountsBefore(decode, lines, i, id, at, |init|);
      assert LatestFrom(decode, lines, id, |init|, x);
    } else {
      var j: nat, z :| EndCounts(decode, init, i, id, at, j, z) && NoneCountsBefore(decode, init, i, id, at, j)
                       && LatestFrom(decode, init, id, j, t.observedAt);
      assert EndCounts(decode, lines, i, id, at, j, z);
      assert NoneCountsBefore(decode, lines, i, id, at, j);
      assert LatestFrom(decode, lines, id, j, x);
    }
  }

  /** An end before something already observed does not count. */
  lemma TurnOutlives(decode: Decoder, init: seq<seq<Byte>>, line: seq<Byte>, i: nat, id: string, at: Instant, t: Turn,
                     x: Instant)
    requires i < |init| && TurnOf(decode, init, i, id, at, t) && Ends(decode, line, id, x) && x < t.observedAt
    requires FoldLines(decode, init).turn == Some(t)
    ensures FoldLines(decode, init + [line]).turn == Some(t)
    ensures TurnOf(decode, init + [line], i, id, at, t)
  {
    var lines := init + [line];
    assert lines[..|init|] == init;
    CountsEarlier(decode, init, line, i, id, at);
    StoppedAgain(decode, init, line, i, id, at);
    assert forall h :: 0 <= h < |init| ==> lines[h] == init[h];
    if t.status == TurnStopped {
      LatestEndStays(decode, init, line, i, id, at, t.observedAt);
    } else {
      assert !EndCounts(decode, lines, i, id, at, |init|, x);
    }
  }

  /** Any line that leaves the turn in place keeps the account of it right. */
  lemma TurnMoves(decode: Decoder, init: seq<seq<Byte>>, line: seq<Byte>, i: nat, id: string, at: Instant, t: Turn)
    requires i < |init| && TurnOf(decode, init, i, id, at, t) && LeavesTurn(decode, line, at)
    requires FoldLines(decode, init).turn == Some(t)
    ensures FoldLines(decode, init + [line]).turn.Some?
    ensures TurnOf(decode, init + [line], i, id, at, FoldLines(decode, init + [line]).turn.value)
  {
    if y :| Responds(decode, line, y) && t.status == TurnWorking && y > t.observedAt {
      TurnHeard(decode, init, line, i, id, at, t, y);
    } else if x :| Ends(decode, line, id, x) && x >= t.observedAt {
      TurnEnds(decode, init, line, i, id, at, t, x);
    } else if x :| Ends(decode, line, id, x) {
      TurnOutlives(decode, init, line, i, id, at, t, x);
    } else {
      TurnUnmoved(decode, init, line, i, id, at, t);
      LineInert(decode, init, line, id, t);
    }
  }

  /** A line that is no start from its own time on, no later response and no end of the turn changes nothing. */
  lemma LineInert(decode: Decoder, init: seq<seq<Byte>>, line: seq<Byte>, id: string, t: Turn)
    requires FoldLines(decode, init).turn == Some(t) && t.id == id && LeavesTurn(decode, line, t.startedAt)
    requires forall x :: !Ends(decode, line, id, x)
    requires forall y :: Responds(decode, line, y) ==> t.status == TurnStopped || y <= t.observedAt
    ensures FoldLines(decode, init + [line]).turn == Some(t)
  {
    assert (init + [line])[..|init|] == init;
    if |line| <= MAX_LINE_BYTES && decode(line).Some? {
      match decode(line).value
      case SessionMeta(session) => assert Says(decode, line, SessionMeta(session));
      case ResponseItem(Some(y)) => assert Responds(decode, line, y);
      case EventMsg(TaskStarted, Some(other), Some(since)) => assert StartsTurn(decode, line, other, since);
      case EventMsg(TaskEnded, Some(other), Some(x)) => assert other == id ==> Ends(decode, line, id, x);
      case _ =>
    }
  }

  // ----- the whole rollout -----

  /** The turn a rollout reports is the leading one, as its own lines leave it. */
  lemma {:induction false} TurnFolded(decode: Decoder, lines: seq<seq<Byte>>, i: nat, id: string, at: Instant)
    requires Leads(decode, lines, i, id, at)
    ensures FoldLines(decode, lines).turn.Some?
    ensures TurnOf(decode, lines, i, id, at, FoldLines(decode, lines).turn.value)
  {
    var init, line := lines[..|lines| - 1], lines[|lines| - 1];
    assert lines == init + [line];
    if i == |init| {
      TurnBegins(decode, init, id, at, line);
    } else {
      LeadsShorter(decode, init, line, i, id, at);
      TurnFolded(decode, init, i, id, at);
      TurnMoves(decode, init, line, i, id, at, FoldLines(decode, init).turn.value);
    }
  }

  lemma LeadsShorter(decode: Decoder, init: seq<seq<Byte>>, line: seq<Byte>, i: nat, id: string, at: Instant)
    requires Leads(decode, init + [line], i, id, at) && i < |init|
    ensures Leads(decode, init, i, id, at) && LeavesTurn(decode, line, at)
  {
    var lines := init + [line];
    assert lines[|init|] == line;
    assert forall h :: 0 <= h < |init| ==> lines[h] == init[h];
    forall h | 0 <= h < i && SameSession(decode, init, h, i) ensures SameSession(decode, lines, h, i) {
    }
  }

  /** Line `h` starts a turn of the last session. */
  ghost predicate Begun(decode: Decoder, lines: seq<seq<Byte>>, h: nat, id: string, at: Instant) {
    h < |lines| && StartsTurn(decode, lines[h], id, at) && OneSession(decode, lines, h + 1)
  }

  ghost predicate AnyBegun(decode: Decoder, lines: seq<seq<Byte>>) {
    exists h: nat, id, at :: Begun(decode, lines, h, id, at)
  }

  /** Among the turns of the last session one leads. */
  lemma {:induction false} LeadFound(decode: Decoder, lines: seq<seq<Byte>>) returns (i: nat, id: string, at: Instant)
    requires AnyBegun(decode, lines)
    ensures Leads(decode, lines, i, id, at)
  {
    var init, line := lines[..|lines| - 1], lines[|lines| - 1];
    assert lines == init + [line];
    BegunEarlier(decode, init, line);
    if !AnyBegun(decode, init) || !OpensNone(decode, line) {
      i := |init|;
      id, at :| StartsTurn(decode, line, id, at);
      FirstLeads(decode, init, line, id, at);
    } else {
      i, id, at := LeadFound(decode, init);
      if other, since :| StartsTurn(decode, line, other, since) && since >= at {
        NextLeads(decode, init, line, i, id, at, other, since);
        i, id, at := |init|, other, since;
      } else {
        StillLeads(decode, init, line, i, id, at);
      }
    }
  }

  lemma BegunEarlier(decode: Decoder, init: seq<seq<Byte>>, line: seq<Byte>)
    ensures AnyBegun(decode, init + [line])
            <==> (exists id, at :: StartsTurn(decode, line, id, at))
                 || (AnyBegun(decode, init) && OpensNone(decode, line))
  {
    var lines := init + [line];
    assert forall h :: 0 <= h < |init| ==> lines[h] == init[h];
    if AnyBegun(decode, lines) {
      var h: nat, id, at :| Begun(decode, lines, h, id, at);
      if h < |init| {
        SessionShorter(decode, lines, h + 1);
        assert lines[..|init|] == init;
        assert Begun(decode, init, h, id, at);
      }
    }
    if AnyBegun(decode, init) && OpensNone(decode, line) {
      var h: nat, id, at :| Begun(decode, init, h, id, at);
      assert Begun(decode, lines, h, id, at);
    }
    if id, at :| StartsTurn(decode, line, id, at) {
      assert Begun(decode, lines, |init|, id, at);
    }
  }

  /** With no turn begun before it in its session, a start leads. */
  lemma FirstLeads(decode: Decoder, init: seq<seq<Byte>>, line: seq<Byte>, id: string, at: Instant)
    requires StartsTurn(decode, line, id, at) && !AnyBegun(decode, init)
    ensures Leads(decode, init + [line], |init|, id, at)
  {
    var lines := init + [line];
    forall h, other, since | 0 <= h < |init| && StartsTurn(decode, lines[h], other, since)
      ensures !SameSession(decode, lines, h, |init|)
    {
      if SameSession(decode, lines, h, |init|) {
        assert forall m :: h < m < |init| ==> lines[m] == init[m];
        assert Begun(decode, init, h, other, since);
      }
    }
  }

  lemma NextLeads(decode: Decoder, init: seq<seq<Byte>>, line: seq<Byte>, i: nat, id: string, at: Instant,
                  other: string, since: Instant)
    requires Leads(decode, init, i, id, at) && StartsTurn(decode, line, other, since) && since >= at
    ensures Leads(decode, init + [line], |init|, other, since)
  {
    var lines := init + [line];
    forall h, third, begun | 0 <= h < |init| && StartsTurn(decode, lines[h], third, begun)
                             && SameSession(decode, lines, h, |init|)
      ensures begun <= since
    {
      assert lines[h] == init[h];
      if h < i {
        assert forall m :: h < m < i ==> lines[m] == init[m];
        assert SameSession(decode, init, h, i);
      }
    }
  }

  lemma StillLeads(decode: Decoder, init: seq<seq<Byte>>, line: seq<Byte>, i: nat, id: string, at: Instant)
    requires Leads(decode, init, i, id, at) && OpensNone(decode, line)
    requires forall other, since :: StartsTurn(decode, line, other, since) ==> since < at
    ensures Leads(decode, init + [line], i, id, at)
  {
    var lines := init + [line];
    assert forall h :: 0 <= h < |init| ==> lines[h] == init[h];
    assert forall session :: Opens(decode, line, session) <==> Says(decode, line, SessionMeta(session));
    forall h | 0 <= h < i && SameSession(decode, lines, h, i) ensures SameSession(decode, init, h, i) {
    }
  }

  /** A rollout has a turn exactly when its last session has started one. */
  lemma TurnKnownExactly(decode: Decoder, lines: seq<seq<Byte>>)
    ensures FoldLines(decode, lines).turn.Some? <==> AnyBegun(decode, lines)
  {
    if AnyBegun(decode, lines) {
      var i, id, at := LeadFound(decode, lines);
      TurnFolded(decode, lines, i, id, at);
    }
    if FoldLines(decode, lines).turn.Some? {
      var t := FoldLines(decode, lines).turn.value;
      var i, j := TurnWitness(decode, lines);
      forall h | i < h < |lines| ensures OpensNone(decode, lines[h]) {
        assert LeavesTurn(decode, lines[h], t.startedAt);
      }
      assert Begun(decode, lines, i, t.id, t.startedAt);
    }
  }
}
