/** The bounded, chunked, resumable rollout reader, and the plain fold over lines it must agree with. */
module Rollout {
  import opened Common
  import opened RegistrySpec

  type Byte = b: int | 0 <= b < 256

  const LINE_FEED: Byte := 10
  const READ_BUDGET: nat := 4 * 1024 * 1024
  const MAX_LINE_BYTES: nat := 1024 * 1024
  const CHUNK_BYTES: nat := 64 * 1024

  // ----- records -----

  datatype TurnEvent = TaskStarted | TaskEnded | OtherEvent

  /** A decoded line, with its identifiers bounded and its instants canonical. */
  datatype Record =
    | SessionMeta(id: Option<string>)
    | ResponseItem(at: Option<Instant>)
    | EventMsg(event: TurnEvent, turnId: Option<string>, at: Option<Instant>)
    | Unrelated

  /** What one rollout says so far. */
  datatype TurnFacts = TurnFacts(sessionId: Option<string>, turn: Option<Turn>)

  /** A line that does not parse decodes to nothing. */
  type Decoder = seq<Byte> -> Option<Record>

  function ConsumeEvent(turn: Option<Turn>, event: TurnEvent, id: string, at: Instant): Option<Turn> {
    match event
    case TaskStarted =>
      if turn.None? || at >= turn.value.startedAt then Some(Turn(id, at, at, TurnWorking)) else turn
    case TaskEnded =>
      if turn.Some? && turn.value.id == id && at >= turn.value.observedAt
      then Some(turn.value.(observedAt := at, status := TurnStopped)) else turn
    case OtherEvent => turn
  }

  function ConsumeLine(f: TurnFacts, record: Option<Record>): TurnFacts {
    match record
    case Some(SessionMeta(id)) => TurnFacts(id, None)
    case Some(ResponseItem(Some(at))) =>
      if f.turn.Some? && f.turn.value.status == TurnWorking && at > f.turn.value.observedAt
      then f.(turn := Some(f.turn.value.(observedAt := at))) else f
    case Some(EventMsg(event, Some(id), Some(at))) => f.(turn := ConsumeEvent(f.turn, event, id, at))
    case _ => f
  }

  // ----- the reference: split, then fold -----

  datatype Lines = Lines(complete: seq<seq<Byte>>, rest: seq<Byte>)

  /** The complete lines of a text and its unfinished tail. */
  ghost function Split(s: seq<Byte>): Lines {
    if s == [] then Lines([], [])
    else
      var before := Split(s[..|s| - 1]);
      if s[|s| - 1] == LINE_FEED then Lines(before.complete + [before.rest], [])
      else Lines(before.complete, before.rest + [s[|s| - 1]])
  }

  /** Fold the lines, passing over those longer than the cap. */
  ghost function FoldLines(decode: Decoder, lines: seq<seq<Byte>>): TurnFacts {
    if lines == [] then TurnFacts(None, None)
    else
      var f := FoldLines(decode, lines[..|lines| - 1]);
      var line := lines[|lines| - 1];
      if |line| <= MAX_LINE_BYTES then ConsumeLine(f, decode(line)) else f
  }

  /** The facts of everything complete in a text. */
  ghost function FactsOf(decode: Decoder, s: seq<Byte>): TurnFacts {
    FoldLines(decode, Split(s).complete)
  }

  ghost function Terminated(lines: seq<seq<Byte>>): seq<Byte> {
    if lines == [] then [] else Terminated(lines[..|lines| - 1]) + lines[|lines| - 1] + [LINE_FEED]
  }

  /** Splitting loses nothing, and no line holds a line feed. */
  lemma {:induction false} SplitExact(s: seq<Byte>)
    ensures Terminated(Split(s).complete) + Split(s).rest == s
    ensures forall i :: 0 <= i < |Split(s).complete| ==> LINE_FEED !in Split(s).complete[i]
    ensures LINE_FEED !in Split(s).rest
  {
    if s != [] {
      var init := s[..|s| - 1];
      SplitExact(init);
      assert s == init + [s[|s| - 1]];
      var before := Split(init);
      if s[|s| - 1] == LINE_FEED {
        assert Split(s).complete[..|before.complete|] == before.complete;
      }
    }
  }

  /** More text without a line feed only lengthens the tail. */
  lemma {:induction false} SplitTail(s: seq<Byte>, t: seq<Byte>)
    requires LINE_FEED !in t
    ensures Split(s + t) == Lines(Split(s).complete, Split(s).rest + t)
  {
    if t == [] {
      assert s + t == s && Split(s).rest + t == Split(s).rest;
    } else {
      var init := t[..|t| - 1];
      assert (s + t)[..|s + t| - 1] == s + init;
      assert t == init + [t[|t| - 1]];
      assert t[|t| - 1] in t;
      SplitTail(s, init);
      assert Split(s).rest + t == Split(s).rest + init + [t[|t| - 1]];
    }
  }

  lemma SplitLine(s: seq<Byte>, t: seq<Byte>)
    requires LINE_FEED !in t
    ensures Split(s + t + [LINE_FEED]) == Lines(Split(s).complete + [Split(s).rest + t], [])
  {
    SplitTail(s, t);
    assert (s + t + [LINE_FEED])[..|s + t|] == s + t;
  }

  /** The text up to the last line start is all complete lines. */
  lemma {:induction false} SplitStart(s: seq<Byte>)
    ensures |Split(s).rest| <= |s|
    ensures Split(s[..|s| - |Split(s).rest|]) == Lines(Split(s).complete, [])
  {
    if s != [] {
      var init := s[..|s| - 1];
      SplitStart(init);
      if s[|s| - 1] == LINE_FEED {
        assert s[..|s|] == s;
      } else {
        var n := |init| - |Split(init).rest|;
        assert s[..n] == init[..n];
      }
    }
  }

  // ----- the reader's state -----

  /** How far a rollout has been accounted for. */
  datatype Progress = Progress(offset: nat, skippingLine: bool, facts: TurnFacts)

  datatype FileStamp = FileStamp(inode: int, device: int, size: nat, mtimeMs: int)

  datatype RolloutState = RolloutState(stamp: FileStamp, progress: Progress)

  ghost predicate Accounted(decode: Decoder, text: seq<Byte>, p: Progress) {
    && p.offset <= |text|
    && var lines := Split(text[..p.offset]);
       p.facts == FoldLines(decode, lines.complete)
       && (if p.skippingLine then |lines.rest| > MAX_LINE_BYTES else lines.rest == [])
  }

  function Concat(parts: seq<seq<Byte>>): seq<Byte> {
    if parts == [] then [] else Concat(parts[..|parts| - 1]) + parts[|parts| - 1]
  }

  /** The pass's working state: progress, and the line in progress unless it is already too long. */
  datatype Scan = Scan(progress: Progress, lineBytes: nat, parts: seq<seq<Byte>>)

  /** The scan has seen the text up to `at`: the facts of its complete lines and its unfinished tail. */
  ghost predicate Scanning(decode: Decoder, text: seq<Byte>, at: nat, sc: Scan) {
    && at <= |text| && sc.progress.offset <= at
    && sc.progress.facts == FactsOf(decode, text[..at])
    && Tail(Split(text[..at]).rest, at, sc)
  }

  ghost predicate Tail(rest: seq<Byte>, at: nat, sc: Scan) {
    && (sc.progress.skippingLine <==> sc.lineBytes > MAX_LINE_BYTES)
    && (sc.progress.skippingLine <==> |rest| > MAX_LINE_BYTES)
    && (if sc.progress.skippingLine then sc.progress.offset == at
        else sc.lineBytes == |rest| && Concat(sc.parts) == rest && sc.progress.offset + sc.lineBytes == at)
  }

  function StartScan(p: Progress): Scan {
    Scan(p, if p.skippingLine then MAX_LINE_BYTES + 1 else 0, [])
  }

  lemma BeginScan(decode: Decoder, text: seq<Byte>, p: Progress)
    requires Accounted(decode, text, p)
    ensures Scanning(decode, text, p.offset, StartScan(p))
  {
  }

  lemma EndScan(decode: Decoder, text: seq<Byte>, at: nat, sc: Scan)
    requires Scanning(decode, text, at, sc)
    ensures Accounted(decode, text, sc.progress) && at - sc.progress.offset <= MAX_LINE_BYTES
    ensures !sc.progress.skippingLine && sc.progress.offset == at <==> Split(text[..at]).rest == []
  {
    SplitStart(text[..at]);
    if !sc.progress.skippingLine {
      assert text[..at][..sc.progress.offset] == text[..sc.progress.offset];
    }
  }

  /** Facts about a text are facts about any text that extends it. */
  lemma AccountedGrows(decode: Decoder, text: seq<Byte>, more: seq<Byte>, p: Progress)
    requires Accounted(decode, text, p) && text <= more
    ensures Accounted(decode, more, p)
  {
    assert more[..p.offset] == text[..p.offset];
  }

  // ----- one chunk -----

  /** The line in progress ends at the line feed at `at`. */
  method FinishLine(decode: Decoder, ghost text: seq<Byte>, ghost from: nat, at: nat, before: Scan, piece: seq<Byte>)
    returns (sc: Scan)
    requires Scanning(decode, text, from, before) && from <= at < |text|
    requires piece == text[from..at] && LINE_FEED !in piece && text[at] == LINE_FEED
    ensures Scanning(decode, text, at + 1, sc) && sc.progress.offset == at + 1
  {
    LineEnds(decode, text, from, at);
    PartsEnd(before.parts, piece);
    var facts := before.progress.facts;
    if before.lineBytes + |piece| <= MAX_LINE_BYTES {
      facts := ConsumeLine(facts, decode(Concat(before.parts + [piece])));
    }
    sc := Scan(Progress(at + 1, false, facts), 0, []);
  }

  lemma LineEnds(decode: Decoder, text: seq<Byte>, from: nat, at: nat)
    requires from <= at < |text| && LINE_FEED !in text[from..at] && text[at] == LINE_FEED
    ensures Split(text[..at + 1]).rest == []
    ensures var line := Split(text[..from]).rest + text[from..at];
            var f := FactsOf(decode, text[..from]);
            FactsOf(decode, text[..at + 1]) == if |line| <= MAX_LINE_BYTES then ConsumeLine(f, decode(line)) else f
  {
    var s, t := text[..from], text[from..at];
    SplitLine(s, t);
    assert text[..at + 1] == s + t + [LINE_FEED];
    var lines := Split(s).complete + [Split(s).rest + t];
    assert lines[..|lines| - 1] == Split(s).complete;
  }

  lemma PartsEnd(parts: seq<seq<Byte>>, piece: seq<Byte>)
    ensures Concat(parts + [piece]) == Concat(parts) + piece
  {
    assert (parts + [piece])[..|parts|] == parts;
  }

  /** The chunk runs out inside a line. */
  method CarryLine(decode: Decoder, ghost text: seq<Byte>, ghost from: nat, at: nat, before: Scan, piece: seq<Byte>)
    returns (sc: Scan)
    requires Scanning(decode, text, from, before) && from <= at <= |text|
    requires piece == text[from..at] && LINE_FEED !in piece
    ensures Scanning(decode, text, at, sc) && sc.progress.offset >= before.progress.offset
  {
    SplitTail(text[..from], piece);
    assert text[..at] == text[..from] + piece;
    PartsEnd(before.parts, piece);
    var lineBytes := before.lineBytes + |piece|;
    if lineBytes <= MAX_LINE_BYTES {
      sc := Scan(before.progress, lineBytes, before.parts + [piece]);
    } else {
      sc := Scan(Progress(at, true, before.progress.facts), lineBytes, []);
    }
  }

  lemma SliceOf(text: seq<Byte>, position: nat, chunk: seq<Byte>, i: nat, j: nat)
    requires ChunkAt(text, position, chunk) && i <= j <= |chunk|
    ensures text[position + i..position + j] == chunk[i..j]
    ensures j < |chunk| ==> text[position + j] == chunk[j]
  {
    var a, b := text[position + i..position + j], chunk[i..j];
    forall k | 0 <= k < |b| ensures a[k] == b[k] {
      assert chunk[i + k] == text[position..position + |chunk|][i + k];
    }
    assert j < |chunk| ==> text[position..position + |chunk|][j] == text[position + j];
  }

  /** Where a chunk sits in the text. */
  ghost predicate ChunkAt(text: seq<Byte>, position: nat, chunk: seq<Byte>) {
    position + |chunk| <= |text| && text[position..position + |chunk|] == chunk
  }

  method FinishInChunk(decode: Decoder, ghost text: seq<Byte>, position: nat, chunk: seq<Byte>, start: nat, i: nat,
                       before: Scan)
    returns (sc: Scan)
    requires ChunkAt(text, position, chunk)
    requires start <= i < |chunk| && chunk[i] == LINE_FEED && LINE_FEED !in chunk[start..i]
    requires Scanning(decode, text, position + start, before)
    ensures Scanning(decode, text, position + i + 1, sc) && sc.progress.offset == position + i + 1
  {
    SliceOf(text, position, chunk, start, i);
    sc := FinishLine(decode, text, position + start, position + i, before, chunk[start..i]);
  }

  /** Take in a chunk's lines: finish every line that ends in it, and say where the last one starts. */
  method ScanLines(decode: Decoder, ghost text: seq<Byte>, position: nat, chunk: seq<Byte>, before: Scan)
    returns (sc: Scan, start: nat)
    requires ChunkAt(text, position, chunk) && Scanning(decode, text, position, before)
    ensures start <= |chunk| && Scanning(decode, text, position + start, sc) && LINE_FEED !in chunk[start..|chunk|]
    ensures sc.progress.offset >= before.progress.offset
  {
    sc, start := before, 0;
    for i := 0 to |chunk|
      invariant start <= i && Scanning(decode, text, position + start, sc) && LINE_FEED !in chunk[start..i]
      invariant sc.progress.offset >= before.progress.offset
    {
      if chunk[i] == LINE_FEED {
        sc := FinishInChunk(decode, text, position, chunk, start, i, sc);
        start := i + 1;
      }
    }
  }

  /** Take in one chunk: its lines, then the beginning of the next. */
  method ScanChunk(decode: Decoder, ghost text: seq<Byte>, position: nat, chunk: seq<Byte>, before: Scan)
    returns (sc: Scan)
    requires ChunkAt(text, position, chunk) && Scanning(decode, text, position, before)
    ensures Scanning(decode, text, position + |chunk|, sc) && sc.progress.offset >= before.progress.offset
  {
    var start;
    sc, start := ScanLines(decode, text, position, chunk, before);
    SliceOf(text, position, chunk, start, |chunk|);
    sc := CarryLine(decode, text, position + start, position + |chunk|, sc, chunk[start..|chunk|]);
  }

  // ----- one pass -----

  /**
   * What a pass meets: the file's stamp and text, the byte counts its reads return (`None` throws), and the stamp
   * afterwards.
   */
  datatype Pass = Pass(stat: FileStamp, text: seq<Byte>, sizes: nat -> Option<nat>, after: Option<FileStamp>)

  function Min(a: nat, b: nat): nat {
    if a <= b then a else b
  }

  /** Where a pass that starts at `offset` stops. */
  function PassEnd(text: seq<Byte>, offset: nat): nat {
    Min(|text|, offset + READ_BUDGET)
  }

  /** No read throws or comes back empty. */
  ghost predicate ReadsFlow(sizes: nat -> Option<nat>) {
    forall n :: sizes(n).Some? && sizes(n).value > 0
  }

  method ReadPass(decode: Decoder, text: seq<Byte>, sizes: nat -> Option<nat>, p0: Progress)
    returns (ok: bool, p: Progress)
    requires Accounted(decode, text, p0)
    ensures ok ==> Accounted(decode, text, p) && p.offset >= p0.offset
    ensures ok && !p.skippingLine && p.offset == |text| ==> p.facts == FactsOf(decode, text) && Split(text).rest == []
    ensures ReadsFlow(sizes) ==> ok && p.offset + MAX_LINE_BYTES >= PassEnd(text, p0.offset)
    ensures ReadsFlow(sizes) && PassEnd(text, p0.offset) == |text| && Split(text).rest == [] ==>
              p.offset == |text| && !p.skippingLine
  {
    var position := p0.offset;
    var end := PassEnd(text, position);
    var sc := StartScan(p0);
    BeginScan(decode, text, p0);
    var step := 0;
    while position < end
      invariant p0.offset <= position <= end && sc.progress.offset >= p0.offset
      invariant Scanning(decode, text, position, sc)
      decreases end - position
    {
      var read := sizes(step);
      if read.None? {
        return false, p0;
      }
      var bytesRead := Min(read.value, Min(CHUNK_BYTES, end - position));
      if bytesRead == 0 {
        break;
      }
      sc := ScanChunk(decode, text, position, text[position..position + bytesRead], sc);
      position := position + bytesRead;
      step := step + 1;
    }
    EndScan(decode, text, position, sc);
    TakeAll(text);
    ok, p := true, sc.progress;
  }

  /** A cached rollout is resumed only for the same file, not shorter, and unchanged when it is no longer. */
  predicate Resumes(previous: FileStamp, stat: FileStamp) {
    && previous.inode == stat.inode && previous.device == stat.device && stat.size >= previous.size
    && (stat.size != previous.size || stat.mtimeMs == previous.mtimeMs)
  }

  class RolloutReader {
    const decode: Decoder
    var cache: map<string, RolloutState>
    /** The text of each cached rollout when it was last read. */
    ghost var seen: map<string, seq<Byte>>

    ghost predicate Valid()
      reads this
    {
      && cache.Keys == seen.Keys
      && forall path :: path in cache ==>
           cache[path].stamp.size == |seen[path]| && Accounted(decode, seen[path], cache[path].progress)
    }

    constructor (decode: Decoder)
      ensures Valid() && this.decode == decode && cache == map[]
    {
      this.decode := decode;
      cache, seen := map[], map[];
    }

    /** Another file, a shorter one, or one rewritten in place is read from the beginning. */
    function StartOf(path: string, stat: FileStamp): (p: Progress)
      reads this
      ensures (path in cache && p == cache[path].progress) || p == Progress(0, false, TurnFacts(None, None))
      ensures path in cache && (cache[path].stamp.inode != stat.inode || cache[path].stamp.device != stat.device
                || stat.size < cache[path].stamp.size
                || (stat.size == cache[path].stamp.size && stat.mtimeMs != cache[path].stamp.mtimeMs)) ==>
                p == Progress(0, false, TurnFacts(None, None))
    {
      if path in cache && Resumes(cache[path].stamp, stat) then cache[path].progress
      else Progress(0, false, TurnFacts(None, None))
    }

    /** Files only grow: what a resumed rollout showed before is still where it was. */
    ghost predicate AppendOnly(path: string, pass: Pass)
      requires Valid()
      reads this
    {
      path in cache && Resumes(cache[path].stamp, pass.stat) ==> seen[path] <= pass.text
    }

    method Forget(path: string)
      requires Valid()
      modifies this
      ensures Valid() && cache == old(cache) - {path}
    {
      cache := cache - {path};
      seen := seen - {path};
    }

    method Remember(path: string, state: RolloutState, ghost text: seq<Byte>)
      requires Valid() && state.stamp.size == |text| && Accounted(decode, text, state.progress)
      modifies this
      ensures Valid() && cache == old(cache)[path := state] && seen == old(seen)[path := text]
    {
      cache := cache[path := state];
      seen := seen[path := text];
    }

    /**
     * One budgeted pass over one rollout. A turn is reported only when the
     * whole text is accounted for, and then it is the reference fold's turn.
     */
    method ReadTurn(path: string, sessionId: string, file: Option<Pass>) returns (turn: Option<Turn>)
      requires Valid()
      requires file.Some? ==> file.value.stat.size == |file.value.text| && AppendOnly(path, file.value)
      modifies this
      ensures Valid() && cache - {path} == old(cache) - {path}
      ensures turn.Some? ==>
                file.Some? && Split(file.value.text).rest == []
                && FactsOf(decode, file.value.text) == TurnFacts(Some(sessionId), turn)
                && file.value.after.Some? && file.value.after.value.size == |file.value.text|
                && file.value.after.value.mtimeMs == file.value.stat.mtimeMs
      ensures path in cache ==> file.Some? && cache[path].stamp == file.value.stat && seen[path] == file.value.text
      ensures path in cache ==> cache[path].progress.offset >= old(StartOf(path, file.value.stat)).offset
      ensures file.Some? && ReadsFlow(file.value.sizes) && file.value.after.Some? ==>
                path in cache && PassEnd(file.value.text, old(StartOf(path, file.value.stat)).offset)
                                 <= cache[path].progress.offset + MAX_LINE_BYTES
      ensures file.Some? && ReadsFlow(file.value.sizes) && file.value.after == Some(file.value.stat)
              && PassEnd(file.value.text, old(StartOf(path, file.value.stat)).offset) == |file.value.text|
              && Split(file.value.text).rest == [] && FactsOf(decode, file.value.text).sessionId == Some(sessionId) ==>
                turn == FactsOf(decode, file.value.text).turn
    {
      if file.None? {
        Forget(path);
        return None;
      }
      var pass := file.value;
      var start := StartOf(path, pass.stat);
      StartAccounted(path, pass);
      var ok, p := ReadPass(decode, pass.text, pass.sizes, start);
      if !ok || pass.after.None? {
        Forget(path);
        return None;
      }
      Remember(path, RolloutState(pass.stat, p), pass.text);
      turn := Report(pass, p, sessionId);
    }

    lemma StartAccounted(path: string, pass: Pass)
      requires Valid() && AppendOnly(path, pass)
      ensures Accounted(decode, pass.text, StartOf(path, pass.stat))
    {
      if path in cache && Resumes(cache[path].stamp, pass.stat) {
        AccountedGrows(decode, seen[path], pass.text, cache[path].progress);
      }
    }
  }

  /** A rollout still being read, growing, or of another session asserts nothing. */
  function Report(pass: Pass, p: Progress, sessionId: string): Option<Turn> {
    if p.skippingLine || p.offset != pass.stat.size || pass.after.None? || pass.after.value.size != pass.stat.size
       || pass.after.value.mtimeMs != pass.stat.mtimeMs || p.facts.sessionId != Some(sessionId)
    then None else p.facts.turn
  }

  // ----- what the fold means -----

  ghost predicate Says(decode: Decoder, line: seq<Byte>, record: Record) {
    |line| <= MAX_LINE_BYTES && decode(line) == Some(record)
  }

  ghost predicate StartsTurn(decode: Decoder, line: seq<Byte>, id: string, at: Instant) {
    Says(decode, line, EventMsg(TaskStarted, Some(id), Some(at)))
  }

  /** The line neither opens another session nor starts a turn at or after `since`. */
  ghost predicate LeavesTurn(decode: Decoder, line: seq<Byte>, since: Instant) {
    && (forall id :: !Says(decode, line, SessionMeta(id)))
    && (forall id, at :: StartsTurn(decode, line, id, at) ==> at < since)
  }

  /** Line `i` started the turn, and no later line displaced it. */
  ghost predicate StartedAt(decode: Decoder, lines: seq<seq<Byte>>, i: nat, t: Turn) {
    && i < |lines| && StartsTurn(decode, lines[i], t.id, t.startedAt) && t.startedAt <= t.observedAt
    && forall h :: i < h < |lines| ==> LeavesTurn(decode, lines[h], t.startedAt)
  }

  /** A turn is always the latest started one; a stopped turn was ended by a later record of its own. */
  lemma {:induction false} TurnWitness(decode: Decoder, lines: seq<seq<Byte>>) returns (i: nat, j: nat)
    requires FoldLines(decode, lines).turn.Some?
    ensures var t := FoldLines(decode, lines).turn.value;
            && StartedAt(decode, lines, i, t)
            && (t.status == TurnStopped ==>
                  i < j < |lines| && Says(decode, lines[j], EventMsg(TaskEnded, Some(t.id), Some(t.observedAt))))
  {
    var init, line := lines[..|lines| - 1], lines[|lines| - 1];
    var f, g := FoldLines(decode, init), FoldLines(decode, lines);
    if StartsTurn(decode, line, g.turn.value.id, g.turn.value.startedAt) && g.turn.value.status == TurnWorking
       && g.turn.value.observedAt == g.turn.value.startedAt {
      i, j := |lines| - 1, 0;
    } else {
      i, j := TurnWitness(decode, init);
      if |line| <= MAX_LINE_BYTES && decode(line).Some? && decode(line).value.EventMsg?
        && decode(line).value.event == TaskEnded
         && g != f {
        j := |lines| - 1;
      }
      assert LeavesTurn(decode, line, g.turn.value.startedAt);
      assert forall h :: i < h < |init| ==> lines[h] == init[h];
    }
  }
}
