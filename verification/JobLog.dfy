/** The file that keeps a job's events (server/internal/jobs/events.go) and what a restart makes of
    it (server/internal/jobs/manager.go).

    A line that begins with the rest of a write that failed is no event: a piece of one JSON object
    followed by another is not JSON. */
module JobLog {
  import opened Wrappers

  datatype Payload = Output(text: string) | Result(exitCode: int)

  datatype Event = Event(sequence: nat, payload: Payload)

  datatype Line = Entry(event: Event, size: nat) | Garbage(size: nat)

  /** Whole lines, and the number of bytes after the last line feed. */
  datatype File = File(lines: seq<Line>, tail: nat)

  const MAX_LOG: nat := 8 * 0x10_0000
  const READ_LIMIT: nat := MAX_LOG + 0x10_0000

  /** The events of a log from one sequence number to another. */
  function Replay(log: seq<Payload>, after: nat, upTo: nat): (events: seq<Event>)
    requires after <= upTo <= |log|
    ensures |events| == upTo - after
    ensures forall i :: 0 <= i < |events| ==> events[i] == Event(after + i + 1, log[after + i])
  {
    if after == upTo then [] else Replay(log, after, upTo - 1) + [Event(upTo, log[upTo - 1])]
  }

  /** Everything after a cursor, which may lie past the end. */
  function Since(log: seq<Payload>, after: nat): seq<Event> {
    if after <= |log| then Replay(log, after, |log|) else []
  }

  // ---- Reading ----

  function LinesSize(lines: seq<Line>): nat {
    if lines == [] then 0
    else LinesSize(lines[..|lines| - 1]) + lines[|lines| - 1].size + 1
  }

  function Size(file: File): nat { LinesSize(file.lines) + file.tail }

  predicate InSequence(lines: seq<Line>) {
    forall i :: 0 <= i < |lines| ==> lines[i].Entry? && lines[i].event.sequence == i + 1
  }

  predicate Readable(file: File) { Size(file) <= READ_LIMIT && InSequence(file.lines) }

  function Payloads(lines: seq<Line>): (log: seq<Payload>)
    requires InSequence(lines)
    ensures |log| == |lines|
    ensures forall i :: 0 <= i < |log| ==> log[i] == lines[i].event.payload
  {
    seq(|lines|, i requires 0 <= i < |lines| => lines[i].event.payload)
  }

  /** `None` is the error of a log that is too long or corrupt. */
  function ReadBack(file: File, after: nat): Option<seq<Event>> {
    if Readable(file) then Some(Since(Payloads(file.lines), after)) else None
  }

  /** What follows the last line feed is not read. */
  method ReadEvents(file: File, after: nat) returns (events: Option<seq<Event>>)
    ensures events == ReadBack(file, after)
  {
    if Size(file) > READ_LIMIT {
      return None;
    }
    var result: seq<Event> := [];
    var sequence: nat := 0;
    for i := 0 to |file.lines|
      invariant sequence == i && InSequence(file.lines[..i])
      invariant result == Since(Payloads(file.lines[..i]), after)
    {
      var line := file.lines[i];
      if line.Garbage? || line.event.sequence != sequence + 1 {
        assert !InSequence(file.lines);
        return None;
      }
      OneMoreRead(file.lines[..i], line, after);
      assert file.lines[..i + 1] == file.lines[..i] + [line];
      sequence := line.event.sequence;
      if line.event.sequence > after {
        result := result + [line.event];
      }
    }
    assert file.lines[..|file.lines|] == file.lines;
    return Some(result);
  }

  lemma OneMoreRead(lines: seq<Line>, line: Line, after: nat)
    requires InSequence(lines) && line.Entry? && line.event.sequence == |lines| + 1
    ensures InSequence(lines + [line])
    ensures Since(Payloads(lines + [line]), after) ==
            Since(Payloads(lines), after) + if |lines| + 1 > after then [line.event] else []
  {
    var before, now := Payloads(lines), Payloads(lines + [line]);
    assert now == before + [line.event.payload];
    if after <= |lines| {
      assert Replay(now, after, |lines|) == Replay(before, after, |lines|);
    }
  }

  // ---- Writing ----

  /** Of the bytes of a line, its line feed included, `count` reach the file. */
  function Put(file: File, event: Event, size: nat, count: nat): File
    requires count <= size + 1
  {
    if count <= size then file.(tail := file.tail + count)
    else File(file.lines + [if file.tail == 0 then Entry(event, size) else Garbage(file.tail + size)], 0)
  }

  /** A write fails before, within or after its bytes: opening, writing, syncing, closing. */
  datatype Outcome = Kept | Lost(count: nat)

  datatype Write = Write(payload: Payload, size: nat, outcome: Outcome)

  datatype Log = Log(file: File, lastSequence: nat, logBytes: nat, truncated: bool, writeFailed: bool)

  const EMPTY := Log(File([], 0), 0, 0, false, false)

  function Reaching(w: Write): (count: nat)
    ensures count <= w.size + 1
  {
    if w.outcome.Kept? || w.outcome.count > w.size then w.size + 1 else w.outcome.count
  }

  /** Output past the limit is dropped; the result is not. */
  predicate Skipped(log: Log, w: Write) { log.logBytes >= MAX_LOG && w.payload.Output? }

  function Appended(log: Log, w: Write): Log {
    if Skipped(log, w) then log.(truncated := true)
    else
      var file := Put(log.file, Event(log.lastSequence + 1, w.payload), w.size, Reaching(w));
      if w.outcome.Kept?
      then log.(file := file, lastSequence := log.lastSequence + 1, logBytes := log.logBytes + w.size + 1)
      else log.(file := file, writeFailed := true)
  }

  class JobRecord {
    var file: File
    var lastSequence: nat
    var logBytes: nat
    var truncated: bool
    var writeFailed: bool

    function Contents(): Log
      reads this
    {
      Log(file, lastSequence, logBytes, truncated, writeFailed)
    }

    constructor ()
      ensures Contents() == EMPTY
    {
      file, lastSequence, logBytes, truncated, writeFailed := File([], 0), 0, 0, false, false;
    }

    /** As a restart reads it: that a write had failed is not saved. */
    method Reload(file: File, lastSequence: nat)
      modifies this
      ensures Contents() == Log(file, lastSequence, Size(file), old(truncated), false)
    {
      this.file, this.lastSequence, logBytes, writeFailed := file, lastSequence, Size(file), false;
    }

    method AppendEvent(payload: Payload, size: nat) returns (ghost outcome: Outcome)
      modifies this
      ensures Contents() == Appended(old(Contents()), Write(payload, size, outcome))
    {
      outcome := Kept;
      if logBytes >= MAX_LOG && payload.Output? {
        truncated := true;
        return;
      }
      var count: int := *;
      var written := if 0 <= count <= size then count else size + 1;
      file := Put(file, Event(lastSequence + 1, payload), size, written);
      var failed := *;
      if failed || written <= size {
        outcome := Lost(written);
        writeFailed := true;
        return;
      }
      lastSequence := lastSequence + 1;
      logBytes := logBytes + size + 1;
    }
  }

  // ---- Any run of writes ----

  function Ran(ws: seq<Write>): Log {
    if ws == [] then EMPTY else Appended(Ran(ws[..|ws| - 1]), ws[|ws| - 1])
  }

  /** The payloads whose writes succeeded. */
  function Acknowledged(ws: seq<Write>): seq<Payload> {
    if ws == [] then []
    else
      var n := |ws| - 1;
      Acknowledged(ws[..n]) +
      if ws[n].outcome.Kept? && !Skipped(Ran(ws[..n]), ws[n]) then [ws[n].payload] else []
  }

  /** The write at `i` failed and left bytes behind. */
  predicate Leaves(ws: seq<Write>, i: nat)
    requires i < |ws|
  {
    !Skipped(Ran(ws[..i]), ws[i]) && ws[i].outcome.Lost? && ws[i].outcome.count > 0
  }

  /** The write at `i` reached its line feed. */
  predicate Closes(ws: seq<Write>, i: nat)
    requires i < |ws|
  {
    !Skipped(Ran(ws[..i]), ws[i]) && Reaching(ws[i]) == ws[i].size + 1
  }

  ghost predicate Littered(ws: seq<Write>) { exists i :: 0 <= i < |ws| && Leaves(ws, i) }

  ghost predicate Spoilt(ws: seq<Write>) { exists i, j :: 0 <= i < j < |ws| && Leaves(ws, i) && Closes(ws, j) }

  lemma LitteredOn(ws: seq<Write>)
    requires ws != []
    ensures var n := |ws| - 1;
            && (Littered(ws) <==> Littered(ws[..n]) || Leaves(ws, n))
            && (Spoilt(ws) <==> Spoilt(ws[..n]) || (Littered(ws[..n]) && Closes(ws, n)))
  {
    var n := |ws| - 1;
    var before := ws[..n];
    forall i | 0 <= i < n
      ensures (Leaves(before, i) <==> Leaves(ws, i)) && (Closes(before, i) <==> Closes(ws, i))
    {
      assert before[..i] == ws[..i];
    }
    if Littered(before) && Closes(ws, n) {
      var i :| 0 <= i < n && Leaves(before, i);
      assert Leaves(ws, i) && Closes(ws, n);
    }
  }

  /** The shape of the file, as long as it is not spoilt. */
  ghost predicate Shaped(log: Log, acknowledged: seq<Payload>, littered: bool) {
    var lines := log.file.lines;
    && log.lastSequence == |acknowledged|
    && InSequence(lines)
    && acknowledged <= Payloads(lines) && |lines| <= |acknowledged| + 1
    && (if littered then log.file.tail > 0 || |lines| == |acknowledged| + 1
        else log.file.tail == 0 && |lines| == |acknowledged|)
  }

  lemma ShapedOn(log: Log, acknowledged: seq<Payload>, littered: bool, w: Write)
    requires Shaped(log, acknowledged, littered) && !Skipped(log, w)
    ensures var t, left := Appended(log, w), w.outcome.Lost? && w.outcome.count > 0;
            if littered && Reaching(w) == w.size + 1 then !InSequence(t.file.lines)
            else Shaped(t, acknowledged + if w.outcome.Kept? then [w.payload] else [], littered || left)
  {
    var t := Appended(log, w);
    var lines := log.file.lines;
    if littered && Reaching(w) == w.size + 1 {
      assert t.file.lines[|lines|].Garbage? || t.file.lines[|lines|].event.sequence == |acknowledged| + 1;
    }
  }

  lemma NeverInSequence(lines: seq<Line>, more: seq<Line>)
    requires !InSequence(lines) && lines <= more
    ensures !InSequence(more)
  {
    var i :| 0 <= i < |lines| && !(lines[i].Entry? && lines[i].event.sequence == i + 1);
    assert more[i] == lines[i];
  }

  lemma LinesGrow(log: Log, w: Write)
    ensures log.file.lines <= Appended(log, w).file.lines
  {}

  /** Whatever fails: the file reads as a sequence of events if and only if no write reached its
      line feed after one that had failed and left bytes behind.  Then every acknowledged event is
      there, in order, and at most one more. */
  lemma {:induction false} ReadableUnlessSpoilt(ws: seq<Write>)
    ensures InSequence(Ran(ws).file.lines) <==> !Spoilt(ws)
    ensures !Spoilt(ws) ==> Shaped(Ran(ws), Acknowledged(ws), Littered(ws))
    decreases |ws|
  {
    if ws != [] {
      var n := |ws| - 1;
      var log, w := Ran(ws[..n]), ws[n];
      ReadableUnlessSpoilt(ws[..n]);
      LitteredOn(ws);
      LinesGrow(log, w);
      hide Shaped, Littered, Spoilt, InSequence, Appended;
      if Spoilt(ws[..n]) {
        NeverInSequence(log.file.lines, Appended(log, w).file.lines);
      } else if Skipped(log, w) {
        SkippedShape(log, w, Acknowledged(ws[..n]), Littered(ws[..n]));
      } else {
        ShapedOn(log, Acknowledged(ws[..n]), Littered(ws[..n]), w);
        ShapedMeans(Appended(log, w));
      }
    }
  }

  /** As long as no write has failed the file holds the acknowledged events and nothing else. */
  lemma {:induction false} WholeUntilAFailure(ws: seq<Write>)
    ensures !Ran(ws).writeFailed ==> !Littered(ws) && !Spoilt(ws)
    ensures !Ran(ws).writeFailed ==>
              InSequence(Ran(ws).file.lines) && Payloads(Ran(ws).file.lines) == Acknowledged(ws)
    decreases |ws|
  {
    ReadableUnlessSpoilt(ws);
    if ws != [] {
      WholeUntilAFailure(ws[..|ws| - 1]);
      LitteredOn(ws);
    }
    hide Leaves, Closes;
  }

  /** One more event at most is in a file that can be read, and none more if the last write succeeded. */
  lemma OneMoreAtMost(ws: seq<Write>)
    requires InSequence(Ran(ws).file.lines)
    ensures Acknowledged(ws) <= Payloads(Ran(ws).file.lines) && |Ran(ws).file.lines| <= |Acknowledged(ws)| + 1
    ensures ws != [] && !Skipped(Ran(ws[..|ws| - 1]), ws[|ws| - 1]) && ws[|ws| - 1].outcome.Kept? ==>
              |Ran(ws).file.lines| == |Acknowledged(ws)|
  {
    ReadableUnlessSpoilt(ws);
    if ws != [] {
      LitteredOn(ws);
    }
    hide Littered;
  }

  lemma ShapedMeans(log: Log)
    ensures forall a, b :: Shaped(log, a, b) ==> InSequence(log.file.lines)
  {}

  lemma SkippedShape(log: Log, w: Write, acknowledged: seq<Payload>, littered: bool)
    requires Shaped(log, acknowledged, littered) && Skipped(log, w)
    ensures Shaped(Appended(log, w), acknowledged + [], littered) && InSequence(Appended(log, w).file.lines)
  {
    assert acknowledged + [] == acknowledged;
  }

  // ---- When nothing fails, when the server dies, and when a job goes on after a failure ----

  const HALF: nat := 0x8_0000

  /** Each line is at most half the slack of a reader, and the result comes last. */
  predicate Modest(ws: seq<Write>) {
    forall i :: 0 <= i < |ws| ==>
      ws[i].size + 1 <= HALF && (i < |ws| - 1 ==> ws[i].payload.Output?)
  }

  predicate AllKept(ws: seq<Write>) {
    forall i :: 0 <= i < |ws| ==> ws[i].outcome.Kept?
  }

  lemma {:induction false} StaysShort(ws: seq<Write>)
    requires Modest(ws) && AllKept(ws)
    ensures Size(Ran(ws).file) == Ran(ws).logBytes <= READ_LIMIT && Ran(ws).file.tail == 0
    ensures (forall i :: 0 <= i < |ws| ==> ws[i].payload.Output?) ==> Ran(ws).logBytes <= MAX_LOG + HALF
    decreases |ws|
  {
    if ws != [] {
      var n := |ws| - 1;
      var file := Ran(ws[..n]).file;
      StaysShort(ws[..n]);
      var line := Entry(Event(Ran(ws[..n]).lastSequence + 1, ws[n].payload), ws[n].size);
      assert (file.lines + [line])[..|file.lines|] == file.lines;
    }
  }

  /** What was written is read back from any cursor, dropped output aside. */
  lemma LogReadsBack(ws: seq<Write>, after: nat)
    requires Modest(ws) && AllKept(ws)
    ensures ReadBack(Ran(ws).file, after) == Some(Since(Acknowledged(ws), after))
  {
    StaysShort(ws);
    ReadableUnlessSpoilt(ws);
    KeptLeavesNothing(ws);
    hide Littered, Spoilt, Ran;
    assert Payloads(Ran(ws).file.lines) == Acknowledged(ws);
  }

  /** A server that dies in a write leaves a readable log. */
  lemma DyingSpoilsNothing(ws: seq<Write>)
    requires ws != [] ==> AllKept(ws[..|ws| - 1])
    ensures InSequence(Ran(ws).file.lines)
  {
    ReadableUnlessSpoilt(ws);
    KeptLeavesNothing(ws[..if ws == [] then 0 else |ws| - 1]);
    if ws != [] {
      LitteredOn(ws);
    }
    hide Leaves, Closes, Ran;
  }

  lemma KeptLeavesNothing(ws: seq<Write>)
    requires AllKept(ws)
    ensures !Littered(ws) && !Spoilt(ws)
  {
    hide Ran, Skipped, Closes;
  }

  /** A job always writes its result last: the log is lost if and only if an earlier write failed
      and left bytes behind. */
  lemma LostWithTheResult(ws: seq<Write>)
    requires ws != [] && ws[|ws| - 1].payload.Result? && ws[|ws| - 1].outcome.Kept?
    ensures InSequence(Ran(ws).file.lines) <==> !Littered(ws[..|ws| - 1])
  {
    ReadableUnlessSpoilt(ws);
    LitteredOn(ws);
    ReadableUnlessSpoilt(ws[..|ws| - 1]);
    if Spoilt(ws[..|ws| - 1]) {
      var i, j :| 0 <= i < j < |ws| - 1 && Leaves(ws[..|ws| - 1], i) && Closes(ws[..|ws| - 1], j);
    }
  }

  // ---- Restart ----

  datatype State = Running | Interrupted | Succeeded | Failed | Cancelled

  /** What is saved of a job beside its log. */
  datatype Info = Info(state: State, lastSequence: nat, exitCode: int)

  function LastResult(log: seq<Payload>): Option<int> {
    if log == [] then None
    else if log[|log| - 1].Result? then Some(log[|log| - 1].exitCode)
    else LastResult(log[..|log| - 1])
  }

  /** A job that was under way ended with the result in its log or else was interrupted. */
  function Judged(info: Info, log: seq<Payload>): Info {
    var (state, exitCode) :=
      match LastResult(log)
      case None => (Interrupted, 1)
      case Some(code) => (if code == 0 then Succeeded else Failed, code);
    Info(state, Max(info.lastSequence, |log|), exitCode)
  }

  function Recovered(info: Info, file: File): Option<Info> {
    if !info.state.Running? then Some(info)
    else if Readable(file) then Some(Judged(info, Payloads(file.lines)))
    else None
  }

  method Recover(info: Info, file: File) returns (recovered: Option<Info>)
    ensures recovered == Recovered(info, file)
  {
    if !info.state.Running? {
      return Some(info);
    }
    var events := ReadEvents(file, 0);
    if events.None? {
      return None;
    }
    ghost var log := Payloads(file.lines);
    var next := Info(Interrupted, info.lastSequence, 1);
    for i := 0 to |events.value|
      invariant next == Judged(info, log[..i])
    {
      var event := events.value[i];
      assert event == Event(i + 1, log[i]);
      assert log[..i + 1][..i] == log[..i];
      next := next.(lastSequence := Max(next.lastSequence, event.sequence));
      if event.payload.Result? {
        next := next.(exitCode := event.payload.exitCode,
                      state := if event.payload.exitCode == 0 then Succeeded else Failed);
      }
    }
    assert log[..|log|] == log;
    return Some(next);
  }

  /** The server starts if and only if the log of every job that was under way can be read. */
  method Restart(infos: seq<Info>, files: seq<File>) returns (jobs: Option<seq<Info>>)
    requires |infos| == |files|
    ensures jobs.Some? <==> forall i :: 0 <= i < |infos| && infos[i].state.Running? ==> Readable(files[i])
    ensures jobs.Some? ==>
              |jobs.value| == |infos| &&
              forall i :: 0 <= i < |infos| ==> Some(jobs.value[i]) == Recovered(infos[i], files[i])
  {
    var done: seq<Info> := [];
    for i := 0 to |infos|
      invariant |done| == i
      invariant forall k :: 0 <= k < i ==> Some(done[k]) == Recovered(infos[k], files[k])
    {
      var next := Recover(infos[i], files[i]);
      if next.None? {
        return None;
      }
      done := done + [next.value];
    }
    assert forall i :: 0 <= i < |infos| && infos[i].state.Running? ==> Recovered(infos[i], files[i]).Some?;
    return Some(done);
  }

  /** A job that was under way when the server died is there again unless its log is spoilt or too
      long: no acknowledged event is lost, a watcher goes on from any cursor it may hold, and a
      result that was written is the one that counts. */
  lemma RestartKeeps(ws: seq<Write>, info: Info, cursor: nat)
    requires info.state.Running? && info.lastSequence <= |Acknowledged(ws)| && cursor <= |Acknowledged(ws)|
    ensures Recovered(info, Ran(ws).file).Some? <==> Size(Ran(ws).file) <= READ_LIMIT && !Spoilt(ws)
    ensures Recovered(info, Ran(ws).file).Some? ==>
              var known := Acknowledged(ws);
              var next := Recovered(info, Ran(ws).file).value;
              && |known| <= next.lastSequence <= |known| + 1 && !next.state.Running?
              && ReadBack(Ran(ws).file, cursor).Some?
              && Replay(known, cursor, |known|) <= ReadBack(Ran(ws).file, cursor).value
              && |ReadBack(Ran(ws).file, cursor).value| == next.lastSequence - cursor
  {
    ReadableUnlessSpoilt(ws);
    var known, lines := Acknowledged(ws), Ran(ws).file.lines;
    hide Ran, Acknowledged, Replay, Spoilt, Size;
    if Readable(Ran(ws).file) {
      ReplayOfPrefix(known, Payloads(lines), cursor);
    }
  }

  lemma ReplayOfPrefix(known: seq<Payload>, log: seq<Payload>, cursor: nat)
    requires known <= log && cursor <= |known|
    ensures Replay(known, cursor, |known|) <= Since(log, cursor) && |Since(log, cursor)| == |log| - cursor
  {
    assert Replay(known, cursor, |known|) == Replay(log, cursor, |log|)[..|known| - cursor];
  }

  lemma {:induction false} ResultCounts(log: seq<Payload>, info: Info)
    ensures Judged(info, log).state.Interrupted? <==> forall i :: 0 <= i < |log| ==> log[i].Output?
    ensures forall i :: 0 <= i < |log| && log[i].Result? && (forall j :: i < j < |log| ==> log[j].Output?) ==>
              Judged(info, log).exitCode == log[i].exitCode
    decreases |log|
  {
    if log != [] && log[|log| - 1].Output? {
      ResultCounts(log[..|log| - 1], info);
    }
  }

  /** A write of output that fails after its first byte, while the result is written: a server that
      dies before it has saved the job does not start again. */
  lemma TornWriteStopsTheServer() returns (ws: seq<Write>)
    ensures ws == [Write(Output("x"), 40, Lost(1)), Write(Result(1), 40, Kept)]
    ensures Recovered(Info(Running, 0, 0), Ran(ws).file).None?
  {
    var torn, last := Write(Output("x"), 40, Lost(1)), Write(Result(1), 40, Kept);
    ws := [torn, last];
    assert ws[..1] == [torn] && [torn][..0] == [];
    assert Ran([torn]) == Appended(EMPTY, torn);
    assert Ran(ws).file.lines == [Garbage(41)];
  }
}
