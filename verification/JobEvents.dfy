/** The stream that replays a job's event log (server/internal/jobs/events.go). */
module JobEvents {
  import opened Wrappers
  import opened JobLog

  datatype Code = Unavailable | DeadlineExceeded | Other(number: nat)
  datatype End = Clean | Broken(code: Code)
  datatype Connection = Refused(code: Code) | Opened(events: seq<Event>, end: End)
  datatype Reply = StillRunning | Finished | Failing(code: Code)

  const UNKNOWN := Other(2)
  const INVALID_ARGUMENT := Other(3)
  const NOT_FOUND := Other(5)
  const INTERNAL := Other(13)

  lemma ReplayOfLonger(log: seq<Payload>, longer: seq<Payload>, after: nat, upTo: nat)
    requires after <= upTo <= |log| && log <= longer
    ensures Replay(log, after, upTo) == Replay(longer, after, upTo)
  {}

  /** One job, its log in a file, and a caller, who owns the job or does not.  `bound` is the length
      its log may reach; a running job has not reached it, because its last event is its result.  A
      service that is not `honest` may answer anything with sequence numbers up to `bound`;
      connections to one that is not `steady` may break.  A `mortal` one may die and restart while
      the job runs; then it goes on from the file, or, if that cannot be read, stays `down`. */
  class JobService {
    const honest: bool
    const steady: bool
    const owned: bool
    const mortal: bool
    const bound: nat
    const record: JobRecord
    var log: seq<Payload>
    var finished: bool
    var down: bool
    ghost const traced: bool            // whether every write to the log is among `writes`
    ghost var writes: seq<Write>
    ghost var known: seq<Payload>       // the events whose writes succeeded
    ghost var died: bool

    constructor (honest: bool, steady: bool, owned: bool, mortal: bool, bound: nat)
      requires bound > 0
      ensures this.honest == honest && this.steady == steady && this.owned == owned && this.mortal == mortal
      ensures this.bound == bound && log == [] && !finished && traced && fresh(record) && Valid()
    {
      this.honest, this.steady, this.owned, this.mortal, this.bound := honest, steady, owned, mortal, bound;
      record := new JobRecord();
      log, finished, down, traced, writes, known, died := [], false, false, true, [], [], false;
    }

    /** A job that had ended when the server started: its file may hold anything. */
    constructor Restarted(honest: bool, steady: bool, owned: bool, log: seq<Payload>, file: File)
      requires Readable(file) ==> Payloads(file.lines) == log
      ensures this.honest == honest && this.steady == steady && this.owned == owned && bound == |log|
      ensures this.log == log && record.file == file && finished && !record.writeFailed && fresh(record) && Valid()
    {
      this.honest, this.steady, this.owned, mortal, bound := honest, steady, owned, false, |log|;
      var reloaded := new JobRecord();
      reloaded.Reload(file, |log|);
      record := reloaded;
      this.log, finished, down, traced, writes, known, died := log, true, false, false, [], log, false;
    }

    method Breaks() returns (broken: bool)
      ensures steady ==> !broken
    {
      broken := *;
      if steady {
        broken := false;
      }
    }

    ghost predicate Valid()
      reads this, record
    {
      && |log| <= bound && (!finished && !down ==> |log| < bound)
      && known <= log && |log| <= |known| + 1
      && (traced ==> record.file == Ran(writes).file && known == Acknowledged(writes))
      && (!died ==> log == known && !down && (traced ==> record.Contents() == Ran(writes)) && (!finished ==> traced))
      && (died ==> traced && (down <==> !Readable(record.file)) && (finished <==> !down))
      && (!record.writeFailed && Readable(record.file) ==> Payloads(record.file.lines) == log)
    }

    /** The log is too long or, where every write to it is known, spoilt by them. */
    ghost predicate Unreadable()
      reads this, record
    {
      if traced then Size(record.file) > READ_LIMIT || Spoilt(writes) else !Readable(record.file)
    }

    lemma UnreadableMeans()
      requires Valid()
      ensures Unreadable() <==> !Readable(record.file)
    {
      ReadableUnlessSpoilt(writes);
      hide Spoilt, Ran, Size, InSequence, Acknowledged;
    }

    /** The log only grows, and not once the job has finished. */
    twostate predicate Later()
      reads this, record
    {
      && old(log) <= log && (old(finished) ==> finished && log == old(log) && record.file == old(record.file))
      && (old(died) ==> died) && (old(down) ==> down)
    }

    /** One write of the job to its log, whatever becomes of it. */
    method WriteOne(payload: Payload, size: nat)
      requires !died && traced && record.Contents() == Ran(writes) && log == known == Acknowledged(writes)
      modifies this`log, this`writes, this`known, record
      ensures record.Contents() == Ran(writes) && log == known == Acknowledged(writes)
      ensures log == old(log) || log == old(log) + [payload]
      ensures log != old(log) ==> Unlittered(writes)
    {
      ghost var n := |writes|;
      ghost var before := writes;
      var last := record.lastSequence;
      ghost var outcome := record.AppendEvent(payload, size);
      ghost var w := Write(payload, size, outcome);
      writes := writes + [w];
      assert writes[..n] == before;
      if record.lastSequence > last {
        log := log + [payload];
      }
      known := log;
      KeptIsUnlittered(writes);
    }

    /** Until the next wake-up: writes that fail or are dropped, and then another event, or the
        result and the end of the job. */
    method Advance()
      requires Valid() && !finished && !down
      modifies this, record
      ensures Valid() && Later() && !died && !down
      ensures |log| > old(|log|) || finished
    {
      hide Ran, Acknowledged, Readable, Payloads, InSequence, Unlittered;
      Alive();
      hide Valid;
      var before := |log|;
      var tries: int := *;
      while tries > 0 && |log| == before && |log| + 1 < bound
        invariant Working() && old(log) <= log && |log| < bound
        decreases tries
      {
        var text: string, size: nat := *, *;
        WriteOne(Output(text), size);
        tries := tries - 1;
      }
      var last := *;
      if last || |log| == before {
        var code: int, size: nat := *, *;
        WriteOne(Result(code), size);
        finished := true;
      }
      StillAlive();
    }

    lemma StillAlive()
      requires !died && !down && traced && record.Contents() == Ran(writes) && log == known == Acknowledged(writes)
      requires |log| <= bound && (!finished ==> |log| < bound)
      ensures Valid()
    {
      WholeUntilAFailure(writes);
    }

    lemma InBound()
      requires Valid()
      ensures |log| <= bound
    {
    }

    /** What holds of a job that runs. */
    ghost predicate Working()
      reads this, record
    {
      && !died && !down && !finished && traced
      && record.Contents() == Ran(writes) && log == known == Acknowledged(writes)
    }

    /** The server dies, perhaps in the middle of a write, and starts again if it can read the log. */
    method Die()
      requires Valid() && !finished && !down
      modifies this, record
      ensures Valid() && Later() && died
    {
      hide Ran, Acknowledged, Readable, Payloads, InSequence, Unlittered;
      ghost var before := log;
      Alive();
      var midway := *;
      if midway {
        var payload: Payload, size: nat := *, *;
        WriteOne(payload, size);
      }
      assert before <= log;
      var saved: nat := *;
      var recovered := Recover(Info(Running, saved, 0), record.file);
      died := true;
      RecoveredMeans(saved, record.file, writes, before, log, bound);
      if recovered.None? {
        down := true;
        return;
      }
      log, finished := Payloads(record.file.lines), true;
      record.Reload(record.file, |log|);
    }

    lemma Alive()
      requires Valid() && !finished && !down
      ensures Working() && |log| < bound
    {
      hide Ran, Acknowledged, Readable, Payloads, InSequence;
    }

    method MayDie() returns (dies: bool)
      requires Valid()
      modifies this, record
      ensures Valid() && Later() && (dies ==> died && !old(died)) && (!dies ==> died == old(died))
      ensures !dies ==> log == old(log) && finished == old(finished) && down == old(down) &&
                        record.Contents() == old(record.Contents())
    {
      dies := *;
      if !mortal || finished || down {
        dies := false;
      }
      if dies {
        Die();
      }
    }

    /** Waits for the next wake-up. */
    method Await() returns (broken: bool)
      requires Valid() && !finished && !down
      modifies this, record
      ensures Valid() && Later()
      ensures !broken ==> !down && died == old(died) && (|log| > old(|log|) || finished)
      ensures steady && broken ==> died && !old(died)
    {
      hide Valid;
      broken := MayDie();
      if !broken {
        broken := Breaks();
      }
      if !broken {
        Advance();
      }
    }

    /** What the server finds of the job under its lock: an error, or the events after the cursor. */
    method Look(after: nat) returns (code: Option<Code>, events: seq<Event>)
      requires Valid()
      ensures code == if !owned then Some(NOT_FOUND) else if after > |log| then Some(INVALID_ARGUMENT)
                      else if record.writeFailed then Some(INTERNAL)
                      else if !Readable(record.file) then Some(UNKNOWN) else None
      ensures code.None? ==> events == Replay(log, after, |log|)
    {
      hide Replay, Readable, Payloads, InSequence, ReadBack, Since, Ran, Acknowledged;
      code, events := None, [];
      if !owned {
        return Some(NOT_FOUND), [];
      }
      if after > |log| {
        return Some(INVALID_ARGUMENT), [];
      }
      if record.writeFailed {
        return Some(INTERNAL), [];
      }
      var read := ReadEvents(record.file, after);
      WhatIsRead(record.file, log, after);
      if read.None? {
        return Some(UNKNOWN), [];
      }
      events := read.value;
    }

    /** Sends everything after the cursor, in order; it ends without error only when the job has
        finished and the whole log has been sent, and each error has its own condition. */
    method Stream(start: nat) returns (sent: seq<Event>, end: End)
      requires Valid() && !down
      modifies this, record
      ensures Valid() && Later()
      ensures sent == [] || (start + |sent| <= |log| && sent == Replay(log, start, start + |sent|))
      ensures end.Clean? ==> finished && !down && start + |sent| == |log|
      ensures steady && owned && start <= old(|log|) ==>
                end.Clean? || (record.writeFailed && end == Broken(INTERNAL)) ||
                (!Readable(record.file) && end == Broken(UNKNOWN)) ||
                (died && !old(died) && end == Broken(Unavailable))
      ensures end == Broken(NOT_FOUND) <==> !owned
      ensures end == Broken(INVALID_ARGUMENT) <==> owned && start > old(|log|)
      ensures end == Broken(UNKNOWN) ==> !record.writeFailed && !Readable(record.file)
      ensures end == Broken(INTERNAL) ==> record.writeFailed
      ensures owned && start <= old(|log|) && (old(record.writeFailed) || !Readable(old(record.file))) ==>
                sent == [] && end == Broken(if old(record.writeFailed) then INTERNAL else UNKNOWN)
    {
      hide Replay, Readable, Valid;
      var after := start;
      sent := [];
      InBound();
      while true
        invariant Valid() && Later() && !down && died == old(died) && |log| <= bound
        invariant start <= old(|log|) ==> after <= |log|
        invariant after == start + |sent| && (sent == [] || (after <= |log| && sent == Replay(log, start, after)))
        invariant (log == old(log) && record.file == old(record.file) && sent == [] &&
                   record.writeFailed == old(record.writeFailed)) ||
                  (owned && start <= old(|log|) && !old(record.writeFailed) && Readable(old(record.file)))
        decreases bound - |log| + if finished then 0 else 1
      {
        var code, events := Look(after);
        var done := finished;
        if code.Some? {
          return sent, Broken(code.value);
        }
        var ok;
        ok, sent := Send(events, after, start, sent);
        if !ok {
          return sent, Broken(Unavailable);
        }
        after := after + |events|;
        if done {
          return sent, Clean;
        }
        ghost var shorter := log;
        var broken := Await();
        InBound();
        if |sent| > 0 {
          ReplayOfLonger(shorter, log, start, after);
        }
        if broken {
          return sent, Broken(Unavailable);
        }
      }
    }

    /** The connection may break before any event. */
    method Send(events: seq<Event>, after: nat, start: nat, already: seq<Event>) returns (ok: bool, sent: seq<Event>)
      requires after <= |log| && events == Replay(log, after, |log|)
      requires after == start + |already| && already == Replay(log, start, after)
      ensures start + |sent| <= |log| && sent == Replay(log, start, start + |sent|)
      ensures ok ==> start + |sent| == |log|
      ensures steady ==> ok
    {
      hide Replay;
      sent := already;
      for i := 0 to |events|
        invariant sent == Replay(log, start, after + i)
      {
        var broken := Breaks();
        if broken {
          return false, sent;
        }
        ReplayOneMore(log, start, after + i);
        sent := sent + [events[i]];
      }
      ok := true;
    }

    /** A client's connection to an honest service or to any other. */
    method Connect(after: nat) returns (connection: Connection)
      requires Valid()
      modifies this, record
      ensures Valid() && Later()
      ensures connection.Opened? ==> forall i :: 0 <= i < |connection.events| ==> connection.events[i].sequence <= bound
      ensures honest && connection.Opened? && connection.events != [] ==>
                after + |connection.events| <= |log| &&
                connection.events == Replay(log, after, after + |connection.events|)
      ensures honest && connection.Opened? && connection.end.Clean? ==>
                finished && !down && after + |connection.events| == |log|
      ensures honest && steady && owned && after <= old(|log|) ==>
                if connection.Refused? then down && connection.code == Unavailable
                else
                  connection.end.Clean? || (record.writeFailed && connection.end == Broken(INTERNAL)) ||
                  (!Readable(record.file) && connection.end == Broken(UNKNOWN)) ||
                  (died && !old(died) && connection.end == Broken(Unavailable))
    {
      hide Replay, Readable, Ran, Acknowledged, Payloads, InSequence;
      var dies := MayDie();
      var unreachable := Breaks();
      if unreachable || down {
        return Refused(Unavailable);
      }
      if honest {
        var sent, end := Stream(after);
        connection := Opened(sent, end);
      } else {
        connection := *;
        if connection.Opened? && exists i :: 0 <= i < |connection.events| && connection.events[i].sequence > bound {
          connection := Refused(Unavailable);
        }
      }
    }

    method GetJob() returns (reply: Reply)
      ensures honest && reply.Finished? ==> finished
      ensures honest && reply.StillRunning? ==> !finished
      ensures honest && steady && owned && reply.Failing? ==>
                if down then reply.code == Unavailable else record.writeFailed && reply.code == INTERNAL
    {
      var unreachable := Breaks();
      if honest {
        reply := if unreachable || down then Failing(Unavailable) else if !owned then Failing(NOT_FOUND)
                 else if record.writeFailed then Failing(INTERNAL) else if finished then Finished else StillRunning;
      } else {
        reply := *;
      }
    }
  }

  /** No write has failed and left bytes behind: the file has the acknowledged events and no more,
      unless it is spoilt. */
  ghost predicate Unlittered(ws: seq<Write>) {
    InSequence(Ran(ws).file.lines) ==> |Ran(ws).file.lines| == |Acknowledged(ws)|
  }

  /** What a restart reads of a job that ran: the acknowledged events and within the bound. */
  lemma RecoveredMeans(saved: nat, file: File, ws: seq<Write>, before: seq<Payload>, log: seq<Payload>, bound: nat)
    requires file == Ran(ws).file && log == Acknowledged(ws) && before <= log && |before| < bound
    requires |log| <= |before| + 1 && (log != before ==> Unlittered(ws))
    ensures Recovered(Info(Running, saved, 0), file).Some? <==> Readable(file)
    ensures Readable(file) ==>
              InSequence(file.lines) && log <= Payloads(file.lines) && |Payloads(file.lines)| <= |log| + 1 &&
              |Payloads(file.lines)| <= bound
  {
    if InSequence(file.lines) {
      OneMoreAtMost(ws);
    }
    hide Ran, Acknowledged;
  }

  lemma KeptIsUnlittered(ws: seq<Write>)
    requires ws != []
    ensures var before := ws[..|ws| - 1];
            Acknowledged(ws) != Acknowledged(before) ==> Unlittered(ws)
  {
    if InSequence(Ran(ws).file.lines) {
      OneMoreAtMost(ws);
    }
  }

  lemma WhatIsRead(file: File, log: seq<Payload>, after: nat)
    requires after <= |log| && (Readable(file) ==> Payloads(file.lines) == log)
    ensures ReadBack(file, after) == if Readable(file) then Some(Replay(log, after, |log|)) else None
  {}

  lemma ReplayOneMore(log: seq<Payload>, start: nat, upTo: nat)
    requires start <= upTo < |log|
    ensures Replay(log, start, upTo + 1) == Replay(log, start, upTo) + [Event(upTo + 1, log[upTo])]
  {}
}
