/** Watching a job over connections that break (server/internal/control/jobs.go). */
module JobWatch {
  import opened Wrappers
  import opened JobLog
  import opened JobEvents

  datatype Outcome = Ended | Gap | ReceiverFailed | Cancelled | Stopped(code: Code) | GaveUp

  const ATTEMPTS: nat := 5

  /** `delivered` is what the receiver has been given after `start`: each sequence number once, in
      order, with none left out. */
  predicate InOrder(delivered: seq<Event>, start: nat) {
    forall i :: 0 <= i < |delivered| ==> delivered[i].sequence == start + i + 1
  }

  predicate FromLog(delivered: seq<Event>, start: nat, log: seq<Payload>) {
    delivered == [] ||
    (start + |delivered| <= |log| && forall i :: 0 <= i < |delivered| ==> delivered[i].payload == log[start + i])
  }

  lemma FromLonger(delivered: seq<Event>, start: nat, log: seq<Payload>, longer: seq<Payload>)
    requires FromLog(delivered, start, log) && log <= longer
    ensures FromLog(delivered, start, longer)
  {}

  /** Passes on the events of one connection; `faithful` when they replay `log` from the cursor. */
  method Receive(events: seq<Event>, start: nat, already: seq<Event>, bound: nat, patient: bool,
                 ghost log: seq<Payload>, ghost faithful: bool)
    returns (delivered: seq<Event>, outcome: Option<Outcome>)
    requires InOrder(already, start)
    requires forall i :: 0 <= i < |events| ==> events[i].sequence <= bound
    requires faithful ==> FromLog(already, start, log) && Replays(events, start + |already|, log)
    ensures InOrder(delivered, start) && |already| <= |delivered|
    ensures |delivered| == |already| ==> delivered == already
    ensures |delivered| > |already| ==> start + |delivered| <= bound
    ensures outcome == None || outcome == Some(Gap) || outcome == Some(ReceiverFailed)
    ensures patient ==> outcome != Some(ReceiverFailed)
    ensures faithful ==> FromLog(delivered, start, log) && outcome != Some(Gap)
    ensures faithful && outcome.None? ==> |delivered| == |already| + |events|
  {
    hide Replay;
    delivered := already;
    var after := start + |already|;
    for k := 0 to |events|
      invariant InOrder(delivered, start) && |already| <= |delivered| && after == start + |delivered|
      invariant |delivered| == |already| ==> delivered == already
      invariant |delivered| > |already| ==> after <= bound
      invariant faithful ==> FromLog(delivered, start, log) && |delivered| == |already| + k
    {
      var event := events[k];
      if event.sequence <= after {
        continue;
      }
      if event.sequence != after + 1 {
        return delivered, Some(Gap);
      }
      delivered := delivered + [event];
      var refused := *;
      if refused && !patient {
        return delivered, Some(ReceiverFailed);
      }
      after := event.sequence;
    }
    outcome := None;
  }

  predicate Replays(events: seq<Event>, after: nat, log: seq<Payload>) {
    events != [] ==> after + |events| <= |log| && events == Replay(log, after, after + |events|)
  }

  predicate Retried(code: Code) {
    code.Unavailable? || code.DeadlineExceeded?
  }

  /** One connection: what it brings, and what it leaves to be done. */
  method ReceiveOnce(service: JobService, start: nat, already: seq<Event>, patient: bool)
    returns (delivered: seq<Event>, outcome: Option<Outcome>, failure: Option<Code>)
    requires service.Valid() && InOrder(already, start) && (already != [] ==> start + |already| <= service.bound)
    requires service.honest ==> FromLog(already, start, service.log)
    modifies service, service.record
    ensures service.Valid() && |old(service.log)| <= |service.log|
    ensures (old(service.died) ==> service.died) && (old(service.down) ==> service.down)
    ensures InOrder(delivered, start) && |already| <= |delivered|
    ensures |delivered| == |already| ==> delivered == already
    ensures |delivered| > |already| ==> start + |delivered| <= service.bound
    ensures service.honest ==> FromLog(delivered, start, service.log)
    ensures service.honest && start + |already| <= |old(service.log)| ==> start + |delivered| <= |service.log|
    ensures outcome == None || outcome.value.Ended? || outcome.value.Gap? || outcome.value.ReceiverFailed?
    ensures service.honest ==> outcome != Some(Gap)
    ensures patient ==> outcome != Some(ReceiverFailed)
    ensures service.honest && outcome == Some(Ended) ==> service.finished && start + |delivered| == |service.log|
    ensures patient && service.honest && service.steady && service.owned && start + |already| <= |old(service.log)| ==>
              outcome == Some(Ended) || (outcome.None? && failure.Some? && Excused(service, failure.value)) ||
              (outcome.None? && failure == Some(Unavailable) && service.died && !old(service.died))
  {
    hide Replay, InOrder, FromLog, Replays, Readable, Payloads, Ran, Acknowledged;
    delivered, outcome, failure := already, None, None;
    ghost var earlier := service.log;
    var connection := service.Connect(start + |already|);
    if service.honest {
      FromLonger(delivered, start, earlier, service.log);
      HonestReplays(connection, start + |already|, service.log);
    }
    if connection.Refused? {
      failure := Some(connection.code);
      return;
    }
    delivered, outcome :=
      Receive(connection.events, start, already, service.bound, patient, service.log, service.honest);
    FromLogEnds(delivered, start, service.log);
    if outcome.Some? {
      return;
    }
    if connection.end.Broken? {
      failure := Some(connection.end.code);
      return;
    }
    var reply := service.GetJob();
    if reply.Finished? {
      outcome := Some(Ended);
    }
    failure := if reply.Failing? then Some(reply.code) else None;
  }

  /** A failure for which the service itself is the cause. */
  ghost predicate Excused(service: JobService, code: Code)
    reads service, service.record
  {
    (code == INTERNAL && service.record.writeFailed) || (code == UNKNOWN && !Readable(service.record.file)) ||
    (code == Unavailable && service.down)
  }

  /** Delivers each event once and in order whatever the service does, and ends because no
      connection can bring more than `bound` events and six in a row that bring nothing are the
      last. From an honest service it ends normally only with the whole log delivered: every event
      that was acknowledged, and at most one more, also when the server died and started again in
      between. And so it ends when nothing fails but that the server may die, unless the log is
      spoilt or too long. A `patient` caller does not give up or fail to receive; `quiet` counts the
      last connections that brought nothing new. */
  method WatchJob(service: JobService, start: nat, patient: bool)
    returns (outcome: Outcome, delivered: seq<Event>, ghost quiet: nat)
    requires service.Valid()
    modifies service, service.record
    ensures service.Valid()
    ensures InOrder(delivered, start) && (delivered == [] || start + |delivered| <= service.bound)
    ensures service.honest ==> FromLog(delivered, start, service.log) && outcome != Gap
    ensures service.honest && outcome.Ended? ==>
              service.finished && start + |delivered| == |service.log| &&
              service.known <= service.log && |service.log| <= |service.known| + 1
    ensures outcome.GaveUp? ==> quiet == ATTEMPTS + if delivered == [] then 1 else 0
    ensures patient ==> !outcome.Cancelled? && !outcome.ReceiverFailed?
    ensures patient && service.honest && service.steady && service.owned && start <= old(|service.log|) ==>
              outcome.Ended? || service.record.writeFailed || service.Unreadable()
  {
    hide Replay, InOrder, FromLog, Replays, Readable, Payloads, Ran, Acknowledged, Spoilt, Size, InSequence;
    ghost var sure := patient && service.honest && service.steady && service.owned && start <= |service.log|;
    delivered, quiet := [], 0;
    var after, attempt := start, 0;
    NothingYet(start, service.log);
    while true
      invariant service.Valid() && InOrder(delivered, start) && after == start + |delivered|
      invariant delivered != [] ==> after <= service.bound
      invariant service.honest ==> FromLog(delivered, start, service.log)
      invariant sure ==>
                  after <= |service.log| && (service.down || attempt == 0 || (service.died && attempt == 1))
      invariant attempt == quiet + (if delivered == [] then 0 else 1) && attempt <= ATTEMPTS
      decreases service.bound - after, ATTEMPTS - attempt
    {
      var stopped, failure;
      delivered, stopped, failure := ReceiveOnce(service, start, delivered, patient);
      quiet := quiet + 1;
      if |delivered| > after - start {
        attempt, quiet := 0, 0;
      }
      after := start + |delivered|;
      if stopped.Some? {
        return stopped.value, delivered, quiet;
      }
      var cancelled := *;
      if cancelled && !patient {
        return Outcome.Cancelled, delivered, quiet;
      }
      if failure.Some? && !Retried(failure.value) {
        service.UnreadableMeans();
        return Stopped(failure.value), delivered, quiet;
      }
      if attempt >= ATTEMPTS {
        service.UnreadableMeans();
        return GaveUp, delivered, quiet;
      }
      cancelled := *;
      if cancelled && !patient {
        return Outcome.Cancelled, delivered, quiet;
      }
      attempt := attempt + 1;
    }
  }

  lemma FromLogEnds(delivered: seq<Event>, start: nat, log: seq<Payload>)
    ensures FromLog(delivered, start, log) && delivered != [] ==> start + |delivered| <= |log|
  {}

  lemma NothingYet(start: nat, log: seq<Payload>)
    ensures InOrder([], start) && FromLog([], start, log)
  {}

  lemma HonestReplays(connection: Connection, after: nat, log: seq<Payload>)
    requires connection.Opened? && connection.events != [] ==>
               after + |connection.events| <= |log| &&
               connection.events == Replay(log, after, after + |connection.events|)
    ensures connection.Opened? ==> Replays(connection.events, after, log)
  {
    hide Replay;
  }
}
