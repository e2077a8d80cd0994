/** Agreement of the console with the log: once nothing is under way the window ends with exactly
    the lines the log still holds, and exactly when that fails. */
module ConsoleAgreement {
  import opened Wrappers
  import opened GameLog
  import opened ConsoleView
  import opened ConsoleProtocol
  import opened ConsoleFollows
  import opened ConsoleLinked

  // ---- The theorems ----

  /** Nothing is under way: no event waits to be emitted or delivered, except perhaps an exit, and
      while a game plays every line recorded has been read.  Lines recorded after its end stay
      unread. */
  predicate Quiet(s: State) {
    && s.phase.Live? && s.queue == [] && s.pending.None? && !s.game.Starting?
    && (s.game.Playing? ==> s.sent == |s.history|)
  }

  ghost predicate IsSuffix<T>(a: seq<T>, b: seq<T>) {
    |a| <= |b| && b[|b| - |a|..] == a
  }

  /** Once nothing is under way the window ends with exactly the lines the log holds, if and only if
      there are none, or the window was told of the session, no line that the log still holds was
      in a batch emitted to nobody after a start that had been heard, and none was recorded after
      both the last batch and the snapshot. */
  lemma Agreement(steps: seq<Step>)
    requires Quiet(Reached(steps))
    ensures var s := Reached(steps);
            IsSuffix(Held(s.history), s.console.lines) <==>
            Held(s.history) == [] ||
            (Told(s) && s.missedTo <= First(s.history) && |s.history| <= Max(s.sent, ShownTo(s)))
  {
    var s := Reached(steps);
    QuietMeans(steps);
    if Told(s) && s.loud {
      HeldOrMissed(s.console, s.history, s.missedTo, s.sent, ShownTo(s));
    }
    hide First;
  }

  /** The session the window shows: that of the last start it heard or, if it heard none, the
      snapshot's.  Of a game it was not told of it shows no line. */
  lemma SessionsMeet(steps: seq<Step>)
    requires Quiet(Reached(steps))
    ensures var s := Reached(steps);
            && s.console.session == ShownSession(s)
            && (s.loud && !Told(s) ==> s.console.lines == [])
  {
    QuietMeans(steps);
  }

  /** What the invariants say of a quiet state. */
  lemma QuietMeans(steps: seq<Step>)
    requires Quiet(Reached(steps))
    ensures var s := Reached(steps);
            && Decided(s) && Virtual(s) == s.console
            && s.emittedTo == s.sent <= |s.history| && s.missedTo <= |s.history| && ShownTo(s) <= |s.history|
            && (!s.loud ==> s.history == [])
  {
    var s := Reached(steps);
    hide Next, Safe, Decided, Unsettled;
    AlwaysSafe(steps);
    AlwaysLinked(steps);
    SafeMeans(s);
    assert Coming(s) == [];
    CountersMean(s);
    hide Counters;
  }

  lemma CountersMean(s: State)
    requires Counters(s) && s.pending.None?
    ensures s.emittedTo == s.sent <= |s.history| && s.missedTo <= |s.history| && ShownTo(s) <= |s.history|
    ensures !s.loud ==> s.history == []
  {
  }

  lemma HeldOrMissed(v: View, history: seq<GameLine>, missed: nat, sent: nat, shown: nat)
    requires Follows(v, history, missed, sent) && Reaches(v, history, sent, shown)
    requires missed <= |history| && sent <= |history| && shown <= |history|
    ensures IsSuffix(Held(history), v.lines) <==>
            Held(history) == [] || (missed <= First(history) && |history| <= Max(sent, shown))
  {
    var first := First(history);
    if first < |history| {
      if IsSuffix(Held(history), v.lines) {
        SuffixReaches(v, history, missed, sent, shown);
      }
      if missed <= first && |history| <= Max(sent, shown) {
        ReachedSuffix(v, history, missed, sent, shown);
      }
    }
    hide First, Follows, Reaches;
  }

  lemma SuffixReaches(v: View, history: seq<GameLine>, missed: nat, sent: nat, shown: nat)
    requires Follows(v, history, missed, sent) && Reaches(v, history, sent, shown)
    requires First(history) < |history| && IsSuffix(Held(history), v.lines)
    ensures missed <= First(history) && |history| <= Max(sent, shown)
  {
    hide First, Covers;
    SuffixEnds(Held(history), v.lines);
  }

  lemma ReachedSuffix(v: View, history: seq<GameLine>, missed: nat, sent: nat, shown: nat)
    requires Follows(v, history, missed, sent) && Reaches(v, history, sent, shown)
    requires missed <= First(history) < |history| <= Max(sent, shown) && sent <= |history| && shown <= |history|
    ensures IsSuffix(Held(history), v.lines)
  {
    hide First, PartOf, Numbered;
    assert history[First(history)..|history|] == Held(history);
  }

  lemma SuffixEnds<T>(a: seq<T>, b: seq<T>)
    requires IsSuffix(a, b) && a != []
    ensures b[|b| - |a|] == a[0] && b[|b| - 1] == a[|a| - 1]
  {
    var end := b[|b| - |a|..];
    assert end[0] == a[0] && end[|a| - 1] == a[|a| - 1];
  }

  // ---- With the log listener attached first nothing is missed ----

  /** In no state is the start listener on while the log listener is not. */
  ghost predicate LogListenerFirst(steps: seq<Step>) {
    forall n :: 0 <= n <= |steps| ==> (Reached(steps[..n]).startedOn ==> Reached(steps[..n]).logOn)
  }

  lemma {:induction false} NothingMissed(steps: seq<Step>)
    requires LogListenerFirst(steps)
    ensures Reached(steps).missedTo == 0
    decreases |steps|
  {
    hide Next;
    if steps != [] {
      var n := |steps| - 1;
      forall k | 0 <= k <= n
        ensures Reached(steps[..n][..k]).startedOn ==> Reached(steps[..n][..k]).logOn
      {
        assert steps[..n][..k] == steps[..k];
      }
      NothingMissed(steps[..n]);
      assert steps[..n][..n] == steps[..n];
      HeardMeansOn(steps[..n]);
      StepMisses(Reached(steps[..n]), steps[n]);
    }
  }

  lemma HeardMeansOn(steps: seq<Step>)
    ensures Heard(Reached(steps)) ==> Reached(steps).startedOn
  {
    AlwaysLinked(steps);
    hide Reached, Unsettled, Decided, Numbered, PendingOk, OnlyExits;
  }

  /** Only a batch emitted without a listener is missed. */
  predicate MissesNoMore(s: State, t: State) {
    s.missedTo == 0 && (Heard(s) ==> s.logOn) ==> t.missedTo == 0
  }

  lemma StepMisses(s: State, step: Step)
    ensures MissesNoMore(s, Next(s, step))
  {
    hide StartEmitted, Printed, BatchTaken, BatchEmitted, Finished, ExitEmitted, SnapshotTaken, Connected, Delivered;
    if Enabled(s, step) {
      match step {
        case EmitBatch => BatchMisses(s);
        case EmitStarted => StartMisses(s);
        case Print(stream, text) => PrintMisses(s, stream, text);
        case TakeBatch => TakeMisses(s);
        case Finish(code, stopped) => FinishMisses(s, code, stopped);
        case EmitExit(place) => ExitMisses(s, place);
        case Answer => AnswerMisses(s);
        case Connect => ConnectMisses(s);
        case Deliver => DeliverMisses(s);
        case _ =>
      }
    }
  }

  lemma BatchMisses(s: State)
    requires s.pending.Some?
    ensures MissesNoMore(s, BatchEmitted(s))
  {
  }

  lemma StartMisses(s: State)
    ensures MissesNoMore(s, StartEmitted(s))
  {
  }

  lemma PrintMisses(s: State, stream: Stream, text: string)
    ensures MissesNoMore(s, Printed(s, stream, text))
  {
    hide Grown;
  }

  lemma TakeMisses(s: State)
    requires s.sent <= |s.history|
    ensures MissesNoMore(s, BatchTaken(s))
  {
    hide Unsent;
  }

  lemma FinishMisses(s: State, code: int, stopped: bool)
    ensures MissesNoMore(s, Finished(s, code, stopped))
  {
  }

  lemma ExitMisses(s: State, place: nat)
    requires place < |s.exits|
    ensures MissesNoMore(s, ExitEmitted(s, place))
  {
    hide Without;
  }

  lemma AnswerMisses(s: State)
    ensures MissesNoMore(s, SnapshotTaken(s))
  {
    hide TakeSnapshot;
  }

  lemma ConnectMisses(s: State)
    ensures MissesNoMore(s, Connected(s))
  {
    hide ApplyAll, Loaded;
  }

  lemma DeliverMisses(s: State)
    requires s.queue != []
    ensures MissesNoMore(s, Delivered(s))
  {
    if s.phase.Live? {
      MovedLive(s);
    } else {
      MovedWaiting(s);
    }
    hide Delivered, Apply;
  }

  /** With the log listener attached first, whatever else interleaves, the window ends with exactly
      the lines the log holds, unless it was never told of the session or a line was recorded after
      both the last batch and the snapshot. */
  lemma ConsoleCatchesUp(steps: seq<Step>)
    requires LogListenerFirst(steps) && Quiet(Reached(steps))
    ensures var s := Reached(steps);
            IsSuffix(Held(s.history), s.console.lines) <==>
            Held(s.history) == [] || (Told(s) && |s.history| <= Max(s.sent, ShownTo(s)))
  {
    NothingMissed(steps);
    Agreement(steps);
  }
}
