/** The invariant that links the launcher's log, the events under way and the window.

    It is stated of a virtual console, the one that has already applied every event under way.
    Deliveries do not change it, so it can be compared with the log at any moment. */
module ConsoleLinked {
  import opened Wrappers
  import opened GameLog
  import opened ConsoleView
  import opened ConsoleProtocol
  import opened ConsoleFollows

  function Coming(s: State): seq<Event> { s.waiting + s.queue }

  predicate Settled(s: State) { s.phase.Answered? || s.phase.Live? }

  function Virtual(s: State): View { ApplyAll(Base(s), Coming(s)) }

  /** The session the window will show: that of the last start it heard, or else the snapshot's. */
  function ShownSession(s: State): nat {
    if s.heardIn > 0 then s.heardIn else if s.taken.Some? then s.taken.value.session else 0
  }

  /** The window is told of the current session. */
  predicate Told(s: State) { ShownSession(s) == Session(s) }

  /** How much of the current session's history came with the snapshot, if no start wiped it. */
  function ShownTo(s: State): nat {
    if s.heardIn == 0 && s.taken.Some? && s.taken.value.session == Session(s) then s.taken.value.to else 0
  }

  ghost predicate Counters(s: State) {
    && Numbered(s.history)
    && s.missedTo <= s.emittedTo <= s.sent <= |s.history|
    && (s.pending.None? ==> s.emittedTo == s.sent)
    && (s.pending.Some? ==> PendingOk(s.pending.value, s.history, s.emittedTo, s.sent))
    && (s.pending.Some? || s.game.Playing? || Heard(s) ==> s.loud)
    && (s.game.Starting? ==> !s.loud)
    && (s.loud || s.game.Starting? ==> Session(s) > 0)
    && (!s.loud ==> s.history == [])
    && (!Heard(s) ==> s.missedTo == 0)
    && s.heardIn <= Session(s)
    && (s.heardIn > 0 ==> s.startedOn)
    && (s.loud && !Heard(s) ==> s.heardIn == 0)
    && (s.loud && !Heard(s) && s.taken.Some? ==> s.taken.value.session == Session(s))
    && (s.taken.Some? ==> Settled(s) && s.taken.value.session <= Session(s) && ShownTo(s) <= |s.history|)
    && (!s.phase.Attaching? ==> s.startedOn && s.logOn && s.exitOn)
    && Archive(s)[0] == []
    && OnlyExits(s.exits)
  }

  ghost predicate OnlyExits(events: seq<Event>) {
    forall i :: 0 <= i < |events| ==> events[i].Exit?
  }

  /** Before the snapshot request is answered the console may still start from anything. */
  ghost predicate FromAnywhere(events: seq<Event>, logOn: bool, session: nat, history: seq<GameLine>, missed: nat,
                               emittedTo: nat) {
    forall v :: OkLimits(v) ==>
      var w := ApplyAll(v, events);
      && w.session == session
      && Tracks(w, session, history, missed, emittedTo)
      && w.nextSeq <= emittedTo
      && (!logOn ==> w.lines == [] && w.nextSeq == 0)
  }

  /** Whatever it starts from, the console ends in this session. */
  ghost predicate EndsIn(events: seq<Event>, session: nat) {
    forall v :: ApplyAll(v, events).session == session
  }

  ghost predicate Unsettled(s: State) {
    && s.console == FIRST_VIEW
    && s.taken.None?
    && (!s.logOn ==> NoBatch(Coming(s)))
    && (!s.startedOn ==> NoStarted(Coming(s)))
    && (Heard(s) ==> FromAnywhere(Coming(s), s.logOn, Session(s), s.history, s.missedTo, s.emittedTo))
    && (!Heard(s) ==> AllOld(Coming(s), Session(s), s.history, s.emittedTo))
    && (if s.heardIn > 0 then EndsIn(Coming(s), s.heardIn) else NoStarted(Coming(s)))
  }

  /** How far a console of the current session reaches: to the last line emitted or, before that,
      to the end of the snapshot, unless the log has dropped everything in it. */
  ghost predicate Reaches(v: View, history: seq<GameLine>, emittedTo: nat, shown: nat) {
    && v.nextSeq <= Max(emittedTo, shown)
    && (First(history) < shown ==> shown <= v.nextSeq)
  }

  ghost predicate Decided(s: State) {
    && Tracks(Virtual(s), Session(s), s.history, s.missedTo, s.emittedTo)
    && Virtual(s).session == ShownSession(s)
    && (Told(s) ==> Reaches(Virtual(s), s.history, s.emittedTo, ShownTo(s)))
    && (s.loud && !Told(s) ==> Virtual(s).lines == [])
  }

  ghost predicate Linked(s: State) {
    && Counters(s)
    && (Settled(s) ==> Decided(s))
    && (!Settled(s) ==> Unsettled(s))
  }

  lemma SnapshotTracks(s: State)
    requires Numbered(s.history) && s.emittedTo <= |s.history|
    ensures Tracks(Loaded(TakeSnapshot(s)), Session(s), s.history, 0, s.emittedTo)
    ensures Loaded(TakeSnapshot(s)).session == Session(s)
  {
    hide Follows, First, Held, NextAfter, Numbered;
    HeldFollows(Loaded(TakeSnapshot(s)), s.history, s.emittedTo);
  }

  // ---- Every step keeps the invariant ----

  /** One more event under way, seen by the virtual console and by any console. */
  lemma OneMoreComing(s: State, e: Event)
    ensures s.waiting + (s.queue + [e]) == Coming(s) + [e]
    ensures forall v :: ApplyAll(v, Coming(s) + [e]) == Apply(ApplyAll(v, Coming(s)), e)
  {
    hide ApplyAll, Apply;
    assert s.waiting + (s.queue + [e]) == s.waiting + s.queue + [e];
    forall v ensures ApplyAll(v, Coming(s) + [e]) == Apply(ApplyAll(v, Coming(s)), e) {
      ApplyAllLast(v, Coming(s), e);
    }
  }

  lemma LinkedSession(s: State, t: State)
    requires Safe(s) && Linked(s) && s.pending.None?
    requires t == NewSession(s).(build := t.build, game := t.game) && !t.game.Playing?
    ensures Linked(t)
  {
    hide ShowsPart, IsSlice, PartOf, ApplyAll, OkLimits, Follows, FromAnywhere, First;
    assert Coming(t) == Coming(s) && Base(t) == Base(s);
    var events := Coming(s);
    forall i | 0 <= i < |events|
      ensures events[i].session < Session(t)
    {
      assert EventOk(events[i], Archive(s)) by {
        if i < |s.waiting| {
          assert events[i] == s.waiting[i];
        } else {
          assert events[i] == s.queue[i - |s.waiting|];
        }
      }
    }
  }

  lemma LinkedStart(s: State)
    requires Linked(s) && s.game.Starting?
    ensures Linked(StartEmitted(s))
  {
    hide Follows, OkLimits, PendingOk, IsSlice, Numbered, Tracks, Apply, Old;
    var t := StartEmitted(s);
    var e := Started(Session(s), s.build);
    OneMoreComing(s, e);
    if s.startedOn {
      assert Coming(t) == Coming(s) + [e] && Base(t) == Base(s);
      forall v ensures ApplyAll(v, Coming(t)).session == Session(s) {
        SessionOf(ApplyAll(v, Coming(s)), e);
      }
      if Settled(s) {
        TracksLimits(Virtual(s), Session(s), s.history, s.missedTo, s.emittedTo);
        StartedTracks(Virtual(s), Session(s), s.build);
      } else {
        forall v | OkLimits(v)
          ensures var w := ApplyAll(v, Coming(t));
                  && w.session == Session(s) && w.lines == [] && w.nextSeq == 0
                  && Tracks(w, Session(s), [], 0, 0)
        {
          AllLimitsStay(v, Coming(s));
          StartedTracks(ApplyAll(v, Coming(s)), Session(s), s.build);
        }
      }
    } else {
      assert Coming(t) == Coming(s) && Base(t) == Base(s);
    }
  }

  lemma SessionOf(v: View, e: Event)
    ensures Apply(v, e).session == if e.Started? then e.session else v.session
  {
  }

  lemma TracksLimits(v: View, session: nat, history: seq<GameLine>, missed: nat, emittedTo: nat)
    requires Tracks(v, session, history, missed, emittedTo)
    ensures OkLimits(v)
  {
  }

  lemma PendingGrown(batch: seq<GameLine>, history: seq<GameLine>, grown: seq<GameLine>, emittedTo: nat, sent: nat)
    requires PendingOk(batch, history, emittedTo, sent) && history <= grown
    ensures PendingOk(batch, grown, emittedTo, sent)
  {
    assert grown == history + grown[|history|..];
    FirstOnlyGrows(history, grown[|history|..]);
  }

  lemma OldGrown(e: Event, session: nat, history: seq<GameLine>, grown: seq<GameLine>, emittedTo: nat)
    requires Old(e, session, history, emittedTo) && history <= grown
    ensures Old(e, session, grown, emittedTo)
  {
  }

  lemma ReachesGrown(v: View, history: seq<GameLine>, grown: seq<GameLine>, emittedTo: nat, shown: nat)
    requires history <= grown
    ensures Reaches(v, history, emittedTo, shown) ==> Reaches(v, grown, emittedTo, shown)
  {
    assert grown == history + grown[|history|..];
    FirstOnlyGrows(history, grown[|history|..]);
    hide First;
  }

  lemma LinkedPrint(s: State, stream: Stream, text: string)
    requires Linked(s) && s.loud
    ensures Linked(Printed(s, stream, text))
  {
    hide Follows, OkLimits, Tracks, Apply, Old, PendingOk, ApplyAll, NoBatch, NoStarted, Reaches;
    var t := Printed(s, stream, text);
    GrownNumbered(s.history, stream, text);
    hide Grown, Numbered;
    assert Coming(t) == Coming(s) && Base(t) == Base(s);
    if s.pending.Some? {
      PendingGrown(s.pending.value, s.history, t.history, s.emittedTo, s.sent);
    }
    if Settled(s) {
      TracksGrown(Virtual(s), Session(s), s.history, t.history, s.missedTo, s.emittedTo);
      ReachesGrown(Virtual(s), s.history, t.history, s.emittedTo, ShownTo(s));
    } else if Heard(s) {
      forall v | OkLimits(v)
        ensures Tracks(ApplyAll(v, Coming(s)), Session(s), t.history, s.missedTo, s.emittedTo)
      {
        TracksGrown(ApplyAll(v, Coming(s)), Session(s), s.history, t.history, s.missedTo, s.emittedTo);
      }
    } else {
      forall i | 0 <= i < |Coming(s)|
        ensures Old(Coming(s)[i], Session(s), t.history, s.emittedTo)
      {
        OldGrown(Coming(s)[i], Session(s), s.history, t.history, s.emittedTo);
      }
    }
  }

  lemma LinkedTake(s: State)
    requires Linked(s) && s.game.Playing? && s.pending.None?
    ensures Linked(BatchTaken(s))
  {
    hide Decided, FromAnywhere, AllOld, NoBatch, NoStarted, First, Numbered;
    var t := BatchTaken(s);
    assert Coming(t) == Coming(s) && Base(t) == Base(s);
    var from := Max(s.sent, First(s.history));
    assert s.history[from..|s.history|] == t.pending.value;
    assert PendingOk(t.pending.value, t.history, t.emittedTo, t.sent);
    DecidedSame(s, t);
  }

  lemma DecidedSame(s: State, t: State)
    requires Virtual(t) == Virtual(s) && Session(t) == Session(s) && t.history == s.history
    requires t.missedTo == s.missedTo && t.emittedTo == s.emittedTo
    requires t.loud == s.loud && t.heardIn == s.heardIn && t.taken == s.taken
    ensures Decided(s) ==> Decided(t)
  {
  }

  lemma LinkedEmitBatch(s: State)
    requires Linked(s) && s.pending.Some?
    ensures Linked(BatchEmitted(s))
  {
    if s.pending.value == [] {
      LinkedEmitNothing(s);
    } else if s.logOn {
      LinkedEmitHeard(s);
    } else {
      LinkedEmitMissed(s);
    }
  }

  lemma LinkedEmitNothing(s: State)
    requires Linked(s) && s.pending == Some([])
    ensures Linked(BatchEmitted(s))
  {
    hide Follows, OkLimits, Tracks, Apply, PendingOk, ApplyAll, NoBatch, NoStarted, Numbered, IsSlice;
    var t := BatchEmitted(s);
    assert Coming(t) == Coming(s) && Base(t) == Base(s);
    if Settled(s) {
      NoBatchTracks(Virtual(s), Session(s), s.history, s.missedTo, s.emittedTo, s.sent);
    } else if Heard(s) {
      forall v | OkLimits(v)
        ensures Tracks(ApplyAll(v, Coming(s)), Session(s), s.history, s.missedTo, s.sent)
      {
        NoBatchTracks(ApplyAll(v, Coming(s)), Session(s), s.history, s.missedTo, s.emittedTo, s.sent);
      }
    }
  }

  lemma LinkedEmitHeard(s: State)
    requires Linked(s) && s.pending.Some? && s.pending.value != [] && s.logOn
    ensures Linked(BatchEmitted(s))
  {
    hide Follows, OkLimits, Tracks, Apply, ApplyAll, Numbered, First;
    var t := BatchEmitted(s);
    var batch := s.pending.value;
    var e := Batch(Session(s), batch);
    OneMoreComing(s, e);
    assert Coming(t) == Coming(s) + [e] && Base(t) == Base(s);
    forall v ensures ApplyAll(v, Coming(t)).session == ApplyAll(v, Coming(s)).session {
      SessionOf(ApplyAll(v, Coming(s)), e);
    }
    if Settled(s) {
      NextBatchTracks(Virtual(s), batch, Session(s), s.history, s.missedTo, s.emittedTo, s.sent);
    } else if Heard(s) {
      forall v | OkLimits(v)
        ensures var w := ApplyAll(v, Coming(t));
                && w.session == Session(s) && w.nextSeq <= s.sent
                && Tracks(w, Session(s), s.history, s.missedTo, s.sent)
      {
        NextBatchTracks(ApplyAll(v, Coming(s)), batch, Session(s), s.history, s.missedTo, s.emittedTo, s.sent);
      }
    } else {
      PendingIsOld(s);
    }
  }

  lemma PendingIsOld(s: State)
    requires Counters(s) && s.pending.Some? && s.pending.value != []
    ensures Old(Batch(Session(s), s.pending.value), Session(s), s.history, s.sent)
  {
    hide First;
  }

  lemma LinkedEmitMissed(s: State)
    requires Linked(s) && s.pending.Some? && s.pending.value != [] && !s.logOn
    ensures Linked(BatchEmitted(s))
  {
    hide Follows, OkLimits, Tracks, Apply, PendingOk, ApplyAll, NoBatch, NoStarted, Numbered, IsSlice;
    var t := BatchEmitted(s);
    assert Coming(t) == Coming(s) && Base(t) == Base(s);
    if Heard(s) {
      forall v | OkLimits(v)
        ensures Tracks(ApplyAll(v, Coming(s)), Session(s), s.history, s.sent, s.sent)
      {
        MissedTracks(ApplyAll(v, Coming(s)), Session(s), s.history, s.missedTo, s.emittedTo, s.sent);
      }
    }
  }

  lemma LinkedExit(s: State, place: nat)
    requires Safe(s) && Linked(s) && place < |s.exits|
    ensures Linked(ExitEmitted(s, place))
  {
    hide Follows, OkLimits, Tracks, Apply, ApplyAll, Numbered, PendingOk, IsSlice, ShowsPart;
    var t := ExitEmitted(s, place);
    var e := s.exits[place];
    OneMoreComing(s, e);
    assert EventOk(e, Archive(s));
    assert OnlyExits(t.exits);
    hide Without, OnlyExits;
    if s.exitOn {
      assert Coming(t) == Coming(s) + [e] && Base(t) == Base(s);
      forall v ensures ApplyAll(v, Coming(t)).session == ApplyAll(v, Coming(s)).session {
        SessionOf(ApplyAll(v, Coming(s)), e);
      }
      if Settled(s) {
        ExitTracks(Virtual(s), e, Session(s), s.history, s.missedTo, s.emittedTo);
      } else if Heard(s) {
        forall v | OkLimits(v)
          ensures var w, u := ApplyAll(v, Coming(s)), ApplyAll(v, Coming(t));
                  && u.session == w.session && u.lines == w.lines && u.nextSeq == w.nextSeq
                  && Tracks(u, Session(s), s.history, s.missedTo, s.emittedTo)
        {
          ExitTracks(ApplyAll(v, Coming(s)), e, Session(s), s.history, s.missedTo, s.emittedTo);
        }
      }
    } else {
      assert Coming(t) == Coming(s) && Base(t) == Base(s);
    }
  }

  /** The console that starts from the snapshot reaches its end. */
  lemma SnapshotReaches(s: State)
    requires Numbered(s.history)
    ensures Reaches(Loaded(TakeSnapshot(s)), s.history, 0, |s.history|)
  {
    var first := First(s.history);
    hide First;
    if first < |s.history| {
      LastOfSlice(s.history, first, |s.history|);
      assert s.history[first..|s.history|] == Held(s.history);
    } else {
      assert Held(s.history) == [];
    }
  }

  lemma FurtherReaches(v: View, w: View, history: seq<GameLine>, emittedTo: nat)
    requires Reaches(v, history, 0, |history|) && Further(v, w, emittedTo) && emittedTo <= |history|
    ensures Reaches(w, history, emittedTo, |history|)
  {
    hide First;
  }

  lemma LinkedAnswer(s: State)
    requires Linked(s) && s.phase.Asking?
    ensures Linked(SnapshotTaken(s))
  {
    hide Follows, Tracks, Apply, ApplyAll, Numbered, PendingOk, IsSlice, OkLimits, First, TakeSnapshot, Loaded,
      NoBatch, NoStarted, AllOld, Reaches, Further;
    var t := SnapshotTaken(s);
    var v := Loaded(TakeSnapshot(s));
    assert Coming(t) == Coming(s) && Base(t) == v;
    SnapshotTracks(s);
    TracksLimits(v, Session(s), s.history, 0, s.emittedTo);
    if s.heardIn == 0 {
      AllOldTrack(v, Coming(s), Session(s), s.history, s.emittedTo);
      SnapshotReaches(s);
      FurtherReaches(v, Virtual(t), s.history, s.emittedTo);
    } else if Heard(s) {
      EmittedReaches(Virtual(t), s.history, s.emittedTo);
    } else {
      AllOldTrack(v, Coming(s), Session(s), s.history, s.emittedTo);
    }
  }

  lemma EmittedReaches(v: View, history: seq<GameLine>, emittedTo: nat)
    requires v.nextSeq <= emittedTo
    ensures Reaches(v, history, emittedTo, 0)
  {
  }

  /** Without a start no event changes a console that shows nothing and no session. */
  lemma {:induction false} NothingShown(v: View, events: seq<Event>, archive: seq<seq<GameLine>>)
    requires v.session == 0 && v.lines == [] && v.nextSeq == 0 && NoStarted(events)
    requires AllOk(events, archive) && archive != [] && archive[0] == []
    ensures var w := ApplyAll(v, events); w.session == 0 && w.lines == [] && w.nextSeq == 0
    decreases |events|
  {
    hide Numbered;
    if events != [] {
      AllOkParts(events, events[0], archive);
      assert EventOk(events[0], archive);
      var w := Apply(v, events[0]);
      assert w.session == 0 && w.lines == [] && w.nextSeq == 0;
      hide Apply, EventOk, AllOk;
      NothingShown(Apply(v, events[0]), events[1..], archive);
    }
  }

  lemma ComingOk(s: State)
    requires Safe(s)
    ensures AllOk(Coming(s), Archive(s))
  {
    hide EventOk;
  }

  lemma LinkedFailure(s: State)
    requires Safe(s) && Linked(s) && s.phase.Asking?
    ensures Linked(s.(phase := Answered(None)))
  {
    hide Follows, Apply, ApplyAll, Numbered, PendingOk, IsSlice, First, NoBatch, NoStarted, AllOld, Further;
    var t := s.(phase := Answered(None));
    assert Coming(t) == Coming(s) && Base(t) == FIRST_VIEW;
    if s.heardIn == 0 {
      ComingOk(s);
      NothingShown(FIRST_VIEW, Coming(s), Archive(s));
    }
    if !Heard(s) {
      if Session(s) == 0 {
        FirstFollows(s);
      }
      AllOldTrack(FIRST_VIEW, Coming(s), Session(s), s.history, s.emittedTo);
    }
  }

  lemma FirstFollows(s: State)
    requires Linked(s) && !Heard(s)
    ensures s.history == [] && s.emittedTo == 0 ==> Follows(FIRST_VIEW, s.history, 0, s.emittedTo)
  {
    if s.history == [] && s.emittedTo == 0 {
      EmptyFollows(FIRST_VIEW);
    }
  }

  lemma ConnectKeeps(s: State)
    requires s.phase.Answered?
    ensures Virtual(Connected(s)) == Virtual(s) && Coming(Connected(s)) == s.queue
  {
    ApplyAllConcat(Base(s), s.waiting, s.queue);
    assert Coming(Connected(s)) == s.queue;
    hide ApplyAll;
  }

  lemma DeliverKeeps(s: State)
    requires s.queue != [] && (s.phase.Live? ==> s.waiting == [])
    ensures Virtual(Delivered(s)) == Virtual(s)
    ensures Coming(Delivered(s)) == if s.phase.Live? then Coming(s)[1..] else Coming(s)
  {
    var t := Delivered(s);
    if s.phase.Live? {
      MovedLive(s);
      hide Delivered, Apply;
      assert Coming(s) == s.queue && Coming(t) == s.queue[1..];
      assert ApplyAll(s.console, s.queue) == ApplyAll(Apply(s.console, s.queue[0]), s.queue[1..]);
    } else {
      MovedWaiting(s);
      hide Delivered, ApplyAll;
      assert Coming(t) == Coming(s) && Base(t) == Base(s);
    }
  }

  lemma LinkedConnect(s: State)
    requires Linked(s) && s.phase.Answered?
    ensures Linked(Connected(s))
  {
    ConnectKeeps(s);
    assert Connected(s) == s.(phase := Live, waiting := [], console := Connected(s).console);
    hide Counters, Tracks, Virtual, Coming, Connected, Reaches, Unsettled;
    CountersMoved(s, Connected(s));
  }

  lemma LinkedDeliver(s: State)
    requires Linked(s) && s.queue != [] && (s.phase.Live? ==> s.waiting == [])
    ensures Linked(Delivered(s))
  {
    DeliverKeeps(s);
    if s.phase.Live? {
      MovedLive(s);
      hide Counters, Tracks, Virtual, Coming, Delivered, Apply, Reaches, Unsettled;
      CountersMoved(s, Delivered(s));
    } else {
      MovedWaiting(s);
      hide Counters, Tracks, Virtual, Coming, Delivered, Reaches, AllOld, NoBatch, NoStarted, FromAnywhere, EndsIn;
      CountersMoved(s, Delivered(s));
    }
  }

  lemma CountersMoved(s: State, t: State)
    requires Counters(s)
    requires t == s.(queue := t.queue, waiting := t.waiting, console := t.console, phase := t.phase)
    requires t.phase == s.phase || (Settled(s) && Settled(t))
    ensures Counters(t)
  {
    hide Numbered, PendingOk, OnlyExits;
  }

  lemma LinkedFinish(s: State, code: int, stopped: bool)
    requires Linked(s)
    ensures Linked(Finished(s, code, stopped))
  {
    var t := Finished(s, code, stopped);
    assert Coming(t) == Coming(s) && Base(t) == Base(s);
    assert OnlyExits(t.exits);
    hide Tracks, ApplyAll, Numbered, PendingOk, First, FromAnywhere, AllOld, NoBatch, NoStarted;
  }

  /** Attaching a listener and sending the request change no event under way. */
  lemma LinkedWired(s: State, t: State)
    requires Linked(s) && s.phase.Attaching?
    requires t == s.(startedOn := t.startedOn, logOn := t.logOn, exitOn := t.exitOn, phase := t.phase)
    requires (s.startedOn ==> t.startedOn) && (s.logOn ==> t.logOn) && (s.exitOn ==> t.exitOn)
    requires t.phase.Attaching? || (t.phase.Asking? && s.startedOn && s.logOn && s.exitOn)
    ensures Linked(t)
  {
    assert Coming(t) == Coming(s) && Base(t) == Base(s);
    hide Tracks, ApplyAll, Numbered, PendingOk, First, AllOld, NoBatch, NoStarted, Coming, OnlyExits, Old;
  }

  lemma LinkedInit()
    ensures Linked(INIT)
  {
  }

  /** Steps of the launcher, as against those of the window. */
  predicate ByLauncher(step: Step) {
    match step
    case SilentBegin | Begin(_) | EmitStarted | Print(_, _) => true
    case TakeBatch | EmitBatch | Finish(_, _) | EmitExit(_) => true
    case _ => false
  }

  lemma LinkedByLauncher(s: State, step: Step)
    requires Safe(s) && Linked(s) && Enabled(s, step) && ByLauncher(step)
    ensures Linked(Next(s, step))
  {
    hide Safe, Linked, StartEmitted, Printed, BatchTaken, BatchEmitted, Finished, ExitEmitted;
    SafeMeans(s);
    match step {
      case SilentBegin => LinkedSession(s, Next(s, step));
      case Begin(_) => LinkedSession(s, Next(s, step));
      case EmitStarted => LinkedStart(s);
      case Print(stream, text) => LinkedPrint(s, stream, text);
      case TakeBatch => LinkedTake(s);
      case EmitBatch => LinkedEmitBatch(s);
      case Finish(code, stopped) => LinkedFinish(s, code, stopped);
      case EmitExit(place) => LinkedExit(s, place);
    }
  }

  lemma LinkedByWindow(s: State, step: Step)
    requires Safe(s) && Linked(s) && Enabled(s, step) && !ByLauncher(step)
    ensures Linked(Next(s, step))
  {
    hide Safe, Linked, SnapshotTaken, Connected, Delivered;
    SafeMeans(s);
    match step {
      case AttachStarted => LinkedWired(s, s.(startedOn := true));
      case AttachLog => LinkedWired(s, s.(logOn := true));
      case AttachExit => LinkedWired(s, s.(exitOn := true));
      case Ask => LinkedWired(s, s.(phase := Asking));
      case Answer => LinkedAnswer(s);
      case AnswerFails => LinkedFailure(s);
      case Connect => LinkedConnect(s);
      case Deliver => LinkedDeliver(s);
    }
  }

  lemma LinkedNext(s: State, step: Step)
    requires Safe(s) && Linked(s)
    ensures Linked(Next(s, step))
  {
    if !Enabled(s, step) {
      hide Linked;
    } else if ByLauncher(step) {
      hide *;
      LinkedByLauncher(s, step);
    } else {
      hide *;
      LinkedByWindow(s, step);
    }
  }

  lemma SafeMeans(s: State)
    requires Safe(s)
    ensures s.sent <= |s.history|
    ensures s.phase.Live? ==> s.waiting == []
  {
  }

  lemma {:induction false} AlwaysLinked(steps: seq<Step>)
    ensures Linked(Reached(steps))
    decreases |steps|
  {
    hide Linked, Next;
    if steps == [] {
      LinkedInit();
    } else {
      AlwaysSafe(steps[..|steps| - 1]);
      AlwaysLinked(steps[..|steps| - 1]);
      LinkedNext(Reached(steps[..|steps| - 1]), steps[|steps| - 1]);
    }
  }
}
