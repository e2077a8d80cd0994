/** The heading of the console window: the build it names and whether the game runs, against
    what the launcher's log says of the session. */
module ConsoleStatus {
  import opened Wrappers
  import opened GameLog
  import opened ConsoleView
  import opened ConsoleProtocol
  import opened ConsoleFollows
  import opened ConsoleLinked
  import opened ConsoleAgreement

  /** An exit of the session still waits to be emitted. */
  ghost predicate Due(exits: seq<Event>, session: nat) {
    exists i :: 0 <= i < |exits| && exits[i].session == session
  }

  ghost predicate DistinctSessions(exits: seq<Event>) {
    forall i, j :: 0 <= i < j < |exits| ==> exits[i].session != exits[j].session
  }

  /** Every exit of the session under way says what the log's status says. */
  ghost predicate Carries(events: seq<Event>, session: nat, status: GameStatus) {
    forall i :: 0 <= i < |events| && events[i].Exit? && events[i].session == session ==>
      status == Exited(events[i].code, events[i].stopped)
  }

  ghost predicate NoExit(events: seq<Event>) {
    forall i :: 0 <= i < |events| ==> !events[i].Exit?
  }

  /** The window shows the snapshot of a session to which no game belongs. */
  predicate SilentShown(s: State) { s.heardIn == 0 && s.taken.Some? && s.taken.value.silent }

  /** What makes the window say for good that a game runs: the missed exit, the silent snapshot. */
  predicate Stuck(s: State) { s.exitMissed || SilentShown(s) }

  /** What a console that shows the current session may say of it. */
  ghost predicate HeadingOk(w: View, build: string, status: GameStatus, due: bool, missed: bool) {
    && w.build == build
    && (if missed then w.status == Running else w.status == status || (due && w.status == Running))
  }

  ghost predicate Heads(w: View, s: State) {
    w.session == Session(s) ==> HeadingOk(w, s.build, s.status, Due(s.exits, Session(s)), s.exitMissed)
  }

  /** A console says that a game runs if it is stuck, and else only while one does or its exit is due. */
  ghost predicate RunningOk(w: View, stuck: bool, due: bool, playing: bool) {
    if stuck then w.status == Running else w.status == Running ==> due || playing
  }

  ghost predicate Says(w: View, s: State) {
    && Heads(w, s)
    && RunningOk(w, Stuck(s), Due(s.exits, w.session), w.session == Session(s) && !s.game.NoGame?)
  }

  /** The same of a console that has yet to start from anything. */
  ghost predicate SaysFromAnywhere(s: State) {
    forall v ::
      var w := ApplyAll(v, Coming(s));
      Says(w, s) && (!s.exitOn ==> w.status == Running)
  }

  ghost predicate Ends(s: State) {
    && DistinctSessions(s.exits)
    && (Due(s.exits, Session(s)) ==> s.loud && s.game.NoGame?)
    && Carries(s.exits, Session(s), s.status)
    && Carries(Coming(s), Session(s), s.status)
    && (!s.game.NoGame? || Silent(s) ==> s.status == Running)
    && (s.loud && s.game.NoGame? ==> s.status.Exited?)
    && (s.exitMissed ==>
          s.heardIn > 0 && !Due(s.exits, s.heardIn) && (s.heardIn == Session(s) ==> s.game.NoGame?))
    && (s.taken.Some? && s.taken.value.silent ==>
          !Due(s.exits, s.taken.value.session) && (s.taken.value.session == Session(s) ==> Silent(s)))
    && (!s.exitOn ==> NoExit(Coming(s)))
    && (Session(s) == 0 ==> s.status == Idle && s.build == "" && s.game.NoGame?)
  }

  ghost predicate Headed(s: State) {
    && Ends(s)
    && (Settled(s) ==> Says(Virtual(s), s))
    && (!Settled(s) && s.heardIn > 0 ==> SaysFromAnywhere(s))
  }

  // ---- Single events ----

  lemma BatchHeads(w: View, e: Event)
    requires e.Batch?
    ensures Apply(w, e).session == w.session && Apply(w, e).build == w.build && Apply(w, e).status == w.status
  {
  }

  /** An event that says nothing new, except for exits that carry the status. */
  lemma OldHeads(w: View, e: Event, session: nat, history: seq<GameLine>, emittedTo: nat, build: string,
                 status: GameStatus)
    requires Old(e, session, history, emittedTo)
    requires e.Exit? && e.session == session ==> status == Exited(e.code, e.stopped)
    requires w.session == session ==> w.build == build && w.status == status
    ensures var u := Apply(w, e); u.session == session ==> u.build == build && u.status == status
  {
    if e.Batch? {
      BatchHeads(w, e);
    }
    hide Appended;
  }

  lemma {:induction false} AllOldHead(w: View, events: seq<Event>, session: nat, history: seq<GameLine>, emittedTo: nat,
                                      build: string, status: GameStatus)
    requires AllOld(events, session, history, emittedTo) && Carries(events, session, status)
    requires w.session == session ==> w.build == build && w.status == status
    ensures var u := ApplyAll(w, events); u.session == session ==> u.build == build && u.status == status
    decreases |events|
  {
    hide Old, Apply;
    if events != [] {
      OldHeads(w, events[0], session, history, emittedTo, build, status);
      assert Carries(events[1..], session, status);
      AllOldHead(Apply(w, events[0]), events[1..], session, history, emittedTo, build, status);
    }
  }

  // ---- Every step keeps the heading ----

  /** A step that leaves the status and the virtual window alone and at most delivers. */
  lemma HeadedSame(s: State, t: State, k: nat)
    requires Headed(s)
    requires Session(t) == Session(s) && t.build == s.build && t.status == s.status && t.exits == s.exits
    requires t.exitMissed == s.exitMissed && t.heardIn == s.heardIn && t.taken == s.taken && t.loud == s.loud
    requires (s.exitOn ==> t.exitOn) && t.game == s.game
    requires k <= |Coming(s)| && Coming(t) == Coming(s)[k..] && (k > 0 ==> Settled(s))
    requires Virtual(t) == Virtual(s) && Settled(t) == Settled(s)
    ensures Headed(t)
  {
    assert Coming(s)[0..] == Coming(s);
    LaterOnly(Coming(s), k, Session(s), s.status);
    hide ApplyAll, Carries, DistinctSessions, Due, NoExit, HeadingOk, RunningOk;
  }

  lemma LaterOnly(events: seq<Event>, k: nat, session: nat, status: GameStatus)
    requires k <= |events| && Carries(events, session, status)
    ensures Carries(events[k..], session, status) && (NoExit(events) ==> NoExit(events[k..]))
  {
  }

  /** No event under way speaks of a session that only now begins. */
  lemma HeadedSession(s: State, t: State)
    requires Safe(s) && Linked(s) && Headed(s) && s.game.NoGame?
    requires t == NewSession(s).(build := t.build, game := t.game) && !t.game.Playing?
    ensures Headed(t)
  {
    Opened(s, t);
    ComingOk(s);
    ExitsOk(s);
    SoonerOnly(s.exits, Archive(s));
    SoonerOnly(Coming(s), Archive(s));
    hide *;
    OpenedEnds(s, t);
    OpenedSays(s, t);
  }

  /** What opening a session changes of what the heading depends on. */
  ghost predicate Fresh(s: State, t: State) {
    && t.exits == s.exits && Session(t) == Session(s) + 1 && t.status == Running && !t.loud && s.game.NoGame?
    && !t.game.Playing? && t.exitMissed == s.exitMissed && t.heardIn == s.heardIn <= Session(s)
    && t.taken == s.taken && (s.taken.Some? ==> s.taken.value.session <= Session(s))
    && Coming(t) == Coming(s) && Virtual(t) == Virtual(s) && Settled(t) == Settled(s) && t.exitOn == s.exitOn
    && (Settled(s) ==> Virtual(s).session <= Session(s))
    && (!Settled(s) && s.heardIn > 0 ==> EndsIn(Coming(s), s.heardIn))
  }

  lemma OpenedEnds(s: State, t: State)
    requires Fresh(s, t) && Ends(s) && !Due(t.exits, Session(t))
    requires forall status :: Carries(t.exits, Session(t), status) && Carries(Coming(t), Session(t), status)
    ensures Ends(t)
  {
    hide ApplyAll, Carries, DistinctSessions, Due, NoExit, Virtual, Coming;
  }

  lemma OpenedSays(s: State, t: State)
    requires Fresh(s, t) && Headed(s) && Ends(t)
    ensures Headed(t)
  {
    hide ApplyAll, Ends, Due, HeadingOk, Virtual, Coming;
  }

  lemma Opened(s: State, t: State)
    requires Linked(s) && t == NewSession(s).(build := t.build, game := t.game)
    requires s.game.NoGame? && !t.game.Playing?
    ensures Fresh(s, t) && Session(t) == |Archive(s)|
    ensures Headed(s) ==> Ends(s)
  {
    assert Coming(t) == Coming(s) && Base(t) == Base(s);
    hide ApplyAll, Follows;
  }

  lemma ExitsOk(s: State)
    requires Safe(s)
    ensures AllOk(s.exits, Archive(s))
  {
  }

  lemma SoonerOnly(events: seq<Event>, archive: seq<seq<GameLine>>)
    requires AllOk(events, archive)
    ensures !Due(events, |archive|)
    ensures forall status :: Carries(events, |archive|, status)
  {
    hide IsSlice;
    forall i | 0 <= i < |events| ensures events[i].session < |archive| {
      assert EventOk(events[i], archive);
    }
  }

  lemma HeadedStart(s: State)
    requires Linked(s) && Headed(s) && s.game.Starting?
    ensures Headed(StartEmitted(s))
  {
    var t := StartEmitted(s);
    var e := Started(Session(s), s.build);
    OneMoreComing(s, e);
    hide ApplyAll, DistinctSessions, Due, OkLimits, Tracks, Decided, Unsettled, Follows, PendingOk, Numbered;
    if s.startedOn {
      assert Coming(t) == Coming(s) + [e] && Base(t) == Base(s);
    } else {
      assert Coming(t) == Coming(s) && Base(t) == Base(s);
    }
  }

  lemma HeadedBatch(s: State)
    requires Headed(s) && s.pending.Some?
    ensures Headed(BatchEmitted(s))
  {
    if s.pending.value != [] && s.logOn {
      HeadedBatchHeard(s);
    } else {
      QuietBatch(s);
      hide ApplyAll, Base, BatchEmitted, Due, Carries, DistinctSessions, NoExit;
      assert Coming(s)[0..] == Coming(s);
      HeadedSame(s, BatchEmitted(s), 0);
    }
  }

  lemma QuietBatch(s: State)
    requires s.pending.Some? && (s.pending.value == [] || !s.logOn)
    ensures var t := BatchEmitted(s); t == s.(pending := None, emittedTo := t.emittedTo, missedTo := t.missedTo)
  {
  }

  lemma HeadedBatchHeard(s: State)
    requires Headed(s) && s.pending.Some? && s.pending.value != [] && s.logOn
    ensures Headed(BatchEmitted(s))
  {
    var t := BatchEmitted(s);
    var e := Batch(Session(s), s.pending.value);
    OneMoreComing(s, e);
    assert Coming(t) == Coming(s) + [e] && Base(t) == Base(s);
    hide ApplyAll, DistinctSessions, Due, Apply, HeadingOk;
    forall v ensures
      var w, u := ApplyAll(v, Coming(s)), ApplyAll(v, Coming(t));
      u.session == w.session && u.build == w.build && u.status == w.status
    {
      BatchHeads(ApplyAll(v, Coming(s)), e);
    }
  }

  /** Whichever console: it ends in the session that the window will show. */
  lemma EndsAsShown(s: State)
    requires Linked(s)
    ensures Settled(s) ==> Virtual(s).session == ShownSession(s)
    ensures !Settled(s) && s.heardIn > 0 ==>
              forall v :: ApplyAll(v, Coming(s)).session == ShownSession(s)
    ensures s.game.Playing? ==> s.loud
    ensures OnlyExits(s.exits)
  {
    hide ApplyAll, Tracks, Numbered, PendingOk;
  }

  lemma OneMoreDue(exits: seq<Event>, e: Event, session: nat)
    ensures Due(exits + [e], session) <==> Due(exits, session) || e.session == session
    ensures DistinctSessions(exits) && !Due(exits, e.session) ==> DistinctSessions(exits + [e])
  {
    var more := exits + [e];
    assert more[|exits|] == e;
    if i :| 0 <= i < |exits| && exits[i].session == session {
      assert more[i].session == session;
    }
  }

  lemma HeadedFinish(s: State, code: int, stopped: bool)
    requires Linked(s) && Headed(s) && s.game.Playing?
    ensures Headed(Finished(s, code, stopped))
  {
    var t := Finished(s, code, stopped);
    var e := Exit(Session(s), code, stopped);
    EndsAsShown(s);
    assert Coming(t) == Coming(s) && Base(t) == Base(s);
    forall session ensures Due(t.exits, session) <==> Due(s.exits, session) || session == Session(s) {
      OneMoreDue(s.exits, e, session);
    }
    NoneCarried(s.exits, Session(s));
    NoneCarried(Coming(s), Session(s));
    OneMoreCarried(s.exits, e);
    hide ApplyAll, Linked, Due, Carries, DistinctSessions, NoExit, Coming, Virtual;
  }

  lemma NoneCarried(events: seq<Event>, session: nat)
    requires Carries(events, session, Running)
    ensures forall status :: Carries(events, session, status)
  {
  }

  lemma OneMoreCarried(exits: seq<Event>, e: Event)
    requires e.Exit? && forall status :: Carries(exits, e.session, status)
    ensures Carries(exits + [e], e.session, Exited(e.code, e.stopped))
  {
    assert Carries(exits, e.session, Exited(e.code, e.stopped));
  }

  lemma WithoutOne(exits: seq<Event>, place: nat, session: nat, status: GameStatus)
    requires place < |exits| && DistinctSessions(exits) && Carries(exits, session, status)
    ensures DistinctSessions(Without(exits, place)) && Carries(Without(exits, place), session, status)
  {
    var rest := Without(exits, place);
    forall i | 0 <= i < |rest|
      ensures rest[i] == exits[if i < place then i else i + 1]
    {
    }
  }

  lemma WithoutDue(exits: seq<Event>, place: nat, session: nat)
    requires place < |exits| && DistinctSessions(exits)
    ensures Due(Without(exits, place), session) <==> Due(exits, session) && exits[place].session != session
  {
    var rest := Without(exits, place);
    forall i | 0 <= i < |rest|
      ensures rest[i] == exits[if i < place then i else i + 1]
    {
    }
    if i :| 0 <= i < |exits| && exits[i].session == session && i != place {
      assert rest[if i < place then i else i - 1] == exits[i];
    }
  }

  lemma HeadedExit(s: State, place: nat)
    requires Linked(s) && Headed(s) && place < |s.exits|
    ensures Headed(ExitEmitted(s, place))
  {
    EndsAsShown(s);
    WithoutOne(s.exits, place, Session(s), s.status);
    forall session
      ensures Due(Without(s.exits, place), session) <==> Due(s.exits, session) && s.exits[place].session != session
    {
      WithoutDue(s.exits, place, session);
    }
    assert Due(s.exits, s.exits[place].session);
    if s.exitOn {
      HeadedExitHeard(s, place);
    } else {
      HeadedExitMissed(s, place);
    }
  }

  /** The step has its own effect on the exits, given by what is due. */
  ghost predicate OneFewer(s: State, place: nat)
    requires place < |s.exits|
  {
    var rest := Without(s.exits, place);
    && DistinctSessions(rest) && Carries(rest, Session(s), s.status)
    && Due(s.exits, s.exits[place].session) && s.exits[place].Exit?
    && forall session :: Due(rest, session) <==> Due(s.exits, session) && s.exits[place].session != session
  }

  lemma ExitSays(w: View, e: Event, s: State, t: State)
    requires Says(w, s) && Ends(s) && e.Exit? && Due(s.exits, e.session) && w.session == ShownSession(s)
    requires t == s.(exits := t.exits, queue := t.queue)
    requires e.session == Session(s) ==> s.status == Exited(e.code, e.stopped)
    requires forall session :: Due(t.exits, session) <==> Due(s.exits, session) && e.session != session
    ensures Says(Apply(w, e), t) && Apply(w, e).session == w.session
  {
    hide Carries, DistinctSessions, NoExit, Due;
  }

  lemma HeadedExitHeard(s: State, place: nat)
    requires Linked(s) && Headed(s) && place < |s.exits| && s.exitOn && OneFewer(s, place)
    ensures Headed(ExitEmitted(s, place))
  {
    var t := ExitEmitted(s, place);
    var e := s.exits[place];
    OneMoreComing(s, e);
    EndsAsShown(s);
    assert Coming(t) == Coming(s) + [e] && Base(t) == Base(s);
    assert Ends(t) by { hide Says, ApplyAll, Without, Linked; }
    hide ApplyAll, Linked, Without, DistinctSessions, Apply, Ends, Says, Due, Carries;
    if Settled(s) {
      ExitSays(Virtual(s), e, s, t);
    } else if s.heardIn > 0 {
      forall v ensures Says(ApplyAll(v, Coming(t)), t) {
        ExitSays(ApplyAll(v, Coming(s)), e, s, t);
      }
    }
  }

  lemma HeadedExitMissed(s: State, place: nat)
    requires Linked(s) && Headed(s) && place < |s.exits| && !s.exitOn && OneFewer(s, place)
    ensures Headed(ExitEmitted(s, place))
  {
    var t := ExitEmitted(s, place);
    EndsAsShown(s);
    assert Coming(t) == Coming(s) && Base(t) == Base(s);
    hide ApplyAll, Without, DistinctSessions, Due;
  }

  lemma HeadedAnswer(s: State)
    requires Linked(s) && Headed(s) && s.phase.Asking?
    ensures Headed(SnapshotTaken(s))
  {
    AnswerBase(s);
    AnswerSays(s);
    hide ApplyAll, Carries, DistinctSessions, NoExit, Due, Linked, HeadingOk, TakeSnapshot, Loaded, SnapshotTaken;
  }

  lemma AnswerBase(s: State)
    requires s.phase.Asking?
    ensures var t := SnapshotTaken(s);
            && t == s.(phase := t.phase, taken := Some(Taken(Session(s), |s.history|, Silent(s))))
            && Settled(t) && !Settled(s)
            && Coming(t) == Coming(s) && Virtual(t) == ApplyAll(Loaded(TakeSnapshot(s)), Coming(s))
  {
    hide ApplyAll, Loaded, TakeSnapshot;
  }

  lemma AnswerSays(s: State)
    requires Linked(s) && Headed(s) && s.phase.Asking?
    ensures Says(ApplyAll(Loaded(TakeSnapshot(s)), Coming(s)), SnapshotTaken(s))
  {
    hide ApplyAll;
    var v := Loaded(TakeSnapshot(s));
    if s.heardIn > 0 {
      FromAnywhereMeans(s, v);
    } else {
      SessionStays(v, Coming(s));
      AllOldHead(v, Coming(s), Session(s), s.history, s.emittedTo, s.build, s.status);
    }
    hide Due, Carries, DistinctSessions, NoExit;
  }

  lemma {:induction false} SessionStays(v: View, events: seq<Event>)
    requires NoStarted(events)
    ensures ApplyAll(v, events).session == v.session
    ensures v.status != Running ==> ApplyAll(v, events).status != Running
    decreases |events|
  {
    if events != [] {
      StatusStays(v, events[0]);
      hide Apply;
      SessionStays(Apply(v, events[0]), events[1..]);
    }
  }

  lemma StatusStays(v: View, e: Event)
    requires !e.Started?
    ensures Apply(v, e).session == v.session && (v.status != Running ==> Apply(v, e).status != Running)
  {
    if e.Batch? {
      BatchHeads(v, e);
    }
    hide Appended;
  }

  lemma FromAnywhereMeans(s: State, v: View)
    requires SaysFromAnywhere(s)
    ensures Says(ApplyAll(v, Coming(s)), s)
  {
  }

  lemma HeadedFailure(s: State)
    requires Linked(s) && Headed(s) && s.phase.Asking?
    ensures Headed(s.(phase := Answered(None)))
  {
    var t := s.(phase := Answered(None));
    assert Coming(t) == Coming(s) && Base(t) == FIRST_VIEW;
    hide ApplyAll;
    if s.heardIn > 0 {
      FromAnywhereMeans(s, FIRST_VIEW);
    } else {
      SessionStays(FIRST_VIEW, Coming(s));
      AllOldHead(FIRST_VIEW, Coming(s), Session(s), s.history, s.emittedTo, s.build, s.status);
    }
    hide Due, Carries, DistinctSessions, NoExit;
  }

  lemma HeadedConnect(s: State)
    requires Headed(s) && s.phase.Answered?
    ensures Headed(Connected(s))
  {
    ConnectKeeps(s);
    assert Coming(s)[|s.waiting|..] == s.queue;
    hide Headed, ApplyAll, Coming, Virtual;
    HeadedSame(s, Connected(s), |s.waiting|);
  }

  lemma HeadedDeliver(s: State)
    requires Headed(s) && s.queue != [] && (s.phase.Live? ==> s.waiting == [])
    ensures Headed(Delivered(s))
  {
    DeliverKeeps(s);
    assert Coming(s)[0..] == Coming(s) && Coming(s) != [];
    hide Headed, Coming, Virtual, Delivered, Apply;
    if s.phase.Live? {
      MovedLive(s);
      HeadedSame(s, Delivered(s), 1);
    } else {
      MovedWaiting(s);
      HeadedSame(s, Delivered(s), 0);
    }
  }

  /** Listeners, the request, and what only the log's lines see. */
  lemma HeadedQuiet(s: State, t: State)
    requires Headed(s)
    requires t == s.(history := t.history, sent := t.sent, pending := t.pending, startedOn := t.startedOn,
                     logOn := t.logOn, exitOn := t.exitOn, phase := t.phase)
    requires (s.exitOn ==> t.exitOn) && (t.phase == s.phase || (s.phase.Attaching? && t.phase.Asking?))
    ensures Headed(t)
  {
    assert Coming(t) == Coming(s) && Coming(s)[0..] == Coming(s) && Base(t) == Base(s);
    hide Headed, ApplyAll, Coming, Base;
    HeadedSame(s, t, 0);
  }

  lemma HeadedPrintOrTake(s: State, step: Step)
    requires Headed(s) && Enabled(s, step) && (step.Print? || step.TakeBatch?)
    ensures Headed(Next(s, step))
  {
    hide Headed, Grown, Unsent;
    HeadedQuiet(s, Next(s, step));
  }

  lemma HeadedInit()
    ensures Headed(INIT)
  {
  }

  lemma HeadedByLauncher(s: State, step: Step)
    requires Safe(s) && Linked(s) && Headed(s) && Enabled(s, step) && ByLauncher(step)
    ensures Headed(Next(s, step))
  {
    hide Safe, Linked, Headed, StartEmitted, Printed, BatchTaken, BatchEmitted, Finished, ExitEmitted;
    match step {
      case SilentBegin => HeadedSession(s, Next(s, step));
      case Begin(_) => HeadedSession(s, Next(s, step));
      case EmitStarted => HeadedStart(s);
      case Print(_, _) => HeadedPrintOrTake(s, step);
      case TakeBatch => HeadedPrintOrTake(s, step);
      case EmitBatch => HeadedBatch(s);
      case Finish(code, stopped) => HeadedFinish(s, code, stopped);
      case EmitExit(place) => HeadedExit(s, place);
    }
  }

  lemma HeadedByWindow(s: State, step: Step)
    requires Safe(s) && Linked(s) && Headed(s) && Enabled(s, step) && !ByLauncher(step)
    ensures Headed(Next(s, step))
  {
    SafeMeans(s);
    hide Safe, Linked, Headed, SnapshotTaken, Connected, Delivered;
    match step {
      case AttachStarted => HeadedQuiet(s, s.(startedOn := true));
      case AttachLog => HeadedQuiet(s, s.(logOn := true));
      case AttachExit => HeadedQuiet(s, s.(exitOn := true));
      case Ask => HeadedQuiet(s, s.(phase := Asking));
      case Answer => HeadedAnswer(s);
      case AnswerFails => HeadedFailure(s);
      case Connect => HeadedConnect(s);
      case Deliver => HeadedDeliver(s);
    }
  }

  lemma HeadedNext(s: State, step: Step)
    requires Safe(s) && Linked(s) && Headed(s)
    ensures Headed(Next(s, step))
  {
    if !Enabled(s, step) {
      hide Headed;
    } else if ByLauncher(step) {
      hide *;
      HeadedByLauncher(s, step);
    } else {
      hide *;
      HeadedByWindow(s, step);
    }
  }

  lemma {:induction false} AlwaysHeaded(steps: seq<Step>)
    ensures Headed(Reached(steps))
    decreases |steps|
  {
    hide Headed, Next;
    if steps == [] {
      HeadedInit();
    } else {
      AlwaysSafe(steps[..|steps| - 1]);
      AlwaysLinked(steps[..|steps| - 1]);
      AlwaysHeaded(steps[..|steps| - 1]);
      HeadedNext(Reached(steps[..|steps| - 1]), steps[|steps| - 1]);
    }
  }

  // ---- The theorems ----

  /** Once nothing is under way, no exit either, the window names the session, the build and the
      status of the log if and only if it was told of the session and the exit of the last session
      whose start it heard was not emitted to nobody.  Of a session without a game the log itself
      says that it runs. */
  lemma HeadingAgrees(steps: seq<Step>)
    requires Quiet(Reached(steps)) && Reached(steps).exits == []
    ensures var s := Reached(steps);
            (s.console.session == Session(s) && s.console.build == s.build && s.console.status == s.status) <==>
            (Told(s) && !s.exitMissed)
  {
    var s := Reached(steps);
    SessionsMeet(steps);
    QuietMeans(steps);
    AlwaysLinked(steps);
    AlwaysHeaded(steps);
    HeardIsLoud(s);
    hide ApplyAll, Next, Reached, Linked;
  }

  lemma HeardIsLoud(s: State)
    requires Linked(s)
    ensures Heard(s) || s.game.Playing? ==> s.loud
    ensures s.loud && !Told(s) ==> s.heardIn == 0 && s.taken.None?
  {
  }

  /** And it says that a game runs if and only if one plays of which it was told, or an exit passed
      it by, or it shows the snapshot of a session without a game.  So it is right about a game that
      plays if it was told of it, and about no game playing unless one of those two happened. */
  lemma RunningAgrees(steps: seq<Step>)
    requires Quiet(Reached(steps)) && Reached(steps).exits == []
    ensures var s := Reached(steps);
            s.console.status == Running <==> (s.game.Playing? && Told(s)) || s.exitMissed || SilentShown(s)
    ensures var s := Reached(steps);
            (s.console.status == Running <==> s.game.Playing?) <==>
            if s.game.Playing? then Told(s) else !s.exitMissed && !SilentShown(s)
  {
    var s := Reached(steps);
    SessionsMeet(steps);
    QuietMeans(steps);
    AlwaysLinked(steps);
    AlwaysHeaded(steps);
    HeardIsLoud(s);
    hide ApplyAll, Next, Reached, Linked;
  }
}
