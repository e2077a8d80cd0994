/** The replication of the game log into the console window: the launcher's threads
    (client/src-tauri/src/console.rs), the event channel and `connect` of the window
    (client/src/consoleStore.ts), as one state machine over their atomic steps. */
module ConsoleProtocol {
  import opened Wrappers
  import opened GameLog
  import opened ConsoleView

  // ---- States and steps ----

  /** `Starting`: the session has begun but "game:started" has not been emitted yet. */
  datatype Game = NoGame | Starting | Playing

  /** The session of the snapshot, the lines recorded by then, and whether no game belongs to it. */
  datatype Taken = Taken(session: nat, to: nat, silent: bool)

  datatype Phase = Attaching | Asking | Answered(snapshot: Option<Snapshot>) | Live

  datatype State = State(
    past: seq<seq<GameLine>>,         // the histories of the sessions before the current one
    history: seq<GameLine>,           // everything the current session recorded
    build: string,
    status: GameStatus,
    sent: nat,
    game: Game,
    loud: bool,                       // the current session's start has been emitted
    pending: Option<seq<GameLine>>,   // a batch read under the lock and not emitted yet
    exits: seq<Event>,                // exit events not emitted yet
    startedOn: bool, logOn: bool, exitOn: bool,
    phase: Phase,
    queue: seq<Event>,                // emitted, not delivered
    waiting: seq<Event>,              // delivered before the window went live
    console: View,
    emittedTo: nat,                   // everything before this line has been emitted or was dropped
    missedTo: nat,                    // end of the last batch emitted to nobody after a heard start
    heardIn: nat,                     // the last session whose start was emitted to a listener, or 0
    exitMissed: bool,                 // the exit of that session was emitted to nobody
    taken: Option<Taken>)             // when the snapshot was taken, None if it failed

  datatype Step =
    | SilentBegin                     // login, logout and account switch: `begin("")`, no event
    | Begin(build: string)
    | EmitStarted
    | Print(stream: Stream, text: string)
    | TakeBatch
    | EmitBatch
    | Finish(code: int, stopped: bool)
    | EmitExit(place: nat)            // each session's own task emits its exit, in any order
    | AttachStarted | AttachLog | AttachExit
    | Ask
    | Answer
    | AnswerFails
    | Connect
    | Deliver

  const INIT := State([], [], "", Idle, 0, NoGame, false, None, [], false, false, false, Attaching, [], [],
                      FIRST_VIEW, 0, 0, 0, false, None)

  function Session(s: State): nat { |s.past| }

  /** The start of the current session was emitted to a listener. */
  predicate Heard(s: State) { s.heardIn > 0 && s.heardIn == Session(s) }

  /** A login, a logout or a switch of accounts began the session: its status is `Running` for good. */
  predicate Silent(s: State) { Session(s) > 0 && !s.loud && s.game.NoGame? }

  function Archive(s: State): seq<seq<GameLine>> { s.past + [s.history] }

  function TakeSnapshot(s: State): Snapshot
  {
    Snapshot(Session(s), s.build, s.status, First(s.history), LINE_LIMIT, TEXT_LIMIT_BYTES, Held(s.history))
  }

  predicate Enabled(s: State, step: Step)
  {
    match step
    case SilentBegin => s.game.NoGame? && s.pending.None?
    case Begin(_) => s.game.NoGame? && s.pending.None?
    case EmitStarted => s.game.Starting?
    case Print(_, _) => s.loud
    case TakeBatch => s.game.Playing? && s.pending.None? && s.sent <= |s.history|
    case EmitBatch => s.pending.Some?
    case Finish(_, _) => s.game.Playing? && s.pending.None?
    case EmitExit(place) => place < |s.exits|
    case AttachStarted => s.phase.Attaching?
    case AttachLog => s.phase.Attaching?
    case AttachExit => s.phase.Attaching?
    case Ask => s.phase.Attaching? && s.startedOn && s.logOn && s.exitOn
    case Answer => s.phase.Asking?
    case AnswerFails => s.phase.Asking?
    case Connect => s.phase.Answered?
    case Deliver => s.queue != []
  }

  function NewSession(s: State): State
  {
    s.(past := Archive(s), history := [], status := Running, sent := 0, emittedTo := 0, loud := false, missedTo := 0)
  }

  /** An event emitted while no listener is attached is lost. */
  function StartEmitted(s: State): State {
    if s.startedOn
    then s.(game := Playing, loud := true, heardIn := Session(s), exitMissed := false,
            queue := s.queue + [Started(Session(s), s.build)])
    else s.(game := Playing, loud := true)
  }

  function Printed(s: State, stream: Stream, text: string): State {
    s.(history := Grown(s.history, stream, text))
  }

  function BatchTaken(s: State): State
    requires s.sent <= |s.history|
  {
    s.(pending := Some(Unsent(LogState(Session(s), s.history, s.sent))), sent := |s.history|)
  }

  /** `flush` emits nothing when the batch it read is empty. */
  function BatchEmitted(s: State): State
    requires s.pending.Some?
  {
    var batch := s.pending.value;
    if batch == [] then s.(pending := None, emittedTo := s.sent)
    else if s.logOn
    then s.(pending := None, emittedTo := s.sent, queue := s.queue + [Batch(Session(s), batch)])
    else s.(pending := None, emittedTo := s.sent, missedTo := if Heard(s) then s.sent else s.missedTo)
  }

  function Finished(s: State, code: int, stopped: bool): State {
    s.(status := Exited(code, stopped), game := NoGame, exits := s.exits + [Exit(Session(s), code, stopped)])
  }

  function Without(events: seq<Event>, place: nat): seq<Event>
    requires place < |events|
  {
    events[..place] + events[place + 1..]
  }

  function ExitEmitted(s: State, place: nat): State
    requires place < |s.exits|
  {
    var e := s.exits[place];
    var rest := Without(s.exits, place);
    if s.exitOn then s.(exits := rest, queue := s.queue + [e])
    else s.(exits := rest, exitMissed := s.exitMissed || (s.heardIn > 0 && e.session == s.heardIn))
  }

  function SnapshotTaken(s: State): State {
    s.(phase := Answered(Some(TakeSnapshot(s))), taken := Some(Taken(Session(s), |s.history|, Silent(s))))
  }

  function Connected(s: State): State {
    s.(phase := Live, waiting := [], console := ApplyAll(Base(s), s.waiting))
  }

  function Delivered(s: State): State
    requires s.queue != []
  {
    if s.phase.Live? then s.(queue := s.queue[1..], console := Apply(s.console, s.queue[0]))
    else s.(queue := s.queue[1..], waiting := s.waiting + [s.queue[0]])
  }

  function Next(s: State, step: Step): State {
    if !Enabled(s, step) then s else
    match step
    case SilentBegin => NewSession(s).(build := "")
    case Begin(build) => NewSession(s).(build := build, game := Starting)
    case EmitStarted => StartEmitted(s)
    case Print(stream, text) => Printed(s, stream, text)
    case TakeBatch => BatchTaken(s)
    case EmitBatch => BatchEmitted(s)
    case Finish(code, stopped) => Finished(s, code, stopped)
    case EmitExit(place) => ExitEmitted(s, place)
    case AttachStarted => s.(startedOn := true)
    case AttachLog => s.(logOn := true)
    case AttachExit => s.(exitOn := true)
    case Ask => s.(phase := Asking)
    case Answer => SnapshotTaken(s)
    case AnswerFails => s.(phase := Answered(None))
    case Connect => Connected(s)
    case Deliver => Delivered(s)
  }

  /** What the console starts from once the snapshot request has been answered. */
  function Base(s: State): View {
    if s.phase.Answered? && s.phase.snapshot.Some? then Loaded(s.phase.snapshot.value) else s.console
  }

  function After(s: State, steps: seq<Step>): State
    decreases |steps|
  {
    if steps == [] then s
    else
      var n := |steps| - 1;
      Next(After(s, steps[..n]), steps[n])
  }

  function Reached(steps: seq<Step>): State
  {
    After(INIT, steps)
  }

  // ---- Safety: what the window shows at any moment ----

  /** Part of one session's history, as one batch carries it. */
  ghost predicate IsSlice(lines: seq<GameLine>, history: seq<GameLine>) {
    && lines != []
    && lines[0].seqNo + |lines| <= |history|
    && lines == history[lines[0].seqNo..lines[0].seqNo + |lines|]
  }

  function End(lines: seq<GameLine>): nat
    requires lines != []
  {
    lines[0].seqNo + |lines|
  }

  ghost predicate EventOk(e: Event, archive: seq<seq<GameLine>>) {
    && e.session < |archive|
    && (e.Batch? ==> IsSlice(e.lines, archive[e.session]))
  }

  ghost predicate AllOk(events: seq<Event>, archive: seq<seq<GameLine>>) {
    forall i :: 0 <= i < |events| ==> EventOk(events[i], archive)
  }

  lemma AllOkParts(events: seq<Event>, e: Event, archive: seq<seq<GameLine>>)
    requires AllOk(events, archive)
    ensures EventOk(e, archive) ==> AllOk(events + [e], archive)
    ensures events != [] ==> EventOk(events[0], archive) && AllOk(events[1..], archive)
  {
    hide EventOk;
  }

  /** Lines of one session, each at most once, in order, exactly as they were recorded. */
  ghost predicate ShowsPart(v: View, archive: seq<seq<GameLine>>) {
    v.session < |archive| && PartOf(v.lines, archive[v.session], v.nextSeq)
  }

  ghost predicate AllNumbered(archive: seq<seq<GameLine>>) {
    forall i :: 0 <= i < |archive| ==> Numbered(archive[i])
  }

  ghost predicate Safe(s: State) {
    && AllNumbered(Archive(s))
    && s.sent <= |s.history|
    && (s.pending.Some? && s.pending.value != [] ==> IsSlice(s.pending.value, s.history))
    && AllOk(s.exits, Archive(s))
    && AllOk(s.waiting, Archive(s))
    && AllOk(s.queue, Archive(s))
    && ShowsPart(s.console, Archive(s))
    && ShowsPart(Base(s), Archive(s))
    && (s.phase.Live? ==> s.waiting == [])
  }

  /** The part of `history[a..b]` from `nextSeq` on. */
  function Rest(history: seq<GameLine>, a: nat, b: nat, nextSeq: nat): seq<GameLine>
    requires a <= b <= |history|
  {
    if Max(a, nextSeq) <= b then history[Max(a, nextSeq)..b] else []
  }

  /** One line further: what is unseen of the rest, with the first line before it if it is new. */
  lemma RestStep(history: seq<GameLine>, a: nat, b: nat, nextSeq: nat)
    requires a < b <= |history|
    ensures Rest(history, a, b, nextSeq) ==
            (if nextSeq <= a then [history[a]] else []) + Rest(history, a + 1, b, nextSeq)
  {
    if nextSeq <= a {
      assert history[a..b] == [history[a]] + history[a + 1..b];
    }
  }

  lemma {:induction false} UnseenOfSlice(history: seq<GameLine>, a: nat, b: nat, nextSeq: nat)
    requires Numbered(history) && a <= b <= |history|
    ensures Unseen(history[a..b], nextSeq) == Rest(history, a, b, nextSeq)
    decreases b - a
  {
    if a < b {
      assert history[a].seqNo == a;
      hide *;
      UnseenOfSlice(history, a + 1, b, nextSeq);
      RestStep(history, a, b, nextSeq);
      SliceStep(history, a, b);
      UnseenStep(history[a..b], history[a], history[a + 1..b], nextSeq);
    } else {
      hide Numbered;
      assert history[a..b] == [];
    }
  }

  lemma SliceStep(history: seq<GameLine>, a: nat, b: nat)
    requires a < b <= |history|
    ensures history[a..b] == [history[a]] + history[a + 1..b]
  {
  }

  ghost predicate PartOf(lines: seq<GameLine>, history: seq<GameLine>, nextSeq: nat) {
    && Ascending(lines)
    && forall k :: 0 <= k < |lines| ==>
        && lines[k].seqNo < nextSeq
        && lines[k].seqNo < |history|
        && history[lines[k].seqNo] == lines[k]
  }

  lemma AppendPart(lines: seq<GameLine>, history: seq<GameLine>, from: nat, to: nat, k: nat)
    requires Numbered(history) && PartOf(lines, history, from) && from <= to <= |history|
    requires k <= |lines| + (to - from)
    ensures PartOf((lines + history[from..to])[k..], history, to)
  {
    var all := lines + history[from..to];
    assert forall i :: |lines| <= i < |all| ==> all[i] == history[from + i - |lines|];
    assert PartOf(all, history, to);
  }

  lemma PartLater(lines: seq<GameLine>, history: seq<GameLine>, from: nat, to: nat)
    requires PartOf(lines, history, from) && from <= to
    ensures PartOf(lines, history, to)
  {
  }

  lemma ApplyShowsPart(v: View, e: Event, archive: seq<seq<GameLine>>)
    requires AllNumbered(archive) && ShowsPart(v, archive) && EventOk(e, archive)
    ensures ShowsPart(Apply(v, e), archive)
  {
    hide Ascending, Unseen, Numbered;
    if e.Batch? && e.session == v.session {
      var h := archive[v.session];
      var a, b := e.lines[0].seqNo, End(e.lines);
      UnseenOfSlice(h, a, b, v.nextSeq);
      var unseen := Unseen(e.lines, v.nextSeq);
      if unseen != [] {
        var from := Max(a, v.nextSeq);
        LastOfSlice(h, from, b);
        PartLater(v.lines, h, v.nextSeq, from);
        AppendPart(v.lines, h, from, b, Excess(v, v.lines + unseen));
      }
    } else if e.Started? {
      NoLines(archive[e.session], 0);
    }
  }

  lemma NoLines(history: seq<GameLine>, nextSeq: nat)
    ensures PartOf([], history, nextSeq)
  {
  }

  lemma LastOfSlice(history: seq<GameLine>, from: nat, to: nat)
    requires Numbered(history) && from < to <= |history|
    ensures NextAfter(history[from..to], 0) == to
  {
  }

  lemma {:induction false} ApplyAllShowsPart(v: View, events: seq<Event>, archive: seq<seq<GameLine>>)
    requires AllNumbered(archive) && ShowsPart(v, archive)
    requires AllOk(events, archive)
    ensures ShowsPart(ApplyAll(v, events), archive)
    decreases |events|
  {
    if events != [] {
      AllOkParts(events, events[0], archive);
      hide ShowsPart, EventOk, Apply, AllNumbered, AllOk;
      ApplyShowsPart(v, events[0], archive);
      ApplyAllShowsPart(Apply(v, events[0]), events[1..], archive);
    }
  }

  /** Growing the current history, or opening a session, invalidates nothing seen so far. */
  ghost predicate Extends(earlier: seq<seq<GameLine>>, later: seq<seq<GameLine>>) {
    && |earlier| <= |later|
    && forall i :: 0 <= i < |earlier| ==> earlier[i] <= later[i]
  }

  lemma ExtendsKeeps(a: seq<seq<GameLine>>, b: seq<seq<GameLine>>)
    requires Extends(a, b)
    ensures forall v :: ShowsPart(v, a) ==> ShowsPart(v, b)
    ensures forall events :: AllOk(events, a) ==> AllOk(events, b)
  {
    forall events: seq<Event>, i: nat | AllOk(events, a) && i < |events|
      ensures EventOk(events[i], b)
    {
      assert a[events[i].session] <= b[events[i].session];
    }
    forall v | ShowsPart(v, a)
      ensures ShowsPart(v, b)
    {
      assert a[v.session] <= b[v.session];
    }
  }

  lemma SuffixIsSlice(history: seq<GameLine>, from: nat)
    requires Numbered(history) && from < |history|
    ensures IsSlice(history[from..], history)
    ensures history[from..][0].seqNo == from
  {
  }

  lemma HeldIsPart(history: seq<GameLine>)
    requires Numbered(history)
    ensures PartOf(Held(history), history, NextAfter(Held(history), 0))
  {
    hide First;
    var from := First(history);
    if from < |history| {
      LastOfSlice(history, from, |history|);
      assert history[from..|history|] == Held(history);
    }
  }

  lemma SnapshotShowsPart(s: State)
    requires Numbered(s.history)
    ensures ShowsPart(Loaded(TakeSnapshot(s)), Archive(s))
  {
    HeldIsPart(s.history);
    hide PartOf, Held, First, NextAfter;
    assert Archive(s)[|s.past|] == s.history;
  }

  lemma SafeExtends(s: State, t: State)
    requires Safe(s) && Extends(Archive(s), Archive(t)) && AllNumbered(Archive(t))
    requires t.waiting == s.waiting && t.queue == s.queue && t.console == s.console && t.phase == s.phase
    requires t.exits == s.exits && t.sent <= |t.history|
    requires (t.pending.Some? ==> t.past == s.past && t.pending == s.pending)
    ensures Safe(t)
  {
    ExtendsKeeps(Archive(s), Archive(t));
    hide Numbered, Ascending;
    if t.pending.Some? {
      assert Archive(s)[|s.past|] <= Archive(t)[|s.past|];
    }
  }

  lemma SafeInit()
    ensures Safe(INIT)
  {
  }

  lemma NumberedParts(s: State)
    ensures AllNumbered(Archive(s)) <==> AllNumbered(s.past) && Numbered(s.history)
  {
    assert Archive(s)[|s.past|] == s.history;
    assert forall i :: 0 <= i < |s.past| ==> Archive(s)[i] == s.past[i];
  }

  lemma NewEventOk(s: State, e: Event)
    requires e.session == Session(s) && (e.Batch? ==> IsSlice(e.lines, s.history))
    ensures EventOk(e, Archive(s))
  {
    assert Archive(s)[|s.past|] == s.history;
  }

  lemma SafeSession(s: State, t: State)
    requires Safe(s) && s.pending.None?
    requires t.past == Archive(s) && t.history == [] && t.sent == 0 && t.pending.None?
    requires t.waiting == s.waiting && t.queue == s.queue && t.console == s.console && t.phase == s.phase
    requires t.exits == s.exits
    ensures Safe(t)
  {
    NumberedParts(t);
    assert forall i :: 0 <= i < |Archive(s)| ==> Archive(t)[i] == Archive(s)[i];
    assert Extends(Archive(s), Archive(t));
    SafeExtends(s, t);
  }

  lemma SafePrint(s: State, stream: Stream, text: string)
    requires Safe(s)
    ensures Safe(Printed(s, stream, text))
  {
    hide ShowsPart, EventOk, IsSlice;
    var t := s.(history := Grown(s.history, stream, text));
    NumberedParts(s);
    NumberedParts(t);
    GrownNumbered(s.history, stream, text);
    hide Grown, AllNumbered, Numbered;
    assert Extends(Archive(s), Archive(t));
    SafeExtends(s, t);
  }

  lemma SafeTake(s: State)
    requires Safe(s)
    ensures Safe(BatchTaken(s))
  {
    NumberedParts(s);
    var from := Max(s.sent, First(s.history));
    if from < |s.history| {
      SuffixIsSlice(s.history, from);
    }
    hide ShowsPart, EventOk, AllOk, IsSlice, AllNumbered, First;
  }

  lemma SafeEmitBatch(s: State)
    requires Safe(s) && s.pending.Some?
    ensures Safe(BatchEmitted(s))
  {
    if s.pending.value != [] && s.logOn {
      SafeEmitHeard(s);
    } else {
      hide ShowsPart, EventOk, AllOk, IsSlice, AllNumbered;
    }
  }

  lemma SafeEmitHeard(s: State)
    requires Safe(s) && s.pending.Some? && s.pending.value != [] && s.logOn
    ensures Safe(BatchEmitted(s))
  {
    NewEventOk(s, Batch(Session(s), s.pending.value));
    AllOkParts(s.queue, Batch(Session(s), s.pending.value), Archive(s));
    hide ShowsPart, EventOk, AllOk, IsSlice, AllNumbered;
  }

  lemma SafeEmitStarted(s: State)
    requires Safe(s)
    ensures Safe(StartEmitted(s))
  {
    NewEventOk(s, Started(Session(s), s.build));
    AllOkParts(s.queue, Started(Session(s), s.build), Archive(s));
    hide ShowsPart, EventOk, AllOk, IsSlice, AllNumbered;
  }

  lemma SafeFinish(s: State, code: int, stopped: bool)
    requires Safe(s)
    ensures Safe(Finished(s, code, stopped))
  {
    NewEventOk(s, Exit(Session(s), code, stopped));
    AllOkParts(s.exits, Exit(Session(s), code, stopped), Archive(s));
    hide ShowsPart, EventOk, AllOk, IsSlice, AllNumbered;
  }

  lemma WithoutOk(events: seq<Event>, place: nat, archive: seq<seq<GameLine>>)
    requires AllOk(events, archive) && place < |events|
    ensures EventOk(events[place], archive) && AllOk(Without(events, place), archive)
  {
    hide EventOk;
  }

  lemma SafeEmitExit(s: State, place: nat)
    requires Safe(s) && place < |s.exits|
    ensures Safe(ExitEmitted(s, place))
  {
    WithoutOk(s.exits, place, Archive(s));
    AllOkParts(s.queue, s.exits[place], Archive(s));
    hide ShowsPart, EventOk, AllOk, IsSlice, AllNumbered, Without;
  }

  lemma SafeAnswer(s: State)
    requires Safe(s) && s.phase.Asking?
    ensures Safe(SnapshotTaken(s))
  {
    NumberedParts(s);
    SnapshotShowsPart(s);
    hide ShowsPart, EventOk, AllOk, IsSlice, AllNumbered, TakeSnapshot, Loaded;
  }

  /** Every step of any thread keeps the window's lines in order and true to the log. */
  lemma SafeNext(s: State, step: Step)
    requires Safe(s)
    ensures Safe(Next(s, step))
  {
    hide ShowsPart, EventOk, AllOk, IsSlice, AllNumbered;
    hide StartEmitted, Printed, BatchTaken, BatchEmitted, Finished, ExitEmitted, SnapshotTaken, Connected, Delivered;
    if Enabled(s, step) {
      match step {
        case SilentBegin => SafeSession(s, Next(s, step));
        case Begin(_) => SafeSession(s, Next(s, step));
        case Print(stream, text) => SafePrint(s, stream, text);
        case TakeBatch => SafeTake(s);
        case EmitBatch => SafeEmitBatch(s);
        case EmitStarted => SafeEmitStarted(s);
        case EmitExit(place) => SafeEmitExit(s, place);
        case Finish(code, stopped) => SafeFinish(s, code, stopped);
        case Answer => SafeAnswer(s);
        case Connect => SafeConnect(s);
        case Deliver => SafeDeliver(s);
        case _ =>
      }
    }
  }

  lemma GrownNumbered(history: seq<GameLine>, stream: Stream, text: string)
    requires Numbered(history)
    ensures Numbered(Grown(history, stream, text)) && history <= Grown(history, stream, text)
    ensures |Grown(history, stream, text)| == |history| + 1
  {
  }

  lemma SafeConnect(s: State)
    requires Safe(s) && s.phase.Answered?
    ensures Safe(Connected(s))
  {
    ApplyAllShowsPart(Base(s), s.waiting, Archive(s));
    hide ShowsPart, EventOk, AllOk, IsSlice, AllNumbered, ApplyAll;
  }

  /** Moving events between the queue, the window's waiting list and the window itself. */
  lemma SafeMoved(s: State, t: State)
    requires Safe(s) && t == s.(queue := t.queue, waiting := t.waiting, console := t.console)
    requires AllOk(t.queue, Archive(s)) && AllOk(t.waiting, Archive(s)) && ShowsPart(t.console, Archive(s))
    requires s.phase.Live? ==> t.waiting == []
    ensures Safe(t)
  {
    hide ShowsPart, EventOk, AllOk, IsSlice, AllNumbered;
  }

  lemma SafeDeliver(s: State)
    requires Safe(s) && s.queue != []
    ensures Safe(Delivered(s))
  {
    SafeParts(s);
    var e, archive := s.queue[0], Archive(s);
    hide *;
    AllOkParts(s.queue, e, archive);
    if s.phase.Live? {
      ApplyShowsPart(s.console, e, archive);
      MovedLive(s);
    } else {
      AllOkParts(s.waiting, e, archive);
      MovedWaiting(s);
    }
    SafeMoved(s, Delivered(s));
  }

  lemma MovedLive(s: State)
    requires s.queue != [] && s.phase.Live?
    ensures Delivered(s) == s.(queue := s.queue[1..], console := Apply(s.console, s.queue[0]))
  {
    hide Apply;
  }

  lemma MovedWaiting(s: State)
    requires s.queue != [] && !s.phase.Live?
    ensures Delivered(s) == s.(queue := s.queue[1..], waiting := s.waiting + [s.queue[0]])
  {
    hide Apply;
  }

  lemma SafeParts(s: State)
    requires Safe(s)
    ensures AllOk(s.queue, Archive(s)) && AllOk(s.waiting, Archive(s))
    ensures ShowsPart(s.console, Archive(s)) && AllNumbered(Archive(s))
    ensures s.phase.Live? ==> s.waiting == []
  {
  }

  lemma {:induction false} AlwaysSafe(steps: seq<Step>)
    ensures Safe(Reached(steps))
    decreases |steps|
  {
    if steps == [] {
      SafeInit();
    } else {
      AlwaysSafe(steps[..|steps| - 1]);
      SafeNext(Reached(steps[..|steps| - 1]), steps[|steps| - 1]);
    }
  }

  /** In every interleaving the window shows lines of one session only, in strictly
      increasing order, without duplicates, each exactly as the log recorded it. */
  lemma ConsoleNeverWrong(steps: seq<Step>)
    ensures var s := Reached(steps);
            && s.console.session <= Session(s)
            && Ascending(s.console.lines)
            && forall k :: 0 <= k < |s.console.lines| ==>
                var line := s.console.lines[k];
                && line.seqNo < s.console.nextSeq
                && line.seqNo < |Archive(s)[s.console.session]|
                && Archive(s)[s.console.session][line.seqNo] == line
  {
    AlwaysSafe(steps);
  }
}
