/** Short runs that reach each of the states in which the window differs from the log for good. */
module ConsoleRuns {
  import opened Wrappers
  import opened LogText
  import opened GameLog
  import opened ConsoleView
  import opened ConsoleProtocol
  import opened ConsoleLinked
  import opened ConsoleAgreement
  import opened ConsoleStatus

  // ---- Runs, one step at a time ----

  ghost predicate Leads(steps: seq<Step>, s: State) { Reached(steps) == s }

  lemma Then(steps: seq<Step>, s: State, step: Step, t: State)
    requires Leads(steps, s) && Next(s, step) == t
    ensures Leads(steps + [step], t)
  {
    assert (steps + [step])[..|steps|] == steps;
    hide Next;
  }

  lemma OneLineHeld(history: seq<GameLine>)
    requires |history| == 1 && history[0].text == "x"
    ensures First(history) == 0 && Held(history) == history
  {
    assert "x"[1..] == "";
    assert Bytes("x") == 1;
    assert Weights(history) == [1];
    assert [1][1..] == [];
  }

  /** The other two listeners are attached and the snapshot is asked for. */
  lemma OthersAttached(before: seq<Step>, s: State) returns (steps: seq<Step>)
    requires Leads(before, s) && s.phase.Attaching? && s.startedOn
    ensures Leads(steps, s.(logOn := true, exitOn := true, phase := Asking))
  {
    var s1 := s.(logOn := true);
    var s2 := s1.(exitOn := true);
    var s3 := s2.(phase := Asking);
    assert Next(s, AttachLog) == s1 && Next(s1, AttachExit) == s2 && Next(s2, Ask) == s3;
    hide Next, Leads;
    Then(before, s, AttachLog, s1);
    Then(before + [AttachLog], s1, AttachExit, s2);
    Then(before + [AttachLog] + [AttachExit], s2, Ask, s3);
    steps := before + [AttachLog] + [AttachExit] + [Ask];
  }

  /** The snapshot arrives, then the start that was emitted before it, and the window goes live. */
  lemma SnapshotArrives(before: seq<Step>, s: State, start: Event) returns (steps: seq<Step>)
    requires Leads(before, s) && s.phase.Asking? && s.queue == [start] && s.waiting == []
    ensures Leads(steps, Reached(steps))
    ensures var t := Reached(steps); t == s.(phase := Live, queue := [], console := t.console, taken := t.taken)
  {
    var s1 := SnapshotTaken(s);
    var s2 := s1.(queue := [], waiting := [start]);
    var s3 := Connected(s2);
    Answering(s, start);
    hide Next, Leads, SnapshotTaken, Connected;
    Then(before, s, Answer, s1);
    Then(before + [Answer], s1, Deliver, s2);
    Then(before + [Answer] + [Deliver], s2, Connect, s3);
    steps := before + [Answer] + [Deliver] + [Connect];
    assert Reached(steps) == s3 by { LeadsTo(steps, s3); }
  }

  lemma LeadsTo(steps: seq<Step>, s: State)
    requires Leads(steps, s)
    ensures Reached(steps) == s
  {
  }

  lemma Answering(s: State, start: Event)
    requires s.phase.Asking? && s.queue == [start] && s.waiting == []
    ensures var s1 := SnapshotTaken(s);
            var s2 := s1.(queue := [], waiting := [start]);
            && Next(s, Answer) == s1 && Next(s1, Deliver) == s2 && Next(s2, Connect) == Connected(s2)
            && Connected(s2) == s.(phase := Live, queue := [], console := Connected(s2).console, taken := s1.taken)
  {
    hide TakeSnapshot, ApplyAll, Apply, Delivered;
    var s1 := SnapshotTaken(s);
    Waiting(s1, start);
    hide SnapshotTaken;
  }

  lemma Waiting(s: State, start: Event)
    requires s.phase.Answered? && s.queue == [start] && s.waiting == []
    ensures Next(s, Deliver) == s.(queue := [], waiting := [start])
  {
    hide Delivered;
    MovedWaiting(s);
    assert [start][1..] == [] && [] + [start] == [start];
  }

  /** With only the start listener attached a game begins. */
  const HEARD := INIT.(startedOn := true, past := [[]], status := Running, build := "pack", game := Playing,
                       loud := true, heardIn := 1, queue := [Started(1, "pack")])

  lemma HeardStart() returns (steps: seq<Step>)
    ensures Leads(steps, HEARD)
  {
    var s1 := INIT.(startedOn := true);
    var s2 := s1.(past := [[]], status := Running, build := "pack", game := Starting);
    assert Next(INIT, AttachStarted) == s1 && Next(s1, Begin("pack")) == s2 && Next(s2, EmitStarted) == HEARD;
    assert Leads([], INIT);
    hide Next, Leads;
    Then([], INIT, AttachStarted, s1);
    Then([AttachStarted], s1, Begin("pack"), s2);
    Then([AttachStarted] + [Begin("pack")], s2, EmitStarted, HEARD);
    steps := [AttachStarted] + [Begin("pack")] + [EmitStarted];
  }

  // ---- A batch that nobody hears ----

  const LINE := NewLine([], Out, "x")

  const PRINTED := HEARD.(history := [LINE])

  const READ := PRINTED.(pending := Some([LINE]), sent := 1)

  const UNHEARD := READ.(pending := None, emittedTo := 1, missedTo := 1)

  /** The steps of a batch, each as its own function. */
  lemma BatchSteps(s: State, text: string)
    ensures s.loud ==> Next(s, Print(Out, text)) == Printed(s, Out, text)
    ensures Enabled(s, TakeBatch) ==> Next(s, TakeBatch) == BatchTaken(s)
    ensures s.pending.Some? ==> Next(s, EmitBatch) == BatchEmitted(s)
  {
    hide StartEmitted, Printed, BatchTaken, BatchEmitted, Finished, ExitEmitted, SnapshotTaken, Connected, Delivered;
  }

  lemma PrintsOne(s: State)
    requires s.loud && s.history == []
    ensures Next(s, Print(Out, "x")) == s.(history := [LINE])
  {
    BatchSteps(s, "x");
    hide NewLine, Next;
  }

  lemma LineText()
    ensures LINE.text == "x"
  {
    hide Marker, StreamLevel;
  }

  lemma TakesOne(s: State)
    requires |s.history| == 1 && s.history[0].text == "x" && s.sent == 0 && s.game.Playing? && s.pending.None?
    ensures Next(s, TakeBatch) == s.(pending := Some(s.history), sent := 1)
  {
    OneUnsent(LogState(Session(s), s.history, 0));
    hide *;
    TakesAll(s);
  }

  lemma TakesAll(s: State)
    requires s.sent <= |s.history| && s.game.Playing? && s.pending.None?
    ensures Next(s, TakeBatch) ==
            s.(pending := Some(Unsent(LogState(Session(s), s.history, s.sent))), sent := |s.history|)
  {
    BatchSteps(s, "x");
    hide Unsent, Next;
  }

  lemma OneUnsent(log: LogState)
    requires |log.history| == 1 && log.history[0].text == "x" && log.sent == 0
    ensures Unsent(log) == log.history
  {
    OneLineHeld(log.history);
    hide First;
    assert log.history[0..] == log.history;
  }

  lemma PrintedAndRead()
    ensures Next(HEARD, Print(Out, "x")) == PRINTED && Next(PRINTED, TakeBatch) == READ
    ensures Next(READ, EmitBatch) == UNHEARD
  {
    PrintsOne(HEARD);
    LineText();
    hide LINE, Next;
    TakesOne(PRINTED);
    BatchSteps(READ, "x");
  }

  /** The start listener attached alone: the start of a game is heard, its first batch is emitted
      to nobody, the snapshot has the line, and the waiting start wipes it again. */
  lemma TornAttach() returns (steps: seq<Step>)
    ensures var s := Reached(steps);
            && Quiet(s) && Told(s) && s.console.session == Session(s)
            && !IsSuffix(Held(s.history), s.console.lines)
  {
    hide First, Held, Next, Leads, Reached;
    steps := HeardStart();
    PrintedAndRead();
    Then(steps, HEARD, Print(Out, "x"), PRINTED);
    steps := steps + [Print(Out, "x")];
    Then(steps, PRINTED, TakeBatch, READ);
    steps := steps + [TakeBatch];
    Then(steps, READ, EmitBatch, UNHEARD);
    steps := OthersAttached(steps + [EmitBatch], UNHEARD);
    steps := SnapshotArrives(steps, UNHEARD.(logOn := true, exitOn := true, phase := Asking), Started(1, "pack"));
    OneLineHeld([LINE]);
    Agreement(steps);
    SessionsMeet(steps);
  }

  // ---- An exit that nobody hears ----

  const ENDED := HEARD.(status := Exited(0, false), game := NoGame, exits := [Exit(1, 0, false)])

  const EXITED := ENDED.(exits := [], exitMissed := true)

  /** The game ends before the exit listener is attached: the snapshot says so, and the waiting
      start says that it runs. */
  lemma RunningForGood() returns (steps: seq<Step>)
    ensures var s := Reached(steps);
            && Quiet(s) && s.exits == [] && Told(s) && s.console.session == Session(s)
            && s.console.status == Running && s.status == Exited(0, false)
  {
    assert Next(HEARD, Finish(0, false)) == ENDED && Next(ENDED, EmitExit(0)) == EXITED;
    hide First, Held, Next, Leads, Reached;
    steps := HeardStart();
    Then(steps, HEARD, Finish(0, false), ENDED);
    Then(steps + [Finish(0, false)], ENDED, EmitExit(0), EXITED);
    steps := OthersAttached(steps + [Finish(0, false)] + [EmitExit(0)], EXITED);
    steps := SnapshotArrives(steps, EXITED.(logOn := true, exitOn := true, phase := Asking), Started(1, "pack"));
    SessionsMeet(steps);
    RunningAgrees(steps);
  }

  // ---- A session of which the window is never told ----

  const UNTOLD := INIT.(past := [[]], status := Running, build := "pack", game := Playing, loud := true,
                        startedOn := true)

  const REFUSED := UNTOLD.(logOn := true, exitOn := true, phase := Answered(None))

  const BLIND := REFUSED.(phase := Live)

  const BATCH := Batch(1, [LINE])

  /** A game begins before any listener is attached. */
  lemma UnheardStart() returns (steps: seq<Step>)
    ensures Leads(steps, UNTOLD)
  {
    var s1 := INIT.(past := [[]], status := Running, build := "pack", game := Starting);
    var s2 := s1.(game := Playing, loud := true);
    assert Next(INIT, Begin("pack")) == s1 && Next(s1, EmitStarted) == s2 && Next(s2, AttachStarted) == UNTOLD;
    assert Leads([], INIT);
    hide Next, Leads;
    Then([], INIT, Begin("pack"), s1);
    Then([Begin("pack")], s1, EmitStarted, s2);
    Then([Begin("pack")] + [EmitStarted], s2, AttachStarted, UNTOLD);
    steps := [Begin("pack")] + [EmitStarted] + [AttachStarted];
  }

  lemma RefusedAndLive(s: State)
    requires s == UNTOLD.(logOn := true, exitOn := true, phase := Asking)
    ensures Next(s, AnswerFails) == REFUSED && Next(REFUSED, Connect) == BLIND
  {
    hide Apply;
  }

  lemma OneLine(s: State)
    requires s == BLIND
    ensures var read := s.(history := [LINE], pending := Some([LINE]), sent := 1);
            && Next(Next(s, Print(Out, "x")), TakeBatch) == read
            && Next(read, EmitBatch) == read.(pending := None, emittedTo := 1, queue := [BATCH])
  {
    PrintsOne(s);
    LineText();
    hide LINE, Next;
    TakesOne(s.(history := [LINE]));
    BatchSteps(s.(history := [LINE], pending := Some([LINE]), sent := 1), "x");
  }

  /** The start is emitted before the start listener is attached and the snapshot fails: the
      window stays with the session before, and every line of the game passes it by. */
  lemma NeverTold() returns (steps: seq<Step>)
    ensures var s := Reached(steps);
            && Quiet(s) && !Told(s) && s.missedTo == 0 && s.console.session < Session(s)
            && s.console.lines == [] && Held(s.history) != []
  {
    hide First, Held, Next, Leads, Reached;
    steps := UnheardStart();
    steps := OthersAttached(steps, UNTOLD);
    var asking := UNTOLD.(logOn := true, exitOn := true, phase := Asking);
    RefusedAndLive(asking);
    Then(steps, asking, AnswerFails, REFUSED);
    Then(steps + [AnswerFails], REFUSED, Connect, BLIND);
    steps := steps + [AnswerFails] + [Connect];
    OneLine(BLIND);
    var printed := Next(BLIND, Print(Out, "x"));
    var read := BLIND.(history := [LINE], pending := Some([LINE]), sent := 1);
    var emitted := read.(pending := None, emittedTo := 1, queue := [BATCH]);
    Then(steps, BLIND, Print(Out, "x"), printed);
    Then(steps + [Print(Out, "x")], printed, TakeBatch, read);
    Then(steps + [Print(Out, "x")] + [TakeBatch], read, EmitBatch, emitted);
    steps := steps + [Print(Out, "x")] + [TakeBatch] + [EmitBatch];
    Hears(emitted, BATCH);
    var last := emitted.(queue := [], console := Apply(emitted.console, BATCH));
    Then(steps, emitted, Deliver, last);
    steps := steps + [Deliver];
    LeadsTo(steps, last);
    OneLineHeld([LINE]);
    SessionsMeet(steps);
  }

  // ---- A line recorded after the last batch ----

  lemma Listening() returns (steps: seq<Step>)
    ensures Leads(steps, INIT.(logOn := true, startedOn := true, exitOn := true, phase := Asking))
  {
    var s1 := INIT.(logOn := true);
    var s2 := s1.(startedOn := true);
    var s3 := s2.(exitOn := true);
    var s4 := s3.(phase := Asking);
    assert Next(INIT, AttachLog) == s1 && Next(s1, AttachStarted) == s2 && Next(s2, AttachExit) == s3;
    assert Next(s3, Ask) == s4 && Leads([], INIT);
    hide Next, Leads;
    Then([], INIT, AttachLog, s1);
    Then([AttachLog], s1, AttachStarted, s2);
    Then([AttachLog] + [AttachStarted], s2, AttachExit, s3);
    Then([AttachLog] + [AttachStarted] + [AttachExit], s3, Ask, s4);
    steps := [AttachLog] + [AttachStarted] + [AttachExit] + [Ask];
  }

  /** The answer with no event under way. */
  lemma AnsweredAtOnce(before: seq<Step>, s: State) returns (steps: seq<Step>)
    requires Leads(before, s) && s.phase.Asking? && s.queue == [] && s.waiting == []
    ensures Leads(steps, s.(phase := Live, console := Loaded(TakeSnapshot(s)),
                            taken := Some(Taken(Session(s), |s.history|, Silent(s)))))
  {
    var s1 := SnapshotTaken(s);
    var s2 := Connected(s1);
    LiveAtOnce(s);
    hide Next, Leads, SnapshotTaken, Connected, TakeSnapshot, Loaded;
    Then(before, s, Answer, s1);
    Then(before + [Answer], s1, Connect, s2);
    steps := before + [Answer] + [Connect];
  }

  lemma LiveAtOnce(s: State)
    requires s.phase.Asking? && s.queue == [] && s.waiting == []
    ensures var s1 := SnapshotTaken(s);
            && Next(s, Answer) == s1 && Next(s1, Connect) == Connected(s1)
            && Connected(s1) == s.(phase := Live, console := Loaded(TakeSnapshot(s)),
                                   taken := Some(Taken(Session(s), |s.history|, Silent(s))))
  {
    hide TakeSnapshot, Loaded, Apply;
  }

  lemma LastFits(history: seq<GameLine>)
    requires history != [] && history[|history| - 1].text == "x"
    ensures First(history) < |history|
  {
    var n := |history| - 1;
    OneLineHeld(history[n..]);
    HeldIsLongestFitting(history[n..]);
    HeldIsLongestFitting(history);
    hide First;
    assert history[n..][0..] == history[n..];
  }

  /** From any quiet state after a game: no batch will carry a line that is recorded then, no other
      step is enabled that could, and the window no longer ends with what the log holds. */
  lemma LateLine(steps: seq<Step>)
    requires Quiet(Reached(steps)) && Reached(steps).loud && Reached(steps).game.NoGame?
    ensures var t := Reached(steps + [Print(Out, "x")]);
            && Quiet(t) && !IsSuffix(Held(t.history), t.console.lines)
            && !Enabled(t, TakeBatch) && !Enabled(t, EmitBatch) && !Enabled(t, Deliver) && !Enabled(t, EmitStarted)
            && t == Reached(steps).(history := t.history)
  {
    var s := Reached(steps);
    var t := Printed(s, Out, "x");
    Late(s);
    QuietMeans(steps);
    LastFits(t.history);
    assert Leads(steps, s);
    hide First, Held, Reached, Next, Decided, ApplyAll, Printed, Quiet;
    Then(steps, s, Print(Out, "x"), t);
    LeadsTo(steps + [Print(Out, "x")], t);
    Agreement(steps + [Print(Out, "x")]);
    HeldLast(t.history);
  }

  lemma HeldLast(history: seq<GameLine>)
    requires First(history) < |history|
    ensures Held(history) != []
  {
    hide First;
  }

  lemma Late(s: State)
    requires Quiet(s) && s.loud && s.game.NoGame?
    ensures var t := Printed(s, Out, "x");
            && t == s.(history := t.history) && Quiet(t) && Next(s, Print(Out, "x")) == t
            && |t.history| == |s.history| + 1 && t.history[|s.history|].text == "x" && ShownTo(t) == ShownTo(s)
            && !Enabled(t, TakeBatch) && !Enabled(t, EmitBatch) && !Enabled(t, Deliver) && !Enabled(t, EmitStarted)
  {
    hide Marker, StreamLevel;
  }

  const IDLE := INIT.(logOn := true, startedOn := true, exitOn := true, phase := Live,
                      console := Loaded(TakeSnapshot(INIT)), taken := Some(Taken(0, 0, false)))

  const START := Started(1, "pack")

  const OVER := Exit(1, 0, false)

  /** A live window hears the whole of a game: its start and, after it, its exit. */
  lemma GameOver() returns (steps: seq<Step>)
    ensures var s := Reached(steps);
            && Quiet(s) && s.loud && s.game.NoGame? && s.exits == [] && Told(s) && s.missedTo == 0 && !s.exitMissed
  {
    var s := IDLE.(past := [[]], build := "pack", loud := true, heardIn := 1);
    var playing := s.(status := Running, game := Playing, console := Apply(IDLE.console, START));
    var done := s.(status := Exited(0, false), console := Apply(playing.console, OVER));
    hide Next, Leads, Reached, Apply, Loaded, TakeSnapshot;
    steps := Listening();
    steps := AnsweredAtOnce(steps, INIT.(logOn := true, startedOn := true, exitOn := true, phase := Asking));
    SameSnapshot();
    steps := GameStarts(steps, playing);
    steps := GameEnds(steps, playing, done);
    LeadsTo(steps, done);
  }

  lemma GameStarts(before: seq<Step>, t: State) returns (steps: seq<Step>)
    requires Leads(before, IDLE)
    requires t == IDLE.(past := [[]], build := "pack", loud := true, heardIn := 1, status := Running, game := Playing,
                        console := Apply(IDLE.console, START))
    ensures Leads(steps, t)
  {
    hide Apply, Loaded, TakeSnapshot;
    var s1 := IDLE.(past := [[]], status := Running, build := "pack", game := Starting);
    var s2 := s1.(game := Playing, loud := true, heardIn := 1, queue := [START]);
    assert Next(IDLE, Begin("pack")) == s1 && Next(s1, EmitStarted) == s2;
    Hears(s2, START);
    hide Next, Leads;
    Then(before, IDLE, Begin("pack"), s1);
    Then(before + [Begin("pack")], s1, EmitStarted, s2);
    Then(before + [Begin("pack")] + [EmitStarted], s2, Deliver, t);
    steps := before + [Begin("pack")] + [EmitStarted] + [Deliver];
  }

  lemma GameEnds(before: seq<Step>, s: State, t: State) returns (steps: seq<Step>)
    requires Leads(before, s) && s.game.Playing? && s.pending.None? && s.exits == [] && s.exitOn && s.phase.Live?
    requires s.queue == [] && Session(s) == 1
    requires t == s.(status := Exited(0, false), game := NoGame, console := Apply(s.console, OVER))
    ensures Leads(steps, t)
  {
    hide Apply;
    var s1 := s.(status := Exited(0, false), game := NoGame, exits := [OVER]);
    var s2 := s1.(exits := [], queue := [OVER]);
    assert Next(s, Finish(0, false)) == s1 && Next(s1, EmitExit(0)) == s2;
    Hears(s2, OVER);
    hide Next, Leads;
    Then(before, s, Finish(0, false), s1);
    Then(before + [Finish(0, false)], s1, EmitExit(0), s2);
    Then(before + [Finish(0, false)] + [EmitExit(0)], s2, Deliver, t);
    steps := before + [Finish(0, false)] + [EmitExit(0)] + [Deliver];
  }

  /** The pump of a game that is over records one more line, after everything else was delivered. */
  lemma LostLine() returns (steps: seq<Step>)
    ensures var t := Reached(steps);
            && Quiet(t) && Told(t) && t.missedTo == 0 && t.exits == []
            && !IsSuffix(Held(t.history), t.console.lines)
  {
    hide Reached, Held;
    var game := GameOver();
    LateLine(game);
    steps := game + [Print(Out, "x")];
  }

  lemma SameSnapshot()
    ensures var s := INIT.(logOn := true, startedOn := true, exitOn := true, phase := Asking);
            TakeSnapshot(s) == TakeSnapshot(INIT) && Session(s) == 0 && s.history == [] && !Silent(s)
  {
    hide First;
  }

  lemma Hears(s: State, e: Event)
    requires s.phase.Live? && s.queue == [e]
    ensures Next(s, Deliver) == s.(queue := [], console := Apply(s.console, e))
  {
    MovedLive(s);
    hide Delivered, Apply;
    assert [e][1..] == [];
  }

  /** A session of the launcher in which no game was started, such as a login, is begun before the
      window asks: for the window a game runs. */
  lemma RunningWithoutGame() returns (steps: seq<Step>)
    ensures var s := Reached(steps);
            && Quiet(s) && s.exits == [] && Told(s) && !s.exitMissed && SilentShown(s)
            && s.game.NoGame? && s.console.status == Running
  {
    var s1 := INIT.(past := [[]], status := Running);
    var s2 := s1.(startedOn := true);
    assert Next(INIT, SilentBegin) == s1 && Next(s1, AttachStarted) == s2 && Leads([], INIT);
    hide Next, Leads, Reached, TakeSnapshot, Loaded;
    Then([], INIT, SilentBegin, s1);
    Then([SilentBegin], s1, AttachStarted, s2);
    steps := OthersAttached([SilentBegin] + [AttachStarted], s2);
    var asking := s2.(logOn := true, exitOn := true, phase := Asking);
    steps := AnsweredAtOnce(steps, asking);
    LeadsTo(steps, asking.(phase := Live, console := Loaded(TakeSnapshot(asking)), taken := Some(Taken(1, 0, true))));
    RunningAgrees(steps);
  }

  /** A login or a logout reaches no window: one that was told of the session before names it on. */
  lemma LogoutUnseen(steps: seq<Step>)
    requires Quiet(Reached(steps)) && Reached(steps).game.NoGame?
    ensures var s, t := Reached(steps), Reached(steps + [SilentBegin]);
            && Quiet(t) && !Told(t) && t.console == s.console && t.exitMissed == s.exitMissed
            && t.console.session < Session(t)
  {
    var s := Reached(steps);
    var t := NewSession(s).(build := "");
    assert Leads(steps, s);
    Then(steps, s, SilentBegin, t);
    LeadsTo(steps + [SilentBegin], t);
    SessionsMeet(steps + [SilentBegin]);
    SessionsMeet(steps);
    AlwaysLinked(steps);
    hide Reached, Next, Decided, Unsettled;
  }
}
