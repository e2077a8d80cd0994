/** The launcher's buffer of one game's output (client/core/src/gamelog.rs).

    The specification is offline: `LogState` keeps the whole history of the session, and
    what the buffer holds is defined as the longest suffix of it within both limits.  The
    class `GameLog` is the online form, which forgets what it drops. */
module GameLog {
  import opened Wrappers
  import opened SuffixFit
  import opened LogText

  const LINE_LIMIT: nat := 50_000
  const TEXT_LIMIT_BYTES: nat := 16 * 1024 * 1024
  const LEVEL_SEARCH_BYTES: nat := 200

  datatype Stream = Out | Err
  datatype Level = Debug | Info | Warn | Error
  datatype GameLine = GameLine(seqNo: nat, stream: Stream, level: Level, text: string)
  datatype GameStatus = Idle | Running | Exited(code: int, stopped: bool)
  datatype Snapshot = Snapshot(session: nat, build: string, status: GameStatus, dropped: nat,
                               limit: nat, textLimit: nat, lines: seq<GameLine>)

  // ---- Levels ----

  const LEVEL_MARKERS: seq<(string, Level)> := [
    ("/TRACE]", Debug), ("/DEBUG]", Debug), ("/INFO]", Info), ("/WARN]", Warn), ("/ERROR]", Error),
    ("/FATAL]", Error), ("[TRACE]", Debug), ("[DEBUG]", Debug), ("[FINE]", Debug), ("[FINER]", Debug),
    ("[INFO]", Info), ("[WARN]", Warn), ("[WARNING]", Warn), ("[ERROR]", Error), ("[SEVERE]", Error),
    ("[FATAL]", Error), ("[STDERR]", Warn)]

  const ERROR_OPENINGS: seq<string> := [
    "Exception in thread ", "Error: ", "Error occurred during initialization",
    "---- Minecraft Crash Report ----", "#@!@# Game crashed!"]

  function MarkerAt(text: string, markers: seq<(string, Level)>): Option<Level> {
    if markers == [] then None
    else if markers[0].0 <= text then Some(markers[0].1)
    else MarkerAt(text, markers[1..])
  }

  /** The level of the leftmost marker. */
  function LeftmostMarker(text: string): Option<Level> {
    if text == "" then None
    else
      var here := MarkerAt(text, LEVEL_MARKERS);
      if here.Some? then here else LeftmostMarker(text[1..])
  }

  /** The longest prefix of whole characters within a number of bytes. */
  function Head(text: string, bytes: nat): string {
    if text == "" || Utf8Width(text[0]) > bytes then ""
    else [text[0]] + Head(text[1..], bytes - Utf8Width(text[0]))
  }

  function Marker(text: string): Option<Level> {
    var marked := LeftmostMarker(Head(text, LEVEL_SEARCH_BYTES));
    if marked.Some? then marked
    else if exists i :: 0 <= i < |ERROR_OPENINGS| && ERROR_OPENINGS[i] <= text then Some(Error)
    else None
  }

  function UnmarkedLevel(stream: Stream): Level {
    match stream case Out => Info case Err => Warn
  }

  /** The level of a stream after some history: the marker of the nearest line of that
      stream that carries one, and the stream's own default when none does. */
  function StreamLevel(history: seq<GameLine>, stream: Stream): Level {
    if history == [] then UnmarkedLevel(stream)
    else
      var n := |history| - 1;
      if history[n].stream == stream && Marker(history[n].text).Some? then Marker(history[n].text).value
      else StreamLevel(history[..n], stream)
  }

  ghost predicate LevelsFollow(history: seq<GameLine>) {
    history == [] ||
    var n := |history| - 1;
    history[n].level == StreamLevel(history, history[n].stream) && LevelsFollow(history[..n])
  }

  /** What `carried` holds after some history: the level of each stream's last line. */
  function LastLevels(history: seq<GameLine>): map<Stream, Level> {
    if history == [] then map[]
    else
      var n := |history| - 1;
      LastLevels(history[..n])[history[n].stream := history[n].level]
  }

  /** Every line of a session, dropped ones included, shows the level its own marker gives
      or else the one the nearest marked line of its stream gave. */
  lemma {:induction false} LevelOfEachLine(history: seq<GameLine>, i: nat)
    requires LevelsFollow(history) && i < |history|
    ensures history[i].level == StreamLevel(history[..i + 1], history[i].stream)
  {
    var n := |history| - 1;
    if i == n {
      assert history[..n + 1] == history;
    } else {
      LevelOfEachLine(history[..n], i);
      assert history[..n][..i + 1] == history[..i + 1];
    }
  }

  /** Carrying one level per stream computes what a look back through the whole history
      defines, dropped lines included. */
  lemma {:induction false} CarriedIsStreamLevel(history: seq<GameLine>, stream: Stream)
    requires LevelsFollow(history)
    ensures StreamLevel(history, stream) ==
            if stream in LastLevels(history) then LastLevels(history)[stream] else UnmarkedLevel(stream)
  {
    if history != [] {
      CarriedIsStreamLevel(history[..|history| - 1], stream);
    }
  }

  // ---- The specification: a session with its full history ----

  datatype LogState = LogState(session: nat, history: seq<GameLine>, sent: nat)

  ghost predicate Numbered(history: seq<GameLine>) {
    forall i :: 0 <= i < |history| ==> history[i].seqNo == i
  }

  function Weights(lines: seq<GameLine>): (ws: seq<nat>)
    ensures |ws| == |lines|
    ensures forall k :: 0 <= k < |lines| ==> ws[k] == Bytes(lines[k].text)
  {
    seq(|lines|, i requires 0 <= i < |lines| => Bytes(lines[i].text))
  }

  predicate FitsLog(lines: seq<GameLine>) {
    Fits(Weights(lines), AtMost(LINE_LIMIT), AtMost(TEXT_LIMIT_BYTES))
  }

  function First(history: seq<GameLine>): (k: nat)
    ensures k <= |history|
  {
    FirstKept(Weights(history), AtMost(LINE_LIMIT), AtMost(TEXT_LIMIT_BYTES))
  }

  function Held(history: seq<GameLine>): seq<GameLine> {
    history[First(history)..]
  }

  function TextBytes(lines: seq<GameLine>): nat { Sum(Weights(lines)) }

  /** The lines the next batch carries: recorded since the last one and still held. */
  function Unsent(s: LogState): seq<GameLine>
    requires s.sent <= |s.history|
  {
    s.history[Max(s.sent, First(s.history))..]
  }

  lemma FirstOnlyGrows(history: seq<GameLine>, more: seq<GameLine>)
    ensures First(history) <= First(history + more)
  {
    assert Weights(history + more) == Weights(history) + Weights(more);
    DroppedStaysDropped(Weights(history), Weights(more), AtMost(LINE_LIMIT), AtMost(TEXT_LIMIT_BYTES));
  }

  /** The buffer holds the longest suffix of the session that fits both limits. */
  lemma HeldIsLongestFitting(history: seq<GameLine>)
    ensures FitsLog(Held(history))
    ensures forall j :: 0 <= j < First(history) ==> !FitsLog(history[j..])
  {
    KeptFits(Weights(history), AtMost(LINE_LIMIT), AtMost(TEXT_LIMIT_BYTES));
    assert Weights(Held(history)) == Weights(history)[First(history)..];
    forall j | 0 <= j < First(history)
      ensures !FitsLog(history[j..])
    {
      EarlierDoesNotFit(Weights(history), j, AtMost(LINE_LIMIT), AtMost(TEXT_LIMIT_BYTES));
      assert Weights(history[j..]) == Weights(history)[j..];
    }
  }

  // ---- Runs: what `unsent` hands out over a whole session ----

  datatype LogOp = Record(stream: Stream, text: string) | Hand

  /** One more line, at the level its own marker or else its stream's past gives it. */
  function NewLine(history: seq<GameLine>, stream: Stream, text: string): GameLine {
    GameLine(|history|, stream, Marker(text).GetOr(StreamLevel(history, stream)), text)
  }

  function Grown(history: seq<GameLine>, stream: Stream, text: string): seq<GameLine> {
    history + [NewLine(history, stream, text)]
  }

  function Step(s: LogState, op: LogOp): (r: (LogState, seq<GameLine>))
    requires s.sent <= |s.history|
    ensures s.history <= r.0.history && s.sent <= r.0.sent <= |r.0.history|
  {
    match op
    case Record(stream, text) => (s.(history := Grown(s.history, stream, text)), [])
    case Hand => (s.(sent := |s.history|), Unsent(s))
  }

  /** The state after some operations and everything `unsent` returned on the way. */
  function Run(s: LogState, ops: seq<LogOp>): (r: (LogState, seq<GameLine>))
    requires s.sent <= |s.history|
    ensures s.history <= r.0.history && s.sent <= r.0.sent <= |r.0.history|
    decreases |ops|
  {
    if ops == [] then (s, [])
    else
      var (s1, out1) := Step(s, ops[0]);
      var (s2, out2) := Run(s1, ops[1..]);
      (s2, out1 + out2)
  }

  ghost predicate Ascending(lines: seq<GameLine>) {
    forall i, j :: 0 <= i < j < |lines| ==> lines[i].seqNo < lines[j].seqNo
  }

  ghost predicate Between(lines: seq<GameLine>, history: seq<GameLine>, from: nat, to: nat) {
    && Ascending(lines)
    && forall k :: 0 <= k < |lines| ==>
        from <= lines[k].seqNo < to <= |history| && history[lines[k].seqNo] == lines[k]
  }

  lemma StepHands(s: LogState, op: LogOp, end: seq<GameLine>)
    requires s.sent <= |s.history| && Numbered(s.history)
    ensures var (s1, out) := Step(s, op);
            Numbered(s1.history) && (s1.history <= end ==> Between(out, end, s.sent, s1.sent))
  {
    hide First, Marker, StreamLevel;
  }

  /** No line is handed out twice or out of order, and none is invented. */
  lemma {:induction false} HandedAtMostOnce(s: LogState, ops: seq<LogOp>)
    requires s.sent <= |s.history| && Numbered(s.history)
    ensures var (end, out) := Run(s, ops);
            Numbered(end.history) && Between(out, end.history, s.sent, end.sent)
    decreases |ops|
  {
    if ops != [] {
      var (s1, out1) := Step(s, ops[0]);
      var (end, out2) := Run(s1, ops[1..]);
      StepHands(s, ops[0], end.history);
      hide Step, Between, Numbered;
      HandedAtMostOnce(s1, ops[1..]);
      BetweenConcat(out1, out2, end.history, s.sent, s1.sent, end.sent);
    }
  }

  lemma BetweenConcat(a: seq<GameLine>, b: seq<GameLine>, history: seq<GameLine>, from: nat, mid: nat, to: nat)
    requires from <= mid <= to <= |history|
    requires Between(a, history, from, mid) && Between(b, history, mid, to)
    ensures Between(a + b, history, from, to)
  {
  }

  /** Exactly once unless evicted first: at the first hand-out after line `i` was recorded
      the batch has it iff the buffer still holds it, and no other batch ever does. */
  lemma HandedUnlessEvicted(s: LogState, before: seq<LogOp>, after: seq<LogOp>, i: nat)
    requires s.sent <= |s.history| && Numbered(s.history)
    requires var mid := Run(s, before).0; mid.sent <= i < |mid.history|
    ensures var mid := Run(s, before).0;
            var end := Run(s, before + [Hand] + after);
            i < |end.0.history| && (end.0.history[i] in end.1 <==> First(mid.history) <= i)
  {
    var mid := Run(s, before).0;
    AroundHand(s, before, after);
    OthersMiss(s, before, after, i);
    InSuffix(mid.history, Max(mid.sent, First(mid.history)), i);
    hide Run, First, Numbered;
    InMiddle(Run(s, before).1, Unsent(mid), Run(Handed(mid), after).1, mid.history[i]);
  }

  function Handed(s: LogState): (t: LogState)
    requires s.sent <= |s.history|
    ensures t.sent == |t.history|
  {
    s.(sent := |s.history|)
  }

  /** A run with a hand-out in the middle. */
  lemma AroundHand(s: LogState, before: seq<LogOp>, after: seq<LogOp>)
    requires s.sent <= |s.history|
    ensures var mid := Run(s, before);
            var end := Run(Handed(mid.0), after);
            Run(s, before + [Hand] + after) == (end.0, mid.1 + (Unsent(mid.0) + end.1))
  {
    RunConcat(s, before, [Hand] + after);
    assert before + [Hand] + after == before + ([Hand] + after);
    HandNext(Run(s, before).0, after);
    hide Run, Unsent;
  }

  /** A line that waits for the next batch is in no batch before and in no batch after it. */
  lemma OthersMiss(s: LogState, before: seq<LogOp>, after: seq<LogOp>, i: nat)
    requires s.sent <= |s.history| && Numbered(s.history)
    requires var mid := Run(s, before).0; mid.sent <= i < |mid.history|
    ensures var mid := Run(s, before);
            var end := Run(Handed(mid.0), after);
            && mid.0.history[i] !in mid.1 && mid.0.history[i] !in end.1
            && Numbered(mid.0.history) && i < |end.0.history| && end.0.history[i] == mid.0.history[i]
  {
    var mid := Run(s, before);
    var end := Run(Handed(mid.0), after);
    HandedAtMostOnce(s, before);
    HandedAtMostOnce(Handed(mid.0), after);
    hide Run, Between, Numbered;
    NotBetween(mid.1, mid.0.history, s.sent, mid.0.sent, i);
    NotBetween(end.1, end.0.history, |mid.0.history|, end.0.sent, i);
  }

  lemma InMiddle(a: seq<GameLine>, b: seq<GameLine>, c: seq<GameLine>, line: GameLine)
    requires line !in a && line !in c
    ensures line in a + (b + c) <==> line in b
  {
  }

  lemma HandNext(s: LogState, after: seq<LogOp>)
    requires s.sent <= |s.history|
    ensures var end := Run(Handed(s), after);
            Run(s, [Hand] + after) == (end.0, Unsent(s) + end.1)
  {
    assert ([Hand] + after)[1..] == after;
    hide Unsent;
  }

  lemma NotBetween(lines: seq<GameLine>, history: seq<GameLine>, from: nat, to: nat, i: nat)
    requires Between(lines, history, from, to) && Numbered(history) && i < |history| && !(from <= i < to)
    ensures history[i] !in lines
  {
  }

  lemma InSuffix(history: seq<GameLine>, from: nat, i: nat)
    requires Numbered(history) && from <= |history| && i < |history|
    ensures history[i] in history[from..] <==> from <= i
  {
    if from <= i {
      assert history[from..][i - from] == history[i];
    }
  }

  lemma {:induction false} RunConcat(s: LogState, a: seq<LogOp>, b: seq<LogOp>)
    requires s.sent <= |s.history|
    ensures var mid := Run(s, a);
            var end := Run(mid.0, b);
            Run(s, a + b) == (end.0, mid.1 + end.1)
    decreases |a|
  {
    hide Step;
    if a == [] {
      assert a + b == b;
      assert [] + Run(s, b).1 == Run(s, b).1;
    } else {
      var s1 := Step(s, a[0]);
      RunConcat(s1.0, a[1..], b);
      assert (a + b)[1..] == a[1..] + b && (a + b)[0] == a[0];
      var mid := Run(s1.0, a[1..]);
      var end := Run(mid.0, b);
      assert s1.1 + (mid.1 + end.1) == (s1.1 + mid.1) + end.1;
    }
  }

  // ---- The online buffer ----

  class GameLog {
    var session: nat
    var build: string
    var status: GameStatus
    var lines: seq<GameLine>
    var nextSeq: nat
    var sentSeq: nat
    var dropped: nat
    var textBytes: nat
    var carried: map<Stream, Level>

    ghost var history: seq<GameLine>

    ghost predicate Valid()
      reads this
    {
      && nextSeq == |history|
      && dropped == First(history)
      && lines == Held(history)
      && textBytes == TextBytes(lines)
      && sentSeq <= nextSeq
      && carried == LastLevels(history)
      && LevelsFollow(history)
      && Numbered(history)
    }

    ghost function Spec(): LogState
      reads this
    {
      LogState(session, history, sentSeq)
    }

    constructor ()
      ensures Valid() && Spec() == LogState(0, [], 0) && status == Idle
    {
      session, build, status := 0, "", Idle;
      lines, nextSeq, sentSeq, dropped, textBytes, carried := [], 0, 0, 0, 0, map[];
      history := [];
    }

    method Begin(name: string) returns (started: nat)
      requires Valid()
      modifies this
      ensures Valid()
      ensures started == old(session) + 1
      ensures Spec() == LogState(started, [], 0) && status == Running && build == name
    {
      hide LevelsFollow, LastLevels, Numbered, First, TextBytes;
      NewHistory();
      session, build, status := session + 1, name, Running;
      lines, nextSeq, sentSeq, dropped, textBytes, carried := [], 0, 0, 0, 0, map[];
      history := [];
      started := session;
    }

    method Record(stream: Stream, text: string)
      requires Valid()
      modifies this
      ensures Valid()
      ensures Spec() == Step(old(Spec()), LogOp.Record(stream, text)).0
      ensures status == old(status) && build == old(build)
    {
      hide Grown, First, LevelsFollow, LastLevels, TextBytes, Numbered, Marker, StreamLevel;
      var shown := Marker(text);
      var level :=
        if shown.Some? then shown.value
        else if stream in carried then carried[stream]
        else UnmarkedLevel(stream);
      ghost var grown := RecordStep(history, stream, text);
      carried := carried[stream := level];
      textBytes := textBytes + Bytes(text);
      lines := lines + [GameLine(nextSeq, stream, level, text)];
      nextSeq := nextSeq + 1;
      history := grown;
      EvictOverflow();
    }

    /** The loop that ends `record`. */
    method EvictOverflow()
      requires dropped <= First(history)
      requires lines == history[dropped..]
      requires textBytes == TextBytes(lines)
      modifies `lines, `textBytes, `dropped
      ensures dropped == First(history) && lines == Held(history)
      ensures textBytes == TextBytes(lines)
    {
      while |lines| > LINE_LIMIT || textBytes > TEXT_LIMIT_BYTES
        invariant dropped <= First(history)
        invariant lines == history[dropped..]
        invariant textBytes == TextBytes(lines)
        decreases |lines|
      {
        if |lines| == 0 {
          break;
        }
        Overfull(history, dropped);
        var oldest := lines[0];
        lines := lines[1..];
        textBytes := textBytes - Bytes(oldest.text);
        dropped := dropped + 1;
      }
      NothingMore(history, dropped);
    }

    /** `pump` holds the lock, and writes only while its own session is the current one. */
    method PumpLine(owner: nat, stream: Stream, text: string)
      requires Valid()
      modifies this
      ensures Valid()
      ensures owner != old(session) ==> Spec() == old(Spec()) && lines == old(lines)
      ensures owner == old(session) ==> Spec() == Step(old(Spec()), LogOp.Record(stream, text)).0
    {
      if session == owner {
        Record(stream, text);
      }
    }

    method TakeUnsent() returns (batch: seq<GameLine>)
      requires Valid()
      modifies this`sentSeq
      ensures Valid()
      ensures (Spec(), batch) == Step(old(Spec()), Hand)
    {
      hide First, LevelsFollow, LastLevels, TextBytes, Numbered;
      var first: nat := nextSeq - |lines|;
      var from := Max(sentSeq, first);
      var skip: nat := from - first;
      sentSeq := nextSeq;
      batch := lines[skip..];
    }

    method Finish(finished: nat, code: int, stopped: bool) returns (known: bool)
      requires Valid()
      modifies this`status
      ensures Valid() && known == (finished == session)
      ensures status == if known then Exited(code, stopped) else old(status)
    {
      if finished != session {
        return false;
      }
      status := Exited(code, stopped);
      known := true;
    }

    /** The held lines are the longest suffix of the history, and `dropped` counts the rest. */
    method TakeSnapshot() returns (snapshot: Snapshot)
      requires Valid()
      ensures snapshot == Snapshot(session, build, status, First(history), LINE_LIMIT, TEXT_LIMIT_BYTES, Held(history))
      ensures snapshot.dropped + |snapshot.lines| == nextSeq
    {
      snapshot := Snapshot(session, build, status, dropped, LINE_LIMIT, TEXT_LIMIT_BYTES, lines);
    }

    method TailText(byteLimit: nat) returns (text: string)
      requires Valid()
      ensures text == Joined(lines[FirstKept(LineCosts(lines), Unlimited, AtMost(byteLimit))..])
      ensures text != "" ==> Bytes(text) < byteLimit
    {
      text := NewestText(lines, byteLimit);
    }
  }

  lemma NewHistory()
    ensures First([]) == 0 && Held([]) == [] && TextBytes([]) == 0
    ensures LevelsFollow([]) && LastLevels([]) == map[] && Numbered([])
  {
  }

  /** Everything `record` relies on, in terms of the history alone. */
  lemma RecordStep(history: seq<GameLine>, stream: Stream, text: string) returns (grown: seq<GameLine>)
    requires LevelsFollow(history) && Numbered(history)
    ensures grown == Grown(history, stream, text) && |grown| == |history| + 1
    ensures var line := grown[|history|]; line.seqNo == |history| && line.stream == stream && line.text == text
    ensures LevelsFollow(grown) && Numbered(grown)
    ensures LastLevels(grown) == LastLevels(history)[stream := grown[|history|].level]
    ensures grown[|history|].level ==
            Marker(text).GetOr(
              if stream in LastLevels(history) then LastLevels(history)[stream] else UnmarkedLevel(stream))
    ensures First(history) <= First(grown)
    ensures grown[First(history)..] == Held(history) + [grown[|history|]]
    ensures TextBytes(grown[First(history)..]) == TextBytes(Held(history)) + Bytes(text)
  {
    hide Marker, First, TextBytes;
    var line := NewLine(history, stream, text);
    grown := history + [line];
    assert grown[..|history|] == history;
    CarriedIsStreamLevel(history, stream);
    RecordRoom(history, line);
  }

  lemma RecordRoom(history: seq<GameLine>, line: GameLine)
    ensures First(history) <= First(history + [line])
    ensures (history + [line])[First(history)..] == Held(history) + [line]
    ensures TextBytes(Held(history) + [line]) == TextBytes(Held(history)) + Bytes(line.text)
  {
    FirstOnlyGrows(history, [line]);
    assert Weights(Held(history) + [line]) == Weights(Held(history)) + [Bytes(line.text)];
    SumConcat(Weights(Held(history)), [Bytes(line.text)]);
  }

  lemma Overfull(history: seq<GameLine>, dropped: nat)
    requires dropped <= First(history) && dropped < |history| && !FitsLog(history[dropped..])
    ensures dropped < First(history)
    ensures history[dropped..][1..] == history[dropped + 1..]
    ensures TextBytes(history[dropped..]) == Bytes(history[dropped].text) + TextBytes(history[dropped + 1..])
  {
    HeldIsLongestFitting(history);
    assert Weights(history[dropped..])[1..] == Weights(history[dropped + 1..]);
  }

  lemma NothingMore(history: seq<GameLine>, dropped: nat)
    requires dropped <= First(history) && (FitsLog(history[dropped..]) || dropped == |history|)
    ensures dropped == First(history)
  {
    assert Weights(history[dropped..]) == Weights(history)[dropped..];
    if dropped < |history| {
      KeptAtMost(Weights(history), dropped, AtMost(LINE_LIMIT), AtMost(TEXT_LIMIT_BYTES));
    }
  }

  // ---- The tail a crash report carries ----

  function LineCosts(lines: seq<GameLine>): (ws: seq<nat>)
    ensures |ws| == |lines|
  {
    seq(|lines|, i requires 0 <= i < |lines| => Bytes(lines[i].text) + 1)
  }

  function Texts(lines: seq<GameLine>): seq<string> {
    if lines == [] then [] else [lines[0].text] + Texts(lines[1..])
  }

  function Join(words: seq<string>): string {
    if words == [] then "" else if |words| == 1 then words[0] else words[0] + "\n" + Join(words[1..])
  }

  function Joined(lines: seq<GameLine>): string { Join(Texts(lines)) }

  /** The loop of `tail_text`: the newest lines that fit, each costing its bytes and one
      separator, are the longest such suffix. */
  method NewestText(lines: seq<GameLine>, byteLimit: nat) returns (text: string)
    ensures text == Joined(lines[FirstKept(LineCosts(lines), Unlimited, AtMost(byteLimit))..])
    ensures text != "" ==> Bytes(text) < byteLimit
  {
    hide LineCosts, FirstKept, Fits, Join, Texts, Sum;
    var picked: seq<string> := [];
    var total: nat := 0;
    var at: nat := |lines|;
    NoText(lines);
    while at > 0
      invariant at <= |lines|
      invariant total == Sum(LineCosts(lines)[at..]) && total <= byteLimit
      invariant picked == Texts(lines[at..])
    {
      var line := lines[at - 1];
      var cost := Bytes(line.text) + 1;
      OneLineFurther(lines, at - 1);
      if total + cost > byteLimit {
        break;
      }
      total := total + cost;
      picked := [line.text] + picked;
      at := at - 1;
    }
    NewestStart(lines, at, byteLimit);
    text := Join(picked);
  }

  lemma NoText(lines: seq<GameLine>)
    ensures Sum(LineCosts(lines)[|lines|..]) == 0 && Texts(lines[|lines|..]) == []
  {
  }

  lemma OneLineFurther(lines: seq<GameLine>, at: nat)
    requires at < |lines|
    ensures Sum(LineCosts(lines)[at..]) == Bytes(lines[at].text) + 1 + Sum(LineCosts(lines)[at + 1..])
    ensures Texts(lines[at..]) == [lines[at].text] + Texts(lines[at + 1..])
  {
    SumFrom(LineCosts(lines), at);
    assert lines[at..][1..] == lines[at + 1..];
  }

  lemma NewestStart(lines: seq<GameLine>, at: nat, byteLimit: nat)
    requires at <= |lines| && Sum(LineCosts(lines)[at..]) <= byteLimit
    requires at > 0 ==> Sum(LineCosts(lines)[at - 1..]) > byteLimit
    ensures FirstKept(LineCosts(lines), Unlimited, AtMost(byteLimit)) == at
    ensures Joined(lines[at..]) != "" ==> Bytes(Joined(lines[at..])) < byteLimit
  {
    JoinedBytes(lines[at..]);
    assert LineCosts(lines[at..]) == LineCosts(lines)[at..];
    NothingJoined(lines[at..]);
    hide LineCosts, Joined, Sum, Bytes, FirstKept;
    KeptIs(LineCosts(lines), at, Unlimited, AtMost(byteLimit));
  }

  lemma NothingJoined(lines: seq<GameLine>)
    ensures lines == [] ==> Joined(lines) == ""
  {
  }

  lemma {:induction false} BytesConcat(a: string, b: string)
    ensures Bytes(a + b) == Bytes(a) + Bytes(b)
  {
    if a == "" {
      assert a + b == b;
    } else {
      assert (a + b)[1..] == a[1..] + b;
      BytesConcat(a[1..], b);
    }
  }

  lemma {:induction false} JoinedBytes(lines: seq<GameLine>)
    ensures lines != [] ==> Bytes(Joined(lines)) + 1 == Sum(LineCosts(lines))
  {
    if lines != [] {
      var words := Texts(lines);
      assert words[1..] == Texts(lines[1..]);
      assert LineCosts(lines)[1..] == LineCosts(lines[1..]);
      if |lines| > 1 {
        JoinedBytes(lines[1..]);
        assert |words| > 1;
        BytesConcat(words[0] + "\n", Join(words[1..]));
        BytesConcat(words[0], "\n");
        assert Bytes("\n") == 1;
      }
    }
  }
}
