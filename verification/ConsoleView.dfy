/** What the console window shows, as a flat list: the meaning of every event handler of
    client/src/consoleStore.ts without chunks or running totals. */
module ConsoleView {
  import opened SuffixFit
  import opened GameLog
  import opened LineChunks

  datatype Event =
    | Started(session: nat, build: string)
    | Batch(session: nat, lines: seq<GameLine>)
    | Exit(session: nat, code: int, stopped: bool)

  datatype View = View(session: nat, build: string, status: GameStatus, lines: seq<GameLine>,
                       nextSeq: nat, dropped: nat, limit: Limit, textLimit: Limit)

  const FIRST_VIEW := View(0, "", Idle, [], 0, 0, Unlimited, Unlimited)

  function NextAfter(lines: seq<GameLine>, otherwise: nat): nat {
    if lines == [] then otherwise else lines[|lines| - 1].seqNo + 1
  }

  function Loaded(snapshot: Snapshot): View {
    View(snapshot.session, snapshot.build, snapshot.status, snapshot.lines, NextAfter(snapshot.lines, 0),
         snapshot.dropped, AtMost(snapshot.limit), AtMost(snapshot.textLimit))
  }

  /** The lines of a batch that the console has not seen. */
  function Unseen(lines: seq<GameLine>, nextSeq: nat): seq<GameLine> {
    if lines == [] then []
    else (if lines[0].seqNo >= nextSeq then [lines[0]] else []) + Unseen(lines[1..], nextSeq)
  }

  lemma UnseenStep(lines: seq<GameLine>, first: GameLine, rest: seq<GameLine>, nextSeq: nat)
    requires lines == [first] + rest
    ensures Unseen(lines, nextSeq) == (if first.seqNo >= nextSeq then [first] else []) + Unseen(rest, nextSeq)
  {
    assert lines[1..] == rest;
  }

  /** How many of the oldest lines of `all` the console's limits leave out. */
  function Excess(v: View, all: seq<GameLine>): (k: nat)
    ensures k <= |all|
  {
    FirstKept(UnitWeights(all), v.limit, v.textLimit)
  }

  function Appended(v: View, session: nat, lines: seq<GameLine>): View {
    var unseen := Unseen(lines, v.nextSeq);
    if session != v.session || unseen == [] then v
    else
      var all := v.lines + unseen;
      v.(lines := all[Excess(v, all)..], dropped := v.dropped + Excess(v, all), nextSeq := NextAfter(unseen, 0))
  }

  function Apply(v: View, e: Event): View {
    match e
    case Started(session, build) =>
      View(session, build, Running, [], 0, 0, v.limit, v.textLimit)
    case Batch(session, lines) => Appended(v, session, lines)
    case Exit(session, code, stopped) =>
      if session != v.session then v else v.(status := Exited(code, stopped))
  }

  function ApplyAll(v: View, events: seq<Event>): View
    decreases |events|
  {
    if events == [] then v
    else ApplyAll(Apply(v, events[0]), events[1..])
  }

  lemma {:induction false} ApplyAllConcat(v: View, a: seq<Event>, b: seq<Event>)
    ensures ApplyAll(v, a + b) == ApplyAll(ApplyAll(v, a), b)
    decreases |a|
  {
    hide Apply;
    if a == [] {
      assert a + b == b;
    } else {
      assert (a + b)[1..] == a[1..] + b;
      ApplyAllConcat(Apply(v, a[0]), a[1..], b);
    }
  }

  lemma ApplyAllLast(v: View, events: seq<Event>, e: Event)
    ensures ApplyAll(v, events + [e]) == Apply(ApplyAll(v, events), e)
  {
    ApplyAllConcat(v, events, [e]);
    assert [e][1..] == [];
  }
}
