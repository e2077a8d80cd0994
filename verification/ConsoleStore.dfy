/** The console window's store (client/src/consoleStore.ts): chunked lines with running
    totals, level counts and the queue that holds events back until the snapshot is in. */
module ConsoleStore {
  import opened Wrappers
  import opened SuffixFit
  import opened GameLog
  import opened LineChunks
  import opened ConsoleView

  class Console {
    var ready: bool
    var session: nat
    var build: string
    var status: GameStatus
    var chunks: seq<LineArray>
    var total: nat
    var text: nat
    var nextSeq: nat
    var dropped: nat
    var limit: Limit
    var textLimit: Limit
    var counts: LevelCounts
    var live: bool
    var waiting: seq<Event>

    ghost predicate Valid()
      reads this, chunks
    {
      Totals(Values(chunks), total, text, counts)
    }

    ghost predicate KeysUnique()
      reads this, chunks
    {
      OrderedChunks(Values(chunks), nextSeq)
    }

    ghost function Shown(): View
      reads this, chunks
    {
      View(session, build, status, Flat(chunks), nextSeq, dropped, limit, textLimit)
    }

    constructor ()
      ensures Valid() && KeysUnique() && Shown() == FIRST_VIEW && !live && waiting == [] && !ready
    {
      ready, session, build, status := false, 0, "", Idle;
      chunks, total, text, nextSeq, dropped := [], 0, 0, 0, 0;
      limit, textLimit, counts := Unlimited, Unlimited, NO_COUNTS;
      live, waiting := false, [];
      new;
      NothingIn(chunks);
    }

    /** The store is replaced field by field but in one step: zustand's `set`. */
    method SetLog(nextChunks: seq<LineArray>, nextTotal: nat, nextText: nat, nextCounts: LevelCounts, seqAfter: nat,
                  nextDropped: nat)
      requires Totals(Values(nextChunks), nextTotal, nextText, nextCounts)
      modifies `chunks, `total, `text, `counts, `nextSeq, `dropped
      ensures Valid()
      ensures Values(chunks) == old(Values(nextChunks)) && nextSeq == seqAfter && dropped == nextDropped
    {
      hide Totals, Values;
      ghost var css := Values(nextChunks);
      chunks, total, text, counts, nextSeq, dropped :=
        nextChunks, nextTotal, nextText, nextCounts, seqAfter, nextDropped;
      assert Values(chunks) == css;
    }

    method Load(snapshot: Snapshot)
      modifies this
      ensures Valid() && Shown() == Loaded(snapshot) && ready
      ensures Ascending(snapshot.lines) ==> KeysUnique()
      ensures live == old(live) && waiting == old(waiting)
    {
      hide Totals, OrderedChunks, Ascending, Flatten, Values;
      var loaded, length, tally := Divided(snapshot.lines);
      var after := if |snapshot.lines| > 0 then snapshot.lines[|snapshot.lines| - 1].seqNo + 1 else 0;
      SetLog(loaded, |snapshot.lines|, length, tally, after, snapshot.dropped);
      SetHeader(true, snapshot.session, snapshot.build, snapshot.status, AtMost(snapshot.limit),
                AtMost(snapshot.textLimit));
    }

    static method Divided(lines: seq<GameLine>) returns (chunks: seq<LineArray>, length: nat, tally: LevelCounts)
      ensures Flat(chunks) == lines && Totals(Values(chunks), |lines|, length, tally)
      ensures Ascending(lines) ==> OrderedChunks(Values(chunks), NextAfter(lines, 0))
    {
      hide Totals, OrderedChunks, Keyed, Continues, Tally, TextUnits, Ascending, Flatten, NonEmpty, Values, Plus;
      var none: seq<LineArray> := [];
      NoArrays(none, lines);
      chunks := AppendLines(none, lines);
      length := TextLength(lines);
      tally := CountLevels(NO_COUNTS, lines, 1);
      TotalsFromNone(Values(chunks), lines);
      OrderFromNone(Values(chunks), lines);
    }

    method SetHeader(isReady: bool, owner: nat, name: string, state: GameStatus, lineLimit: Limit, unitLimit: Limit)
      requires Valid()
      modifies `ready, `session, `build, `status, `limit, `textLimit
      ensures Valid() && Values(chunks) == old(Values(chunks))
      ensures Shown() == View(owner, name, state, old(Flat(chunks)), nextSeq, dropped, lineLimit, unitLimit)
      ensures ready == isReady
    {
      hide Totals, Flatten, Values;
      ghost var css := Values(chunks);
      ready, session, build, status, limit, textLimit := isReady, owner, name, state, lineLimit, unitLimit;
      assert Values(chunks) == css;
    }

    method BeginSession(started: nat, name: string)
      modifies this
      ensures Valid() && KeysUnique() && Shown() == Apply(old(Shown()), Started(started, name))
      ensures ready == old(ready) && live == old(live) && waiting == old(waiting)
    {
      hide Totals, OrderedChunks, Flatten, Values;
      var none: seq<LineArray> := [];
      NothingIn(none);
      SetLog(none, 0, 0, NO_COUNTS, 0, 0);
      SetHeader(ready, started, name, Running, limit, textLimit);
    }

    method Append(owner: nat, lines: seq<GameLine>)
      requires Valid()
      modifies this
      ensures Valid() && Shown() == Apply(old(Shown()), Batch(owner, lines))
      ensures old(KeysUnique()) && Ascending(lines) ==> KeysUnique()
      ensures ready == old(ready) && live == old(live) && waiting == old(waiting)
    {
      hide Totals, OrderedChunks, Ascending, Flatten, Unseen, FirstKept, UnitWeights, Values, NonEmpty, Excess;
      if owner != session {
        return;
      }
      var unseen := FilterUnseen(lines, nextSeq);
      if |unseen| == 0 {
        return;
      }
      var grown, nextCounts, nextTotal, nextText, nextDropped := Extended(lines, unseen);
      SetLog(grown, nextTotal, nextText, nextCounts, unseen[|unseen| - 1].seqNo + 1, nextDropped);
    }

    /** The part of `append` that computes: the chunks with the new lines, trimmed to the
        limits, and every running total brought up to date. */
    method Extended(ghost lines: seq<GameLine>, unseen: seq<GameLine>)
      returns (trimmed: seq<LineArray>, nextCounts: LevelCounts, nextTotal: nat, nextText: nat, nextDropped: nat)
      requires Valid() && unseen == Unseen(lines, nextSeq) && unseen != []
      ensures Totals(Values(trimmed), nextTotal, nextText, nextCounts)
      ensures var all := Flat(chunks) + unseen;
              var k := Excess(Shown(), all);
              Flat(trimmed) == all[k..] && nextDropped == dropped + k
      ensures KeysUnique() && Ascending(lines) ==> OrderedChunks(Values(trimmed), NextAfter(unseen, 0))
    {
      hide Totals, OrderedChunks, Keyed, Continues, Tally, TextUnits, Ascending, Flatten, Unseen, FirstKept, Plus,
        UnitWeights, NonEmpty, Values;
      ghost var css := Values(chunks);
      TotalsMean(css, total, text, counts);
      var grown := AppendLines(chunks, unseen);
      nextCounts := CountLevels(counts, unseen, 1);
      var added := TextLength(unseen);
      TotalsGrow(css, Values(grown), unseen, total, text, counts);
      UnseenGrows(css, Values(grown), lines, nextSeq);
      var left;
      trimmed, nextCounts, nextTotal, nextText, left :=
        Trimmed(grown, nextCounts, total + |unseen|, text + added, limit, textLimit, NextAfter(unseen, 0));
      nextDropped := dropped + left;
    }

    /** The oldest lines over the limits leave the chunks and every running total. */
    static method Trimmed(grown: seq<LineArray>, allCounts: LevelCounts, allTotal: nat, allText: nat,
                          lineLimit: Limit, unitLimit: Limit, ghost seqAfter: nat)
      returns (trimmed: seq<LineArray>, nextCounts: LevelCounts, nextTotal: nat, nextText: nat, excess: nat)
      requires Totals(Values(grown), allTotal, allText, allCounts)
      ensures Totals(Values(trimmed), nextTotal, nextText, nextCounts)
      ensures excess == FirstKept(UnitWeights(Flat(grown)), lineLimit, unitLimit) <= |Flat(grown)|
      ensures Flat(trimmed) == Flat(grown)[excess..]
      ensures OrderedChunks(Values(grown), seqAfter) ==> OrderedChunks(Values(trimmed), seqAfter)
    {
      hide Totals, OrderedChunks, Keyed, Continues, Tally, TextUnits, Ascending, Flatten, FirstKept, Plus,
        UnitWeights, NonEmpty, Values;
      ghost var css := Values(grown);
      TotalsMean(css, allTotal, allText, allCounts);
      excess := Overflow(grown, allTotal, allText, lineLimit, unitLimit);
      trimmed, nextCounts, nextTotal, nextText := grown, allCounts, allTotal, allText;
      if excess > 0 {
        var removed;
        trimmed, removed := DropOldest(grown, excess);
        TotalsShrink(css, Values(trimmed), removed, nextTotal, nextText, nextCounts);
        nextCounts := CountLevels(nextCounts, removed, -1);
        nextTotal := nextTotal - |removed|;
        var lost := TextLength(removed);
        nextText := nextText - lost;
      }
      OrderShrinks(css, Values(trimmed), excess, seqAfter);
    }

    method Finish(finished: nat, code: int, stopped: bool)
      requires Valid()
      modifies this`status
      ensures Valid() && Shown() == Apply(old(Shown()), Exit(finished, code, stopped))
      ensures old(KeysUnique()) ==> KeysUnique()
    {
      hide Totals, OrderedChunks;
      if finished != session {
        return;
      }
      status := Exited(code, stopped);
    }

    method Handle(e: Event)
      requires Valid()
      modifies this
      ensures Valid() && Shown() == Apply(old(Shown()), e)
      ensures ready == old(ready) && live == old(live) && waiting == old(waiting)
    {
      hide Totals, Appended;
      match e
      case Started(started, name) => BeginSession(started, name);
      case Batch(owner, lines) => Append(owner, lines);
      case Exit(finished, code, stopped) => Finish(finished, code, stopped);
    }

    /** `whenLive`: events wait until the snapshot has been loaded. */
    method WhenLive(e: Event)
      requires Valid()
      modifies this
      ensures Valid() && live == old(live)
      ensures live ==> Shown() == Apply(old(Shown()), e) && waiting == old(waiting)
      ensures !live ==> Shown() == old(Shown()) && waiting == old(waiting) + [e]
    {
      hide Totals, Apply;
      if live {
        Handle(e);
      } else {
        waiting := waiting + [e];
      }
    }

    /** The end of `connect`: the snapshot, or its failure, and then every waiting event in
        the order in which it came. */
    method Connected(snapshot: Option<Snapshot>)
      requires Valid() && !live
      modifies this
      ensures Valid() && live && ready
      ensures Shown() == ApplyAll(if snapshot.Some? then Loaded(snapshot.value) else old(Shown()), old(waiting))
    {
      hide Totals, Apply, ApplyAll, Loaded, Flatten, Values;
      match snapshot {
        case Some(taken) => Load(taken);
        case None => ready := true;
      }
      live := true;
      ghost var start := Shown();
      NothingToApply(start, waiting);
      for i := 0 to |waiting|
        invariant Valid() && live && ready && waiting == old(waiting)
        invariant Shown() == ApplyAll(start, waiting[..i])
      {
        ApplyAllLast(start, waiting[..i], waiting[i]);
        assert waiting[..i + 1] == waiting[..i] + [waiting[i]];
        Handle(waiting[i]);
      }
      assert waiting[..|waiting|] == waiting;
    }
  }

  lemma NothingToApply(v: View, events: seq<Event>)
    ensures ApplyAll(v, events[..0]) == v
  {
  }

  method FilterUnseen(lines: seq<GameLine>, nextSeq: nat) returns (unseen: seq<GameLine>)
    ensures unseen == Unseen(lines, nextSeq)
  {
    unseen := [];
    for i := 0 to |lines|
      invariant unseen + Unseen(lines[i..], nextSeq) == Unseen(lines, nextSeq)
    {
      assert lines[i..][1..] == lines[i + 1..];
      if lines[i].seqNo >= nextSeq {
        unseen := unseen + [lines[i]];
      }
    }
  }

  /** Every running total equals its recomputation from the lines. */
  ghost predicate Totals(css: seq<seq<GameLine>>, total: nat, text: nat, counts: LevelCounts) {
    && NonEmpty(css)
    && total == |Flatten(css)|
    && text == TextUnits(Flatten(css))
    && counts == Tally(Flatten(css))
  }

  /** Lines are in order and before `nextSeq`, and chunk keys, the identities the list view
      uses, never repeat. */
  ghost predicate OrderedChunks(css: seq<seq<GameLine>>, nextSeq: nat) {
    && Keyed(css)
    && Ascending(Flatten(css))
    && NextAfter(Flatten(css), 0) <= nextSeq
  }

  lemma NothingIn(chunks: seq<LineArray>)
    requires chunks == []
    ensures Flat(chunks) == []
    ensures Totals(Values(chunks), 0, 0, NO_COUNTS) && OrderedChunks(Values(chunks), 0)
  {
  }

  lemma NoArrays(chunks: seq<LineArray>, lines: seq<GameLine>)
    requires chunks == []
    ensures NonEmpty(Values(chunks)) && Keyed(Values(chunks)) && Flat(chunks) + lines == lines
    ensures Ascending(lines) ==> Continues(Values(chunks), lines)
  {
  }

  lemma TotalsFromNone(css: seq<seq<GameLine>>, lines: seq<GameLine>)
    requires NonEmpty(css) && Flatten(css) == lines
    ensures Totals(css, |lines|, TextUnits(lines), Plus(NO_COUNTS, 1, Tally(lines)))
  {
    hide Flatten, Number, TextUnits, NonEmpty;
  }

  lemma OrderFromNone(css: seq<seq<GameLine>>, lines: seq<GameLine>)
    requires Flatten(css) == lines
    ensures Keyed(css) && Ascending(lines) ==> OrderedChunks(css, NextAfter(lines, 0))
  {
    hide Flatten, Keyed;
  }

  lemma TotalsMean(css: seq<seq<GameLine>>, total: nat, text: nat, counts: LevelCounts)
    requires Totals(css, total, text, counts)
    ensures NonEmpty(css) && total == |Flatten(css)| && text == TextUnits(Flatten(css))
  {
  }

  lemma TotalsGrow(css: seq<seq<GameLine>>, grown: seq<seq<GameLine>>, more: seq<GameLine>,
                   total: nat, text: nat, counts: LevelCounts)
    requires Totals(css, total, text, counts)
    requires NonEmpty(grown) && Flatten(grown) == Flatten(css) + more
    ensures Totals(grown, total + |more|, text + TextUnits(more), Plus(counts, 1, Tally(more)))
  {
    hide Flatten, Tally, TextUnits;
    TallyConcat(Flatten(css), more);
    TextUnitsConcat(Flatten(css), more);
  }

  lemma TotalsShrink(css: seq<seq<GameLine>>, rest: seq<seq<GameLine>>, removed: seq<GameLine>,
                     total: nat, text: nat, counts: LevelCounts)
    requires Totals(css, total, text, counts)
    requires NonEmpty(rest) && |removed| <= |Flatten(css)|
    requires removed == Flatten(css)[..|removed|] && Flatten(rest) == Flatten(css)[|removed|..]
    ensures |removed| <= total && TextUnits(removed) <= text
    ensures Totals(rest, total - |removed|, text - TextUnits(removed), Plus(counts, -1, Tally(removed)))
  {
    hide Flatten, Number, TextUnits;
    assert Flatten(css) == removed + Flatten(rest);
    TallyConcat(removed, Flatten(rest));
    TextUnitsConcat(removed, Flatten(rest));
  }

  lemma OrderGrows(css: seq<seq<GameLine>>, grown: seq<seq<GameLine>>, more: seq<GameLine>, nextSeq: nat)
    requires Flatten(grown) == Flatten(css) + more
    requires Keyed(css) && Continues(css, more) ==> Keyed(grown)
    ensures && OrderedChunks(css, nextSeq)
            && Ascending(more)
            && (forall k :: 0 <= k < |more| ==> nextSeq <= more[k].seqNo)
            ==> OrderedChunks(grown, NextAfter(more, nextSeq))
  {
    hide Keyed, Continues, Flatten;
    if && OrderedChunks(css, nextSeq)
       && Ascending(more)
       && (forall k :: 0 <= k < |more| ==> nextSeq <= more[k].seqNo)
    {
      ContinuesAfter(css, more, nextSeq);
      AscendingConcat(Flatten(css), more, nextSeq);
    }
  }

  lemma UnseenGrows(css: seq<seq<GameLine>>, grown: seq<seq<GameLine>>, lines: seq<GameLine>, nextSeq: nat)
    requires Flatten(grown) == Flatten(css) + Unseen(lines, nextSeq)
    requires Keyed(css) && Continues(css, Unseen(lines, nextSeq)) ==> Keyed(grown)
    ensures OrderedChunks(css, nextSeq) && Ascending(lines) ==>
              OrderedChunks(grown, NextAfter(Unseen(lines, nextSeq), nextSeq))
  {
    hide Keyed, Continues, Flatten, OrderedChunks;
    if Ascending(lines) {
      UnseenRises(lines, nextSeq);
    }
    OrderGrows(css, grown, Unseen(lines, nextSeq), nextSeq);
  }

  lemma OrderShrinks(css: seq<seq<GameLine>>, rest: seq<seq<GameLine>>, k: nat, nextSeq: nat)
    requires k <= |Flatten(css)| && Flatten(rest) == Flatten(css)[k..]
    requires Keyed(css) ==> Keyed(rest)
    ensures OrderedChunks(css, nextSeq) ==> OrderedChunks(rest, nextSeq)
  {
    hide Flatten, Keyed;
  }

  ghost predicate Picked(some: seq<GameLine>, lines: seq<GameLine>, nextSeq: nat) {
    forall k :: 0 <= k < |some| ==> some[k].seqNo >= nextSeq && some[k] in lines
  }

  lemma {:induction false} UnseenRises(lines: seq<GameLine>, nextSeq: nat)
    requires Ascending(lines)
    ensures Ascending(Unseen(lines, nextSeq)) && Picked(Unseen(lines, nextSeq), lines, nextSeq)
  {
    if lines != [] {
      TailRises(lines);
      UnseenStep(lines, lines[0], lines[1..], nextSeq);
      UnseenRises(lines[1..], nextSeq);
      PickedFurther(lines, Unseen(lines[1..], nextSeq), nextSeq);
    }
    hide Ascending, Picked;
  }

  lemma TailRises(lines: seq<GameLine>)
    requires Ascending(lines) && lines != []
    ensures Ascending(lines[1..]) && lines == [lines[0]] + lines[1..]
    ensures forall line :: line in lines[1..] ==> lines[0].seqNo < line.seqNo
  {
  }

  lemma PickedFurther(lines: seq<GameLine>, rest: seq<GameLine>, nextSeq: nat)
    requires lines != [] && Ascending(lines) && Ascending(rest) && Picked(rest, lines[1..], nextSeq)
    ensures Picked([] + rest, lines, nextSeq) && Ascending([] + rest)
    ensures lines[0].seqNo >= nextSeq ==> Picked([lines[0]] + rest, lines, nextSeq)
    ensures Ascending([lines[0]] + rest)
  {
    TailRises(lines);
    assert [] + rest == rest;
    AscendingConcat([lines[0]], rest, lines[0].seqNo + 1);
    hide Ascending;
  }

  lemma AscendingConcat(a: seq<GameLine>, b: seq<GameLine>, mid: nat)
    requires Ascending(a) && Ascending(b)
    requires a != [] ==> a[|a| - 1].seqNo < mid
    requires forall k :: 0 <= k < |b| ==> mid <= b[k].seqNo
    ensures Ascending(a + b)
  {
  }

  lemma LastOfFlat(css: seq<seq<GameLine>>)
    requires NonEmpty(css)
    ensures css != [] ==>
              Flatten(css) != [] && Flatten(css)[|Flatten(css)| - 1] == css[|css| - 1][|css[|css| - 1]| - 1]
  {
    if css != [] {
      var n := |css| - 1;
      FlattenLast(css[..n], css[n]);
      assert css == css[..n] + [css[n]];
    }
  }

  lemma ContinuesAfter(css: seq<seq<GameLine>>, more: seq<GameLine>, nextSeq: nat)
    requires OrderedChunks(css, nextSeq) && Ascending(more)
    requires forall k :: 0 <= k < |more| ==> nextSeq <= more[k].seqNo
    ensures Continues(css, more)
  {
    LastOfFlat(css);
    hide Flatten;
    if css != [] && more != [] {
      var last := css[|css| - 1];
      assert ChunkOf(last[0]) == ChunkOf(last[|last| - 1]) <= ChunkOf(more[0]);
    }
  }
}
