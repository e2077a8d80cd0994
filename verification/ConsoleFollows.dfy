/** How a console follows the log of one session: what it holds after each event, given what
    was emitted before and what was missed. */
module ConsoleFollows {
  import opened Wrappers
  import opened SuffixFit
  import opened LogText
  import opened GameLog
  import opened LineChunks
  import opened ConsoleView
  import opened ConsoleProtocol

  ghost predicate OkLimits(v: View) {
    && (v.limit == Unlimited || v.limit == AtMost(LINE_LIMIT))
    && (v.textLimit == Unlimited || v.textLimit == AtMost(TEXT_LIMIT_BYTES))
  }

  /** `v` ends with `history[lo..to]`. */
  ghost predicate Covers(v: View, history: seq<GameLine>, lo: nat, to: nat) {
    && lo <= to <= |history|
    && to - lo <= |v.lines|
    && v.lines[|v.lines| - (to - lo)..] == history[lo..to]
    && (lo < to ==> v.nextSeq == to)
  }

  ghost predicate NoneMissed(lines: seq<GameLine>, missed: nat) {
    forall k :: 0 <= k < |lines| ==> missed <= lines[k].seqNo
  }

  /** A console of the current session, given that everything before `to` was emitted:
      it holds all of it from `floor` on. */
  ghost predicate Follows(v: View, history: seq<GameLine>, missed: nat, emittedTo: nat) {
    var to := Max(emittedTo, v.nextSeq);
    var floor := Max(First(history), missed);
    && Numbered(history)
    && PartOf(v.lines, history, v.nextSeq)
    && NoneMissed(v.lines, missed)
    && Covers(v, history, Min(floor, to), to)
  }

  // ---- The limits of the window never cost a line that the log still holds ----

  lemma {:induction false} UnitsBelowBytes(lines: seq<GameLine>)
    ensures Sum(UnitWeights(lines)) <= Sum(Weights(lines))
  {
    if lines != [] {
      UnitsAtMostBytes(lines[0].text);
      UnitsBelowBytes(lines[1..]);
      assert UnitWeights(lines)[1..] == UnitWeights(lines[1..]);
      assert Weights(lines)[1..] == Weights(lines[1..]);
    }
  }

  lemma WeightsOfSlice(lines: seq<GameLine>, a: nat, b: nat)
    requires a <= b <= |lines|
    ensures Weights(lines[a..b]) == Weights(lines)[a..b]
  {
  }

  lemma SliceOfSuffix(history: seq<GameLine>, first: nat, lo: nat, to: nat)
    requires first <= lo <= to <= |history|
    ensures history[first..][lo - first..to - first] == history[lo..to]
  {
  }

  lemma FitsInWindow(v: View, history: seq<GameLine>, lo: nat, to: nat)
    requires OkLimits(v) && Min(First(history), to) <= lo <= to <= |history|
    ensures Fits(UnitWeights(history[lo..to]), v.limit, v.textLimit)
  {
    if First(history) <= lo {
      var first := First(history);
      HeldIsLongestFitting(history);
      var held := Weights(Held(history));
      FitsSlice(held, lo - first, to - first, AtMost(LINE_LIMIT), AtMost(TEXT_LIMIT_BYTES));
      WeightsOfSlice(Held(history), lo - first, to - first);
      SliceOfSuffix(history, first, lo, to);
      UnitsBelowBytes(history[lo..to]);
    } else {
      assert history[lo..to] == [];
    }
  }

  /** Trimming to the limits keeps a suffix that the log still holds. */
  lemma TrimKeeps(v: View, all: seq<GameLine>, history: seq<GameLine>, lo: nat, to: nat)
    requires OkLimits(v) && Min(First(history), to) <= lo <= to <= |history|
    requires to - lo <= |all| && all[|all| - (to - lo)..] == history[lo..to]
    ensures var rest := all[Excess(v, all)..];
            to - lo <= |rest| && rest[|rest| - (to - lo)..] == history[lo..to]
  {
    hide Fits, FirstKept, UnitWeights, First;
    var k := |all| - (to - lo);
    FitsInWindow(v, history, lo, to);
    UnitWeightsFrom(all, k);
    KeptAtMost(UnitWeights(all), k, v.limit, v.textLimit);
    DropDrop(all, Excess(v, all), k);
  }

  lemma DropDrop<T>(xs: seq<T>, i: nat, k: nat)
    requires i <= k <= |xs|
    ensures xs[i..][k - i..] == xs[k..]
  {
  }

  // ---- One batch ----

  lemma Joined(lines: seq<GameLine>, history: seq<GameLine>, lo: nat, mid: nat, to: nat)
    requires lo <= mid <= to <= |history|
    requires mid - lo <= |lines| && lines[|lines| - (mid - lo)..] == history[lo..mid]
    ensures var all := lines + history[mid..to];
            to - lo <= |all| && all[|all| - (to - lo)..] == history[lo..to]
  {
    var all := lines + history[mid..to];
    assert all[|all| - (to - lo)..] == lines[|lines| - (mid - lo)..] + history[mid..to];
    assert history[lo..to] == history[lo..mid] + history[mid..to];
  }

  lemma SuffixOfJoined(lines: seq<GameLine>, history: seq<GameLine>, lo: nat, mid: nat, to: nat)
    requires mid <= lo <= to <= |history|
    ensures var all := lines + history[mid..to];
            to - lo <= |all| && all[|all| - (to - lo)..] == history[lo..to]
  {
    var all := lines + history[mid..to];
    assert all[|all| - (to - lo)..] == history[mid..to][lo - mid..];
  }

  /** The unseen part of a batch `history[a..b]` ends, together with what the console already
      shows, with everything from `floor` on. */
  lemma BatchCovers(v: View, history: seq<GameLine>, missed: nat, emittedTo: nat, a: nat, b: nat)
    requires Follows(v, history, missed, emittedTo)
    requires a <= b <= |history| && v.nextSeq < b && a < b
    requires emittedTo < b ==> a <= Max(emittedTo, First(history))
    ensures b <= emittedTo ==> emittedTo <= Max(First(history), missed)
    ensures var m := Max(a, v.nextSeq);
            var lo := Min(Max(First(history), missed), b);
            var all := v.lines + history[m..b];
            emittedTo < b ==> b - lo <= |all| && all[|all| - (b - lo)..] == history[lo..b]
  {
    hide PartOf, Numbered, First;
    var floor := Max(First(history), missed);
    var to := Max(emittedTo, v.nextSeq);
    var m := Max(a, v.nextSeq);
    var lo := Min(floor, b);
    if emittedTo < b {
      if m <= lo {
        SuffixOfJoined(v.lines, history, lo, m, b);
      } else {
        assert lo == floor && m == to;
        Joined(v.lines, history, lo, m, b);
      }
    }
  }

  /** A console that follows the log up to `emittedTo` follows it after a batch, whether an
      old one, all of it emitted before, or the next one. */
  lemma BatchFollows(v: View, history: seq<GameLine>, missed: nat, emittedTo: nat, a: nat, b: nat)
    requires OkLimits(v) && Follows(v, history, missed, emittedTo)
    requires missed <= a < b <= |history|
    requires emittedTo < b ==> a <= Max(emittedTo, First(history))
    ensures Follows(Appended(v, v.session, history[a..b]), history, missed, Max(emittedTo, b))
  {
    hide *;
    FollowsParts(v, history, missed, emittedTo);
    BatchLines(v, history, a, b);
    if v.nextSeq < b {
      var m := Max(a, v.nextSeq);
      MaxIs(a, v.nextSeq);
      var all := v.lines + history[m..b];
      var w := v.(lines := all[Excess(v, all)..], dropped := v.dropped + Excess(v, all), nextSeq := b);
      PartLater(v.lines, history, v.nextSeq, m);
      AppendPart(v.lines, history, m, b, Excess(v, all));
      MissedStays(v.lines, history, missed, m, b, Excess(v, all));
      BatchCoversOn(v, history, missed, emittedTo, a, b);
      FollowsFrom(w, history, missed, Max(emittedTo, b));
    } else {
      StillFollows(v, history, missed, emittedTo, b);
    }
  }

  lemma MaxIs(a: nat, b: nat)
    ensures Max(a, b) == if a < b then b else a
  {
  }

  lemma StillFollows(v: View, history: seq<GameLine>, missed: nat, emittedTo: nat, b: nat)
    requires Follows(v, history, missed, emittedTo) && b <= v.nextSeq
    ensures Follows(v, history, missed, Max(emittedTo, b))
  {
    hide PartOf, Covers, First, Numbered;
  }

  lemma FollowsParts(v: View, history: seq<GameLine>, missed: nat, emittedTo: nat)
    requires Follows(v, history, missed, emittedTo)
    ensures Numbered(history) && PartOf(v.lines, history, v.nextSeq) && NoneMissed(v.lines, missed)
  {
    hide PartOf, Covers, First, Numbered;
  }

  lemma FollowsFrom(w: View, history: seq<GameLine>, missed: nat, emittedTo: nat)
    requires Numbered(history) && PartOf(w.lines, history, w.nextSeq) && NoneMissed(w.lines, missed)
    requires var to := Max(emittedTo, w.nextSeq); Covers(w, history, Min(Max(First(history), missed), to), to)
    ensures Follows(w, history, missed, emittedTo)
  {
    hide PartOf, Covers, First, Numbered;
  }

  /** What a console makes of a batch of the session it shows. */
  lemma BatchLines(v: View, history: seq<GameLine>, a: nat, b: nat)
    requires Numbered(history) && a < b <= |history|
    ensures var w, m := Appended(v, v.session, history[a..b]), Max(a, v.nextSeq);
            if v.nextSeq < b then
              var all := v.lines + history[m..b];
              var k := Excess(v, all);
              w == v.(lines := all[k..], dropped := v.dropped + k, nextSeq := b)
            else w == v
  {
    UnseenOfSlice(history, a, b, v.nextSeq);
    if v.nextSeq < b {
      LastOfSlice(history, Max(a, v.nextSeq), b);
    }
    hide Numbered, Unseen, Excess, NextAfter;
  }

  lemma BatchCoversOn(v: View, history: seq<GameLine>, missed: nat, emittedTo: nat, a: nat, b: nat)
    requires OkLimits(v) && Follows(v, history, missed, emittedTo)
    requires missed <= a < b <= |history| && v.nextSeq < b
    requires emittedTo < b ==> a <= Max(emittedTo, First(history))
    ensures var all := v.lines + history[Max(a, v.nextSeq)..b];
            var w := v.(lines := all[Excess(v, all)..], dropped := v.dropped + Excess(v, all), nextSeq := b);
            var to := Max(Max(emittedTo, b), w.nextSeq);
            Covers(w, history, Min(Max(First(history), missed), to), to)
  {
    hide PartOf, Numbered, First, Excess, NoneMissed, OkLimits;
    BatchCovers(v, history, missed, emittedTo, a, b);
    if emittedTo < b {
      hide Follows;
      var all := v.lines + history[Max(a, v.nextSeq)..b];
      TrimKeeps(v, all, history, Min(Max(First(history), missed), b), b);
    } else {
      hide Follows;
    }
  }

  /** After a batch of the session it shows the console expects the line after it. */
  lemma BatchNext(v: View, history: seq<GameLine>, a: nat, b: nat)
    requires Numbered(history) && a < b <= |history|
    ensures Appended(v, v.session, history[a..b]).nextSeq == Max(v.nextSeq, b)
  {
    BatchLines(v, history, a, b);
    hide Numbered, Appended, Excess;
  }

  lemma MissedStays(lines: seq<GameLine>, history: seq<GameLine>, missed: nat, from: nat, to: nat, k: nat)
    requires Numbered(history) && missed <= from <= to <= |history|
    requires NoneMissed(lines, missed) && k <= |lines| + (to - from)
    ensures NoneMissed((lines + history[from..to])[k..], missed)
  {
    var all := lines + history[from..to];
    assert forall i :: |lines| <= i < |all| ==> all[i] == history[from + i - |lines|];
  }

  // ---- Following, whichever session is shown ----

  ghost predicate Tracks(v: View, session: nat, history: seq<GameLine>, missed: nat, emittedTo: nat) {
    && v.session <= session
    && OkLimits(v)
    && (v.session == session ==> Follows(v, history, missed, emittedTo))
  }

  /** An event that says nothing new about the current session. */
  ghost predicate Old(e: Event, session: nat, history: seq<GameLine>, emittedTo: nat) {
    && e.session <= session
    && (e.session == session ==>
          !e.Started? && (e.Batch? ==> IsSlice(e.lines, history) && End(e.lines) <= emittedTo))
  }

  ghost predicate AllOld(events: seq<Event>, session: nat, history: seq<GameLine>, emittedTo: nat) {
    forall i :: 0 <= i < |events| ==> Old(events[i], session, history, emittedTo)
  }

  ghost predicate NoStarted(events: seq<Event>) {
    forall i :: 0 <= i < |events| ==> !events[i].Started?
  }

  ghost predicate NoBatch(events: seq<Event>) {
    forall i :: 0 <= i < |events| ==> !events[i].Batch?
  }

  /** A batch read under the lock: the newest lines, beginning where the last one ended or where
      the log begins by now. */
  ghost predicate PendingOk(batch: seq<GameLine>, history: seq<GameLine>, emittedTo: nat, sent: nat) {
    && |batch| <= sent <= |history|
    && batch == history[sent - |batch|..sent]
    && emittedTo <= sent - |batch| <= Max(emittedTo, First(history))
  }

  // ---- Single events on a tracking console ----

  lemma FollowsGrown(v: View, history: seq<GameLine>, grown: seq<GameLine>, missed: nat, emittedTo: nat)
    requires Follows(v, history, missed, emittedTo) && history <= grown && Numbered(grown)
    ensures Follows(v, grown, missed, emittedTo)
  {
    assert grown == history + grown[|history|..];
    FirstOnlyGrows(history, grown[|history|..]);
    PartGrown(v.lines, history, grown, v.nextSeq);
    hide First, PartOf, Numbered;
    var to := Max(emittedTo, v.nextSeq);
    CoversGrown(v, history, grown, Min(Max(First(history), missed), to), Min(Max(First(grown), missed), to), to);
  }

  lemma PartGrown(lines: seq<GameLine>, history: seq<GameLine>, grown: seq<GameLine>, nextSeq: nat)
    requires PartOf(lines, history, nextSeq) && history <= grown
    ensures PartOf(lines, grown, nextSeq)
  {
    hide Ascending;
  }

  lemma CoversGrown(v: View, history: seq<GameLine>, grown: seq<GameLine>, lo: nat, hi: nat, to: nat)
    requires Covers(v, history, lo, to) && lo <= hi <= to && history <= grown
    ensures Covers(v, grown, hi, to)
  {
    DropDrop(v.lines, |v.lines| - (to - lo), |v.lines| - (to - hi));
    SliceOfGrown(history, grown, lo, hi, to);
  }

  lemma SliceOfGrown(history: seq<GameLine>, grown: seq<GameLine>, lo: nat, hi: nat, to: nat)
    requires lo <= hi <= to <= |history| && history <= grown
    ensures grown[hi..to] == history[lo..to][hi - lo..]
  {
    var a, b := grown[hi..to], history[lo..to][hi - lo..];
    assert |a| == |b|;
    forall k | 0 <= k < |a|
      ensures a[k] == b[k]
    {
      assert history[hi + k] == grown[hi + k];
    }
  }

  lemma TracksGrown(v: View, session: nat, history: seq<GameLine>, grown: seq<GameLine>, missed: nat, emittedTo: nat)
    requires Tracks(v, session, history, missed, emittedTo) && history <= grown && Numbered(grown)
    ensures Tracks(v, session, grown, missed, emittedTo)
  {
    hide Follows, Numbered;
    if v.session == session {
      FollowsGrown(v, history, grown, missed, emittedTo);
    }
  }

  lemma LimitsStay(v: View, e: Event)
    ensures Apply(v, e).limit == v.limit && Apply(v, e).textLimit == v.textLimit
  {
  }

  lemma {:induction false} AllLimitsStay(v: View, events: seq<Event>)
    requires OkLimits(v)
    ensures OkLimits(ApplyAll(v, events))
    decreases |events|
  {
    if events != [] {
      LimitsStay(v, events[0]);
      hide Apply;
      AllLimitsStay(Apply(v, events[0]), events[1..]);
    }
  }

  lemma EmptyFollows(v: View)
    requires v.lines == [] && v.nextSeq == 0
    ensures Follows(v, [], 0, 0)
  {
  }

  lemma StartedTracks(v: View, session: nat, build: string)
    requires OkLimits(v)
    ensures var w := Apply(v, Started(session, build));
            w.session == session && w.lines == [] && w.nextSeq == 0 && Tracks(w, session, [], 0, 0)
  {
    EmptyFollows(Apply(v, Started(session, build)));
  }

  lemma ExitTracks(v: View, e: Event, session: nat, history: seq<GameLine>, missed: nat, emittedTo: nat)
    requires e.Exit?
    ensures Apply(v, e).session == v.session && Apply(v, e).lines == v.lines && Apply(v, e).nextSeq == v.nextSeq
    ensures Tracks(v, session, history, missed, emittedTo) ==> Tracks(Apply(v, e), session, history, missed, emittedTo)
  {
  }

  /** A console got no further than what was emitted, and not back. */
  predicate Further(v: View, w: View, emittedTo: nat) { v.nextSeq <= w.nextSeq <= Max(v.nextSeq, emittedTo) }

  lemma OldTracks(v: View, e: Event, session: nat, history: seq<GameLine>, emittedTo: nat)
    requires Tracks(v, session, history, 0, emittedTo) && Old(e, session, history, emittedTo)
    ensures Tracks(Apply(v, e), session, history, 0, emittedTo)
    ensures !e.Started? ==> Apply(v, e).session == v.session
    ensures !e.Started? && v.session == session ==> Further(v, Apply(v, e), emittedTo)
  {
    hide Follows, OkLimits, Appended;
    LimitsStay(v, e);
    OkSame(v, Apply(v, e));
    match e {
      case Started(_, _) =>
      case Exit(_, _, _) => ExitTracks(v, e, session, history, 0, emittedTo);
      case Batch(owner, lines) =>
        AppendedSession(v, e);
        if owner != v.session {
          OtherSession(v, e);
        } else if owner == session {
          var a, b := lines[0].seqNo, End(lines);
          BatchFollows(v, history, 0, emittedTo, a, b);
          FollowsParts(v, history, 0, emittedTo);
          BatchNext(v, history, a, b);
          assert Apply(v, e) == Appended(v, v.session, history[a..b]);
          assert Max(emittedTo, b) == emittedTo;
        }
    }
  }

  lemma OkSame(v: View, w: View)
    requires OkLimits(v) && w.limit == v.limit && w.textLimit == v.textLimit
    ensures OkLimits(w)
  {
  }

  lemma AppendedSession(v: View, e: Event)
    requires e.Batch?
    ensures Apply(v, e).session == v.session
  {
  }

  lemma {:induction false} AllOldTrack(v: View, events: seq<Event>, session: nat, history: seq<GameLine>,
                                       emittedTo: nat)
    requires Tracks(v, session, history, 0, emittedTo) && AllOld(events, session, history, emittedTo)
    ensures Tracks(ApplyAll(v, events), session, history, 0, emittedTo)
    ensures NoStarted(events) ==> ApplyAll(v, events).session == v.session
    ensures NoStarted(events) && v.session == session ==> Further(v, ApplyAll(v, events), emittedTo)
    decreases |events|
  {
    hide Tracks, Old, Apply;
    if events != [] {
      OldTracks(v, events[0], session, history, emittedTo);
      AllOldTrack(Apply(v, events[0]), events[1..], session, history, emittedTo);
    }
  }

  /** The next batch, emitted to a listener. */
  lemma NextBatchTracks(v: View, batch: seq<GameLine>, session: nat, history: seq<GameLine>, missed: nat,
                        emittedTo: nat, sent: nat)
    requires Tracks(v, session, history, missed, emittedTo) && missed <= emittedTo
    requires PendingOk(batch, history, emittedTo, sent) && batch != []
    ensures var w := Apply(v, Batch(session, batch));
            && w.session == v.session && Tracks(w, session, history, missed, sent)
            && (if v.session == session then w.nextSeq == Max(v.nextSeq, sent) else w == v)
  {
    hide Follows, OkLimits, Appended;
    var e := Batch(session, batch);
    LimitsStay(v, e);
    OkSame(v, Apply(v, e));
    AppendedSession(v, e);
    if v.session == session {
      BatchFollows(v, history, missed, emittedTo, sent - |batch|, sent);
      FollowsParts(v, history, missed, emittedTo);
      BatchNext(v, history, sent - |batch|, sent);
    } else {
      OtherSession(v, e);
    }
  }

  lemma OtherSession(v: View, e: Event)
    requires e.Batch? && e.session != v.session
    ensures Apply(v, e) == v
  {
  }

  /** An empty batch is not emitted: whatever it would have covered is dropped already. */
  lemma NoBatchTracks(v: View, session: nat, history: seq<GameLine>, missed: nat, emittedTo: nat, sent: nat)
    requires Tracks(v, session, history, missed, emittedTo) && missed <= emittedTo
    requires PendingOk([], history, emittedTo, sent)
    ensures Tracks(v, session, history, missed, sent)
  {
    if v.session == session && emittedTo < sent {
      var to := Max(emittedTo, v.nextSeq);
      var to2 := Max(sent, v.nextSeq);
      assert sent <= First(history);
      assert Min(Max(First(history), missed), to2) == to2 || to2 == to;
    }
  }

  /** A batch emitted to nobody, when the console has shown nothing of this session yet. */
  lemma MissedTracks(v: View, session: nat, history: seq<GameLine>, missed: nat, emittedTo: nat, sent: nat)
    requires Tracks(v, session, history, missed, emittedTo) && v.lines == [] && v.nextSeq == 0
    requires sent <= |history|
    ensures Tracks(v, session, history, sent, sent)
  {
  }

  lemma HeldFollows(v: View, history: seq<GameLine>, emittedTo: nat)
    requires Numbered(history) && emittedTo <= |history|
    requires v.lines == Held(history) && v.nextSeq == NextAfter(Held(history), 0)
    ensures Follows(v, history, 0, emittedTo)
  {
    HeldIsPart(history);
    var first := First(history);
    hide PartOf, First;
    if first < |history| {
      LastOfSlice(history, first, |history|);
      assert history[first..|history|] == Held(history);
      hide Numbered;
      assert v.nextSeq == |history|;
    } else {
      hide Numbered;
      assert Held(history) == [];
    }
  }
}
