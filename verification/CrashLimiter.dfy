/** How many crash reports a sender may deliver (server/internal/crash/service.go): at most `limit`
    in any hour. Times are whole nanoseconds of one clock that does not go back. */
module CrashLimiter {
  const HOUR: int := 60 * 60 * 1_000_000_000

  /** A report let through: the clock was `asked` when the last hour was looked at, and `time` when
      the report was noted. */
  datatype Call = Call(sender: string, asked: int, time: int, limit: int)

  function Of(calls: seq<Call>, sender: string): seq<Call> {
    if calls == [] then []
    else
      var last := calls[|calls| - 1];
      Of(calls[..|calls| - 1], sender) + if last.sender == sender then [last] else []
  }

  function Times(calls: seq<Call>): (times: seq<int>)
    ensures |times| == |calls|
    ensures forall i :: 0 <= i < |calls| ==> times[i] == calls[i].time
  {
    if calls == [] then [] else Times(calls[..|calls| - 1]) + [calls[|calls| - 1].time]
  }

  function TimesOf(calls: seq<Call>, sender: string): seq<int> {
    Times(Of(calls, sender))
  }

  /** How many times are later than a moment. */
  function Later(times: seq<int>, moment: int): nat {
    if times == [] then 0
    else Later(times[..|times| - 1], moment) + if times[|times| - 1] > moment then 1 else 0
  }

  /** How many times lie in the hour that starts at a moment. */
  function InHour(times: seq<int>, start: int): nat {
    if times == [] then 0
    else InHour(times[..|times| - 1], start) + if start < times[|times| - 1] <= start + HOUR then 1 else 0
  }

  /** The clock never goes back: each call asks no earlier than the one before was noted. */
  predicate Ordered(calls: seq<Call>) {
    forall i :: 0 <= i < |calls| ==>
      calls[i].asked <= calls[i].time && forall j :: 0 <= j < i ==> calls[j].time <= calls[i].asked
  }

  /** Each of a sender's calls found fewer than its limit in the hour before it. */
  predicate Limited(calls: seq<Call>) {
    forall i :: 0 <= i < |calls| ==> FoundFewer(calls[..i], calls[i])
  }

  predicate FoundFewer(earlier: seq<Call>, call: Call) {
    Later(Times(earlier), call.asked - HOUR) < call.limit
  }

  lemma {:induction false} InHourAtMostLater(times: seq<int>, start: int, moment: int)
    requires moment <= start
    ensures InHour(times, start) <= Later(times, moment)
  {
    if times != [] {
      InHourAtMostLater(times[..|times| - 1], start, moment);
    }
  }

  lemma LimitedBefore(calls: seq<Call>, n: nat)
    requires Limited(calls) && n <= |calls|
    ensures Limited(calls[..n])
  {
    hide FoundFewer;
    forall i | 0 <= i < n
      ensures FoundFewer(calls[..n][..i], calls[..n][i])
    {
      assert calls[..n][..i] == calls[..i];
    }
  }

  /** However an hour is laid over a sender's accepted reports, it covers no more than the limit. */
  lemma {:induction false} NoHourExceeds(calls: seq<Call>, limit: int, start: int)
    requires Ordered(calls) && Limited(calls) && limit >= 0
    requires forall i :: 0 <= i < |calls| ==> calls[i].limit == limit
    ensures InHour(Times(calls), start) <= limit
    decreases |calls|
  {
    hide Limited;
    if calls != [] {
      var n := |calls| - 1;
      LimitedBefore(calls, n);
      NoHourExceeds(calls[..n], limit, start);
      LimitedAt(calls, n);
      assert Times(calls)[..n] == Times(calls[..n]);
      if calls[n].time <= start + HOUR {
        InHourAtMostLater(Times(calls[..n]), start, calls[n].asked - HOUR);
      }
    }
  }

  lemma LimitedAt(calls: seq<Call>, n: nat)
    requires Limited(calls) && n < |calls|
    ensures FoundFewer(calls[..n], calls[n])
  {
    hide FoundFewer;
  }

  lemma OrderedOneMore(calls: seq<Call>, call: Call, clock: int)
    requires Ordered(calls) && Ascending(Times(calls), clock) && clock <= call.asked <= call.time
    ensures Ordered(calls + [call])
  {
    var longer := calls + [call];
    forall i, j | 0 <= j < i < |longer|
      ensures longer[j].time <= longer[i].asked
    {
      if i == |calls| {
        assert calls[j].time == Times(calls)[j];
      }
    }
  }

  lemma LimitedOneMore(calls: seq<Call>, call: Call)
    requires Limited(calls) && FoundFewer(calls, call)
    ensures Limited(calls + [call])
  {
    hide FoundFewer;
    var longer := calls + [call];
    assert longer[..|calls|] == calls;
    forall i | 0 <= i < |longer|
      ensures FoundFewer(longer[..i], longer[i])
    {
      if i < |calls| {
        PrefixOfLonger(calls, call, i);
      }
    }
  }

  lemma PrefixOfLonger(calls: seq<Call>, call: Call, i: nat)
    requires i < |calls|
    ensures (calls + [call])[..i] == calls[..i] && (calls + [call])[i] == calls[i]
  {}

  // ---- What the service remembers ----

  /** The remembered times are the last of the accepted ones; those forgotten are an hour old. */
  ghost predicate Remembers(moments: seq<int>, times: seq<int>, clock: int) {
    |moments| <= |times| && moments == times[|times| - |moments|..] &&
    forall i :: 0 <= i < |times| - |moments| ==> times[i] <= clock - HOUR
  }

  predicate Ascending(times: seq<int>, clock: int) {
    (forall i, j :: 0 <= i < j < |times| ==> times[i] <= times[j]) && forall i :: 0 <= i < |times| ==> times[i] <= clock
  }

  function MomentsOf(recent: map<string, seq<int>>, sender: string): seq<int> {
    if sender in recent then recent[sender] else []
  }

  lemma {:induction false} LaterOfOld(times: seq<int>, moment: int)
    requires forall i :: 0 <= i < |times| ==> times[i] <= moment
    ensures Later(times, moment) == 0
  {
    if times != [] {
      LaterOfOld(times[..|times| - 1], moment);
    }
  }

  /** What is forgotten no longer counts. */
  lemma {:induction false} LaterRemembered(times: seq<int>, moments: seq<int>, clock: int, deadline: int)
    requires Remembers(moments, times, clock) && clock - HOUR <= deadline
    ensures Later(times, deadline) == Later(moments, deadline)
    decreases |moments|
  {
    if moments == [] {
      LaterOfOld(times, deadline);
    } else {
      var n, m := |times| - 1, |moments| - 1;
      assert times[n] == moments[m];
      assert moments[..m] == times[..n][|times[..n]| - m..];
      LaterRemembered(times[..n], moments[..m], clock, deadline);
    }
  }

  lemma {:induction false} LaterOfAscending(times: seq<int>, moment: int, clock: int)
    requires Ascending(times, clock)
    ensures Later(times, moment) <= |times|
    ensures forall i :: 0 <= i < |times| ==> (times[i] > moment <==> i >= |times| - Later(times, moment))
  {
    if times != [] {
      var n := |times| - 1;
      LaterOfAscending(times[..n], moment, clock);
      assert forall i :: 0 <= i < n ==> times[..n][i] == times[i];
    }
  }

  function Recent(times: seq<int>, deadline: int): seq<int> {
    if times == [] then []
    else Recent(times[..|times| - 1], deadline) +
         if times[|times| - 1] > deadline then [times[|times| - 1]] else []
  }

  lemma {:induction false} RecentIsLater(times: seq<int>, deadline: int)
    ensures |Recent(times, deadline)| == Later(times, deadline)
  {
    if times != [] {
      RecentIsLater(times[..|times| - 1], deadline);
    }
  }

  /** In order of time, what is recent is the end of the list. */
  lemma {:induction false} RecentIsSuffix(times: seq<int>, deadline: int, clock: int)
    requires Ascending(times, clock)
    ensures Later(times, deadline) <= |times| &&
            Recent(times, deadline) == times[|times| - Later(times, deadline)..]
  {
    LaterOfAscending(times, deadline, clock);
    if times != [] {
      var n := |times| - 1;
      RecentIsSuffix(times[..n], deadline, clock);
      if times[n] <= deadline {
        assert forall i :: 0 <= i < n ==> times[..n][i] <= deadline;
        LaterOfOld(times[..n], deadline);
      } else {
        SliceThenLast(times, n - Later(times[..n], deadline));
      }
    }
  }

  lemma SliceThenLast(times: seq<int>, from: nat)
    requires from < |times|
    ensures times[..|times| - 1][from..] + [times[|times| - 1]] == times[from..]
  {}

  /** Filtering keeps the memory exact: what is dropped is an hour old. */
  lemma FilteredRemembers(times: seq<int>, moments: seq<int>, clock: int, now: int)
    requires Remembers(moments, times, clock) && Ascending(times, clock) && clock <= now
    ensures Remembers(Recent(moments, now - HOUR), times, now)
    ensures |Recent(moments, now - HOUR)| == Later(times, now - HOUR)
  {
    assert Ascending(moments, clock);
    RecentIsSuffix(moments, now - HOUR, clock);
    LaterOfAscending(moments, now - HOUR, clock);
    RecentIsLater(moments, now - HOUR);
    LaterRemembered(times, moments, clock, now - HOUR);
    var dropped := |times| - Later(moments, now - HOUR);
    forall i | 0 <= i < dropped
      ensures times[i] <= now - HOUR
    {
      if i >= |times| - |moments| {
        assert times[i] == moments[i - (|times| - |moments|)];
      }
    }
  }

  /** A sender whose last report is older than the deadline has nothing worth remembering. */
  lemma StaleIsForgotten(times: seq<int>, moments: seq<int>, clock: int, now: int)
    requires Remembers(moments, times, clock) && Ascending(times, clock) && clock <= now
    ensures Remembers(moments, times, now)
    ensures moments == [] || moments[|moments| - 1] < now - HOUR ==> Remembers([], times, now)
  {
    if moments == [] || moments[|moments| - 1] < now - HOUR {
      forall i | 0 <= i < |times|
        ensures times[i] <= now - HOUR
      {
        if i >= |times| - |moments| {
          assert moments[|moments| - 1] == times[|times| - 1];
          assert i == |times| - 1 || times[i] <= times[|times| - 1];
        }
      }
    }
  }

  lemma OneMoreCall(calls: seq<Call>, call: Call, sender: string)
    ensures Of(calls + [call], sender) ==
            if call.sender == sender then Of(calls, sender) + [call] else Of(calls, sender)
    ensures TimesOf(calls + [call], sender) ==
            if call.sender == sender then TimesOf(calls, sender) + [call.time] else TimesOf(calls, sender)
  {
    assert (calls + [call])[..|calls|] == calls;
    var own := Of(calls, sender);
    assert (own + [call])[..|own|] == own;
  }

  lemma NotedRemembers(times: seq<int>, moments: seq<int>, clock: int, now: int)
    requires Remembers(moments, times, clock) && Ascending(times, clock) && clock <= now
    ensures Remembers(moments + [now], times + [now], now) && Ascending(times + [now], now)
  {}

  /** Filters a slice over its own storage: what is kept is written over what has been read. */
  method KeepRecent(moments: seq<int>, deadline: int) returns (kept: seq<int>)
    ensures kept == Recent(moments, deadline)
  {
    var storage, count := moments, 0;
    for i := 0 to |moments|
      invariant count <= i && |storage| == |moments|
      invariant forall j :: i <= j < |moments| ==> storage[j] == moments[j]
      invariant storage[..count] == Recent(moments[..i], deadline)
    {
      assert moments[..i + 1][..i] == moments[..i];
      var moment := storage[i];
      if moment > deadline {
        storage := storage[count := moment];
        count := count + 1;
      }
    }
    assert moments[..|moments|] == moments;
    kept := storage[..count];
  }

  class Service {
    var recent: map<string, seq<int>>
    ghost var calls: seq<Call>
    ghost var clock: int

    constructor ()
      ensures Valid() && calls == []
    {
      recent, calls, clock := map[], [], 0;
    }

    /** What is remembered of each sender is enough, though not all that was accepted. */
    ghost predicate Valid()
      reads this
    {
      (forall sender :: Exact(recent, calls, clock, sender)) && forall sender :: Within(calls, sender)
    }

    method ForgetStale(now: int)
      requires clock <= now && Valid()
      modifies this`recent, this`clock
      ensures Valid() && clock == now
    {
      hide Remembers, Ascending, TimesOf, Within;
      ghost var before, since := recent, clock;
      var left := recent.Keys;
      forall sender
        ensures Exact(recent, calls, now, sender)
      {
        ForgottenExact(recent, calls, clock, now, sender);
      }
      while left != {}
        invariant left <= recent.Keys <= before.Keys && calls == old(calls)
        invariant forall sender :: Exact(recent, calls, now, sender)
        invariant forall sender :: sender in recent ==> recent[sender] == before[sender]
        decreases |left|
      {
        var name :| name in left;
        left := left - {name};
        var moments := recent[name];
        if |moments| == 0 || moments[|moments| - 1] < now - HOUR {
          ForgottenExact(before, calls, since, now, name);
          ghost var fewer := recent - {name};
          forall sender
            ensures Exact(fewer, calls, now, sender)
          {
            SameMoments(if sender == name then before - {name} else recent, fewer, calls, now, sender);
          }
          recent := recent - {name};
        }
      }
      clock := now;
    }

    /** A report is let through just when fewer than the limit were noted in the hour before; what is
        written over or forgotten on the way never matters. The clock is read again when it is noted. */
    method Allow(sender: string, limit: int, now: int, later: int) returns (allowed: bool)
      requires Valid() && clock <= now <= later
      modifies this
      ensures Valid()
      ensures allowed <==> Later(TimesOf(old(calls), sender), now - HOUR) < limit
      ensures calls == old(calls) + if allowed then [Call(sender, now, later, limit)] else []
      ensures clock == if allowed then later else now
    {
      hide Remembers, Ascending, TimesOf, Recent, Later, Of, Within, Exact;
      ghost var before, since := recent, clock;
      assert Exact(recent, calls, clock, sender);
      ExactMeans(recent, calls, clock, sender);
      var moments := MomentsOf(recent, sender);
      var kept := KeepRecent(moments, now - HOUR);
      FilteredRemembers(TimesOf(calls, sender), moments, clock, now);
      if |kept| == 0 {
        recent := recent - {sender};
      } else {
        recent := recent[sender := kept];
      }
      ghost var filtered := recent;
      forall other
        ensures Exact(filtered, calls, now, other)
      {
        FilteredExact(before, filtered, calls, since, now, sender, other);
      }
      clock := now;
      ForgetStale(now);
      if |kept| >= limit {
        return false;
      }
      ghost var call := Call(sender, now, later, limit);
      ghost var noted, all := recent[sender := MomentsOf(recent, sender) + [later]], calls + [call];
      forall other
        ensures Exact(noted, all, later, other)
      {
        NotedExact(recent, calls, now, call, other);
      }
      forall other
        ensures Within(all, other)
      {
        assert Exact(recent, calls, now, other);
        NotedWithin(recent, calls, now, call, other);
      }
      recent := recent[sender := MomentsOf(recent, sender) + [later]];
      calls := calls + [call];
      clock := later;
      allowed := true;
    }
  }

  ghost predicate Exact(recent: map<string, seq<int>>, calls: seq<Call>, clock: int, sender: string) {
    Remembers(MomentsOf(recent, sender), TimesOf(calls, sender), clock) && Ascending(TimesOf(calls, sender), clock)
  }

  /** The promise as the service keeps it: while a sender is held to one limit, no hour has more. */
  lemma NoHourOfServiceExceeds(service: Service, sender: string, limit: int, start: int)
    requires service.Valid() && limit >= 0
    requires forall call :: call in Of(service.calls, sender) ==> call.limit == limit
    ensures InHour(TimesOf(service.calls, sender), start) <= limit
  {
    hide Exact, Of, Limited, Ordered, InHour, Times;
    assert Within(service.calls, sender);
    NoHourExceeds(Of(service.calls, sender), limit, start);
  }

  predicate Within(calls: seq<Call>, sender: string) {
    Ordered(Of(calls, sender)) && Limited(Of(calls, sender))
  }

  lemma SameMoments(recent: map<string, seq<int>>, other: map<string, seq<int>>, calls: seq<Call>, clock: int,
                    sender: string)
    requires Exact(recent, calls, clock, sender) && MomentsOf(recent, sender) == MomentsOf(other, sender)
    ensures Exact(other, calls, clock, sender)
  {
    hide Remembers, TimesOf, Ascending;
  }

  lemma ExactMeans(recent: map<string, seq<int>>, calls: seq<Call>, clock: int, sender: string)
    requires Exact(recent, calls, clock, sender)
    ensures Remembers(MomentsOf(recent, sender), TimesOf(calls, sender), clock)
    ensures Ascending(TimesOf(calls, sender), clock)
  {
    hide Remembers, TimesOf, Ascending;
  }

  lemma FilteredExact(recent: map<string, seq<int>>, filtered: map<string, seq<int>>, calls: seq<Call>, clock: int,
                      now: int,
                      sender: string, other: string)
    requires Exact(recent, calls, clock, other) && clock <= now
    requires MomentsOf(filtered, other) ==
             if other == sender then Recent(MomentsOf(recent, sender), now - HOUR) else MomentsOf(recent, other)
    ensures Exact(filtered, calls, now, other)
  {
    hide Remembers, TimesOf, Ascending, Recent;
    ForgottenExact(recent, calls, clock, now, other);
    FilteredRemembers(TimesOf(calls, other), MomentsOf(recent, other), clock, now);
  }

  lemma NotedWithin(recent: map<string, seq<int>>, calls: seq<Call>, clock: int, call: Call, sender: string)
    requires Exact(recent, calls, clock, sender) && Within(calls, sender) && clock <= call.asked <= call.time
    requires Later(TimesOf(calls, call.sender), call.asked - HOUR) < call.limit
    ensures Within(calls + [call], sender)
  {
    hide Remembers, Ascending, Ordered, Limited, Of, Later;
    OneMoreCall(calls, call, sender);
    if call.sender == sender {
      OrderedOneMore(Of(calls, sender), call, clock);
      LimitedOneMore(Of(calls, sender), call);
    }
  }

  lemma LaterClock(times: seq<int>, clock: int, now: int)
    requires Ascending(times, clock) && clock <= now
    ensures Ascending(times, now)
  {}

  lemma ForgottenExact(recent: map<string, seq<int>>, calls: seq<Call>, clock: int, now: int, sender: string)
    requires Exact(recent, calls, clock, sender) && clock <= now
    ensures Exact(recent, calls, now, sender)
    ensures var moments := MomentsOf(recent, sender);
            moments == [] || moments[|moments| - 1] < now - HOUR ==> Exact(recent - {sender}, calls, now, sender)
  {
    hide Remembers, TimesOf, Ascending;
    StaleIsForgotten(TimesOf(calls, sender), MomentsOf(recent, sender), clock, now);
    LaterClock(TimesOf(calls, sender), clock, now);
  }

  lemma NotedExact(recent: map<string, seq<int>>, calls: seq<Call>, clock: int, call: Call, sender: string)
    requires Exact(recent, calls, clock, sender) && clock <= call.time
    ensures Exact(recent[call.sender := MomentsOf(recent, call.sender) + [call.time]], calls + [call], call.time,
                  sender)
  {
    hide Remembers, TimesOf, Ascending;
    OneMoreCall(calls, call, sender);
    NotedRemembers(TimesOf(calls, sender), MomentsOf(recent, sender), clock, call.time);
    StaleIsForgotten(TimesOf(calls, sender), MomentsOf(recent, sender), clock, call.time);
    LaterClock(TimesOf(calls, sender), clock, call.time);
  }
}
