/** The cache of an HTTP access source (server/internal/access/http.go): which entry a caller gets,
    and what any interleaving of callers keeps.

    An entry is known by its number.  Callers, fetches and reloads interleave freely; only looking
    up and evicting are done under the lock, and fetches settle entries without it. */
module AccessCache {
  import opened Wrappers

  /** A list source asks once for a build, a checking source once for each subject. */
  datatype Key = ForBuild(build: string) | ForSubject(build: string, subject: string, username: string, uuid: string)

  /** `fetched` is the time the fetch notes, `settledAt` the time waiting callers are let go. */
  datatype Answer = Answer(fetched: int, settledAt: int, failed: bool, allowed: bool)

  datatype Cell = Cell(key: Key, epoch: nat, settled: Option<Answer>)

  /** `epoch` counts reloads. */
  datatype Cache = Cache(entries: map<Key, nat>, cells: seq<Cell>, now: int, epoch: nat)

  const ERROR_TTL: int := 10
  const MAX_ENTRIES: nat := 50_000

  function TtlOf(ttl: int, answer: Answer): int {
    if answer.failed && ERROR_TTL < ttl then ERROR_TTL else ttl
  }

  predicate Live(ttl: int, answer: Answer, at: int) {
    at - answer.fetched < TtlOf(ttl, answer)
  }

  /** An answer may be used by a caller that looked up at `at`. */
  predicate Fresh(ttl: int, cell: Cell, at: int) {
    cell.settled.None? || cell.settled.value.settledAt >= at || Live(ttl, cell.settled.value, at)
  }

  /** Time passes and fetches end: entries are settled and stay as they are settled. */
  predicate Settling(before: Cache, after: Cache) {
    before.now <= after.now && |before.cells| <= |after.cells| &&
    forall id :: 0 <= id < |before.cells| ==> SettledFrom(before.cells[id], after.cells[id], before.now)
  }

  predicate SettledFrom(before: Cell, after: Cell, since: int) {
    after.key == before.key && after.epoch == before.epoch &&
    (before.settled.Some? ==> after.settled == before.settled) &&
    (before.settled.None? && after.settled.Some? ==> after.settled.value.settledAt >= since)
  }

  lemma SettlingOnward(first: Cache, second: Cache, third: Cache)
    requires Settling(first, second) && Settling(second, third)
    ensures Settling(first, third)
  {}

  predicate Expired(ttl: int, cache: Cache, id: nat, at: int) {
    id < |cache.cells| && cache.cells[id].settled.Some? && !Live(ttl, cache.cells[id].settled.value, at)
  }

  /** What a look-up may do: hand out the key's entry, still unsettled or alive, or, when it has none
      or an expired one, put a new one in its place, having removed settled entries only. */
  predicate LookedUp(ttl: int, before: Cache, after: Cache, key: Key, id: nat, cached: bool, at: int) {
    Settling(before, after) && before.now <= at <= after.now && after.epoch == before.epoch &&
    if cached then
      |after.cells| == |before.cells| && after.entries == before.entries &&
      key in before.entries && before.entries[key] == id && id < |after.cells| && Fresh(ttl, after.cells[id], at)
    else
      id == |before.cells| && |after.cells| == id + 1 && after.cells[id] == Cell(key, before.epoch, None) &&
      key in after.entries && after.entries[key] == id &&
      (key in before.entries ==> Expired(ttl, after, before.entries[key], at)) &&
      (forall k :: k in after.entries && k != key ==> k in before.entries && after.entries[k] == before.entries[k]) &&
      (forall k :: k in before.entries && (k == key || k !in after.entries) ==>
         before.entries[k] < |before.cells| && after.cells[before.entries[k]].settled.Some?)
  }

  /** The table refers to cells of its own keys and of the present epoch. */
  predicate Linked(cache: Cache) {
    forall key :: key in cache.entries ==>
      cache.entries[key] < |cache.cells| && cache.cells[cache.entries[key]].key == key &&
      cache.cells[cache.entries[key]].epoch == cache.epoch
  }

  class HttpSource {
    const ttl: int
    var entries: map<Key, nat>
    var cells: seq<Cell>
    var now: int
    var epoch: nat

    constructor (ttl: int)
      ensures this.ttl == ttl && View().entries == map[] && View().cells == [] && View().epoch == 0
    {
      this.ttl, entries, cells, now, epoch := ttl, map[], [], 0, 0;
    }

    function View(): Cache
      reads this
    {
      Cache(entries, cells, now, epoch)
    }

    /** What other callers and the clock may do while the lock is held. */
    method Meanwhile()
      modifies this`cells, this`now
      ensures Settling(old(View()), View()) && |cells| == old(|cells|)
    {
      hide Live;
      ghost var before := View();
      var later: int := *;
      if later > now {
        now := later;
      }
      var left := |cells|;
      while left > 0
        invariant left <= |cells| == |before.cells| && Settling(before, View())
      {
        left := left - 1;
        var ends := *;
        if ends && cells[left].settled.None? {
          var answer: Answer := *;
          cells := cells[left := cells[left].(settled := Some(answer.(settledAt := now)))];
        }
      }
    }

    /** Removes what has expired and, if that is not enough, whatever is settled. */
    method EvictLocked()
      requires Linked(View())
      modifies this`entries, this`cells, this`now
      ensures OnlySettledGone(old(View()), View())
      ensures NoExpiredLeft(ttl, old(View()), View())
      ensures OnlyExpiredGone(ttl, old(View()), View()) || Unsettled(old(View()), entries.Keys)
      ensures |entries| < MAX_ENTRIES || Unsettled(old(View()), entries.Keys)
    {
      hide Live, OnlySettledGone, Linked, Unsettled, NoExpiredLeft, OnlyExpiredGone;
      ghost var before := View();
      NothingGone(before);
      NothingGoneYet(ttl, before);
      Sweep(true, before);
      if |entries| < MAX_ENTRIES {
        return;
      }
      ghost var swept := View();
      Sweep(false, before);
      FewerLeft(ttl, before, swept, View());
    }

    /** Visits every entry; with `expired` only those no longer alive are removed. */
    method Sweep(expired: bool, ghost before: Cache)
      requires Linked(before) && OnlySettledGone(before, View())
      requires expired ==> View() == before
      modifies this`entries, this`cells, this`now
      ensures OnlySettledGone(before, View())
      ensures forall key :: key in entries ==> key in old(entries)
      ensures expired ==> OnlyExpiredGone(ttl, before, View()) && NoExpiredLeft(ttl, before, View())
      ensures !expired ==> Unsettled(before, entries.Keys)
    {
      hide Live, Settling, OnlySettledGone, Linked, Unsettled, OnlyExpiredGone, KeptAlive;
      NothingGoneYet(ttl, before);
      var left := entries.Keys;
      NoneUnsettled(before);
      assert entries.Keys - left == {};
      while left != {}
        invariant left <= entries.Keys && OnlySettledGone(before, View())
        invariant forall key :: key in entries ==> key in old(entries)
        invariant expired ==> OnlyExpiredGone(ttl, before, View())
        invariant expired ==> forall key :: key in entries && key !in left ==> KeptAlive(ttl, before, key)
        invariant !expired ==> Unsettled(before, entries.Keys - left)
        decreases |left|
      {
        ghost var earlier := View();
        Meanwhile();
        StillOnlySettledGone(before, earlier, View());
        if expired {
          StillOnlyExpiredGone(ttl, before, earlier, View());
        }
        var key :| key in left;
        assert left == left - {key} + {key};
        left := left - {key};
        EntryIsThere(before, View(), key);
        var cell := cells[entries[key]];
        if cell.settled.Some? && !(expired && Live(ttl, cell.settled.value, now)) {
          RemoveSettled(before, View(), key);
          if expired {
            RemoveExpired(ttl, before, View(), key);
          }
          assert (entries - {key}).Keys - left == entries.Keys - (left + {key});
          entries := entries - {key};
        } else {
          assert entries.Keys - left == entries.Keys - (left + {key}) + {key};
          if expired {
            VisitedAlive(ttl, before, View(), key);
          }
          if cell.settled.None? {
            OneMoreUnsettled(before, entries.Keys - (left + {key}), key);
          }
        }
      }
      assert entries.Keys - left == entries.Keys;
      if expired {
        AllAlive(ttl, before, View());
      }
    }

    /** The whole of a look-up under the lock; the moment the caller's view of the entry is of is
        `at`. After it no more than the limit is kept, unless the rest is all in flight. */
    method EntryFor(key: Key) returns (id: nat, cached: bool, ghost at: int)
      requires Linked(View())
      modifies this
      ensures LookedUp(ttl, old(View()), View(), key, id, cached, at)
      ensures Linked(View())
      ensures cached || |entries| <= MAX_ENTRIES || Unsettled(old(View()), entries.Keys - {key})
    {
      hide Live, OnlySettledGone, Linked, Unsettled, LookedUp, Settling;
      ghost var before := View();
      NothingGone(before);
      Meanwhile();
      StillOnlySettledGone(before, before, View());
      if key in entries {
        id := entries[key];
        EntryIsThere(before, View(), key);
        at := now;
        if cells[id].settled.None? {
          FoundCached(ttl, before, View(), key);
          return id, true, at;
        }
        ghost var earlier := View();
        Meanwhile();
        StillOnlySettledGone(before, earlier, View());
        EntryIsThere(before, View(), key);
        StillSettled(earlier, View(), id);
        at := now;
        if Live(ttl, cells[id].settled.value, now) {
          FoundCached(ttl, before, View(), key);
          return id, true, at;
        }
      }
      ghost var found := View();
      assert key in before.entries ==> Expired(ttl, found, before.entries[key], found.now);
      LinkedStays(before, found);
      if |entries| >= MAX_ENTRIES {
        EvictLocked();
        GoneOnward(before, found, View());
        UnsettledBefore(before, found, entries.Keys);
        if key in before.entries {
          SettlingOf(found, View());
          StillExpired(ttl, found, View(), before.entries[key]);
        }
      }
      id := |cells|;
      at := now;
      NewEntry(ttl, before, View(), key);
      RoomForOne(entries, key, id);
      FewerUnsettled(before, entries.Keys, entries[key := id].Keys - {key});
      cells := cells + [Cell(key, epoch, None)];
      entries := entries[key := id];
      cached := false;
    }

    /** The creator's fetch, once, whatever it brings; then waiting callers are let go. */
    method Fill(id: nat)
      requires id < |cells|
      modifies this`cells, this`now
      ensures Settling(old(View()), View()) && |cells| == old(|cells|) && cells[id].settled.Some?
    {
      hide Live, Settling;
      ghost var before := View();
      Meanwhile();
      if cells[id].settled.None? {
        var answer: Answer := *;
        ghost var earlier := View();
        cells := cells[id := cells[id].(settled := Some(answer.(settledAt := now)))];
        SettleOne(earlier, id, answer.(settledAt := now));
        SettlingOnward(before, earlier, View());
      }
    }

    /** Empties the table; fetches under way go on for those who wait for them. */
    method Reload()
      modifies this`entries, this`epoch
      ensures View() == old(View()).(entries := map[], epoch := old(epoch) + 1) && Linked(View())
    {
      entries := map[];
      epoch := epoch + 1;
    }
  }

  /** From one cache to another with the same cells: time has passed, and entries have been removed
      that are settled. */
  predicate OnlySettledGone(before: Cache, after: Cache) {
    Settling(before, after) && |after.cells| == |before.cells| && after.epoch == before.epoch &&
    (forall key :: key in after.entries ==> key in before.entries && after.entries[key] == before.entries[key]) &&
    forall key :: key in before.entries && key !in after.entries ==>
      before.entries[key] < |after.cells| && after.cells[before.entries[key]].settled.Some?
  }

  /** All these keys had entries in flight. */
  predicate Unsettled(before: Cache, keys: set<Key>) {
    forall key :: key in keys ==>
      key in before.entries && before.entries[key] < |before.cells| && before.cells[before.entries[key]].settled.None?
  }

  lemma SettleOne(cache: Cache, id: nat, answer: Answer)
    requires id < |cache.cells| && cache.cells[id].settled.None? && answer.settledAt >= cache.now
    ensures Settling(cache, cache.(cells := cache.cells[id := cache.cells[id].(settled := Some(answer))]))
  {}

  /** The entry was unsettled or alive at the start. */
  predicate KeptAlive(ttl: int, before: Cache, key: Key) {
    key in before.entries && !Expired(ttl, before, before.entries[key], before.now)
  }

  predicate NoExpiredLeft(ttl: int, before: Cache, after: Cache) {
    forall key :: key in after.entries ==> KeptAlive(ttl, before, key)
  }

  predicate OnlyExpiredGone(ttl: int, before: Cache, after: Cache) {
    forall key :: key in before.entries && key !in after.entries ==> Expired(ttl, after, before.entries[key], after.now)
  }

  lemma NothingGoneYet(ttl: int, cache: Cache)
    ensures OnlyExpiredGone(ttl, cache, cache)
  {}

  lemma FewerLeft(ttl: int, before: Cache, swept: Cache, after: Cache)
    requires NoExpiredLeft(ttl, before, swept) && forall key :: key in after.entries ==> key in swept.entries
    ensures NoExpiredLeft(ttl, before, after)
  {
    hide KeptAlive;
  }

  lemma StillExpired(ttl: int, earlier: Cache, later: Cache, id: nat)
    requires Settling(earlier, later)
    ensures Expired(ttl, earlier, id, earlier.now) ==> Expired(ttl, later, id, later.now)
  {}

  lemma StillOnlyExpiredGone(ttl: int, before: Cache, earlier: Cache, later: Cache)
    requires OnlyExpiredGone(ttl, before, earlier) && Settling(earlier, later) && later.entries == earlier.entries
    ensures OnlyExpiredGone(ttl, before, later)
  {
    hide Expired, Settling;
    forall key | key in before.entries && key !in later.entries
      ensures Expired(ttl, later, before.entries[key], later.now)
    {
      StillExpired(ttl, earlier, later, before.entries[key]);
    }
  }

  lemma RemoveExpired(ttl: int, before: Cache, cache: Cache, key: Key)
    requires OnlyExpiredGone(ttl, before, cache) && OnlySettledGone(before, cache) && key in cache.entries
    requires Expired(ttl, cache, cache.entries[key], cache.now)
    ensures OnlyExpiredGone(ttl, before, cache.(entries := cache.entries - {key}))
  {
    hide Settling, Live;
  }

  /** What is kept at a visit had not expired at the start, since time only passes. */
  lemma VisitedAlive(ttl: int, before: Cache, cache: Cache, key: Key)
    requires Linked(before) && OnlySettledGone(before, cache) && key in cache.entries
    requires !Expired(ttl, cache, cache.entries[key], cache.now)
    ensures KeptAlive(ttl, before, key)
  {
    StillExpired(ttl, before, cache, cache.entries[key]);
  }

  lemma AllAlive(ttl: int, before: Cache, cache: Cache)
    requires forall key :: key in cache.entries ==> KeptAlive(ttl, before, key)
    ensures NoExpiredLeft(ttl, before, cache)
  {}

  lemma NothingGone(cache: Cache)
    ensures OnlySettledGone(cache, cache)
  {}

  lemma NoneUnsettled(cache: Cache)
    ensures Unsettled(cache, {})
  {}

  lemma OneMoreUnsettled(before: Cache, keys: set<Key>, key: Key)
    requires key in before.entries && before.entries[key] < |before.cells|
    requires before.cells[before.entries[key]].settled.None?
    ensures Unsettled(before, keys) ==> Unsettled(before, keys + {key})
  {}

  lemma StillOnlySettledGone(before: Cache, earlier: Cache, later: Cache)
    requires OnlySettledGone(before, earlier) && Settling(earlier, later) && |later.cells| == |earlier.cells|
    requires later.entries == earlier.entries && later.epoch == earlier.epoch
    ensures OnlySettledGone(before, later)
  {}

  lemma GoneOnward(before: Cache, found: Cache, after: Cache)
    requires OnlySettledGone(before, found) && OnlySettledGone(found, after)
    ensures OnlySettledGone(before, after)
  {}

  lemma EntryIsThere(before: Cache, cache: Cache, key: Key)
    requires Linked(before) && OnlySettledGone(before, cache) && key in cache.entries
    ensures key in before.entries && cache.entries[key] == before.entries[key] < |cache.cells| == |before.cells|
    ensures cache.cells[cache.entries[key]].settled.None? ==> before.cells[cache.entries[key]].settled.None?
  {}

  lemma RemoveSettled(before: Cache, cache: Cache, key: Key)
    requires OnlySettledGone(before, cache) && key in cache.entries && cache.entries[key] < |cache.cells|
    requires cache.cells[cache.entries[key]].settled.Some?
    ensures OnlySettledGone(before, cache.(entries := cache.entries - {key}))
  {}

  lemma StillSettled(earlier: Cache, later: Cache, id: nat)
    requires Settling(earlier, later) && id < |earlier.cells|
    ensures earlier.cells[id].settled.Some? ==> later.cells[id].settled.Some?
  {}

  lemma SettlingOf(before: Cache, after: Cache)
    requires OnlySettledGone(before, after)
    ensures Settling(before, after)
  {}

  lemma LinkedStays(before: Cache, cache: Cache)
    requires Linked(before) && OnlySettledGone(before, cache)
    ensures Linked(cache)
  {}

  lemma UnsettledBefore(before: Cache, found: Cache, keys: set<Key>)
    requires OnlySettledGone(before, found)
    ensures Unsettled(found, keys) ==> Unsettled(before, keys)
  {}

  lemma FoundCached(ttl: int, before: Cache, cache: Cache, key: Key)
    requires Linked(before) && OnlySettledGone(before, cache) && key in cache.entries && cache.entries == before.entries
    requires cache.entries[key] < |cache.cells|
    requires var settled := cache.cells[cache.entries[key]].settled;
             settled.None? || Live(ttl, settled.value, cache.now)
    ensures LookedUp(ttl, before, cache, key, cache.entries[key], true, cache.now) && Linked(cache)
  {
    hide Live;
  }

  lemma NewEntry(ttl: int, before: Cache, cache: Cache, key: Key)
    requires Linked(before) && OnlySettledGone(before, cache)
    requires key in before.entries ==> Expired(ttl, cache, before.entries[key], cache.now)
    ensures var after := cache.(cells := cache.cells + [Cell(key, cache.epoch, None)],
                                entries := cache.entries[key := |cache.cells|]);
            LookedUp(ttl, before, after, key, |cache.cells|, false, cache.now) && Linked(after)
  {
    hide Live;
  }

  lemma RoomForOne(entries: map<Key, nat>, key: Key, id: nat)
    ensures |entries[key := id]| <= |entries| + 1
    ensures entries[key := id].Keys - {key} <= entries.Keys
  {
    assert entries[key := id].Keys == entries.Keys + {key};
  }

  lemma FewerUnsettled(before: Cache, keys: set<Key>, fewer: set<Key>)
    requires fewer <= keys
    ensures Unsettled(before, keys) ==> Unsettled(before, fewer)
  {}
}
