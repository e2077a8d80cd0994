/** Any interleaving of callers of an access source (server/internal/access/http.go): at most one
    fetch for a key between reloads, every entry settled by who created it, and no answer older
    than its time. */
module AccessProtocol {
  import opened Wrappers
  import opened AccessCache

  /** `at` is the moment of the caller's look-up. */
  datatype Caller = Idle | Fetching(id: nat, at: int) | Waiting(id: nat, at: int) | Given(id: nat, at: int)

  datatype State = State(cache: Cache, callers: seq<Caller>)

  datatype Event =
    | LookUp(c: nat, key: Key, id: nat, cached: bool, at: int)
    | Settle(c: nat, answer: Answer)
    | Filled(c: nat)
    | Give(c: nat)
    | Leave(c: nat)
    | Reload
    | Tick(now: int)

  function InitialState(callers: nat): State {
    State(Cache(map[], [], 0, 0), seq(callers, i => Idle))
  }

  predicate Next(ttl: int, s: State, e: Event, t: State) {
    match e
    case LookUp(c, key, id, cached, at) =>
      c < |s.callers| && s.callers[c].Idle? && LookedUp(ttl, s.cache, t.cache, key, id, cached, at) &&
      t.callers == s.callers[c := if cached then Waiting(id, at) else Fetching(id, at)]
    case Settle(c, answer) =>
      c < |s.callers| && s.callers[c].Fetching? &&
      var id := s.callers[c].id;
      id < |s.cache.cells| && s.cache.cells[id].settled.None? && answer.settledAt == s.cache.now &&
      t == s.(cache := s.cache.(cells := s.cache.cells[id := s.cache.cells[id].(settled := Some(answer))]))
    case Filled(c) =>
      c < |s.callers| && s.callers[c].Fetching? && s.callers[c].id < |s.cache.cells| &&
      s.cache.cells[s.callers[c].id].settled.Some? &&
      t == s.(callers := s.callers[c := Waiting(s.callers[c].id, s.callers[c].at)])
    case Give(c) =>
      c < |s.callers| && s.callers[c].Waiting? && s.callers[c].id < |s.cache.cells| &&
      s.cache.cells[s.callers[c].id].settled.Some? &&
      t == s.(callers := s.callers[c := Given(s.callers[c].id, s.callers[c].at)])
    case Leave(c) =>
      c < |s.callers| && (s.callers[c].Waiting? || s.callers[c].Given?) && t == s.(callers := s.callers[c := Idle])
    case Reload => t == s.(cache := s.cache.(entries := map[], epoch := s.cache.epoch + 1))
    case Tick(now) => now >= s.cache.now && t == s.(cache := s.cache.(now := now))
  }

  // ---- What every step keeps ----

  predicate InFlight(cache: Cache, id: nat) {
    id < |cache.cells| && cache.cells[id].settled.None?
  }

  /** Every fetch in flight since the last reload is the one the table has for its key. */
  ghost predicate Tabled(cache: Cache) {
    (forall id :: 0 <= id < |cache.cells| ==> cache.cells[id].epoch <= cache.epoch) &&
    forall id: nat :: InFlight(cache, id) && cache.cells[id].epoch == cache.epoch ==>
      cache.cells[id].key in cache.entries && cache.entries[cache.cells[id].key] == id
  }

  ghost predicate OneFlight(cache: Cache) {
    forall i: nat, j: nat ::
      (InFlight(cache, i) && InFlight(cache, j) &&
       cache.cells[i].key == cache.cells[j].key && cache.cells[i].epoch == cache.cells[j].epoch) ==> i == j
  }

  predicate HasCreator(callers: seq<Caller>, id: nat) {
    exists c :: 0 <= c < |callers| && callers[c].Fetching? && callers[c].id == id
  }

  /** Whoever created an entry is still there to settle it, and is the only one to do so. */
  ghost predicate Manned(s: State) {
    (forall id: nat :: InFlight(s.cache, id) ==> HasCreator(s.callers, id)) &&
    forall c, d ::
      (0 <= c < |s.callers| && 0 <= d < |s.callers| && s.callers[c].Fetching? && s.callers[d].Fetching? &&
       s.callers[c].id == s.callers[d].id) ==> c == d
  }

  predicate FreshFor(ttl: int, cache: Cache, caller: Caller) {
    caller.Idle? ||
    (caller.id < |cache.cells| && caller.at <= cache.now && Fresh(ttl, cache.cells[caller.id], caller.at) &&
     (caller.Given? ==> cache.cells[caller.id].settled.Some?))
  }

  ghost predicate AllFresh(ttl: int, s: State) {
    forall c :: 0 <= c < |s.callers| ==> FreshFor(ttl, s.cache, s.callers[c])
  }

  ghost predicate Safe(ttl: int, s: State) {
    Linked(s.cache) && Tabled(s.cache) && OneFlight(s.cache) && Manned(s) && AllFresh(ttl, s)
  }

  lemma LookUpKeepsTable(ttl: int, before: Cache, after: Cache, key: Key, id: nat, cached: bool, at: int)
    requires LookedUp(ttl, before, after, key, id, cached, at) && Linked(before) && Tabled(before) && OneFlight(before)
    ensures Linked(after) && Tabled(after) && OneFlight(after)
    ensures forall i: nat :: InFlight(after, i) ==> InFlight(before, i) || (!cached && i == id)
  {
    hide Live, Fresh;
    assert forall i: nat :: InFlight(after, i) ==> InFlight(before, i) || (!cached && i == id);
  }

  lemma SettlingKeepsFresh(ttl: int, before: Cache, after: Cache, caller: Caller)
    requires Settling(before, after) && FreshFor(ttl, before, caller)
    ensures FreshFor(ttl, after, caller)
  {
    hide Live;
  }

  lemma LookUpStaysSafe(ttl: int, s: State, e: Event, t: State)
    requires Safe(ttl, s) && e.LookUp? && Next(ttl, s, e, t)
    ensures Safe(ttl, t)
  {
    hide Live, Fresh, Linked, Tabled, OneFlight;
    LookUpKeepsTable(ttl, s.cache, t.cache, e.key, e.id, e.cached, e.at);
    forall c | 0 <= c < |t.callers|
      ensures FreshFor(ttl, t.cache, t.callers[c])
    {
      if c == e.c {
        LookUpIsFresh(ttl, s.cache, t.cache, e.key, e.id, e.cached, e.at);
      } else {
        SettlingKeepsFresh(ttl, s.cache, t.cache, s.callers[c]);
      }
    }
    LookUpKeepsManned(ttl, s, e, t);
  }

  lemma LookUpKeepsManned(ttl: int, s: State, e: Event, t: State)
    requires Manned(s) && AllFresh(ttl, s) && e.LookUp? && Next(ttl, s, e, t)
    requires forall i: nat :: InFlight(t.cache, i) ==> InFlight(s.cache, i) || (!e.cached && i == e.id)
    ensures Manned(t)
  {
    hide Live, Fresh, InFlight, Settling;
    forall id: nat | InFlight(t.cache, id)
      ensures HasCreator(t.callers, id)
    {
      if InFlight(s.cache, id) {
        var c :| 0 <= c < |s.callers| && s.callers[c].Fetching? && s.callers[c].id == id;
        assert t.callers[c] == s.callers[c];
      } else {
        assert t.callers[e.c].Fetching?;
      }
    }
  }

  lemma SettleStaysSafe(ttl: int, s: State, e: Event, t: State)
    requires Safe(ttl, s) && e.Settle? && Next(ttl, s, e, t)
    ensures Safe(ttl, t)
  {
    hide Live, HasCreator;
    SettleOne(s.cache, s.callers[e.c].id, e.answer);
    forall c | 0 <= c < |t.callers|
      ensures FreshFor(ttl, t.cache, t.callers[c])
    {
      SettlingKeepsFresh(ttl, s.cache, t.cache, s.callers[c]);
    }
    assert forall id: nat :: InFlight(t.cache, id) ==> InFlight(s.cache, id);
  }

  lemma CallerStaysSafe(ttl: int, s: State, e: Event, t: State)
    requires Safe(ttl, s) && (e.Filled? || e.Give? || e.Leave?) && Next(ttl, s, e, t)
    ensures Safe(ttl, t)
  {
    hide Live, Fresh, Linked, Tabled, OneFlight;
    forall id: nat | InFlight(t.cache, id)
      ensures HasCreator(t.callers, id)
    {
      var c :| 0 <= c < |s.callers| && s.callers[c].Fetching? && s.callers[c].id == id;
      assert t.callers[c] == s.callers[c];
    }
  }

  lemma CacheStaysSafe(ttl: int, s: State, e: Event, t: State)
    requires Safe(ttl, s) && (e.Reload? || e.Tick?) && Next(ttl, s, e, t)
    ensures Safe(ttl, t)
  {
    hide Live, HasCreator;
    forall c | 0 <= c < |t.callers|
      ensures FreshFor(ttl, t.cache, t.callers[c])
    {
      SettlingKeepsFresh(ttl, s.cache, t.cache, s.callers[c]);
    }
    assert forall id: nat :: InFlight(t.cache, id) <==> InFlight(s.cache, id);
  }

  function Last(first: State, steps: seq<(Event, State)>): State {
    if steps == [] then first else steps[|steps| - 1].1
  }

  predicate Run(ttl: int, first: State, steps: seq<(Event, State)>) {
    steps == [] ||
    var n := |steps| - 1;
    Run(ttl, first, steps[..n]) && Next(ttl, Last(first, steps[..n]), steps[n].0, steps[n].1)
  }

  lemma {:induction false} AlwaysSafe(ttl: int, callers: nat, steps: seq<(Event, State)>)
    requires Run(ttl, InitialState(callers), steps)
    ensures Safe(ttl, Last(InitialState(callers), steps))
  {
    hide Next, Safe;
    var first := InitialState(callers);
    if steps == [] {
      InitiallySafe(ttl, callers);
    } else {
      var n := |steps| - 1;
      var s, e, t := Last(first, steps[..n]), steps[n].0, steps[n].1;
      AlwaysSafe(ttl, callers, steps[..n]);
      if e.LookUp? {
        LookUpStaysSafe(ttl, s, e, t);
      } else if e.Settle? {
        SettleStaysSafe(ttl, s, e, t);
      } else if e.Reload? || e.Tick? {
        CacheStaysSafe(ttl, s, e, t);
      } else {
        CallerStaysSafe(ttl, s, e, t);
      }
    }
  }

  lemma InitiallySafe(ttl: int, callers: nat)
    ensures Safe(ttl, InitialState(callers))
  {}

  /** Between reloads no two callers fetch for the same key at once. */
  lemma SingleFlight(ttl: int, callers: nat, steps: seq<(Event, State)>, c: nat, d: nat)
    requires Run(ttl, InitialState(callers), steps)
    requires var s := Last(InitialState(callers), steps);
             c < |s.callers| && d < |s.callers| && s.callers[c].Fetching? && s.callers[d].Fetching? &&
             InFlight(s.cache, s.callers[c].id) && InFlight(s.cache, s.callers[d].id) &&
             s.cache.cells[s.callers[c].id].key == s.cache.cells[s.callers[d].id].key &&
             s.cache.cells[s.callers[c].id].epoch == s.cache.cells[s.callers[d].id].epoch
    ensures c == d
  {
    hide Run, Last, InitialState, InFlight;
    AlwaysSafe(ttl, callers, steps);
  }

  /** An entry in flight can be settled by its creator at any moment, whatever became of the callers
      that wait for it. */
  lemma CreatorSettles(ttl: int, callers: nat, steps: seq<(Event, State)>, id: nat, answer: Answer)
    requires Run(ttl, InitialState(callers), steps)
    requires var s := Last(InitialState(callers), steps); InFlight(s.cache, id) && answer.settledAt == s.cache.now
    ensures var s := Last(InitialState(callers), steps);
            exists c: nat, t: State :: Next(ttl, s, Settle(c, answer), t) && !InFlight(t.cache, id)
  {
    hide Run, Last, InitialState;
    AlwaysSafe(ttl, callers, steps);
    var s := Last(InitialState(callers), steps);
    assert HasCreator(s.callers, id);
    var c :| 0 <= c < |s.callers| && s.callers[c].Fetching? && s.callers[c].id == id;
    var t := s.(cache := s.cache.(cells := s.cache.cells[id := s.cache.cells[id].(settled := Some(answer))]));
    assert Next(ttl, s, Settle(c, answer), t);
  }

  /** Every answer given comes from an entry alive at the caller's look-up or settled after it. */
  lemma AnswersAreFresh(ttl: int, callers: nat, steps: seq<(Event, State)>, c: nat)
    requires Run(ttl, InitialState(callers), steps)
    requires var s := Last(InitialState(callers), steps); c < |s.callers| && s.callers[c].Given?
    ensures var s := Last(InitialState(callers), steps);
            var given := s.callers[c];
            given.id < |s.cache.cells| && s.cache.cells[given.id].settled.Some? &&
            var answer := s.cache.cells[given.id].settled.value;
            answer.settledAt >= given.at || given.at - answer.fetched < TtlOf(ttl, answer)
  {
    hide Run, Last, InitialState;
    AlwaysSafe(ttl, callers, steps);
    assert FreshFor(ttl, Last(InitialState(callers), steps).cache, Last(InitialState(callers), steps).callers[c]);
  }

  lemma LookUpIsFresh(ttl: int, before: Cache, after: Cache, key: Key, id: nat, cached: bool, at: int)
    requires LookedUp(ttl, before, after, key, id, cached, at)
    ensures FreshFor(ttl, after, if cached then Waiting(id, at) else Fetching(id, at))
  {
    hide Live;
  }
}
