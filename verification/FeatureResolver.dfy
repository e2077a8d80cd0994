/** The launcher's resolver (client/core/src/features.rs): a map from address to option,
    ordered by a counter, proved against the list specification of FeatureModel. */
module FeatureResolver {
  import opened Wrappers
  import opened FeatureModel
  import opened FeatureLaws

  datatype ActiveOption = ActiveOption(order: nat, effects: Effects)

  type Active = map<string, ActiveOption>

  datatype LaunchExtras = LaunchExtras(jvmArgs: seq<string>, gameArgs: seq<string>, classpath: seq<string>)

  /** The map holds exactly the options of `list`, and its counters rank them as the list does. */
  ghost predicate Represents(active: Active, order: nat, list: seq<Entry>) {
    && Distinct(list)
    && active.Keys == Addrs(list)
    && (forall i :: 0 <= i < |list| ==> list[i].addr in active && active[list[i].addr].effects == list[i].effects)
    && (forall i :: 0 <= i < |list| ==> list[i].addr in active && active[list[i].addr].order < order)
    && (forall i, j :: 0 <= i < j < |list| ==>
          list[i].addr in active && list[j].addr in active && active[list[i].addr].order < active[list[j].addr].order)
  }

  lemma AddrsIndex(list: seq<Entry>, a: string)
    ensures a in Addrs(list) <==> exists i :: 0 <= i < |list| && list[i].addr == a
  {
    HoldsIsAddr(list, a);
  }

  // ---- Parts of the list in the order of the list ----

  /** `part` is `list` with some entries left out. */
  ghost predicate PartInOrder(part: seq<Entry>, list: seq<Entry>) {
    if part == [] then true
    else if list == [] then false
    else if part[0] == list[0] then PartInOrder(part[1..], list[1..])
    else PartInOrder(part, list[1..])
  }

  lemma {:induction false} PartRanks(part: seq<Entry>, list: seq<Entry>) returns (at: seq<nat>)
    requires PartInOrder(part, list)
    ensures |at| == |part|
    ensures forall i :: 0 <= i < |part| ==> at[i] < |list| && list[at[i]] == part[i]
    ensures forall i, j :: 0 <= i < j < |part| ==> at[i] < at[j]
    decreases |list|
  {
    if part == [] {
      at := [];
    } else if part[0] == list[0] {
      var rest := PartRanks(part[1..], list[1..]);
      at := [0] + seq(|rest|, i requires 0 <= i < |rest| => rest[i] + 1);
    } else {
      var rest := PartRanks(part, list[1..]);
      at := seq(|rest|, i requires 0 <= i < |rest| => rest[i] + 1);
    }
  }

  lemma {:induction false} PartSkips(part: seq<Entry>, list: seq<Entry>)
    requires list != [] && PartInOrder(part, list[1..])
    ensures PartInOrder(part, list)
    decreases |list|, 0
  {
    if part != [] && part[0] == list[0] {
      PartTail(part, list[1..]);
    }
  }

  lemma {:induction false} PartTail(part: seq<Entry>, list: seq<Entry>)
    requires part != [] && PartInOrder(part, list)
    ensures PartInOrder(part[1..], list)
    decreases |list|, 1
  {
    if part[0] == list[0] {
      PartSkips(part[1..], list);
    } else {
      PartTail(part, list[1..]);
      PartSkips(part[1..], list);
    }
  }

  lemma {:induction false} WithoutIsPart(list: seq<Entry>, addr: string)
    ensures PartInOrder(Without(list, addr), list)
  {
    if list != [] {
      WithoutIsPart(list[1..], addr);
      var rest := Without(list[1..], addr);
      if list[0].addr == addr {
        assert Without(list, addr) == rest;
        PartSkips(rest, list);
      } else {
        assert Without(list, addr) == [list[0]] + rest;
      }
    }
  }

  lemma {:induction false} DropIsPart(list: seq<Entry>, victim: string)
    ensures PartInOrder(Drop(list, victim), list)
  {
    hide Dropped;
    if list != [] {
      DropIsPart(list[1..], victim);
      var rest := Drop(list[1..], victim);
      if Dropped(list[0].addr, victim) {
        assert Drop(list, victim) == rest;
        PartSkips(rest, list);
      } else {
        assert Drop(list, victim) == [list[0]] + rest;
      }
    }
  }

  /** Removing keys from the map and entries from the list keeps the correspondence. */
  lemma RepresentsPart(active: Active, order: nat, list: seq<Entry>, less: Active, part: seq<Entry>)
    requires Represents(active, order, list) && PartInOrder(part, list)
    requires less.Keys == Addrs(part)
    requires forall a :: a in less ==> a in active && less[a] == active[a]
    ensures Represents(less, order, part)
  {
    var at := PartRanks(part, list);
    hide PartInOrder;
    forall i | 0 <= i < |part|
      ensures part[i].addr in less
    {
      AddrsIndex(part, part[i].addr);
    }
  }

  // ---- The walk ----

  lemma KeysWithout(active: Active, order: nat, list: seq<Entry>, addr: string)
    requires Represents(active, order, list)
    ensures (active - {addr}).Keys == Addrs(Without(list, addr))
  {
    WithoutMembers(list, addr);
    hide Without;
    forall a | a in active && a != addr
      ensures a in Addrs(Without(list, addr))
    {
      var x :| x in list && x.addr == a;
      assert x in Without(list, addr);
    }
  }

  /** `insert`: a new option, or a repeated address with its new turn. */
  lemma RepresentsPut(active: Active, order: nat, list: seq<Entry>, e: Entry)
    requires Represents(active, order, list)
    ensures Represents(active[e.addr := ActiveOption(order, e.effects)], order + 1, Put(list, e))
  {
    hide Represents, Without, PartInOrder, Addrs;
    var rest := Without(list, e.addr);
    var less := active - {e.addr};
    KeysWithout(active, order, list, e.addr);
    WithoutIsPart(list, e.addr);
    RepresentsPart(active, order, list, less, rest);
    RepresentsLast(less, order, rest, e);
    assert active[e.addr := ActiveOption(order, e.effects)] == less[e.addr := ActiveOption(order, e.effects)];
  }

  lemma RepresentsLast(active: Active, order: nat, list: seq<Entry>, e: Entry)
    requires Represents(active, order, list) && e.addr !in active
    ensures Represents(active[e.addr := ActiveOption(order, e.effects)], order + 1, list + [e])
  {
    var next := list + [e];
    var now := active[e.addr := ActiveOption(order, e.effects)];
    AddrsLast(list, e);
    hide Addrs;
    assert next[|list|] == e;
    forall i | 0 <= i < |list|
      ensures next[i] == list[i] && list[i].addr != e.addr && now[list[i].addr] == active[list[i].addr]
    {
      assert list[i].addr in active;
    }
  }

  lemma AddrsLast(list: seq<Entry>, e: Entry)
    ensures Addrs(list + [e]) == Addrs(list) + {e.addr}
  {
    forall a
      ensures a in Addrs(list + [e]) <==> a in Addrs(list) + {e.addr}
    {
      AddrsIndex(list + [e], a);
      AddrsIndex(list, a);
      if a in Addrs(list) {
        var i :| 0 <= i < |list| && list[i].addr == a;
        assert (list + [e])[i].addr == a;
      }
      assert (list + [e])[|list|].addr == e.addr;
    }
  }

  method Walk(group: Group, groupAddr: string, saved: Saved, active: Active, order: nat, ghost list: seq<Entry>)
    returns (found: Active, after: nat)
    requires Represents(active, order, list)
    ensures Represents(found, after, WalkGroup(group, groupAddr, saved, list))
    decreases group
  {
    hide Represents, Effective, Put;
    var chosen := Effective(group, groupAddr, saved);
    found, after := active, order;
    ghost var now := list;
    for o := 0 to |group.options|
      invariant Represents(found, after, now)
      invariant WalkOptions(group.options[o..], chosen, groupAddr, saved, now) ==
                WalkGroup(group, groupAddr, saved, list)
    {
      var option := group.options[o];
      assert group.options[o..][0] == option && group.options[o..][1..] == group.options[o + 1..];
      ghost var next := WalkOption(option, chosen, groupAddr, saved, now);
      if option.id in chosen {
        var optionAddr := groupAddr + "#" + option.id;
        RepresentsPut(found, after, now, Entry(optionAddr, option.effects));
        now := Put(now, Entry(optionAddr, option.effects));
        found := found[optionAddr := ActiveOption(after, option.effects)];
        after := after + 1;
        for s := 0 to |option.groups|
          invariant Represents(found, after, now)
          invariant WalkSubs(option.groups[s..], optionAddr, saved, now) == next
        {
          var sub := option.groups[s];
          assert option.groups[s..][0] == sub && option.groups[s..][1..] == option.groups[s + 1..];
          ghost var walked := WalkGroup(sub, SubAddr(optionAddr, sub.id), saved, now);
          found, after := Walk(sub, optionAddr + "/" + sub.id, saved, found, after, now);
          now := walked;
        }
      }
    }
  }

  // ---- Constraints ----

  function AddrList(list: seq<Entry>): (r: seq<string>)
    ensures |r| == |list|
    ensures forall i :: 0 <= i < |list| ==> r[i] == list[i].addr
  {
    if list == [] then [] else [list[0].addr] + AddrList(list[1..])
  }

  lemma AddrsFrom(list: seq<Entry>, n: nat)
    requires n < |list|
    ensures Addrs(list[n..]) == {list[n].addr} + Addrs(list[n + 1..])
  {
    var rest := list[n + 1..];
    assert list[n..] == [list[n]] + rest;
    assert ([list[n]] + rest)[0] in [list[n]] + rest;
    forall a | a in Addrs(rest)
      ensures a in Addrs([list[n]] + rest)
    {
      var x :| x in rest && x.addr == a;
      assert x in [list[n]] + rest;
    }
  }

  lemma LaterIsGreater(active: Active, order: nat, list: seq<Entry>, n: nat, a: string)
    requires Represents(active, order, list) && n < |list| && a in Addrs(list[n + 1..])
    ensures a in active && list[n].addr in active && a != list[n].addr && active[list[n].addr].order < active[a].order
  {
    AddrsIndex(list[n + 1..], a);
    var i :| 0 <= i < |list[n + 1..]| && list[n + 1..][i].addr == a;
    assert list[n + 1 + i].addr == a;
  }

  lemma LeastIsNext(active: Active, order: nat, list: seq<Entry>, n: nat)
    requires Represents(active, order, list) && n < |list|
    ensures var rest := Addrs(list[n..]);
            && list[n].addr in rest && rest <= active.Keys
            && (forall a :: a in rest && a != list[n].addr ==> active[list[n].addr].order < active[a].order)
            && Addrs(list[n + 1..]) == rest - {list[n].addr}
  {
    AddrsFrom(list, n);
    assert list[n].addr in active;
    hide Represents, Addrs;
    forall a | a in Addrs(list[n + 1..])
      ensures a in active && a != list[n].addr && active[list[n].addr].order < active[a].order
    {
      LaterIsGreater(active, order, list, n, a);
    }
  }

  lemma RestIsEmpty(list: seq<Entry>, n: nat)
    requires n <= |list|
    ensures Addrs(list[n..]) == {} <==> n == |list|
  {
    if n < |list| {
      assert list[n] in list[n..];
      assert list[n].addr in Addrs(list[n..]);
    }
  }

  method PickLeast(active: Active, rest: set<string>, ghost next: string) returns (least: string)
    requires next in rest && rest <= active.Keys
    requires forall a :: a in rest && a != next ==> active[next].order < active[a].order
    ensures least == next
  {
    assert forall a :: a in rest ==> active[next].order <= active[a].order;
    least :| least in rest && forall a :: a in rest ==> active[least].order <= active[a].order;
  }

  /** The addresses of the map sorted by their counter, as `sort_by_key` leaves them. */
  method InOrder(active: Active, ghost order: nat, ghost list: seq<Entry>) returns (ordered: seq<string>)
    requires Represents(active, order, list)
    ensures ordered == AddrList(list)
  {
    hide *;
    RepresentedKeys(active, order, list);
    ordered := [];
    var rest := active.Keys;
    ghost var n: nat := 0;
    assert list[0..] == list;
    while rest != {}
      invariant n <= |list| && |ordered| == n
      invariant forall k :: 0 <= k < n ==> ordered[k] == list[k].addr
      invariant rest == Addrs(list[n..])
      decreases |list| - n
    {
      RestIsEmpty(list, n);
      LeastIsNext(active, order, list, n);
      var least := PickLeast(active, rest, list[n].addr);
      ordered := ordered + [least];
      rest := rest - {least};
      n := n + 1;
    }
    RestIsEmpty(list, n);
  }

  /** `first_violation`: missing needs first, then the later of two rivals. */
  method FirstViolation(active: Active, ghost order: nat, ghost list: seq<Entry>) returns (victim: Option<string>)
    requires Represents(active, order, list)
    ensures victim == if Victim(list).Some? then Some(list[Victim(list).value].addr) else None
  {
    var ordered := InOrder(active, order, list);
    victim := FirstWithoutNeed(active, ordered, order, list);
    if victim.None? {
      victim := FirstRival(active, ordered, order, list);
    }
  }

  method FirstWithoutNeed(active: Active, ordered: seq<string>, ghost order: nat, ghost list: seq<Entry>)
    returns (victim: Option<string>)
    requires Represents(active, order, list) && ordered == AddrList(list)
    ensures victim == if FirstUnmet(list, 0).Some? then Some(list[FirstUnmet(list, 0).value].addr) else None
  {
    hide Represents, Unmet;
    for i := 0 to |ordered|
      invariant FirstUnmet(list, 0) == FirstUnmet(list, i)
    {
      NeedsMatch(active, order, list, i);
      var needs := active[ordered[i]].effects.needs;
      if exists k :: 0 <= k < |needs| && needs[k] !in active {
        return Some(ordered[i]);
      }
    }
    victim := None;
  }

  method FirstRival(active: Active, ordered: seq<string>, ghost order: nat, ghost list: seq<Entry>)
    returns (victim: Option<string>)
    requires Represents(active, order, list) && ordered == AddrList(list)
    ensures victim == if FirstClash(list, 0).Some? then Some(list[FirstClash(list, 0).value].addr) else None
  {
    hide Represents, Clashes;
    for i := 0 to |ordered|
      invariant FirstClash(list, 0) == FirstClash(list, i)
    {
      var clashes := HasRival(active, ordered, i, order, list);
      if clashes {
        return Some(ordered[i]);
      }
    }
    victim := None;
  }

  method HasRival(active: Active, ordered: seq<string>, i: nat, ghost order: nat, ghost list: seq<Entry>)
    returns (clashes: bool)
    requires Represents(active, order, list) && ordered == AddrList(list) && i < |list|
    ensures clashes <==> Clashes(list, i)
  {
    hide *;
    NoneSoFar(list, i);
    for j := 0 to i
      invariant !ClashesWithin(list, i, j)
    {
      RivalMatches(active, order, list, i, j);
      OneMoreRival(list, i, j);
      var option, other := active[ordered[i]], active[ordered[j]];
      if ordered[j] in option.effects.conflicts || ordered[i] in other.effects.conflicts {
        return true;
      }
    }
    clashes := false;
  }

  /** Some conflict of option `i` with one of the first `n`. */
  predicate ClashesWithin(list: seq<Entry>, i: nat, n: nat)
    requires n <= i < |list|
  {
    exists k :: 0 <= k < n && Conflict(list[i], list[k])
  }

  lemma NoneSoFar(list: seq<Entry>, i: nat)
    requires i < |list|
    ensures !ClashesWithin(list, i, 0) && Clashes(list, i) == ClashesWithin(list, i, i)
  {
    hide Conflict;
  }

  lemma OneMoreRival(list: seq<Entry>, i: nat, j: nat)
    requires j < i < |list|
    ensures ClashesWithin(list, i, j + 1) <==> ClashesWithin(list, i, j) || Conflict(list[i], list[j])
    ensures Conflict(list[i], list[j]) ==> Clashes(list, i)
  {
    hide Conflict;
  }

  /** The conflict of two options, read from the map by their addresses. */
  lemma RivalMatches(active: Active, order: nat, list: seq<Entry>, i: nat, j: nat)
    requires Represents(active, order, list) && i < |list| && j < |list|
    ensures var ordered := AddrList(list);
            ordered[i] in active && ordered[j] in active &&
            (Conflict(list[i], list[j]) <==>
             ordered[j] in active[ordered[i]].effects.conflicts || ordered[i] in active[ordered[j]].effects.conflicts)
  {
    hide Represents;
    NeedsMatch(active, order, list, i);
    NeedsMatch(active, order, list, j);
  }

  lemma NeedsMatch(active: Active, order: nat, list: seq<Entry>, i: nat)
    requires Represents(active, order, list) && i < |list|
    ensures list[i].addr in active && active[list[i].addr].effects == list[i].effects
    ensures var needs := list[i].effects.needs;
            Unmet(list, list[i]) <==> exists k :: 0 <= k < |needs| && needs[k] !in active
  {
    forall a
      ensures Holds(list, a) <==> a in active
    {
      HoldsIsAddr(list, a);
    }
  }

  method DropWithDescendants(active: Active, victim: string, ghost order: nat, ghost list: seq<Entry>)
    returns (left: Active)
    requires Represents(active, order, list)
    ensures Represents(left, order, Drop(list, victim))
  {
    var prefix := victim + "/";
    left := map key | key in active && key != victim && !(prefix <= key) :: active[key];
    DropMembers(list, victim);
    DropIsPart(list, victim);
    forall a
      ensures a in left <==> a in Addrs(Drop(list, victim))
    {
      if a in left {
        var x :| x in list && x.addr == a;
        assert x in Drop(list, victim);
      }
    }
    RepresentsPart(active, order, list, left, Drop(list, victim));
  }

  method EnforceConstraints(active: Active, ghost order: nat, ghost list: seq<Entry>) returns (left: Active)
    requires Represents(active, order, list)
    ensures Represents(left, order, Enforced(list))
  {
    SizeMatches(active, order, list);
    hide Represents, Victim, Settle;
    left := active;
    var limit := |active| + 1;
    ghost var now := list;
    for pass := 0 to limit
      invariant Represents(left, order, now)
      invariant Settle(now, limit - pass) == Enforced(list)
    {
      var victim := FirstViolation(left, order, now);
      SettleStep(now, limit - pass);
      if victim.None? {
        return;
      }
      left := DropWithDescendants(left, victim.value, order, now);
      now := Drop(now, victim.value);
    }
    SettleStep(now, 0);
  }

  lemma SizeMatches(active: Active, order: nat, list: seq<Entry>)
    requires Represents(active, order, list)
    ensures |active| == |list|
  {
    AddrsSize(list);
  }

  // ---- Results ----

  method ActiveOptions(groups: seq<Group>, saved: Saved) returns (active: Active, ghost order: nat)
    ensures Represents(active, order, Resolved(groups, saved))
  {
    hide Represents, Addrs;
    active := map[];
    var count := 0;
    ghost var now: seq<Entry> := [];
    NothingActive();
    assert groups[0..] == groups;
    for g := 0 to |groups|
      invariant Represents(active, count, now)
      invariant WalkTop(groups[g..], saved, now) == WalkTop(groups, saved, [])
    {
      assert groups[g..][0] == groups[g] && groups[g..][1..] == groups[g + 1..];
      ghost var next := WalkGroup(groups[g], groups[g].id, saved, now);
      active, count := Walk(groups[g], groups[g].id, saved, active, count, now);
      now := next;
    }
    order := count;
    active := EnforceConstraints(active, order, now);
  }

  lemma NothingActive()
    ensures Represents(map[], 0, [])
  {
  }

  function AllFiles(list: seq<Entry>): set<string> {
    set e, f | e in list && f in e.effects.files :: f
  }

  lemma FilesMatch(active: Active, order: nat, list: seq<Entry>, f: string)
    requires Represents(active, order, list)
    ensures f in AllFiles(list) <==> exists a :: a in active && f in active[a].effects.files
  {
    if a :| a in active && f in active[a].effects.files {
      AddrsIndex(list, a);
      var i :| 0 <= i < |list| && list[i].addr == a;
      assert list[i] in list && f in list[i].effects.files;
    }
    if f in AllFiles(list) {
      var e :| e in list && f in e.effects.files;
      var i :| 0 <= i < |list| && list[i] == e;
      assert e.addr in active && f in active[e.addr].effects.files;
    }
  }

  lemma RepresentedKeys(active: Active, order: nat, list: seq<Entry>)
    requires Represents(active, order, list)
    ensures active.Keys == Addrs(list)
  {
  }

  /** The active addresses and the files they own. */
  method ResolveActive(groups: seq<Group>, saved: Saved) returns (addrs: set<string>, files: set<string>)
    ensures addrs == Addrs(Resolved(groups, saved))
    ensures files == AllFiles(Resolved(groups, saved))
  {
    hide Represents, Resolved, Addrs, AllFiles;
    var active, order := ActiveOptions(groups, saved);
    ghost var list := Resolved(groups, saved);
    RepresentedKeys(active, order, list);
    addrs := active.Keys;
    files := set a, f | a in active && f in active[a].effects.files :: f;
    forall f
      ensures f in files <==> f in AllFiles(list)
    {
      FilesMatch(active, order, list, f);
    }
  }

  function AllJvmArgs(list: seq<Entry>): seq<string> {
    if list == [] then [] else list[0].effects.jvmArgs + AllJvmArgs(list[1..])
  }

  function AllGameArgs(list: seq<Entry>): seq<string> {
    if list == [] then [] else list[0].effects.gameArgs + AllGameArgs(list[1..])
  }

  function Allowed(paths: seq<string>, allowed: set<string>): seq<string> {
    if paths == [] then []
    else (if paths[0] in allowed then [paths[0]] else []) + Allowed(paths[1..], allowed)
  }

  function AllClasspath(list: seq<Entry>, allowed: set<string>): seq<string> {
    if list == [] then [] else Allowed(list[0].effects.classpath, allowed) + AllClasspath(list[1..], allowed)
  }

  /** Launch arguments: those of exactly the active options, once each, in declaration order.
      `allowed` stands for the paths that `validate_manifest_path` lets through. */
  method ResolveExtras(groups: seq<Group>, saved: Saved, allowed: set<string>) returns (extras: LaunchExtras)
    ensures var list := Resolved(groups, saved);
            extras == LaunchExtras(AllJvmArgs(list), AllGameArgs(list), AllClasspath(list, allowed))
  {
    var active, order := ActiveOptions(groups, saved);
    extras := ExtrasOf(active, allowed, order, Resolved(groups, saved));
  }

  method ExtrasOf(active: Active, allowed: set<string>, ghost order: nat, ghost list: seq<Entry>)
    returns (extras: LaunchExtras)
    requires Represents(active, order, list)
    ensures extras == LaunchExtras(AllJvmArgs(list), AllGameArgs(list), AllClasspath(list, allowed))
  {
    hide Represents, AllJvmArgs, AllGameArgs, AllClasspath, Allowed;
    var ordered := InOrder(active, order, list);
    var jvm, game, paths: seq<string> := [], [], [];
    assert list[0..] == list;
    for i := 0 to |ordered|
      invariant jvm + AllJvmArgs(list[i..]) == AllJvmArgs(list)
      invariant game + AllGameArgs(list[i..]) == AllGameArgs(list)
      invariant paths + AllClasspath(list[i..], allowed) == AllClasspath(list, allowed)
    {
      NeedsMatch(active, order, list, i);
      ExtrasFrom(list, i, allowed);
      var effects := active[ordered[i]].effects;
      var more := FilterAllowed(effects.classpath, allowed);
      Regroup(jvm, effects.jvmArgs, AllJvmArgs(list[i + 1..]));
      Regroup(game, effects.gameArgs, AllGameArgs(list[i + 1..]));
      Regroup(paths, more, AllClasspath(list[i + 1..], allowed));
      jvm := jvm + effects.jvmArgs;
      game := game + effects.gameArgs;
      paths := paths + more;
    }
    NoExtras(list, allowed);
    extras := LaunchExtras(jvm, game, paths);
  }

  lemma Regroup<T>(a: seq<T>, b: seq<T>, c: seq<T>)
    ensures (a + b) + c == a + (b + c)
  {
  }

  lemma ExtrasFrom(list: seq<Entry>, i: nat, allowed: set<string>)
    requires i < |list|
    ensures AllJvmArgs(list[i..]) == list[i].effects.jvmArgs + AllJvmArgs(list[i + 1..])
    ensures AllGameArgs(list[i..]) == list[i].effects.gameArgs + AllGameArgs(list[i + 1..])
    ensures AllClasspath(list[i..], allowed) ==
            Allowed(list[i].effects.classpath, allowed) + AllClasspath(list[i + 1..], allowed)
  {
    assert list[i..][0] == list[i] && list[i..][1..] == list[i + 1..];
  }

  lemma NoExtras(list: seq<Entry>, allowed: set<string>)
    ensures AllJvmArgs(list[|list|..]) == [] && AllGameArgs(list[|list|..]) == []
    ensures AllClasspath(list[|list|..], allowed) == []
  {
  }

  method FilterAllowed(paths: seq<string>, allowed: set<string>) returns (kept: seq<string>)
    ensures kept == Allowed(paths, allowed)
  {
    kept := [];
    for i := 0 to |paths|
      invariant kept + Allowed(paths[i..], allowed) == Allowed(paths, allowed)
    {
      assert paths[i..][0] == paths[i] && paths[i..][1..] == paths[i + 1..];
      if paths[i] in allowed {
        kept := kept + [paths[i]];
      }
    }
  }
}
