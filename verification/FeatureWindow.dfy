/** The window's resolver (client/src/lib/features.ts), a second implementation over an
    insertion-ordered JavaScript map, proved against the same specification.

    A saved selection is a JavaScript object, so looking an address up in it also finds the
    properties that every object inherits, such as `constructor`. `inherited` is the set of their
    names, none of which has a '#'. None of them is a list, and filtering by one throws. */
module FeatureWindow {
  import opened Wrappers
  import opened FeatureModel
  import opened FeatureLaws

  datatype TsOption = TsOption(order: nat, needs: seq<string>, conflicts: seq<string>)

  /** A JavaScript `Map`: its entries in the order in which their keys were first set. */
  type TsMap = seq<(string, TsOption)>

  // ---- `defaults` and `effective`, as the window spells them ----

  function Find(options: seq<Feature>): Option<Feature> {
    if options == [] then None else if options[0].defaultEnabled then Some(options[0]) else Find(options[1..])
  }

  function TsDefaults(group: Group): seq<string> {
    if group.selection.Single? then
      var preset := Find(group.options);
      if preset.Some? then [preset.value.id]
      else if group.required && group.options != [] then [group.options[0].id]
      else []
    else DefaultIds(group.options)
  }

  /** The lookup finds an inherited property, and there is an option to look for in it. */
  predicate Throws(group: Group, addr: string, saved: Saved, inherited: set<string>) {
    addr in inherited && addr !in saved && group.options != []
  }

  /** None when the filter throws. */
  function TsEffective(group: Group, addr: string, saved: Saved, inherited: set<string>): Option<seq<string>> {
    if addr !in saved && addr !in inherited then Some(TsDefaults(group))
    else if addr !in saved && group.options != [] then None
    else
      var ids := if addr in saved then Kept(Ids(group.options), saved[addr]) else [];
      if group.selection.Single? then
        var one := ids[..if |ids| < 1 then |ids| else 1];
        if |one| == 0 && group.required then
          var fallback := if Find(group.options).Some? then Find(group.options)
                          else if group.options == [] then None else Some(group.options[0]);
          if fallback.Some? then Some([fallback.value.id]) else Some(one)
        else Some(one)
      else Some(ids)
  }

  lemma {:induction false} FindIsFirstDefault(options: seq<Feature>)
    ensures FirstDefault(options) == if Find(options).Some? then Some(Find(options).value.id) else None
  {
    if options != [] {
      FindIsFirstDefault(options[1..]);
    }
  }

  /** Both sides make the same choice within a group, unless the window's lookup throws. */
  lemma SameEffective(group: Group, addr: string, saved: Saved, inherited: set<string>)
    ensures TsEffective(group, addr, saved, inherited) ==
            if Throws(group, addr, saved, inherited) then None else Some(Effective(group, addr, saved))
  {
    FindIsFirstDefault(group.options);
    if addr in saved {
      var ids := Kept(Ids(group.options), saved[addr]);
      assert |ids| <= 1 ==> ids[..|ids|] == ids;
    }
  }

  // ---- The map ----

  function AsOption(e: Entry, order: nat): TsOption {
    TsOption(order, e.effects.needs, e.effects.conflicts)
  }

  ghost predicate KeysDistinct(entries: TsMap) {
    forall i, j :: 0 <= i < j < |entries| ==> entries[i].0 != entries[j].0
  }

  predicate Has(entries: TsMap, key: string) {
    exists i :: 0 <= i < |entries| && entries[i].0 == key
  }

  ghost predicate RankedBelow(orders: seq<nat>, order: nat) {
    && (forall i :: 0 <= i < |orders| ==> orders[i] < order)
    && (forall i, j :: 0 <= i < j < |orders| ==> orders[i] < orders[j])
  }

  ghost predicate Paired(p: (string, TsOption), list: seq<Entry>, orders: seq<nat>)
    requires |orders| == |list|
  {
    exists i :: 0 <= i < |list| && p == (list[i].addr, AsOption(list[i], orders[i]))
  }

  /** The map holds exactly the options of `list`, whatever order it keeps them in, and
      `orders` are the counters they were given. */
  ghost predicate Mirrors(entries: TsMap, order: nat, list: seq<Entry>, orders: seq<nat>) {
    && Distinct(list) && KeysDistinct(entries) && |orders| == |list|
    && RankedBelow(orders, order)
    && forall p :: p in entries <==> Paired(p, list, orders)
  }

  function SetKey(entries: TsMap, key: string, value: TsOption): TsMap {
    if entries == [] then [(key, value)]
    else if entries[0].0 == key then [(key, value)] + entries[1..]
    else [entries[0]] + SetKey(entries[1..], key, value)
  }

  lemma {:induction false} SetKeyMembers(entries: TsMap, key: string, value: TsOption)
    requires KeysDistinct(entries)
    ensures KeysDistinct(SetKey(entries, key, value))
    ensures forall p :: p in SetKey(entries, key, value) <==> p == (key, value) || (p in entries && p.0 != key)
  {
    if entries != [] {
      var rest := entries[1..];
      assert entries == [entries[0]] + rest;
      if entries[0].0 == key {
        assert SetKey(entries, key, value) == [(key, value)] + rest;
        forall p | p in rest
          ensures p.0 != key
        {
        }
      } else {
        SetKeyMembers(rest, key, value);
        assert SetKey(entries, key, value) == [entries[0]] + SetKey(rest, key, value);
        forall j | 0 <= j < |SetKey(rest, key, value)|
          ensures SetKey(rest, key, value)[j].0 != entries[0].0
        {
          assert SetKey(rest, key, value)[j] in SetKey(rest, key, value);
        }
      }
    }
  }

  /** Orders of the entries that `Without` keeps. */
  function OrdersWithout(list: seq<Entry>, orders: seq<nat>, addr: string): seq<nat>
    requires |orders| == |list|
  {
    if list == [] then []
    else (if list[0].addr == addr then [] else [orders[0]]) + OrdersWithout(list[1..], orders[1..], addr)
  }

  function OrdersDrop(list: seq<Entry>, orders: seq<nat>, victim: string): seq<nat>
    requires |orders| == |list|
  {
    if list == [] then []
    else (if Dropped(list[0].addr, victim) then [] else [orders[0]]) + OrdersDrop(list[1..], orders[1..], victim)
  }

  lemma PairedTail(p: (string, TsOption), list: seq<Entry>, orders: seq<nat>)
    requires |orders| == |list| && list != []
    ensures Paired(p, list, orders) <==>
              p == (list[0].addr, AsOption(list[0], orders[0])) || Paired(p, list[1..], orders[1..])
  {
    if Paired(p, list, orders) && p != (list[0].addr, AsOption(list[0], orders[0])) {
      var i :| 0 <= i < |list| && p == (list[i].addr, AsOption(list[i], orders[i]));
      assert list[1..][i - 1] == list[i] && orders[1..][i - 1] == orders[i];
    }
    if Paired(p, list[1..], orders[1..]) {
      var i :| 0 <= i < |list[1..]| && p == (list[1..][i].addr, AsOption(list[1..][i], orders[1..][i]));
      assert list[1..][i] == list[i + 1] && orders[1..][i] == orders[i + 1];
    }
  }

  lemma PairedHead(p: (string, TsOption), e: Entry, order: nat, rest: seq<Entry>, ranks: seq<nat>)
    requires |ranks| == |rest|
    ensures Paired(p, [e] + rest, [order] + ranks) <==> p == (e.addr, AsOption(e, order)) || Paired(p, rest, ranks)
  {
    PairedTail(p, [e] + rest, [order] + ranks);
    assert ([e] + rest)[1..] == rest && ([order] + ranks)[1..] == ranks;
  }

  lemma {:induction false} PairedDrop(p: (string, TsOption), list: seq<Entry>, orders: seq<nat>, victim: string)
    requires |orders| == |list|
    ensures |OrdersDrop(list, orders, victim)| == |Drop(list, victim)|
    ensures Paired(p, Drop(list, victim), OrdersDrop(list, orders, victim)) <==>
            Paired(p, list, orders) && !Dropped(p.0, victim)
    decreases |list|
  {
    if list != [] {
      hide Dropped, AsOption;
      PairedDrop(p, list[1..], orders[1..], victim);
      PairedTail(p, list, orders);
      var rest, ranks := Drop(list[1..], victim), OrdersDrop(list[1..], orders[1..], victim);
      if Dropped(list[0].addr, victim) {
        assert Drop(list, victim) == rest && OrdersDrop(list, orders, victim) == ranks;
      } else {
        assert Drop(list, victim) == [list[0]] + rest && OrdersDrop(list, orders, victim) == [orders[0]] + ranks;
        hide Paired;
        PairedHead(p, list[0], orders[0], rest, ranks);
      }
    }
  }

  lemma {:induction false} PairedWithout(p: (string, TsOption), list: seq<Entry>, orders: seq<nat>, addr: string)
    requires |orders| == |list|
    ensures |OrdersWithout(list, orders, addr)| == |Without(list, addr)|
    ensures Paired(p, Without(list, addr), OrdersWithout(list, orders, addr)) <==>
            Paired(p, list, orders) && p.0 != addr
    decreases |list|
  {
    if list != [] {
      hide AsOption;
      PairedWithout(p, list[1..], orders[1..], addr);
      PairedTail(p, list, orders);
      var rest, ranks := Without(list[1..], addr), OrdersWithout(list[1..], orders[1..], addr);
      if list[0].addr == addr {
        assert Without(list, addr) == rest && OrdersWithout(list, orders, addr) == ranks;
      } else {
        assert Without(list, addr) == [list[0]] + rest && OrdersWithout(list, orders, addr) == [orders[0]] + ranks;
        hide Paired;
        PairedHead(p, list[0], orders[0], rest, ranks);
      }
    }
  }

  lemma {:induction false} RanksWithout(list: seq<Entry>, orders: seq<nat>, addr: string, order: nat)
    requires |orders| == |list| && RankedBelow(orders, order)
    ensures var r := OrdersWithout(list, orders, addr);
            RankedBelow(r, order) && forall x :: x in r ==> x in orders
  {
    if list != [] {
      RanksWithout(list[1..], orders[1..], addr, order);
      RankHead(orders, OrdersWithout(list[1..], orders[1..], addr), order);
    }
  }

  lemma {:induction false} RanksDrop(list: seq<Entry>, orders: seq<nat>, victim: string, order: nat)
    requires |orders| == |list| && RankedBelow(orders, order)
    ensures var r := OrdersDrop(list, orders, victim);
            RankedBelow(r, order) && forall x :: x in r ==> x in orders
  {
    hide Dropped;
    if list != [] {
      RanksDrop(list[1..], orders[1..], victim, order);
      RankHead(orders, OrdersDrop(list[1..], orders[1..], victim), order);
    }
  }

  lemma RankHead(orders: seq<nat>, rest: seq<nat>, order: nat)
    requires orders != [] && RankedBelow(orders, order) && RankedBelow(rest, order)
    requires forall x :: x in rest ==> x in orders[1..]
    ensures RankedBelow([orders[0]] + rest, order)
    ensures forall x :: x in rest ==> x in orders
  {
    forall j | 0 <= j < |rest|
      ensures orders[0] < rest[j]
    {
      assert rest[j] in orders[1..];
    }
  }

  lemma PairedLast(p: (string, TsOption), list: seq<Entry>, orders: seq<nat>, e: Entry, order: nat)
    requires |orders| == |list|
    ensures Paired(p, list + [e], orders + [order]) <==> p == (e.addr, AsOption(e, order)) || Paired(p, list, orders)
  {
    hide AsOption;
    var next, ranks := list + [e], orders + [order];
    assert next[|list|] == e && ranks[|list|] == order;
    if Paired(p, list, orders) {
      var i :| 0 <= i < |list| && p == (list[i].addr, AsOption(list[i], orders[i]));
      assert next[i] == list[i] && ranks[i] == orders[i];
    }
  }

  lemma MirrorsPut(entries: TsMap, order: nat, list: seq<Entry>, orders: seq<nat>, e: Entry) returns (ranks: seq<nat>)
    requires Mirrors(entries, order, list, orders)
    ensures Mirrors(SetKey(entries, e.addr, AsOption(e, order)), order + 1, Put(list, e), ranks)
  {
    var rest, less := Without(list, e.addr), OrdersWithout(list, orders, e.addr);
    ranks := less + [order];
    PutDistinct(list, e);
    RanksWithout(list, orders, e.addr, order);
    SetKeyMembers(entries, e.addr, AsOption(e, order));
    PairedWithout((e.addr, AsOption(e, order)), list, orders, e.addr);
    var next := SetKey(entries, e.addr, AsOption(e, order));
    hide Paired, Without, OrdersWithout, SetKey, AsOption, KeysDistinct;
    forall p
      ensures p in next <==> Paired(p, Put(list, e), ranks)
    {
      PairedWithout(p, list, orders, e.addr);
      PairedLast(p, rest, less, e, order);
    }
  }

  // ---- The walk ----

  /** What the inner `walk` does to the list: its parent address is empty only at the top. */
  function Walked(groups: seq<Group>, parentAddr: string, saved: Saved, list: seq<Entry>): seq<Entry> {
    if parentAddr == "" then WalkTop(groups, saved, list) else WalkSubs(groups, parentAddr, saved, list)
  }

  /** Some top-level group has options, nothing saved, and the name of an inherited property. */
  predicate SomeThrows(groups: seq<Group>, saved: Saved, inherited: set<string>) {
    exists g :: 0 <= g < |groups| && Throws(groups[g], groups[g].id, saved, inherited)
  }

  predicate Plain(inherited: set<string>) {
    forall name :: name in inherited ==> '#' !in name
  }

  /** Below the top no address is an inherited name, for each has the '#' of the option above it. */
  method Walk(groups: seq<Group>, parentAddr: string, saved: Saved, inherited: set<string>, active: TsMap, order: nat,
              ghost list: seq<Entry>, ghost orders: seq<nat>)
    returns (thrown: bool, found: TsMap, after: nat, ghost ranks: seq<nat>)
    requires Mirrors(active, order, list, orders) && Plain(inherited) && (parentAddr != "" ==> '#' in parentAddr)
    ensures thrown <==> parentAddr == "" && SomeThrows(groups, saved, inherited)
    ensures !thrown ==> Mirrors(found, after, Walked(groups, parentAddr, saved, list), ranks)
    decreases groups, 1
  {
    hide *;
    thrown, found, after, ranks := false, active, order, orders;
    NoneThrowsBefore(groups, saved, inherited);
    ghost var now := list;
    assert groups[0..] == groups;
    for g := 0 to |groups|
      invariant Mirrors(found, after, now, ranks)
      invariant Walked(groups[g..], parentAddr, saved, now) == Walked(groups, parentAddr, saved, list)
      invariant !thrown && (parentAddr == "" ==> !SomeThrows(groups[..g], saved, inherited))
    {
      var group := groups[g];
      var groupAddr := if parentAddr != "" then parentAddr + "/" + group.id else group.id;
      ghost var next := WalkGroup(group, groupAddr, saved, now);
      WalkedStep(groups, g, parentAddr, saved, now, groupAddr);
      ThrowsOneMore(groups, g, saved, inherited);
      NotInherited(group, groupAddr, saved, inherited);
      HashBelow(parentAddr, group.id);
      thrown, found, after, ranks := WalkOneGroup(group, groupAddr, saved, inherited, found, after, now, ranks);
      if thrown {
        return;
      }
      now := next;
    }
    WalkedNone(groups, parentAddr, saved, now);
    assert groups[..|groups|] == groups;
  }

  lemma NoneThrowsBefore(groups: seq<Group>, saved: Saved, inherited: set<string>)
    ensures !SomeThrows(groups[..0], saved, inherited)
  {
  }

  lemma ThrowsOneMore(groups: seq<Group>, g: nat, saved: Saved, inherited: set<string>)
    requires g < |groups|
    ensures Throws(groups[g], groups[g].id, saved, inherited) ==> SomeThrows(groups, saved, inherited)
    ensures !Throws(groups[g], groups[g].id, saved, inherited) && !SomeThrows(groups[..g], saved, inherited) ==>
              !SomeThrows(groups[..g + 1], saved, inherited)
  {
    hide Throws;
    forall x | 0 <= x < g
      ensures groups[..g + 1][x] == groups[..g][x]
    {
    }
  }

  lemma NotInherited(group: Group, addr: string, saved: Saved, inherited: set<string>)
    requires Plain(inherited)
    ensures '#' in addr ==> !Throws(group, addr, saved, inherited)
  {
  }

  lemma HashBelow(parentAddr: string, id: string)
    ensures '#' in parentAddr ==> '#' in parentAddr + "/" + id
    ensures '#' in parentAddr + "#" + id
  {
    if '#' in parentAddr {
      var k :| 0 <= k < |parentAddr| && parentAddr[k] == '#';
      assert (parentAddr + "/" + id)[k] == '#';
    }
    assert (parentAddr + "#" + id)[|parentAddr|] == '#';
  }

  lemma WalkedStep(groups: seq<Group>, g: nat, parentAddr: string, saved: Saved, list: seq<Entry>, groupAddr: string)
    requires g < |groups|
    requires groupAddr == if parentAddr != "" then parentAddr + "/" + groups[g].id else groups[g].id
    ensures Walked(groups[g..], parentAddr, saved, list) ==
            Walked(groups[g + 1..], parentAddr, saved, WalkGroup(groups[g], groupAddr, saved, list))
  {
    hide WalkGroup;
    assert groups[g..][0] == groups[g] && groups[g..][1..] == groups[g + 1..];
  }

  lemma WalkedNone(groups: seq<Group>, parentAddr: string, saved: Saved, list: seq<Entry>)
    ensures Walked(groups[|groups|..], parentAddr, saved, list) == list
  {
  }

  method WalkOneGroup(group: Group, groupAddr: string, saved: Saved, inherited: set<string>, active: TsMap, order: nat,
                      ghost list: seq<Entry>, ghost orders: seq<nat>)
    returns (thrown: bool, found: TsMap, after: nat, ghost ranks: seq<nat>)
    requires Mirrors(active, order, list, orders) && Plain(inherited)
    ensures thrown <==> Throws(group, groupAddr, saved, inherited)
    ensures !thrown ==> Mirrors(found, after, WalkGroup(group, groupAddr, saved, list), ranks)
    decreases group, 0
  {
    hide *;
    SameEffective(group, groupAddr, saved, inherited);
    var effective := TsEffective(group, groupAddr, saved, inherited);
    thrown, found, after, ranks := false, active, order, orders;
    if effective.None? {
      return true, found, after, ranks;
    }
    var chosen := effective.value;
    ghost var now := list;
    GroupStart(group, groupAddr, saved, list);
    for o := 0 to |group.options|
      invariant Mirrors(found, after, now, ranks)
      invariant WalkOptions(group.options[o..], chosen, groupAddr, saved, now) ==
                WalkGroup(group, groupAddr, saved, list)
      invariant !thrown
    {
      var option := group.options[o];
      OptionStep(group.options, o, chosen, groupAddr, saved, now);
      if option.id in chosen {
        var optionAddr := groupAddr + "#" + option.id;
        ghost var e := Entry(optionAddr, option.effects);
        ghost var next := Put(now, e);
        ghost var put := MirrorsPut(found, after, now, ranks, e);
        AsOptionIs(e, after);
        found := SetKey(found, optionAddr, TsOption(after, option.effects.needs, option.effects.conflicts));
        after := after + 1;
        WalkedSub(option, optionAddr, saved, next);
        HashBelow(groupAddr, option.id);
        thrown, found, after, ranks := Walk(option.groups, optionAddr, saved, inherited, found, after, next, put);
        now := WalkSubs(option.groups, optionAddr, saved, next);
      }
    }
    OptionsDone(group.options, chosen, groupAddr, saved, now);
  }

  lemma AsOptionIs(e: Entry, order: nat)
    ensures AsOption(e, order) == TsOption(order, e.effects.needs, e.effects.conflicts)
  {
  }

  lemma GroupStart(group: Group, groupAddr: string, saved: Saved, list: seq<Entry>)
    ensures WalkGroup(group, groupAddr, saved, list) ==
            WalkOptions(group.options[0..], Effective(group, groupAddr, saved), groupAddr, saved, list)
  {
    assert group.options[0..] == group.options;
  }

  lemma OptionStep(options: seq<Feature>, o: nat, chosen: seq<string>, addr: string, saved: Saved, list: seq<Entry>)
    requires o < |options|
    ensures var optionAddr := addr + "#" + options[o].id;
            WalkOptions(options[o..], chosen, addr, saved, list) ==
            WalkOptions(options[o + 1..], chosen, addr, saved,
              if options[o].id in chosen
              then WalkSubs(options[o].groups, optionAddr, saved, Put(list, Entry(optionAddr, options[o].effects)))
              else list)
  {
    hide Put, WalkSubs;
    assert options[o..][0] == options[o] && options[o..][1..] == options[o + 1..];
  }

  lemma OptionsDone(options: seq<Feature>, chosen: seq<string>, addr: string, saved: Saved, list: seq<Entry>)
    ensures WalkOptions(options[|options|..], chosen, addr, saved, list) == list
  {
  }

  lemma WalkedSub(option: Feature, optionAddr: string, saved: Saved, list: seq<Entry>)
    requires exists addr :: optionAddr == addr + "#" + option.id
    ensures Walked(option.groups, optionAddr, saved, list) == WalkSubs(option.groups, optionAddr, saved, list)
  {
    assert optionAddr != "";
  }

  // ---- Constraints ----

  lemma {:induction false} HasIsHolds(entries: TsMap, order: nat, list: seq<Entry>, orders: seq<nat>, key: string)
    requires Mirrors(entries, order, list, orders)
    ensures Has(entries, key) <==> Holds(list, key)
  {
    if Has(entries, key) {
      var i :| 0 <= i < |entries| && entries[i].0 == key;
      assert entries[i] in entries;
    }
    if Holds(list, key) {
      var i :| 0 <= i < |list| && list[i].addr == key;
      var p := (key, AsOption(list[i], orders[i]));
      assert p in entries;
      var k :| 0 <= k < |entries| && entries[k] == p;
      assert entries[k].0 == key;
    }
  }

  method PickLeast(rest: set<(string, TsOption)>, ghost next: (string, TsOption)) returns (least: (string, TsOption))
    requires next in rest
    requires forall p :: p in rest && p != next ==> next.1.order < p.1.order
    ensures least == next
  {
    assert forall p :: p in rest ==> next.1.order <= p.1.order;
    least :| least in rest && forall p :: p in rest ==> least.1.order <= p.1.order;
  }

  /** The part of the pairs that sorting has not placed yet. */
  ghost predicate Remaining(rest: set<(string, TsOption)>, list: seq<Entry>, orders: seq<nat>, n: nat)
    requires |orders| == |list| && n <= |list|
  {
    forall p :: p in rest <==> Paired(p, list[n..], orders[n..])
  }

  lemma RemainingStep(rest: set<(string, TsOption)>, order: nat, list: seq<Entry>, orders: seq<nat>, n: nat)
    requires |orders| == |list| && n < |list| && RankedBelow(orders, order) && Distinct(list)
    requires Remaining(rest, list, orders, n)
    ensures var next := (list[n].addr, AsOption(list[n], orders[n]));
            && next in rest
            && (forall p :: p in rest && p != next ==> next.1.order < p.1.order)
            && Remaining(rest - {next}, list, orders, n + 1)
  {
    var next := (list[n].addr, AsOption(list[n], orders[n]));
    assert list[n..][1..] == list[n + 1..] && orders[n..][1..] == orders[n + 1..];
    forall p
      ensures Paired(p, list[n..], orders[n..]) <==> p == next || Paired(p, list[n + 1..], orders[n + 1..])
      ensures Paired(p, list[n + 1..], orders[n + 1..]) ==> next.1.order < p.1.order && p != next
    {
      PairedTail(p, list[n..], orders[n..]);
      LaterPair(p, order, list, orders, n);
    }
  }

  lemma LaterPair(p: (string, TsOption), order: nat, list: seq<Entry>, orders: seq<nat>, n: nat)
    requires |orders| == |list| && n < |list| && RankedBelow(orders, order)
    ensures Paired(p, list[n + 1..], orders[n + 1..]) ==> orders[n] < p.1.order
  {
    if Paired(p, list[n + 1..], orders[n + 1..]) {
      var later, ranks := list[n + 1..], orders[n + 1..];
      var i :| 0 <= i < |later| && p == (later[i].addr, AsOption(later[i], ranks[i]));
      assert ranks[i] == orders[n + 1 + i];
    }
  }

  lemma RemainingNone(rest: set<(string, TsOption)>, list: seq<Entry>, orders: seq<nat>, n: nat)
    requires |orders| == |list| && n <= |list| && Remaining(rest, list, orders, n)
    ensures rest == {} <==> n == |list|
  {
    if n < |list| {
      var next := (list[n].addr, AsOption(list[n], orders[n]));
      assert list[n..][0] == list[n] && orders[n..][0] == orders[n];
      assert next in rest;
    } else {
      forall p
        ensures p !in rest
      {
      }
    }
  }

  lemma RemainingAll(entries: TsMap, order: nat, list: seq<Entry>, orders: seq<nat>)
    requires Mirrors(entries, order, list, orders)
    ensures |orders| == |list| && RankedBelow(orders, order) && Distinct(list)
    ensures Remaining((set p | p in entries), list, orders, 0)
  {
    assert list[0..] == list && orders[0..] == orders;
  }

  /** The entries of the map, sorted by their counters. */
  method InOrder(active: TsMap, ghost order: nat, ghost list: seq<Entry>, ghost orders: seq<nat>)
    returns (ordered: TsMap)
    requires Mirrors(active, order, list, orders)
    ensures |ordered| == |list| == |orders|
    ensures forall k :: 0 <= k < |list| ==> ordered[k] == (list[k].addr, AsOption(list[k], orders[k]))
  {
    hide *;
    RemainingAll(active, order, list, orders);
    ordered := [];
    var rest := set p | p in active;
    ghost var n: nat := 0;
    RemainingNone(rest, list, orders, 0);
    while rest != {}
      invariant n <= |list| && |ordered| == n
      invariant Remaining(rest, list, orders, n)
      invariant rest == {} <==> n == |list|
      invariant forall k :: 0 <= k < n ==> ordered[k] == (list[k].addr, AsOption(list[k], orders[k]))
      decreases |list| - n
    {
      RemainingStep(rest, order, list, orders, n);
      var least := PickLeast(rest, (list[n].addr, AsOption(list[n], orders[n])));
      ordered := ordered + [least];
      rest := rest - {least};
      n := n + 1;
      RemainingNone(rest, list, orders, n);
    }
  }

  method FirstViolation(active: TsMap, ghost order: nat, ghost list: seq<Entry>, ghost orders: seq<nat>)
    returns (victim: Option<string>)
    requires Mirrors(active, order, list, orders)
    ensures victim == if Victim(list).Some? then Some(list[Victim(list).value].addr) else None
  {
    var ordered := InOrder(active, order, list, orders);
    victim := FirstWithoutNeed(active, ordered, order, list, orders);
    if victim.None? {
      victim := FirstRival(ordered, list, orders);
    }
  }

  ghost predicate Listed(ordered: TsMap, list: seq<Entry>, orders: seq<nat>) {
    && |ordered| == |list| == |orders|
    && forall k :: 0 <= k < |list| ==> ordered[k] == (list[k].addr, AsOption(list[k], orders[k]))
  }

  method FirstWithoutNeed(active: TsMap, ordered: TsMap, ghost order: nat, ghost list: seq<Entry>,
                          ghost orders: seq<nat>)
    returns (victim: Option<string>)
    requires Mirrors(active, order, list, orders) && Listed(ordered, list, orders)
    ensures victim == if FirstUnmet(list, 0).Some? then Some(list[FirstUnmet(list, 0).value].addr) else None
  {
    hide Mirrors, Unmet;
    for i := 0 to |ordered|
      invariant FirstUnmet(list, 0) == FirstUnmet(list, i)
    {
      var needs := ordered[i].1.needs;
      NeedsMatch(active, order, list, orders, i);
      if exists k :: 0 <= k < |needs| && !Has(active, needs[k]) {
        return Some(ordered[i].0);
      }
    }
    victim := None;
  }

  lemma NeedsMatch(active: TsMap, order: nat, list: seq<Entry>, orders: seq<nat>, i: nat)
    requires Mirrors(active, order, list, orders) && i < |list|
    ensures var needs := list[i].effects.needs;
            Unmet(list, list[i]) <==> exists k :: 0 <= k < |needs| && !Has(active, needs[k])
  {
    hide Mirrors, Has, Holds;
    forall a
      ensures Has(active, a) <==> Holds(list, a)
    {
      HasIsHolds(active, order, list, orders, a);
    }
  }

  method FirstRival(ordered: TsMap, ghost list: seq<Entry>, ghost orders: seq<nat>) returns (victim: Option<string>)
    requires Listed(ordered, list, orders)
    ensures victim == if FirstClash(list, 0).Some? then Some(list[FirstClash(list, 0).value].addr) else None
  {
    hide Clashes;
    for index := 0 to |ordered|
      invariant FirstClash(list, 0) == FirstClash(list, index)
    {
      var clashes := HasRival(ordered, index, list, orders);
      if clashes {
        return Some(ordered[index].0);
      }
    }
    victim := None;
  }

  method HasRival(ordered: TsMap, index: nat, ghost list: seq<Entry>, ghost orders: seq<nat>) returns (clashes: bool)
    requires Listed(ordered, list, orders) && index < |list|
    ensures clashes <==> Clashes(list, index)
  {
    var (addr, option) := ordered[index];
    for earlier := 0 to index
      invariant forall k :: 0 <= k < earlier ==> !Conflict(list[index], list[k])
    {
      var (otherAddr, other) := ordered[earlier];
      if otherAddr in option.conflicts || addr in other.conflicts {
        assert Conflict(list[index], list[earlier]);
        return true;
      }
    }
    clashes := false;
  }

  function DeleteKey(entries: TsMap, key: string): TsMap {
    if entries == [] then []
    else if entries[0].0 == key then entries[1..]
    else [entries[0]] + DeleteKey(entries[1..], key)
  }

  lemma {:induction false} DeleteKeyMembers(entries: TsMap, key: string)
    requires KeysDistinct(entries)
    ensures KeysDistinct(DeleteKey(entries, key))
    ensures forall p :: p in DeleteKey(entries, key) <==> p in entries && p.0 != key
  {
    if entries != [] {
      var rest := entries[1..];
      assert entries == [entries[0]] + rest;
      if entries[0].0 == key {
        forall p | p in rest
          ensures p.0 != key
        {
        }
      } else {
        DeleteKeyMembers(rest, key);
        var less := DeleteKey(rest, key);
        assert DeleteKey(entries, key) == [entries[0]] + less;
        forall j | 0 <= j < |less|
          ensures less[j].0 != entries[0].0
        {
          assert less[j] in less;
        }
      }
    }
  }

  /** Deletes the victim and everything under it, going over a copy of the keys. */
  method DropWithDescendants(active: TsMap, victim: string) returns (left: TsMap)
    requires KeysDistinct(active)
    ensures KeysDistinct(left)
    ensures forall p :: p in left <==> p in active && !Dropped(p.0, victim)
  {
    hide KeysDistinct, DeleteKey;
    var prefix := victim + "/";
    left := active;
    for k := 0 to |active|
      invariant KeysDistinct(left)
      invariant forall p :: p in left ==> p in active
      invariant forall i :: 0 <= i < k ==> (active[i] in left <==> !Dropped(active[i].0, victim))
      invariant forall i :: k <= i < |active| ==> active[i] in left
    {
      var addr := active[k].0;
      if addr == victim || prefix <= addr {
        DeleteKeyMembers(left, addr);
        OtherKeys(active, k);
        left := DeleteKey(left, addr);
      }
    }
  }

  lemma OtherKeys(entries: TsMap, k: nat)
    requires KeysDistinct(entries) && k < |entries|
    ensures forall i :: 0 <= i < |entries| && i != k ==> entries[i].0 != entries[k].0
  {
  }

  lemma MirrorsDrop(entries: TsMap, order: nat, list: seq<Entry>, orders: seq<nat>, victim: string, left: TsMap)
    requires Mirrors(entries, order, list, orders) && KeysDistinct(left)
    requires forall p :: p in left <==> p in entries && !Dropped(p.0, victim)
    ensures |OrdersDrop(list, orders, victim)| == |Drop(list, victim)|
    ensures Mirrors(left, order, Drop(list, victim), OrdersDrop(list, orders, victim))
  {
    DropDistinct(list, victim);
    RanksDrop(list, orders, victim, order);
    PairedDrop(("", TsOption(0, [], [])), list, orders, victim);
    hide Paired, Drop, OrdersDrop, KeysDistinct, Dropped;
    forall p
      ensures p in left <==> Paired(p, Drop(list, victim), OrdersDrop(list, orders, victim))
    {
      PairedDrop(p, list, orders, victim);
    }
  }

  function Keys(entries: TsMap): set<string> { set p | p in entries :: p.0 }

  lemma KeyIn(entries: TsMap, key: string)
    ensures key in Keys(entries) <==> Has(entries, key)
  {
    if Has(entries, key) {
      var i :| 0 <= i < |entries| && entries[i].0 == key;
      assert entries[i] in entries;
    }
  }

  lemma HasOneOf(entries: TsMap, key: string)
    requires entries != []
    ensures Has(entries, key) <==> entries[0].0 == key || Has(entries[1..], key)
  {
    var rest := entries[1..];
    if Has(entries, key) {
      var i :| 0 <= i < |entries| && entries[i].0 == key;
      assert i > 0 ==> rest[i - 1].0 == key;
    }
    if Has(rest, key) {
      var i :| 0 <= i < |rest| && rest[i].0 == key;
      assert entries[i + 1].0 == key;
    }
  }

  lemma RestDistinct(entries: TsMap)
    requires entries != [] && KeysDistinct(entries)
    ensures KeysDistinct(entries[1..]) && !Has(entries[1..], entries[0].0)
  {}

  lemma {:induction false} KeysSize(entries: TsMap)
    requires KeysDistinct(entries)
    ensures |Keys(entries)| == |entries|
  {
    if entries == [] {
      assert Keys(entries) == {};
    } else {
      var rest, first := entries[1..], entries[0].0;
      RestDistinct(entries);
      KeysSize(rest);
      hide *;
      KeyIn(rest, first);
      forall key
        ensures key in Keys(entries) <==> key in {first} + Keys(rest)
      {
        KeyIn(entries, key);
        KeyIn(rest, key);
        HasOneOf(entries, key);
      }
      assert Keys(entries) == {first} + Keys(rest);
    }
  }

  lemma MirrorsKeys(entries: TsMap, order: nat, list: seq<Entry>, orders: seq<nat>)
    requires Mirrors(entries, order, list, orders)
    ensures Keys(entries) == Addrs(list)
  {
    forall a
      ensures a in Keys(entries) <==> a in Addrs(list)
    {
      HasIsHolds(entries, order, list, orders, a);
      HoldsIsAddr(list, a);
      if a in Keys(entries) {
        var p :| p in entries && p.0 == a;
        var i :| 0 <= i < |entries| && entries[i] == p;
        assert entries[i].0 == a;
      }
      if Has(entries, a) {
        var i :| 0 <= i < |entries| && entries[i].0 == a;
        assert entries[i] in entries;
      }
    }
  }

  method EnforceConstraints(active: TsMap, ghost order: nat, ghost list: seq<Entry>, ghost orders: seq<nat>)
    returns (left: TsMap, ghost ranks: seq<nat>)
    requires Mirrors(active, order, list, orders)
    ensures Mirrors(left, order, Enforced(list), ranks)
  {
    hide *;
    SizeMatches(active, order, list, orders);
    left, ranks := active, orders;
    var limit := |active| + 1;
    ghost var now := list;
    for pass := 0 to limit
      invariant Mirrors(left, order, now, ranks)
      invariant Settle(now, limit - pass) == Enforced(list)
    {
      var victim := FirstViolation(left, order, now, ranks);
      SettleStep(now, limit - pass);
      if victim.None? {
        return;
      }
      MirrorsDistinct(left, order, now, ranks);
      var next := DropWithDescendants(left, victim.value);
      MirrorsDrop(left, order, now, ranks, victim.value, next);
      left := next;
      ranks := OrdersDrop(now, ranks, victim.value);
      now := Drop(now, victim.value);
    }
    SettleStep(now, 0);
  }

  lemma MirrorsDistinct(entries: TsMap, order: nat, list: seq<Entry>, orders: seq<nat>)
    requires Mirrors(entries, order, list, orders)
    ensures KeysDistinct(entries) && |orders| == |list|
  {
  }

  lemma SizeMatches(active: TsMap, order: nat, list: seq<Entry>, orders: seq<nat>)
    requires Mirrors(active, order, list, orders)
    ensures Enforced(list) == Settle(list, |active| + 1)
  {
    MirrorsKeys(active, order, list, orders);
    KeysSize(active);
    AddrsSize(list);
  }

  /** The window shows the addresses of `ResolveActive`, for every model and every selection and with
      ids of any shape, if and only if no top-level group with options has, with nothing saved for it,
      the name of an inherited property; if one has, the resolver throws. */
  method ActiveAddresses(groups: seq<Group>, saved: Saved, inherited: set<string>) returns (addrs: Option<set<string>>)
    requires Plain(inherited)
    ensures addrs == if SomeThrows(groups, saved, inherited) then None else Some(Addrs(Resolved(groups, saved)))
  {
    hide *;
    NothingMirrored();
    var none: TsMap := [];
    ghost var noEntries: seq<Entry> := [];
    ghost var noOrders: seq<nat> := [];
    var thrown, active, order, ranks := Walk(groups, "", saved, inherited, none, 0, noEntries, noOrders);
    if thrown {
      return None;
    }
    WalkedTop(groups, saved, noEntries);
    var left, final := EnforceConstraints(active, order, WalkTop(groups, saved, noEntries), ranks);
    MirrorsKeys(left, order, Enforced(WalkTop(groups, saved, noEntries)), final);
    addrs := Some(Keys(left));
    ResolvedIs(groups, saved);
  }

  /** A build whose only group is called `constructor`: the launcher takes the default, the window's
      resolver throws. */
  lemma ConstructorThrows(groups: seq<Group>, inherited: set<string>)
    requires groups == [Group("constructor", Multi, false, [Feature("a", true, Effects([], [], [], [], [], []), [])])]
    requires "constructor" in inherited
    ensures SomeThrows(groups, map[], inherited)
    ensures "constructor#a" in Addrs(Resolved(groups, map[]))
  {
    hide Resolved, Addrs;
    assert Throws(groups[0], groups[0].id, map[], inherited);
    var e := Entry("constructor#a", Effects([], [], [], [], [], []));
    OnlyOption(groups, e);
    OneIsEnforced(e);
    ResolvedIs(groups, map[]);
    AddrOfOne(e);
  }

  lemma OnlyOption(groups: seq<Group>, e: Entry)
    requires groups == [Group("constructor", Multi, false, [Feature("a", true, e.effects, [])])]
    requires e.addr == "constructor#a"
    ensures WalkTop(groups, map[], []) == [e]
  {
    var option := groups[0].options[0];
    assert groups[1..] == [] && groups[0].options[1..] == [];
    assert DefaultIds(groups[0].options) == ["a"];
    assert OptionAddr("constructor", "a") == e.addr;
    assert Put([], e) == [e];
    assert WalkSubs([], e.addr, map[], [e]) == [e];
    assert WalkOption(option, ["a"], "constructor", map[], []) == [e];
    assert WalkOptions([], ["a"], "constructor", map[], [e]) == [e];
    assert WalkOptions(groups[0].options, ["a"], "constructor", map[], []) == [e];
    assert WalkGroup(groups[0], "constructor", map[], []) == [e];
  }

  lemma OneIsEnforced(e: Entry)
    requires e.effects.needs == []
    ensures Enforced([e]) == [e]
  {
    assert Victim([e]).None?;
  }

  lemma AddrOfOne(e: Entry)
    ensures e.addr in Addrs([e])
  {
    assert e in [e];
  }

  lemma NothingMirrored()
    ensures Mirrors([], 0, [], [])
  {
  }

  lemma WalkedTop(groups: seq<Group>, saved: Saved, list: seq<Entry>)
    ensures Walked(groups, "", saved, list) == WalkTop(groups, saved, list)
  {
  }

  lemma ResolvedIs(groups: seq<Group>, saved: Saved)
    ensures Resolved(groups, saved) == Enforced(WalkTop(groups, saved, []))
  {
  }
}
