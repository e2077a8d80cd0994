/** Optional features of a build: the tree of groups and options, what a saved selection
    makes of each group, and the order in which active options are found
    (client/core/src/features.rs; the window repeats it in client/src/lib/features.ts).

    The specification keeps the active options as a list in that order. */
module FeatureModel {
  import opened Wrappers

  datatype Selection = Single | Multi

  datatype Group = Group(id: string, selection: Selection, required: bool, options: seq<Feature>)

  datatype Feature = Feature(id: string, defaultEnabled: bool, effects: Effects, groups: seq<Group>)

  /** What an active option brings: `needs` and `conflicts` hold addresses of other options. */
  datatype Effects = Effects(files: seq<string>, needs: seq<string>, conflicts: seq<string>,
                             jvmArgs: seq<string>, gameArgs: seq<string>, classpath: seq<string>)

  type Saved = map<string, seq<string>>

  datatype Entry = Entry(addr: string, effects: Effects)

  // ---- Choosing within one group ----

  function Ids(options: seq<Feature>): seq<string> {
    if options == [] then [] else [options[0].id] + Ids(options[1..])
  }

  function Kept(ids: seq<string>, saved: seq<string>): seq<string> {
    if ids == [] then []
    else (if ids[0] in saved then [ids[0]] else []) + Kept(ids[1..], saved)
  }

  function DefaultIds(options: seq<Feature>): seq<string> {
    if options == [] then []
    else (if options[0].defaultEnabled then [options[0].id] else []) + DefaultIds(options[1..])
  }

  function FirstDefault(options: seq<Feature>): Option<string> {
    if options == [] then None
    else if options[0].defaultEnabled then Some(options[0].id)
    else FirstDefault(options[1..])
  }

  function FirstOption(options: seq<Feature>): Option<string> {
    if options == [] then None else Some(options[0].id)
  }

  function DefaultOrFirst(group: Group): Option<string> {
    var preset := FirstDefault(group.options);
    if preset.Some? then preset else FirstOption(group.options)
  }

  function AsList(id: Option<string>): seq<string> {
    if id.Some? then [id.value] else []
  }

  function Defaults(group: Group): seq<string> {
    if group.selection.Single? then
      if FirstDefault(group.options).Some? then [FirstDefault(group.options).value]
      else if group.required then AsList(FirstOption(group.options))
      else []
    else DefaultIds(group.options)
  }

  function Effective(group: Group, addr: string, saved: Saved): seq<string> {
    if addr !in saved then Defaults(group)
    else
      var ids := Kept(Ids(group.options), saved[addr]);
      if group.selection.Multi? then ids
      else
        var one := if |ids| > 1 then ids[..1] else ids;
        if one == [] && group.required then AsList(DefaultOrFirst(group)) else one
  }

  // ---- Finding the active options ----

  function Without(list: seq<Entry>, addr: string): seq<Entry> {
    if list == [] then []
    else (if list[0].addr == addr then [] else [list[0]]) + Without(list[1..], addr)
  }

  /** A repeated address takes the place of the earlier one and its turn at the end. */
  function Put(list: seq<Entry>, e: Entry): seq<Entry> {
    Without(list, e.addr) + [e]
  }

  function OptionAddr(groupAddr: string, id: string): string { groupAddr + "#" + id }

  function SubAddr(optionAddr: string, id: string): string { optionAddr + "/" + id }

  function WalkGroup(group: Group, addr: string, saved: Saved, list: seq<Entry>): seq<Entry>
    decreases group, 1
  {
    WalkOptions(group.options, Effective(group, addr, saved), addr, saved, list)
  }

  function WalkOptions(options: seq<Feature>, chosen: seq<string>, addr: string, saved: Saved,
                       list: seq<Entry>): seq<Entry>
    decreases options, 0
  {
    if options == [] then list
    else
      var option := options[0];
      WalkOptions(options[1..], chosen, addr, saved, WalkOption(option, chosen, addr, saved, list))
  }

  function WalkOption(option: Feature, chosen: seq<string>, addr: string, saved: Saved, list: seq<Entry>): seq<Entry>
    decreases option, 1
  {
    if option.id !in chosen then list
    else
      var optionAddr := OptionAddr(addr, option.id);
      WalkSubs(option.groups, optionAddr, saved, Put(list, Entry(optionAddr, option.effects)))
  }

  function WalkSubs(groups: seq<Group>, optionAddr: string, saved: Saved, list: seq<Entry>): seq<Entry>
    decreases groups, 0
  {
    if groups == [] then list
    else
      WalkSubs(groups[1..], optionAddr, saved,
               WalkGroup(groups[0], SubAddr(optionAddr, groups[0].id), saved, list))
  }

  function WalkTop(groups: seq<Group>, saved: Saved, list: seq<Entry>): seq<Entry> {
    if groups == [] then list
    else WalkTop(groups[1..], saved, WalkGroup(groups[0], groups[0].id, saved, list))
  }

  // ---- Dropping what breaks a constraint ----

  predicate Holds(list: seq<Entry>, addr: string) {
    exists i :: 0 <= i < |list| && list[i].addr == addr
  }

  predicate Unmet(list: seq<Entry>, e: Entry) {
    exists i :: 0 <= i < |e.effects.needs| && !Holds(list, e.effects.needs[i])
  }

  predicate Conflict(a: Entry, b: Entry) {
    b.addr in a.effects.conflicts || a.addr in b.effects.conflicts
  }

  /** The first option, from `i` on, that needs an inactive one. */
  function FirstUnmet(list: seq<Entry>, i: nat): (r: Option<nat>)
    requires i <= |list|
    ensures r.Some? ==> i <= r.value < |list| && Unmet(list, list[r.value])
    ensures r.Some? ==> forall k :: i <= k < r.value ==> !Unmet(list, list[k])
    ensures r.None? ==> forall k :: i <= k < |list| ==> !Unmet(list, list[k])
    decreases |list| - i
  {
    if i == |list| then None else if Unmet(list, list[i]) then Some(i) else FirstUnmet(list, i + 1)
  }

  predicate Clashes(list: seq<Entry>, i: nat)
    requires i < |list|
  {
    exists j :: 0 <= j < i && Conflict(list[i], list[j])
  }

  /** The first option, from `i` on, that conflicts with one declared before it. */
  function FirstClash(list: seq<Entry>, i: nat): (r: Option<nat>)
    requires i <= |list|
    ensures r.Some? ==> i <= r.value < |list| && Clashes(list, r.value)
    ensures r.Some? ==> forall k :: i <= k < r.value ==> !Clashes(list, k)
    ensures r.None? ==> forall k :: i <= k < |list| ==> !Clashes(list, k)
    decreases |list| - i
  {
    if i == |list| then None else if Clashes(list, i) then Some(i) else FirstClash(list, i + 1)
  }

  /** Missing needs come first, conflicts only when nothing is missing. */
  function Victim(list: seq<Entry>): (r: Option<nat>)
    ensures r.Some? ==> r.value < |list|
  {
    var unmet := FirstUnmet(list, 0);
    if unmet.Some? then unmet else FirstClash(list, 0)
  }

  predicate Under(addr: string, ancestor: string) {
    ancestor + "/" <= addr
  }

  predicate Dropped(addr: string, victim: string) {
    addr == victim || Under(addr, victim)
  }

  function Drop(list: seq<Entry>, victim: string): (r: seq<Entry>)
    ensures |r| <= |list|
  {
    if list == [] then []
    else (if Dropped(list[0].addr, victim) then [] else [list[0]]) + Drop(list[1..], victim)
  }

  function Settle(list: seq<Entry>, passes: nat): seq<Entry>
    decreases passes
  {
    if passes == 0 || Victim(list).None? then list
    else Settle(Drop(list, list[Victim(list).value].addr), passes - 1)
  }

  function Enforced(list: seq<Entry>): seq<Entry> { Settle(list, |list| + 1) }

  /** The active options of a model under a saved selection, in declaration order. */
  function Resolved(groups: seq<Group>, saved: Saved): seq<Entry> {
    Enforced(WalkTop(groups, saved, []))
  }

  // ---- Lists without repeated addresses ----

  ghost predicate Distinct(list: seq<Entry>) {
    forall i, j :: 0 <= i < j < |list| ==> list[i].addr != list[j].addr
  }

  lemma {:induction false} WithoutMembers(list: seq<Entry>, addr: string)
    ensures forall e :: e in Without(list, addr) <==> e in list && e.addr != addr
  {
    if list != [] {
      WithoutMembers(list[1..], addr);
      assert list == [list[0]] + list[1..];
    }
  }

  lemma {:induction false} WithoutDistinct(list: seq<Entry>, addr: string)
    requires Distinct(list)
    ensures Distinct(Without(list, addr))
  {
    if list != [] {
      WithoutDistinct(list[1..], addr);
      WithoutMembers(list[1..], addr);
      HeadDistinct(list, Without(list[1..], addr));
    }
  }

  /** The head of a list without repetitions goes with any part of its tail. */
  lemma HeadDistinct(list: seq<Entry>, rest: seq<Entry>)
    requires Distinct(list) && list != [] && Distinct(rest)
    requires forall e :: e in rest ==> e in list[1..]
    ensures Distinct([list[0]] + rest)
  {
    forall j | 0 <= j < |rest|
      ensures rest[j].addr != list[0].addr
    {
      assert rest[j] in list[1..];
    }
  }

  lemma {:induction false} DropMembers(list: seq<Entry>, victim: string)
    ensures forall e :: e in Drop(list, victim) <==> e in list && !Dropped(e.addr, victim)
  {
    hide Dropped;
    if list != [] {
      DropMembers(list[1..], victim);
      assert list == [list[0]] + list[1..];
    }
  }

  lemma {:induction false} DropDistinct(list: seq<Entry>, victim: string)
    requires Distinct(list)
    ensures Distinct(Drop(list, victim))
  {
    hide Dropped;
    if list != [] {
      DropDistinct(list[1..], victim);
      DropMembers(list[1..], victim);
      HeadDistinct(list, Drop(list[1..], victim));
    }
  }

  lemma {:induction false} DropShrinks(list: seq<Entry>, victim: string)
    requires Holds(list, victim)
    ensures |Drop(list, victim)| < |list|
  {
    DropsItself(victim);
    hide Dropped;
    if list[0].addr != victim {
      var i :| 0 <= i < |list| && list[i].addr == victim;
      assert list[1..][i - 1].addr == victim;
      DropShrinks(list[1..], victim);
    }
  }

  lemma DropKeeps(list: seq<Entry>, victim: string)
    ensures forall e :: e in Drop(list, victim) <==> e in list && !Dropped(e.addr, victim)
    ensures Distinct(list) ==> Distinct(Drop(list, victim))
    ensures Holds(list, victim) ==> |Drop(list, victim)| < |list|
  {
    DropMembers(list, victim);
    if Distinct(list) {
      DropDistinct(list, victim);
    }
    if Holds(list, victim) {
      DropShrinks(list, victim);
    }
  }

  lemma DropsItself(victim: string)
    ensures Dropped(victim, victim)
  {
  }

  lemma PutDistinct(list: seq<Entry>, e: Entry)
    requires Distinct(list)
    ensures Distinct(Put(list, e))
    ensures forall x :: x in Put(list, e) <==> x == e || (x in list && x.addr != e.addr)
  {
    WithoutMembers(list, e.addr);
    WithoutDistinct(list, e.addr);
    hide Without;
    var rest := Without(list, e.addr);
    forall i | 0 <= i < |rest|
      ensures rest[i].addr != e.addr
    {
      assert rest[i] in rest;
    }
  }
}
