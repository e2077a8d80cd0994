/** What the constraint loop of the feature resolver computes. */
module FeatureLaws {
  import opened FeatureModel

  // ---- The loop ends because nothing violates a constraint ----

  lemma VictimIn(list: seq<Entry>)
    requires Victim(list).Some?
    ensures Holds(list, list[Victim(list).value].addr)
  {
  }

  lemma SettleStep(list: seq<Entry>, passes: nat)
    ensures passes == 0 || Victim(list).None? ==> Settle(list, passes) == list
    ensures passes != 0 && Victim(list).Some? ==>
              Settle(list, passes) == Settle(Drop(list, list[Victim(list).value].addr), passes - 1)
  {
  }

  /** One pass more than there are options is never used up. */
  lemma {:induction false} NeverOutOfPasses(list: seq<Entry>, passes: nat)
    requires passes > |list|
    ensures Victim(Settle(list, passes)).None?
    ensures Settle(list, passes) == Settle(list, passes + 1)
    decreases passes
  {
    hide Settle, Victim, Drop;
    SettleStep(list, passes);
    SettleStep(list, passes + 1);
    if Victim(list).Some? {
      var victim := list[Victim(list).value].addr;
      VictimIn(list);
      DropKeeps(list, victim);
      NeverOutOfPasses(Drop(list, victim), passes - 1);
    }
  }

  // ---- What every pass keeps ----

  lemma UnderTransitive(a: string, b: string, c: string)
    requires Under(a, b) && Under(b, c)
    ensures Under(a, c)
  {
    assert c + "/" <= b <= b + "/" <= a;
  }

  /** With an option its ancestors among the options first found are active. */
  ghost predicate ParentClosed(list: seq<Entry>, all: seq<Entry>) {
    forall e, p :: e in list && p in all && Under(e.addr, p.addr) ==> p in list
  }

  ghost predicate Within(list: seq<Entry>, all: seq<Entry>) {
    forall e :: e in list ==> e in all
  }

  lemma DropParentClosed(list: seq<Entry>, all: seq<Entry>, victim: string)
    requires ParentClosed(list, all) && Within(list, all)
    ensures ParentClosed(Drop(list, victim), all) && Within(Drop(list, victim), all)
  {
    DropKeeps(list, victim);
    var rest := Drop(list, victim);
    forall e, p | e in rest && p in all && Under(e.addr, p.addr)
      ensures p in rest
    {
      if Dropped(p.addr, victim) && p.addr != victim {
        UnderTransitive(e.addr, p.addr, victim);
      }
    }
  }

  lemma {:induction false} SettleKeeps(list: seq<Entry>, all: seq<Entry>, passes: nat)
    requires ParentClosed(list, all) && Within(list, all) && Distinct(list)
    ensures var end := Settle(list, passes); ParentClosed(end, all) && Within(end, all) && Distinct(end)
    decreases passes
  {
    hide ParentClosed, Within, Distinct, Victim;
    if passes != 0 && Victim(list).Some? {
      var victim := list[Victim(list).value].addr;
      DropParentClosed(list, all, victim);
      DropKeeps(list, victim);
      SettleKeeps(Drop(list, victim), all, passes - 1);
    }
  }

  /** The result is closed under needs and ancestors, and nothing in it conflicts. */
  lemma EnforcedIsConsistent(list: seq<Entry>)
    requires Distinct(list)
    ensures var end := Enforced(list);
            && Within(end, list) && Distinct(end) && ParentClosed(end, list)
            && (forall e, i :: e in end && 0 <= i < |e.effects.needs| ==> Holds(end, e.effects.needs[i]))
            && (forall i, j :: 0 <= j < i < |end| ==> !Conflict(end[i], end[j]))
  {
    var end := Enforced(list);
    SettleKeeps(list, list, |list| + 1);
    NeverOutOfPasses(list, |list| + 1);
    forall e, i | e in end && 0 <= i < |e.effects.needs|
      ensures Holds(end, e.effects.needs[i])
    {
      var k :| 0 <= k < |end| && end[k] == e;
      assert !Unmet(end, end[k]);
    }
    forall i, j | 0 <= j < i < |end|
      ensures !Conflict(end[i], end[j])
    {
      assert !Clashes(end, i);
    }
  }

  // ---- Without conflicts the result is the greatest consistent set ----

  /** No two different options conflict; what an option says of itself, the loop never asks. */
  ghost predicate NoConflicts(list: seq<Entry>) {
    forall a, b :: a in list && b in list && a != b ==> !Conflict(a, b)
  }

  /** A set of addresses closed under the needs and the ancestors of the options found. */
  ghost predicate Closed(chosen: set<string>, all: seq<Entry>) {
    && (forall a :: a in chosen ==> Holds(all, a))
    && (forall e, i :: e in all && e.addr in chosen && 0 <= i < |e.effects.needs| ==> e.effects.needs[i] in chosen)
    && (forall e, p :: e in all && p in all && e.addr in chosen && Under(e.addr, p.addr) ==> p.addr in chosen)
  }

  ghost predicate Includes(list: seq<Entry>, chosen: set<string>) {
    forall a :: a in chosen ==> Holds(list, a)
  }

  /** Dropping an option that lacks a need never touches a closed set. */
  lemma DropSparesClosed(list: seq<Entry>, all: seq<Entry>, chosen: set<string>, victim: Entry)
    requires Within(list, all) && Closed(chosen, all) && Includes(list, chosen)
    requires victim in list && Unmet(list, victim)
    ensures Includes(Drop(list, victim.addr), chosen)
  {
    var i :| 0 <= i < |victim.effects.needs| && !Holds(list, victim.effects.needs[i]);
    assert victim.addr !in chosen;
    DropKeeps(list, victim.addr);
    forall a | a in chosen
      ensures Holds(Drop(list, victim.addr), a)
    {
      var k :| 0 <= k < |list| && list[k].addr == a;
      assert list[k] in Drop(list, victim.addr);
    }
  }

  lemma {:induction false} SettleSparesClosed(list: seq<Entry>, all: seq<Entry>, chosen: set<string>, passes: nat)
    requires Within(list, all) && NoConflicts(all) && Closed(chosen, all) && Includes(list, chosen) && Distinct(list)
    ensures Includes(Settle(list, passes), chosen)
    decreases passes
  {
    hide Settle, Drop;
    SettleStep(list, passes);
    if passes != 0 && Victim(list).Some? {
      var k := Victim(list).value;
      NoClash(list, all);
      assert Unmet(list, list[k]);
      hide Victim, FirstUnmet, FirstClash, Closed, NoConflicts, Unmet, Includes, Within, Distinct;
      DropKeeps(list, list[k].addr);
      VictimWithin(list, all, k);
      DropSparesClosed(list, all, chosen, list[k]);
      SettleSparesClosed(Drop(list, list[k].addr), all, chosen, passes - 1);
    }
  }

  lemma VictimWithin(list: seq<Entry>, all: seq<Entry>, k: nat)
    requires Within(list, all) && k < |list|
    ensures list[k] in list && Within(Drop(list, list[k].addr), all)
  {
    DropKeeps(list, list[k].addr);
  }

  lemma NoClash(list: seq<Entry>, all: seq<Entry>)
    requires Within(list, all) && NoConflicts(all) && Distinct(list)
    ensures FirstClash(list, 0).None?
  {
    forall i, j | 0 <= j < i < |list|
      ensures !Conflict(list[i], list[j])
    {
      assert list[i] in list && list[j] in list;
    }
  }

  function Addrs(list: seq<Entry>): set<string> {
    set e | e in list :: e.addr
  }

  /** The active addresses are themselves closed, and every closed set is among them: the
      loop computes the greatest closed set. */
  lemma GreatestClosed(list: seq<Entry>)
    requires Distinct(list) && NoConflicts(list)
    ensures Closed(Addrs(Enforced(list)), list)
    ensures forall chosen :: Closed(chosen, list) ==> chosen <= Addrs(Enforced(list))
  {
    var end := Enforced(list);
    EnforcedIsConsistent(list);
    AddrsClosed(end, list);
    forall chosen | Closed(chosen, list)
      ensures chosen <= Addrs(end)
    {
      SettleSparesClosed(list, list, chosen, |list| + 1);
      forall a | a in chosen
        ensures a in Addrs(end)
      {
        var k :| 0 <= k < |end| && end[k].addr == a;
        assert end[k] in end;
      }
    }
  }

  lemma HoldsIsAddr(list: seq<Entry>, a: string)
    ensures Holds(list, a) <==> a in Addrs(list)
  {
    if Holds(list, a) {
      var k :| 0 <= k < |list| && list[k].addr == a;
      assert list[k] in list;
    }
  }

  lemma AddrsClosed(end: seq<Entry>, all: seq<Entry>)
    requires Distinct(all) && Within(end, all) && ParentClosed(end, all)
    requires forall e, i :: e in end && 0 <= i < |e.effects.needs| ==> Holds(end, e.effects.needs[i])
    ensures Closed(Addrs(end), all)
  {
    var chosen := Addrs(end);
    forall e | e in all && e.addr in chosen
      ensures e in end
    {
      var x :| x in end && x.addr == e.addr;
      SameAddr(all, x, e);
    }
    forall a | a in chosen
      ensures Holds(all, a)
    {
      var x :| x in end && x.addr == a;
      HoldsIsAddr(all, a);
    }
    forall e, i | e in all && e.addr in chosen && 0 <= i < |e.effects.needs|
      ensures e.effects.needs[i] in chosen
    {
      HoldsIsAddr(end, e.effects.needs[i]);
    }
  }

  lemma SameAddr(list: seq<Entry>, x: Entry, y: Entry)
    requires Distinct(list) && x in list && y in list && x.addr == y.addr
    ensures x == y
  {
    var i :| 0 <= i < |list| && list[i] == x;
    var j :| 0 <= j < |list| && list[j] == y;
  }

  /** Some order of dropping options that lack a need, down to a list where none does. */
  ghost predicate DropRun(list: seq<Entry>, victims: seq<Entry>, end: seq<Entry>)
    decreases |victims|
  {
    if victims == [] then
      list == end && forall i :: 0 <= i < |list| ==> !Unmet(list, list[i])
    else
      victims[0] in list && Unmet(list, victims[0]) && DropRun(Drop(list, victims[0].addr), victims[1..], end)
  }

  lemma {:induction false} RunKeeps(list: seq<Entry>, all: seq<Entry>, victims: seq<Entry>, end: seq<Entry>,
                                    chosen: set<string>)
    requires ParentClosed(list, all) && Within(list, all) && Closed(chosen, all) && Includes(list, chosen)
    requires DropRun(list, victims, end)
    ensures ParentClosed(end, all) && Within(end, all) && Includes(end, chosen)
    ensures forall i :: 0 <= i < |end| ==> !Unmet(end, end[i])
    decreases |victims|
  {
    hide ParentClosed, Within, Closed, Includes, Unmet;
    if victims != [] {
      DropParentClosed(list, all, victims[0].addr);
      DropSparesClosed(list, all, chosen, victims[0]);
      RunKeeps(Drop(list, victims[0].addr), all, victims[1..], end, chosen);
    }
  }

  /** Whatever order the violating options are dropped in, the same ones remain. */
  lemma AnyOrderAgrees(list: seq<Entry>, victims: seq<Entry>, end: seq<Entry>)
    requires Distinct(list) && NoConflicts(list) && DropRun(list, victims, end)
    ensures Addrs(end) == Addrs(Enforced(list))
  {
    var best := Addrs(Enforced(list));
    GreatestClosed(list);
    forall a | a in best
      ensures Holds(list, a)
    {
    }
    RunKeeps(list, list, victims, end, best);
    forall a | a in best
      ensures a in Addrs(end)
    {
      HoldsIsAddr(end, a);
    }
    forall e, i | e in end && 0 <= i < |e.effects.needs|
      ensures Holds(end, e.effects.needs[i])
    {
      var k :| 0 <= k < |end| && end[k] == e;
      assert !Unmet(end, end[k]);
    }
    AddrsClosed(end, list);
  }

  // ---- Who survives when there are conflicts ----

  /** `a` stands before `b`. */
  ghost predicate Before(list: seq<Entry>, a: Entry, b: Entry) {
    list != [] && ((list[0] == a && b in list[1..]) || Before(list[1..], a, b))
  }

  lemma {:induction false} IndexBefore(list: seq<Entry>, j: nat, i: nat)
    requires j < i < |list|
    ensures Before(list, list[j], list[i])
  {
    if j == 0 {
      assert list[1..][i - 1] == list[i];
    } else {
      IndexBefore(list[1..], j - 1, i - 1);
    }
  }

  lemma {:induction false} DropOrder(list: seq<Entry>, victim: string, a: Entry, b: Entry)
    requires Before(Drop(list, victim), a, b)
    ensures Before(list, a, b)
  {
    hide Dropped;
    if list != [] {
      var rest := Drop(list[1..], victim);
      DropKeeps(list[1..], victim);
      if Dropped(list[0].addr, victim) {
        assert Drop(list, victim) == rest;
        DropOrder(list[1..], victim, a, b);
      } else {
        assert Drop(list, victim) == [list[0]] + rest;
        assert ([list[0]] + rest)[1..] == rest;
        if Before(rest, a, b) {
          DropOrder(list[1..], victim, a, b);
        }
      }
    }
  }

  /** Needs nothing and conflicts with nothing declared before it. */
  ghost predicate Carefree(all: seq<Entry>, x: Entry) {
    x.effects.needs == [] && forall y :: Before(all, y, x) ==> !Conflict(x, y)
  }

  /** `e` and its ancestors. */
  ghost predicate CarefreeLine(all: seq<Entry>, e: Entry) {
    forall x :: x in all && Dropped(e.addr, x.addr) ==> Carefree(all, x)
  }

  ghost predicate SameOrder(list: seq<Entry>, all: seq<Entry>) {
    forall a, b :: Before(list, a, b) ==> Before(all, a, b)
  }

  lemma VictimIsNotCarefree(list: seq<Entry>, all: seq<Entry>)
    requires SameOrder(list, all) && Victim(list).Some?
    ensures !Carefree(all, list[Victim(list).value])
  {
    var i := Victim(list).value;
    if !Unmet(list, list[i]) {
      assert Clashes(list, i);
      var j :| 0 <= j < i && Conflict(list[i], list[j]);
      IndexBefore(list, j, i);
    }
  }

  lemma {:induction false} SurvivesPasses(list: seq<Entry>, all: seq<Entry>, e: Entry, passes: nat)
    requires Within(list, all) && SameOrder(list, all) && CarefreeLine(all, e) && e in list
    ensures e in Settle(list, passes)
    decreases passes
  {
    hide Settle, Victim, Before, Drop;
    SettleStep(list, passes);
    if passes != 0 && Victim(list).Some? {
      var victim := list[Victim(list).value];
      VictimIsNotCarefree(list, all);
      hide Carefree, Dropped;
      assert victim in list && victim in all;
      DropKeeps(list, victim.addr);
      forall a, b | Before(Drop(list, victim.addr), a, b)
        ensures Before(all, a, b)
      {
        DropOrder(list, victim.addr, a, b);
      }
      SurvivesPasses(Drop(list, victim.addr), all, e, passes - 1);
    }
  }

  /** An option survives when it and its ancestors need nothing and conflict with nothing
      declared before them, whatever happens to the others. */
  lemma CarefreeSurvives(list: seq<Entry>, e: Entry)
    requires e in list && CarefreeLine(list, e)
    ensures e in Enforced(list)
  {
    SurvivesPasses(list, list, e, |list| + 1);
  }

  // ---- Declaration order ----

  /** The entries of a list with an address in `keep`. */
  function Only(list: seq<Entry>, keep: set<string>): seq<Entry> {
    if list == [] then []
    else (if list[0].addr in keep then [list[0]] else []) + Only(list[1..], keep)
  }

  lemma {:induction false} DropIsOnly(list: seq<Entry>, all: set<string>, victim: string)
    requires Addrs(list) <= all
    ensures Drop(list, victim) == Only(list, set a | a in all && !Dropped(a, victim))
  {
    if list != [] {
      assert list[0] in list;
      forall a | a in Addrs(list[1..])
        ensures a in Addrs(list)
      {
        var x :| x in list[1..] && x.addr == a;
        assert x in list;
      }
      DropIsOnly(list[1..], all, victim);
    }
  }

  lemma {:induction false} OnlyOnly(list: seq<Entry>, a: set<string>, b: set<string>)
    requires b <= a
    ensures Only(Only(list, a), b) == Only(list, b)
  {
    if list != [] {
      OnlyOnly(list[1..], a, b);
      var rest := Only(list[1..], a);
      if list[0].addr in a {
        assert Only(list, a) == [list[0]] + rest;
        assert ([list[0]] + rest)[1..] == rest;
      } else {
        assert Only(list, a) == rest;
        assert list[0].addr !in b;
      }
    }
  }

  lemma {:induction false} OnlyAll(list: seq<Entry>, keep: set<string>)
    requires Addrs(list) <= keep
    ensures Only(list, keep) == list
  {
    if list != [] {
      assert list[0] in list;
      forall a | a in Addrs(list[1..])
        ensures a in keep
      {
        var x :| x in list[1..] && x.addr == a;
        assert x in list;
      }
      OnlyAll(list[1..], keep);
    }
  }

  lemma OnlyOfDrop(list: seq<Entry>, victim: string, keep: set<string>)
    requires keep <= Addrs(Drop(list, victim))
    ensures Only(Drop(list, victim), keep) == Only(list, keep) && keep <= Addrs(list)
  {
    DropMembers(list, victim);
    DropIsOnly(list, Addrs(list), victim);
    var kept := set a | a in Addrs(list) && !Dropped(a, victim);
    hide Dropped;
    OnlyOnly(list, kept, keep);
  }

  /** The active options are listed as the walk found them: the loop only leaves some out. */
  lemma {:induction false} SettleIsOnly(list: seq<Entry>, passes: nat)
    ensures Settle(list, passes) == Only(list, Addrs(Settle(list, passes)))
    ensures Addrs(Settle(list, passes)) <= Addrs(list)
    decreases passes
  {
    hide Settle, Victim, Drop, Only, Addrs;
    SettleStep(list, passes);
    if passes != 0 && Victim(list).Some? {
      var victim := list[Victim(list).value].addr;
      var next := Drop(list, victim);
      SettleIsOnly(next, passes - 1);
      OnlyOfDrop(list, victim, Addrs(Settle(next, passes - 1)));
    } else {
      OnlyAll(list, Addrs(list));
    }
  }

  lemma {:induction false} AddrsSize(list: seq<Entry>)
    requires Distinct(list)
    ensures |Addrs(list)| == |list|
  {
    if list != [] {
      var rest := list[1..];
      AddrsSize(rest);
      assert list == [list[0]] + rest;
      forall a
        ensures a in Addrs(list) <==> a == list[0].addr || a in Addrs(rest)
      {
        if a in Addrs(rest) {
          var x :| x in rest && x.addr == a;
          assert x in list;
        }
      }
      assert Addrs(list) == {list[0].addr} + Addrs(rest);
      HoldsIsAddr(rest, list[0].addr);
    }
  }
}
