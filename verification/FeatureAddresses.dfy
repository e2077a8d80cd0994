/** Addresses of options: the string a path through the tree of groups and options is
    written as, and what dropping by string prefix means in the tree. */
module FeatureAddresses {
  import opened FeatureModel
  import opened FeatureLaws

  /** A path names, level by level, a group and one of its options. */
  type Path = seq<(string, string)>

  function Segment(step: (string, string)): string { step.0 + "#" + step.1 }

  function Addr(path: Path): string
    requires path != []
  {
    if |path| == 1 then Segment(path[0]) else Segment(path[0]) + "/" + Addr(path[1..])
  }

  ghost predicate CleanId(id: string) {
    '/' !in id && '#' !in id
  }

  ghost predicate Clean(path: Path) {
    forall i :: 0 <= i < |path| ==> CleanId(path[i].0) && CleanId(path[i].1)
  }

  // ---- Reading an address back ----

  predicate StartsAt(x: string, sep: char) { x == "" || x[0] == sep }

  /** The length of the text before the first separator. */
  function Cut(text: string, sep: char): nat {
    if text == "" || text[0] == sep then 0 else 1 + Cut(text[1..], sep)
  }

  lemma {:induction false} CutIs(text: string, k: nat, sep: char)
    requires k <= |text| && sep !in text[..k] && StartsAt(text[k..], sep)
    ensures Cut(text, sep) == k
  {
    if k > 0 {
      assert text[0] == text[..k][0];
      assert text[1..][..k - 1] == text[..k][1..] && text[1..][k - 1..] == text[k..];
      CutIs(text[1..], k - 1, sep);
    }
  }

  /** A beginning of a text that reaches up to its first separator. */
  ghost predicate UpTo(word: string, text: string, sep: char) {
    word <= text && sep !in word && StartsAt(text[|word|..], sep)
  }

  lemma OneBeginning(a: string, b: string, text: string, sep: char)
    requires UpTo(a, text, sep) && UpTo(b, text, sep)
    ensures a == b
  {
    assert a == text[..|a|] && b == text[..|b|];
    CutIs(text, |a|, sep);
    CutIs(text, |b|, sep);
  }

  /** What follows the first level of an address: nothing, or a slash and the rest. */
  function After(path: Path): string
    requires path != []
  {
    if |path| == 1 then "" else "/" + Addr(path[1..])
  }

  function Width(step: (string, string)): nat { |step.0| + 1 + |step.1| }

  lemma FirstLevel(path: Path)
    requires path != []
    ensures var text, g, o := Addr(path), path[0].0, path[0].1;
      && |text| == Width(path[0]) + |After(path)|
      && text[..|g|] == g && text[|g|] == '#'
      && text[|g| + 1..Width(path[0])] == o
      && text[Width(path[0])..] == After(path)
      && StartsAt(After(path), '/')
  {
    var g, o := path[0].0, path[0].1;
    assert Addr(path) == g + "#" + o + After(path);
  }

  /** `path` is written at the beginning of `text` and a level ends there. */
  ghost predicate Written(path: Path, text: string)
    requires path != []
  {
    Addr(path) <= text && StartsAt(text[|Addr(path)|..], '/')
  }

  lemma WrittenLevel(path: Path, text: string)
    requires path != [] && Clean(path) && Written(path, text)
    ensures Width(path[0]) <= |text|
    ensures UpTo(path[0].0, text, '#')
    ensures UpTo(path[0].1, text[|path[0].0| + 1..], '/')
    ensures |path| > 1 ==> Width(path[0]) < |text| && Written(path[1..], text[Width(path[0]) + 1..])
  {
    FirstLevel(path);
    var own := Addr(path);
    var g, o, w := path[0].0, path[0].1, Width(path[0]);
    assert own == text[..|own|];
    assert text[..|g|] == own[..|g|] && text[|g|] == own[|g|];
    var rest := text[|g| + 1..];
    assert rest[..|o|] == own[|g| + 1..w];
    assert rest[|o|..] == text[w..];
    if |path| > 1 {
      assert own[w] == '/' && text[w] == own[w];
      assert own[w + 1..] == Addr(path[1..]);
      assert text[w + 1..][..|own| - w - 1] == own[w + 1..];
      assert text[w + 1..][|own| - w - 1..] == text[|own|..];
    }
  }

  /** Of two paths written at the beginning of one text one continues the other. */
  lemma {:induction false} OneContinues(p: Path, q: Path, text: string)
    requires p != [] && q != [] && Clean(p) && Clean(q) && |p| <= |q|
    requires Written(p, text) && Written(q, text)
    ensures q[..|p|] == p
    decreases |p|
  {
    WrittenLevel(p, text);
    WrittenLevel(q, text);
    hide Addr, UpTo, Written;
    OneBeginning(p[0].0, q[0].0, text, '#');
    OneBeginning(p[0].1, q[0].1, text[|p[0].0| + 1..], '/');
    if |p| > 1 {
      OneContinues(p[1..], q[1..], text[Width(p[0]) + 1..]);
      assert q[..|p|] == [q[0]] + q[1..][..|p| - 1];
      assert p == [p[0]] + p[1..];
    }
  }

  lemma {:induction false} AddrExtends(p: Path, q: Path)
    requires p != [] && q != []
    ensures Addr(p + q) == Addr(p) + "/" + Addr(q)
    decreases |p|
  {
    if |p| == 1 {
      assert (p + q)[1..] == q;
    } else {
      assert (p + q)[1..] == p[1..] + q;
      AddrExtends(p[1..], q);
      assert Segment(p[0]) + "/" + (Addr(p[1..]) + "/" + Addr(q)) == Segment(p[0]) + "/" + Addr(p[1..]) + "/" + Addr(q);
    }
  }

  lemma LongerAddr(p: Path, q: Path)
    requires p != [] && |p| < |q| && q[..|p|] == p
    ensures Addr(p) + "/" <= Addr(q)
  {
    AddrExtends(p, q[|p|..]);
    assert q == p + q[|p|..];
  }

  /** With clean ids the string determines the path. */
  lemma AddrInjective(p: Path, q: Path)
    requires p != [] && q != [] && Clean(p) && Clean(q) && Addr(p) == Addr(q)
    ensures p == q
  {
    if |p| <= |q| {
      OneContinues(p, q, Addr(p));
      assert q[..|q|] == q;
      if |p| < |q| {
        LongerAddr(p, q);
      }
    } else {
      OneContinues(q, p, Addr(p));
      LongerAddr(q, p);
    }
  }

  ghost predicate Descends(q: Path, p: Path) {
    |p| < |q| && q[..|p|] == p
  }

  /** Removal by the prefix `addr/` reaches exactly the descendants in the tree. */
  lemma PrefixIsDescent(p: Path, q: Path)
    requires p != [] && q != [] && Clean(p) && Clean(q)
    ensures Under(Addr(q), Addr(p)) <==> Descends(q, p)
  {
    if Descends(q, p) {
      LongerAddr(p, q);
    }
    if Under(Addr(q), Addr(p)) {
      assert Addr(q)[|Addr(p)|..][0] == '/';
      if |p| <= |q| {
        OneContinues(p, q, Addr(q));
        assert q[..|q|] == q;
      } else {
        OneContinues(q, p, Addr(q));
        LongerAddr(q, p);
      }
    }
  }

  // ---- The walk visits tree nodes, ancestors first ----

  /** `path` leads from the top groups down to `option`. */
  ghost predicate Leads(groups: seq<Group>, path: Path, option: Feature)
    decreases |path|
  {
    path != [] &&
    exists g, o ::
      && 0 <= g < |groups| && 0 <= o < |groups[g].options|
      && path[0] == (groups[g].id, groups[g].options[o].id)
      && (if |path| == 1 then groups[g].options[o] == option
          else Leads(groups[g].options[o].groups, path[1..], option))
  }

  lemma {:induction false} LeadsFurther(groups: seq<Group>, path: Path, option: Feature, g: nat, o: nat)
    requires Leads(groups, path, option)
    requires g < |option.groups| && o < |option.groups[g].options|
    ensures var step := (option.groups[g].id, option.groups[g].options[o].id);
            Leads(groups, path + [step], option.groups[g].options[o])
    decreases |path|
  {
    var step := (option.groups[g].id, option.groups[g].options[o].id);
    var g0, o0 :|
      && 0 <= g0 < |groups| && 0 <= o0 < |groups[g0].options|
      && path[0] == (groups[g0].id, groups[g0].options[o0].id)
      && (if |path| == 1 then groups[g0].options[o0] == option
          else Leads(groups[g0].options[o0].groups, path[1..], option));
    assert (path + [step])[1..] == path[1..] + [step];
    if |path| == 1 {
      assert path[1..] + [step] == [step];
      assert Leads(option.groups, [step], option.groups[g].options[o]);
    } else {
      LeadsFurther(groups[g0].options[o0].groups, path[1..], option, g, o);
    }
  }

  /** An option at its place in the tree, every option above it active as well. */
  ghost predicate At(groups: seq<Group>, path: Path, e: Entry, list: seq<Entry>) {
    && (exists option :: Leads(groups, path, option) && option.effects == e.effects)
    && path != [] && Addr(path) == e.addr
    && AncestorsHold(path, list)
  }

  ghost predicate AncestorsHold(path: Path, list: seq<Entry>) {
    forall n :: 1 <= n < |path| ==> Holds(list, Addr(path[..n]))
  }

  ghost predicate Placed(groups: seq<Group>, list: seq<Entry>) {
    forall e :: e in list ==> exists path :: At(groups, path, e, list)
  }

  /** The option a walk has entered: none at the top, else one that is active. */
  ghost predicate Entered(groups: seq<Group>, above: Path, subs: seq<Group>, list: seq<Entry>) {
    if above == [] then subs == groups
    else
      Holds(list, Addr(above)) && AncestorsHold(above, list) &&
      exists option :: Leads(groups, above, option) && option.groups == subs
  }

  function GroupAddr(above: Path, id: string): string {
    if above == [] then id else SubAddr(Addr(above), id)
  }

  lemma OptionPath(above: Path, g: string, o: string)
    ensures Addr(above + [(g, o)]) == OptionAddr(GroupAddr(above, g), o)
  {
    if above == [] {
      assert above + [(g, o)] == [(g, o)];
    } else {
      AddrExtends(above, [(g, o)]);
      assert Addr(above) + "/" + (g + "#" + o) == Addr(above) + "/" + g + "#" + o;
    }
  }

  lemma EnteredLeads(groups: seq<Group>, above: Path, subs: seq<Group>, list: seq<Entry>, g: nat, o: nat)
    requires Entered(groups, above, subs, list)
    requires g < |subs| && o < |subs[g].options|
    ensures Leads(groups, above + [(subs[g].id, subs[g].options[o].id)], subs[g].options[o])
  {
    var step := (subs[g].id, subs[g].options[o].id);
    if above == [] {
      assert above + [step] == [step];
    } else {
      var option :| Leads(groups, above, option) && option.groups == subs;
      LeadsFurther(groups, above, option, g, o);
    }
  }

  /** What each part of the walk keeps. */
  ghost predicate Keeps(groups: seq<Group>, before: seq<Entry>, after: seq<Entry>) {
    && Distinct(after) && Placed(groups, after)
    && forall a :: Holds(before, a) ==> Holds(after, a)
  }

  lemma EnteredStays(groups: seq<Group>, above: Path, subs: seq<Group>, before: seq<Entry>, after: seq<Entry>)
    requires Entered(groups, above, subs, before) && Keeps(groups, before, after)
    ensures Entered(groups, above, subs, after)
  {
  }

  lemma KeepsTransitive(groups: seq<Group>, a: seq<Entry>, b: seq<Entry>, c: seq<Entry>)
    requires Keeps(groups, a, b) && Keeps(groups, b, c)
    ensures Keeps(groups, a, c)
  {
    hide Placed, Distinct, Holds;
  }

  lemma PutKeeps(groups: seq<Group>, list: seq<Entry>, path: Path, option: Feature)
    requires Distinct(list) && Placed(groups, list)
    requires path != [] && Leads(groups, path, option)
    requires AncestorsHold(path, list)
    ensures var e := Entry(Addr(path), option.effects);
            Keeps(groups, list, Put(list, e)) && Holds(Put(list, e), e.addr)
  {
    var e := Entry(Addr(path), option.effects);
    var next := Put(list, e);
    PutDistinct(list, e);
    hide Put, Distinct;
    forall a | Holds(list, a) || a == e.addr
      ensures Holds(next, a)
    {
      PutHolds(list, e, a);
    }
    AncestorsStay(path, list, next);
    hide Holds, Leads, AncestorsHold;
    assert At(groups, path, e, next);
    forall x | x in next
      ensures exists p :: At(groups, p, x, next)
    {
      if x != e {
        var p :| At(groups, p, x, list);
        AncestorsStay(p, list, next);
        assert At(groups, p, x, next);
      }
    }
  }

  lemma AncestorsStay(path: Path, list: seq<Entry>, next: seq<Entry>)
    requires AncestorsHold(path, list)
    requires forall a :: Holds(list, a) ==> Holds(next, a)
    ensures AncestorsHold(path, next)
  {
    hide Holds;
  }

  lemma AncestorsNext(above: Path, step: (string, string), list: seq<Entry>)
    requires AncestorsHold(above, list) && (above != [] ==> Holds(list, Addr(above)))
    ensures AncestorsHold(above + [step], list)
  {
    var path := above + [step];
    forall n | 1 <= n < |path|
      ensures Holds(list, Addr(path[..n]))
    {
      if n == |above| {
        assert path[..n] == above;
      } else {
        assert path[..n] == above[..n];
      }
    }
  }

  lemma PutHolds(list: seq<Entry>, e: Entry, a: string)
    requires Holds(list, a) || a == e.addr
    ensures Holds(Put(list, e), a)
  {
    var next := Put(list, e);
    assert next[|next| - 1] == e;
    if a != e.addr {
      var i :| 0 <= i < |list| && list[i].addr == a;
      WithoutMembers(list, e.addr);
      assert list[i] in Without(list, e.addr);
      var k :| 0 <= k < |Without(list, e.addr)| && Without(list, e.addr)[k] == list[i];
      assert next[k] == list[i];
    }
  }

  lemma {:induction false} WalkOptionsKeep(groups: seq<Group>, above: Path, subs: seq<Group>, g: nat, o: nat,
                                           chosen: seq<string>, saved: Saved, list: seq<Entry>)
    requires Distinct(list) && Placed(groups, list) && Entered(groups, above, subs, list)
    requires g < |subs| && o <= |subs[g].options|
    ensures Keeps(groups, list, WalkOptions(subs[g].options[o..], chosen, GroupAddr(above, subs[g].id), saved, list))
    decreases subs[g].options[o..], 0
  {
    hide Leads, At, Holds, Distinct, Placed, Entered;
    var addr := GroupAddr(above, subs[g].id);
    var options := subs[g].options;
    if o < |options| {
      assert options[o..][0] == options[o] && options[o..][1..] == options[o + 1..];
      var next := WalkOption(options[o], chosen, addr, saved, list);
      WalkOptionKeeps(groups, above, subs, g, o, chosen, saved, list);
      EnteredStays(groups, above, subs, list, next);
      WalkOptionsKeep(groups, above, subs, g, o + 1, chosen, saved, next);
      KeepsTransitive(groups, list, next, WalkOptions(options[o + 1..], chosen, addr, saved, next));
    }
  }

  lemma {:induction false} WalkOptionKeeps(groups: seq<Group>, above: Path, subs: seq<Group>, g: nat, o: nat,
                                           chosen: seq<string>, saved: Saved, list: seq<Entry>)
    requires Distinct(list) && Placed(groups, list) && Entered(groups, above, subs, list)
    requires g < |subs| && o < |subs[g].options|
    ensures Keeps(groups, list, WalkOption(subs[g].options[o], chosen, GroupAddr(above, subs[g].id), saved, list))
    decreases subs[g].options[o], 1
  {
    var option := subs[g].options[o];
    if option.id in chosen {
      var path := above + [(subs[g].id, option.id)];
      OptionPath(above, subs[g].id, option.id);
      EnteredLeads(groups, above, subs, list, g, o);
      AncestorsNext(above, (subs[g].id, option.id), list);
      PutKeeps(groups, list, path, option);
      var e := Entry(Addr(path), option.effects);
      var next := Put(list, e);
      AncestorsStay(path, list, next);
      assert Entered(groups, path, option.groups, next);
      hide Leads, At, Holds, Distinct, Placed, Entered, Put;
      WalkSubsKeep(groups, path, option.groups, 0, saved, next);
      assert option.groups[0..] == option.groups;
      KeepsTransitive(groups, list, next, WalkSubs(option.groups, Addr(path), saved, next));
    }
  }

  lemma {:induction false} WalkSubsKeep(groups: seq<Group>, above: Path, subs: seq<Group>, g: nat, saved: Saved,
                                        list: seq<Entry>)
    requires Distinct(list) && Placed(groups, list) && Entered(groups, above, subs, list)
    requires above != [] && g <= |subs|
    ensures Keeps(groups, list, WalkSubs(subs[g..], Addr(above), saved, list))
    decreases subs[g..], 0
  {
    hide Leads, At, Holds, Distinct, Placed, Entered;
    if g < |subs| {
      assert subs[g..][0] == subs[g] && subs[g..][1..] == subs[g + 1..];
      var addr := GroupAddr(above, subs[g].id);
      var next := WalkGroup(subs[g], addr, saved, list);
      assert subs[g].options[0..] == subs[g].options;
      WalkOptionsKeep(groups, above, subs, g, 0, Effective(subs[g], addr, saved), saved, list);
      EnteredStays(groups, above, subs, list, next);
      WalkSubsKeep(groups, above, subs, g + 1, saved, next);
      KeepsTransitive(groups, list, next, WalkSubs(subs[g + 1..], Addr(above), saved, next));
    }
  }

  lemma {:induction false} WalkTopKeeps(groups: seq<Group>, g: nat, saved: Saved, list: seq<Entry>)
    requires Distinct(list) && Placed(groups, list) && g <= |groups|
    ensures Keeps(groups, list, WalkTop(groups[g..], saved, list))
    decreases |groups| - g
  {
    if g < |groups| {
      assert groups[g..][0] == groups[g] && groups[g..][1..] == groups[g + 1..];
      assert Entered(groups, [], groups, list);
      hide Leads, At, Holds, Distinct, Placed, Entered;
      var next := WalkGroup(groups[g], groups[g].id, saved, list);
      assert groups[g].options[0..] == groups[g].options;
      WalkOptionsKeep(groups, [], groups, g, 0, Effective(groups[g], groups[g].id, saved), saved, list);
      WalkTopKeeps(groups, g + 1, saved, next);
      KeepsTransitive(groups, list, next, WalkTop(groups[g + 1..], saved, next));
    }
  }

  lemma WalkDistinct(groups: seq<Group>, saved: Saved)
    ensures Distinct(WalkTop(groups, saved, [])) && Placed(groups, WalkTop(groups, saved, []))
  {
    assert groups[0..] == groups;
    WalkTopKeeps(groups, 0, saved, []);
  }

  lemma HoldsMember(list: seq<Entry>, e: Entry)
    requires e in list
    ensures Holds(list, e.addr)
  {
  }

  /** Every active option sits at a place of the tree that spells its address, and every
      option above it is active too. */
  lemma ActiveInTree(groups: seq<Group>, saved: Saved, e: Entry)
    requires e in Resolved(groups, saved)
    ensures exists path, option ::
              && path != [] && Addr(path) == e.addr
              && Leads(groups, path, option) && option.effects == e.effects
              && AncestorsHold(path, Resolved(groups, saved))
  {
    var walked := WalkTop(groups, saved, []);
    var active := Resolved(groups, saved);
    WalkDistinct(groups, saved);
    EnforcedIsConsistent(walked);
    hide Leads, WalkTop, Enforced;
    var path :| At(groups, path, e, walked);
    var option :| Leads(groups, path, option) && option.effects == e.effects;
    forall n | 1 <= n < |path|
      ensures Holds(active, Addr(path[..n]))
    {
      var k :| 0 <= k < |walked| && walked[k].addr == Addr(path[..n]);
      LongerAddr(path[..n], path);
      assert walked[k] in walked && Under(e.addr, walked[k].addr);
      HoldsMember(active, walked[k]);
    }
  }

  // ---- The greatest selection, in terms of the tree ----

  ghost predicate CleanGroups(groups: seq<Group>)
    decreases groups, 0
  {
    groups == [] || (CleanId(groups[0].id) && CleanOptions(groups[0].options) && CleanGroups(groups[1..]))
  }

  ghost predicate CleanOptions(options: seq<Feature>)
    decreases options, 0
  {
    options == [] || (CleanId(options[0].id) && CleanGroups(options[0].groups) && CleanOptions(options[1..]))
  }

  lemma {:induction false} CleanGroupAt(groups: seq<Group>, g: nat)
    requires CleanGroups(groups) && g < |groups|
    ensures CleanId(groups[g].id) && CleanOptions(groups[g].options)
  {
    if g > 0 {
      CleanGroupAt(groups[1..], g - 1);
    }
  }

  lemma {:induction false} CleanOptionAt(options: seq<Feature>, o: nat)
    requires CleanOptions(options) && o < |options|
    ensures CleanId(options[o].id) && CleanGroups(options[o].groups)
  {
    if o > 0 {
      CleanOptionAt(options[1..], o - 1);
    }
  }

  lemma {:induction false} LeadsClean(groups: seq<Group>, path: Path, option: Feature)
    requires CleanGroups(groups) && Leads(groups, path, option)
    ensures Clean(path)
    decreases |path|
  {
    var g, o :|
      && 0 <= g < |groups| && 0 <= o < |groups[g].options|
      && path[0] == (groups[g].id, groups[g].options[o].id)
      && (if |path| == 1 then groups[g].options[o] == option
          else Leads(groups[g].options[o].groups, path[1..], option));
    CleanGroupAt(groups, g);
    CleanOptionAt(groups[g].options, o);
    if |path| > 1 {
      LeadsClean(groups[g].options[o].groups, path[1..], option);
      assert forall i :: 1 <= i < |path| ==> path[i] == path[1..][i - 1];
    }
  }

  ghost predicate IsPlace(groups: seq<Group>, path: Path) {
    exists option :: Leads(groups, path, option)
  }

  /** A set of addresses of the options found, closed under what they need and, in the tree, under
      the options they are nested in. */
  ghost predicate TreeClosed(groups: seq<Group>, all: seq<Entry>, chosen: set<string>) {
    && (forall a :: a in chosen ==> Holds(all, a))
    && (forall e, i :: e in all && e.addr in chosen && 0 <= i < |e.effects.needs| ==> e.effects.needs[i] in chosen)
    && (forall p, q :: p != [] && IsPlace(groups, q) && Descends(q, p) && Addr(q) in chosen ==> Addr(p) in chosen)
  }

  lemma TreeClosedMeansClosed(groups: seq<Group>, all: seq<Entry>, chosen: set<string>)
    requires CleanGroups(groups) && Placed(groups, all) && TreeClosed(groups, all, chosen)
    ensures Closed(chosen, all)
  {
    forall e, p | e in all && p in all && e.addr in chosen && Under(e.addr, p.addr)
      ensures p.addr in chosen
    {
      var below := PlaceOf(groups, all, e);
      var above := PlaceOf(groups, all, p);
      PrefixIsDescent(above, below);
    }
  }

  lemma PlaceOf(groups: seq<Group>, all: seq<Entry>, e: Entry) returns (path: Path)
    requires CleanGroups(groups) && Placed(groups, all) && e in all
    ensures path != [] && Clean(path) && Addr(path) == e.addr && IsPlace(groups, path) && AncestorsHold(path, all)
  {
    hide Leads;
    path :| At(groups, path, e, all);
    var option :| Leads(groups, path, option) && option.effects == e.effects;
    LeadsClean(groups, path, option);
  }

  lemma ClosedMeansTreeClosed(groups: seq<Group>, all: seq<Entry>, chosen: set<string>)
    requires CleanGroups(groups) && Placed(groups, all) && Closed(chosen, all)
    ensures TreeClosed(groups, all, chosen)
  {
    hide Leads, Addr, Under;
    forall p, q | p != [] && IsPlace(groups, q) && Descends(q, p) && Addr(q) in chosen
      ensures Addr(p) in chosen
    {
      var option :| Leads(groups, q, option);
      LeadsClean(groups, q, option);
      var k :| 0 <= k < |all| && all[k].addr == Addr(q);
      assert all[k] in all;
      var path := PlaceOf(groups, all, all[k]);
      AddrInjective(path, q);
      assert q[..|p|] == p;
      assert Holds(all, Addr(p));
      PrefixIsDescent(p, q);
      var j :| 0 <= j < |all| && all[j].addr == Addr(p);
      assert all[j] in all;
    }
  }

  /** Without conflicts the active options are, for ids free of the separators, the greatest set of
      options found that is closed under needs and under nesting in the tree. */
  lemma GreatestSelection(groups: seq<Group>, saved: Saved)
    requires CleanGroups(groups) && NoConflicts(WalkTop(groups, saved, []))
    ensures var all, active := WalkTop(groups, saved, []), Addrs(Resolved(groups, saved));
            TreeClosed(groups, all, active) && forall chosen :: TreeClosed(groups, all, chosen) ==> chosen <= active
  {
    hide NoConflicts, WalkTop, Enforced, TreeClosed, Closed, CleanGroups, Placed, Addrs;
    var all := WalkTop(groups, saved, []);
    WalkDistinct(groups, saved);
    GreatestClosed(all);
    ClosedMeansTreeClosed(groups, all, Addrs(Resolved(groups, saved)));
    forall chosen | TreeClosed(groups, all, chosen)
      ensures chosen <= Addrs(Resolved(groups, saved))
    {
      TreeClosedMeansClosed(groups, all, chosen);
    }
  }

  // ---- Files that options own ----

  /** `optional_paths`: the files of every option of the tree, active or not. */
  function OwnedByGroups(groups: seq<Group>): set<string>
    decreases groups, 0
  {
    if groups == [] then {} else OwnedByOptions(groups[0].options) + OwnedByGroups(groups[1..])
  }

  function OwnedByOptions(options: seq<Feature>): set<string>
    decreases options, 0
  {
    if options == [] then {}
    else (set f | f in options[0].effects.files) + OwnedByGroups(options[0].groups) + OwnedByOptions(options[1..])
  }

  lemma {:induction false} GroupOwned(groups: seq<Group>, g: nat)
    requires g < |groups|
    ensures OwnedByOptions(groups[g].options) <= OwnedByGroups(groups)
  {
    if g > 0 {
      GroupOwned(groups[1..], g - 1);
    }
  }

  lemma {:induction false} OptionOwned(options: seq<Feature>, o: nat)
    requires o < |options|
    ensures (set f | f in options[o].effects.files) <= OwnedByOptions(options)
    ensures OwnedByGroups(options[o].groups) <= OwnedByOptions(options)
  {
    if o > 0 {
      OptionOwned(options[1..], o - 1);
    }
  }

  lemma {:induction false} LeadsOwned(groups: seq<Group>, path: Path, option: Feature)
    requires Leads(groups, path, option)
    ensures (set f | f in option.effects.files) <= OwnedByGroups(groups)
    decreases |path|
  {
    var g, o :|
      && 0 <= g < |groups| && 0 <= o < |groups[g].options|
      && path[0] == (groups[g].id, groups[g].options[o].id)
      && (if |path| == 1 then groups[g].options[o] == option
          else Leads(groups[g].options[o].groups, path[1..], option));
    GroupOwned(groups, g);
    OptionOwned(groups[g].options, o);
    if |path| > 1 {
      LeadsOwned(groups[g].options[o].groups, path[1..], option);
    }
  }

  /** A file of an active option is one of the optional files, which alone may be absent. */
  lemma ActiveFilesAreOptional(groups: seq<Group>, saved: Saved, e: Entry, file: string)
    requires e in Resolved(groups, saved) && file in e.effects.files
    ensures file in OwnedByGroups(groups)
  {
    ActiveInTree(groups, saved, e);
    var path, option :| path != [] && Addr(path) == e.addr
      && Leads(groups, path, option) && option.effects == e.effects
      && AncestorsHold(path, Resolved(groups, saved));
    LeadsOwned(groups, path, option);
  }
}
