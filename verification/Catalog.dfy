/** The catalog's view of the published manifests (server/internal/catalog/catalog.go): which
    variants a build has, which builds own a stored object, and which variant a player is given. */
module Catalog {
  import opened Wrappers
  import opened ManifestNames
  import ReleaseHistory

  type Bytes = ReleaseHistory.Data

  type Platform = ReleaseHistory.Platform

  /** `objects` has the key of every file's object, None for a file without object or hash. */
  datatype Variant = Variant(
    canonical: Bytes, signature: Option<Bytes>, platform: Platform, objects: seq<Option<string>>)

  /** A manifest found by the index; `decoded` is None when it cannot be read or decoded. */
  datatype Found = Found(base: string, active: bool, decoded: Option<(string, Variant)>)

  datatype Snapshot = Snapshot(
    builds: map<string, seq<Variant>>, names: seq<string>,
    retained: map<string, seq<Variant>>, owners: map<string, seq<string>>)

  datatype Served = Served(canonical: Bytes, signature: Bytes) | NotFound | PlatformUnavailable | Unsigned

  const ANY_PLATFORM: Platform := ReleaseHistory.Unspecified

  // ---- Orders ----

  /** Order of strings by their characters, as `sort.Strings` has it. */
  predicate Less(left: string, right: string) {
    right != "" && (left == "" || left[0] < right[0] || (left[0] == right[0] && Less(left[1..], right[1..])))
  }

  lemma {:induction false} LessIsTransitive(a: string, b: string, c: string)
    requires Less(a, b) && Less(b, c)
    ensures Less(a, c)
  {
    if a != "" && a[0] == b[0] && b[0] == c[0] {
      LessIsTransitive(a[1..], b[1..], c[1..]);
    }
  }

  lemma {:induction false} LessIsTotal(a: string, b: string)
    ensures !Less(a, a)
    ensures Less(a, b) || a == b || Less(b, a)
    ensures Less(a, b) ==> !Less(b, a) && a != b
  {
    if a != "" {
      LessIsTotal(a[1..], a[1..]);
      if b != "" && a[0] == b[0] {
        LessIsTotal(a[1..], b[1..]);
        assert a == [a[0]] + a[1..] && b == [b[0]] + b[1..];
      }
    }
  }

  predicate Ascending(names: seq<string>) {
    forall i, j :: 0 <= i < j < |names| ==> Less(names[i], names[j])
  }

  /** The number of a platform. */
  function Rank(platform: Platform): int {
    match platform
    case Unspecified => 0
    case WindowsX64 => 1
    case WindowsX86 => 2
    case WindowsArm64 => 3
    case Linux => 4
    case LinuxI386 => 5
    case MacOs => 6
    case MacOsArm64 => 7
    case LinuxArm64 => 8
    case Unknown(number) => number
  }

  predicate ByPlatform(list: seq<Variant>) {
    forall i, j :: 0 <= i < j < |list| ==> Rank(list[i].platform) <= Rank(list[j].platform)
  }

  // ---- What the snapshot should hold ----

  function BuildName(base: string, modpack: string): string {
    if modpack != "" then modpack
    else if IsManifest(base) then Stem(base)
    else base
  }

  function VariantsOf(entries: seq<Found>, active: bool, name: string): seq<Variant> {
    if entries == [] then []
    else
      var last := entries[|entries| - 1];
      VariantsOf(entries[..|entries| - 1], active, name) +
      if last.active == active && last.decoded.Some? && BuildName(last.base, last.decoded.value.0) == name
      then [last.decoded.value.1] else []
  }

  predicate FiledUnder(entry: Found, active: bool, name: string, v: Variant) {
    && entry.active == active && entry.decoded.Some?
    && BuildName(entry.base, entry.decoded.value.0) == name && entry.decoded.value.1 == v
  }

  lemma {:induction false} VariantsAre(entries: seq<Found>, active: bool, name: string, v: Variant)
    ensures v in VariantsOf(entries, active, name) <==> exists e :: e in entries && FiledUnder(e, active, name, v)
  {
    hide BuildName;
    if entries != [] {
      var n := |entries| - 1;
      VariantsAre(entries[..n], active, name, v);
      assert entries == entries[..n] + [entries[n]];
      assert FiledUnder(entries[n], active, name, v) ==> v in VariantsOf(entries, active, name);
    }
  }

  function ListOf(table: map<string, seq<Variant>>, name: string): seq<Variant> {
    if name in table then table[name] else []
  }

  predicate Contains(list: seq<Variant>, key: string) {
    exists i :: 0 <= i < |list| && Some(key) in list[i].objects
  }

  predicate Owns(builds: map<string, seq<Variant>>, retained: map<string, seq<Variant>>, name: string, key: string) {
    Contains(ListOf(builds, name), key) || Contains(ListOf(retained, name), key)
  }

  /** The definition the owner index is held to. */
  function OwnersAmong(builds: map<string, seq<Variant>>, retained: map<string, seq<Variant>>,
                       names: seq<string>, key: string): seq<string> {
    if names == [] then []
    else
      var last := names[|names| - 1];
      OwnersAmong(builds, retained, names[..|names| - 1], key) +
      if Owns(builds, retained, last, key) then [last] else []
  }

  /** The list is sorted, has no repeats and names exactly the owners. */
  lemma {:induction false} OwnersAreExactly(builds: map<string, seq<Variant>>, retained: map<string, seq<Variant>>,
                                            names: seq<string>, key: string)
    requires Ascending(names)
    ensures Ascending(OwnersAmong(builds, retained, names, key))
    ensures forall name :: name in OwnersAmong(builds, retained, names, key) <==>
                           name in names && Owns(builds, retained, name, key)
  {
    hide Less, Owns;
    if names != [] {
      var n := |names| - 1;
      OwnersAreExactly(builds, retained, names[..n], key);
      assert names == names[..n] + [names[n]];
      var earlier := OwnersAmong(builds, retained, names[..n], key);
      forall i | 0 <= i < |earlier|
        ensures Less(earlier[i], names[n])
      {
        assert earlier[i] in names[..n];
      }
    }
  }

  function OwnersOf(owners: map<string, seq<string>>, key: string): seq<string> {
    if key in owners then owners[key] else []
  }

  // ---- Building the snapshot ----

  method SortByPlatform(list: seq<Variant>) returns (sorted: seq<Variant>)
    ensures multiset(sorted) == multiset(list) && ByPlatform(sorted)
  {
    sorted := [];
    for i := 0 to |list|
      invariant multiset(sorted) == multiset(list[..i]) && ByPlatform(sorted)
    {
      assert list[..i + 1] == list[..i] + [list[i]];
      sorted := Insert(sorted, list[i]);
    }
    assert list[..|list|] == list;
  }

  method Insert(list: seq<Variant>, v: Variant) returns (longer: seq<Variant>)
    requires ByPlatform(list)
    ensures multiset(longer) == multiset(list) + multiset{v} && ByPlatform(longer)
  {
    var at := |list|;
    while at > 0 && Rank(list[at - 1].platform) > Rank(v.platform)
      invariant 0 <= at <= |list|
      invariant forall i :: at <= i < |list| ==> Rank(list[i].platform) > Rank(v.platform)
    {
      at := at - 1;
    }
    InsertKeeps(list, at, v);
    longer := list[..at] + [v] + list[at..];
  }

  lemma InsertKeeps(list: seq<Variant>, at: nat, v: Variant)
    requires at <= |list| && ByPlatform(list)
    requires forall i :: at <= i < |list| ==> Rank(list[i].platform) > Rank(v.platform)
    requires at > 0 ==> Rank(list[at - 1].platform) <= Rank(v.platform)
    ensures ByPlatform(list[..at] + [v] + list[at..])
    ensures multiset(list[..at] + [v] + list[at..]) == multiset(list) + multiset{v}
  {
    hide ByPlatform;
    assert list == list[..at] + list[at..];
    OrderedParts(list, at, v);
    OneMore(list[..at], v, list[at..]);
    OrderedOneAfterAnother(list[..at], [v]);
    OrderedOneAfterAnother(list[..at] + [v], list[at..]);
  }

  lemma OrderedParts(list: seq<Variant>, at: nat, v: Variant)
    requires at <= |list| && ByPlatform(list)
    ensures ByPlatform(list[..at]) && ByPlatform(list[at..]) && ByPlatform([v])
  {}

  lemma OneMore(left: seq<Variant>, v: Variant, right: seq<Variant>)
    ensures multiset(left + [v] + right) == multiset(left + right) + multiset{v}
  {}

  lemma OrderedOneAfterAnother(left: seq<Variant>, right: seq<Variant>)
    requires ByPlatform(left) && ByPlatform(right)
    requires left != [] && right != [] ==> Rank(left[|left| - 1].platform) <= Rank(right[0].platform)
    ensures ByPlatform(left + right)
  {
    var both := left + right;
    forall i, j | 0 <= i < j < |both|
      ensures Rank(both[i].platform) <= Rank(both[j].platform)
    {
      if i < |left| <= j {
        assert Rank(left[i].platform) <= Rank(left[|left| - 1].platform);
        assert Rank(right[0].platform) <= Rank(right[j - |left|].platform);
      }
    }
  }

  method SortNames(names: set<string>) returns (sorted: seq<string>)
    ensures Ascending(sorted) && forall name :: name in sorted <==> name in names
  {
    hide Less;
    sorted := [];
    var left := names;
    while left != {}
      invariant left <= names && Ascending(sorted)
      invariant forall name :: name in sorted <==> name in names && name !in left
    {
      var name :| name in left;
      left := left - {name};
      sorted := InsertName(sorted, name);
    }
  }

  method InsertName(list: seq<string>, name: string) returns (longer: seq<string>)
    requires Ascending(list) && name !in list
    ensures Ascending(longer) && forall x :: x in longer <==> x in list || x == name
  {
    hide Less;
    var at := |list|;
    while at > 0 && Less(name, list[at - 1])
      invariant 0 <= at <= |list|
      invariant forall i :: at <= i < |list| ==> Less(name, list[i])
    {
      at := at - 1;
    }
    if at > 0 {
      LessIsTotal(name, list[at - 1]);
      forall i | 0 <= i < at
        ensures Less(list[i], name)
      {
        if i < at - 1 {
          LessIsTransitive(list[i], list[at - 1], name);
        }
      }
    }
    assert list == list[..at] + list[at..];
    longer := list[..at] + [name] + list[at..];
  }

  method Gather(entries: seq<Found>) returns (builds: map<string, seq<Variant>>, retained: map<string, seq<Variant>>)
    ensures Gathered(entries, true, builds) && Gathered(entries, false, retained)
  {
    hide Gathered;
    builds, retained := map[], map[];
    GatheredStart(entries, true, builds);
    GatheredStart(entries, false, retained);
    for i := 0 to |entries|
      invariant Gathered(entries[..i], true, builds) && Gathered(entries[..i], false, retained)
    {
      GatheredStep(entries, i, true, builds);
      GatheredStep(entries, i, false, retained);
      var entry := entries[i];
      if entry.decoded.None? {
        continue;
      }
      var name := BuildName(entry.base, entry.decoded.value.0);
      if entry.active {
        builds := builds[name := ListOf(builds, name) + [entry.decoded.value.1]];
      } else {
        retained := retained[name := ListOf(retained, name) + [entry.decoded.value.1]];
      }
    }
    assert entries[..|entries|] == entries;
  }

  ghost predicate Gathered(entries: seq<Found>, active: bool, table: map<string, seq<Variant>>) {
    (forall name :: ListOf(table, name) == VariantsOf(entries, active, name)) &&
    forall name :: name in table ==> table[name] != []
  }

  lemma GatheredStart(entries: seq<Found>, active: bool, table: map<string, seq<Variant>>)
    requires table == map[]
    ensures Gathered(entries[..0], active, table)
  {}

  lemma GatheredStep(entries: seq<Found>, i: nat, active: bool, table: map<string, seq<Variant>>)
    requires i < |entries| && Gathered(entries[..i], active, table)
    ensures Gathered(entries[..i + 1], active,
                     if entries[i].active == active && entries[i].decoded.Some? then
                       var name := BuildName(entries[i].base, entries[i].decoded.value.0);
                       table[name := ListOf(table, name) + [entries[i].decoded.value.1]]
                     else table)
  {
    hide BuildName, VariantsOf;
    var entry := entries[i];
    var next := if entry.active == active && entry.decoded.Some? then
                  var name := BuildName(entry.base, entry.decoded.value.0);
                  table[name := ListOf(table, name) + [entry.decoded.value.1]]
                else table;
    forall name
      ensures ListOf(next, name) == VariantsOf(entries[..i + 1], active, name)
    {
      VariantsStep(entries, i, active, name);
    }
  }

  lemma VariantsStep(entries: seq<Found>, i: nat, active: bool, name: string)
    requires i < |entries|
    ensures VariantsOf(entries[..i + 1], active, name) ==
            if entries[i].active == active && entries[i].decoded.Some? &&
               BuildName(entries[i].base, entries[i].decoded.value.0) == name
            then VariantsOf(entries[..i], active, name) + [entries[i].decoded.value.1]
            else VariantsOf(entries[..i], active, name)
  {
    hide BuildName;
    assert entries[..i + 1][..i] == entries[..i];
  }

  // ---- The owner index ----

  /** Whether some file among the first `j` variants, or the first `k` files of the next, has the key. */
  predicate Seen(list: seq<Variant>, j: nat, k: nat, key: string)
    requires j <= |list| && (j < |list| ==> k <= |list[j].objects|)
  {
    Contains(list[..j], key) || (j < |list| && Some(key) in list[j].objects[..k])
  }

  ghost predicate Listed(builds: map<string, seq<Variant>>, retained: map<string, seq<Variant>>, names: seq<string>,
                         i: nat, list: seq<Variant>, j: nat, k: nat, owners: map<string, seq<string>>)
    requires i < |names| && j <= |list| && (j < |list| ==> k <= |list[j].objects|)
  {
    forall key :: OwnersOf(owners, key) ==
                  OwnersAmong(builds, retained, names[..i], key) + if Seen(list, j, k, key) then [names[i]] else []
  }

  ghost predicate Complete(builds: map<string, seq<Variant>>, retained: map<string, seq<Variant>>, names: seq<string>,
                           owners: map<string, seq<string>>) {
    forall key :: OwnersOf(owners, key) == OwnersAmong(builds, retained, names, key)
  }

  /** Repeats are looked for in the last place alone: a name can only stand there. */
  method IndexOwners(builds: map<string, seq<Variant>>, retained: map<string, seq<Variant>>, names: seq<string>)
    returns (owners: map<string, seq<string>>)
    requires Ascending(names)
    ensures Complete(builds, retained, names, owners)
  {
    hide *;
    owners := map[];
    NoOwners(builds, retained, names, owners);
    for i := 0 to |names|
      invariant Complete(builds, retained, names[..i], owners)
    {
      var list := ListOf(builds, names[i]) + ListOf(retained, names[i]);
      FirstVariant(builds, retained, names, i, list, owners);
      for j := 0 to |list|
        invariant Listed(builds, retained, names, i, list, j, 0, owners)
      {
        var objects := list[j].objects;
        for k := 0 to |objects|
          invariant Listed(builds, retained, names, i, list, j, k, owners)
        {
          NextFile(builds, retained, names, i, list, j, k, owners);
          if objects[k].None? {
            continue;
          }
          var key := objects[k].value;
          var known := OwnersOf(owners, key);
          if |known| > 0 && known[|known| - 1] == names[i] {
            continue;
          }
          owners := owners[key := known + [names[i]]];
        }
        NextVariant(builds, retained, names, i, list, j, owners);
      }
      NextName(builds, retained, names, i, list, owners);
    }
    assert names[..|names|] == names;
  }

  lemma NoOwners(builds: map<string, seq<Variant>>, retained: map<string, seq<Variant>>, names: seq<string>,
                 owners: map<string, seq<string>>)
    requires owners == map[]
    ensures Complete(builds, retained, names[..0], owners)
  {}

  lemma FirstVariant(builds: map<string, seq<Variant>>, retained: map<string, seq<Variant>>, names: seq<string>, i: nat,
                     list: seq<Variant>, owners: map<string, seq<string>>)
    requires i < |names| && Complete(builds, retained, names[..i], owners)
    ensures Listed(builds, retained, names, i, list, 0, 0, owners)
  {
    hide OwnersAmong, OwnersOf;
    assert forall key :: !Seen(list, 0, 0, key);
  }

  lemma NextFile(builds: map<string, seq<Variant>>, retained: map<string, seq<Variant>>, names: seq<string>, i: nat,
                 list: seq<Variant>, j: nat, k: nat, owners: map<string, seq<string>>)
    requires i < |names| && j < |list| && k < |list[j].objects| && Ascending(names)
    requires Listed(builds, retained, names, i, list, j, k, owners)
    ensures var mark := list[j].objects[k];
            Listed(builds, retained, names, i, list, j, k + 1,
                   if mark.None? then owners
                   else
                     var known := OwnersOf(owners, mark.value);
                     if |known| > 0 && known[|known| - 1] == names[i] then owners
                     else owners[mark.value := known + [names[i]]])
  {
    hide Seen, Less, OwnersAmong, Ascending;
    var mark := list[j].objects[k];
    var next := if mark.None? then owners
                else
                  var known := OwnersOf(owners, mark.value);
                  if |known| > 0 && known[|known| - 1] == names[i] then owners
                  else owners[mark.value := known + [names[i]]];
    forall key
      ensures OwnersOf(next, key) ==
              OwnersAmong(builds, retained, names[..i], key) + if Seen(list, j, k + 1, key) then [names[i]] else []
    {
      SeenOneMore(list, j, k, key);
      if mark == Some(key) {
        NotAmongEarlier(builds, retained, names, i, key);
        AddedOnce(OwnersAmong(builds, retained, names[..i], key), names[i], Seen(list, j, k, key));
      }
    }
  }

  lemma SeenOneMore(list: seq<Variant>, j: nat, k: nat, key: string)
    requires j < |list| && k < |list[j].objects|
    ensures Seen(list, j, k + 1, key) <==> Seen(list, j, k, key) || list[j].objects[k] == Some(key)
  {
    hide Contains;
    assert list[j].objects[..k + 1] == list[j].objects[..k] + [list[j].objects[k]];
  }

  lemma AddedOnce(earlier: seq<string>, name: string, added: bool)
    requires name !in earlier
    ensures var known := earlier + if added then [name] else [];
            (if |known| > 0 && known[|known| - 1] == name then known else known + [name]) == earlier + [name]
  {}

  lemma NotAmongEarlier(builds: map<string, seq<Variant>>, retained: map<string, seq<Variant>>, names: seq<string>,
                        i: nat,
                        key: string)
    requires i < |names| && Ascending(names)
    ensures names[i] !in OwnersAmong(builds, retained, names[..i], key)
  {
    hide Less, Owns, OwnersAmong;
    OwnersAreExactly(builds, retained, names[..i], key);
    forall j | 0 <= j < i
      ensures names[j] != names[i]
    {
      LessIsTotal(names[j], names[i]);
    }
  }

  lemma NextVariant(builds: map<string, seq<Variant>>, retained: map<string, seq<Variant>>, names: seq<string>, i: nat,
                    list: seq<Variant>, j: nat, owners: map<string, seq<string>>)
    requires i < |names| && j < |list|
    requires Listed(builds, retained, names, i, list, j, |list[j].objects|, owners)
    ensures Listed(builds, retained, names, i, list, j + 1, 0, owners)
  {
    hide OwnersAmong, OwnersOf;
    assert list[..j + 1] == list[..j] + [list[j]] && list[j].objects[..|list[j].objects|] == list[j].objects;
    forall key
      ensures Seen(list, j + 1, 0, key) <==> Seen(list, j, |list[j].objects|, key)
    {
      assert list[..j + 1][j] == list[j];
      assert forall x :: 0 <= x < j ==> list[..j + 1][x] == list[..j][x];
    }
  }

  lemma NextName(builds: map<string, seq<Variant>>, retained: map<string, seq<Variant>>, names: seq<string>, i: nat,
                 list: seq<Variant>, owners: map<string, seq<string>>)
    requires i < |names| && list == ListOf(builds, names[i]) + ListOf(retained, names[i])
    requires Listed(builds, retained, names, i, list, |list|, 0, owners)
    ensures Complete(builds, retained, names[..i + 1], owners)
  {
    hide OwnersOf, ListOf;
    assert names[..i + 1][..i] == names[..i] && names[..i + 1][i] == names[i];
    assert list[..|list|] == list;
    var first, second := ListOf(builds, names[i]), ListOf(retained, names[i]);
    forall key
      ensures Seen(list, |list|, 0, key) <==> Owns(builds, retained, names[i], key)
    {
      ContainsBoth(first, second, key);
    }
  }

  lemma ContainsBoth(first: seq<Variant>, second: seq<Variant>, key: string)
    ensures Contains(first + second, key) <==> Contains(first, key) || Contains(second, key)
  {
    var both := first + second;
    assert forall i :: 0 <= i < |first| ==> both[i] == first[i];
    assert forall i :: 0 <= i < |second| ==> both[|first| + i] == second[i];
  }

  // ---- The whole snapshot, and choosing a variant ----

  predicate Sorted(list: seq<Variant>, gathered: seq<Variant>) {
    multiset(list) == multiset(gathered) && ByPlatform(list)
  }

  /** What `collect` promises: each build's active variants ordered by platform, the names in
      order, and owners exactly by definition. */
  method Collect(entries: seq<Found>) returns (snap: Snapshot)
    ensures forall name :: Sorted(ListOf(snap.builds, name), VariantsOf(entries, true, name))
    ensures forall name :: ListOf(snap.retained, name) == VariantsOf(entries, false, name)
    ensures Ascending(snap.names) && forall name :: name in snap.names <==> VariantsOf(entries, true, name) != []
    ensures Complete(snap.builds, snap.retained, snap.names, snap.owners)
  {
    hide Less, Owns, BuildName, Complete, VariantsOf;
    var gathered, retained := Gather(entries);
    var builds: map<string, seq<Variant>> := map[];
    var left := gathered.Keys;
    while left != {}
      invariant left <= gathered.Keys && builds.Keys == gathered.Keys - left
      invariant forall name :: name in builds ==> Sorted(builds[name], gathered[name])
    {
      var name :| name in left;
      left := left - {name};
      var list := SortByPlatform(gathered[name]);
      builds := builds[name := list];
    }
    var names := SortNames(builds.Keys);
    var owners := IndexOwners(builds, retained, names);
    snap := Snapshot(builds, names, retained, owners);
  }

  /** The catalog's promise about ownership, end to end. */
  lemma OwnersOfCollected(snap: Snapshot, entries: seq<Found>, key: string)
    requires forall name :: Sorted(ListOf(snap.builds, name), VariantsOf(entries, true, name))
    requires forall name :: ListOf(snap.retained, name) == VariantsOf(entries, false, name)
    requires Ascending(snap.names) && forall name :: name in snap.names <==> VariantsOf(entries, true, name) != []
    requires Complete(snap.builds, snap.retained, snap.names, snap.owners)
    ensures Ascending(OwnersOf(snap.owners, key))
    ensures forall name :: name in OwnersOf(snap.owners, key) <==>
                           VariantsOf(entries, true, name) != [] &&
                           (Contains(VariantsOf(entries, true, name), key) ||
                             Contains(VariantsOf(entries, false, name), key))
  {
    hide Less, VariantsOf, OwnersAmong, ListOf;
    OwnersAreExactly(snap.builds, snap.retained, snap.names, key);
    forall name
      ensures Contains(ListOf(snap.builds, name), key) <==> Contains(VariantsOf(entries, true, name), key)
    {
      SameContents(ListOf(snap.builds, name), VariantsOf(entries, true, name), key);
      SameContents(VariantsOf(entries, true, name), ListOf(snap.builds, name), key);
    }
  }

  lemma SameContents(list: seq<Variant>, other: seq<Variant>, key: string)
    requires multiset(list) == multiset(other)
    ensures Contains(list, key) ==> Contains(other, key)
  {
    if !Contains(list, key) {
      return;
    }
    var i :| 0 <= i < |list| && Some(key) in list[i].objects;
    assert list[i] in multiset(other);
    assert list[i] in other;
  }

  /** A variant made for the wanted platform is always preferred to one made for any platform. */
  predicate Suits(list: seq<Variant>, want: Platform, v: Variant) {
    if want != ANY_PLATFORM && exists other :: other in list && other.platform == want then v.platform == want
    else v.platform == ANY_PLATFORM
  }

  method Pick(list: seq<Variant>, want: Platform) returns (chosen: Option<nat>)
    ensures chosen.Some? ==> chosen.value < |list| && Suits(list, want, list[chosen.value]) &&
                             forall i :: 0 <= i < chosen.value ==> !Suits(list, want, list[i])
    ensures chosen.None? ==> forall v :: v in list ==> !Suits(list, want, v)
  {
    for i := 0 to |list|
      invariant forall j :: 0 <= j < i ==> list[j].platform != want || want == ANY_PLATFORM
    {
      if list[i].platform == want && want != ANY_PLATFORM {
        return Some(i);
      }
    }
    for i := 0 to |list|
      invariant forall j :: 0 <= j < i ==> list[j].platform != ANY_PLATFORM
    {
      if list[i].platform == ANY_PLATFORM {
        return Some(i);
      }
    }
    return None;
  }

  /** A player is given exactly the bytes and signature of a suiting active variant, and is
      refused just when the build is unknown, nothing suits, or the signature is missing. */
  method Get(snap: Snapshot, name: string, want: Platform) returns (served: Served)
    ensures served.NotFound? <==> ListOf(snap.builds, name) == []
    ensures served.PlatformUnavailable? <==>
            ListOf(snap.builds, name) != [] &&
            forall v :: v in ListOf(snap.builds, name) ==> !Suits(ListOf(snap.builds, name), want, v)
    ensures served.Served? ==>
              exists v :: v in ListOf(snap.builds, name) && Suits(ListOf(snap.builds, name), want, v) &&
                                           v.canonical == served.canonical && v.signature == Some(served.signature)
    ensures served.Unsigned? ==>
              exists v :: v in ListOf(snap.builds, name) && Suits(ListOf(snap.builds, name), want, v) &&
                                             v.signature == None
  {
    hide Suits;
    if name !in snap.builds || |snap.builds[name]| == 0 {
      return NotFound;
    }
    var list := snap.builds[name];
    var chosen := Pick(list, want);
    if chosen.None? {
      return PlatformUnavailable;
    }
    var v := list[chosen.value];
    assert v in list;
    if v.signature.None? {
      return Unsigned;
    }
    return Served(v.canonical, v.signature.value);
  }
}
