/** The two layouts of a build directory (server/internal/buildsvc/layout.go and migrate.go): one
    whole tree for each platform, or a shared tree with a small overlay for each platform.

    A path is the list of its parts below the build's root; a directory is there while it has files. */
module LayoutModel {
  import opened Wrappers
  import opened FileSizes

  type Path = seq<string>
  type Files = map<Path, Bytes>

  datatype Place = Shared | Overlay | Dropped

  const PLATFORMS := "platforms"
  const INTERNAL := ".laminara"
  const LAUNCH_PROFILE := "laminara.profile.json"
  const MARK: Path := [INTERNAL, "migrating"]

  function From(key: string, rel: Path): Path { [key] + rel }

  function To(key: string, rel: Path): Path { [PLATFORMS, key] + rel }

  predicate InTree(key: string, path: Path) { |path| > 1 && path[0] == key }

  predicate InOverlay(key: string, path: Path) { |path| > 2 && path[0] == PLATFORMS && path[1] == key }

  predicate BelongsToPlatform(rel: Path) {
    rel != [] && (rel[0] == "runtime" || rel[|rel| - 1] == LAUNCH_PROFILE)
  }

  /** What a platform finds at a path in the new layout: its overlay wins over the shared tree. */
  function Resolve(files: Files, key: string, rel: Path): Option<Bytes> {
    if To(key, rel) in files then Some(files[To(key, rel)])
    else if rel in files then Some(files[rel])
    else None
  }

  // ---- Sizes ----

  lemma TotalMoved(files: Files, path: Path, target: Path)
    requires path in files && target !in files
    ensures Total((files - {path})[target := files[path]]) == Total(files)
  {
    TotalWithout(files, path);
    TotalWith(files - {path}, target, files[path]);
    assert files - {path} - {target} == files - {path};
  }

  // ---- Moving one platform ----

  /** Where a platform's file goes, judged by the files before the platform is moved. */
  function PlaceOf(files: Files, key: string, first: bool, rel: Path): Place
    requires From(key, rel) in files
  {
    if BelongsToPlatform(rel) then Overlay
    else if first then Shared
    else if rel in files && files[rel] == files[From(key, rel)] then Dropped
    else Overlay
  }

  /** The path that the bytes at `path` stood at before the platform was moved, while the files in
      `left` have not been visited yet. */
  function Origin(before: Files, key: string, first: bool, left: set<Path>, path: Path): Option<Path> {
    if InTree(key, path) then
      if path in before && (path in left || (From(key, path[1..]) in before &&
                                              PlaceOf(before, key, first, path[1..]).Dropped?))
      then Some(path) else None
    else if InOverlay(key, path) then
      var from := From(key, path[2..]);
      if from in before && from !in left && PlaceOf(before, key, first, path[2..]).Overlay? then Some(from) else None
    else if path != [] && From(key, path) in before && From(key, path) !in left &&
            PlaceOf(before, key, first, path).Shared? then
      Some(From(key, path))
    else if path in before then Some(path)
    else None
  }

  ghost predicate Midway(before: Files, key: string, first: bool, left: set<Path>, files: Files) {
    forall path ::
      (path in files <==> Origin(before, key, first, left, path).Some?) &&
      (path in files ==> Origin(before, key, first, left, path).value in before &&
                         files[path] == before[Origin(before, key, first, left, path).value])
  }

  /** A platform's tree has nothing where the root or the overlay would already have something. */
  predicate Free(files: Files, key: string, first: bool) {
    key != PLATFORMS &&
    (forall path :: path in files && InTree(key, path) ==> path[1] != key && path[1] != PLATFORMS) &&
    (forall path :: path in files ==> !InOverlay(key, path)) &&
    (first ==> forall path :: path in files && InTree(key, path) ==> path[1..] !in files)
  }

  lemma Paths(key: string, rel: Path)
    requires rel != []
    ensures InTree(key, From(key, rel)) && From(key, rel)[1..] == rel
    ensures InOverlay(key, To(key, rel)) && To(key, rel)[2..] == rel
    ensures forall other :: From(key, rel) == From(key, other) ==> rel == other
  {
    forall other | From(key, rel) == From(key, other)
      ensures rel == other
    {
      assert From(key, other)[1..] == other;
    }
  }

  lemma TreePath(key: string, path: Path)
    requires InTree(key, path)
    ensures From(key, path[1..]) == path && path[1..] != []
  {}

  function Target(before: Files, key: string, first: bool, path: Path): Path
    requires path in before && InTree(key, path)
  {
    TreePath(key, path);
    if PlaceOf(before, key, first, path[1..]).Shared? then path[1..] else To(key, path[1..])
  }

  lemma OverlayPath(key: string, path: Path)
    requires InOverlay(key, path)
    ensures To(key, path[2..]) == path && path[2..] != []
  {}

  lemma TargetIsFree(before: Files, key: string, first: bool, left: set<Path>, path: Path)
    requires Free(before, key, first) && path in left && path in before && InTree(key, path)
    requires From(key, path[1..]) == path
    requires !PlaceOf(before, key, first, path[1..]).Dropped?
    ensures var target := Target(before, key, first, path);
            Origin(before, key, first, left, target).None? && !InTree(key, target) &&
            Origin(before, key, first, left - {path}, target) == Some(path)
  {
    hide BelongsToPlatform;
    TreePath(key, path);
    Paths(key, path[1..]);
  }

  lemma OthersKeepOrigin(before: Files, key: string, first: bool, left: set<Path>, path: Path, other: Path)
    requires Free(before, key, first) && path in left && path in before && InTree(key, path) && other != path
    requires From(key, path[1..]) == path
    requires PlaceOf(before, key, first, path[1..]).Dropped? || other != Target(before, key, first, path)
    ensures Origin(before, key, first, left - {path}, other) == Origin(before, key, first, left, other)
  {
    hide BelongsToPlatform;
    TreePath(key, path);
    Paths(key, path[1..]);
    if InOverlay(key, other) {
      OverlayPath(key, other);
    }
    if InTree(key, other) {
      TreePath(key, other);
    }
  }

  /** One file visited: it is moved to its place, or stays where it is to be removed later. */
  lemma OneMore(before: Files, key: string, first: bool, left: set<Path>, files: Files, path: Path)
    requires Free(before, key, first) && Midway(before, key, first, left, files)
    requires path in left && path in before && InTree(key, path)
    ensures path in files && files[path] == before[path] && From(key, path[1..]) == path
    ensures PlaceOf(before, key, first, path[1..]).Dropped? ==> Midway(before, key, first, left - {path}, files)
    ensures var target := Target(before, key, first, path);
            !PlaceOf(before, key, first, path[1..]).Dropped? ==>
              target !in files && Midway(before, key, first, left - {path}, (files - {path})[target := files[path]])
  {
    hide PlaceOf, Target, Free;
    TreePath(key, path);
    assert Origin(before, key, first, left, path) == Some(path);
    hide InTree, InOverlay, From;
    var dropped := PlaceOf(before, key, first, path[1..]).Dropped?;
    assert Origin(before, key, first, left - {path}, path) == if dropped then Some(path) else None by {
      VisitedOrigin(before, key, first, left, path);
    }
    if !dropped {
      TargetIsFree(before, key, first, left, path);
    }
    hide Origin;
    var target := Target(before, key, first, path);
    var next := if dropped then files else (files - {path})[target := files[path]];
    forall other
      ensures (other in next <==> Origin(before, key, first, left - {path}, other).Some?) &&
              (other in next ==> Origin(before, key, first, left - {path}, other).value in before &&
                                 next[other] == before[Origin(before, key, first, left - {path}, other).value])
    {
      if other != path && (dropped || other != target) {
        OthersKeepOrigin(before, key, first, left, path, other);
      }
    }
  }

  /** The walk compares with the shared tree as it is now, which is as it was for this platform. */
  lemma Decides(before: Files, key: string, first: bool, left: set<Path>, files: Files, path: Path)
    requires Free(before, key, first) && Midway(before, key, first, left, files)
    requires path in left && path in before && InTree(key, path)
    ensures path in files && From(key, path[1..]) == path
    ensures PlaceOf(before, key, first, path[1..]) ==
            if BelongsToPlatform(path[1..]) then Overlay
            else if first then Shared
            else if path[1..] in files && files[path[1..]] == files[path] then Dropped
            else Overlay
  {
    hide BelongsToPlatform;
    var rel := path[1..];
    TreePath(key, path);
    assert !InTree(key, rel) && !InOverlay(key, rel);
    assert Origin(before, key, first, left, path) == Some(path);
    hide Free;
    if !first {
      if From(key, rel) in before {
        PlacedFirst(before, key, first, rel);
      }
      assert Origin(before, key, first, left, rel) == if rel in before then Some(rel) else None;
    }
  }

  lemma VisitedOrigin(before: Files, key: string, first: bool, left: set<Path>, path: Path)
    requires path in before && InTree(key, path)
    ensures From(key, path[1..]) == path
    ensures Origin(before, key, first, left - {path}, path) ==
            if PlaceOf(before, key, first, path[1..]).Dropped? then Some(path) else None
  {
    hide PlaceOf;
    TreePath(key, path);
  }

  // ---- All platforms ----

  /** What the migration starts from: platform trees whose top-level names the root does not use
      itself, no overlays yet, no mark, and nothing of the root where the first tree is to go. */
  ghost predicate Clean(files: Files, keys: seq<Option<string>>) {
    (forall i, j :: 0 <= i < j < |keys| && keys[i].Some? ==> keys[i] != keys[j]) &&
    (forall i :: 0 <= i < |keys| && keys[i].Some? ==> keys[i].value !in {PLATFORMS, INTERNAL}) &&
    (forall key, path :: Some(key) in keys && path in files ==> !InOverlay(key, path)) &&
    (forall key, path :: Some(key) in keys && path in files && InTree(key, path) ==>
       path[1] != PLATFORMS && path[1] != INTERNAL && Some(path[1]) !in keys) &&
    (FirstKey(keys).Some? ==>
       forall path :: path in files && InTree(FirstKey(keys).value, path) ==> path[1..] !in files)
  }

  /** The platform at the head of the list gives the shared tree, if its key is known. */
  function FirstKey(keys: seq<Option<string>>): Option<string> {
    if keys == [] then None else keys[0]
  }

  predicate Done(keys: seq<Option<string>>, n: nat, key: string)
    requires n <= |keys|
  {
    exists i :: 0 <= i < n && keys[i] == Some(key)
  }

  /** Every file of the platforms moved so far is found with its own bytes. */
  ghost predicate Kept(start: Files, keys: seq<Option<string>>, n: nat, files: Files)
    requires n <= |keys|
  {
    forall key, rel :: Done(keys, n, key) && rel != [] && From(key, rel) in start ==>
      Resolve(files, key, rel) == Some(start[From(key, rel)])
  }

  /** Where each byte that is there now stood at the start: in place, in the same platform's tree,
      or in the first platform's. */
  ghost predicate Known(start: Files, keys: seq<Option<string>>, n: nat, files: Files)
    requires n <= |keys|
  {
    forall path :: path in files ==> HasOrigin(start, keys, n, path, files[path])
  }

  ghost predicate HasOrigin(start: Files, keys: seq<Option<string>>, n: nat, path: Path, bytes: Bytes)
    requires n <= |keys|
  {
    (path in start && start[path] == bytes && forall key :: Done(keys, n, key) ==> !InTree(key, path)) ||
    (exists key :: Done(keys, n, key) && InOverlay(key, path) && From(key, path[2..]) in start &&
                   start[From(key, path[2..])] == bytes) ||
    (n > 0 && FirstKey(keys).Some? && From(FirstKey(keys).value, path) in start && path != [] &&
     start[From(FirstKey(keys).value, path)] == bytes)
  }

  /** Nothing outside the trees moved so far has changed. */
  ghost predicate Untouched(start: Files, keys: seq<Option<string>>, n: nat, files: Files)
    requires n <= |keys|
  {
    forall path :: path in start && (forall key :: Done(keys, n, key) ==> !InTree(key, path)) ==>
      path in files && files[path] == start[path]
  }

  ghost predicate Migrated(start: Files, keys: seq<Option<string>>, n: nat, files: Files)
    requires n <= |keys|
  {
    Kept(start, keys, n, files) && Known(start, keys, n, files) && Untouched(start, keys, n, files)
  }

  /** The platform's whole tree has been visited and what was left of it removed. */
  ghost predicate Moved(before: Files, key: string, first: bool, files: Files) {
    forall path ::
      (path in files <==> !InTree(key, path) && Origin(before, key, first, {}, path).Some?) &&
      (path in files ==> Origin(before, key, first, {}, path).value in before &&
                         files[path] == before[Origin(before, key, first, {}, path).value])
  }

  lemma NotMovedYet(start: Files, keys: seq<Option<string>>)
    ensures Migrated(start, keys, 0, start)
  {}

  lemma DoneOneMore(keys: seq<Option<string>>, n: nat, key: string)
    requires n < |keys|
    ensures Done(keys, n + 1, key) <==> Done(keys, n, key) || keys[n] == Some(key)
  {}

  lemma FreeOrigin(start: Files, keys: seq<Option<string>>, n: nat, path: Path, bytes: Bytes)
    requires n < |keys| && keys[n].Some? && Clean(start, keys) && HasOrigin(start, keys, n, path, bytes)
    ensures !InOverlay(keys[n].value, path)
    ensures InTree(keys[n].value, path) || n == 0 ==> path in start && start[path] == bytes
  {
    var key := keys[n].value;
    assert keys[n] in keys;
    if n > 0 && FirstKey(keys).Some? && path != [] && From(FirstKey(keys).value, path) in start {
      var first := FirstKey(keys).value;
      assert keys[0] in keys;
      Paths(first, path);
      assert From(first, path)[1] == path[0];
    }
  }

  lemma StillFree(start: Files, keys: seq<Option<string>>, n: nat, files: Files)
    requires n < |keys| && keys[n].Some? && Clean(start, keys) && Known(start, keys, n, files)
    ensures Free(files, keys[n].value, n == 0)
  {
    hide HasOrigin, InOverlay;
    var key := keys[n].value;
    assert keys[n] in keys;
    forall path | path in files
      ensures !InOverlay(key, path)
      ensures InTree(key, path) || n == 0 ==> path in start
    {
      assert HasOrigin(start, keys, n, path, files[path]);
      FreeOrigin(start, keys, n, path, files[path]);
    }
  }

  lemma StillKnown(start: Files, keys: seq<Option<string>>, n: nat, before: Files, files: Files)
    requires n < |keys| && keys[n].Some? && Clean(start, keys) && Known(start, keys, n, before)
    requires Moved(before, keys[n].value, n == 0, files)
    ensures Known(start, keys, n + 1, files)
  {
    hide HasOrigin;
    forall path | path in files
      ensures HasOrigin(start, keys, n + 1, path, files[path])
    {
      var origin := Origin(before, keys[n].value, n == 0, {}, path);
      assert origin.Some? && !InTree(keys[n].value, path);
      assert HasOrigin(start, keys, n, origin.value, before[origin.value]);
      OriginOfMoved(start, keys, n, before, path);
    }
  }

  lemma OriginOfMoved(start: Files, keys: seq<Option<string>>, n: nat, before: Files, path: Path)
    requires n < |keys| && keys[n].Some? && Clean(start, keys) && !InTree(keys[n].value, path)
    requires Origin(before, keys[n].value, n == 0, {}, path).Some?
    requires var origin := Origin(before, keys[n].value, n == 0, {}, path).value;
             origin in before && HasOrigin(start, keys, n, origin, before[origin])
    ensures HasOrigin(start, keys, n + 1, path, before[Origin(before, keys[n].value, n == 0, {}, path).value])
  {
    hide Clean, PlaceOf;
    var key := keys[n].value;
    var origin := Origin(before, key, n == 0, {}, path).value;
    forall other {
      DoneOneMore(keys, n, other);
    }
    if origin != path {
      if InOverlay(key, path) {
        OverlayPath(key, path);
        Paths(key, path[2..]);
        assert Done(keys, n + 1, key) && origin == From(key, path[2..]);
      } else {
        Paths(key, path);
        PlacedFirst(before, key, n == 0, path);
      }
      FreeOrigin(start, keys, n, origin, before[origin]);
    }
  }

  lemma PlacedFirst(before: Files, key: string, first: bool, rel: Path)
    requires From(key, rel) in before
    ensures PlaceOf(before, key, first, rel).Shared? ==> first
  {}

  /** A path that is neither in the platform's tree nor due to receive one of its files stays. */
  lemma StaysInPlace(before: Files, key: string, first: bool, files: Files, path: Path)
    requires Moved(before, key, first, files) && Free(before, key, first)
    requires !InTree(key, path) && !InOverlay(key, path)
    requires !first || path in before || From(key, path) !in before
    ensures path in files <==> path in before
    ensures path in before ==> files[path] == before[path]
  {
    hide BelongsToPlatform;
    if path != [] && From(key, path) in before {
      Paths(key, path);
      PlacedFirst(before, key, first, path);
    }
  }

  lemma StillUntouched(start: Files, keys: seq<Option<string>>, n: nat, before: Files, files: Files)
    requires n < |keys| && keys[n].Some? && Clean(start, keys) && Untouched(start, keys, n, before)
    requires Moved(before, keys[n].value, n == 0, files) && Free(before, keys[n].value, n == 0)
    ensures Untouched(start, keys, n + 1, files)
  {
    hide Clean, Moved;
    forall path | path in start && (forall key :: Done(keys, n + 1, key) ==> !InTree(key, path))
      ensures path in files && files[path] == start[path]
    {
      forall key {
        DoneOneMore(keys, n, key);
      }
      assert Done(keys, n + 1, keys[n].value);
      StaysInPlace(before, keys[n].value, n == 0, files, path);
    }
  }

  lemma KeptOfThis(start: Files, keys: seq<Option<string>>, n: nat, before: Files, files: Files, rel: Path)
    requires n < |keys| && keys[n].Some? && Clean(start, keys) && Untouched(start, keys, n, before)
    requires Moved(before, keys[n].value, n == 0, files) && Free(before, keys[n].value, n == 0)
    requires rel != [] && From(keys[n].value, rel) in start
    ensures Resolve(files, keys[n].value, rel) == Some(start[From(keys[n].value, rel)])
  {
    hide BelongsToPlatform, Free;
    var key := keys[n].value;
    assert keys[n] in keys;
    Paths(key, rel);
    var from := From(key, rel);
    assert from in before && before[from] == start[from];
    assert rel[0] == from[1];
    hide Clean, Untouched;
    FreeRel(before, key, n == 0, rel);
    var place := PlaceOf(before, key, n == 0, rel);
    PlacedFirst(before, key, n == 0, rel);
    DroppedIsSame(before, key, n == 0, rel);
    assert Origin(before, key, n == 0, {}, To(key, rel)) == if place.Overlay? then Some(from) else None;
    assert !place.Overlay? ==> Origin(before, key, n == 0, {}, rel) == Some(if place.Shared? then from else rel);
  }

  lemma FreeRel(before: Files, key: string, first: bool, rel: Path)
    requires Free(before, key, first) && rel != [] && From(key, rel) in before
    ensures !InTree(key, rel) && !InOverlay(key, rel) && !InTree(key, To(key, rel))
  {
    Paths(key, rel);
    assert From(key, rel)[1] == rel[0];
  }

  lemma DroppedIsSame(before: Files, key: string, first: bool, rel: Path)
    requires From(key, rel) in before
    ensures PlaceOf(before, key, first, rel).Dropped? ==> rel in before && before[rel] == before[From(key, rel)]
  {}

  lemma KeptOfEarlier(start: Files, keys: seq<Option<string>>, n: nat, before: Files, files: Files, key: string,
                      rel: Path)
    requires n < |keys| && keys[n].Some? && Clean(start, keys) && Done(keys, n, key)
    requires Moved(before, keys[n].value, n == 0, files) && Free(before, keys[n].value, n == 0)
    requires rel != [] && From(key, rel) in start
    ensures Resolve(files, key, rel) == Resolve(before, key, rel)
  {
    hide Moved;
    var now := keys[n].value;
    assert keys[n] in keys && Some(key) in keys;
    Paths(key, rel);
    assert rel[0] == From(key, rel)[1];
    hide Clean;
    Paths(now, To(key, rel));
    assert From(now, To(key, rel))[1] == PLATFORMS;
    assert From(now, To(key, rel)) !in before;
    assert !InOverlay(now, To(key, rel)) && !InTree(now, To(key, rel));
    StaysInPlace(before, now, n == 0, files, To(key, rel));
    StaysInPlace(before, now, n == 0, files, rel);
  }

  lemma StillMigrated(start: Files, keys: seq<Option<string>>, n: nat, before: Files, files: Files)
    requires n < |keys| && keys[n].Some? && Clean(start, keys) && Migrated(start, keys, n, before)
    requires Moved(before, keys[n].value, n == 0, files)
    ensures Migrated(start, keys, n + 1, files)
  {
    hide Clean, Moved, Free, Known, Untouched, Resolve, Done;
    StillFree(start, keys, n, before);
    StillKnown(start, keys, n, before, files);
    StillUntouched(start, keys, n, before, files);
    forall key, rel | Done(keys, n + 1, key) && rel != [] && From(key, rel) in start
      ensures Resolve(files, key, rel) == Some(start[From(key, rel)])
    {
      DoneOneMore(keys, n, key);
      if Done(keys, n, key) {
        KeptOfEarlier(start, keys, n, before, files, key, rel);
      } else {
        KeptOfThis(start, keys, n, before, files, rel);
      }
    }
  }

  /** A platform whose key is not known is passed over. */
  lemma PassedOver(start: Files, keys: seq<Option<string>>, n: nat, files: Files)
    requires n < |keys| && keys[n].None? && Migrated(start, keys, n, files)
    ensures Migrated(start, keys, n + 1, files)
  {
    hide HasOrigin, Resolve;
    forall key {
      DoneOneMore(keys, n, key);
    }
    assert forall key :: Done(keys, n + 1, key) <==> Done(keys, n, key);
    forall path | path in files
      ensures HasOrigin(start, keys, n + 1, path, files[path])
    {
      assert HasOrigin(start, keys, n, path, files[path]);
      SameOrigin(start, keys, n, path, files[path]);
    }
  }

  lemma SameOrigin(start: Files, keys: seq<Option<string>>, n: nat, path: Path, bytes: Bytes)
    requires n < |keys| && keys[n].None? && HasOrigin(start, keys, n, path, bytes)
    ensures HasOrigin(start, keys, n + 1, path, bytes)
  {
    forall key {
      DoneOneMore(keys, n, key);
    }
    assert forall key :: Done(keys, n + 1, key) <==> Done(keys, n, key);
  }

  // ---- The start and the end of one platform's move ----

  function Tree(files: Files, key: string): set<Path> {
    set path | path in files && InTree(key, path)
  }

  function DroppedOf(before: Files, key: string, first: bool, left: set<Path>): Files {
    map path | path in before && InTree(key, path) && path !in left &&
               From(key, path[1..]) in before && PlaceOf(before, key, first, path[1..]).Dropped? :: before[path]
  }

  lemma NotVisitedYet(before: Files, key: string, first: bool)
    requires Free(before, key, first)
    ensures Midway(before, key, first, Tree(before, key), before)
    ensures DroppedOf(before, key, first, Tree(before, key)) == map[]
  {
    hide PlaceOf;
    forall path
      ensures Origin(before, key, first, Tree(before, key), path) == if path in before then Some(path) else None
    {
      if InOverlay(key, path) {
        OverlayPath(key, path);
        Paths(key, path[2..]);
      } else if !InTree(key, path) && path != [] {
        Paths(key, path);
      }
    }
  }

  lemma DroppedOneMore(before: Files, key: string, first: bool, left: set<Path>, path: Path)
    requires path in left && path in before && InTree(key, path) && From(key, path[1..]) == path
    ensures Total(DroppedOf(before, key, first, left - {path})) ==
            Total(DroppedOf(before, key, first, left)) +
            if PlaceOf(before, key, first, path[1..]).Dropped? then |before[path]| else 0
  {
    hide PlaceOf;
    var less := DroppedOf(before, key, first, left);
    if PlaceOf(before, key, first, path[1..]).Dropped? {
      assert DroppedOf(before, key, first, left - {path}) == less[path := before[path]];
      TotalWith(less, path, before[path]);
      assert less - {path} == less;
    } else {
      assert DroppedOf(before, key, first, left - {path}) == less;
    }
  }

  /** What is removed with the platform's tree is what was counted as freed. */
  lemma TreeRemoved(before: Files, key: string, first: bool, files: Files)
    requires Midway(before, key, first, {}, files)
    ensures Moved(before, key, first, files - Tree(files, key))
    ensures Total(files) == Total(files - Tree(files, key)) + Total(DroppedOf(before, key, first, {}))
  {
    hide PlaceOf, Total;
    TotalSplit(files, Tree(files, key));
    assert (map path | path in Tree(files, key) :: files[path]) == DroppedOf(before, key, first, {}) by {
      forall path | InTree(key, path)
        ensures path in files <==> path in DroppedOf(before, key, first, {})
        ensures path in files ==> files[path] == before[path]
      {
        TreePath(key, path);
      }
    }
  }

  // ---- Nothing in the way ----

  /** A file at `a` and a file at `b` cannot both be: `a` would have to be a directory. */
  predicate InTheWay(a: Path, b: Path) {
    0 < |a| < |b| && b[..|a|] == a
  }

  /** Some part of the path is a file already, so no directory can be made for it. */
  predicate Blocked(files: Files, path: Path) {
    exists n :: 0 < n < |path| && path[..n] in files
  }

  predicate IsDirectory(files: Files, path: Path) {
    exists other :: other in files && InTheWay(path, other)
  }

  /** Room for one platform: no file where it needs a directory, and no directory where it needs a
      file. */
  ghost predicate Open(before: Files, key: string) {
    forall path, other :: path in before && InTree(key, path) && other in before ==>
      if InTree(key, other) then !InTheWay(other[1..], path[1..])
      else !InTheWay(other, path[1..]) && !InTheWay(path[1..], other) && !InTheWay(other, To(key, path[1..]))
  }

  lemma NotBlocked(files: Files, path: Path)
    requires forall other :: other in files ==> !InTheWay(other, path)
    ensures !Blocked(files, path)
  {
    forall n | 0 < n < |path|
      ensures path[..n] !in files
    {
      assert InTheWay(path[..n], path);
    }
  }

  /** During the walk the shared tree has room for every file that is still to come. */
  lemma SharedIsOpen(before: Files, key: string, first: bool, left: set<Path>, files: Files, path: Path)
    requires Free(before, key, first) && Open(before, key) && Midway(before, key, first, left, files)
    requires path in left && path in before && InTree(key, path)
    ensures !Blocked(files, path[1..]) && !IsDirectory(files, path[1..])
  {
    hide PlaceOf, Blocked;
    var rel := path[1..];
    forall other | other in files
      ensures !InTheWay(other, rel) && !InTheWay(rel, other)
    {
      if InTheWay(other, rel) || InTheWay(rel, other) {
        assert other[0] == rel[0] == path[1];
        if From(key, other) in before {
          Paths(key, other);
        }
      }
    }
    NotBlocked(files, rel);
  }

  lemma OverlayIsOpen(before: Files, key: string, first: bool, left: set<Path>, files: Files, path: Path)
    requires Free(before, key, first) && Open(before, key) && Midway(before, key, first, left, files)
    requires path in left && path in before && InTree(key, path)
    ensures !Blocked(files, To(key, path[1..])) && !IsDirectory(files, To(key, path[1..]))
  {
    hide PlaceOf, Blocked;
    var target := To(key, path[1..]);
    forall other | other in files
      ensures !InTheWay(other, target) && !InTheWay(target, other)
    {
      OverlayApart(before, key, first, left, files, path, other);
    }
    NotBlocked(files, target);
  }

  lemma OverlayApart(before: Files, key: string, first: bool, left: set<Path>, files: Files, path: Path, other: Path)
    requires Free(before, key, first) && Open(before, key) && Midway(before, key, first, left, files)
    requires path in left && path in before && InTree(key, path) && other in files
    ensures !InTheWay(other, To(key, path[1..])) && !InTheWay(To(key, path[1..]), other)
  {
    hide PlaceOf;
    var rel, target := path[1..], To(key, path[1..]);
    if InOverlay(key, other) {
      var from := From(key, other[2..]);
      OverlayPath(key, other);
      Paths(key, other[2..]);
      assert from in before && InTree(key, from) && from[1..] == other[2..];
      TailInTheWay(other, target);
      TailInTheWay(target, other);
    } else if other != [] {
      SameHead(target, other);
      if From(key, other) in before {
        Paths(key, other);
        assert From(key, other)[1] == other[0];
      }
    }
  }

  lemma SameHead(a: Path, b: Path)
    requires |a| > 1
    ensures InTheWay(a, b) ==> |b| > 2 && b[0] == a[0] && b[1] == a[1]
  {}

  lemma TailInTheWay(a: Path, b: Path)
    requires |a| > 2 && |b| > 2
    ensures InTheWay(a, b) ==> InTheWay(a[2..], b[2..])
  {
    assert |a| <= |b| ==> b[2..][..|a| - 2] == b[..|a|][2..];
  }

  /** No two files of the build would need one place to be both a file and a directory once the
      trees are laid over each other, the root keeps its own names free, and every tree is there. */
  ghost predicate Roomy(start: Files, keys: seq<Option<string>>) {
    (forall key, path, other :: Some(key) in keys && path in start && InTree(key, path) && other in start ==>
       (|other| > 1 && Some(other[0]) in keys ==> !InTheWay(other[1..], path[1..])) &&
       !InTheWay(other, path[1..]) && !InTheWay(path[1..], other)) &&
    (forall path :: path in start ==> path != [PLATFORMS] && path != [INTERNAL] && !InTheWay(MARK, path)) &&
    (forall key :: Some(key) in keys ==> [PLATFORMS, key] !in start) &&
    forall key :: Some(key) in keys ==> exists path :: path in start && InTree(key, path)
  }

  predicate Beside(key: string, path: Path, other: Path)
    requires |path| > 1
  {
    if InTree(key, other) then !InTheWay(other[1..], path[1..])
    else !InTheWay(other, path[1..]) && !InTheWay(path[1..], other) && !InTheWay(other, To(key, path[1..]))
  }

  lemma StartIsBeside(start: Files, keys: seq<Option<string>>, key: string, path: Path, other: Path)
    requires Clean(start, keys) && Roomy(start, keys) && Some(key) in keys && path in start && InTree(key, path)
    requires other in start
    ensures Beside(key, path, other)
  {
    var target := To(key, path[1..]);
    assert other in start ==> !InOverlay(key, other);
    hide Clean;
    assert |other| <= 2 && InTheWay(other, target) ==> other == [PLATFORMS] || other == [PLATFORMS, key];
  }

  lemma OverlayIsBeside(start: Files, keys: seq<Option<string>>, key: string, path: Path, other: Path)
    requires Clean(start, keys) && Some(key) in keys && path in start && InTree(key, path)
    requires |other| > 2 && other[0] == PLATFORMS && other[1] != key && key != PLATFORMS
    ensures Beside(key, path, other)
  {
    TreeIsPlain(start, keys, key, path);
  }

  lemma FirstIsBeside(start: Files, keys: seq<Option<string>>, key: string, path: Path, other: Path)
    requires Clean(start, keys) && Roomy(start, keys) && Some(key) in keys && path in start && InTree(key, path)
    requires FirstKey(keys).Some? && other != [] && From(FirstKey(keys).value, other) in start
    requires !InTree(key, other)
    ensures Beside(key, path, other)
  {
    FirstTreeIsPlain(start, keys, other);
    hide Clean;
    assert keys[0] in keys;
    Paths(FirstKey(keys).value, other);
    var from := From(FirstKey(keys).value, other);
    assert from[0] == FirstKey(keys).value;
    assert path[0] == key;
  }

  lemma StillOpen(start: Files, keys: seq<Option<string>>, n: nat, files: Files)
    requires n < |keys| && keys[n].Some? && Clean(start, keys) && Roomy(start, keys) && Known(start, keys, n, files)
    ensures Open(files, keys[n].value)
  {
    hide HasOrigin, InTheWay, Clean, Roomy;
    var key := keys[n].value;
    assert keys[n] in keys;
    forall path, other | path in files && InTree(key, path) && other in files
      ensures Beside(key, path, other)
    {
      KnownOne(start, keys, n, files, path);
      FreeOrigin(start, keys, n, path, files[path]);
      KnownOne(start, keys, n, files, other);
      OriginIsBeside(start, keys, n, path, other, files[other]);
    }
  }

  lemma OriginIsBeside(start: Files, keys: seq<Option<string>>, n: nat, path: Path, other: Path, bytes: Bytes)
    requires n < |keys| && keys[n].Some? && Clean(start, keys) && Roomy(start, keys)
    requires path in start && InTree(keys[n].value, path) && HasOrigin(start, keys, n, other, bytes)
    ensures Beside(keys[n].value, path, other)
  {
    hide Roomy, Beside;
    var key := keys[n].value;
    assert keys[n] in keys;
    FreeOrigin(start, keys, n, other, bytes);
    if other in start {
      StartIsBeside(start, keys, key, path, other);
    } else if exists past :: Done(keys, n, past) && InOverlay(past, other) {
      var past :| Done(keys, n, past) && InOverlay(past, other);
      OverlayIsBeside(start, keys, key, path, other);
    } else {
      FirstIsBeside(start, keys, key, path, other);
    }
  }

  lemma SomeTree(start: Files, keys: seq<Option<string>>, key: string) returns (path: Path)
    requires Roomy(start, keys) && Some(key) in keys
    ensures path in start && InTree(key, path)
  {
    path :| path in start && InTree(key, path);
  }

  lemma NotDoneBefore(start: Files, keys: seq<Option<string>>, n: nat, past: string)
    requires n < |keys| && keys[n].Some? && Clean(start, keys) && Done(keys, n, past)
    ensures past != keys[n].value
  {}

  lemma TreeIsThere(start: Files, keys: seq<Option<string>>, n: nat, files: Files)
    requires n < |keys| && keys[n].Some? && Clean(start, keys) && Roomy(start, keys) && Untouched(start, keys, n, files)
    ensures Tree(files, keys[n].value) != {}
  {
    hide Clean, Roomy, Done;
    assert keys[n] in keys;
    var path := SomeTree(start, keys, keys[n].value);
    forall past | Done(keys, n, past)
      ensures !InTree(past, path)
    {
      NotDoneBefore(start, keys, n, past);
    }
    assert path in Tree(files, keys[n].value);
  }

  // ---- The mark, and the whole migration ----

  lemma CleanWithMark(start: Files, keys: seq<Option<string>>, text: Bytes)
    requires Clean(start, keys) && MARK !in start
    ensures Clean(start[MARK := text], keys) && Total(start[MARK := text]) == Total(start) + |text|
  {
    hide Total;
    TotalWith(start, MARK, text);
    assert start - {MARK} == start;
    var marked := start[MARK := text];
    forall key, path | Some(key) in keys && path in marked
      ensures !InOverlay(key, path)
      ensures InTree(key, path) ==> path in start
    {
      var i :| 0 <= i < |keys| && keys[i] == Some(key);
    }
    if FirstKey(keys).Some? {
      assert keys[0] in keys;
      forall path | path in marked && InTree(FirstKey(keys).value, path)
        ensures path[1..] !in marked
      {
        assert path[1..][0] == path[1];
      }
    }
  }

  lemma RoomyWithMark(start: Files, keys: seq<Option<string>>, text: Bytes)
    requires Clean(start, keys) && Roomy(start, keys)
    ensures !Blocked(start, MARK) && !IsDirectory(start, MARK) && Roomy(start[MARK := text], keys)
  {
    var marked := start[MARK := text];
    forall other | other in start
      ensures !InTheWay(other, MARK)
    {
      assert InTheWay(other, MARK) ==> other == [INTERNAL];
    }
    NotBlocked(start, MARK);
    forall key, path, other | Some(key) in keys && path in marked && InTree(key, path) && other in marked
      ensures (|other| > 1 && Some(other[0]) in keys ==> !InTheWay(other[1..], path[1..])) &&
              !InTheWay(other, path[1..]) && !InTheWay(path[1..], other)
    {
      MarkOrStart(start, keys, key, path, other);
    }
    forall key | Some(key) in keys
      ensures exists path :: path in marked && InTree(key, path)
    {
      var path :| path in start && InTree(key, path);
      assert path in marked;
    }
  }

  lemma MarkOrStart(start: Files, keys: seq<Option<string>>, key: string, path: Path, other: Path)
    requires Clean(start, keys) && Roomy(start, keys) && Some(key) in keys && InTree(key, path)
    requires (path in start || path == MARK) && (other in start || other == MARK)
    ensures (|other| > 1 && Some(other[0]) in keys ==> !InTheWay(other[1..], path[1..])) &&
            !InTheWay(other, path[1..]) && !InTheWay(path[1..], other)
  {
    forall name | Some(name) in keys
      ensures name != INTERNAL
    {
      var i :| 0 <= i < |keys| && keys[i] == Some(name);
    }
    TreeIsPlain(start, keys, key, path);
  }

  lemma MarkIsApart(start: Files, keys: seq<Option<string>>, n: nat, key: string)
    requires n <= |keys| && Clean(start, keys) && Done(keys, n, key)
    ensures !InTree(key, MARK) && Some(key) in keys && key != INTERNAL && key != PLATFORMS
    ensures forall rel :: From(key, rel) != MARK && To(key, rel) != MARK
    ensures forall rel :: rel != [] && From(key, rel) in start ==> rel != MARK
  {
    hide Clean;
    assert key != INTERNAL && key != PLATFORMS by { KeyIsPlain(start, keys, n, key); }
    forall rel | rel != [] && From(key, rel) in start
      ensures rel != MARK
    {
      Paths(key, rel);
      assert From(key, rel)[1] == rel[0];
      TreeIsPlain(start, keys, key, From(key, rel));
    }
    forall rel
      ensures From(key, rel) != MARK && To(key, rel) != MARK
    {
      assert From(key, rel)[0] == key && To(key, rel)[0] == PLATFORMS && MARK[0] == INTERNAL;
    }
  }

  lemma KeyIsPlain(start: Files, keys: seq<Option<string>>, n: nat, key: string)
    requires n <= |keys| && Clean(start, keys) && Done(keys, n, key)
    ensures key != INTERNAL && key != PLATFORMS
  {}

  lemma TreeIsPlain(start: Files, keys: seq<Option<string>>, key: string, path: Path)
    requires Clean(start, keys) && Some(key) in keys && path in start && InTree(key, path)
    ensures path[1] != PLATFORMS && path[1] != INTERNAL && Some(path[1]) !in keys
  {}

  lemma WithoutMark(start: Files, keys: seq<Option<string>>, text: Bytes, files: Files)
    requires Clean(start, keys) && MARK !in start && Migrated(start[MARK := text], keys, |keys|, files)
    ensures Migrated(start, keys, |keys|, files - {MARK})
    ensures Total(files) == Total(files - {MARK}) + |text|
  {
    hide Clean, Total, Done, InTree, InOverlay, From, To, HasOrigin;
    var n, marked, after := |keys|, start[MARK := text], files - {MARK};
    assert MARK in files && files[MARK] == text by { MarkIsThere(start, keys, text, files); }
    TotalWithout(files, MARK);
    forall path | path in after
      ensures HasOrigin(start, keys, n, path, after[path])
    {
      KnownOne(marked, keys, n, files, path);
      OriginWithoutMark(start, keys, text, path, after[path]);
    }
    forall key, rel | Done(keys, n, key) && rel != [] && From(key, rel) in start
      ensures Resolve(after, key, rel) == Some(start[From(key, rel)])
    {
      MarkIsApart(start, keys, n, key);
      assert Resolve(files, key, rel) == Some(marked[From(key, rel)]);
    }
  }

  lemma MarkIsThere(start: Files, keys: seq<Option<string>>, text: Bytes, files: Files)
    requires Clean(start, keys) && Untouched(start[MARK := text], keys, |keys|, files)
    ensures MARK in files && files[MARK] == text
  {
    hide Clean;
    forall key | Done(keys, |keys|, key)
      ensures !InTree(key, MARK)
    {
      MarkIsApart(start, keys, |keys|, key);
    }
  }

  lemma OriginWithoutMark(start: Files, keys: seq<Option<string>>, text: Bytes, path: Path, bytes: Bytes)
    requires Clean(start, keys) && path != MARK && HasOrigin(start[MARK := text], keys, |keys|, path, bytes)
    ensures HasOrigin(start, keys, |keys|, path, bytes)
  {
    hide Clean, InTree, InOverlay, From, Done;
    forall key | Done(keys, |keys|, key)
      ensures From(key, path) != MARK && (|path| >= 2 ==> From(key, path[2..]) != MARK)
    {
      MarkIsApart(start, keys, |keys|, key);
    }
    if FirstKey(keys).Some? {
      FirstIsDone(keys);
    }
    assert forall key :: InOverlay(key, path) ==> |path| >= 2 by { OverlayIsLong(path); }
  }

  lemma OverlayIsLong(path: Path)
    ensures forall key :: InOverlay(key, path) ==> |path| >= 2
  {}

  lemma FirstIsDone(keys: seq<Option<string>>)
    requires FirstKey(keys).Some?
    ensures Done(keys, |keys|, FirstKey(keys).value)
  {
    assert keys[0] == Some(FirstKey(keys).value);
  }

  /** What the migration is for: every platform finds each of its files with its own bytes, and
      whatever else it finds is a file of the first platform or of the root, at that same path. */
  lemma EveryPlatformSeesItsOwn(start: Files, keys: seq<Option<string>>, files: Files, key: string, rel: Path)
    requires Clean(start, keys) && Migrated(start, keys, |keys|, files)
    requires Some(key) in keys && rel != [] && rel[0] !in {PLATFORMS, INTERNAL}
    ensures From(key, rel) in start ==> Resolve(files, key, rel) == Some(start[From(key, rel)])
    ensures From(key, rel) !in start ==>
              match Resolve(files, key, rel)
              case None => true
              case Some(bytes) =>
                (FirstKey(keys).Some? && From(FirstKey(keys).value, rel) in start &&
                 start[From(FirstKey(keys).value, rel)] == bytes) ||
                (rel in start && start[rel] == bytes)
    ensures !InTree(key, rel) || rel !in files
  {
    hide Resolve, Clean, Known, Untouched;
    var n := |keys|;
    var i :| 0 <= i < |keys| && keys[i] == Some(key);
    assert Done(keys, n, key);
    assert Kept(start, keys, n, files);
    hide Kept;
    Paths(key, rel);
    if To(key, rel) in files {
      InOverlayIsOwn(start, keys, files, key, rel);
    }
    if rel in files {
      assert HasOrigin(start, keys, n, rel, files[rel]) by { KnownOne(start, keys, n, files, rel); }
      SharedIsFirstOrRoot(start, keys, rel, files[rel], key);
    }
    assert Resolve(files, key, rel) == if To(key, rel) in files then Some(files[To(key, rel)])
                                       else if rel in files then Some(files[rel]) else None by {
      ResolveMeans(files, key, rel);
    }
  }

  lemma ResolveMeans(files: Files, key: string, rel: Path)
    ensures Resolve(files, key, rel) == if To(key, rel) in files then Some(files[To(key, rel)])
                                        else if rel in files then Some(files[rel]) else None
  {}

  lemma KnownOne(start: Files, keys: seq<Option<string>>, n: nat, files: Files, path: Path)
    requires n <= |keys| && Known(start, keys, n, files) && path in files
    ensures HasOrigin(start, keys, n, path, files[path])
  {
    hide HasOrigin;
  }

  lemma InOverlayIsOwn(start: Files, keys: seq<Option<string>>, files: Files, key: string, rel: Path)
    requires Clean(start, keys) && Known(start, keys, |keys|, files) && Some(key) in keys && rel != []
    requires To(key, rel) in files
    ensures From(key, rel) in start && files[To(key, rel)] == start[From(key, rel)]
  {
    var path := To(key, rel);
    Paths(key, rel);
    KnownOne(start, keys, |keys|, files, path);
    hide Known;
    FirstTreeIsPlain(start, keys, path);
  }

  lemma FirstTreeIsPlain(start: Files, keys: seq<Option<string>>, rel: Path)
    requires Clean(start, keys) && rel != []
    ensures FirstKey(keys).Some? && From(FirstKey(keys).value, rel) in start ==>
              rel[0] != PLATFORMS && rel[0] != INTERNAL && Some(rel[0]) !in keys
  {
    if FirstKey(keys).Some? && From(FirstKey(keys).value, rel) in start {
      assert keys[0] in keys;
      Paths(FirstKey(keys).value, rel);
      TreeIsPlain(start, keys, FirstKey(keys).value, From(FirstKey(keys).value, rel));
      assert From(FirstKey(keys).value, rel)[1] == rel[0];
    }
  }

  lemma SharedIsFirstOrRoot(start: Files, keys: seq<Option<string>>, rel: Path, bytes: Bytes, key: string)
    requires Clean(start, keys) && HasOrigin(start, keys, |keys|, rel, bytes) && Done(keys, |keys|, key)
    requires rel != [] && rel[0] != PLATFORMS
    ensures (FirstKey(keys).Some? && From(FirstKey(keys).value, rel) in start &&
             start[From(FirstKey(keys).value, rel)] == bytes) ||
            (rel in start && start[rel] == bytes)
    ensures !InTree(key, rel)
  {
    FirstTreeIsPlain(start, keys, rel);
  }
}
