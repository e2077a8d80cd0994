/** The catalog's index over all builds and over the manifests from before releases
    (server/internal/catalog/index.go). */
module ReleaseIndex {
  import opened Wrappers
  import opened ManifestNames
  import opened ReleaseHistory
  import opened ReleaseLaws
  import opened ReleaseStore

  datatype Kept = Kept(data: Data, time: int, size: nat)

  /** The catalog's directory: files, and one directory a build. */
  datatype Site = Site(files: map<string, Kept>, builds: map<string, Disk>)

  /** A manifest that the index lists: in a release of a build, or beside the builds. */
  datatype Place = Released(build: string, id: string, name: string, active: bool) | Beside(name: string)

  /** One line of the stamp, by which a later index is known to be the same. */
  datatype Token = Release(build: string, id: string, active: bool) | Mark(name: string, seen: Option<(int, nat)>)

  predicate Managed(site: Site, build: string) {
    build in site.builds && Read(build, site.builds[build]).Readable?
  }

  predicate NamedFor(name: string, build: string) {
    IsManifest(name) && (Stem(name) == build || build + "." <= Stem(name))
  }

  /** A manifest of the build from before its releases. */
  predicate Older(name: string, data: Data, build: string) {
    NamedFor(name, build) && data.Manifest? && data.modpack == build
  }

  ghost predicate Listable(site: Site, name: string) {
    name in site.files && IsManifest(name) &&
    forall build :: Managed(site, build) ==> !Older(name, site.files[name].data, build)
  }

  predicate InRelease(build: string, disk: Disk, id: string, name: string, active: bool) {
    Read(build, disk).Readable? &&
    var pointer := Read(build, disk).pointer;
    id in Listed(pointer) && id in disk.releases && name in disk.releases[id] && IsManifest(name) &&
    active == (id == pointer.current)
  }

  ghost predicate InIndex(site: Site, p: Place) {
    match p
    case Released(build, id, name, active) =>
      build in site.builds && InRelease(build, site.builds[build], id, name, active)
    case Beside(name) => Listable(site, name)
  }

  ghost predicate Sane(site: Site) {
    forall build :: build in site.builds ==> Indexed(build, site.builds[build])
  }

  function Seen(site: Site, name: string): Option<(int, nat)> {
    if name in site.files then Some((site.files[name].time, site.files[name].size)) else None
  }

  predicate ReleaseToken(build: string, disk: Disk, id: string, active: bool) {
    Read(build, disk).Readable? &&
    id in Listed(Read(build, disk).pointer) && active == (id == Read(build, disk).pointer.current)
  }

  ghost predicate InStamp(site: Site, t: Token) {
    match t
    case Release(build, id, active) => build in site.builds && ReleaseToken(build, site.builds[build], id, active)
    case Mark(name, seen) =>
      seen == Seen(site, name) &&
      exists manifest :: Listable(site, manifest) && (name == manifest || name == SignaturePath(manifest))
  }

  // ---- Reading the directory ----

  /** One build: its manifests, and a line for each listed release. */
  method IndexBuild(build: string, disk: Disk) returns (ok: bool, managed: bool, places: set<Place>, stamp: set<Token>)
    ensures ok <==> Indexed(build, disk)
    ensures ok ==> managed == Read(build, disk).Readable?
    ensures ok ==> forall p :: p in places <==>
                     p.Released? && p.build == build && InRelease(build, disk, p.id, p.name, p.active)
    ensures ok ==> forall t :: t in stamp <==>
                     t.Release? && t.build == build && ReleaseToken(build, disk, t.id, t.active)
  {
    hide Indexed, Read, IsManifest;
    var store := new ReleaseStore(build, true, disk);
    var reading := store.ReadRelease();
    var entries;
    ok, entries := store.Index();
    managed, places, stamp := reading.Readable?, {}, {};
    ListedIsThere(build, disk);
    if ok && managed {
      places := set e | e in entries :: Released(build, e.0, e.1, e.2);
      forall p: Place
        ensures p in places <==> p.Released? && p.build == build && (p.id, p.name, p.active) in entries
      {
        if p.Released? && p.build == build && (p.id, p.name, p.active) in entries {
          var e := (p.id, p.name, p.active);
          assert p == Released(build, e.0, e.1, e.2);
        }
      }
      var pointer := reading.pointer;
      stamp := set id | id in Listed(pointer) :: Release(build, id, id == pointer.current);
    }
  }

  lemma ListedIsThere(build: string, disk: Disk)
    ensures Indexed(build, disk) && Read(build, disk).Readable? ==>
              forall id :: id in Listed(Read(build, disk).pointer) ==> id in disk.releases
  {
    hide Read;
  }

  /** The whole directory.  One build that cannot be indexed fails the index of all. */
  method Index(site: Site) returns (ok: bool, places: set<Place>, stamp: set<Token>)
    ensures ok <==> Sane(site)
    ensures ok ==> forall p :: p in places <==> InIndex(site, p)
    ensures ok ==> forall t :: t in stamp <==> InStamp(site, t)
  {
    hide Indexed, Older, InRelease, ReleaseToken, SignaturePath, IsManifest, Read;
    places, stamp := {}, {};
    var managed: set<string> := {};
    var builds := site.builds.Keys;
    while builds != {}
      invariant builds <= site.builds.Keys
      invariant forall b :: b in site.builds && b !in builds ==> Indexed(b, site.builds[b])
      invariant forall b :: b in managed <==> Managed(site, b) && b !in builds
      invariant forall p :: p in places <==> p.Released? && p.build !in builds && InIndex(site, p)
      invariant forall t :: t in stamp <==> t.Release? && t.build !in builds && InStamp(site, t)
    {
      var build :| build in builds;
      var fits, readable, found, lines := IndexBuild(build, site.builds[build]);
      if !fits {
        return false, places, stamp;
      }
      builds, places, stamp := builds - {build}, places + found, stamp + lines;
      if readable {
        managed := managed + {build};
      }
    }
    var beside, marks := IndexFiles(site, managed);
    ok, places, stamp := true, places + beside, stamp + marks;
  }

  /** What stands beside the builds, without the older manifests of builds that have releases. */
  method IndexFiles(site: Site, managed: set<string>) returns (places: set<Place>, stamp: set<Token>)
    requires forall b :: b in managed <==> Managed(site, b)
    ensures forall p :: p in places <==> p.Beside? && InIndex(site, p)
    ensures forall t :: t in stamp <==> t.Mark? && InStamp(site, t)
  {
    hide Older, SignaturePath, IsManifest, Managed;
    places, stamp := {}, {};
    var names := site.files.Keys;
    while names != {}
      invariant names <= site.files.Keys
      invariant forall p :: p in places <==> p.Beside? && p.name !in names && InIndex(site, p)
      invariant forall t :: t in stamp <==> t.Mark? && Marked(site, names, t)
    {
      var name :| name in names;
      var rest := names - {name};
      MarkedOn(site, names, name);
      if IsManifest(name) {
        var skip := IsOlder(site, managed, name);
        if !skip {
          places := places + {Beside(name)};
          stamp := stamp + {Mark(name, Seen(site, name)),
                            Mark(SignaturePath(name), Seen(site, SignaturePath(name)))};
        }
      }
      names := rest;
    }
    AllMarked(site);
  }

  /** The marks of the manifests that are not among `left`. */
  ghost predicate Marked(site: Site, left: set<string>, t: Token)
    requires t.Mark?
  {
    t.seen == Seen(site, t.name) &&
    exists manifest :: manifest !in left && Listable(site, manifest) &&
                       (t.name == manifest || t.name == SignaturePath(manifest))
  }

  lemma MarkedOn(site: Site, left: set<string>, name: string)
    requires name in left
    ensures forall t: Token :: t.Mark? ==>
              (Marked(site, left - {name}, t) <==>
               Marked(site, left, t) ||
               (Listable(site, name) && t.seen == Seen(site, t.name) &&
                (t.name == name || t.name == SignaturePath(name))))
  {
    hide Listable, Seen, SignaturePath;
    forall t: Token | t.Mark? && Marked(site, left, t)
      ensures Marked(site, left - {name}, t)
    {
      var manifest :| manifest !in left && Listable(site, manifest) &&
                      (t.name == manifest || t.name == SignaturePath(manifest));
      assert manifest !in left - {name};
    }
    forall t: Token | t.Mark? && Listable(site, name) && t.seen == Seen(site, t.name) &&
                      (t.name == name || t.name == SignaturePath(name))
      ensures Marked(site, left - {name}, t)
    {
      assert name !in left - {name};
    }
  }

  lemma AllMarked(site: Site)
    ensures forall t: Token :: t.Mark? ==> (Marked(site, {}, t) <==> InStamp(site, t))
  {
    hide Listable, Seen, SignaturePath;
  }

  method IsOlder(site: Site, managed: set<string>, name: string) returns (skip: bool)
    requires name in site.files && IsManifest(name)
    requires forall b :: b in managed <==> Managed(site, b)
    ensures skip <==> !Listable(site, name)
  {
    hide Managed, IsManifest;
    skip := false;
    var data := site.files[name].data;
    var builds := managed;
    while builds != {}
      invariant builds <= managed
      invariant skip <==> exists b :: b in managed && b !in builds && Older(name, data, b)
    {
      var build :| build in builds;
      if Stem(name) == build || build + "." <= Stem(name) {
        if data.Manifest? && data.modpack == build {
          assert Older(name, data, build);
          skip := true;
        }
      }
      builds := builds - {build};
    }
  }

  // ---- The stamp ----

  /** A listed release never changes, and neither does a file that has kept its time and size. */
  predicate Immutable(s: Site, t: Site) {
    && (forall build, id ::
          build in s.builds && build in t.builds && id in s.builds[build].releases && id in t.builds[build].releases ==>
            s.builds[build].releases[id] == t.builds[build].releases[id])
    && forall name :: name in s.files && Seen(s, name) == Seen(t, name) ==> s.files[name].data == t.files[name].data
  }

  function Find(files: Directory, name: string): Option<Data> {
    if name in files then Some(files[name]) else None
  }

  function DataAt(site: Site, name: string): Option<Data> {
    if name in site.files then Some(site.files[name].data) else None
  }

  /** The manifest and the signature that a listed place stands for. */
  ghost function Behind(site: Site, p: Place): (Option<Data>, Option<Data>)
    requires InIndex(site, p)
  {
    match p
    case Released(build, id, name, _) =>
      var files := site.builds[build].releases[id];
      (Find(files, name), Find(files, SignaturePath(name)))
    case Beside(name) => (DataAt(site, name), DataAt(site, SignaturePath(name)))
  }

  lemma TokenOfPlace(site: Site, p: Place)
    requires InIndex(site, p)
    ensures p.Released? ==> InStamp(site, Release(p.build, p.id, p.active))
    ensures p.Beside? ==> InStamp(site, Mark(p.name, Seen(site, p.name)))
    ensures p.Beside? ==> InStamp(site, Mark(SignaturePath(p.name), Seen(site, SignaturePath(p.name))))
  {
    hide Read, SignaturePath, Older, IsManifest;
  }

  lemma ReleasedBehind(s: Site, t: Site, p: Place)
    requires Sane(t) && Immutable(s, t) && p.Released? && InIndex(s, p)
    requires InStamp(t, Release(p.build, p.id, p.active))
    ensures InIndex(t, p) && Behind(t, p) == Behind(s, p)
  {
    hide Read, SignaturePath, IsManifest, Verified, Complete;
  }

  lemma BesideBehind(s: Site, t: Site, p: Place)
    requires Immutable(s, t) && p.Beside? && InIndex(s, p)
    requires InStamp(t, Mark(p.name, Seen(s, p.name)))
    requires InStamp(t, Mark(SignaturePath(p.name), Seen(s, SignaturePath(p.name))))
    ensures InIndex(t, p) && Behind(t, p) == Behind(s, p)
  {
    hide Managed, Older, SignaturePath, IsManifest;
    var manifest :| Listable(t, manifest) && (p.name == manifest || p.name == SignaturePath(manifest));
    SignaturesApart(manifest, manifest);
    assert p.name == manifest;
  }

  /** The catalog keeps what it has read while the stamp stays the same: it would read the same
      places, with the same manifests and signatures behind them. */
  lemma SameStampSameIndex(s: Site, t: Site, p: Place)
    requires Sane(s) && Sane(t) && Immutable(s, t)
    requires forall token :: InStamp(s, token) <==> InStamp(t, token)
    ensures InIndex(s, p) <==> InIndex(t, p)
    ensures InIndex(s, p) ==> Behind(s, p) == Behind(t, p)
  {
    hide *;
    if InIndex(s, p) {
      TokenOfPlace(s, p);
      if p.Released? {
        ReleasedBehind(s, t, p);
      } else {
        BesideBehind(s, t, p);
      }
    }
    if InIndex(t, p) {
      TokenOfPlace(t, p);
      ImmutableBack(s, t);
      if p.Released? {
        ReleasedBehind(t, s, p);
      } else {
        BesideBehind(t, s, p);
      }
    }
  }

  lemma ImmutableBack(s: Site, t: Site)
    requires Immutable(s, t)
    ensures Immutable(t, s)
  {}

  // ---- One build changes ----

  function Changed(site: Site, build: string, disk: Disk): Site {
    site.(builds := site.builds[build := disk])
  }

  predicate OlderOf(site: Site, name: string, build: string) {
    name in site.files && Older(name, site.files[name].data, build)
  }

  /** What happens to one build touches its own releases and its own older manifests only. */
  lemma OthersUnmoved(site: Site, build: string, disk: Disk, p: Place)
    requires if p.Released? then p.build != build else !OlderOf(site, p.name, build)
    ensures InIndex(Changed(site, build, disk), p) <==> InIndex(site, p)
    ensures InIndex(site, p) ==> Behind(Changed(site, build, disk), p) == Behind(site, p)
  {
    hide Read, Older, SignaturePath, IsManifest;
    var t := Changed(site, build, disk);
    assert forall other :: other != build ==> (Managed(t, other) <==> Managed(site, other));
  }

  lemma {:induction false} LegacyHas(build: string, flat: Directory, platforms: seq<Platform>, name: string)
    requires LegacyFiles(build, flat, platforms).Some?
    ensures var files := LegacyFiles(build, flat, platforms).value;
            (exists i :: 0 <= i < |files| && files[i].name == name) <==>
            name in flat && exists k :: 0 <= k < |platforms| && name == ManifestName(build, platforms[k])
  {
    hide ManifestName, SignaturePath;
    if platforms != [] {
      LegacyHas(build, flat, platforms[1..], name);
      var first := ManifestName(build, platforms[0]);
      var rest := LegacyFiles(build, flat, platforms[1..]).value;
      var files := LegacyFiles(build, flat, platforms).value;
      if first in flat {
        assert files == [files[0]] + rest && files[0].name == first;
        assert forall i :: 0 <= i < |rest| ==> files[i + 1] == rest[i];
      }
      assert forall k :: 0 < k < |platforms| ==> platforms[1..][k - 1] == platforms[k];
    }
  }

  predicate OfGamePlatform(build: string, name: string) {
    exists k :: 0 <= k < |GAME_PLATFORMS| && name == ManifestName(build, GAME_PLATFORMS[k])
  }

  /** The directory written for the older files has each of them, unchanged, under a game platform's
      name, and no other manifest. */
  lemma LegacyDirectoryHas(build: string, disk: Disk, id: string, name: string)
    requires SafeComponent(build) && Legacy(build, disk).Some? && IsManifest(name)
    ensures var files := ReleaseDirectory(Legacy(build, disk).value, LegacyPointer(id));
            && (name in files <==> name in disk.flat && OfGamePlatform(build, name))
            && (name in files ==> files[name] == disk.flat[name] && SignaturePath(name) in disk.flat &&
                                  Find(files, SignaturePath(name)) == Some(disk.flat[SignaturePath(name)]))
  {
    hide SafeComponent, IsManifest, SignaturePath, ManifestName, FilesOf, LegacyFiles, GAME_PLATFORMS;
    var files, pointer := Legacy(build, disk).value, LegacyPointer(id);
    var directory := ReleaseDirectory(files, pointer);
    LegacyNames(build, disk.flat, GAME_PLATFORMS);
    LegacyConsistent(build, disk);
    LegacyHas(build, disk.flat, GAME_PLATFORMS, name);
    ReservedNames(name);
    InDirectory(files, pointer, name);
    InDirectory(files, pointer, SignaturePath(name));
    if name in directory {
      var i := ManifestsOf(files, name);
      EveryFileIsThere(files, i);
      assert files[i] in files;
    } else if i :| 0 <= i < |files| && files[i].name == name {
      EveryFileIsThere(files, i);
    }
  }

  function FlatOf(site: Site): Directory {
    map name | name in site.files :: site.files[name].data
  }

  predicate First(site: Site, build: string, e: Event) {
    && build in site.builds && site.builds[build].flat == FlatOf(site)
    && e.Publish? && Allowed(build, site.builds[build], e) && Read(build, site.builds[build]).Missing?
    && SafeWorkspace(e.metadata.workspace)
  }

  /** The first publication of a build takes its older manifests out of the index.  Each comes back
      as a retained one, with the same bytes, if and only if its name is that of a game platform. */
  lemma FirstPublication(site: Site, build: string, e: Event, name: string)
    requires First(site, build, e) && OlderOf(site, name, build)
    ensures InIndex(site, Beside(name))
    ensures var t := Changed(site, build, After(build, site.builds[build], e));
            var p := Released(build, e.legacyId, name, false);
            && !InIndex(t, Beside(name))
            && (InIndex(t, p) <==> OfGamePlatform(build, name))
            && (InIndex(t, p) ==> Behind(t, p) == Behind(site, Beside(name)))
  {
    var disk := site.builds[build];
    var after := After(build, disk, e);
    ListedBefore(site, build, name);
    PointerAfter(build, disk, e);
    HiddenAfter(Changed(site, build, after), build, name);
    LegacyListed(build, disk, e, name);
    BehindBefore(site, name);
    hide Read, Legacy, ReleaseDirectory, SafeComponent, IsManifest, SignaturePath, Publishable, OfGamePlatform, After;
  }

  lemma BehindBefore(site: Site, name: string)
    requires InIndex(site, Beside(name))
    ensures var flat := FlatOf(site);
            name in flat && Behind(site, Beside(name)) == (Some(flat[name]), Find(flat, SignaturePath(name)))
  {
    hide SignaturePath, Managed, Older, IsManifest;
  }

  lemma ListedBefore(site: Site, build: string, name: string)
    requires build in site.builds && Read(build, site.builds[build]).Missing? && OlderOf(site, name, build)
    ensures InIndex(site, Beside(name))
  {
    hide Read;
  }

  lemma HiddenAfter(site: Site, build: string, name: string)
    requires OlderOf(site, name, build)
    ensures Managed(site, build) ==> !InIndex(site, Beside(name))
  {}

  lemma LegacyListed(build: string, disk: Disk, e: Event, name: string)
    requires Allowed(build, disk, e) && e.Publish? && Read(build, disk).Missing?
    requires SafeWorkspace(e.metadata.workspace) && IsManifest(name) && name in disk.flat
    ensures var after := After(build, disk, e);
            && Read(build, after).Readable?
            && (InRelease(build, after, e.legacyId, name, false) <==> OfGamePlatform(build, name))
            && (InRelease(build, after, e.legacyId, name, false) ==>
                  Find(after.releases[e.legacyId], name) == Some(disk.flat[name]) &&
                  SignaturePath(name) in disk.flat &&
                  Find(after.releases[e.legacyId], SignaturePath(name)) == Some(disk.flat[SignaturePath(name)]))
  {
    PointerAfter(build, disk, e);
    PublishableIsSafe(build, e.files);
    LegacyDirectoryHas(build, disk, e.legacyId, name);
    if OfGamePlatform(build, name) {
      LegacyHas(build, disk.flat, GAME_PLATFORMS, name);
    }
    hide SafeComponent, IsManifest, SignaturePath, Publishable, ReleaseDirectory, GAME_PLATFORMS, SafeWorkspace;
    hide OfGamePlatform, LegacyFiles;
  }

  lemma StemOf(build: string, platform: Platform)
    ensures var name, key := ManifestName(build, platform), PlatformKey(platform);
            IsManifest(name) && Stem(name) == if key.Some? then build + ("." + key.value) else build
  {
    var name, key := ManifestName(build, platform), PlatformKey(platform);
    ManifestNameIsManifest(build, platform);
    hide PlatformKey;
    var stem := if key.Some? then build + ("." + key.value) else build;
    assert name == stem + ".manifest";
    assert name[..|stem|] == stem;
  }

  lemma NotAGames(k: nat)
    requires k < |GAME_PLATFORMS|
    ensures PlatformKey(GAME_PLATFORMS[k]) != PlatformKey(LinuxArm64)
  {
    var key := PlatformKey(GAME_PLATFORMS[k]);
    assert PlatformKey(LinuxArm64).value[0] == 'l';
    if k == 1 || k == 2 {
      assert key.value[0] == 'w';
    } else if key.Some? {
      assert |key.value| != 11;
    }
  }

  lemma NamesApart(build: string, p: Platform, q: Platform)
    requires ManifestName(build, p) == ManifestName(build, q)
    ensures PlatformKey(p) == PlatformKey(q)
  {
    StemOf(build, p);
    StemOf(build, q);
    var a, b := PlatformKey(p), PlatformKey(q);
    hide *;
    var s := if a.Some? then build + ("." + a.value) else build;
    var t := if b.Some? then build + ("." + b.value) else build;
    assert s == t;
    assert s[|build|..] == if a.Some? then "." + a.value else "";
    assert t[|build|..] == if b.Some? then "." + b.value else "";
    assert a.Some? ==> ("." + a.value)[1..] == a.value;
    assert b.Some? ==> ("." + b.value)[1..] == b.value;
  }

  /** A manifest for 64-bit ARM Linux is an older one of its build, but its name is not one of a
      game platform: the first publication takes it away. */
  lemma OneIsLost(build: string, rest: nat)
    ensures var name, data := ManifestName(build, LinuxArm64), Manifest(build, LinuxArm64, rest);
            ManifestFits(build, name, data) && Older(name, data, build) && !OfGamePlatform(build, name)
  {
    var name, key := ManifestName(build, LinuxArm64), PlatformKey(LinuxArm64).value;
    StemOf(build, LinuxArm64);
    assert build + ("." + key) == build + "." + key;
    forall k | 0 <= k < |GAME_PLATFORMS|
      ensures name != ManifestName(build, GAME_PLATFORMS[k])
    {
      NotAGames(k);
      hide *;
      if name == ManifestName(build, GAME_PLATFORMS[k]) {
        NamesApart(build, LinuxArm64, GAME_PLATFORMS[k]);
      }
    }
  }
}
