/** What a player is given of a build: from the release directories, over the index and the
    catalog's snapshot, to the answer (server/internal/catalog/catalog.go). */
module ReleaseServing {
  import opened Wrappers
  import opened ManifestNames
  import opened ReleaseHistory
  import opened ReleaseLaws
  import opened ReleaseIndex
  import Catalog

  /** The objects that a manifest names, by the rest of it. */
  type Objects = nat -> seq<Option<string>>

  function VariantOf(data: Data, signature: Option<Data>, objects: Objects): Catalog.Variant
    requires data.Manifest?
  {
    Catalog.Variant(data, signature, data.platform, objects(data.rest))
  }

  /** What reading a listed place gives. */
  ghost function FoundAt(site: Site, p: Place, objects: Objects): Catalog.Found
    requires InIndex(site, p)
  {
    var (manifest, signature) := Behind(site, p);
    Catalog.Found(p.name, p.Released? ==> p.active,
                  if manifest.Some? && manifest.value.Manifest?
                  then Some((manifest.value.modpack, VariantOf(manifest.value, signature, objects))) else None)
  }

  method ReadPlace(site: Site, p: Place, objects: Objects) returns (found: Catalog.Found)
    requires Sane(site) && InIndex(site, p)
    ensures found == FoundAt(site, p, objects)
  {
    hide Read, SignaturePath, Older, IsManifest, Verified, Complete;
    var manifest, signature: Option<Data> := None, None;
    if p.Released? {
      var files := site.builds[p.build].releases[p.id];
      manifest, signature := Find(files, p.name), Find(files, SignaturePath(p.name));
    } else {
      manifest, signature := DataAt(site, p.name), DataAt(site, SignaturePath(p.name));
    }
    var decoded: Option<(string, Catalog.Variant)> := None;
    if manifest.Some? && manifest.value.Manifest? {
      decoded := Some((manifest.value.modpack, VariantOf(manifest.value, signature, objects)));
    }
    found := Catalog.Found(p.name, !p.Released? || p.active, decoded);
  }

  method ReadAll(site: Site, places: set<Place>, objects: Objects) returns (entries: seq<Catalog.Found>)
    requires Sane(site) && forall p :: p in places ==> InIndex(site, p)
    ensures forall f :: f in entries <==> exists p :: p in places && f == FoundAt(site, p, objects)
  {
    hide Sane, InIndex, FoundAt;
    entries := [];
    var left := places;
    while left != {}
      invariant left <= places
      invariant forall f :: f in entries <==> exists p :: p in places && p !in left && f == FoundAt(site, p, objects)
    {
      var p :| p in left;
      var found := ReadPlace(site, p, objects);
      var longer := entries + [found];
      forall f
        ensures f in longer <==>
                exists q :: q in places && q !in left - {p} && f == FoundAt(site, q, objects)
      {
        if f == found {
          assert p !in left - {p};
        }
      }
      entries, left := longer, left - {p};
    }
  }

  // ---- What is filed under a build ----

  ghost function Current(site: Site, build: string): Directory
    requires Sane(site) && Managed(site, build)
  {
    CurrentIsThere(build, site.builds[build]);
    site.builds[build].releases[Read(build, site.builds[build]).pointer.current]
  }

  lemma CurrentIsThere(build: string, disk: Disk)
    requires Indexed(build, disk) && Read(build, disk).Readable?
    ensures var id := Read(build, disk).pointer.current;
            id in Listed(Read(build, disk).pointer) && id in disk.releases && Complete(build, disk.releases[id])
  {
    hide Read, Verified, Complete;
    assert Listed(Read(build, disk).pointer)[0] == Read(build, disk).pointer.current;
  }

  ghost predicate IsCurrent(files: Directory, objects: Objects, v: Catalog.Variant) {
    exists name :: name in files && IsManifest(name) && files[name].Manifest? &&
                   v == VariantOf(files[name], Find(files, SignaturePath(name)), objects)
  }

  /** A manifest beside the builds that is filed under this one all the same. */
  ghost predicate IsStray(site: Site, build: string, objects: Objects, v: Catalog.Variant) {
    exists name ::
      Listable(site, name) && site.files[name].data.Manifest? &&
      Catalog.BuildName(name, site.files[name].data.modpack) == build &&
      v == VariantOf(site.files[name].data, DataAt(site, SignaturePath(name)), objects)
  }

  lemma ReleasedFiles(site: Site, p: Place, build: string, objects: Objects, v: Catalog.Variant)
    requires Sane(site) && InIndex(site, p) && p.Released? && Managed(site, build)
    requires Catalog.FiledUnder(FoundAt(site, p, objects), true, build, v)
    ensures IsCurrent(Current(site, build), objects, v)
  {
    CurrentIsThere(p.build, site.builds[p.build]);
    ReleaseIsComplete(site, p);
    hide Read, SignaturePath, IsManifest, Verified, Complete, Older;
  }

  lemma ReleaseIsComplete(site: Site, p: Place)
    requires Sane(site) && InIndex(site, p) && p.Released?
    ensures p.build != ""
    ensures var files := site.builds[p.build].releases[p.id];
            files[p.name].Manifest? && files[p.name].modpack == p.build
  {
    hide SignaturePath, IsManifest, Verified, ManifestName;
  }

  lemma BesideFiles(site: Site, p: Place, build: string, objects: Objects, v: Catalog.Variant)
    requires InIndex(site, p) && p.Beside?
    ensures Catalog.FiledUnder(FoundAt(site, p, objects), true, build, v) <==>
            site.files[p.name].data.Manifest? &&
            Catalog.BuildName(p.name, site.files[p.name].data.modpack) == build &&
            v == VariantOf(site.files[p.name].data, DataAt(site, SignaturePath(p.name)), objects)
  {
    hide Managed, Older, SignaturePath, IsManifest;
  }

  lemma CurrentFiled(site: Site, build: string, objects: Objects, v: Catalog.Variant) returns (p: Place)
    requires Sane(site) && Managed(site, build) && IsCurrent(Current(site, build), objects, v)
    ensures InIndex(site, p) && Catalog.FiledUnder(FoundAt(site, p, objects), true, build, v)
  {
    var disk := site.builds[build];
    CurrentIsThere(build, disk);
    var files := Current(site, build);
    var name :| name in files && IsManifest(name) && files[name].Manifest? &&
                v == VariantOf(files[name], Find(files, SignaturePath(name)), objects);
    p := Released(build, Read(build, disk).pointer.current, name, true);
    hide Read, SignaturePath, IsManifest, Verified, Complete, Older;
    assert InIndex(site, p);
    ReleaseIsComplete(site, p);
  }

  /** Under a build with releases the catalog files the manifests of the current release and the
      strays, and nothing else. */
  lemma FiledAre(site: Site, build: string, objects: Objects, entries: seq<Catalog.Found>, v: Catalog.Variant)
    requires Sane(site) && Managed(site, build)
    requires forall f :: f in entries <==> exists p :: InIndex(site, p) && f == FoundAt(site, p, objects)
    ensures v in Catalog.VariantsOf(entries, true, build) <==>
            IsCurrent(Current(site, build), objects, v) || IsStray(site, build, objects, v)
  {
    Catalog.VariantsAre(entries, true, build, v);
    hide *;
    if f :| f in entries && Catalog.FiledUnder(f, true, build, v) {
      var p :| InIndex(site, p) && f == FoundAt(site, p, objects);
      if p.Released? {
        ReleasedFiles(site, p, build, objects, v);
      } else {
        BesideFiles(site, p, build, objects, v);
        StrayAt(site, p, build, objects, v);
      }
    }
    if IsCurrent(Current(site, build), objects, v) {
      var p := CurrentFiled(site, build, objects, v);
      assert FoundAt(site, p, objects) in entries;
    }
    if IsStray(site, build, objects, v) {
      var p := StrayFiled(site, build, objects, v);
      assert FoundAt(site, p, objects) in entries;
    }
  }

  lemma StrayAt(site: Site, p: Place, build: string, objects: Objects, v: Catalog.Variant)
    requires InIndex(site, p) && p.Beside? && site.files[p.name].data.Manifest?
    requires Catalog.BuildName(p.name, site.files[p.name].data.modpack) == build
    requires v == VariantOf(site.files[p.name].data, DataAt(site, SignaturePath(p.name)), objects)
    ensures IsStray(site, build, objects, v)
  {
    hide Listable, SignaturePath;
  }

  lemma StrayFiled(site: Site, build: string, objects: Objects, v: Catalog.Variant) returns (p: Place)
    requires IsStray(site, build, objects, v)
    ensures InIndex(site, p) && Catalog.FiledUnder(FoundAt(site, p, objects), true, build, v)
  {
    hide SignaturePath, Managed, Older, IsManifest;
    var name :| Listable(site, name) && site.files[name].data.Manifest? &&
                Catalog.BuildName(name, site.files[name].data.modpack) == build &&
                v == VariantOf(site.files[name].data, DataAt(site, SignaturePath(name)), objects);
    p := Beside(name);
  }

  // ---- What is given ----

  predicate HasFor(build: string, files: Directory, platform: Platform) {
    var name := ManifestName(build, platform);
    name in files && files[name].Manifest? && files[name].platform == platform
  }

  function Given(build: string, files: Directory, platform: Platform): Catalog.Served
    requires HasFor(build, files, platform) && SignaturePath(ManifestName(build, platform)) in files
  {
    var name := ManifestName(build, platform);
    Catalog.Served(files[name], files[SignaturePath(name)])
  }

  /** What a release answers: its manifest for the platform, or else its manifest for any. */
  ghost function Answer(build: string, files: Directory, want: Platform): Catalog.Served
    requires Complete(build, files)
  {
    if want != Unspecified && HasFor(build, files, want) then Given(build, files, want)
    else if HasFor(build, files, Unspecified) then Given(build, files, Unspecified)
    else Catalog.PlatformUnavailable
  }

  /** The manifest of a platform stands under one name only, and is signed. */
  lemma CurrentFor(build: string, files: Directory, objects: Objects, v: Catalog.Variant)
    requires Complete(build, files) && IsCurrent(files, objects, v)
    ensures HasFor(build, files, v.platform) && v.signature.Some?
    ensures Given(build, files, v.platform) == Catalog.Served(v.canonical, v.signature.value)
  {
    hide IsManifest, SignaturePath, ManifestName;
  }

  lemma ForCurrent(build: string, files: Directory, objects: Objects, platform: Platform) returns (v: Catalog.Variant)
    requires Complete(build, files) && HasFor(build, files, platform)
    ensures IsCurrent(files, objects, v) && v.platform == platform
  {
    ManifestNameIsManifest(build, platform);
    hide IsManifest, SignaturePath, ManifestName;
    var name := ManifestName(build, platform);
    v := VariantOf(files[name], Find(files, SignaturePath(name)), objects);
  }

  /** If only manifests of the current release are filed, `Get` gives its answer. */
  lemma SuitingIsAnswer(build: string, files: Directory, objects: Objects, list: seq<Catalog.Variant>, want: Platform,
                        v: Catalog.Variant)
    requires Complete(build, files) && forall w :: w in list <==> IsCurrent(files, objects, w)
    requires v in list && Catalog.Suits(list, want, v)
    ensures v.signature.Some? && Answer(build, files, want) == Catalog.Served(v.canonical, v.signature.value)
  {
    CurrentFor(build, files, objects, v);
    hide IsCurrent, Complete, Given;
    if want != Unspecified && HasFor(build, files, want) {
      var w := ForCurrent(build, files, objects, want);
      assert w in list;
    } else if want != Unspecified {
      forall w | w in list
        ensures w.platform != want
      {
        CurrentFor(build, files, objects, w);
      }
    }
  }

  lemma SomethingSuits(build: string, files: Directory, objects: Objects, list: seq<Catalog.Variant>, want: Platform)
    returns (v: Catalog.Variant)
    requires Complete(build, files) && forall w :: w in list <==> IsCurrent(files, objects, w)
    requires HasFor(build, files, want) || HasFor(build, files, Unspecified)
    ensures v in list && Catalog.Suits(list, want, v)
  {
    hide IsCurrent, Complete;
    if HasFor(build, files, want) {
      v := ForCurrent(build, files, objects, want);
    } else {
      v := ForCurrent(build, files, objects, Unspecified);
      forall w | w in list
        ensures w.platform != want
      {
        CurrentFor(build, files, objects, w);
      }
    }
  }

  lemma NothingSuits(build: string, files: Directory, objects: Objects, list: seq<Catalog.Variant>, want: Platform)
    requires Complete(build, files) && forall w :: w in list <==> IsCurrent(files, objects, w)
    requires forall v :: v in list ==> !Catalog.Suits(list, want, v)
    ensures Answer(build, files, want) == Catalog.PlatformUnavailable
  {
    hide IsCurrent, Complete, Given, HasFor;
    if HasFor(build, files, want) || HasFor(build, files, Unspecified) {
      var v := SomethingSuits(build, files, objects, list, want);
    }
  }

  lemma SomethingCurrent(build: string, files: Directory, objects: Objects) returns (v: Catalog.Variant)
    requires Complete(build, files)
    ensures IsCurrent(files, objects, v)
  {
    hide IsManifest, SignaturePath, ManifestName;
    var name :| name in files && IsManifest(name);
    v := VariantOf(files[name], Find(files, SignaturePath(name)), objects);
  }

  ghost predicate NoStrays(site: Site, build: string, objects: Objects)
    requires Sane(site) && Managed(site, build)
  {
    forall v :: IsStray(site, build, objects, v) ==> IsCurrent(Current(site, build), objects, v)
  }

  /** From the directories to the answer: the index, the snapshot, the choice.  With no stray manifest
      beside the builds a player gets exactly what the current release has. */
  method Serve(site: Site, build: string, want: Platform, objects: Objects) returns (ok: bool, served: Catalog.Served)
    ensures ok <==> Sane(site)
    ensures ok && Managed(site, build) && NoStrays(site, build, objects) ==>
              Complete(build, Current(site, build)) && served == Answer(build, Current(site, build), want)
  {
    hide *;
    served := Catalog.NotFound;
    var places, stamp;
    ok, places, stamp := Index(site);
    if !ok {
      return;
    }
    var entries := ReadAll(site, places, objects);
    var snap := Catalog.Collect(entries);
    served := Catalog.Get(snap, build, want);
    if Managed(site, build) && NoStrays(site, build, objects) {
      CurrentComplete(site, build);
      ListIsCurrent(site, build, objects, entries, snap);
      var files, list := Current(site, build), Catalog.ListOf(snap.builds, build);
      var some := SomethingCurrent(build, files, objects);
      assert some in list;
      match served {
        case Served(_, _) =>
          var v :| v in list && Catalog.Suits(list, want, v) && v.canonical == served.canonical &&
                   v.signature == Some(served.signature);
          SuitingIsAnswer(build, files, objects, list, want, v);
        case Unsigned =>
          var v :| v in list && Catalog.Suits(list, want, v) && v.signature == None;
          SuitingIsAnswer(build, files, objects, list, want, v);
        case PlatformUnavailable => NothingSuits(build, files, objects, list, want);
        case NotFound =>
      }
    }
  }

  lemma CurrentComplete(site: Site, build: string)
    requires Sane(site) && Managed(site, build)
    ensures Complete(build, Current(site, build))
  {
    CurrentIsThere(build, site.builds[build]);
    hide Complete;
  }

  lemma ListIsCurrent(site: Site, build: string, objects: Objects, entries: seq<Catalog.Found>, snap: Catalog.Snapshot)
    requires Sane(site) && Managed(site, build) && NoStrays(site, build, objects)
    requires forall f :: f in entries <==> exists p :: InIndex(site, p) && f == FoundAt(site, p, objects)
    requires Catalog.Sorted(Catalog.ListOf(snap.builds, build), Catalog.VariantsOf(entries, true, build))
    ensures forall v :: v in Catalog.ListOf(snap.builds, build) <==> IsCurrent(Current(site, build), objects, v)
  {
    hide Sane, Managed, InIndex, FoundAt, IsCurrent, IsStray, Current;
    var list, filed := Catalog.ListOf(snap.builds, build), Catalog.VariantsOf(entries, true, build);
    forall v
      ensures v in list <==> IsCurrent(Current(site, build), objects, v)
    {
      FiledAre(site, build, objects, entries, v);
      assert v in list <==> v in multiset(list);
      assert v in filed <==> v in multiset(filed);
    }
  }

  /** The condition is exact: with a stray that the current release does not have, there is a
      platform for which that stray suits. */
  lemma StraysDecide(site: Site, build: string, objects: Objects, list: seq<Catalog.Variant>)
    requires Sane(site) && Managed(site, build)
    requires forall v :: v in list <==> IsCurrent(Current(site, build), objects, v) || IsStray(site, build, objects, v)
    ensures NoStrays(site, build, objects) <==>
            forall want, v :: v in list && Catalog.Suits(list, want, v) ==> IsCurrent(Current(site, build), objects, v)
  {
    hide IsCurrent, IsStray, Sane, Managed, Current;
    if v :| IsStray(site, build, objects, v) && !IsCurrent(Current(site, build), objects, v) {
      assert v in list && Catalog.Suits(list, v.platform, v);
    }
  }

  /** A manifest of the build under another name is a stray, and the catalog offers it beside the
      current release, also for a platform that the release does not have. */
  lemma AnotherNameIsStray(site: Site, objects: Objects)
    requires Sane(site) && Managed(site, "pack")
    requires "x.manifest" in site.files && site.files["x.manifest"].data == Manifest("pack", WindowsX64, 0)
    requires !HasFor("pack", Current(site, "pack"), WindowsX64)
    ensures !NoStrays(site, "pack", objects)
  {
    var name, data := "x.manifest", Manifest("pack", WindowsX64, 0);
    var v := VariantOf(data, DataAt(site, SignaturePath(name)), objects);
    XIsStray(site, objects, v);
    CurrentComplete(site, "pack");
    hide *;
    if IsCurrent(Current(site, "pack"), objects, v) {
      CurrentFor("pack", Current(site, "pack"), objects, v);
    }
    StrayBreaks(site, "pack", objects, v);
  }

  lemma StrayBreaks(site: Site, build: string, objects: Objects, v: Catalog.Variant)
    requires Sane(site) && Managed(site, build)
    requires IsStray(site, build, objects, v) && !IsCurrent(Current(site, build), objects, v)
    ensures !NoStrays(site, build, objects)
  {
    hide IsCurrent, IsStray, Sane, Managed, Current;
  }

  lemma XIsStray(site: Site, objects: Objects, v: Catalog.Variant)
    requires "x.manifest" in site.files && site.files["x.manifest"].data == Manifest("pack", WindowsX64, 0)
    requires v == VariantOf(site.files["x.manifest"].data, DataAt(site, SignaturePath("x.manifest")), objects)
    ensures v.platform == WindowsX64 && IsStray(site, "pack", objects, v)
  {
    var name := "x.manifest";
    assert name[|name| - 9..] == ".manifest" && Stem(name) == "x";
    assert "pack"[0] == 'p';
    assert !NamedFor(name, "pack");
    hide Managed, SignaturePath;
    assert Listable(site, name);
  }

  // ---- Publications and rollbacks, end to end ----

  function FileFor(files: seq<ReleaseFile>, platform: Platform): Option<ReleaseFile> {
    if files == [] then None
    else if files[0].canonical.Manifest? && files[0].canonical.platform == platform then Some(files[0])
    else FileFor(files[1..], platform)
  }

  /** What a publication promises to each platform: the bytes and signature published for it, or else
      those for any platform. */
  function Promised(files: seq<ReleaseFile>, want: Platform): Catalog.Served {
    match (if want == Unspecified then None else FileFor(files, want), FileFor(files, Unspecified))
    case (Some(file), _) => Catalog.Served(file.canonical, file.signature)
    case (None, Some(file)) => Catalog.Served(file.canonical, file.signature)
    case (None, None) => Catalog.PlatformUnavailable
  }

  lemma {:induction false} FileForMeans(files: seq<ReleaseFile>, platform: Platform)
    ensures FileFor(files, platform).Some? ==>
              exists i :: 0 <= i < |files| && files[i] == FileFor(files, platform).value &&
                          files[i].canonical.Manifest? && files[i].canonical.platform == platform
    ensures FileFor(files, platform).None? ==>
              forall i :: 0 <= i < |files| ==>
                !(files[i].canonical.Manifest? && files[i].canonical.platform == platform)
  {
    if files != [] {
      FileForMeans(files[1..], platform);
      assert forall i :: 0 < i < |files| ==> files[i] == files[1..][i - 1];
    }
  }

  /** A directory with exactly the published manifests answers for a platform just when one was
      published for it, and with that one. */
  lemma HasWhatWasPublished(build: string, disk: Disk, e: Event, platform: Platform)
    requires e.Publish? && Publishable(build, e.files) && ServesWhatWasPublished(disk, e)
    ensures var files := disk.releases[e.id];
            HasFor(build, files, platform) <==> FileFor(e.files, platform).Some?
    ensures var files, file := disk.releases[e.id], FileFor(e.files, platform);
            file.Some? ==>
              SignaturePath(ManifestName(build, platform)) in files &&
              Given(build, files, platform) == Catalog.Served(file.value.canonical, file.value.signature)
  {
    FileForMeans(e.files, platform);
    hide *;
    if HasFor(build, disk.releases[e.id], platform) {
      PublishedIfHas(build, disk, e, platform);
    }
    if FileFor(e.files, platform).Some? {
      var i :| 0 <= i < |e.files| && e.files[i] == FileFor(e.files, platform).value &&
               e.files[i].canonical.Manifest? && e.files[i].canonical.platform == platform;
      HasIfPublished(build, disk, e, i);
    }
  }

  lemma PublishedIfHas(build: string, disk: Disk, e: Event, platform: Platform)
    requires e.Publish? && e.id in disk.releases && ServesWhatWasPublished(disk, e)
    requires HasFor(build, disk.releases[e.id], platform)
    ensures exists i :: 0 <= i < |e.files| && e.files[i].canonical.Manifest? &&
                        e.files[i].canonical.platform == platform
  {
    ManifestNameIsManifest(build, platform);
    hide IsManifest, SignaturePath, ManifestName;
    var name := ManifestName(build, platform);
    assert AmongFiles(e.files, name);
    var i :| 0 <= i < |e.files| && e.files[i].name == name;
    assert Holds(disk.releases[e.id], e.files[i]);
  }

  lemma HasIfPublished(build: string, disk: Disk, e: Event, i: nat)
    requires e.Publish? && Publishable(build, e.files) && e.id in disk.releases && ServesWhatWasPublished(disk, e)
    requires i < |e.files| && e.files[i].canonical.Manifest?
    ensures var files, platform := disk.releases[e.id], e.files[i].canonical.platform;
            && HasFor(build, files, platform) && SignaturePath(ManifestName(build, platform)) in files
            && Given(build, files, platform) == Catalog.Served(e.files[i].canonical, e.files[i].signature)
  {
    hide IsManifest, SignaturePath, ManifestName, SafeComponent;
    assert Holds(disk.releases[e.id], e.files[i]) && FileFits(build, e.files[i]);
  }

  lemma AnswersWhatWasPublished(build: string, disk: Disk, e: Event, want: Platform)
    requires e.Publish? && Publishable(build, e.files) && ServesWhatWasPublished(disk, e)
    requires Complete(build, disk.releases[e.id])
    ensures Answer(build, disk.releases[e.id], want) == Promised(e.files, want)
  {
    HasWhatWasPublished(build, disk, e, want);
    HasWhatWasPublished(build, disk, e, Unspecified);
    hide HasFor, Given, Complete, ServesWhatWasPublished, FileFor, Publishable;
  }

  lemma {:induction false} HappenedCarefully(build: string, disk: Disk, events: seq<Event>, i: nat)
    requires Happens(build, disk, events) && i < |events|
    ensures events[i].Publish? ==> Publishable(build, events[i].files)
    decreases |events|
  {
    hide After, Read, Publishable, SafeWorkspace, Legacy;
    var n := |events| - 1;
    if i < n {
      HappenedCarefully(build, disk, events[..n], i);
      assert events[..n][i] == events[i];
    }
  }

  /** Whatever has been published and rolled back: while a publication is current, each platform is
      given exactly what was published for it. */
  lemma ServedWhileCurrent(site: Site, build: string, disk: Disk, events: seq<Event>, i: nat, want: Platform)
    requires Healthy(build, disk) && Happens(build, disk, events) && i < |events| && events[i].Publish?
    requires Sane(site) && build in site.builds && site.builds[build] == Final(build, disk, events)
    requires Read(build, site.builds[build]).Readable? ==>
               Read(build, site.builds[build]).pointer.current == events[i].id
    ensures Managed(site, build) && Complete(build, Current(site, build))
    ensures Answer(build, Current(site, build), want) == Promised(events[i].files, want)
  {
    HistoryStaysHealthy(build, disk, events);
    PublishedForGood(build, disk, events, i);
    HappenedCarefully(build, disk, events, i);
    hide Healthy, Happens, Read, Answer, Promised, Publishable, ServesWhatWasPublished, Complete, Indexed, Known;
    CurrentComplete(site, build);
    AnswersWhatWasPublished(build, site.builds[build], events[i], want);
  }

  /** So after any run a rollback to any earlier publication succeeds, and each platform is given what
      was published then. */
  lemma ServedAfterRollback(site: Site, build: string, disk: Disk, events: seq<Event>, i: nat, want: Platform)
    requires Healthy(build, disk) && Happens(build, disk, events) && i < |events| && events[i].Publish?
    requires Read(build, Final(build, disk, events)).Readable? ==>
               Read(build, Final(build, disk, events)).pointer.current != events[i].id
    ensures Allowed(build, Final(build, disk, events), Rollback(events[i].id))
    ensures Sane(site) && build in site.builds &&
            site.builds[build] == After(build, Final(build, disk, events), Rollback(events[i].id)) ==>
              Managed(site, build) && Complete(build, Current(site, build)) &&
              Answer(build, Current(site, build), want) == Promised(events[i].files, want)
  {
    RollbackServesThePast(build, disk, events, i);
    HappenedCarefully(build, disk, events, i);
    hide Healthy, Happens, Read, Answer, Promised, Publishable, ServesWhatWasPublished, Complete, Indexed, Allowed,
      After;
    var restored := After(build, Final(build, disk, events), Rollback(events[i].id));
    if Sane(site) && build in site.builds && site.builds[build] == restored {
      CurrentComplete(site, build);
      AnswersWhatWasPublished(build, restored, events[i], want);
    }
  }
}
