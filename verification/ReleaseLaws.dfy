/** What publications and rollbacks keep, over one step and over whole histories. */
module ReleaseLaws {
  import opened Wrappers
  import opened ManifestNames
  import opened ReleaseHistory

  // ---- One release directory ----

  predicate Named(files: seq<ReleaseFile>) {
    forall i :: 0 <= i < |files| ==> IsManifest(files[i].name) && SafeComponent(files[i].name) &&
                                     SafeComponent(SignaturePath(files[i].name))
  }

  predicate Consistent(files: seq<ReleaseFile>) {
    forall i, j :: 0 <= i < |files| && 0 <= j < |files| && files[i].name == files[j].name ==> files[i] == files[j]
  }

  predicate Holds(files: Directory, file: ReleaseFile) {
    file.name in files && files[file.name] == file.canonical &&
    SignaturePath(file.name) in files && files[SignaturePath(file.name)] == file.signature
  }

  lemma {:induction false} EveryFileIsThere(files: seq<ReleaseFile>, i: nat)
    requires Named(files) && Consistent(files) && i < |files|
    ensures Holds(FilesOf(files), files[i])
  {
    hide SafeComponent, IsManifest, SignaturePath;
    var n := |files| - 1;
    SignaturesApart(files[i].name, files[n].name);
    SignaturesApart(files[n].name, files[i].name);
    if i < n {
      EveryFileIsThere(files[..n], i);
      assert files[..n][i] == files[i];
    }
  }

  lemma {:induction false} NothingElseIsThere(files: seq<ReleaseFile>, name: string) returns (i: nat)
    requires Named(files) && name in FilesOf(files)
    ensures i < |files| && (name == files[i].name || name == SignaturePath(files[i].name))
  {
    hide SafeComponent, IsManifest, SignaturePath;
    var n := |files| - 1;
    if name == files[n].name || name == SignaturePath(files[n].name) {
      i := n;
    } else {
      i := NothingElseIsThere(files[..n], name);
    }
  }

  lemma ManifestsOf(files: seq<ReleaseFile>, name: string) returns (i: nat)
    requires Named(files) && name in FilesOf(files) && IsManifest(name)
    ensures i < |files| && name == files[i].name
  {
    hide SafeComponent, IsManifest, SignaturePath;
    i := NothingElseIsThere(files, name);
    SignaturesApart(files[i].name, files[i].name);
  }

  lemma InDirectory(files: seq<ReleaseFile>, pointer: ReleasePointer, name: string)
    requires name != INVENTORY && name != RELEASE
    ensures name in ReleaseDirectory(files, pointer) <==> name in FilesOf(files)
    ensures name in FilesOf(files) ==> ReleaseDirectory(files, pointer)[name] == FilesOf(files)[name]
  {
    hide FilesOf, DigestsOf;
  }

  /** What `VerifyRelease` checks holds of every directory a publication has finished. */
  lemma DirectoryIsVerified(files: seq<ReleaseFile>, pointer: ReleasePointer)
    requires Named(files) && files != []
    ensures Verified(ReleaseDirectory(files, pointer))
  {
    hide FilesOf, SafeComponent, IsManifest, SignaturePath;
    var directory := ReleaseDirectory(files, pointer);
    var contents := FilesOf(files);
    forall name | name in contents
      ensures SafeComponent(name) && name in directory && directory[name] == contents[name]
    {
      var i := NothingElseIsThere(files, name);
      ReservedNames(files[i].name);
      InDirectory(files, pointer, name);
    }
    forall name | name in directory && IsManifest(name)
      ensures name in contents
    {
      ReservedNames(name);
      InDirectory(files, pointer, name);
    }
    var last := files[|files| - 1];
    assert last.name in contents by { FilesOfUnfold(files); }
    assert directory[INVENTORY] == Inventory(DigestsOf(contents));
    assert last.name in DigestsOf(contents);
  }

  lemma FilesOfUnfold(files: seq<ReleaseFile>)
    requires files != []
    ensures files[|files| - 1].name in FilesOf(files)
  {}

  /** The catalog accepts a finished directory just when every file in it fits the build. */
  lemma DirectoryIsComplete(build: string, files: seq<ReleaseFile>, pointer: ReleasePointer)
    requires Named(files) && Consistent(files) && files != []
    ensures Complete(build, ReleaseDirectory(files, pointer)) <==>
            forall i :: 0 <= i < |files| ==> FileFits(build, files[i])
  {
    hide FilesOf, SafeComponent, IsManifest, SignaturePath, ManifestFits;
    var directory := ReleaseDirectory(files, pointer);
    forall i: nat | i < |files|
      ensures Holds(directory, files[i]) && IsManifest(files[i].name)
    {
      EveryFileIsThere(files, i);
      ReservedNames(files[i].name);
      InDirectory(files, pointer, files[i].name);
      InDirectory(files, pointer, SignaturePath(files[i].name));
    }
    forall name | name in directory && IsManifest(name)
      ensures exists i :: 0 <= i < |files| && files[i].name == name
    {
      ReservedNames(name);
      InDirectory(files, pointer, name);
      var i := ManifestsOf(files, name);
    }
    assert Holds(directory, files[0]);
  }

  lemma PublishableNames(build: string, files: seq<ReleaseFile>)
    requires Publishable(build, files)
    ensures Named(files) && Consistent(files)
  {
    hide SafeComponent, IsManifest, SignaturePath, ManifestName;
    forall i | 0 <= i < |files|
      ensures IsManifest(files[i].name) && SafeComponent(files[i].name) && SafeComponent(SignaturePath(files[i].name))
    {
      ManifestNameIsManifest(build, files[i].canonical.platform);
      SafeNames(build, files[i].canonical.platform);
    }
  }

  lemma {:induction false} LegacyNames(build: string, flat: Directory, platforms: seq<Platform>)
    requires SafeComponent(build) && LegacyFiles(build, flat, platforms).Some?
    ensures Named(LegacyFiles(build, flat, platforms).value)
    ensures forall file :: file in LegacyFiles(build, flat, platforms).value ==> Holds(flat, file)
  {
    hide SafeComponent, IsManifest, SignaturePath, ManifestName;
    if platforms != [] {
      LegacyNames(build, flat, platforms[1..]);
      ManifestNameIsManifest(build, platforms[0]);
      SafeNames(build, platforms[0]);
    }
  }

  lemma LegacyConsistent(build: string, disk: Disk)
    requires SafeComponent(build) && Legacy(build, disk).Some?
    ensures Named(Legacy(build, disk).value) && Consistent(Legacy(build, disk).value)
  {
    hide SafeComponent, IsManifest, SignaturePath, ManifestName, LegacyFiles;
    LegacyNames(build, disk.flat, GAME_PLATFORMS);
    var files := Legacy(build, disk).value;
    forall i, j | 0 <= i < |files| && 0 <= j < |files| && files[i].name == files[j].name
      ensures files[i] == files[j]
    {
      assert files[i] in files && files[j] in files;
    }
  }

  // ---- Crash safety ----

  /** Writing beside the listed releases changes nothing the catalog sees, so a build stays
      accepted in every state on the way to the new pointer. */
  lemma WritingChangesNothing(build: string, before: Disk, disk: Disk)
    requires Grown(before, disk)
    ensures Read(build, disk) == Read(build, before)
    ensures Indexed(build, before) ==> Indexed(build, disk)
  {
    hide SafeComponent, Sound, Verified, Complete;
  }

  // ---- One publication ----

  lemma PointerAfter(build: string, disk: Disk, e: Event)
    requires Allowed(build, disk, e) && e.Publish?
    ensures Read(build, After(build, disk, e)) ==
            if SafeWorkspace(e.metadata.workspace) && e.id !in RetainedBy(build, disk, e.legacyId)
            then Readable(NewPointer(build, disk, e)) else Invalid
  {
    hide SafeComponent, SafeWorkspace, Legacy, ReleaseDirectory, Publishable;
    var ids := RetainedBy(build, disk, e.legacyId);
    var pointer := NewPointer(build, disk, e);
    assert Publishable(build, e.files) ==> SafeComponent(build) by { hide *; PublishableIsSafe(build, e.files); }
    assert Distinct(ids) && forall id :: id in ids ==> SafeComponent(id);
    assert Listed(pointer) == [e.id] + ids;
    if e.id !in ids {
      assert Distinct([e.id] + ids);
    } else {
      var i :| 0 <= i < |ids| && ids[i] == e.id;
      assert Listed(pointer)[0] == Listed(pointer)[i + 1];
    }
  }

  lemma PublishableIsSafe(build: string, files: seq<ReleaseFile>)
    ensures Publishable(build, files) ==> SafeComponent(build)
  {}

  predicate LegacyFits(build: string, disk: Disk) {
    Legacy(build, disk).Some? &&
    var files := Legacy(build, disk).value;
    forall i :: 0 <= i < |files| ==> FileFits(build, files[i])
  }

  lemma NewIsUsable(build: string, disk: Disk, e: Event)
    requires Allowed(build, disk, e) && e.Publish?
    ensures Usable(build, After(build, disk, e), e.id)
  {
    hide ReleaseDirectory, Verified, Complete, FileFits, SafeComponent, Legacy, Read;
    PublishableNames(build, e.files);
    var pointer := NewPointer(build, disk, e);
    DirectoryIsVerified(e.files, pointer);
    DirectoryIsComplete(build, e.files, pointer);
  }

  lemma LegacyIsUsable(build: string, disk: Disk, e: Event)
    requires Allowed(build, disk, e) && e.Publish? && KeepsLegacy(build, disk)
    ensures Usable(build, After(build, disk, e), e.legacyId) <==> LegacyFits(build, disk)
  {
    hide ReleaseDirectory, Verified, Complete, FileFits, SafeComponent, Legacy, Read;
    PublishableIsSafe(build, e.files);
    LegacyConsistent(build, disk);
    DirectoryIsVerified(Legacy(build, disk).value, LegacyPointer(e.legacyId));
    DirectoryIsComplete(build, Legacy(build, disk).value, LegacyPointer(e.legacyId));
  }

  lemma OldStayUsable(build: string, disk: Disk, e: Event, id: string)
    requires Allowed(build, disk, e)
    requires e.Publish? ==> id != e.id && (KeepsLegacy(build, disk) ==> id != e.legacyId)
    ensures Usable(build, After(build, disk, e), id) <==> Usable(build, disk, id)
  {
    hide ReleaseDirectory, Verified, Complete, SafeComponent, Legacy, Read, Publishable;
  }

  /** A publication leaves the catalog readable just when the workspace it names is safe, which
      nothing checks before the pointer is written, and what it keeps was acceptable: the releases
      listed so far or, for the first publication, the files from before releases. */
  lemma PublishedIsIndexed(build: string, disk: Disk, e: Event)
    requires Allowed(build, disk, e) && e.Publish?
    ensures Indexed(build, After(build, disk, e)) <==>
            SafeWorkspace(e.metadata.workspace) &&
            if Read(build, disk).Missing? then LegacyFits(build, disk) else Indexed(build, disk)
  {
    hide Usable, SafeComponent, SafeWorkspace, Publishable, Read, FileFits, Legacy, After;
    PointerAfter(build, disk, e);
    NewIsUsable(build, disk, e);
    if Read(build, disk).Missing? {
      if KeepsLegacy(build, disk) {
        LegacyIsUsable(build, disk, e);
      }
    } else {
      forall id | id in RetainedBy(build, disk, e.legacyId) && id != e.id
        ensures Usable(build, After(build, disk, e), id) <==> Usable(build, disk, id)
      {
        OldStayUsable(build, disk, e, id);
      }
      assert !Usable(build, disk, e.id) by { NotThere(build, disk, e.id); }
    }
  }

  lemma NotThere(build: string, disk: Disk, id: string)
    requires id !in disk.releases
    ensures !Usable(build, disk, id)
  {}

  lemma {:induction false} NoLegacy(build: string, platforms: seq<Platform>)
    ensures LegacyFiles(build, map[], platforms) == Some([])
  {
    if platforms != [] {
      NoLegacy(build, platforms[1..]);
    }
  }

  /** The check that is missing, shown on a first publication: the workspace is written into the
      pointer unread, and every later reading of the pointer refuses it. */
  lemma UnsafeWorkspaceHidesTheBuild(disk: Disk, e: Event)
    requires disk == Disk(map[], map[], None)
    requires e == Publish([ReleaseFile("pack.linux.manifest", Manifest("pack", Linux, 1), Other(1))],
                          NO_METADATA.(workspace := "../pack"), "A", "B")
    ensures Indexed("pack", disk) && Allowed("pack", disk, e)
    ensures !Indexed("pack", After("pack", disk, e))
  {
    hide LegacyFiles;
    NoLegacy("pack", GAME_PLATFORMS);
    assert ManifestName("pack", Linux) == "pack.linux.manifest";
    assert !SafeComponent("../pack") by { assert "../pack"[2] == '/'; }
    PublishedIsIndexed("pack", disk, e);
  }

  // ---- Whole histories ----

  function Known(build: string, disk: Disk): set<string> {
    if Read(build, disk).Readable? then set id | id in Listed(Read(build, disk).pointer) else {}
  }

  /** The catalog accepts the build, each listed release can be restored, and the pointer is the
      current release's own record except for the history it carries. */
  predicate Healthy(build: string, disk: Disk) {
    SafeComponent(build) && Indexed(build, disk) &&
    match Read(build, disk)
    case Missing => LegacyFits(build, disk)
    case Invalid => false
    case Readable(pointer) =>
      Restorable(disk, pointer.current) && (forall id :: id in pointer.retained ==> Restorable(disk, id)) &&
      pointer == disk.releases[pointer.current][RELEASE].release.(retained := pointer.retained)
  }

  lemma {:induction false} OtherThanMembers(ids: seq<string>, id: string)
    ensures forall x :: x in OtherThan(ids, id) <==> x in ids && x != id
    ensures Distinct(ids) ==> Distinct(OtherThan(ids, id))
  {
    if ids != [] {
      OtherThanMembers(ids[1..], id);
      assert Distinct(ids) ==> Distinct(ids[1..]) && ids[0] !in ids[1..];
    }
  }

  lemma RollbackPointer(build: string, disk: Disk, e: Event)
    requires Allowed(build, disk, e) && e.Rollback?
    ensures Read(build, After(build, disk, e)).Readable?
    ensures var was := Read(build, disk).pointer;
            var now := Read(build, After(build, disk, e)).pointer;
            now == disk.releases[e.id][RELEASE].release.(retained := [was.current] + OtherThan(was.retained, e.id)) &&
            now.current == e.id && forall id :: id in Listed(now) <==> id in Listed(was)
  {
    hide SafeComponent, SafeWorkspace, Verified;
    var was := Read(build, disk).pointer;
    OtherThanMembers(was.retained, e.id);
    var others := OtherThan(was.retained, e.id);
    var i :| 0 <= i < |was.retained| && was.retained[i] == e.id;
    assert Listed(was)[0] != Listed(was)[i + 1];
    assert Distinct(was.retained) by {
      forall j, k | 0 <= j < k < |was.retained|
        ensures was.retained[j] != was.retained[k]
      {
        assert Listed(was)[j + 1] != Listed(was)[k + 1];
      }
    }
    assert was.current !in was.retained by {
      forall j | 0 <= j < |was.retained|
        ensures was.retained[j] != was.current
      {
        assert Listed(was)[0] != Listed(was)[j + 1];
      }
    }
    assert Distinct([e.id] + ([was.current] + others));
    var next := After(build, disk, e).current.value.release;
    assert Listed(next) == [e.id] + ([was.current] + others);
    assert Sound(next);
  }

  /** A rollback neither loses a release nor changes what the catalog accepts. */
  lemma RolledBackIsIndexed(build: string, disk: Disk, e: Event)
    requires Allowed(build, disk, e) && e.Rollback?
    ensures Known(build, After(build, disk, e)) == Known(build, disk)
    ensures Indexed(build, After(build, disk, e)) <==> Indexed(build, disk)
  {
    hide Sound, Verified, Complete, SafeComponent, SafeWorkspace, Read, OtherThan;
    RollbackPointer(build, disk, e);
  }

  /** The releases a step adds to the history. */
  function Added(build: string, disk: Disk, e: Event): set<string> {
    match e
    case Publish(_, _, id, legacyId) => if KeepsLegacy(build, disk) then {id, legacyId} else {id}
    case Rollback(_) => {}
  }

  predicate Careful(build: string, disk: Disk, e: Event) {
    Allowed(build, disk, e) && (e.Publish? ==> SafeWorkspace(e.metadata.workspace))
  }

  lemma KnownIsThere(build: string, disk: Disk)
    requires Indexed(build, disk)
    ensures forall id :: id in Known(build, disk) ==> id in disk.releases
  {
    hide Read, Verified, Complete;
  }

  lemma KnownAfterPublish(build: string, disk: Disk, e: Event)
    requires Careful(build, disk, e) && e.Publish? && Indexed(build, disk)
    ensures Read(build, After(build, disk, e)) == Readable(NewPointer(build, disk, e))
    ensures Known(build, After(build, disk, e)) == Known(build, disk) + Added(build, disk, e)
    ensures Known(build, disk) !! Added(build, disk, e)
  {
    hide Publishable, Legacy, Read, After, SafeComponent, SafeWorkspace, Usable;
    PointerAfter(build, disk, e);
    KnownIsThere(build, disk);
    assert forall id :: id in RetainedBy(build, disk, e.legacyId) <==>
                        id in Known(build, disk) || (KeepsLegacy(build, disk) && id == e.legacyId);
    assert Listed(NewPointer(build, disk, e)) == [e.id] + RetainedBy(build, disk, e.legacyId);
  }

  /** The history grows by exactly the releases a step adds; a rollback adds none. */
  lemma KnownGrows(build: string, disk: Disk, e: Event)
    requires Careful(build, disk, e) && Indexed(build, disk)
    ensures Known(build, After(build, disk, e)) == Known(build, disk) + Added(build, disk, e)
    ensures |Known(build, After(build, disk, e))| == |Known(build, disk)| + |Added(build, disk, e)|
  {
    hide Read, After, Allowed, KeepsLegacy, Indexed, Known, SafeWorkspace;
    if e.Publish? {
      KnownAfterPublish(build, disk, e);
    } else {
      RolledBackIsIndexed(build, disk, e);
    }
  }

  lemma RestorableAfter(build: string, disk: Disk, e: Event, id: string)
    requires Careful(build, disk, e) && SafeComponent(build)
    requires id in Added(build, disk, e) || Restorable(disk, id)
    ensures Restorable(After(build, disk, e), id)
  {
    hide SafeComponent, Verified, Read, Legacy, Publishable, FilesOf, DigestsOf;
    if e.Publish? {
      PublishableNames(build, e.files);
      assert e.files != [] by { PublishableHasFiles(build, e.files); }
      DirectoryIsVerified(e.files, NewPointer(build, disk, e));
      if KeepsLegacy(build, disk) {
        LegacyConsistent(build, disk);
        DirectoryIsVerified(Legacy(build, disk).value, LegacyPointer(e.legacyId));
      }
    }
  }

  lemma PublishableHasFiles(build: string, files: seq<ReleaseFile>)
    ensures Publishable(build, files) ==> files != []
  {}

  lemma RecordAfter(build: string, disk: Disk, e: Event)
    requires Allowed(build, disk, e) && Read(build, After(build, disk, e)).Readable?
    ensures var now := Read(build, After(build, disk, e)).pointer;
            Restorable(After(build, disk, e), now.current) ==>
              now == After(build, disk, e).releases[now.current][RELEASE].release.(retained := now.retained)
  {
    hide SafeComponent, SafeWorkspace, Sound, Verified, Legacy, Publishable, FilesOf, DigestsOf, OtherThan;
  }

  /** What every step keeps. */
  lemma StaysHealthy(build: string, disk: Disk, e: Event)
    requires Healthy(build, disk) && Careful(build, disk, e)
    ensures Healthy(build, After(build, disk, e)) && Read(build, After(build, disk, e)).Readable?
  {
    hide Read, After, Allowed, KeepsLegacy, Indexed, SafeWorkspace, SafeComponent, Restorable, LegacyFits, Added;
    var next := After(build, disk, e);
    if e.Publish? {
      KnownAfterPublish(build, disk, e);
      PublishedIsIndexed(build, disk, e);
    } else {
      RollbackPointer(build, disk, e);
      RolledBackIsIndexed(build, disk, e);
    }
    KnownGrows(build, disk, e);
    var now := Read(build, next).pointer;
    forall id | id in Listed(now)
      ensures Restorable(next, id)
    {
      assert id in Known(build, next);
      RestorableAfter(build, disk, e, id);
    }
    assert Listed(now)[0] == now.current;
    RecordAfter(build, disk, e);
  }

  predicate Happens(build: string, disk: Disk, events: seq<Event>)
    decreases |events|, 0
  {
    events == [] ||
    var n := |events| - 1;
    Happens(build, disk, events[..n]) && Careful(build, Final(build, disk, events[..n]), events[n])
  }

  function Final(build: string, disk: Disk, events: seq<Event>): Disk
    requires Happens(build, disk, events)
    decreases |events|, 1
  {
    if events == [] then disk
    else
      var n := |events| - 1;
      After(build, Final(build, disk, events[..n]), events[n])
  }

  function Published(events: seq<Event>): nat {
    if events == [] then 0
    else (if events[|events| - 1].Publish? then 1 else 0) + Published(events[..|events| - 1])
  }

  /** Over any run the build stays healthy, and its history grows by one release for each
      publication and by one more when the first publication keeps files from before releases. */
  lemma {:induction false} HistoryStaysHealthy(build: string, disk: Disk, events: seq<Event>)
    requires Healthy(build, disk) && Happens(build, disk, events)
    ensures Healthy(build, Final(build, disk, events))
    ensures events == [] || Read(build, Final(build, disk, events)).Readable?
    ensures |Known(build, Final(build, disk, events))| ==
            |Known(build, disk)| + Published(events) + (if events != [] && KeepsLegacy(build, disk) then 1 else 0)
    decreases |events|
  {
    hide Read, After, Allowed, KeepsLegacy, Indexed, SafeWorkspace, SafeComponent, Restorable, LegacyFits, Known;
    if events != [] {
      var n := |events| - 1;
      var before := Final(build, disk, events[..n]);
      HistoryStaysHealthy(build, disk, events[..n]);
      StaysHealthy(build, before, events[n]);
      KnownGrows(build, before, events[n]);
      LegacyOnlyFirst(build, before, events[n]);
      assert n == 0 ==> before == disk;
    }
  }

  lemma LegacyOnlyFirst(build: string, disk: Disk, e: Event)
    requires Allowed(build, disk, e)
    ensures |Added(build, disk, e)| == (if e.Publish? then 1 else 0) + (if KeepsLegacy(build, disk) then 1 else 0)
    ensures KeepsLegacy(build, disk) ==> Read(build, disk).Missing?
  {
    hide Legacy, Publishable, SafeComponent, Restorable;
  }

  predicate AmongFiles(files: seq<ReleaseFile>, name: string) {
    exists i :: 0 <= i < |files| && files[i].name == name
  }

  /** The release's directory has exactly the manifests that were published, with their signatures,
      and the record they were published with. */
  predicate ServesWhatWasPublished(disk: Disk, e: Event)
    requires e.Publish?
  {
    e.id in disk.releases && var directory := disk.releases[e.id];
    (forall i :: 0 <= i < |e.files| ==> Holds(directory, e.files[i])) &&
    (forall name :: name in directory && IsManifest(name) ==> AmongFiles(e.files, name)) &&
    RELEASE in directory && directory[RELEASE].Pointer? &&
    directory[RELEASE].release ==
    e.metadata.(version := 1, current := e.id, retained := directory[RELEASE].release.retained)
  }

  lemma ServesAtOnce(build: string, disk: Disk, e: Event)
    requires Allowed(build, disk, e) && e.Publish?
    ensures ServesWhatWasPublished(After(build, disk, e), e)
  {
    hide SafeComponent, SafeWorkspace, Legacy, FilesOf, DigestsOf, Read, IsManifest, SignaturePath;
    PublishableNames(build, e.files);
    var pointer := NewPointer(build, disk, e);
    assert After(build, disk, e).releases[e.id] == ReleaseDirectory(e.files, pointer);
    forall i: nat | i < |e.files|
      ensures Holds(ReleaseDirectory(e.files, pointer), e.files[i])
    {
      EveryFileIsThere(e.files, i);
      ReservedNames(e.files[i].name);
      InDirectory(e.files, pointer, e.files[i].name);
      InDirectory(e.files, pointer, SignaturePath(e.files[i].name));
    }
    forall name | name in ReleaseDirectory(e.files, pointer) && IsManifest(name)
      ensures AmongFiles(e.files, name)
    {
      ReservedNames(name);
      InDirectory(e.files, pointer, name);
      var i := ManifestsOf(e.files, name);
    }
  }

  lemma ServesStill(build: string, disk: Disk, e: Event, published: Event)
    requires Allowed(build, disk, e) && published.Publish? && ServesWhatWasPublished(disk, published)
    ensures ServesWhatWasPublished(After(build, disk, e), published)
  {
    hide SafeComponent, SafeWorkspace, Legacy, ReleaseDirectory, Read, Holds, Publishable, Verified, AmongFiles,
      IsManifest;
  }

  /** Whatever was published in a run, and whatever came after it, the release is still in the
      history with the very files and metadata it was published with. */
  lemma {:induction false} PublishedForGood(build: string, disk: Disk, events: seq<Event>, i: nat)
    requires Healthy(build, disk) && Happens(build, disk, events)
    requires i < |events| && events[i].Publish?
    ensures ServesWhatWasPublished(Final(build, disk, events), events[i])
    ensures events[i].id in Known(build, Final(build, disk, events))
    decreases |events|
  {
    hide Read, After, Allowed, Indexed, SafeWorkspace, SafeComponent, Restorable, LegacyFits, Known,
      ServesWhatWasPublished, Legacy;
    var n := |events| - 1;
    var before := Final(build, disk, events[..n]);
    HistoryStaysHealthy(build, disk, events[..n]);
    KnownGrows(build, before, events[n]);
    if i == n {
      ServesAtOnce(build, before, events[n]);
    } else {
      assert events[..n][i] == events[i];
      PublishedForGood(build, disk, events[..n], i);
      ServesStill(build, before, events[n], events[i]);
    }
  }

  lemma KnownIsRetained(build: string, disk: Disk, id: string)
    requires Healthy(build, disk) && id in Known(build, disk) && Read(build, disk).pointer.current != id
    ensures Allowed(build, disk, Rollback(id))
  {
    hide Restorable, SafeComponent, Indexed, Read;
  }

  /** Hence after any run a rollback to any earlier publication succeeds, and the build then serves
      what was published, under the metadata it was published with. */
  lemma RollbackServesThePast(build: string, disk: Disk, events: seq<Event>, i: nat)
    requires Healthy(build, disk) && Happens(build, disk, events)
    requires i < |events| && events[i].Publish?
    requires Read(build, Final(build, disk, events)).Readable? ==>
               Read(build, Final(build, disk, events)).pointer.current != events[i].id
    ensures var last := Final(build, disk, events);
            Allowed(build, last, Rollback(events[i].id)) &&
            var restored := After(build, last, Rollback(events[i].id));
            Indexed(build, restored) && ServesWhatWasPublished(restored, events[i]) &&
            Read(build, restored) == Readable(events[i].metadata.(version := 1, current := events[i].id,
                                                                 retained := Read(build, restored).pointer.retained))
  {
    hide After, Allowed, Indexed, SafeWorkspace, SafeComponent, Restorable, LegacyFits, Legacy, OtherThan, Read,
      Verified;
    var last := Final(build, disk, events);
    var e := Rollback(events[i].id);
    HistoryStaysHealthy(build, disk, events);
    PublishedForGood(build, disk, events, i);
    assert Allowed(build, last, e) by {
      KnownIsRetained(build, last, e.id);
    }
    RollbackPointer(build, last, e);
    RolledBackIsIndexed(build, last, e);
    ServesStill(build, last, e, events[i]);
  }
}
