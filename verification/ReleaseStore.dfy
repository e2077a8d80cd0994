/** The release directories of one build as the code changes them, one write at a time
    (server/internal/catalog/releases.go, rollback.go, index.go).

    `trail` records every state the directories pass through, so what is said of it holds wherever
    the process is cut off.  Writes fail at will unless `reliable`. */
module ReleaseStore {
  import opened Wrappers
  import opened ManifestNames
  import opened ReleaseHistory
  import opened ReleaseLaws

  lemma GrownAfter(first: Disk, second: Disk, third: Disk)
    requires Grown(first, second) && Grown(second, third)
    ensures Grown(first, third)
  {}

  /** `trail` continues `start`, and every state it adds only adds to `before`. */
  predicate OnlyAdds(before: Disk, start: seq<Disk>, trail: seq<Disk>) {
    |start| <= |trail| && trail[..|start|] == start &&
    forall i :: |start| <= i < |trail| ==> Grown(before, trail[i])
  }

  lemma OnlyAddsOne(before: Disk, start: seq<Disk>, trail: seq<Disk>, disk: Disk)
    requires OnlyAdds(before, start, trail) && Grown(before, disk)
    ensures OnlyAdds(before, start, trail + [disk])
  {
    hide Grown;
  }

  lemma OnlyAddsThen(first: Disk, second: Disk, start: seq<Disk>, middle: seq<Disk>, trail: seq<Disk>)
    requires OnlyAdds(first, start, middle) && OnlyAdds(second, middle, trail) && Grown(first, second)
    ensures OnlyAdds(first, start, trail)
  {
    hide Grown;
    forall i | |start| <= i < |trail|
      ensures Grown(first, trail[i])
    {
      if i < |middle| {
        assert trail[i] == trail[..|middle|][i];
      } else {
        GrownAfter(first, second, trail[i]);
      }
    }
    assert trail[..|start|] == trail[..|middle|][..|start|];
  }

  /** A directory that `before` does not have is being filled. */
  predicate Filling(before: Disk, disk: Disk, id: string, files: Directory) {
    id !in before.releases && disk == before.(releases := before.releases[id := files])
  }

  lemma FillingGrows(before: Disk, disk: Disk, id: string, files: Directory)
    requires Filling(before, disk, id, files)
    ensures Grown(before, disk) && id in disk.releases
  {}

  lemma FillingStep(before: Disk, disk: Disk, id: string, files: Directory, name: string, data: Data)
    requires Filling(before, disk, id, files)
    ensures id in disk.releases
    ensures Filling(before, disk.(releases := disk.releases[id := disk.releases[id][name := data]]), id,
                    files[name := data])
  {}

  function Continued(files: seq<ReleaseFile>, rest: Option<seq<ReleaseFile>>): Option<seq<ReleaseFile>> {
    if rest.None? then None else Some(files + rest.value)
  }

  lemma ContinuedEnds(files: seq<ReleaseFile>, rest: Option<seq<ReleaseFile>>)
    ensures files == [] ==> Continued(files, rest) == rest
    ensures rest == Some([]) ==> Continued(files, rest) == Some(files)
  {
    if rest.Some? {
      assert [] + rest.value == rest.value;
      assert files + [] == files;
    }
  }

  lemma LegacyStep(build: string, flat: Directory, platforms: seq<Platform>, i: nat, files: seq<ReleaseFile>)
    requires i < |platforms|
    ensures var name := ManifestName(build, platforms[i]);
            Continued(files, LegacyFiles(build, flat, platforms[i..])) ==
            if name !in flat then Continued(files, LegacyFiles(build, flat, platforms[i + 1..]))
            else if SignaturePath(name) !in flat then None
            else Continued(files + [ReleaseFile(name, flat[name], flat[SignaturePath(name)])],
                           LegacyFiles(build, flat, platforms[i + 1..]))
  {
    hide ManifestName, SignaturePath;
    var name := ManifestName(build, platforms[i]);
    assert platforms[i..][0] == platforms[i] && platforms[i..][1..] == platforms[i + 1..];
    var rest := LegacyFiles(build, flat, platforms[i + 1..]);
    if rest.Some? && name in flat && SignaturePath(name) in flat {
      var file := ReleaseFile(name, flat[name], flat[SignaturePath(name)]);
      assert files + ([file] + rest.value) == (files + [file]) + rest.value;
    }
  }

  method CheckFiles(build: string, files: seq<ReleaseFile>) returns (ok: bool)
    ensures ok <==> FilesFit(build, files)
  {
    hide ManifestName;
    var seen: set<string> := {};
    for i := 0 to |files|
      invariant forall name :: name in seen <==> exists j :: 0 <= j < i && files[j].name == name
      invariant forall j, k :: 0 <= j < k < i ==> files[j].name != files[k].name
      invariant forall j :: 0 <= j < i ==> FileFits(build, files[j])
    {
      var file := files[i];
      if !file.canonical.Manifest? {
        return false;
      }
      var manifest := file.canonical;
      if manifest.modpack != build || file.name != ManifestName(build, manifest.platform) ||
         file.signature == EMPTY || file.name in seen {
        return false;
      }
      seen := seen + {file.name};
    }
    return true;
  }

  method VerifyRelease(files: Directory) returns (ok: bool)
    ensures ok <==> Verified(files)
  {
    hide SafeComponent, IsManifest;
    if INVENTORY !in files {
      return true;
    }
    if !files[INVENTORY].Inventory? {
      return false;
    }
    var inventory := files[INVENTORY].digests;
    if |inventory| == 0 {
      return false;
    }
    var left := inventory.Keys;
    while left != {}
      invariant left <= inventory.Keys
      invariant forall name :: name in inventory && name !in left ==>
        SafeComponent(name) && name in files && inventory[name] == Sha256(files[name])
    {
      var name :| name in left;
      if !SafeComponent(name) || name !in files || Sha256(files[name]) != inventory[name] {
        return false;
      }
      left := left - {name};
    }
    var names := files.Keys;
    while names != {}
      invariant names <= files.Keys
      invariant forall name :: name in files && IsManifest(name) && name !in names ==> name in inventory
    {
      var name :| name in names;
      if IsManifest(name) && name !in inventory {
        return false;
      }
      names := names - {name};
    }
    return true;
  }

  method LegacyRelease(build: string, flat: Directory) returns (found: Option<seq<ReleaseFile>>)
    ensures found == LegacyFiles(build, flat, GAME_PLATFORMS)
  {
    hide ManifestName, SignaturePath, GAME_PLATFORMS;
    var platforms := GAME_PLATFORMS;
    var files: seq<ReleaseFile> := [];
    assert platforms[0..] == platforms;
    ContinuedEnds(files, LegacyFiles(build, flat, platforms));
    for i := 0 to |platforms|
      invariant LegacyFiles(build, flat, platforms) == Continued(files, LegacyFiles(build, flat, platforms[i..]))
    {
      LegacyStep(build, flat, platforms, i, files);
      var name := ManifestName(build, platforms[i]);
      if name !in flat {
        continue;
      }
      if SignaturePath(name) !in flat {
        return None;
      }
      files := files + [ReleaseFile(name, flat[name], flat[SignaturePath(name)])];
    }
    assert platforms[|platforms|..] == [];
    ContinuedEnds(files, LegacyFiles(build, flat, platforms[|platforms|..]));
    return Some(files);
  }

  method RetainedAfter(current: ReleasePointer, id: string) returns (retained: seq<string>)
    ensures retained == [current.current] + OtherThan(current.retained, id)
  {
    retained := [current.current];
    for i := 0 to |current.retained|
      invariant retained + OtherThan(current.retained[i..], id) ==
                [current.current] + OtherThan(current.retained, id)
    {
      OtherThanStep(current.retained, i, id, retained);
      if current.retained[i] != id {
        retained := retained + [current.retained[i]];
      }
    }
    assert retained + [] == retained;
  }

  class ReleaseStore {
    const build: string
    const reliable: bool
    var disk: Disk
    ghost var trail: seq<Disk>

    constructor (build: string, reliable: bool, disk: Disk)
      ensures this.build == build && this.reliable == reliable && this.disk == disk && trail == [disk]
    {
      this.build, this.reliable, this.disk, trail := build, reliable, disk, [disk];
    }

    // ---- Single writes ----

    method Works() returns (works: bool)
      ensures reliable ==> works
    {
      works := *;
      if reliable {
        works := true;
      }
    }

    method MakeDirectory(id: string) returns (ok: bool)
      modifies this
      ensures ok ==> id !in old(disk.releases) &&
                     disk == old(disk).(releases := old(disk.releases)[id := map[]]) && trail == old(trail) + [disk]
      ensures !ok ==> disk == old(disk) && trail == old(trail)
      ensures reliable && id !in old(disk.releases) ==> ok
    {
      ok := Works();
      ok := ok && id !in disk.releases;
      if ok {
        disk := disk.(releases := disk.releases[id := map[]]);
        trail := trail + [disk];
      }
    }

    method WriteFile(id: string, name: string, data: Data) returns (ok: bool)
      requires id in disk.releases
      modifies this
      ensures ok ==> disk == old(disk).(releases := old(disk.releases)[id := old(disk.releases)[id][name := data]]) &&
                     trail == old(trail) + [disk]
      ensures !ok ==> disk == old(disk) && trail == old(trail)
      ensures reliable ==> ok
    {
      ok := Works();
      if ok {
        disk := disk.(releases := disk.releases[id := disk.releases[id][name := data]]);
        trail := trail + [disk];
      }
    }

    method WritePointer(pointer: ReleasePointer) returns (ok: bool)
      modifies this
      ensures ok ==> disk == old(disk).(current := Some(Pointer(pointer))) && trail == old(trail) + [disk]
      ensures !ok ==> disk == old(disk) && trail == old(trail)
      ensures reliable ==> ok
    {
      ok := Works();
      if ok {
        disk := disk.(current := Some(Pointer(pointer)));
        trail := trail + [disk];
      }
    }

    // ---- Reading ----

    method ReadRelease() returns (reading: Reading)
      ensures reading == Read(build, disk)
    {
      hide SafeComponent;
      if !SafeComponent(build) {
        return Invalid;
      }
      if disk.current.None? {
        return Missing;
      }
      if !disk.current.value.Pointer? {
        return Invalid;
      }
      var pointer := disk.current.value.release;
      if pointer.version != 1 || !SafeComponent(pointer.current) ||
         (pointer.workspace != "" && !SafeComponent(pointer.workspace)) {
        return Invalid;
      }
      var seen := {pointer.current};
      var ids := Listed(pointer);
      for i := 0 to |pointer.retained|
        invariant forall id :: id in seen <==> id in ids[..i + 1]
        invariant forall id :: id in ids[..i + 1] ==> SafeComponent(id)
        invariant forall j, k :: 0 <= j < k <= i ==> ids[j] != ids[k]
      {
        var id := pointer.retained[i];
        assert ids[i + 1] == id && ids[..i + 2] == ids[..i + 1] + [id];
        if !SafeComponent(id) || id in seen {
          assert id in ids;
          return Invalid;
        }
        seen := seen + {id};
      }
      assert ids[..|pointer.retained| + 1] == ids;
      return Readable(pointer);
    }

    /** The build's part of the catalog's index: the manifests of every listed release. */
    method Index() returns (ok: bool, entries: set<(string, string, bool)>)
      ensures ok <==> Indexed(build, disk)
      ensures ok && Read(build, disk).Readable? ==>
                var pointer := Read(build, disk).pointer;
                forall id, name, active :: (id, name, active) in entries <==>
                  id in Listed(pointer) && name in disk.releases[id] && IsManifest(name) &&
                   active == (id == pointer.current)
    {
      hide Verified, ManifestName, IsManifest, SignaturePath, Read;
      entries := {};
      var reading := ReadRelease();
      if reading.Missing? {
        return true, entries;
      }
      if reading.Invalid? {
        return false, entries;
      }
      var pointer := reading.pointer;
      var ids := Listed(pointer);
      ReadIsDistinct(build, disk);
      for i := 0 to |ids|
        invariant forall j :: 0 <= j < i ==> Usable(build, disk, ids[j])
        invariant forall id, name, active :: (id, name, active) in entries <==>
          id in ids[..i] && id in disk.releases && name in disk.releases[id] && IsManifest(name) &&
          active == (id == ids[0])
      {
        var id := ids[i];
        assert ids[..i + 1] == ids[..i] + [id];
        if id !in disk.releases {
          assert !Usable(build, disk, ids[i]);
          return false, entries;
        }
        var fits, found := IndexDirectory(id, i == 0);
        if !fits {
          assert !Usable(build, disk, ids[i]);
          return false, entries;
        }
        entries := entries + found;
      }
      assert ids[..|ids|] == ids;
      return true, entries;
    }

    method IndexDirectory(id: string, active: bool) returns (ok: bool, found: set<(string, string, bool)>)
      requires id in disk.releases
      ensures ok <==> Usable(build, disk, id)
      ensures ok ==> forall other, name, flag :: (other, name, flag) in found <==>
                       other == id && name in disk.releases[id] && IsManifest(name) && flag == active
    {
      hide Verified, ManifestName, IsManifest, SignaturePath;
      found := {};
      var files := disk.releases[id];
      ok := VerifyRelease(files);
      if !ok {
        return;
      }
      var names := files.Keys;
      var count := 0;
      while names != {}
        invariant names <= files.Keys
        invariant count > 0 <==> exists name :: name in files && name !in names && IsManifest(name)
        invariant forall name :: name in files && name !in names && IsManifest(name) ==>
          ManifestFits(build, name, files[name]) && SignaturePath(name) in files && files[SignaturePath(name)] != EMPTY
        invariant forall other, name, flag :: (other, name, flag) in found <==>
          other == id && name in files && name !in names && IsManifest(name) && flag == active
      {
        var name :| name in names;
        names := names - {name};
        if !IsManifest(name) {
          continue;
        }
        var canonical := files[name];
        if !canonical.Manifest? || canonical.modpack != build || name != ManifestName(build, canonical.platform) ||
           SignaturePath(name) !in files || files[SignaturePath(name)] == EMPTY {
          return false, found;
        }
        found := found + {(id, name, active)};
        count := count + 1;
      }
      ok := count > 0;
    }

    // ---- Publishing ----

    method Fill(id: string, name: string, data: Data, ghost before: Disk, ghost files: Directory,
                ghost start: seq<Disk>)
      returns (ok: bool)
      requires Filling(before, disk, id, files) && OnlyAdds(before, start, trail)
      modifies this
      ensures ok ==> Filling(before, disk, id, files[name := data])
      ensures Grown(before, disk) && OnlyAdds(before, start, trail)
      ensures reliable ==> ok
    {
      hide Filling, OnlyAdds, Grown;
      FillingStep(before, disk, id, files, name, data);
      FillingGrows(before, disk, id, files);
      ok := WriteFile(id, name, data);
      if ok {
        FillingGrows(before, disk, id, files[name := data]);
        OnlyAddsOne(before, start, old(trail), disk);
      }
    }

    method WriteRelease(id: string, files: seq<ReleaseFile>) returns (ok: bool)
      modifies this
      ensures ok ==> Filling(old(disk), disk, id, Sealed(FilesOf(files)))
      ensures Grown(old(disk), disk) && OnlyAdds(old(disk), old(trail), trail)
      ensures reliable && id !in old(disk).releases ==> ok
    {
      hide SignaturePath, Filling, OnlyAdds, Grown, FilesOf, DigestsOf;
      ghost var before, start := disk, trail;
      NothingAdded(before, start);
      ok := MakeDirectory(id);
      if !ok {
        return;
      }
      FirstFilled(before, disk, id, start);
      var inventory: map<string, Digest> := map[];
      for i := 0 to |files|
        invariant Filling(before, disk, id, FilesOf(files[..i]))
        invariant inventory == DigestsOf(FilesOf(files[..i]))
        invariant Grown(before, disk) && OnlyAdds(before, start, trail)
      {
        FilesOfStep(files, i);
        ok := Fill(id, files[i].name, files[i].canonical, before, FilesOf(files[..i]), start);
        if !ok {
          return;
        }
        inventory := inventory[files[i].name := Sha256(files[i].canonical)];
        ok := Fill(id, SignaturePath(files[i].name), files[i].signature, before,
                   FilesOf(files[..i])[files[i].name := files[i].canonical], start);
        if !ok {
          return;
        }
        inventory := inventory[SignaturePath(files[i].name) := Sha256(files[i].signature)];
      }
      assert files[..|files|] == files;
      ok := Fill(id, INVENTORY, Inventory(inventory), before, FilesOf(files), start);
      if !ok {
        return;
      }
      ok := Works();
    }

    method WriteReleaseMetadata(pointer: ReleasePointer, ghost before: Disk, ghost files: Directory,
                                ghost start: seq<Disk>)
      returns (ok: bool)
      requires Filling(before, disk, pointer.current, files) && OnlyAdds(before, start, trail)
      modifies this
      ensures ok ==> Filling(before, disk, pointer.current, files[RELEASE := Pointer(pointer)])
      ensures Grown(before, disk) && OnlyAdds(before, start, trail)
      ensures reliable ==> ok
    {
      ok := Fill(pointer.current, RELEASE, Pointer(pointer), before, files, start);
      if ok {
        ok := Works();
      }
    }

    /** What a publication keeps: the history so far or, on the first one, the files from before
        releases as a release of their own. */
    method KeepHistory(legacyId: string) returns (ok: bool, retained: seq<string>)
      modifies this
      ensures ok ==> CanKeep(build, old(disk), legacyId) && disk == WithLegacy(build, old(disk), legacyId) &&
                     retained == RetainedBy(build, old(disk), legacyId)
      ensures Grown(old(disk), disk) && OnlyAdds(old(disk), old(trail), trail)
      ensures reliable && CanKeep(build, old(disk), legacyId) ==> ok
    {
      hide OnlyAdds, Grown, Filling, Read, LegacyFiles, Sealed, FilesOf;
      ghost var before, start := disk, trail;
      NothingAdded(before, start);
      retained := [];
      var previous := ReadRelease();
      if previous.Invalid? {
        return false, retained;
      }
      if previous.Readable? {
        return true, [previous.pointer.current] + previous.pointer.retained;
      }
      var legacy := LegacyRelease(build, disk.flat);
      if legacy.None? {
        return false, retained;
      }
      if |legacy.value| > 0 {
        ok := WriteRelease(legacyId, legacy.value);
        if !ok {
          return;
        }
        var pointer := NO_METADATA.(version := 1, current := legacyId);
        ok := WriteReleaseMetadata(pointer, before, Sealed(FilesOf(legacy.value)), start);
        if !ok {
          return;
        }
        FillingIs(before, disk, legacyId, Sealed(FilesOf(legacy.value))[RELEASE := Pointer(pointer)]);
        return true, [legacyId];
      }
      ok := true;
    }

    /** Whatever interrupts it, the directories are either as before with unlisted files added, or
        as the finished publication leaves them. */
    method PublishReleaseWithMetadata(files: seq<ReleaseFile>, metadata: ReleasePointer, id: string, legacyId: string)
      returns (ok: bool)
      requires SafeComponent(id) && SafeComponent(legacyId)
      modifies this
      ensures var e := Publish(files, metadata, id, legacyId);
              (ok ==> Allowed(build, old(disk), e) && disk == After(build, old(disk), e)) &&
              (reliable && Allowed(build, old(disk), e) ==> ok) &&
              OldOrNew(build, old(disk), e, disk) && AllOldOrNew(build, old(disk), e, old(trail), trail)
    {
      hide *;
      ghost var before, start := disk, trail;
      ghost var e := Publish(files, metadata, id, legacyId);
      NothingAdded(before, start);
      SoFar(build, before, e, disk, start, trail);
      AllowedParts(build, before, e);
      if !SafeComponent(build) || |files| == 0 {
        return false;
      }
      ok := CheckFiles(build, files);
      if !ok {
        return;
      }
      ok := Works();
      if !ok {
        return;
      }
      var retained;
      ok, retained := KeepHistory(legacyId);
      SoFar(build, before, e, disk, start, trail);
      if !ok {
        return;
      }
      ghost var kept, middle := disk, trail;
      ok := WriteRelease(id, files);
      OnlyAddsThen(before, kept, start, middle, trail);
      GrownAfter(before, kept, disk);
      SoFar(build, before, e, disk, start, trail);
      if !ok {
        return;
      }
      var pointer := metadata.(version := 1, current := id, retained := retained);
      ok := WriteReleaseMetadata(pointer, kept, Sealed(FilesOf(files)), middle);
      OnlyAddsThen(before, kept, start, middle, trail);
      GrownAfter(before, kept, disk);
      SoFar(build, before, e, disk, start, trail);
      if !ok {
        return;
      }
      ghost var written, path := disk, trail;
      FillingIs(kept, disk, id, Sealed(FilesOf(files))[RELEASE := Pointer(pointer)]);
      PointerIs(build, before, e, pointer);
      Assembled(build, before, e, pointer, written);
      ok := WritePointer(pointer);
      if !ok {
        return;
      }
      LastStep(build, before, e, start, path, disk);
      ok := Works();
    }

    /** Publishing by name alone keeps the workspace of the current release. */
    method PublishRelease(files: seq<ReleaseFile>, revision: string, id: string, legacyId: string) returns (ok: bool)
      requires SafeComponent(id) && SafeComponent(legacyId)
      modifies this
      ensures var e := Publish(files, MetadataFor(Read(build, old(disk)), revision), id, legacyId);
              SafeWorkspace(e.metadata.workspace) &&
              (ok ==> Allowed(build, old(disk), e) && disk == After(build, old(disk), e)) &&
              (reliable && Allowed(build, old(disk), e) ==> ok) &&
              OldOrNew(build, old(disk), e, disk) && AllOldOrNew(build, old(disk), e, old(trail), trail)
    {
      hide Allowed, After, OldOrNew, AllOldOrNew, SafeComponent, Read;
      var metadata := NO_METADATA.(settingsRevision := revision);
      var previous := ReadRelease();
      if previous.Readable? {
        ReadIsSound(build, disk);
        metadata := metadata.(workspace := previous.pointer.workspace);
      }
      ok := PublishReleaseWithMetadata(files, metadata, id, legacyId);
    }

    method RollbackRelease(id: string) returns (ok: bool)
      modifies this
      ensures ok ==> Allowed(build, old(disk), Rollback(id)) && disk == After(build, old(disk), Rollback(id))
      ensures !ok ==> disk == old(disk)
      ensures reliable && Allowed(build, old(disk), Rollback(id)) ==> ok
      ensures AllOldOrNew(build, old(disk), Rollback(id), old(trail), trail)
    {
      hide Verified, Read, SafeComponent, Grown;
      ghost var before, start := disk, trail;
      assert trail[..|start|] == start;
      var reading := ReadRelease();
      if !reading.Readable? {
        return false;
      }
      var current := reading.pointer;
      if id !in current.retained || id !in disk.releases {
        return false;
      }
      var directory := disk.releases[id];
      ok := VerifyRelease(directory);
      if !ok {
        return;
      }
      if RELEASE !in directory || !directory[RELEASE].Pointer? {
        return false;
      }
      var previous := directory[RELEASE].release;
      if previous.current != id || previous.version != 1 ||
         (previous.workspace != "" && !SafeComponent(previous.workspace)) {
        return false;
      }
      var retained := RetainedAfter(current, id);
      ok := WritePointer(previous.(retained := retained));
    }
  }

  function MetadataFor(reading: Reading, revision: string): ReleasePointer {
    var metadata := NO_METADATA.(settingsRevision := revision);
    if reading.Readable? then metadata.(workspace := reading.pointer.workspace) else metadata
  }

  lemma ReadIsSound(build: string, disk: Disk)
    ensures Read(build, disk).Readable? ==> SafeWorkspace(Read(build, disk).pointer.workspace)
  {
    hide SafeComponent;
  }

  lemma OtherThanStep(ids: seq<string>, i: nat, id: string, kept: seq<string>)
    requires i < |ids|
    ensures kept + OtherThan(ids[i..], id) ==
            (if ids[i] == id then kept else kept + [ids[i]]) + OtherThan(ids[i + 1..], id)
  {
    assert ids[i..][0] == ids[i] && ids[i..][1..] == ids[i + 1..];
    var rest := OtherThan(ids[i + 1..], id);
    assert kept + ([ids[i]] + rest) == (kept + [ids[i]]) + rest;
    assert [] + rest == rest;
  }

  predicate CanKeep(build: string, disk: Disk, legacyId: string) {
    !Read(build, disk).Invalid? && (Read(build, disk).Missing? ==> Legacy(build, disk).Some?) &&
    (KeepsLegacy(build, disk) ==> legacyId !in disk.releases)
  }

  predicate OldOrNew(build: string, before: Disk, e: Event, disk: Disk) {
    Grown(before, disk) || (Allowed(build, before, e) && disk == After(build, before, e))
  }

  predicate AllOldOrNew(build: string, before: Disk, e: Event, start: seq<Disk>, trail: seq<Disk>) {
    |start| <= |trail| && trail[..|start|] == start &&
    forall i :: |start| <= i < |trail| ==> OldOrNew(build, before, e, trail[i])
  }

  lemma FillingIs(before: Disk, disk: Disk, id: string, files: Directory)
    requires Filling(before, disk, id, files)
    ensures id !in before.releases && disk == before.(releases := before.releases[id := files])
  {}

  lemma AllowedParts(build: string, before: Disk, e: Event)
    requires e.Publish? && SafeComponent(e.id) && SafeComponent(e.legacyId)
    ensures Allowed(build, before, e) <==>
            SafeComponent(build) && |e.files| != 0 && FilesFit(build, e.files) && CanKeep(build, before, e.legacyId) &&
            e.id !in WithLegacy(build, before, e.legacyId).releases
  {
    hide Read, SafeComponent, FilesFit, Legacy, ReleaseDirectory;
  }

  lemma PointerIs(build: string, before: Disk, e: Event, pointer: ReleasePointer)
    requires e.Publish?
    requires pointer == e.metadata.(version := 1, current := e.id, retained := RetainedBy(build, before, e.legacyId))
    ensures pointer == NewPointer(build, before, e)
  {
    hide RetainedBy;
  }

  lemma SoFar(build: string, before: Disk, e: Event, disk: Disk, start: seq<Disk>, trail: seq<Disk>)
    requires Grown(before, disk) && OnlyAdds(before, start, trail)
    ensures OldOrNew(build, before, e, disk) && AllOldOrNew(build, before, e, start, trail)
  {
    hide Grown, Allowed, After;
  }

  lemma Assembled(build: string, before: Disk, e: Event, pointer: ReleasePointer, disk: Disk)
    requires e.Publish? && Allowed(build, before, e) && pointer == NewPointer(build, before, e)
    requires Filling(WithLegacy(build, before, e.legacyId), disk, e.id,
                     Sealed(FilesOf(e.files))[RELEASE := Pointer(pointer)])
    ensures disk.(current := Some(Pointer(pointer))) == After(build, before, e)
  {
    hide Allowed, NewPointer, WithLegacy, Sealed, FilesOf;
  }

  lemma LastStep(build: string, before: Disk, e: Event, start: seq<Disk>, trail: seq<Disk>, disk: Disk)
    requires AllOldOrNew(build, before, e, start, trail) && Allowed(build, before, e) && disk == After(build, before, e)
    ensures OldOrNew(build, before, e, disk) && AllOldOrNew(build, before, e, start, trail + [disk])
  {
    hide Allowed, After, Grown;
  }

  /** Wherever a publication or a rollback is cut off, the catalog accepts the build if it did
      before, the workspace is safe and any files from before releases fit the build. */
  lemma AcceptedThroughout(build: string, before: Disk, e: Event, start: seq<Disk>, trail: seq<Disk>, i: nat)
    requires AllOldOrNew(build, before, e, start, trail) && |start| <= i < |trail|
    requires Indexed(build, before)
    requires e.Publish? ==>
               SafeWorkspace(e.metadata.workspace) && (Read(build, before).Missing? ==> LegacyFits(build, before))
    ensures Indexed(build, trail[i])
    ensures Read(build, trail[i]) == Read(build, before) ||
            (Allowed(build, before, e) && trail[i] == After(build, before, e))
  {
    hide Allowed, After, Grown, Indexed, SafeWorkspace, Read, LegacyFits;
    if Grown(before, trail[i]) {
      WritingChangesNothing(build, before, trail[i]);
    } else if e.Publish? {
      PublishedIsIndexed(build, before, e);
    } else {
      RolledBackIsIndexed(build, before, e);
    }
  }

  lemma NothingAdded(disk: Disk, trail: seq<Disk>)
    ensures Grown(disk, disk) && OnlyAdds(disk, trail, trail)
  {}

  lemma FirstFilled(before: Disk, disk: Disk, id: string, start: seq<Disk>)
    requires id !in before.releases && disk == before.(releases := before.releases[id := map[]])
    ensures Filling(before, disk, id, FilesOf([])) && Grown(before, disk) && OnlyAdds(before, start, start + [disk])
    ensures DigestsOf(FilesOf([])) == map[]
    ensures forall files: seq<ReleaseFile> :: FilesOf(files[..0]) == FilesOf([])
  {
    forall files: seq<ReleaseFile>
      ensures FilesOf(files[..0]) == FilesOf([])
    {
      assert files[..0] == [];
    }
  }

  lemma FilesOfStep(files: seq<ReleaseFile>, i: nat)
    requires i < |files|
    ensures FilesOf(files[..i + 1]) ==
            FilesOf(files[..i])[files[i].name := files[i].canonical][SignaturePath(files[i].name) := files[i].signature]
    ensures DigestsOf(FilesOf(files[..i + 1])) ==
            DigestsOf(FilesOf(files[..i]))[files[i].name := Sha256(files[i].canonical)]
                                          [SignaturePath(files[i].name) := Sha256(files[i].signature)]
  {
    hide SignaturePath;
    assert files[..i + 1][..i] == files[..i];
  }

  lemma ReadIsDistinct(build: string, disk: Disk)
    ensures Read(build, disk).Readable? ==> Distinct(Listed(Read(build, disk).pointer))
  {
    hide SafeComponent, SafeWorkspace;
  }
}
