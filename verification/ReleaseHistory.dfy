/** What a build's release directories and pointer mean (server/internal/catalog/releases.go,
    rollback.go and index.go), and what a publication or a rollback makes of them.

    File contents are terms: a term stands for the bytes its encoder gives, so decoding is
    matching and a digest is injective.  `Manifest("", Unspecified, 0)` stands for the empty file,
    which decodes as the manifest with nothing set. */
module ReleaseHistory {
  import opened Wrappers
  import opened ManifestNames

  datatype Platform =
    Unspecified | WindowsX64 | WindowsX86 | WindowsArm64 | Linux | LinuxI386 | MacOs | MacOsArm64 | LinuxArm64 |
    Unknown(number: int)

  datatype Digest = Sha256(of: Data) | Garbled(text: string)

  datatype Data =
    | Manifest(modpack: string, platform: Platform, rest: nat)
    | Inventory(digests: map<string, Digest>)
    | Pointer(release: ReleasePointer)
    | Other(content: nat)

  datatype ReleasePointer = ReleasePointer(
    version: int, current: string, retained: seq<string>, settingsRevision: string, workspace: string,
    inputDigest: string, sourceRevision: string, workspaceDigest: string)

  datatype ReleaseFile = ReleaseFile(name: string, canonical: Data, signature: Data)

  type Directory = map<string, Data>

  /** `flat` are the files beside the build, from before releases; `current` is `current.json`. */
  datatype Disk = Disk(flat: Directory, releases: map<string, Directory>, current: Option<Data>)

  datatype Reading = Missing | Invalid | Readable(pointer: ReleasePointer)

  const EMPTY: Data := Manifest("", Unspecified, 0)
  const NO_METADATA := ReleasePointer(0, "", [], "", "", "", "", "")
  const INVENTORY := "inventory.json"
  const RELEASE := "release.json"
  const GAME_PLATFORMS := [Unspecified, WindowsX64, WindowsX86, WindowsArm64, Linux, LinuxI386, MacOs, MacOsArm64]

  // ---- Names ----

  predicate SafeComponent(name: string) {
    name != "" && name != "." && name != ".." &&
    forall i :: 0 <= i < |name| ==> name[i] !in {'/', '\\', ':', '\0'}
  }

  predicate SafeWorkspace(name: string) {
    name != "" ==> SafeComponent(name)
  }

  function PlatformKey(platform: Platform): Option<string> {
    match platform
    case Unspecified => None
    case WindowsX64 => Some("windows-x64")
    case WindowsX86 => Some("windows-x86")
    case WindowsArm64 => Some("windows-arm64")
    case Linux => Some("linux")
    case LinuxI386 => Some("linux-i386")
    case MacOs => Some("mac-os")
    case MacOsArm64 => Some("mac-os-arm64")
    case LinuxArm64 => Some("linux-arm64")
    case Unknown(_) => None
  }

  function ManifestName(build: string, platform: Platform): string {
    var key := PlatformKey(platform);
    (if key.Some? then build + "." + key.value else build) + ".manifest"
  }

  function SignaturePath(name: string): string {
    (if IsManifest(name) then name[..|name| - 9] else name) + ".manifest.sig"
  }

  lemma ManifestNameIsManifest(build: string, platform: Platform)
    ensures IsManifest(ManifestName(build, platform))
  {
    var name := ManifestName(build, platform);
    assert name[|name| - 9..] == ".manifest";
  }

  /** Signatures stand beside manifests: no signature is taken for a manifest, and two
      manifests never share one. */
  lemma SignaturesApart(name: string, other: string)
    requires IsManifest(name) && IsManifest(other)
    ensures !IsManifest(SignaturePath(name))
    ensures SignaturePath(name) == SignaturePath(other) ==> name == other
  {
    var signature := SignaturePath(name);
    assert name == name[..|name| - 9] + ".manifest";
    assert other == other[..|other| - 9] + ".manifest";
    assert signature[|signature| - 1] == 'g';
    assert signature[|signature| - 9..][8] == 'g';
    if SignaturePath(name) == SignaturePath(other) {
      assert signature[..|name| - 9] == name[..|name| - 9];
      assert SignaturePath(other)[..|other| - 9] == other[..|other| - 9];
    }
  }

  lemma ReservedNames(name: string)
    requires IsManifest(name)
    ensures name !in {INVENTORY, RELEASE} && SignaturePath(name) !in {INVENTORY, RELEASE}
    ensures !IsManifest(INVENTORY) && !IsManifest(RELEASE)
  {
    var signature := SignaturePath(name);
    assert name[|name| - 1] == name[|name| - 9..][8] == 't';
    assert signature[|signature| - 1] == 'g';
    assert INVENTORY[|INVENTORY| - 1] == 'n' && RELEASE[|RELEASE| - 1] == 'n';
    assert INVENTORY[|INVENTORY| - 9..][8] == 'n' && RELEASE[|RELEASE| - 9..][8] == 'n';
  }

  lemma SafeWithTail(name: string, tail: string)
    requires SafeComponent(name) && |tail| >= 2
    requires forall i :: 0 <= i < |tail| ==> tail[i] !in {'/', '\\', ':', '\0'}
    ensures SafeComponent(name + tail)
  {}

  lemma KeyIsPlain(platform: Platform)
    ensures PlatformKey(platform).Some? ==>
              var tail := "." + PlatformKey(platform).value;
              |tail| >= 2 && forall i :: 0 <= i < |tail| ==> tail[i] !in {'/', '\\', ':', '\0'}
  {}

  lemma SafeNames(build: string, platform: Platform)
    requires SafeComponent(build)
    ensures SafeComponent(ManifestName(build, platform))
    ensures SafeComponent(SignaturePath(ManifestName(build, platform)))
  {
    hide SafeComponent, PlatformKey;
    KeyIsPlain(platform);
    var key := PlatformKey(platform);
    var stem := if key.Some? then build + "." + key.value else build;
    if key.Some? {
      SafeWithTail(build, "." + key.value);
      assert build + ("." + key.value) == stem;
    }
    SafeWithTail(stem, ".manifest");
    SafeWithTail(stem, ".manifest.sig");
    ManifestNameIsManifest(build, platform);
    assert (stem + ".manifest")[..|stem|] == stem;
  }

  // ---- Reading a pointer, and what the catalog asks of a build ----

  function Listed(pointer: ReleasePointer): seq<string> {
    [pointer.current] + pointer.retained
  }

  predicate Distinct(ids: seq<string>) {
    forall i, j :: 0 <= i < j < |ids| ==> ids[i] != ids[j]
  }

  predicate Sound(pointer: ReleasePointer) {
    pointer.version == 1 && SafeWorkspace(pointer.workspace) &&
    (forall id :: id in Listed(pointer) ==> SafeComponent(id)) && Distinct(Listed(pointer))
  }

  function Read(build: string, disk: Disk): Reading {
    if !SafeComponent(build) then Invalid
    else if disk.current.None? then Missing
    else if disk.current.value.Pointer? && Sound(disk.current.value.release) then Readable(disk.current.value.release)
    else Invalid
  }

  /** Every file of the inventory is there unchanged, and no manifest is outside it; a directory
      without an inventory is not checked. */
  predicate Verified(files: Directory) {
    INVENTORY in files ==>
      files[INVENTORY].Inventory? &&
      var digests := files[INVENTORY].digests;
      |digests| > 0 &&
      (forall name :: name in digests ==>
         SafeComponent(name) && name in files && digests[name] == Sha256(files[name])) &&
      (forall name :: name in files && IsManifest(name) ==> name in digests)
  }

  predicate ManifestFits(build: string, name: string, canonical: Data) {
    canonical.Manifest? && canonical.modpack == build && name == ManifestName(build, canonical.platform)
  }

  predicate Complete(build: string, files: Directory) {
    (exists name :: name in files && IsManifest(name)) &&
    forall name :: name in files && IsManifest(name) ==>
      ManifestFits(build, name, files[name]) &&
      SignaturePath(name) in files && files[SignaturePath(name)] != EMPTY
  }

  predicate Usable(build: string, disk: Disk, id: string) {
    id in disk.releases && Verified(disk.releases[id]) && Complete(build, disk.releases[id])
  }

  predicate Indexed(build: string, disk: Disk) {
    match Read(build, disk)
    case Missing => true
    case Invalid => false
    case Readable(pointer) => forall id :: id in Listed(pointer) ==> Usable(build, disk, id)
  }

  // ---- What a publication writes ----

  function FilesOf(files: seq<ReleaseFile>): Directory {
    if files == [] then map[]
    else
      var last := files[|files| - 1];
      FilesOf(files[..|files| - 1])[last.name := last.canonical][SignaturePath(last.name) := last.signature]
  }

  function DigestsOf(files: Directory): map<string, Digest> {
    map name | name in files :: Sha256(files[name])
  }

  function Sealed(files: Directory): Directory {
    files[INVENTORY := Inventory(DigestsOf(files))]
  }

  function ReleaseDirectory(files: seq<ReleaseFile>, pointer: ReleasePointer): Directory {
    Sealed(FilesOf(files))[RELEASE := Pointer(pointer)]
  }

  function LegacyFiles(build: string, flat: Directory, platforms: seq<Platform>): Option<seq<ReleaseFile>> {
    if platforms == [] then Some([])
    else
      var name := ManifestName(build, platforms[0]);
      var rest := LegacyFiles(build, flat, platforms[1..]);
      if name !in flat then rest
      else if SignaturePath(name) !in flat || rest.None? then None
      else Some([ReleaseFile(name, flat[name], flat[SignaturePath(name)])] + rest.value)
  }

  function Legacy(build: string, disk: Disk): Option<seq<ReleaseFile>> {
    LegacyFiles(build, disk.flat, GAME_PLATFORMS)
  }

  predicate FileFits(build: string, file: ReleaseFile) {
    ManifestFits(build, file.name, file.canonical) && file.signature != EMPTY
  }

  predicate DistinctNames(files: seq<ReleaseFile>) {
    forall i, j :: 0 <= i < j < |files| ==> files[i].name != files[j].name
  }

  predicate FilesFit(build: string, files: seq<ReleaseFile>) {
    DistinctNames(files) && forall i :: 0 <= i < |files| ==> FileFits(build, files[i])
  }

  predicate Publishable(build: string, files: seq<ReleaseFile>) {
    SafeComponent(build) && files != [] && FilesFit(build, files)
  }

  // ---- Publication and rollback as steps ----

  datatype Event =
    | Publish(files: seq<ReleaseFile>, metadata: ReleasePointer, id: string, legacyId: string)
    | Rollback(id: string)

  function LegacyPointer(id: string): ReleasePointer {
    NO_METADATA.(version := 1, current := id)
  }

  /** A first publication keeps the files from before releases as a release of their own. */
  predicate KeepsLegacy(build: string, disk: Disk) {
    Read(build, disk).Missing? && Legacy(build, disk).Some? && Legacy(build, disk).value != []
  }

  function WithLegacy(build: string, disk: Disk, legacyId: string): Disk {
    if KeepsLegacy(build, disk) then
      disk.(releases := disk.releases[legacyId := ReleaseDirectory(Legacy(build, disk).value, LegacyPointer(legacyId))])
    else disk
  }

  function RetainedBy(build: string, disk: Disk, legacyId: string): seq<string> {
    match Read(build, disk)
    case Readable(pointer) => Listed(pointer)
    case _ => if KeepsLegacy(build, disk) then [legacyId] else []
  }

  function NewPointer(build: string, disk: Disk, e: Event): ReleasePointer
    requires e.Publish?
  {
    e.metadata.(version := 1, current := e.id, retained := RetainedBy(build, disk, e.legacyId))
  }

  function OtherThan(ids: seq<string>, id: string): seq<string> {
    if ids == [] then [] else (if ids[0] == id then [] else [ids[0]]) + OtherThan(ids[1..], id)
  }

  function After(build: string, disk: Disk, e: Event): Disk
    requires Allowed(build, disk, e)
  {
    match e
    case Publish(files, metadata, id, legacyId) =>
      var pointer := NewPointer(build, disk, e);
      var kept := WithLegacy(build, disk, legacyId);
      kept.(releases := kept.releases[id := ReleaseDirectory(files, pointer)], current := Some(Pointer(pointer)))
    case Rollback(id) =>
      var now := Read(build, disk).pointer;
      var record := disk.releases[id][RELEASE].release;
      disk.(current := Some(Pointer(record.(retained := [now.current] + OtherThan(now.retained, id)))))
  }

  /** A fresh name is one that no directory has yet. */
  predicate Allowed(build: string, disk: Disk, e: Event) {
    match e
    case Publish(files, metadata, id, legacyId) =>
      Publishable(build, files) && !Read(build, disk).Invalid? &&
      (Read(build, disk).Missing? ==> Legacy(build, disk).Some?) &&
      SafeComponent(id) && SafeComponent(legacyId) && id !in disk.releases &&
      (KeepsLegacy(build, disk) ==> legacyId != id && legacyId !in disk.releases)
    case Rollback(id) =>
      Read(build, disk).Readable? && id in Read(build, disk).pointer.retained &&
      Restorable(disk, id)
  }

  /** The rollback's own check of a release directory. */
  predicate Restorable(disk: Disk, id: string) {
    id in disk.releases && Verified(disk.releases[id]) &&
    RELEASE in disk.releases[id] && disk.releases[id][RELEASE].Pointer? &&
    var release := disk.releases[id][RELEASE].release;
    release.current == id && release.version == 1 && SafeWorkspace(release.workspace)
  }

  /** A state on the way to a new pointer: nothing that was there has changed. */
  predicate Grown(before: Disk, disk: Disk) {
    disk.flat == before.flat && disk.current == before.current &&
    forall id :: id in before.releases ==> id in disk.releases && disk.releases[id] == before.releases[id]
  }
}
