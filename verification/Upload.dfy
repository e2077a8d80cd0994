/** Resumable upload of build files: the server's handling of one chunk and what any series of
    chunks keeps (server/internal/buildsvc/upload.go).

    A digest is a term, so it is injective.  A request that fails half way leaves what a crash at
    that place would leave: nothing is cleaned up on the way out. */
module Upload {
  import FileSizes

  type Bytes = FileSizes.Bytes

  /** `Unmatched` are well-formed digests of nothing that is ever sent. */
  datatype Hash = Sha256(of: Bytes) | Unmatched(number: nat) | Malformed(text: string)

  datatype Name = Object(hash: Hash) | Part(hash: Hash) | Stray(text: string)

  datatype File = File(data: Bytes, modified: int, regular: bool)

  type Directory = map<Name, File>

  datatype Request = Request(hash: Hash, size: nat, offset: nat, data: Bytes)

  datatype Reply = Partial(offset: nat) | Complete(offset: nat) | Refused

  const CHUNK: nat := 0x10_0000
  const MAX_FILE_SIZE: nat := 512 * 0x10_0000
  const QUOTA: nat := 16 * 1024 * 0x10_0000
  const DAY: int := 24 * 60 * 60

  predicate WellFormed(request: Request) {
    !request.hash.Malformed? && request.size <= MAX_FILE_SIZE && |request.data| <= CHUNK &&
    request.offset + |request.data| <= request.size
  }

  predicate Stale(file: File, now: int) {
    now - file.modified > DAY
  }

  // ---- Bytes in the directory ----

  function Contents(files: Directory): map<Name, Bytes> {
    map name | name in files :: files[name].data
  }

  ghost function Total(files: Directory): nat {
    FileSizes.Total(Contents(files))
  }

  lemma TotalWith(files: Directory, name: Name, file: File)
    ensures Total(files[name := file]) == |file.data| + Total(files - {name})
    ensures Total(files) == Total(files - {name}) + if name in files then |files[name].data| else 0
  {
    FileSizes.TotalWith(Contents(files), name, file.data);
    assert Contents(files[name := file]) == Contents(files)[name := file.data];
    assert Contents(files - {name}) == Contents(files) - {name};
  }

  lemma TotalOfFewer(fewer: Directory, files: Directory)
    requires forall name :: name in fewer ==> name in files && fewer[name] == files[name]
    ensures Total(fewer) <= Total(files)
  {
    FileSizes.TotalOfFewer(Contents(fewer), Contents(files));
  }

  // ---- One chunk ----

  function Purged(files: Directory, now: int): Directory {
    map name | name in files && !Stale(files[name], now) :: files[name]
  }

  function Opened(files: Directory, hash: Hash, now: int): (ready: Directory)
    ensures Part(hash) in ready
  {
    if Part(hash) in files then files else files[Part(hash) := File([], now, true)]
  }

  function Appended(files: Directory, request: Request, now: int, count: nat): (longer: Directory)
    requires Part(request.hash) in files && count <= |request.data|
    ensures Part(request.hash) in longer
  {
    var file := files[Part(request.hash)];
    if count == 0 then files
    else files[Part(request.hash) := file.(data := file.data + request.data[..count], modified := now)]
  }

  ghost predicate Room(files: Directory, request: Request, now: int) {
    Total(Purged(files, now)) + |request.data| <= QUOTA
  }

  predicate AlreadyThere(files: Directory, request: Request) {
    Object(request.hash) in files && |files[Object(request.hash)].data| == request.size
  }

  /** The directory and the reply when nothing fails. */
  ghost function Chunk(files: Directory, request: Request, now: int): (Directory, Reply) {
    if !WellFormed(request) then (files, Refused)
    else if AlreadyThere(files, request) then (files, Complete(request.size))
    else if !Room(files, request, now) then (Purged(files, now), Refused)
    else Written(Opened(Purged(files, now), request.hash, now), request, now)
  }

  function Written(ready: Directory, request: Request, now: int): (Directory, Reply)
    requires Part(request.hash) in ready
  {
    var part := Part(request.hash);
    var end := request.offset + |request.data|;
    if |ready[part].data| != request.offset then (ready, Partial(|ready[part].data|))
    else
      var full := Appended(ready, request, now, |request.data|);
      if end < request.size then (full, Partial(end))
      else if Sha256(full[part].data) != request.hash then (full - {part}, Refused)
      else ((full - {part})[Object(request.hash) := full[part]], Complete(end))
  }

  /** Some stale files are gone and nothing else has changed. */
  predicate Purging(files: Directory, now: int, after: Directory) {
    (forall name :: name in after ==> name in files && after[name] == files[name]) &&
    forall name :: name in files && name !in after ==> Stale(files[name], now)
  }

  /** What a chunk that fails half way can leave. */
  ghost predicate CutOff(files: Directory, request: Request, now: int, after: Directory) {
    Purging(files, now, after) ||
    (WellFormed(request) && Room(files, request, now) &&
     var ready := Opened(Purged(files, now), request.hash, now);
     after == ready ||
     (|ready[Part(request.hash)].data| == request.offset &&
      exists count :: 0 <= count <= |request.data| && after == Appended(ready, request, now, count)))
  }

  ghost predicate Step(files: Directory, request: Request, now: int, after: Directory, reply: Reply) {
    (after, reply) == Chunk(files, request, now) || (reply == Refused && CutOff(files, request, now, after))
  }

  // ---- What every chunk keeps ----

  /** Every finished object has the digest it is named by. */
  ghost predicate Committed(files: Directory) {
    forall hash :: Object(hash) in files ==> hash == Sha256(files[Object(hash)].data)
  }

  /** The request carries the piece it claims of the content its digest is of. */
  predicate Honest(request: Request, content: Bytes) {
    request.hash == Sha256(content) ==>
      request.size == |content| && request.offset + |request.data| <= |content| &&
      request.data == content[request.offset..request.offset + |request.data|]
  }

  predicate Prefix(files: Directory, content: Bytes) {
    Part(Sha256(content)) in files ==> files[Part(Sha256(content))].data <= content
  }

  lemma PurgedIsPurging(files: Directory, now: int)
    ensures Purging(files, now, Purged(files, now))
  {}

  lemma TotalOpened(files: Directory, request: Request, now: int, count: nat)
    requires count <= |request.data|
    ensures Total(Opened(files, request.hash, now)) == Total(files)
    ensures Total(Appended(Opened(files, request.hash, now), request, now, count)) == Total(files) + count
  {
    var part := Part(request.hash);
    var ready := Opened(files, request.hash, now);
    TotalWith(files, part, File([], now, true));
    TotalWith(ready, part, ready[part].(data := ready[part].data + request.data[..count], modified := now));
  }

  lemma TotalRenamed(full: Directory, from: Name, to: Name)
    requires from in full
    ensures Total(full - {from}) <= Total(full)
    ensures Total((full - {from})[to := full[from]]) <= Total(full)
  {
    TotalWith(full, from, full[from]);
    TotalWith(full - {from}, to, full[from]);
  }

  lemma StaysWithinQuota(files: Directory, request: Request, now: int, after: Directory, reply: Reply)
    requires Step(files, request, now, after, reply) && Total(files) <= QUOTA
    ensures Total(after) <= QUOTA
  {
    hide Total, Opened, Appended, Purged, WellFormed;
    var purged := Purged(files, now);
    PurgedIsPurging(files, now);
    TotalOfFewer(purged, files);
    TotalOpened(purged, request, now, 0);
    if Purging(files, now, after) {
      TotalOfFewer(after, files);
    } else {
      TotalOpened(purged, request, now, |request.data|);
      var full := Appended(Opened(purged, request.hash, now), request, now, |request.data|);
      TotalRenamed(full, Part(request.hash), Object(request.hash));
      forall count: nat | count <= |request.data| {
        TotalOpened(purged, request, now, count);
      }
    }
  }

  lemma StaysCommitted(files: Directory, request: Request, now: int, after: Directory, reply: Reply)
    requires Step(files, request, now, after, reply) && Committed(files)
    ensures Committed(after)
  {
    hide Total, Stale, WellFormed, Room, AlreadyThere;
  }

  /** As long as whoever sends a digest sends the content it is of, the unfinished file is a prefix
      of that content. */
  lemma StaysPrefix(files: Directory, request: Request, now: int, after: Directory, reply: Reply, content: Bytes)
    requires Step(files, request, now, after, reply) && Prefix(files, content) && Honest(request, content)
    ensures Prefix(after, content)
  {
    hide Total, Stale, WellFormed, Room, AlreadyThere;
    var part := Part(Sha256(content));
    if part in after && request.hash == Sha256(content) {
      var ready := Opened(Purged(files, now), request.hash, now);
      forall count: nat | |ready[part].data| == request.offset && count <= |request.data|
        ensures Appended(ready, request, now, count)[part].data <= content
      {
        AppendsPiece(ready[part].data, request.data, content, count);
      }
    }
  }

  lemma AppendsPiece(data: Bytes, piece: Bytes, content: Bytes, count: nat)
    requires data <= content && count <= |piece|
    requires |data| + |piece| <= |content| && piece == content[|data|..|data| + |piece|]
    ensures data + piece[..count] <= content
  {
    assert piece[..count] == content[|data|..|data| + count];
    assert data == content[..|data|];
    assert data + piece[..count] == content[..|data| + count];
  }

  /** Nothing but age removes a finished object. */
  lemma ObjectsStay(files: Directory, request: Request, now: int, after: Directory, reply: Reply, hash: Hash)
    requires Step(files, request, now, after, reply) && Committed(files)
    requires Object(hash) in files && !Stale(files[Object(hash)], now)
    ensures Object(hash) in after
  {
    hide Total, Stale, WellFormed, Room, AlreadyThere;
  }

  // ---- Any interleaving ----

  datatype Moment = Moment(request: Request, now: int, reply: Reply, after: Directory)

  function Left(first: Directory, moments: seq<Moment>): Directory {
    if moments == [] then first else moments[|moments| - 1].after
  }

  ghost predicate Run(first: Directory, moments: seq<Moment>) {
    moments == [] ||
    var n := |moments| - 1;
    Run(first, moments[..n]) &&
    Step(Left(first, moments[..n]), moments[n].request, moments[n].now, moments[n].after, moments[n].reply)
  }

  /** Whatever is sent by whomever, and whatever fails or is purged on the way: every finished
      object has its digest, the directory keeps within its quota, and the unfinished file of a
      content all whose senders are honest is a prefix of it. */
  lemma {:induction false} AlwaysSafe(first: Directory, moments: seq<Moment>, content: Bytes)
    requires Run(first, moments) && Committed(first) && Total(first) <= QUOTA && Prefix(first, content)
    ensures Committed(Left(first, moments)) && Total(Left(first, moments)) <= QUOTA
    ensures (forall m :: m in moments ==> Honest(m.request, content)) ==> Prefix(Left(first, moments), content)
  {
    hide Step, Committed, Total, Prefix, Honest;
    if moments != [] {
      var n := |moments| - 1;
      var before, m := Left(first, moments[..n]), moments[n];
      AlwaysSafe(first, moments[..n], content);
      StaysCommitted(before, m.request, m.now, m.after, m.reply);
      StaysWithinQuota(before, m.request, m.now, m.after, m.reply);
      if forall m :: m in moments ==> Honest(m.request, content) {
        StaysPrefix(before, m.request, m.now, m.after, m.reply, content);
      }
    }
  }
}
