/** Both ends of an upload as they run: the server's directory
    (server/internal/buildsvc/upload.go) and the client that pushes the files of a build
    (server/internal/cli/build.go). */
module UploadService {
  import opened Wrappers
  import opened Upload

  predicate AllRegular(files: Directory) {
    forall name :: name in files ==> files[name].regular
  }

  lemma NothingPurged(files: Directory, now: int)
    ensures Purging(files, now, files)
  {}

  lemma TotalOfNone(files: Directory)
    ensures Total(files - files.Keys) == 0
  {
    assert Contents(files - files.Keys) == map[];
  }

  lemma TotalOneLess(files: Directory, left: set<Name>, name: Name)
    requires name in left && name in files
    ensures Total(files - (left - {name})) == Total(files - left) + |files[name].data|
  {
    assert files - (left - {name}) == (files - left)[name := files[name]];
    assert (files - left) - {name} == files - left;
    TotalWith(files - left, name, files[name]);
  }

  lemma RemovedAlready(files: Directory, left: set<Name>, name: Name)
    requires name in left
    ensures (files - {name}) - (left - {name}) == files - left
  {}

  class UploadServer {
    const reliable: bool
    var files: Directory

    constructor (reliable: bool)
      ensures this.reliable == reliable && files == map[]
    {
      this.reliable, files := reliable, map[];
    }

    method Works() returns (works: bool)
      ensures reliable ==> works
    {
      works := *;
      if reliable {
        works := true;
      }
    }

    /** Removes what is older than a day and measures the rest. */
    method Purge(now: int) returns (ok: bool, used: nat)
      modifies this
      ensures Purging(old(files), now, files)
      ensures ok ==> files == Purged(old(files), now) && used == Total(files)
      ensures reliable && AllRegular(old(files)) ==> ok
    {
      hide Stale, Total;
      ghost var before := files;
      var left := files.Keys;
      used := 0;
      TotalOfNone(files);
      while left != {}
        invariant left <= files.Keys <= before.Keys
        invariant forall name :: name in files ==> files[name] == before[name]
        invariant forall name :: name in before && name !in left ==> (name in files <==> !Stale(before[name], now))
        invariant used == Total(files - left)
        decreases |left|
      {
        var name :| name in left;
        ok := Works();
        if !ok || !files[name].regular {
          return false, used;
        }
        if Stale(files[name], now) {
          ok := Works();
          if !ok {
            return;
          }
          RemovedAlready(files, left, name);
          files := files - {name};
        } else {
          TotalOneLess(files, left, name);
          used := used + |files[name].data|;
        }
        left := left - {name};
      }
      assert files - left == files;
      assert files == Purged(before, now);
      ok := true;
    }

    method UploadBuildChunk(request: Request, now: int) returns (reply: Reply)
      modifies this
      ensures Step(old(files), request, now, files, reply)
      ensures reliable && AllRegular(old(files)) ==> (files, reply) == Chunk(old(files), request, now)
    {
      hide Total, Purging, Stale;
      ghost var before := files;
      NothingPurged(files, now);
      if !WellFormed(request) {
        return Refused;
      }
      var ok := Works();
      if !ok {
        return Refused;
      }
      if Object(request.hash) in files && |files[Object(request.hash)].data| == request.size {
        return Complete(request.size);
      }
      var used;
      ok, used := Purge(now);
      if !ok || used + |request.data| > QUOTA {
        return Refused;
      }
      var part := Part(request.hash);
      ok := Works();
      if !ok {
        return Refused;
      }
      if part !in files {
        files := files[part := File([], now, true)];
      }
      ok := Works();
      if !ok {
        return Refused;
      }
      if |files[part].data| != request.offset {
        return Partial(|files[part].data|);
      }
      var count;
      ok, count := Append(request, now);
      if !ok {
        return Refused;
      }
      var offset := request.offset + |request.data|;
      if offset < request.size {
        return Partial(offset);
      }
      ok := Works();
      if !ok {
        return Refused;
      }
      if Sha256(files[part].data) != request.hash {
        files := files - {part};
        return Refused;
      }
      files := (files - {part})[Object(request.hash) := files[part]];
      return Complete(offset);
    }

    /** A write that fails may have written any part of its data. */
    method Append(request: Request, now: int) returns (ok: bool, count: nat)
      requires Part(request.hash) in files
      modifies this
      ensures count <= |request.data| && files == Appended(old(files), request, now, count)
      ensures ok ==> count == |request.data|
      ensures reliable ==> ok
    {
      count := *;
      ok := Works();
      if ok || count > |request.data| {
        count := |request.data|;
      }
      files := Appended(files, request, now, count);
    }
  }

  // ---- What a client may rely on ----

  /** Nothing in the directory can turn a day old before `until`. */
  predicate Recent(files: Directory, until: int) {
    forall name :: name in files ==> files[name].modified + DAY >= until
  }

  predicate Finished(files: Directory, content: Bytes) {
    Object(Sha256(content)) in files
  }

  function PartSize(files: Directory, content: Bytes): nat {
    if Part(Sha256(content)) in files then |files[Part(Sha256(content))].data| else 0
  }

  /** The server has at least what it has told the client. */
  predicate Reached(files: Directory, content: Bytes, offset: nat) {
    Finished(files, content) || offset <= PartSize(files, content)
  }

  /** What all who push this content keep, as long as nothing grows old. */
  ghost predicate Sound(files: Directory, content: Bytes, until: int) {
    Committed(files) && Prefix(files, content) && Recent(files, until)
  }

  function NextChunk(content: Bytes, offset: nat): Request
    requires offset <= |content|
  {
    Request(Sha256(content), |content|, offset, content[offset..Min(offset + CHUNK, |content|)])
  }

  lemma NothingIsStale(files: Directory, now: int, until: int)
    requires Recent(files, until) && now <= until
    ensures Purged(files, now) == files
    ensures forall after :: Purging(files, now, after) ==> after == files
  {
    forall after | Purging(files, now, after)
      ensures after == files
    {
      assert forall name :: name in files ==> name in after;
    }
  }

  lemma StaysRecent(files: Directory, request: Request, now: int, until: int, after: Directory, reply: Reply)
    requires Step(files, request, now, after, reply) && Recent(files, until) && until - DAY <= now <= until
    ensures Recent(after, until)
  {
    hide Total, WellFormed, Room, AlreadyThere;
    NothingIsStale(files, now, until);
  }

  lemma StaysReached(files: Directory, request: Request, now: int, until: int, after: Directory, reply: Reply,
                     content: Bytes, offset: nat)
    requires Step(files, request, now, after, reply) && Sound(files, content, until) && until - DAY <= now <= until
    requires Honest(request, content) && Reached(files, content, offset)
    ensures Reached(after, content, offset) && (Finished(files, content) ==> Finished(after, content))
  {
    hide Total, WellFormed, Room, AlreadyThere, Recent, Purging;
    NothingIsStale(files, now, until);
    if request.hash == Sha256(content) {
      WholePrefix(files, request, now, content);
    }
  }

  /** An honest upload never fails its digest. */
  lemma WholePrefix(files: Directory, request: Request, now: int, content: Bytes)
    requires Prefix(files, content) && Honest(request, content) && request.hash == Sha256(content)
    ensures var ready := Opened(files, request.hash, now);
            var data := ready[Part(request.hash)].data;
            |data| == request.offset && request.offset + |request.data| >= request.size ==>
              Appended(ready, request, now, |request.data|)[Part(request.hash)].data == content
  {
    var ready := Opened(files, request.hash, now);
    var data := ready[Part(request.hash)].data;
    if |data| == request.offset && request.offset + |request.data| >= request.size {
      AppendsPiece(data, request.data, content, |request.data|);
      assert request.data[..|request.data|] == request.data;
      assert |data + request.data| == |content|;
      assert data + [] == data;
    }
  }

  lemma HonestChunk(content: Bytes, offset: nat, other: Bytes)
    requires offset <= |content| <= MAX_FILE_SIZE
    ensures Honest(NextChunk(content, offset), other) && WellFormed(NextChunk(content, offset))
  {}

  /** Every reply that does not end the upload takes the client further, whoever else has been
      sending the same content since it last asked. */
  lemma Progress(files: Directory, content: Bytes, offset: nat, now: int, until: int, after: Directory, reply: Reply)
    requires offset <= |content| <= MAX_FILE_SIZE && Step(files, NextChunk(content, offset), now, after, reply)
    requires Sound(files, content, until) && until - DAY <= now <= until && Reached(files, content, offset)
    ensures reply.Partial? ==> offset < reply.offset <= |content| && Reached(after, content, reply.offset)
    ensures reply.Complete? ==> reply.offset == |content| && Finished(after, content)
  {
    hide Total, WellFormed, Room, Recent, Purging, Stale, Honest;
    NothingIsStale(files, now, until);
    HonestChunk(content, offset, content);
    WholePrefix(files, NextChunk(content, offset), now, content);
  }

  function Pieces(bytes: nat): nat {
    (bytes + CHUNK - 1) / CHUNK
  }

  /** How many requests a client that is alone still needs. */
  function Needed(files: Directory, content: Bytes, offset: nat): nat
    requires PartSize(files, content) <= |content|
  {
    var left := |content| - PartSize(files, content);
    if Finished(files, content) then 1
    else (if PartSize(files, content) == offset then 0 else 1) + if left == 0 then 1 else Pieces(left)
  }

  lemma PartFits(files: Directory, content: Bytes)
    requires Prefix(files, content)
    ensures PartSize(files, content) <= |content|
  {}

  lemma OnePieceLess(bytes: nat)
    requires bytes > CHUNK
    ensures Pieces(bytes) == Pieces(bytes - CHUNK) + 1
  {}

  lemma NeededAtMost(files: Directory, content: Bytes)
    requires Prefix(files, content)
    ensures PartSize(files, content) <= |content| && Needed(files, content, 0) <= Pieces(|content|) + 1
  {
    PartFits(files, content);
    PiecesGrow(|content| - PartSize(files, content), |content|);
  }

  lemma PiecesGrow(fewer: nat, more: nat)
    requires fewer <= more
    ensures Pieces(fewer) <= Pieces(more)
    ensures more > 0 ==> Pieces(more) >= 1
  {}

  /** What the server answers a client that is alone. */
  lemma AloneReply(files: Directory, content: Bytes, offset: nat, now: int, until: int, after: Directory, reply: Reply)
    requires offset <= |content| <= MAX_FILE_SIZE && (after, reply) == Chunk(files, NextChunk(content, offset), now)
    requires Sound(files, content, until) && until - DAY <= now <= until && Reached(files, content, offset)
    requires Total(files) + |content| - offset <= QUOTA
    ensures Finished(files, content) ==> reply.Complete?
    ensures !Finished(files, content) && PartSize(files, content) != offset ==>
              reply == Partial(PartSize(files, content)) && !Finished(after, content) &&
              PartSize(after, content) == PartSize(files, content) && Total(after) == Total(files)
    ensures !Finished(files, content) && PartSize(files, content) == offset && offset + CHUNK >= |content| ==>
              reply.Complete?
    ensures !Finished(files, content) && PartSize(files, content) == offset && offset + CHUNK < |content| ==>
              reply == Partial(offset + CHUNK) && !Finished(after, content) &&
              PartSize(after, content) == offset + CHUNK && Total(after) == Total(files) + CHUNK
  {
    hide Total, WellFormed, Recent, Purging, Stale, Honest, Committed;
    var request := NextChunk(content, offset);
    NothingIsStale(files, now, until);
    HonestChunk(content, offset, content);
    WholePrefix(files, request, now, content);
    TotalOpened(files, request, now, |request.data|);
    TotalOpened(files, request, now, 0);
    assert Finished(files, content) ==> AlreadyThere(files, request) by { FinishedIsThere(files, content, offset); }
  }

  lemma FinishedIsThere(files: Directory, content: Bytes, offset: nat)
    requires Committed(files) && offset <= |content|
    ensures Finished(files, content) ==> AlreadyThere(files, NextChunk(content, offset))
  {}

  lemma StaysRegular(files: Directory, request: Request, now: int, until: int)
    requires AllRegular(files) && Recent(files, until) && now <= until
    ensures AllRegular(Chunk(files, request, now).0)
  {
    hide Total, WellFormed, Recent, Purging, Stale;
    NothingIsStale(files, now, until);
  }

  /** A client that is alone needs one request fewer after each that does not end the upload. */
  lemma Counted(files: Directory, content: Bytes, offset: nat, now: int, until: int, after: Directory, reply: Reply)
    requires offset <= |content| <= MAX_FILE_SIZE && (after, reply) == Chunk(files, NextChunk(content, offset), now)
    requires Sound(files, content, until) && until - DAY <= now <= until && Reached(files, content, offset)
    requires Total(files) + |content| - offset <= QUOTA
    ensures !reply.Refused?
    ensures PartSize(files, content) <= |content|
    ensures reply.Partial? ==>
              reply.offset <= |content| && Total(after) + |content| - reply.offset <= QUOTA &&
              PartSize(after, content) <= |content| &&
              Needed(after, content, reply.offset) < Needed(files, content, offset)
    ensures Needed(files, content, offset) >= 1
  {
    hide Total, Chunk, NextChunk, Sound, Pieces, Finished, PartSize;
    AloneReply(files, content, offset, now, until, after, reply);
    assert Prefix(files, content) by { hide *; SoundPrefix(files, content, until); }
    PartFits(files, content);
    var left := |content| - PartSize(files, content);
    PiecesGrow(left, left);
    if left > CHUNK {
      OnePieceLess(left);
    }
  }

  lemma SoundPrefix(files: Directory, content: Bytes, until: int)
    ensures Sound(files, content, until) ==> Prefix(files, content)
  {}

  // ---- A partial file that is no prefix of the content ----

  ghost predicate Kept(files: Directory, until: int) { Committed(files) && Recent(files, until) }

  /** What honest senders do to the files of one content while nothing grows old. */
  predicate Onward(before: Directory, after: Directory, content: Bytes) {
    && (Finished(before, content) ==> Finished(after, content))
    && (Prefix(before, content) ==> Prefix(after, content))
    && (PartSize(before, content) <= |content| ==> PartSize(after, content) <= |content|)
    && (PartSize(before, content) > |content| && !Finished(before, content) ==>
          PartSize(after, content) > |content| && !Finished(after, content))
  }

  lemma OnwardStep(files: Directory, request: Request, now: int, until: int, after: Directory, reply: Reply,
                   content: Bytes)
    requires Step(files, request, now, after, reply) && Kept(files, until) && until - DAY <= now <= until
    requires Honest(request, content)
    ensures Onward(files, after, content)
  {
    hide Total, WellFormed, Room, Recent, Purging, Stale;
    NothingIsStale(files, now, until);
    if Prefix(files, content) {
      StaysPrefix(files, request, now, after, reply, content);
    }
  }

  /** Either the partial file is a prefix, or the server has at least what it has told the client. */
  predicate Standing(files: Directory, content: Bytes, offset: nat) {
    Prefix(files, content) || offset <= PartSize(files, content)
  }

  /** How much can still go wrong: a bad partial file, an offset past a good one, nothing. */
  function Level(files: Directory, content: Bytes, offset: nat): nat {
    if !Prefix(files, content) then 2 else if !Reached(files, content, offset) then 1 else 0
  }

  lemma StandingStays(files: Directory, request: Request, now: int, until: int, after: Directory, reply: Reply,
                      content: Bytes, offset: nat)
    requires Step(files, request, now, after, reply) && Kept(files, until) && until - DAY <= now <= until
    requires Honest(request, content) && Standing(files, content, offset)
    ensures Standing(after, content, offset) && Level(after, content, offset) <= Level(files, content, offset)
  {
    if Prefix(files, content) {
      hide Total, Step, Recent, Honest, Committed;
      StaysPrefix(files, request, now, after, reply, content);
      if Reached(files, content, offset) {
        StaysReached(files, request, now, until, after, reply, content, offset);
      }
    } else {
      hide Total, WellFormed, Room, Recent, Purging, Stale;
      NothingIsStale(files, now, until);
    }
  }

  /** What a client makes of a partial reply: it gives up, or is nearer its end. */
  predicate Nearer(files: Directory, offset: nat, after: Directory, next: nat, content: Bytes) {
    if next > |content| then PartSize(files, content) > |content|
    else
      && next != offset && Standing(after, content, next)
      && (Level(after, content, next) < Level(files, content, offset) ||
          (Level(after, content, next) == Level(files, content, offset) && offset < next))
  }

  /** A partial reply takes a client nearer its end whatever the partial file held at first. */
  lemma Advance(files: Directory, content: Bytes, offset: nat, now: int, until: int, after: Directory, reply: Reply)
    requires offset <= |content| <= MAX_FILE_SIZE && Step(files, NextChunk(content, offset), now, after, reply)
    requires Kept(files, until) && until - DAY <= now <= until && Standing(files, content, offset)
    ensures reply.Partial? ==> Nearer(files, offset, after, reply.offset, content)
    ensures reply.Complete? ==> reply.offset == |content| && Finished(after, content)
  {
    hide Total, Room, Recent, Purging, Stale, Honest, WellFormed;
    NothingIsStale(files, now, until);
    HonestChunk(content, offset, content);
    if Prefix(files, content) {
      if Reached(files, content, offset) {
        Progress(files, content, offset, now, until, after, reply);
        StaysPrefix(files, NextChunk(content, offset), now, after, reply, content);
      }
    }
  }

  /** A partial file of the right length at most that is no prefix, with room for the rest. */
  ghost predicate Spoilt(files: Directory, content: Bytes, offset: nat) {
    && !Prefix(files, content) && !Finished(files, content)
    && offset <= PartSize(files, content) <= |content|
    && Total(files) + |content| - offset <= QUOTA
  }

  /** A client that is alone fills a spoilt file up, and the digest that fails removes it. */
  lemma AloneSpoilt(files: Directory, content: Bytes, offset: nat, now: int, until: int, after: Directory, reply: Reply)
    requires offset <= |content| <= MAX_FILE_SIZE && (after, reply) == Chunk(files, NextChunk(content, offset), now)
    requires Kept(files, until) && until - DAY <= now <= until && Spoilt(files, content, offset)
    ensures !reply.Complete?
    ensures reply.Refused? ==> Part(Sha256(content)) !in after
    ensures reply.Partial? ==> reply.offset <= |content| && Spoilt(after, content, reply.offset)
  {
    hide Total, Recent, Purging, Stale, Committed;
    var request := NextChunk(content, offset);
    NothingIsStale(files, now, until);
    HonestChunk(content, offset, content);
    TotalOpened(files, request, now, |request.data|);
  }
}
