/** The client that pushes the missing files of a build (server/internal/cli/build.go), against the
    server and beside other clients that send the same contents. */
module UploadClient {
  import opened Upload
  import opened UploadService

  /** A file of the build description, with the digest and size taken from its source. */
  datatype SpecFile = SpecFile(hash: Hash, size: nat, source: Bytes)

  datatype Push = Done | ServerRefused | WrongSize | Stuck | NotDescribed

  predicate Measured(specs: seq<SpecFile>) {
    forall i :: 0 <= i < |specs| ==>
      specs[i].hash == Sha256(specs[i].source) && specs[i].size == |specs[i].source| <= MAX_FILE_SIZE
  }

  predicate HonestTo(request: Request, specs: seq<SpecFile>) {
    forall i :: 0 <= i < |specs| ==> Honest(request, specs[i].source)
  }

  predicate AllOnward(before: Directory, after: Directory, specs: seq<SpecFile>) {
    forall i :: 0 <= i < |specs| ==> Onward(before, after, specs[i].source)
  }

  lemma StaysKept(files: Directory, specs: seq<SpecFile>, request: Request, now: int, until: int, after: Directory,
                  reply: Reply)
    requires Step(files, request, now, after, reply) && until - DAY <= now <= until
    requires Kept(files, until) && HonestTo(request, specs)
    ensures Kept(after, until) && AllOnward(files, after, specs)
  {
    StaysCommitted(files, request, now, after, reply);
    StaysRecent(files, request, now, until, after, reply);
    hide Step, Committed, Recent, Honest, Onward, Kept;
    forall i | 0 <= i < |specs|
      ensures Onward(files, after, specs[i].source)
    {
      OnwardStep(files, request, now, until, after, reply, specs[i].source);
    }
  }

  lemma StandingFromStart(files: Directory, content: Bytes)
    ensures Standing(files, content, 0)
  {}

  lemma HonestToAll(specs: seq<SpecFile>, i: nat, offset: nat)
    requires Measured(specs) && i < |specs| && offset <= specs[i].size
    ensures HonestTo(NextChunk(specs[i].source, offset), specs)
  {
    hide Honest, NextChunk, WellFormed;
    forall j | 0 <= j < |specs|
      ensures Honest(NextChunk(specs[i].source, offset), specs[j].source)
    {
      HonestChunk(specs[i].source, offset, specs[j].source);
    }
  }

  lemma OnwardTwice(first: Directory, second: Directory, third: Directory, specs: seq<SpecFile>)
    requires AllOnward(first, second, specs) && AllOnward(second, third, specs)
    ensures AllOnward(first, third, specs)
  {
    hide Finished, Prefix, PartSize;
  }

  /** What a client that is alone, with nothing failing and room for the file, can count on. */
  ghost predicate Counting(files: Directory, content: Bytes, offset: nat, until: int, left: int)
  {
    && Sound(files, content, until) && Reached(files, content, offset) && PartSize(files, content) <= |content|
    && Total(files) + |content| - offset <= QUOTA && Needed(files, content, offset) <= left
  }

  lemma CountingStart(files: Directory, content: Bytes, until: int)
    requires Kept(files, until) && Prefix(files, content) && Total(files) + |content| <= QUOTA
    ensures Counting(files, content, 0, until, Pieces(|content|) + 1)
  {
    NeededAtMost(files, content);
    hide Total, Needed, Pieces;
  }

  lemma CountingOn(files: Directory, content: Bytes, offset: nat, now: int, until: int, after: Directory, reply: Reply,
                   left: int)
    requires offset <= |content| <= MAX_FILE_SIZE && (after, reply) == Chunk(files, NextChunk(content, offset), now)
    requires Counting(files, content, offset, until, left) && until - DAY <= now <= until
    ensures !reply.Refused? && left >= 1
    ensures reply.Partial? ==> reply.offset <= |content| && Counting(after, content, reply.offset, until, left - 1)
  {
    hide Total, Chunk, NextChunk, Needed, PartSize, Reached, Prefix, Recent, Committed, Honest, Pieces;
    Counted(files, content, offset, now, until, after, reply);
    Progress(files, content, offset, now, until, after, reply);
    HonestChunk(content, offset, content);
    StaysCommitted(files, NextChunk(content, offset), now, after, reply);
    StaysRecent(files, NextChunk(content, offset), now, until, after, reply);
    StaysPrefix(files, NextChunk(content, offset), now, after, reply, content);
  }

  method SomeTime(until: int) returns (now: int)
    ensures until - DAY <= now <= until
  {
    now := *;
    if now < until - DAY || now > until {
      now := until;
    }
  }

  /** Any number of requests by others, honest about the contents of this build. */
  method Others(server: UploadServer, specs: seq<SpecFile>, until: int, ghost i: nat, ghost offset: nat)
    requires i < |specs| && Kept(server.files, until) && Standing(server.files, specs[i].source, offset)
    modifies server
    ensures Kept(server.files, until) && Standing(server.files, specs[i].source, offset)
    ensures Level(server.files, specs[i].source, offset) <= Level(old(server.files), specs[i].source, offset)
    ensures AllOnward(old(server.files), server.files, specs)
  {
    hide Kept, Standing, Level, Honest, Onward, Step, Chunk;
    ghost var level := Level(server.files, specs[i].source, offset);
    OnwardItself(server.files, specs);
    var count: int := *;
    for n := 0 to if count > 0 then count else 0
      invariant Kept(server.files, until) && Standing(server.files, specs[i].source, offset)
      invariant Level(server.files, specs[i].source, offset) <= level
      invariant AllOnward(old(server.files), server.files, specs)
    {
      var request: Request := *;
      if HonestTo(request, specs) {
        var now := SomeTime(until);
        ghost var before := server.files;
        var reply := server.UploadBuildChunk(request, now);
        StandingStays(before, request, now, until, server.files, reply, specs[i].source, offset);
        StaysKept(before, specs, request, now, until, server.files, reply);
        OnwardTwice(old(server.files), before, server.files, specs);
      }
    }
  }

  lemma OnwardItself(files: Directory, specs: seq<SpecFile>)
    ensures AllOnward(files, files, specs)
  {}

  /** Whatever the partial file held at first: ends with the object on the server unless the server
      refuses a request or the partial file was longer than the content.  A client that is alone,
      with nothing failing and room for the file, needs at most one request a chunk and one more;
      and where the partial file was no prefix it is refused once and the file is gone. */
  method PushFile(server: UploadServer, specs: seq<SpecFile>, i: nat, until: int, alone: bool)
    returns (result: Push, requests: nat)
    requires Measured(specs) && i < |specs| && Kept(server.files, until)
    modifies server
    ensures Kept(server.files, until) && AllOnward(old(server.files), server.files, specs)
    ensures result.Done? || result.ServerRefused? || result.Stuck?
    ensures result.Done? ==> Finished(server.files, specs[i].source)
    ensures result.Stuck? ==> PartSize(old(server.files), specs[i].source) > specs[i].size
    ensures result.Done? && PartSize(old(server.files), specs[i].source) > specs[i].size ==>
              Finished(old(server.files), specs[i].source)
    ensures alone && server.reliable && AllRegular(old(server.files)) &&
            Total(old(server.files)) + specs[i].size <= QUOTA ==>
              && (Prefix(old(server.files), specs[i].source) ==> result.Done? && requests <= Pieces(specs[i].size) + 1)
              && (Spoilt(old(server.files), specs[i].source, 0) ==>
                    result.ServerRefused? && Part(specs[i].hash) !in server.files)
  {
    hide Kept, Reached, Standing, Level, Honest, Finished, Step, Chunk, Total, AllRegular, NextChunk, Needed, Pieces,
      PartSize, HonestTo, Counting, Prefix, Spoilt, Onward;
    var entry := specs[i];
    var offset: nat := 0;
    requests := 0;
    ghost var first := server.files;
    ghost var calm := alone && server.reliable && AllRegular(first) && Total(first) + entry.size <= QUOTA;
    ghost var sure, spoilt := calm && Prefix(first, entry.source), calm && Spoilt(first, entry.source, 0);
    StandingFromStart(first, entry.source);
    OnwardItself(first, specs);
    if sure {
      CountingStart(first, entry.source, until);
    }
    while true
      invariant offset <= entry.size && Kept(server.files, until) && Standing(server.files, entry.source, offset)
      invariant AllOnward(first, server.files, specs)
      invariant calm ==> AllRegular(server.files)
      invariant sure ==> Counting(server.files, entry.source, offset, until, Pieces(entry.size) + 1 - requests)
      invariant spoilt ==> Spoilt(server.files, entry.source, offset)
      decreases Level(server.files, entry.source, offset), entry.size - offset
    {
      ghost var start := server.files;
      if !alone {
        Others(server, specs, until, i, offset);
        OnwardTwice(first, start, server.files, specs);
      }
      var now := SomeTime(until);
      var chunk := NextChunk(entry.source, offset);
      ghost var before := server.files;
      var reply := server.UploadBuildChunk(chunk, now);
      HonestToAll(specs, i, offset);
      Advance(before, entry.source, offset, now, until, server.files, reply);
      StaysKept(before, specs, chunk, now, until, server.files, reply);
      if calm {
        RegularOn(before, chunk, now, until);
      }
      if sure {
        CountingOn(before, entry.source, offset, now, until, server.files, reply, Pieces(entry.size) + 1 - requests);
      }
      if spoilt {
        AloneSpoilt(before, entry.source, offset, now, until, server.files, reply);
      }
      LongerStays(first, before, specs, i);
      OnwardTwice(first, before, server.files, specs);
      LongerStays(first, server.files, specs, i);
      requests := requests + 1;
      if reply.Refused? {
        return ServerRefused, requests;
      }
      if reply.Complete? {
        if reply.offset != entry.size {
          return WrongSize, requests;
        }
        return Done, requests;
      }
      if reply.offset > entry.size || reply.offset == offset {
        return Stuck, requests;
      }
      offset := reply.offset;
    }
  }

  lemma RegularOn(files: Directory, request: Request, now: int, until: int)
    requires AllRegular(files) && Kept(files, until) && now <= until
    ensures AllRegular(Chunk(files, request, now).0)
  {
    StaysRegular(files, request, now, until);
  }

  lemma LongerStays(first: Directory, files: Directory, specs: seq<SpecFile>, i: nat)
    requires AllOnward(first, files, specs) && i < |specs|
    ensures PartSize(files, specs[i].source) > |specs[i].source| ==>
              PartSize(first, specs[i].source) > |specs[i].source|
    ensures PartSize(first, specs[i].source) > |specs[i].source| && Finished(files, specs[i].source) ==>
              Finished(first, specs[i].source)
  {}

  /** Pushes what the server asked for.  When it succeeds every file asked for is on the server,
      also those pushed first; a digest outside the description stops it, and so does a partial
      file longer than its content. */
  method PushBuildFiles(server: UploadServer, specs: seq<SpecFile>, missing: seq<Hash>, until: int, alone: bool)
    returns (result: Push)
    requires Measured(specs) && Kept(server.files, until)
    modifies server
    ensures Kept(server.files, until) && AllOnward(old(server.files), server.files, specs)
    ensures result.Done? || result.ServerRefused? || result.NotDescribed? || result.Stuck?
    ensures result.Done? ==>
              forall k :: 0 <= k < |missing| ==>
                Object(missing[k]) in server.files && missing[k] == Sha256(server.files[Object(missing[k])].data)
    ensures result.NotDescribed? ==> exists k :: 0 <= k < |missing| && !Described(specs, missing[k])
    ensures result.Stuck? ==>
              exists i :: 0 <= i < |specs| && PartSize(old(server.files), specs[i].source) > specs[i].size
  {
    hide Kept, Reached, Honest, Finished, Step, Chunk, Total, AllRegular, NextChunk, Pieces, PartSize, AllOnward,
      Prefix, Spoilt;
    ghost var first := server.files;
    OnwardItself(first, specs);
    for k := 0 to |missing|
      invariant Kept(server.files, until) && AllOnward(first, server.files, specs)
      invariant forall j :: 0 <= j < k ==> Arrived(server.files, specs, missing[j])
    {
      var i := 0;
      while i < |specs| && specs[i].hash != missing[k]
        invariant 0 <= i <= |specs|
        invariant forall x :: 0 <= x < i ==> specs[x].hash != missing[k]
      {
        i := i + 1;
      }
      if i == |specs| {
        assert !Described(specs, missing[k]);
        return NotDescribed;
      }
      ghost var before := server.files;
      var requests;
      result, requests := PushFile(server, specs, i, until, alone);
      LongerStays(first, before, specs, i);
      OnwardTwice(first, before, server.files, specs);
      if !result.Done? {
        return;
      }
      forall j | 0 <= j < k
        ensures Arrived(server.files, specs, missing[j])
      {
        StillArrived(before, server.files, specs, missing[j]);
      }
      assert Arrived(server.files, specs, missing[k]);
    }
    result := Done;
    forall k | 0 <= k < |missing|
      ensures Object(missing[k]) in server.files && missing[k] == Sha256(server.files[Object(missing[k])].data)
    {
      ArrivedObject(server.files, specs, until, missing[k]);
    }
  }

  predicate Described(specs: seq<SpecFile>, hash: Hash) {
    exists i :: 0 <= i < |specs| && specs[i].hash == hash
  }

  predicate Arrived(files: Directory, specs: seq<SpecFile>, hash: Hash) {
    exists i :: 0 <= i < |specs| && specs[i].hash == hash && Finished(files, specs[i].source)
  }

  lemma StillArrived(before: Directory, after: Directory, specs: seq<SpecFile>, hash: Hash)
    requires AllOnward(before, after, specs) && Arrived(before, specs, hash)
    ensures Arrived(after, specs, hash)
  {
    hide Finished;
  }

  lemma ArrivedObject(files: Directory, specs: seq<SpecFile>, until: int, hash: Hash)
    requires Kept(files, until) && Measured(specs) && Arrived(files, specs, hash)
    ensures Object(hash) in files && hash == Sha256(files[Object(hash)].data)
  {}
}
