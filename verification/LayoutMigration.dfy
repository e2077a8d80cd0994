/** Moving a build from one tree for each platform to a shared tree with overlays, one rename at a
    time (server/internal/buildsvc/migrate.go). */
module LayoutMigration {
  import opened Wrappers
  import opened FileSizes
  import opened LayoutModel

  datatype Compared = Same | Different | Failed

  class BuildRoot {
    const reliable: bool
    var files: Files

    constructor (reliable: bool, files: Files)
      ensures this.reliable == reliable && this.files == files
    {
      this.reliable, this.files := reliable, files;
    }

    method Works() returns (works: bool)
      ensures reliable ==> works
    {
      works := *;
      if reliable {
        works := true;
      }
    }

    /** Equal sizes and equal digests, so equal bytes; a directory in the way may read as different
        or as an error. */
    method SameContent(left: Path, right: Path) returns (result: Compared)
      requires left in files
      ensures result.Same? ==> right in files && files[right] == files[left]
      ensures result.Different? ==> right !in files || files[right] != files[left]
      ensures reliable && !Blocked(files, right) ==> !result.Failed?
    {
      var works := Works();
      if !works || Blocked(files, right) {
        return Failed;
      }
      if right !in files {
        works := Works();
        return if IsDirectory(files, right) && !works then Failed else Different;
      }
      if |files[left]| != |files[right]| {
        return Different;
      }
      works := Works();
      if !works {
        return Failed;
      }
      return if files[left] == files[right] then Same else Different;
    }

    /** Makes the directories above the target and renames. */
    method MoveTo(path: Path, target: Path) returns (ok: bool)
      requires path in files
      modifies this
      ensures ok ==> files == (old(files) - {path})[target := old(files)[path]]
      ensures !ok ==> files == old(files)
      ensures reliable && !Blocked(old(files), target) && !IsDirectory(old(files), target) ==> ok
    {
      ok := Works();
      if !ok || Blocked(files, target) || IsDirectory(files, target) {
        return false;
      }
      files := (files - {path})[target := files[path]];
    }

    /** Visits the platform's files, in any order. A failure stops it where it is. */
    method SharePlatform(key: string, first: bool) returns (ok: bool, freed: nat)
      modifies this
      ensures Free(old(files), key, first) && ok ==>
                Midway(old(files), key, first, {}, files) && Total(files) == Total(old(files)) &&
                freed == Total(DroppedOf(old(files), key, first, {}))
      ensures reliable && Free(old(files), key, first) && Open(old(files), key) && Tree(old(files), key) != {} ==> ok
    {
      hide Free, Midway, Total, DroppedOf, PlaceOf, Target, BelongsToPlatform, Open, Blocked, IsDirectory;
      ghost var before := files;
      freed := 0;
      var left := Tree(files, key);
      if left == {} {
        return false, 0;
      }
      if Free(before, key, first) {
        NotVisitedYet(before, key, first);
        TotalOfNothing(DroppedOf(before, key, first, left));
      }
      ghost var free := Free(before, key, first);
      while left != {}
        invariant left <= Tree(before, key)
        invariant free ==> Midway(before, key, first, left, files) && Total(files) == Total(before) &&
                           freed == Total(DroppedOf(before, key, first, left))
        decreases |left|
      {
        var path :| path in left;
        if free {
          OneMore(before, key, first, left, files, path);
          Decides(before, key, first, left, files, path);
          DroppedOneMore(before, key, first, left, path);
          if Open(before, key) {
            SharedIsOpen(before, key, first, left, files, path);
            OverlayIsOpen(before, key, first, left, files, path);
          }
        }
        if path !in files {
          return false, freed;
        }
        var target := path[1..];
        if BelongsToPlatform(target) {
          target := To(key, target);
        } else if !first {
          var compared := SameContent(path, target);
          if compared.Failed? {
            return false, freed;
          }
          if compared.Same? {
            freed := freed + |files[path]|;
            left := left - {path};
            continue;
          }
          target := To(key, target);
        }
        if free {
          TargetIs(before, key, first, path);
          TotalMoved(files, path, target);
        }
        ok := MoveTo(path, target);
        if !ok {
          return;
        }
        left := left - {path};
      }
      ok := true;
    }

    /** Removes what is left of a platform's tree; a failure may leave any part of it. */
    method RemoveTree(key: string) returns (ok: bool)
      modifies this
      ensures ok ==> files == old(files) - Tree(old(files), key)
      ensures reliable ==> ok
    {
      ok := Works();
      if ok {
        files := files - Tree(files, key);
        return;
      }
      var gone: set<Path> := *;
      files := files - (gone * Tree(files, key));
    }

    /** A migration that is not cut off keeps every platform's files and loses only the bytes it
        counts as freed. */
    method ShareCommonFiles(keys: seq<Option<string>>, text: Bytes) returns (ok: bool, freed: nat)
      modifies this
      ensures ok && Clean(old(files), keys) && MARK !in old(files) ==>
                Migrated(old(files), keys, |keys|, files) && Total(files) + freed == Total(old(files))
      ensures reliable && Clean(old(files), keys) && MARK !in old(files) && Roomy(old(files), keys) ==> ok
    {
      hide Clean, Migrated, Total, Free, Midway, Moved, DroppedOf, Tree, Roomy, Open, Blocked, IsDirectory;
      ghost var sure := reliable && Clean(files, keys) && MARK !in files && Roomy(files, keys);
      ghost var clean := Clean(files, keys) && MARK !in files;
      ghost var start := files[MARK := text];
      freed := 0;
      ok := Works();
      if sure {
        RoomyWithMark(files, keys, text);
      }
      if !ok || Blocked(files, MARK) || IsDirectory(files, MARK) {
        return false, 0;
      }
      if clean {
        CleanWithMark(files, keys, text);
        NotMovedYet(start, keys);
      }
      files := files[MARK := text];
      for n := 0 to |keys|
        invariant clean ==> Migrated(start, keys, n, files) && Total(files) + freed == Total(start)
      {
        if clean {
          FreeOrPassed(start, keys, n, files);
        }
        if sure {
          OpenAndThere(start, keys, n, files);
        }
        if keys[n].None? {
          continue;
        }
        var key := keys[n].value;
        ghost var before := files;
        var saved;
        ok, saved := SharePlatform(key, n == 0);
        if !ok {
          return;
        }
        freed := freed + saved;
        if clean {
          TreeRemoved(before, key, n == 0, files);
          StillMigrated(start, keys, n, before, files - Tree(files, key));
        }
        ok := RemoveTree(key);
        if !ok {
          return;
        }
      }
      if clean {
        WithoutMark(old(files), keys, text, files);
      }
      ok := Works();
      if !ok {
        return;
      }
      files := files - {MARK};
    }
  }

  lemma OpenAndThere(start: Files, keys: seq<Option<string>>, n: nat, files: Files)
    requires n < |keys| && Clean(start, keys) && Roomy(start, keys) && Migrated(start, keys, n, files)
    ensures keys[n].Some? ==> Open(files, keys[n].value) && Tree(files, keys[n].value) != {}
  {
    hide Clean, Roomy, Kept, Known, Untouched, Open, Tree;
    if keys[n].Some? {
      StillOpen(start, keys, n, files);
      TreeIsThere(start, keys, n, files);
    }
  }

  lemma FreeOrPassed(start: Files, keys: seq<Option<string>>, n: nat, files: Files)
    requires n < |keys| && Clean(start, keys) && Migrated(start, keys, n, files)
    ensures keys[n].Some? ==> Free(files, keys[n].value, n == 0)
    ensures keys[n].None? ==> Migrated(start, keys, n + 1, files)
  {
    hide Clean, Kept, Known, Untouched, Free;
    if keys[n].Some? {
      StillFree(start, keys, n, files);
    } else {
      PassedOver(start, keys, n, files);
    }
  }

  lemma TotalOfNothing(files: Files)
    ensures files == map[] ==> Total(files) == 0
  {}

  lemma TargetIs(before: Files, key: string, first: bool, path: Path)
    requires path in before && InTree(key, path) && From(key, path[1..]) == path
    ensures Target(before, key, first, path) ==
            if PlaceOf(before, key, first, path[1..]).Shared? then path[1..] else To(key, path[1..])
  {
    hide PlaceOf;
  }
}
