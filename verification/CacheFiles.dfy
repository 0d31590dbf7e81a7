/**
 Cache files written and removed as a whole (common/disk_cache.go). Every exit of the writer either commits
 the reservation or releases it, so the counters always account for exactly the files present.
 */
module CacheFiles {
  import opened DiskCache
  import opened BodyStorage

  class Directory {
    var files: map<string, seq<byte>>

    constructor ()
      ensures files == map[]
    {
      files := map[];
    }
  }

  ghost function TotalSize(files: map<string, seq<byte>>): nat {
    if files == map[] then 0
    else
      var path :| path in files;
      |files[path]| + TotalSize(files - {path})
  }

  lemma {:induction false} TotalSizeWithout(files: map<string, seq<byte>>, path: string)
    requires path in files
    ensures TotalSize(files) == |files[path]| + TotalSize(files - {path})
    decreases |files|
  {
    var first :| first in files && TotalSize(files) == |files[first]| + TotalSize(files - {first});
    if first != path {
      TotalSizeWithout(files - {first}, path);
      TotalSizeWithout(files - {path}, first);
      assert files - {first} - {path} == files - {path} - {first};
    }
  }

  /** The counters answer for the files present and for `others` bytes held elsewhere. */
  ghost predicate Accounted(dir: Directory, counters: Counters, others: nat, otherFiles: nat)
    reads dir, counters
  {
    counters.usage == TotalSize(dir.files) + others && counters.files == |dir.files| + otherFiles
  }

  /** Reserve, write, close, commit; whatever fails, nothing stays reserved and no file stays behind. */
  method WriteCacheFile(dir: Directory, path: string, data: seq<byte>, counters: Counters, disk: Disk, closes: bool,
                        ghost others: nat, ghost otherFiles: nat) returns (ok: bool)
    requires Accounted(dir, counters, others, otherFiles) && disk.room >= 0
    modifies dir, counters`usage, counters`files
    ensures Accounted(dir, counters, others, otherFiles)
    ensures dir.files == if ok then old(dir.files)[path := data] else old(dir.files)
    ensures ok <==>
            && (data == [] || counters.cap <= 0 || old(counters.usage) + |data| <= counters.cap)
            && disk.canCreate && path !in old(dir.files) && |data| <= disk.room && closes
    ensures counters.cap > 0 && old(counters.usage) <= counters.cap ==> counters.usage <= counters.cap
  {
    hide TotalSize;
    var reserved := counters.Reserve(|data|);
    if reserved.Err? {
      return false;
    }
    var reservation := reserved.value;
    var committed := false;
    if disk.canCreate && path !in dir.files {
      var file := new TempFile(disk.room, false);
      var n, wrote := file.Write(data);
      if wrote && n == |data| && closes {
        committed := reservation.Commit(n);
        if committed {
          assert file.data == data;
          dir.files := dir.files[path := file.data];
          TotalSizeWithout(dir.files, path);
          assert dir.files - {path} == old(dir.files);
        }
      }
    }
    if !committed {
      reservation.Release();
    }
    return committed;
  }

  /**
   A removed file is taken off the counters if it could be statted before; otherwise it stays counted, and its
   bytes belong to nobody.
   */
  method RemoveCacheFile(dir: Directory, path: string, counters: Counters, statted: bool, removable: bool,
                         ghost others: nat, ghost otherFiles: nat) returns (ok: bool)
    requires Accounted(dir, counters, others, otherFiles)
    modifies dir, counters`usage, counters`files
    ensures ok <==> path in old(dir.files) && removable
    ensures dir.files == if ok then old(dir.files) - {path} else old(dir.files)
    ensures Accounted(dir, counters, others, otherFiles) <==> !(ok && !statted)
    ensures ok && !statted ==> Accounted(dir, counters, others + |old(dir.files)[path]|, otherFiles + 1)
  {
    hide TotalSize;
    var size := if statted && path in dir.files then |dir.files[path]| else 0;
    ok := removable && path in dir.files;
    if ok {
      TotalSizeWithout(dir.files, path);
      assert |dir.files - {path}| == |dir.files| - 1 by {
        assert (dir.files - {path}).Keys == dir.files.Keys - {path};
      }
      dir.files := dir.files - {path};
      if statted {
        counters.DecrementFiles(size);
      }
    }
  }
}
