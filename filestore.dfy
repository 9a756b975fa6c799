/**
 * The parts of the local file system and of `java.util.concurrent.locks`
 * that the cache and the file-system repository use: a map from path to
 * contents, and per-key reentrant locks with their hold counts.
 */
module FileStore {
  import opened Common

  /** `dir.resolve(name)` for a plain file name. */
  function Resolve(dir: string, name: string): (p: string)
    ensures StartsWith(p, dir + "/") && EndsWith(p, name)
  {
    dir + "/" + name
  }

  /** The paths strictly inside `dir`, as `Files.walk` lists them (the directory itself excluded). */
  function Under(files: map<string, seq<byte>>, dir: string): (r: set<string>)
    ensures forall p :: p in r <==> p in files && StartsWith(p, dir + "/")
  {
    set p | p in files && StartsWith(p, dir + "/")
  }

  class FileSystem {
    var files: map<string, seq<byte>>

    constructor (files: map<string, seq<byte>>)
      ensures this.files == files
    {
      this.files := files;
    }

    /** `Files.isReadable(path)`. */
    function IsReadable(path: string): bool
      reads this
    {
      path in files
    }

    /** `Files.createTempFile`: a new empty file; `fails` stands for an I/O error. */
    method CreateTempFile(path: string, fails: bool) returns (ok: bool)
      requires path !in files
      modifies this
      ensures ok == !fails
      ensures files == if ok then old(files)[path := []] else old(files)
    {
      ok := !fails;
      if ok {
        files := files[path := []];
      }
    }

    /** `Files.move(from, to, REPLACE_EXISTING)`; a missing source fails. */
    method Move(from: string, to: string, fails: bool) returns (ok: bool)
      modifies this
      ensures ok == (from in old(files) && !fails)
      ensures ok ==> files == (old(files) - {from})[to := old(files)[from]]
      ensures !ok ==> files == old(files)
    {
      ok := from in files && !fails;
      if ok {
        var contents := files[from];
        files := (files - {from})[to := contents];
      }
    }

    /** `Files.deleteIfExists(path)`; returns whether a file was removed. */
    method DeleteIfExists(path: string) returns (deleted: bool)
      modifies this
      ensures deleted == (path in old(files))
      ensures files == old(files) - {path}
    {
      deleted := path in files;
      files := files - {path};
    }

    /** Overwrites (or creates) a file with the given contents. */
    method WriteFile(path: string, contents: seq<byte>)
      modifies this
      ensures files == old(files)[path := contents]
    {
      files := files[path := contents];
    }

    /** Merges files written by an outside party (an external tool) into the tree. */
    method WriteAll(written: map<string, seq<byte>>)
      modifies this
      ensures files == old(files) + written
    {
      files := files + written;
    }

    /** `FileSystemUtils.deleteRecursively(dir)`: every file inside `dir` goes, nothing else. */
    method DeleteRecursively(dir: string)
      modifies this
      ensures files == old(files) - Under(old(files), dir)
      ensures Under(files, dir) == {}
    {
      files := files - Under(files, dir);
    }
  }

  /** How many times the (single) calling thread holds the lock of `key`. */
  function Held(holds: map<string, nat>, key: string): nat
  {
    if key in holds then holds[key] else 0
  }

  /**
   * The static `LOCKS` map of fair `ReentrantLock`s, one per key, created on
   * first use and never removed, seen from one thread.
   */
  class LockTable {
    var created: set<string>
    var holds: map<string, nat>

    constructor ()
      ensures created == {} && holds == map[]
    {
      created := {};
      holds := map[];
    }

    /** `LOCKS.computeIfAbsent(key, ...).lock()`. */
    method Lock(key: string)
      modifies this
      ensures created == old(created) + {key}
      ensures holds == old(holds)[key := Held(old(holds), key) + 1]
    {
      created := created + {key};
      holds := holds[key := Held(holds, key) + 1];
    }

    /** `lock.unlock()`: without a hold it throws IllegalMonitorStateException (`ok` false). */
    method Unlock(key: string) returns (ok: bool)
      modifies this
      ensures ok == (Held(old(holds), key) > 0)
      ensures holds == if ok then old(holds)[key := Held(old(holds), key) - 1] else old(holds)
      ensures created == old(created)
    {
      ok := Held(holds, key) > 0;
      if ok {
        holds := holds[key := Held(holds, key) - 1];
      }
    }
  }

  /** Locking and then unlocking a key leaves every key's hold count as it was. */
  lemma LockUnlockRestores(holds: map<string, nat>, key: string, other: string)
    ensures var locked := holds[key := Held(holds, key) + 1];
            Held(locked[key := Held(locked, key) - 1], other) == Held(holds, other)
  {
  }

  /** The failure a second unlock without a hold raises. */
  const IllegalMonitorState := Failure("IllegalMonitorStateException", None)
}
