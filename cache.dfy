/**
 * `FileSystemDataStreamCache` and its `CachingFileInputStream`: a stream is
 * served from a cache file when one exists; otherwise the supplier's stream
 * is teed into a temporary file which, once the stream has been read to its
 * end, is moved into place as the cache file. A per-key lock is held from
 * the lookup until the cache file is in place (or the miss fails).
 *
 * The tee flushes its buffer before the move; the code as written does not
 * (see `BufferedOutput.CacheFileAsWritten`).
 */
module StreamCache {
  import opened Common
  import opened Streams
  import opened FileStore
  import opened BufferedOutput

  const IOFailure := Failure("IOException", None)

  class CachingFileInputStream {
    const source: ByteSource
    const temporaryCacheFile: string
    const cacheFile: string
    const key: string
    const fs: FileSystem
    const locks: LockTable
    /** Whether `Files.move` into the cache file fails with an I/O error. */
    const moveFails: bool
    /** The buffered stream the tee writes to; its flushed part is the temporary file. */
    var branch: Buffered
    var complete: bool
    ghost const start: nat

    /** The tee has copied exactly the bytes read; the temporary file holds the flushed part. */
    ghost predicate Valid()
      reads this, source, fs
    {
      source.Valid() && start <= source.pos &&
      Accepted(branch) == source.data[start..source.pos] &&
      WithinCapacity(branch) &&
      (temporaryCacheFile in fs.files ==> fs.files[temporaryCacheFile] == branch.flushed) &&
      (!complete ==> temporaryCacheFile in fs.files) &&
      (complete ==> branch.pending == [] && source.pos == |source.data|)
    }

    constructor (source: ByteSource, temporaryCacheFile: string, cacheFile: string, key: string,
                 fs: FileSystem, locks: LockTable, moveFails: bool)
      requires source.Valid() && temporaryCacheFile in fs.files && fs.files[temporaryCacheFile] == []
      ensures Valid() && !complete && branch == Empty() && start == source.pos
      ensures this.source == source && this.fs == fs && this.locks == locks && this.key == key
      ensures this.temporaryCacheFile == temporaryCacheFile && this.cacheFile == cacheFile
      ensures this.moveFails == moveFails
    {
      this.source := source;
      this.temporaryCacheFile := temporaryCacheFile;
      this.cacheFile := cacheFile;
      this.key := key;
      this.fs := fs;
      this.locks := locks;
      this.moveFails := moveFails;
      branch := Empty();
      complete := false;
      start := source.pos;
    }

    /** The tee's write of bytes just read. */
    method Tee(bytes: seq<byte>)
      requires source.Valid() && start <= source.pos && !complete && WithinCapacity(branch)
      requires temporaryCacheFile in fs.files && fs.files[temporaryCacheFile] == branch.flushed
      requires Accepted(branch) + bytes == source.data[start..source.pos]
      modifies this, fs
      ensures Valid() && !complete
      ensures branch == Write(old(branch), bytes)
      ensures fs.files == old(fs.files)[temporaryCacheFile := branch.flushed]
    {
      branch := Write(branch, bytes);
      fs.WriteFile(temporaryCacheFile, branch.flushed);
    }

    /**
     * `completeCacheFile()`, with the buffer flushed first: the temporary file
     * is moved over the cache file, then the stream is complete and the lock
     * released even when the move failed. A failing unlock's exception
     * replaces the move's.
     */
    method CompleteCacheFile() returns (err: Option<Failure>)
      requires Valid() && source.pos == |source.data|
      modifies this, fs, locks
      ensures Valid() && complete && branch == Flush(old(branch))
      ensures var moved := temporaryCacheFile in old(fs.files) && !moveFails;
              var unlocked := Held(old(locks.holds), key) > 0;
              err == (if !unlocked then Some(IllegalMonitorState) else if !moved then Some(IOFailure) else None)
      ensures temporaryCacheFile in old(fs.files) && !moveFails ==>
              fs.files == (old(fs.files) - {temporaryCacheFile})[cacheFile := Accepted(old(branch))]
      ensures temporaryCacheFile in old(fs.files) && moveFails ==>
              fs.files == old(fs.files)[temporaryCacheFile := Accepted(old(branch))]
      ensures temporaryCacheFile !in old(fs.files) ==> fs.files == old(fs.files)
      ensures Held(old(locks.holds), key) > 0 ==> locks.holds == old(locks.holds)[key := Held(old(locks.holds), key) - 1]
      ensures Held(old(locks.holds), key) == 0 ==> locks.holds == old(locks.holds)
      ensures locks.created == old(locks.created)
    {
      if branch.pending != [] {
        branch := Flush(branch);
        fs.WriteFile(temporaryCacheFile, branch.flushed);
      }
      var moved := fs.Move(temporaryCacheFile, cacheFile, moveFails);
      complete := true;
      var unlocked := locks.Unlock(key);
      if !unlocked {
        err := Some(IllegalMonitorState);
      } else if !moved {
        err := Some(IOFailure);
      } else {
        err := None;
      }
    }

    /** `read()`: a byte is teed to the temporary file; the end completes the cache file. */
    method Read() returns (r: Result<int>)
      requires Valid()
      modifies this, source, fs, locks
      ensures Valid()
      ensures old(source.pos) < |source.data| ==>
              r == Ok(source.data[old(source.pos)] as int) && source.pos == old(source.pos) + 1 &&
              branch == Write(old(branch), [source.data[old(source.pos)]]) &&
              fs.files == old(fs.files)[temporaryCacheFile := branch.flushed] &&
              locks.holds == old(locks.holds) && complete == old(complete)
      ensures old(source.pos) == |source.data| ==> complete && source.pos == old(source.pos)
      ensures old(source.pos) == |source.data| ==>
              r == (if Held(old(locks.holds), key) == 0 then Err(IllegalMonitorState)
                    else if temporaryCacheFile !in old(fs.files) || moveFails then Err(IOFailure)
                    else Ok(-1))
      ensures old(source.pos) == |source.data| && Held(old(locks.holds), key) > 0 ==>
              locks.holds == old(locks.holds)[key := Held(old(locks.holds), key) - 1]
      ensures old(source.pos) == |source.data| && Held(old(locks.holds), key) == 0 ==> locks.holds == old(locks.holds)
      ensures old(source.pos) == |source.data| && temporaryCacheFile in old(fs.files) && !moveFails ==>
              fs.files == (old(fs.files) - {temporaryCacheFile})[cacheFile := source.data[start..]]
      ensures old(source.pos) == |source.data| && temporaryCacheFile in old(fs.files) && moveFails ==>
              fs.files == old(fs.files)[temporaryCacheFile := source.data[start..]]
      ensures old(source.pos) == |source.data| && temporaryCacheFile !in old(fs.files) ==> fs.files == old(fs.files)
      ensures locks.created == old(locks.created)
    {
      var b := source.Read();
      if b >= 0 {
        if complete {
          assert false;
        }
        Tee([b as byte]);
        return Ok(b);
      }
      assert source.data[start..source.pos] == source.data[start..];
      var err := CompleteCacheFile();
      r := if err.Some? then Err(err.value) else Ok(b);
    }

    /** `read(buf, off, len)`: the bytes read are teed; the end completes the cache file. */
    method ReadInto(buf: array<byte>, off: nat, len: nat) returns (r: Result<int>)
      requires Valid() && off + len <= buf.Length
      modifies this, source, fs, locks, buf
      ensures Valid()
      ensures var n := ChunkLength(|source.data| - old(source.pos), len);
              n >= 0 ==> r == Ok(n) && source.pos == old(source.pos) + n &&
                         buf[off..off + n] == source.data[old(source.pos)..source.pos] &&
                         branch == Write(old(branch), buf[off..off + n]) &&
                         locks.holds == old(locks.holds) && complete == old(complete)
      ensures ChunkLength(|source.data| - old(source.pos), len) < 0 ==> complete && source.pos == old(source.pos)
      ensures ChunkLength(|source.data| - old(source.pos), len) < 0 ==>
              r == (if Held(old(locks.holds), key) == 0 then Err(IllegalMonitorState)
                    else if temporaryCacheFile !in old(fs.files) || moveFails then Err(IOFailure)
                    else Ok(-1))
      ensures ChunkLength(|source.data| - old(source.pos), len) < 0 && Held(old(locks.holds), key) > 0 ==>
              locks.holds == old(locks.holds)[key := Held(old(locks.holds), key) - 1]
      ensures ChunkLength(|source.data| - old(source.pos), len) < 0 && Held(old(locks.holds), key) == 0 ==> locks.holds == old(locks.holds)
      ensures ChunkLength(|source.data| - old(source.pos), len) < 0 && temporaryCacheFile in old(fs.files) && !moveFails ==>
              fs.files == (old(fs.files) - {temporaryCacheFile})[cacheFile := source.data[start..]]
      ensures ChunkLength(|source.data| - old(source.pos), len) < 0 && temporaryCacheFile in old(fs.files) && moveFails ==>
              fs.files == old(fs.files)[temporaryCacheFile := source.data[start..]]
      ensures ChunkLength(|source.data| - old(source.pos), len) < 0 && temporaryCacheFile !in old(fs.files) ==> fs.files == old(fs.files)
      ensures locks.created == old(locks.created)
    {
      var n := source.ReadInto(buf, off, len);
      if n >= 0 {
        if complete {
          if n > 0 {
            assert false;
          }
          assert buf[off..off + n] == [];
          return Ok(n);
        }
        Tee(buf[off..off + n]);
        return Ok(n);
      }
      assert source.data[start..source.pos] == source.data[start..];
      var err := CompleteCacheFile();
      r := if err.Some? then Err(err.value) else Ok(n);
    }

    /**
     * `finalize()`: an incomplete stream deletes its temporary file and then
     * calls `unlock()`. The finaliser thread never holds the lock (the thread
     * that called `get` does), so that call throws
     * IllegalMonitorStateException, returned here as `thrown`, which the
     * JVM discards: the hold taken by `get` is never released.
     */
    method Finalize() returns (thrown: Option<Failure>)
      requires Valid()
      modifies this, fs
      ensures complete == old(complete) && branch == old(branch)
      ensures old(complete) ==> fs.files == old(fs.files) && thrown.None?
      ensures !old(complete) ==> fs.files == old(fs.files) - {temporaryCacheFile} && thrown == Some(IllegalMonitorState)
      ensures locks.holds == old(locks.holds) && locks.created == old(locks.created)
    {
      thrown := None;
      if !complete {
        var _ := fs.DeleteIfExists(temporaryCacheFile);
        thrown := Some(IllegalMonitorState);
      }
    }
  }

  /** What the supplier's `get()` does: returns a stream over some bytes, or throws a runtime exception. */
  datatype Supplier = Supplies(data: seq<byte>) | Throws(failure: Failure)

  /** How opening the cache file fails, when it does. */
  datatype OpenFault = NoOpenFault | OpenIOException | OpenRuntimeException(failure: Failure)

  /**
   * The environment of one `get`: the random part of the temporary file's
   * name and the I/O faults that the file operations raise.
   */
  datatype Environment = Environment(
    tempName: string, openFault: OpenFault, tempFails: bool, outputFails: bool, moveFails: bool)

  /** The stream `get` returns: the cache file's, or the supplier's teed to a temporary file. */
  datatype CachedStream = FromCacheFile(source: ByteSource) | Teeing(stream: CachingFileInputStream)

  /** The temporary file `get` creates for `key`. */
  function TemporaryFile(dir: string, key: string, tempName: string): string
  {
    Resolve(dir, "." + key + "-" + tempName)
  }

  class FileSystemDataStreamCache {
    const cacheDirectory: string
    const fs: FileSystem
    const locks: LockTable

    constructor (cacheDirectory: string, fs: FileSystem, locks: LockTable)
      ensures this.cacheDirectory == cacheDirectory && this.fs == fs && this.locks == locks
    {
      this.cacheDirectory := cacheDirectory;
      this.fs := fs;
      this.locks := locks;
    }

    /**
     * `get(key, supplier)`. On a hit the supplier is not consulted and the lock
     * is released; on a successful miss the lock stays held by the returned
     * stream; a runtime failure releases it; an I/O failure on a miss keeps it.
     */
    method Get(key: string, supplier: Supplier, env: Environment) returns (r: Result<CachedStream>)
      requires TemporaryFile(cacheDirectory, key, env.tempName) !in fs.files
      modifies fs, locks
      ensures locks.created == old(locks.created) + {key}
      ensures var held := Held(old(locks.holds), key);
              var cacheFile := Resolve(cacheDirectory, key);
              var temp := TemporaryFile(cacheDirectory, key, env.tempName);
              if cacheFile in old(fs.files) then
                fs.files == old(fs.files) &&
                match env.openFault
                case NoOpenFault =>
                  r.Ok? && r.value.FromCacheFile? && fresh(r.value.source) &&
                  r.value.source.data == old(fs.files)[cacheFile] && r.value.source.pos == 0 &&
                  locks.holds == old(locks.holds)[key := held]
                case OpenIOException =>
                  r == Err(IOFailure) && locks.holds == old(locks.holds)[key := held]
                case OpenRuntimeException(f) =>
                  (held == 0 ==> r == Err(IllegalMonitorState) && locks.holds == old(locks.holds)[key := 0]) &&
                  (held > 0 ==> r == Err(f) && locks.holds == old(locks.holds)[key := held - 1])
              else if env.tempFails then
                r == Err(IOFailure) && fs.files == old(fs.files) &&
                locks.holds == old(locks.holds)[key := held + 1]
              else
                fs.files == old(fs.files)[temp := []] &&
                match supplier
                case Throws(f) =>
                  r == Err(f) && locks.holds == old(locks.holds)[key := held]
                case Supplies(data) =>
                  locks.holds == old(locks.holds)[key := held + 1] &&
                  if env.outputFails then r == Err(IOFailure)
                  else
                    r.Ok? && r.value.Teeing? && fresh(r.value.stream) &&
                    r.value.stream.Valid() && !r.value.stream.complete &&
                    r.value.stream.source.data == data && r.value.stream.start == 0 &&
                    r.value.stream.temporaryCacheFile == temp && r.value.stream.cacheFile == cacheFile &&
                    r.value.stream.key == key && r.value.stream.fs == fs && r.value.stream.locks == locks &&
                    r.value.stream.moveFails == env.moveFails
    {
      locks.Lock(key);
      var cacheFile := Resolve(cacheDirectory, key);
      if fs.IsReadable(cacheFile) {
        match env.openFault
        case NoOpenFault =>
          var source := new ByteSource(fs.files[cacheFile]);
          var _ := locks.Unlock(key);
          return Ok(FromCacheFile(source));
        case OpenIOException =>
          var _ := locks.Unlock(key);
          return Err(IOFailure);
        case OpenRuntimeException(f) =>
          var _ := locks.Unlock(key);
          var again := locks.Unlock(key);
          return if again then Err(f) else Err(IllegalMonitorState);
      }
      var temp := TemporaryFile(cacheDirectory, key, env.tempName);
      var created := fs.CreateTempFile(temp, env.tempFails);
      if !created {
        return Err(IOFailure);
      }
      match supplier
      case Throws(f) =>
        var _ := locks.Unlock(key);
        return Err(f);
      case Supplies(data) =>
        if env.outputFails {
          return Err(IOFailure);
        }
        var source := new ByteSource(data);
        var stream := new CachingFileInputStream(source, temp, cacheFile, key, fs, locks, env.moveFails);
        return Ok(Teeing(stream));
    }
  }
}
