/**
 * The S3 side of image storage: a bucket as the client sees it, and
 * `S3SolarNodeImage`, an image whose metadata is loaded from its JSON
 * object at most once and whose data is read through the stream cache
 * when one is configured.
 */
module S3Image {
  import opened Common
  import opened Images
  import opened Streams
  import opened FileStore
  import opened StreamCache

  /** The exception the client raises for a missing object (a runtime exception; its text is not modelled). */
  const NoSuchKey := Failure("AmazonS3Exception", None)

  /** `S3SolarNodeImage` wraps a Jackson parse error in a RuntimeException (its text is not modelled). */
  const MalformedInfo := Failure("RuntimeException", None)

  /** One bucket: object keys and their contents. */
  class Bucket {
    const name: string
    var objects: map<string, seq<byte>>

    constructor (name: string, objects: map<string, seq<byte>>)
      ensures this.name == name && this.objects == objects
    {
      this.name := name;
      this.objects := objects;
    }

    /** `getObject(bucket, key)`: a missing key raises NoSuchKey. */
    method GetObject(key: string) returns (r: Result<seq<byte>>)
      ensures key in objects ==> r == Ok(objects[key])
      ensures key !in objects ==> r == Err(NoSuchKey)
    {
      if key in objects {
        return Ok(objects[key]);
      }
      return Err(NoSuchKey);
    }

    /** `putObject(bucket, key, stream, metadata)`; `fails` stands for an I/O error reading the stream. */
    method PutObject(key: string, contents: seq<byte>, fails: bool) returns (ok: bool)
      modifies this
      ensures ok == !fails
      ensures objects == if ok then old(objects)[key := contents] else old(objects)
    {
      ok := !fails;
      if ok {
        objects := objects[key := contents];
      }
    }

    /**
     * `deleteObjects(...withKeys(keys))`: missing keys are ignored; `fault`
     * stands for the unchecked exception the client throws when the request
     * fails, which removes nothing.
     */
    method DeleteObjects(keys: set<string>, fault: Option<Failure>) returns (err: Option<Failure>)
      modifies this
      ensures err == fault
      ensures objects == if fault.None? then old(objects) - keys else old(objects)
    {
      err := fault;
      if fault.None? {
        objects := objects - keys;
      }
    }
  }

  /**
   * `filenameFromObjectKey`: the text after the last '/' when that slash is
   * neither the first nor the last character; otherwise the whole key.
   */
  function FilenameFromObjectKey(key: string): (r: string)
    ensures EndsWith(key, r)
    ensures r == key || ('/' !in r && r != [] && |r| < |key| - 1)
  {
    var i := LastIndexOf(key, '/');
    if i > 0 && i + 1 < |key| then key[i + 1..] else key
  }

  /** The file name of a key "dir/name" with a non-empty directory and a non-empty name without '/'. */
  lemma FilenameOfNestedKey(dir: string, name: string)
    requires dir != [] && name != [] && '/' !in name
    ensures FilenameFromObjectKey(dir + "/" + name) == name
  {
    AfterLastSlashOfPath(dir, name);
    var key := dir + "/" + name;
    var i := LastIndexOf(key, '/');
    assert key[i + 1..] == AfterLastSlash(key);
    assert i == |dir| by {
      assert key[|dir| + 1..] == name;
    }
  }

  /** A key whose only slash is at the start or at the end is returned whole. */
  lemma FilenameOfEdgeKeys(name: string)
    requires '/' !in name
    ensures FilenameFromObjectKey("/" + name) == "/" + name
    ensures FilenameFromObjectKey(name + "/") == name + "/"
    ensures FilenameFromObjectKey(name) == name
  {
    var b := name + "/";
    assert LastIndexOf(b, '/') == |name|;
  }

  /** What `getInputStream` returns: the cache's stream, or the object's content directly. */
  datatype ImageStream = Cached(stream: CachedStream) | Direct(source: ByteSource)

  class S3SolarNodeImage {
    const id: string
    const bucket: Bucket
    const objectKey: string
    const imageObjectKey: string
    const filename: string
    const imageCache: Option<FileSystemDataStreamCache>
    var info: Option<ImageInfo>

    /** The listing constructor: nothing is loaded yet. */
    constructor (id: string, bucket: Bucket, objectKey: string, imageObjectKey: string,
                 imageCache: Option<FileSystemDataStreamCache>)
      ensures this.id == id && this.bucket == bucket && this.objectKey == objectKey
      ensures this.imageObjectKey == imageObjectKey && this.imageCache == imageCache
      ensures filename == FilenameFromObjectKey(imageObjectKey) && info == None
    {
      this.id := id;
      this.bucket := bucket;
      this.objectKey := objectKey;
      this.imageObjectKey := imageObjectKey;
      this.filename := FilenameFromObjectKey(imageObjectKey);
      this.imageCache := imageCache;
      this.info := None;
    }

    /**
     * The constructor from a fetched metadata object: its content is parsed
     * at once, and a malformed one raises a RuntimeException.
     */
    static method FromObject(id: string, bucket: Bucket, objectKey: string, content: seq<byte>,
                             imageObjectKey: string, imageCache: Option<FileSystemDataStreamCache>,
                             json: InfoCodec) returns (r: Result<S3SolarNodeImage>)
      ensures json.decode(content).None? ==> r == Err(MalformedInfo)
      ensures json.decode(content).Some? ==>
                r.Ok? && fresh(r.value) && r.value.info == json.decode(content) &&
                r.value.id == id && r.value.bucket == bucket && r.value.objectKey == objectKey &&
                r.value.imageObjectKey == imageObjectKey && r.value.imageCache == imageCache &&
                r.value.filename == FilenameFromObjectKey(imageObjectKey)
    {
      var image := new S3SolarNodeImage(id, bucket, objectKey, imageObjectKey, imageCache);
      var parsed := json.decode(content);
      if parsed.None? {
        return Err(MalformedInfo);
      }
      image.info := parsed;
      return Ok(image);
    }

    /**
     * `getInfo()`: a loaded info is returned as is; otherwise the metadata
     * object is fetched and parsed, and kept only when that succeeds.
     */
    method GetInfo(json: InfoCodec) returns (r: Result<ImageInfo>)
      modifies this
      ensures old(info).Some? ==> r == Ok(old(info).value) && info == old(info)
      ensures old(info).None? && objectKey !in bucket.objects ==> r == Err(NoSuchKey) && info == None
      ensures old(info).None? && objectKey in bucket.objects ==>
                match json.decode(bucket.objects[objectKey])
                case None => r == Err(MalformedInfo) && info == None
                case Some(loaded) => r == Ok(loaded) && info == Some(loaded)
    {
      if info.Some? {
        return Ok(info.value);
      }
      var content := bucket.GetObject(objectKey);
      if content.Err? {
        return Err(content.error);
      }
      var parsed := json.decode(content.value);
      if parsed.None? {
        return Err(MalformedInfo);
      }
      info := parsed;
      return Ok(parsed.value);
    }

    /** `getSha256()`, from the loaded info. */
    method GetSha256(json: InfoCodec) returns (r: Result<Option<string>>)
      modifies this
      ensures r.Ok? ==> info.Some? && r.value == info.value.sha256
      ensures r.Err? ==> old(info).None? && info.None?
      ensures old(info).Some? ==> info == old(info)
      ensures old(info).Some? ==> r == Ok(old(info).value.sha256)
      ensures old(info).None? && objectKey !in bucket.objects ==> r == Err(NoSuchKey)
      ensures old(info).None? && objectKey in bucket.objects ==>
                match json.decode(bucket.objects[objectKey])
                case None => r == Err(MalformedInfo) && info == None
                case Some(loaded) => r == Ok(loaded.sha256) && info == Some(loaded)
    {
      var i := GetInfo(json);
      r := if i.Ok? then Ok(i.value.sha256) else Err(i.error);
    }

    /** `getContentLength()`, from the loaded info. */
    method GetContentLength(json: InfoCodec) returns (r: Result<Option<int>>)
      modifies this
      ensures r.Ok? ==> info.Some? && r.value == info.value.contentLength
      ensures r.Err? ==> old(info).None? && info.None?
      ensures old(info).Some? ==> info == old(info)
      ensures old(info).Some? ==> r == Ok(old(info).value.contentLength)
      ensures old(info).None? && objectKey !in bucket.objects ==> r == Err(NoSuchKey)
      ensures old(info).None? && objectKey in bucket.objects ==>
                match json.decode(bucket.objects[objectKey])
                case None => r == Err(MalformedInfo) && info == None
                case Some(loaded) => r == Ok(loaded.contentLength) && info == Some(loaded)
    {
      var i := GetInfo(json);
      r := if i.Ok? then Ok(i.value.contentLength) else Err(i.error);
    }

    /** `getUncompressedSha256()`, from the loaded info. */
    method GetUncompressedSha256(json: InfoCodec) returns (r: Result<Option<string>>)
      modifies this
      ensures r.Ok? ==> info.Some? && r.value == info.value.uncompressedSha256
      ensures r.Err? ==> old(info).None? && info.None?
      ensures old(info).Some? ==> info == old(info)
      ensures old(info).Some? ==> r == Ok(old(info).value.uncompressedSha256)
      ensures old(info).None? && objectKey !in bucket.objects ==> r == Err(NoSuchKey)
      ensures old(info).None? && objectKey in bucket.objects ==>
                match json.decode(bucket.objects[objectKey])
                case None => r == Err(MalformedInfo) && info == None
                case Some(loaded) => r == Ok(loaded.uncompressedSha256) && info == Some(loaded)
    {
      var i := GetInfo(json);
      r := if i.Ok? then Ok(i.value.uncompressedSha256) else Err(i.error);
    }

    /** `getUncompressedContentLength()`, from the loaded info. */
    method GetUncompressedContentLength(json: InfoCodec) returns (r: Result<Option<int>>)
      modifies this
      ensures r.Ok? ==> info.Some? && r.value == info.value.uncompressedContentLength
      ensures r.Err? ==> old(info).None? && info.None?
      ensures old(info).Some? ==> info == old(info)
      ensures old(info).Some? ==> r == Ok(old(info).value.uncompressedContentLength)
      ensures old(info).None? && objectKey !in bucket.objects ==> r == Err(NoSuchKey)
      ensures old(info).None? && objectKey in bucket.objects ==>
                match json.decode(bucket.objects[objectKey])
                case None => r == Err(MalformedInfo) && info == None
                case Some(loaded) => r == Ok(loaded.uncompressedContentLength) && info == Some(loaded)
    {
      var i := GetInfo(json);
      r := if i.Ok? then Ok(i.value.uncompressedContentLength) else Err(i.error);
    }

    /** What the supplier of the image data does: open the data object, or fail with NoSuchKey. */
    function DataSupplier(): (s: Supplier)
      reads bucket
      ensures imageObjectKey in bucket.objects <==> s.Supplies?
    {
      if imageObjectKey in bucket.objects then Supplies(bucket.objects[imageObjectKey]) else Throws(NoSuchKey)
    }

    /**
     * `getInputStream()`: with a cache, `get(id, supplier)` on the cache;
     * without one, the supplier directly.
     */
    method GetInputStream(env: Environment) returns (r: Result<ImageStream>)
      requires imageCache.Some? ==>
                 TemporaryFile(imageCache.value.cacheDirectory, id, env.tempName) !in imageCache.value.fs.files
      modifies if imageCache.Some? then {imageCache.value.fs, imageCache.value.locks} else {}
      ensures imageCache.None? && imageObjectKey in bucket.objects ==>
                r.Ok? && r.value.Direct? && fresh(r.value.source) &&
                r.value.source.data == bucket.objects[imageObjectKey] && r.value.source.pos == 0
      ensures imageCache.None? && imageObjectKey !in bucket.objects ==> r == Err(NoSuchKey)
      ensures imageCache.Some? ==> r.Ok? ==> r.value.Cached?
      ensures imageCache.Some? ==>
                var c := imageCache.value;
                var cacheFile := Resolve(c.cacheDirectory, id);
                c.locks.created == old(c.locks.created) + {id} &&
                (cacheFile in old(c.fs.files) && env.openFault.NoOpenFault? ==>
                   r.Ok? && r.value.stream.FromCacheFile? && r.value.stream.source.data == old(c.fs.files)[cacheFile]) &&
                (cacheFile !in old(c.fs.files) && !env.tempFails && imageObjectKey !in bucket.objects ==>
                   r == Err(NoSuchKey) && Held(c.locks.holds, id) == Held(old(c.locks.holds), id)) &&
                (cacheFile !in old(c.fs.files) && !env.tempFails && !env.outputFails && imageObjectKey in bucket.objects ==>
                   r.Ok? && r.value.stream.Teeing? && r.value.stream.stream.source.data == bucket.objects[imageObjectKey] &&
                   Held(c.locks.holds, id) == Held(old(c.locks.holds), id) + 1)
    {
      var supplier := DataSupplier();
      if imageCache.Some? {
        var s := imageCache.value.Get(id, supplier, env);
        r := if s.Ok? then Ok(Cached(s.value)) else Err(s.error);
      } else if supplier.Supplies? {
        var source := new ByteSource(supplier.data);
        r := Ok(Direct(source));
      } else {
        r := Err(supplier.failure);
      }
    }
  }
}
