/**
 * `FileSystemNodeImageRepository`: images stored as compressed files under a
 * root directory, each paired with an `id.json` metadata sidecar. A
 * `Files.walk` listing is the sequence of paths under the root in walk order.
 * The model lists files only: `Files.walk` also yields the root and every
 * directory under it, which the lookups skip by name (a directory whose
 * name ends in ".json" is not modelled), so the operations require every
 * listed path to be a file.
 */
module FileSystemRepository {
  import opened Common
  import opened Images
  import opened Compression
  import opened FileStore
  import opened Streams

  /** `path.getFileName().toString()`. */
  function FileName(path: string): (r: string)
    ensures '/' !in r && EndsWith(path, r)
  {
    AfterLastSlash(path)
  }

  /** The outcome of `Files.walk(rootDirectory)`: the paths in walk order, or an I/O error. */
  datatype Listing = Listed(paths: seq<string>) | ListingFailed(ioMessage: string)

  /** What a stored image reads from: a file, or a decompressing view over another resource. */
  datatype Resource = FileResource(path: string) | Decompressing(inner: Resource)

  /** `ResourceSolarNodeImage`: an info with the resource holding its data. */
  datatype StoredImage = ResourceImage(info: ImageInfo, resource: Resource)

  /** The bytes a resource yields, given the files and the codec for decompression. */
  function Contents(files: map<string, seq<byte>>, codec: Codec, r: Resource): Option<seq<byte>>
  {
    match r
    case FileResource(p) => if p in files then Some(files[p]) else None
    case Decompressing(inner) =>
      match Contents(files, codec, inner)
      case None => None
      case Some(bytes) => Some(codec.decompress(bytes))
  }

  /** The file name of every listed path, in order. */
  function FileNames(paths: seq<string>): (names: seq<string>)
    ensures |names| == |paths|
  {
    seq(|paths|, k requires 0 <= k < |paths| => FileName(paths[k]))
  }

  /** The index of the first entry equal to `name`. */
  function FirstNamed(names: seq<string>, name: string): (r: Option<nat>)
    ensures r.Some? ==> r.value < |names| && names[r.value] == name
    ensures r.Some? ==> forall k :: 0 <= k < r.value ==> names[k] != name
    ensures r.None? ==> name !in names
  {
    if names == [] then None
    else if names[0] == name then Some(0)
    else match FirstNamed(names[1..], name)
      case None => None
      case Some(k) => Some(k + 1)
  }

  /** The file names `findOneInternal` takes for data: starting with "id." but not the sidecar. */
  predicate IsDataName(name: string, id: string)
  {
    StartsWith(name, id + ".") && name != id + ".json"
  }

  /** The index of the first data name for `id`. */
  function FirstData(names: seq<string>, id: string): (r: Option<nat>)
    ensures r.Some? ==> r.value < |names| && IsDataName(names[r.value], id)
    ensures r.Some? ==> forall k :: 0 <= k < r.value ==> !IsDataName(names[k], id)
    ensures r.None? ==> forall k :: 0 <= k < |names| ==> !IsDataName(names[k], id)
  {
    if names == [] then None
    else if IsDataName(names[0], id) then Some(0)
    else match FirstData(names[1..], id)
      case None => None
      case Some(k) => Some(k + 1)
  }

  /** The `infoFileStream` filter: the listed paths whose file name ends in ".json", in order. */
  function InfoPaths(paths: seq<string>): (r: seq<string>)
    ensures forall q :: q in r <==> q in paths && EndsWith(FileName(q), ".json")
  {
    if paths == [] then []
    else (if EndsWith(FileName(paths[0]), ".json") then [paths[0]] else []) + InfoPaths(paths[1..])
  }

  /** `infoFromJsonFile` wraps the parser's IOException in a RuntimeException (its message is not modelled). */
  const MalformedInfo := Failure("RuntimeException", None)

  /** Every sidecar in `jsons` holds a well-formed info. */
  predicate AllDecode(files: map<string, seq<byte>>, codec: InfoCodec, jsons: seq<string>)
    requires forall q :: q in jsons ==> q in files
  {
    forall k :: 0 <= k < |jsons| ==> codec.decode(files[jsons[k]]).Some?
  }

  /** Parses each sidecar in turn; the first malformed one aborts the listing. */
  function ParseAll(files: map<string, seq<byte>>, codec: InfoCodec, jsons: seq<string>): (r: Result<seq<ImageInfo>>)
    requires forall q :: q in jsons ==> q in files
    ensures r.Ok? ==> |r.value| == |jsons|
    ensures r.Ok? ==> forall k :: 0 <= k < |jsons| ==> codec.decode(files[jsons[k]]) == Some(r.value[k])
    ensures r.Err? <==> exists k :: 0 <= k < |jsons| && codec.decode(files[jsons[k]]).None?
    ensures r.Ok? <==> AllDecode(files, codec, jsons)
    ensures r.Err? ==> r.error == MalformedInfo
  {
    if jsons == [] then Ok([])
    else match codec.decode(files[jsons[0]])
      case None => Err(MalformedInfo)
      case Some(info) =>
        match ParseAll(files, codec, jsons[1..])
        case Err(e) => Err(e)
        case Ok(rest) => Ok([info] + rest)
  }

  function ListingError(ioMessage: string): Failure
  {
    RuntimeFailure("Error listing node image infos: " + ioMessage)
  }

  /** `findAll`: one info per listed ".json" file at any depth, in walk order. */
  function FindAll(files: map<string, seq<byte>>, codec: InfoCodec, listing: Listing): (r: Result<seq<ImageInfo>>)
    requires listing.Listed? ==> forall q :: q in listing.paths ==> q in files
    ensures listing.ListingFailed? ==> r == Err(ListingError(listing.ioMessage))
    ensures listing.Listed? && r.Ok? ==>
              var jsons := InfoPaths(listing.paths);
              |r.value| == |jsons| &&
              forall k :: 0 <= k < |jsons| ==>
                (EndsWith(FileName(jsons[k]), ".json") && codec.decode(files[jsons[k]]) == Some(r.value[k]))
    ensures listing.Listed? ==> (r.Ok? <==> AllDecode(files, codec, InfoPaths(listing.paths)))
    ensures listing.Listed? && r.Err? ==> r.error == MalformedInfo
  {
    match listing
    case ListingFailed(m) => Err(ListingError(m))
    case Listed(paths) =>
      var jsons := InfoPaths(paths);
      assert forall q :: q in jsons ==> q in files;
      ParseAll(files, codec, jsons)
  }

  /** A sidecar that `save` wrote is read back by `findAll`. */
  lemma FindAllReadsSavedInfo(files: map<string, seq<byte>>, codec: InfoCodec, paths: seq<string>, json: string, info: ImageInfo)
    requires Faithful(codec) && forall q :: q in paths ==> q in files
    requires json in paths && EndsWith(FileName(json), ".json") && files[json] == codec.encode(info)
    ensures FindAll(files, codec, Listed(paths)).Ok? ==> info in FindAll(files, codec, Listed(paths)).value
  {
    var jsons := InfoPaths(paths);
    assert json in jsons;
    var k :| 0 <= k < |jsons| && jsons[k] == json;
    var r := FindAll(files, codec, Listed(paths));
    if r.Ok? {
      assert codec.decode(files[jsons[k]]) == Some(r.value[k]);
    }
  }

  /**
   * `findOneInternal` over a listing: the first file named exactly id.json
   * gives the info, and the first other file whose name starts with "id."
   * is the data; without either there is no image.
   */
  function FindOneInternal(files: map<string, seq<byte>>, codec: InfoCodec, paths: seq<string>, id: string): (r: Result<Option<StoredImage>>)
    requires forall q :: q in paths ==> q in files
    ensures var names := FileNames(paths);
            r.Ok? && r.value.None? <==>
              id + ".json" !in names || forall k :: 0 <= k < |names| ==> !IsDataName(names[k], id)
    ensures r.Ok? && r.value.Some? ==>
              r.value.value.resource.FileResource? &&
              r.value.value.resource.path in paths && IsDataName(FileName(r.value.value.resource.path), id)
    ensures var names := FileNames(paths);
            var info := FirstNamed(names, id + ".json");
            var data := FirstData(names, id);
            info.Some? && data.Some? ==>
              (r.Err? <==> codec.decode(files[paths[info.value]]).None?) &&
              (r.Ok? ==> r.value == Some(ResourceImage(codec.decode(files[paths[info.value]]).value,
                                                       FileResource(paths[data.value]))))
    ensures r.Err? ==> r == Err(MalformedInfo)
  {
    var names := FileNames(paths);
    match FirstNamed(names, id + ".json")
    case None => Ok(None)
    case Some(i) =>
      match FirstData(names, id)
      case None => Ok(None)
      case Some(j) =>
        match codec.decode(files[paths[i]])
        case None => Err(MalformedInfo)
        case Some(info) => Ok(Some(ResourceImage(info, FileResource(paths[j]))))
  }

  /** `findOneCompressed`: the image as stored. */
  function FindOneCompressed(files: map<string, seq<byte>>, codec: InfoCodec, listing: Listing, id: string): (r: Result<Option<StoredImage>>)
    requires listing.Listed? ==> forall q :: q in listing.paths ==> q in files
    ensures listing.ListingFailed? ==> r == Err(ListingError(listing.ioMessage))
    ensures listing.Listed? ==> r == FindOneInternal(files, codec, listing.paths, id)
  {
    match listing
    case ListingFailed(m) => Err(ListingError(m))
    case Listed(paths) => FindOneInternal(files, codec, paths, id)
  }

  /** `findOne`: the same image with its data behind a decompressing resource. */
  function FindOne(files: map<string, seq<byte>>, codec: InfoCodec, listing: Listing, id: string): (r: Result<Option<StoredImage>>)
    requires listing.Listed? ==> forall q :: q in listing.paths ==> q in files
  {
    match FindOneCompressed(files, codec, listing, id)
    case Ok(Some(image)) => Ok(Some(ResourceImage(image.info, Decompressing(image.resource))))
    case other => other
  }

  /** `findOne` and `findOneCompressed` agree on the info, and `findOne` yields the decompressed bytes. */
  lemma FindOneDecompresses(files: map<string, seq<byte>>, codec: InfoCodec, listing: Listing, id: string, c: Codec)
    requires listing.Listed? ==> forall q :: q in listing.paths ==> q in files
    ensures var plain := FindOne(files, codec, listing, id);
            var stored := FindOneCompressed(files, codec, listing, id);
            plain.Ok? == stored.Ok? &&
            (stored.Ok? ==> plain.value.Some? == stored.value.Some?) &&
            (stored.Ok? && stored.value.Some? ==>
               plain.value.value.info == stored.value.value.info &&
               Contents(files, c, stored.value.value.resource).Some? &&
               Contents(files, c, plain.value.value.resource) ==
                 Some(c.decompress(Contents(files, c, stored.value.value.resource).value)))
    ensures FindOneCompressed(files, codec, listing, id).Err? ==>
              FindOne(files, codec, listing, id) == FindOneCompressed(files, codec, listing, id)
  {
  }

  /** The name `save` gives the data file: the XZ name of `filename`, or of the id when there is none. */
  function DataFileName(id: string, filename: Option<string>): string
  {
    GetCompressedFilename(XZ, match filename case None => id case Some(f) => f)
  }

  /** `SolarNodeImage` as `save` receives it: id, optional file name and the uncompressed bytes. */
  datatype NewImage = NewImage(id: string, filename: Option<string>, data: seq<byte>)

  class FileSystemNodeImageRepository {
    const rootDirectory: string
    var compressionType: string
    const fs: FileSystem

    constructor (rootDirectory: string, fs: FileSystem)
      ensures this.rootDirectory == rootDirectory && this.fs == fs && compressionType == XZ
    {
      this.rootDirectory := rootDirectory;
      this.fs := fs;
      compressionType := XZ;
    }

    /** Where `save` writes the data of `image`. */
    function DataPath(image: NewImage): string
      reads this
    {
      Resolve(rootDirectory, DataFileName(image.id, image.filename))
    }

    /** Where `save` writes the sidecar of image `id`. */
    function JsonPath(id: string): string
      reads this
    {
      Resolve(rootDirectory, id + ".json")
    }

    /**
     * `save(image)`: the data compressed with the codec of
     * `compressionType` goes to the XZ-named data file; the sidecar
     * `id.json` records the digest of the bytes written and of the bytes
     * read. `codecFor` yields no codec for an unknown type; `openFails` and
     * `jsonFails` stand for I/O errors opening the data file and writing
     * the sidecar.
     */
    method Save(image: NewImage, codecFor: string -> Option<Codec>, json: InfoCodec, sha256Hex: DigestHex,
                openFails: bool, jsonFails: bool) returns (r: Result<StoredImage>)
      modifies fs
      ensures openFails ==>
                r == Err(RuntimeFailure("Error writing image data to " + DataPath(image))) && fs.files == old(fs.files)
      ensures !openFails && codecFor(compressionType).None? ==>
                r == Err(RuntimeFailure("Error writing image data to " + DataPath(image))) &&
                fs.files == old(fs.files)[DataPath(image) := []]
      ensures !openFails && codecFor(compressionType).Some? && jsonFails ==>
                r == Err(RuntimeFailure("Error writing image metadata to " + JsonPath(image.id))) &&
                fs.files == old(fs.files)[DataPath(image) := codecFor(compressionType).value.compress(image.data)]
      ensures !openFails && codecFor(compressionType).Some? && !jsonFails ==>
                var stored := codecFor(compressionType).value.compress(image.data);
                var info := SavedInfo(image.id, stored, image.data, sha256Hex);
                r == Ok(ResourceImage(info, FileResource(DataPath(image)))) &&
                fs.files == old(fs.files)[DataPath(image) := stored][JsonPath(image.id) := json.encode(info)]
    {
      var dataPath := DataPath(image);
      if openFails {
        return Err(RuntimeFailure("Error writing image data to " + dataPath));
      }
      fs.WriteFile(dataPath, []);
      var codec := codecFor(compressionType);
      if codec.None? {
        return Err(RuntimeFailure("Error writing image data to " + dataPath));
      }
      ghost var afterOpen := fs.files;
      r := WriteStored(image, codec.value, json, sha256Hex, jsonFails);
      assert afterOpen[dataPath := codec.value.compress(image.data)] ==
             old(fs.files)[dataPath := codec.value.compress(image.data)];
    }

    /**
     * The rest of `save` once the data file is open: the data is compressed
     * into it while both digests are computed, then the sidecar is written.
     */
    method WriteStored(image: NewImage, codec: Codec, json: InfoCodec, sha256Hex: DigestHex, jsonFails: bool)
      returns (r: Result<StoredImage>)
      modifies fs
      ensures var stored := codec.compress(image.data);
              var info := SavedInfo(image.id, stored, image.data, sha256Hex);
              (jsonFails ==>
                 r == Err(RuntimeFailure("Error writing image metadata to " + JsonPath(image.id))) &&
                 fs.files == old(fs.files)[DataPath(image) := stored]) &&
              (!jsonFails ==>
                 r == Ok(ResourceImage(info, FileResource(DataPath(image)))) &&
                 fs.files == old(fs.files)[DataPath(image) := stored][JsonPath(image.id) := json.encode(info)])
    {
      var dataPath := DataPath(image);
      var inputDigest := new MessageDigest();
      var outputDigest := new MessageDigest();
      inputDigest.Update(image.data);
      var stored := codec.compress(image.data);
      outputDigest.Update(stored);
      fs.WriteFile(dataPath, stored);
      var jsonPath := JsonPath(image.id);
      var outputBytes := outputDigest.Digest();
      var inputBytes := inputDigest.Digest();
      assert outputBytes == stored && inputBytes == image.data;
      var info := SavedInfo(image.id, outputBytes, inputBytes, sha256Hex);
      if jsonFails {
        return Err(RuntimeFailure("Error writing image metadata to " + jsonPath));
      }
      fs.WriteFile(jsonPath, json.encode(info));
      r := Ok(ResourceImage(info, FileResource(dataPath)));
    }
  }

  /**
   * The sidecar `save` writes: the digest of the stored (compressed) bytes
   * and of the uncompressed bytes, without lengths.
   */
  function SavedInfo(id: string, stored: seq<byte>, data: seq<byte>, sha256Hex: DigestHex): ImageInfo
  {
    ImageInfo(id, Some(sha256Hex(stored)), None, Some(sha256Hex(data)), None)
  }

  /**
   * With exactly two listed files named "id.…", the sidecar and a data file,
   * `findOneInternal` pairs them.
   */
  lemma FindOneInternalPairs(files: map<string, seq<byte>>, json: InfoCodec, paths: seq<string>, id: string,
                             jsonPath: string, dataPath: string, info: ImageInfo)
    requires Faithful(json) && forall q :: q in paths ==> q in files
    requires jsonPath in paths && dataPath in paths
    requires FileName(jsonPath) == id + ".json" && IsDataName(FileName(dataPath), id)
    requires forall q :: q in paths && StartsWith(FileName(q), id + ".") ==> q == jsonPath || q == dataPath
    requires files[jsonPath] == json.encode(info)
    ensures FindOneInternal(files, json, paths, id) == Ok(Some(ResourceImage(info, FileResource(dataPath))))
  {
    PairedPaths(paths, id, jsonPath, dataPath);
  }

  /** With the sidecar and a data file as the only listed files named "id.…", the two searches land on them. */
  lemma PairedPaths(paths: seq<string>, id: string, jsonPath: string, dataPath: string)
    requires jsonPath in paths && dataPath in paths
    requires FileName(jsonPath) == id + ".json" && IsDataName(FileName(dataPath), id)
    requires forall q :: q in paths && StartsWith(FileName(q), id + ".") ==> q == jsonPath || q == dataPath
    ensures var names := FileNames(paths);
            FirstNamed(names, id + ".json").Some? && paths[FirstNamed(names, id + ".json").value] == jsonPath &&
            FirstData(names, id).Some? && paths[FirstData(names, id).value] == dataPath
  {
    var names := FileNames(paths);
    var ki :| 0 <= ki < |paths| && paths[ki] == jsonPath;
    var kd :| 0 <= kd < |paths| && paths[kd] == dataPath;
    assert names[ki] == id + ".json" && names[kd] == FileName(dataPath);
    var i := FirstNamed(names, id + ".json");
    var j := FirstData(names, id);
    assert paths[i.value] == jsonPath by {
      assert StartsWith(FileName(paths[i.value]), id + ".");
    }
    assert paths[j.value] == dataPath by {
      assert IsDataName(FileName(paths[j.value]), id);
    }
  }

  /**
   * An image saved without a file name is found again by its id: with the
   * sidecar and the data file as the only listed files named "id.…", the
   * image's info comes back and the data decompresses to the saved bytes.
   */
  lemma SavedWithoutFilenameIsFound(files: map<string, seq<byte>>, json: InfoCodec, c: Codec, root: string,
                                    paths: seq<string>, id: string, data: seq<byte>, info: ImageInfo)
    requires Faithful(json) && Inverts(c)
    requires '/' !in id && id != [] && !EndsWith(Lower(id), ".tar")
    requires forall q :: q in paths ==> q in files
    requires Resolve(root, id + ".json") in paths && Resolve(root, id + ".xz") in paths
    requires files[Resolve(root, id + ".json")] == json.encode(info)
    requires files[Resolve(root, id + ".xz")] == c.compress(data)
    requires forall q :: q in paths && StartsWith(FileName(q), id + ".") ==>
               q == Resolve(root, id + ".json") || q == Resolve(root, id + ".xz")
    ensures DataFileName(id, None) == id + ".xz"
    ensures var r := FindOne(files, json, Listed(paths), id);
            r.Ok? && r.value.Some? && r.value.value.info == info &&
            Contents(files, c, r.value.value.resource) == Some(data)
  {
    XzCompressAppends(id);
    AfterLastSlashOfPath(root, id + ".json");
    AfterLastSlashOfPath(root, id + ".xz");
    assert IsDataName(id + ".xz", id);
    var dataPath := Resolve(root, id + ".xz");
    FindOneInternalPairs(files, json, paths, id, Resolve(root, id + ".json"), dataPath, info);
    assert FindOne(files, json, Listed(paths), id) == Ok(Some(ResourceImage(info, Decompressing(FileResource(dataPath)))));
    assert c.decompress(c.compress(data)) == data;
  }
}
