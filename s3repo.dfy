/**
 * `S3NodeImageRepository`: metadata objects under "node-image-meta/" and
 * compressed data objects under "node-image-data/", both below an optional
 * global key prefix; a paginated listing; and a three-step `save`.
 */
module S3Repository {
  import opened Common
  import opened Images
  import opened Compression
  import opened Streams
  import opened FileStore
  import opened StreamCache
  import opened StepTracker
  import opened TrackerStreams
  import opened S3Image

  const MetaObjectKeyPrefix: string := "node-image-meta/"
  const DataObjectKeyPrefix: string := "node-image-data/"
  const MetadataObjectKeySuffix: string := ".json"
  const ImageObjectKeySuffix: string := ".img"

  /** `maximumKeysPerRequest`'s default. */
  const MaximumKeysPerRequest: int := 500

  /** `downloadExpirationSeconds`'s default: one hour. */
  const DownloadExpirationSeconds: int := 3600

  /** `getSaveTaskStepCount()`: compress, upload the data, upload the metadata. */
  const SaveTaskStepCount: nat := 3

  /** `absoluteObjectKey`: the key below the global prefix, when there is one. */
  function AbsoluteObjectKey(prefix: Option<string>, key: string): (r: string)
    ensures prefix.None? ==> r == key
    ensures prefix.Some? ==> StartsWith(r, prefix.value) && r[|prefix.value|..] == key
  {
    match prefix
    case None => key
    case Some(p) => p + key
  }

  /** The metadata object of image `id`. */
  function MetaKey(prefix: Option<string>, id: string): string
  {
    AbsoluteObjectKey(prefix, MetaObjectKeyPrefix + id + MetadataObjectKeySuffix)
  }

  /** The data object of image `id`, as `save`, `findOne`, `getDownloadUrl` and `delete` build it. */
  function DataKey(prefix: Option<string>, compressionType: string, id: string): string
  {
    GetCompressedFilename(compressionType, AbsoluteObjectKey(prefix, DataObjectKeyPrefix + id + ImageObjectKeySuffix))
  }

  /** The data object of image `id` as `findAll` builds it: without ".img" and without the compression suffix. */
  function ListedDataKey(prefix: Option<string>, id: string): string
  {
    AbsoluteObjectKey(prefix, DataObjectKeyPrefix + id)
  }

  /** The id `findAll` reads from a metadata key: the last path segment without ".json". */
  function IdFromMetaKey(key: string): (id: string)
    requires EndsWith(key, MetadataObjectKeySuffix)
    ensures '/' !in id
  {
    AfterLastSlash(key[..|key| - |MetadataObjectKeySuffix|])
  }

  /** For an id without '/', reading the id back from its metadata key gives the id. */
  lemma MetaKeyRoundTrip(prefix: Option<string>, id: string)
    requires '/' !in id
    ensures EndsWith(MetaKey(prefix, id), MetadataObjectKeySuffix)
    ensures IdFromMetaKey(MetaKey(prefix, id)) == id
  {
    var p := match prefix case None => "" case Some(s) => s;
    var key := MetaKey(prefix, id);
    assert key == (p + "node-image-meta") + "/" + id + ".json";
    var stem := key[..|key| - 5];
    assert stem == (p + "node-image-meta") + "/" + id;
    AfterLastSlashOfPath(p + "node-image-meta", id);
  }

  /**
   * With the default "xz" compression, the key `findAll` gives an image's
   * data differs from the key `save` stores it under.
   */
  lemma ListedDataKeyMismatch(prefix: Option<string>, id: string)
    ensures DataKey(prefix, XZ, id) == ListedDataKey(prefix, id) + ".img" + ".xz"
    ensures DataKey(prefix, XZ, id) != ListedDataKey(prefix, id)
  {
    var listed := ListedDataKey(prefix, id);
    assert AbsoluteObjectKey(prefix, DataObjectKeyPrefix + id + ImageObjectKeySuffix) == listed + ".img";
    XzNameOfImage(listed);
  }

  /** A name ending in ".img" gets ".xz" appended. */
  lemma XzNameOfImage(stem: string)
    ensures GetCompressedFilename(XZ, stem + ".img") == stem + ".img" + ".xz"
  {
    LowerAppend(stem, ".img");
    assert Lower(".img") == ".img";
    var lower := Lower(stem + ".img");
    assert lower[|lower| - 4..] == ".img";
    XzCompressAppends(stem + ".img");
  }

  /** One response of `listObjectsV2`: the listed keys, the continuation token and the truncation flag. */
  datatype Page = Page(keys: seq<string>, nextContinuationToken: Option<string>, truncated: bool)

  /** One `listObjectsV2` request: bucket, page size, key prefix and continuation token. */
  datatype ListRequest = ListRequest(bucketName: string, maxKeys: int, prefix: string, continuationToken: Option<string>)

  /** What `findAll` yields per metadata key: the arguments of the lazily loading image constructor. */
  datatype ListedImage = ListedImage(id: string, objectKey: string, imageObjectKey: string)

  /** The images of one page's keys: the ".json" keys only, in listing order. */
  function PageImages(prefix: Option<string>, keys: seq<string>): (r: seq<ListedImage>)
    ensures |r| <= |keys|
  {
    if keys == [] then []
    else
      var key := keys[|keys| - 1];
      PageImages(prefix, keys[..|keys| - 1]) +
      (if EndsWith(key, MetadataObjectKeySuffix)
       then [ListedImage(IdFromMetaKey(key), key, ListedDataKey(prefix, IdFromMetaKey(key)))]
       else [])
  }

  /** The images of several pages, in order. */
  function PagesImages(prefix: Option<string>, pages: seq<Page>): seq<ListedImage>
  {
    if pages == [] then [] else PagesImages(prefix, pages[..|pages| - 1]) + PageImages(prefix, pages[|pages| - 1].keys)
  }

  /** Listing one more page appends that page's images. */
  lemma PagesImagesSnoc(prefix: Option<string>, pages: seq<Page>, i: nat)
    requires i < |pages|
    ensures PagesImages(prefix, pages[..i + 1]) == PagesImages(prefix, pages[..i]) + PageImages(prefix, pages[i].keys)
  {
    assert pages[..i + 1][..i] == pages[..i];
  }

  /** Every listed image comes from a ".json" key of some page, with the id read from that key. */
  lemma {:induction false} PageImagesFromJsonKeys(prefix: Option<string>, keys: seq<string>, k: nat)
    requires k < |PageImages(prefix, keys)|
    ensures var image := PageImages(prefix, keys)[k];
            image.objectKey in keys && EndsWith(image.objectKey, MetadataObjectKeySuffix) &&
            image.id == IdFromMetaKey(image.objectKey) && image.imageObjectKey == ListedDataKey(prefix, image.id)
  {
    var init := PageImages(prefix, keys[..|keys| - 1]);
    if k < |init| {
      PageImagesFromJsonKeys(prefix, keys[..|keys| - 1], k);
    }
  }

  /** Every ".json" key of a page yields an image. */
  lemma {:induction false} JsonKeysListed(prefix: Option<string>, keys: seq<string>, key: string)
    requires key in keys && EndsWith(key, MetadataObjectKeySuffix)
    ensures ListedImage(IdFromMetaKey(key), key, ListedDataKey(prefix, IdFromMetaKey(key))) in PageImages(prefix, keys)
  {
    if key != keys[|keys| - 1] {
      JsonKeysListed(prefix, keys[..|keys| - 1], key);
    }
  }

  /** The index of the first page that is not truncated: the last one `findAll` requests. */
  function LastPage(pages: seq<Page>): (n: nat)
    requires exists k :: 0 <= k < |pages| && !pages[k].truncated
    ensures n < |pages| && !pages[n].truncated
    ensures forall k :: 0 <= k < n ==> pages[k].truncated
  {
    if !pages[0].truncated then 0
    else
      var k :| 0 <= k < |pages| && !pages[k].truncated;
      assert !pages[1..][k - 1].truncated;
      1 + LastPage(pages[1..])
  }

  /** The continuation token sent with request `i`: none first, then the previous page's. */
  function TokenFor(pages: seq<Page>, i: nat): Option<string>
    requires i <= |pages|
  {
    if i == 0 then None else pages[i - 1].nextContinuationToken
  }

  /** The inner loop of `findAll()` over one page's keys: an image per ".json" key, in order. */
  method ListPage(prefix: Option<string>, keys: seq<string>) returns (images: seq<ListedImage>)
    ensures images == PageImages(prefix, keys)
  {
    images := [];
    var j := 0;
    while j < |keys|
      invariant 0 <= j <= |keys|
      invariant images == PageImages(prefix, keys[..j])
    {
      var key := keys[j];
      assert keys[..j + 1][..j] == keys[..j];
      if EndsWith(key, MetadataObjectKeySuffix) {
        var id := IdFromMetaKey(key);
        images := images + [ListedImage(id, key, ListedDataKey(prefix, id))];
      }
      j := j + 1;
    }
    assert keys[..j] == keys;
  }

  class S3NodeImageRepository {
    const bucket: Bucket
    const objectKeyPrefix: Option<string>
    var compressionType: string
    const imageCache: Option<FileSystemDataStreamCache>
    const work: FileSystem
    const workDirectory: string

    constructor (bucket: Bucket, objectKeyPrefix: Option<string>, imageCache: Option<FileSystemDataStreamCache>,
                 work: FileSystem, workDirectory: string)
      ensures this.bucket == bucket && this.objectKeyPrefix == objectKeyPrefix && this.imageCache == imageCache
      ensures this.work == work && this.workDirectory == workDirectory && compressionType == XZ
    {
      this.bucket := bucket;
      this.objectKeyPrefix := objectKeyPrefix;
      this.imageCache := imageCache;
      this.work := work;
      this.workDirectory := workDirectory;
      compressionType := XZ;
    }

    /**
     * `findAll()`: requests pages until one is not truncated, passing each
     * page's continuation token to the next request, and collects an image
     * per ".json" key in listing order. `pages` are the responses in order.
     */
    method FindAll(pages: seq<Page>) returns (result: seq<ListedImage>, requests: seq<ListRequest>)
      requires exists k :: 0 <= k < |pages| && !pages[k].truncated
      ensures |requests| == LastPage(pages) + 1
      ensures forall i :: 0 <= i < |requests| ==>
                requests[i] == ListRequest(bucket.name, MaximumKeysPerRequest,
                                           AbsoluteObjectKey(objectKeyPrefix, MetaObjectKeyPrefix), TokenFor(pages, i))
      ensures result == PagesImages(objectKeyPrefix, pages[..|requests|])
    {
      result := [];
      requests := [];
      var token: Option<string> := None;
      var i := 0;
      var truncated := true;
      ghost var last := LastPage(pages);
      var metaPrefix := AbsoluteObjectKey(objectKeyPrefix, MetaObjectKeyPrefix);
      while truncated
        invariant 0 <= i <= last + 1 && |requests| == i
        invariant truncated <==> i <= last
        invariant token == TokenFor(pages, i)
        invariant forall j :: 0 <= j < i ==>
                    requests[j] == ListRequest(bucket.name, MaximumKeysPerRequest, metaPrefix, TokenFor(pages, j))
        invariant result == PagesImages(objectKeyPrefix, pages[..i])
        decreases last + 1 - i
      {
        requests := requests + [ListRequest(bucket.name, MaximumKeysPerRequest, metaPrefix, token)];
        var page := pages[i];
        var images := ListPage(objectKeyPrefix, page.keys);
        PagesImagesSnoc(objectKeyPrefix, pages, i);
        result := result + images;
        token := page.nextContinuationToken;
        truncated := page.truncated;
        i := i + 1;
      }
    }

    /** `findOne(id)`: the metadata object is fetched and parsed into an image. */
    method FindOne(id: string, json: InfoCodec) returns (r: Result<S3SolarNodeImage>)
      ensures MetaKey(objectKeyPrefix, id) !in bucket.objects ==> r == Err(NoSuchKey)
      ensures MetaKey(objectKeyPrefix, id) in bucket.objects ==>
                var decoded := json.decode(bucket.objects[MetaKey(objectKeyPrefix, id)]);
                (decoded.None? ==> r == Err(S3Image.MalformedInfo)) &&
                (decoded.Some? ==>
                   r.Ok? && fresh(r.value) && r.value.info == decoded && r.value.id == id &&
                   r.value.bucket == bucket && r.value.objectKey == MetaKey(objectKeyPrefix, id) &&
                   r.value.imageObjectKey == DataKey(objectKeyPrefix, compressionType, id) &&
                   r.value.imageCache == imageCache)
    {
      var metaKey := MetaKey(objectKeyPrefix, id);
      var content := bucket.GetObject(metaKey);
      if content.Err? {
        return Err(content.error);
      }
      r := S3SolarNodeImage.FromObject(id, bucket, metaKey, content.value,
                                       DataKey(objectKeyPrefix, compressionType, id), imageCache, json);
    }

    /** `getDownloadUrl(image)`: a link to the data object, valid for the expiry period from `now` (ms). */
    function GetDownloadUrl(id: string, now: int): (url: PresignedUrl)
      reads this, bucket
      ensures url.key == DataKey(objectKeyPrefix, compressionType, id)
      ensures url.expiration - now == DownloadExpirationSeconds * 1000
      ensures url.bucketName == bucket.name
    {
      PresignedUrl(bucket.name, DataKey(objectKeyPrefix, compressionType, id), now + DownloadExpirationSeconds * 1000)
    }

    /**
     * `delete(id)`: both objects of the image are removed in one request;
     * missing ones are ignored, and a failing request (`fault`) throws the
     * client's exception and removes nothing.
     */
    method Delete(id: string, fault: Option<Failure>) returns (err: Option<Failure>)
      modifies bucket
      ensures err == fault
      ensures fault.None? ==>
                bucket.objects == old(bucket.objects) - {MetaKey(objectKeyPrefix, id), DataKey(objectKeyPrefix, compressionType, id)}
      ensures fault.Some? ==> bucket.objects == old(bucket.objects)
    {
      err := bucket.DeleteObjects({MetaKey(objectKeyPrefix, id), DataKey(objectKeyPrefix, compressionType, id)}, fault);
    }

    /** The bytes `save` uploads: the image data compressed with the codec of `compressionType`. */
    function Stored(codecFor: string -> Option<Codec>, data: seq<byte>): seq<byte>
      requires codecFor(compressionType).Some?
      reads this
    {
      codecFor(compressionType).value.compress(data)
    }

    /**
     * `save(image, tracker)`. `tempName` names the temporary file in the
     * work directory; `codecFor` yields no codec for an unknown compression
     * type; `fault` says where, if anywhere, the save fails.
     */
    method Save(image: NewImage, tracker: TaskStepTracker, codecFor: string -> Option<Codec>, json: InfoCodec,
                sha256Hex: DigestHex, tempName: string, tempFails: bool, fault: SaveFault)
      returns (r: Result<S3SolarNodeImage>)
      requires tracker.Valid()
      requires Resolve(workDirectory, "node-image-" + tempName) !in work.files
      modifies bucket, tracker, work
      ensures tracker.Valid() && work.files == old(work.files) && tracker.startedDate == old(tracker.startedDate) &&
              tracker.completedDate == old(tracker.completedDate)
      ensures r.Ok? ==> r.value.id == image.id && !tempFails && codecFor(compressionType).Some? && fault.NoFault?
      ensures tempFails ==>
                r == Err(RuntimeFailure("Error creating temporary image data file")) &&
                bucket.objects == old(bucket.objects) && tracker.State() == old(tracker.State()) &&
                tracker.message == old(tracker.message)
      ensures !tempFails && (fault.OpenFault? || codecFor(compressionType).None?) ==>
                r == Err(RuntimeFailure("Error compressing image data to " + Resolve(workDirectory, "node-image-" + tempName))) &&
                bucket.objects == old(bucket.objects) && tracker.State() == old(tracker.State()) &&
                tracker.message == old(tracker.message)
      ensures !tempFails && !fault.OpenFault? && codecFor(compressionType).Some? ==>
                tracker.message == UploadMessage(old(tracker.message), fault) &&
                bucket.objects == ObjectsAfter(old(bucket.objects), fault,
                                               DataKey(objectKeyPrefix, compressionType, image.id),
                                               Stored(codecFor, image.data), MetaKey(objectKeyPrefix, image.id),
                                               json.encode(SavedInfo(image, Stored(codecFor, image.data), sha256Hex))) &&
                tracker.State() == ProgressAfter(old(tracker.State()), fault, |image.data|, image.expectedLength,
                                                 |Stored(codecFor, image.data)|,
                                                 |json.encode(SavedInfo(image, Stored(codecFor, image.data), sha256Hex))|)
      ensures !tempFails && !fault.OpenFault? && codecFor(compressionType).Some? && !fault.NoFault? ==>
                r == Err(SaveError(fault, Resolve(workDirectory, "node-image-" + tempName),
                                   DataKey(objectKeyPrefix, compressionType, image.id), MetaKey(objectKeyPrefix, image.id)))
      ensures !tempFails && codecFor(compressionType).Some? && fault.NoFault? && Faithful(json) ==>
                r.Ok? && fresh(r.value) && r.value.info == Some(SavedInfo(image, Stored(codecFor, image.data), sha256Hex)) &&
                r.value.id == image.id && r.value.imageObjectKey == DataKey(objectKeyPrefix, compressionType, image.id) &&
                r.value.objectKey == MetaKey(objectKeyPrefix, image.id)
    {
      var file := Resolve(workDirectory, "node-image-" + tempName);
      var created := work.CreateTempFile(file, tempFails);
      if !created {
        return Err(RuntimeFailure("Error creating temporary image data file"));
      }
      r := SaveSteps(image, tracker, codecFor(compressionType), json, sha256Hex, file, fault);
      // finally: the temporary file is removed whatever happened
      var _ := work.DeleteIfExists(file);
      assert work.files == old(work.files);
    }

    /**
     * The body of `save` between creating and deleting the temporary file.
     * The first step opens the image's input stream and the temporary file's
     * output stream, then looks up the compressor: failing at any of these
     * stores nothing and reports the temporary file.
     */
    method SaveSteps(image: NewImage, tracker: TaskStepTracker, codec: Option<Codec>, json: InfoCodec,
                     sha256Hex: DigestHex, file: string, fault: SaveFault) returns (r: Result<S3SolarNodeImage>)
      requires tracker.Valid() && file in work.files
      modifies bucket, tracker, work
      ensures tracker.Valid() && file in work.files && work.files - {file} == old(work.files) - {file}
      ensures tracker.startedDate == old(tracker.startedDate) &&
              tracker.completedDate == old(tracker.completedDate)
      ensures r.Ok? ==> r.value.id == image.id && codec.Some? && fault.NoFault?
      ensures fault.OpenFault? || codec.None? ==>
                r == Err(RuntimeFailure("Error compressing image data to " + file)) &&
                bucket.objects == old(bucket.objects) && tracker.State() == old(tracker.State()) &&
                tracker.message == old(tracker.message)
      ensures !fault.OpenFault? && codec.Some? ==>
                tracker.message == UploadMessage(old(tracker.message), fault) &&
                bucket.objects == ObjectsAfter(old(bucket.objects), fault,
                                               DataKey(objectKeyPrefix, compressionType, image.id),
                                               codec.value.compress(image.data), MetaKey(objectKeyPrefix, image.id),
                                               json.encode(SavedInfo(image, codec.value.compress(image.data), sha256Hex))) &&
                tracker.State() == ProgressAfter(old(tracker.State()), fault, |image.data|, image.expectedLength,
                                                 |codec.value.compress(image.data)|,
                                                 |json.encode(SavedInfo(image, codec.value.compress(image.data), sha256Hex))|)
      ensures !fault.OpenFault? && codec.Some? && !fault.NoFault? ==>
                r == Err(SaveError(fault, file, DataKey(objectKeyPrefix, compressionType, image.id), MetaKey(objectKeyPrefix, image.id)))
      ensures codec.Some? && fault.NoFault? && Faithful(json) ==>
                r.Ok? && fresh(r.value) && r.value.info == Some(SavedInfo(image, codec.value.compress(image.data), sha256Hex)) &&
                r.value.id == image.id && r.value.imageObjectKey == DataKey(objectKeyPrefix, compressionType, image.id) &&
                r.value.objectKey == MetaKey(objectKeyPrefix, image.id)
    {
      if fault.OpenFault? || codec.None? {
        return Err(RuntimeFailure("Error compressing image data to " + file));
      }
      r := CompressAndUpload(image, tracker, codec.value, json, sha256Hex, file, fault);
    }

    /** The steps of `save` once a compressor exists: compress, then upload data and metadata, then read back. */
    method CompressAndUpload(image: NewImage, tracker: TaskStepTracker, codec: Codec, json: InfoCodec,
                             sha256Hex: DigestHex, file: string, fault: SaveFault) returns (r: Result<S3SolarNodeImage>)
      requires tracker.Valid() && file in work.files && !fault.OpenFault?
      modifies bucket, tracker, work
      ensures tracker.Valid() && file in work.files && work.files - {file} == old(work.files) - {file}
      ensures tracker.startedDate == old(tracker.startedDate) &&
              tracker.completedDate == old(tracker.completedDate)
      ensures r.Ok? ==> r.value.id == image.id && fault.NoFault?
      ensures var stored := codec.compress(image.data);
              var infoJson := json.encode(SavedInfo(image, stored, sha256Hex));
              tracker.message == UploadMessage(old(tracker.message), fault) &&
              bucket.objects == ObjectsAfter(old(bucket.objects), fault, DataKey(objectKeyPrefix, compressionType, image.id),
                                             stored, MetaKey(objectKeyPrefix, image.id), infoJson) &&
              tracker.State() == ProgressAfter(old(tracker.State()), fault, |image.data|, image.expectedLength,
                                               |stored|, |infoJson|)
      ensures !fault.NoFault? ==>
                r == Err(SaveError(fault, file, DataKey(objectKeyPrefix, compressionType, image.id), MetaKey(objectKeyPrefix, image.id)))
      ensures fault.NoFault? && Faithful(json) ==>
                r.Ok? && fresh(r.value) && r.value.info == Some(SavedInfo(image, codec.compress(image.data), sha256Hex)) &&
                r.value.id == image.id && r.value.imageObjectKey == DataKey(objectKeyPrefix, compressionType, image.id) &&
                r.value.objectKey == MetaKey(objectKeyPrefix, image.id)
    {
      var stored, info := CompressStep(image, tracker, codec, sha256Hex, file);
      r := UploadAndReload(image.id, tracker, stored, json, info, file, fault);
    }

    /** The uploads of `save` and, once both succeed, the read-back of the image. */
    method UploadAndReload(id: string, tracker: TaskStepTracker, stored: seq<byte>, json: InfoCodec, info: ImageInfo,
                           file: string, fault: SaveFault) returns (r: Result<S3SolarNodeImage>)
      requires tracker.Valid() && !fault.OpenFault?
      modifies bucket, tracker
      ensures tracker.Valid() && tracker.message == UploadMessage(old(tracker.message), fault)
      ensures tracker.startedDate == old(tracker.startedDate) && tracker.completedDate == old(tracker.completedDate)
      ensures bucket.objects == ObjectsAfter(old(bucket.objects), fault, DataKey(objectKeyPrefix, compressionType, id),
                                             stored, MetaKey(objectKeyPrefix, id), json.encode(info))
      ensures tracker.State() == UploadsProgress(old(tracker.State()), fault, |stored|, |json.encode(info)|)
      ensures r.Ok? ==> r.value.id == id && fault.NoFault?
      ensures !fault.NoFault? ==>
                r == Err(SaveError(fault, file, DataKey(objectKeyPrefix, compressionType, id), MetaKey(objectKeyPrefix, id)))
      ensures fault.NoFault? && Faithful(json) ==>
                r.Ok? && fresh(r.value) && r.value.info == Some(info) && r.value.id == id &&
                r.value.imageObjectKey == DataKey(objectKeyPrefix, compressionType, id) &&
                r.value.objectKey == MetaKey(objectKeyPrefix, id)
    {
      var dataKey := DataKey(objectKeyPrefix, compressionType, id);
      var metaKey := MetaKey(objectKeyPrefix, id);
      var uploaded := Uploads(tracker, dataKey, stored, metaKey, json.encode(info), fault);
      if !uploaded {
        return Err(SaveError(fault, file, dataKey, metaKey));
      }
      r := Reload(id, json, info);
    }

    /** The closing `findOne` of `save`, reading back the metadata object just uploaded. */
    method Reload(id: string, json: InfoCodec, info: ImageInfo) returns (r: Result<S3SolarNodeImage>)
      requires MetaKey(objectKeyPrefix, id) in bucket.objects
      requires bucket.objects[MetaKey(objectKeyPrefix, id)] == json.encode(info)
      ensures r.Ok? ==> r.value.id == id
      ensures Faithful(json) ==>
                r.Ok? && fresh(r.value) && r.value.info == Some(info) && r.value.id == id &&
                r.value.imageObjectKey == DataKey(objectKeyPrefix, compressionType, id) &&
                r.value.objectKey == MetaKey(objectKeyPrefix, id)
    {
      r := FindOne(id, json);
    }

    /** The two uploads of `save`: the data object, then the metadata object; the first failure ends them. */
    method Uploads(tracker: TaskStepTracker, dataKey: string, stored: seq<byte>, metaKey: string, infoJson: seq<byte>,
                   fault: SaveFault) returns (ok: bool)
      requires tracker.Valid() && !fault.OpenFault?
      modifies bucket, tracker
      ensures ok == fault.NoFault? && tracker.Valid()
      ensures tracker.message == UploadMessage(old(tracker.message), fault)
      ensures tracker.startedDate == old(tracker.startedDate) &&
              tracker.completedDate == old(tracker.completedDate)
      ensures bucket.objects == ObjectsAfter(old(bucket.objects), fault, dataKey, stored, metaKey, infoJson)
      ensures tracker.State() == UploadsProgress(old(tracker.State()), fault, |stored|, |infoJson|)
    {
      if fault.UploadFault? {
        // the temporary file is reopened before the message is set
        return false;
      }
      tracker.SetMessage(Some("Uploading customized image"));
      ok := UploadStep(tracker, dataKey, stored, fault.DataClientFault?);
      if ok {
        ok := UploadStep(tracker, metaKey, infoJson, !fault.NoFault?);
      }
    }

    /**
     * The first step of `save`: the image data is read through a digest and
     * a counter, compressed through another digest and counter into the
     * temporary file, with read progress reported against the expected
     * length; the info is built from the two digests and counts.
     */
    method CompressStep(image: NewImage, tracker: TaskStepTracker, codec: Codec, sha256Hex: DigestHex, file: string)
      returns (stored: seq<byte>, info: ImageInfo)
      requires tracker.Valid()
      modifies tracker, work
      ensures stored == codec.compress(image.data) && info == SavedInfo(image, stored, sha256Hex)
      ensures work.files == old(work.files)[file := stored]
      ensures tracker.Valid() && tracker.State() == FinishStep(ReadProgress(old(tracker.State()), |image.data|, image.expectedLength))
      ensures tracker.message == old(tracker.message) && tracker.startedDate == old(tracker.startedDate) &&
              tracker.completedDate == old(tracker.completedDate)
    {
      stored, info := CompressThroughDigests(image, codec, sha256Hex);
      work.WriteFile(file, stored);
      ReportRead(tracker, |image.data|, image.expectedLength);
      tracker.CompleteStep();
    }

    /**
     * One upload step of `save`: the bytes are put through a progress-tracking
     * stream whose expected length is their own length, then the step is
     * completed; `fails` stands for an I/O error, which ends the save.
     */
    method UploadStep(tracker: TaskStepTracker, key: string, contents: seq<byte>, fails: bool) returns (ok: bool)
      requires tracker.Valid()
      modifies bucket, tracker
      ensures ok == !fails && tracker.Valid() && tracker.message == old(tracker.message)
      ensures tracker.startedDate == old(tracker.startedDate) &&
              tracker.completedDate == old(tracker.completedDate)
      ensures bucket.objects == if ok then old(bucket.objects)[key := contents] else old(bucket.objects)
      ensures tracker.State() == if ok then FinishStep(ReadProgress(old(tracker.State()), |contents|, |contents|))
                                 else old(tracker.State())
    {
      ok := bucket.PutObject(key, contents, fails);
      if ok {
        ReportRead(tracker, |contents|, |contents|);
        tracker.CompleteStep();
      }
    }
  }

  /**
   * The copy of `save`'s first step: the input passes a digest and a
   * counter, is compressed, and the output passes another digest and
   * counter; the info is built from the two digests and the two counts.
   */
  method CompressThroughDigests(image: NewImage, codec: Codec, sha256Hex: DigestHex) returns (stored: seq<byte>, info: ImageInfo)
    ensures stored == codec.compress(image.data) && info == SavedInfo(image, stored, sha256Hex)
  {
    var inputDigest := new MessageDigest();
    var outputDigest := new MessageDigest();
    var inputContentLength := new MutableLong(0);
    var outputContentLength := new MutableLong(0);
    inputDigest.Update(image.data);
    inputContentLength.Add(|image.data|);
    stored := codec.compress(image.data);
    outputDigest.Update(stored);
    outputContentLength.Add(|stored|);
    var outputBytes := outputDigest.Digest();
    var inputBytes := inputDigest.Digest();
    assert outputBytes == stored && inputBytes == image.data;
    info := ImageInfo(image.id, Some(sha256Hex(outputBytes)), Some(outputContentLength.value),
                      Some(sha256Hex(inputBytes)), Some(inputContentLength.value));
  }

  /** The progress a tracking stream reports once `count` bytes have passed, against `expected`. */
  method ReportRead(tracker: TaskStepTracker, count: nat, expected: int)
    requires tracker.Valid()
    modifies tracker
    ensures tracker.Valid() && tracker.State() == ReadProgress(old(tracker.State()), count, expected)
    ensures tracker.message == old(tracker.message) && tracker.startedDate == old(tracker.startedDate) &&
            tracker.completedDate == old(tracker.completedDate)
  {
    if count > 0 {
      tracker.SetStepPercentComplete(Fraction(count, expected));
    }
  }

  /**
   * Where `save` fails, if it does: a stream of the first step cannot be
   * opened (the image's input stream or the temporary file's output stream);
   * the temporary file cannot be reopened for the data upload; the client's
   * `putObject` of the data throws (an unchecked exception, before it reads
   * the stream); the metadata cannot be serialised to JSON; or the client's
   * `putObject` of the metadata throws.
   */
  datatype SaveFault = NoFault | OpenFault | UploadFault | DataClientFault(failure: Failure) | MetaFault
                     | MetaClientFault(failure: Failure)
  {
    /** Whether the data object reaches the bucket. */
    predicate DataStored()
    {
      NoFault? || MetaFault? || MetaClientFault?
    }
  }

  /** The tracker's message once the uploads are reached: set only after the temporary file is open again. */
  function UploadMessage(before: Option<string>, fault: SaveFault): Option<string>
  {
    if fault.OpenFault? || fault.UploadFault? then before else Some("Uploading customized image")
  }

  /** The metadata `save` records: digests and lengths of the stored and of the uncompressed bytes. */
  function SavedInfo(image: NewImage, stored: seq<byte>, sha256Hex: DigestHex): (info: ImageInfo)
    ensures info.id == image.id
    ensures info.contentLength == Some(|stored|) && info.uncompressedContentLength == Some(|image.data|)
  {
    ImageInfo(image.id, Some(sha256Hex(stored)), Some(|stored|), Some(sha256Hex(image.data)), Some(|image.data|))
  }

  /** The error `save` reports for a fault: the I/O failures are wrapped, the client's exceptions pass through. */
  function SaveError(fault: SaveFault, file: string, dataKey: string, metaKey: string): (e: Failure)
    requires !fault.NoFault?
    ensures fault.DataClientFault? || fault.MetaClientFault? ==> e == fault.failure
    ensures fault.OpenFault? || fault.UploadFault? || fault.MetaFault? ==> e.className == "RuntimeException"
  {
    match fault
    case OpenFault => RuntimeFailure("Error compressing image data to " + file)
    case UploadFault => RuntimeFailure("Error uploading image data to " + dataKey)
    case DataClientFault(f) => f
    case MetaFault => RuntimeFailure("Error writing image metadata to " + metaKey)
    case MetaClientFault(f) => f
  }

  /** The bucket after `save`: the data object once its upload succeeds, then the metadata object. */
  function ObjectsAfter(objects: map<string, seq<byte>>, fault: SaveFault, dataKey: string, stored: seq<byte>,
                        metaKey: string, infoJson: seq<byte>): (r: map<string, seq<byte>>)
    ensures !fault.DataStored() ==> r == objects
    ensures fault.DataStored() ==> dataKey in r && (dataKey != metaKey || !fault.NoFault? ==> r[dataKey] == stored)
    ensures fault.NoFault? ==> metaKey in r && r[metaKey] == infoJson
    ensures !fault.NoFault? && metaKey != dataKey ==> (metaKey in r <==> metaKey in objects)
    ensures forall k :: k != dataKey && k != metaKey ==> (k in r <==> k in objects) && (k in r ==> r[k] == objects[k])
  {
    if fault.NoFault? then objects[dataKey := stored][metaKey := infoJson]
    else if fault.DataStored() then objects[dataKey := stored]
    else objects
  }

  /** The tracker after `save`'s steps, up to the failing upload if any. */
  function ProgressAfter(p: Progress, fault: SaveFault, dataLength: nat, expected: int, storedLength: nat, jsonLength: nat): Progress
  {
    UploadsProgress(FinishStep(ReadProgress(p, dataLength, expected)), fault, storedLength, jsonLength)
  }

  /** The tracker after the uploads of `save`, from the state after compression. */
  function UploadsProgress(compressed: Progress, fault: SaveFault, storedLength: nat, jsonLength: nat): Progress
  {
    if !fault.DataStored() then compressed
    else
      var uploaded := FinishStep(ReadProgress(compressed, storedLength, storedLength));
      if !fault.NoFault? then uploaded else FinishStep(ReadProgress(uploaded, jsonLength, jsonLength))
  }

  /** A presigned download link. */
  datatype PresignedUrl = PresignedUrl(bucketName: string, key: string, expiration: int)

  /** `SolarNodeImage` as `save` receives it: id, file name, declared uncompressed length and bytes. */
  datatype NewImage = NewImage(id: string, filename: Option<string>, expectedLength: int, data: seq<byte>)

  /** The tracker after a read of `count` bytes against `expected`: only a non-empty read reports progress. */
  function ReadProgress(p: Progress, count: nat, expected: int): Progress
  {
    if count > 0 then SetStepPercent(p, Fraction(count, expected)) else p
  }

  /** Progress reports inside a step do not change where `completeStep` leads, while steps remain. */
  lemma FinishStepAfterProgress(p: Progress, count: nat, expected: int)
    requires WellFormed(p) && p.currentStep <= p.stepCount
    ensures FinishStep(ReadProgress(p, count, expected)) == FinishStep(p)
  {
  }

  /**
   * A successful `save` started within its first step, with three steps
   * left, advances the tracker exactly as three `completeStep` calls do.
   */
  lemma SaveCompletesThreeSteps(p: Progress, dataLength: nat, expected: int, storedLength: nat, jsonLength: nat)
    requires WellFormed(p)
    requires 1 <= p.currentStep && p.currentStep + SaveTaskStepCount - 1 <= p.stepCount
    ensures ProgressAfter(p, NoFault, dataLength, expected, storedLength, jsonLength) == FinishSteps(p, SaveTaskStepCount)
  {
    var p1 := FinishStep(p);
    var p2 := FinishStep(p1);
    FinishStepAfterProgress(p, dataLength, expected);
    FinishStepAfterProgress(p1, storedLength, storedLength);
    FinishStepAfterProgress(p2, jsonLength, jsonLength);
    assert FinishSteps(p, 3) == FinishSteps(p1, 2) == FinishSteps(p2, 1) == FinishStep(p2);
  }
}
