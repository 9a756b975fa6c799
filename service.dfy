/**
 * `AbstractNodeImageService`: the authorisation gate, the receipts of
 * image customisation tasks keyed by a derived task id, the staging of
 * uploaded resources, the task body that drives the step tracker through
 * decompression, customisation and the repository's save, and the sweep
 * that drops expired receipts and session keys.
 *
 * The executor is modelled by handing the submitted task back to the
 * caller (`ImageTask`), whose `Run` plays the worker thread's part.
 * Random UUIDs, clock readings and SHA-256 are parameters.
 */
module NodeImageService {
  import opened Common
  import opened Images
  import opened StepTracker
  import opened FileStore
  import opened Compression
  import opened S3Image
  import opened S3Repository
  import opened Receipts

  /** `(int) TimeUnit.HOURS.toSeconds(12)`, the default maximum receipt age. */
  const DefaultReceiptMaxAgeSeconds: int := 12 * 60 * 60

  const NotAuthorized := Failure("AuthorizationException", Some("Key is not authorized"))
  const NoSourceImage := Failure("IllegalArgumentException", Some("No source image provided."))
  const NullPointer := Failure("NullPointerException", None)
  /** The I/O failure of creating the staging directory or sizing the customised image (its text is not modelled). */
  const StagingIOFailure := Failure("IOException", None)

  /** The hex SHA-256 of a string's bytes (`DigestUtils.sha256Hex(String)`), left abstract. */
  type TextDigest = string -> string

  /** `taskId(receiptId, key)`: the digest of the receipt id followed by the key. */
  function TaskId(receiptId: string, key: string, sha256Hex: TextDigest): string
  {
    sha256Hex(receiptId + key)
  }

  /** A possibly null string as Java's concatenation renders it. */
  function Text(s: Option<string>): (t: string)
    ensures s.Some? ==> t == s.value
  {
    if s.Some? then s.value else "null"
  }

  /** The tracker message of a failed task: the exception's simple class name, ": " and its message. */
  function FailureMessage(f: Failure): (m: string)
    ensures StartsWith(m, f.className + ": ")
  {
    f.className + ": " + Text(f.message)
  }

  /** `ImageSetupResult`: the customised image file, a message, and whether the setup succeeded. */
  datatype ImageSetupResult = ImageSetupResult(imageFile: Option<string>, message: Option<string>, success: bool)

  /** A resource uploaded with the request: its file name (possibly null) and its content. */
  datatype ImageResource = ImageResource(filename: Option<string>, data: seq<byte>)

  /**
   * The source image as the task sees it: its id, its declared uncompressed
   * digest (possibly null) and length, and the bytes its decompressing
   * stream yields, or the failure opening that stream.
   */
  datatype SourceImage = SourceImage(id: string, uncompressedSha256: Option<string>, uncompressedContentLength: int,
                                     uncompressed: Result<seq<byte>>)

  /**
   * What the subclass's `createImageInternal` does: the files it leaves
   * written in the staging area, and what it returns or throws.
   */
  datatype Customization = Customization(edits: map<string, seq<byte>>, result: Result<ImageSetupResult>)

  /** The outside world of the repository's `save`: codecs, JSON, temporary file name and which upload fails. */
  datatype SaveInputs = SaveInputs(codecFor: string -> Option<Codec>, json: InfoCodec, tempName: string,
                                   tempFails: bool, fault: SaveFault)

  // ---------------------------------------------------------------------
  // Staging of the uploaded resources

  /** The names of the resources that are staged: those with a non-null, non-empty file name, in order. */
  function Named(rs: seq<ImageResource>): (names: seq<string>)
    ensures |names| <= |rs|
    ensures forall i :: 0 <= i < |names| ==> names[i] != []
  {
    if rs == [] then []
    else
      var last := rs[|rs| - 1];
      Named(rs[..|rs| - 1]) + (if last.filename.Some? && last.filename.value != [] then [last.filename.value] else [])
  }

  /** The staged copies' paths, one per named resource, in order. */
  function StagedPaths(root: string, rs: seq<ImageResource>): (paths: seq<string>)
    ensures |paths| == |Named(rs)|
    ensures forall i :: 0 <= i < |paths| ==> paths[i] == Resolve(root, Named(rs)[i])
  {
    if rs == [] then []
    else
      var last := rs[|rs| - 1];
      StagedPaths(root, rs[..|rs| - 1]) +
      (if last.filename.Some? && last.filename.value != [] then [Resolve(root, last.filename.value)] else [])
  }

  /** The files after the named resources are copied in order; a later resource of the same name wins. */
  function Staged(files: map<string, seq<byte>>, root: string, rs: seq<ImageResource>): map<string, seq<byte>>
  {
    if rs == [] then files
    else
      var last := rs[|rs| - 1];
      var before := Staged(files, root, rs[..|rs| - 1]);
      if last.filename.Some? && last.filename.value != [] then before[Resolve(root, last.filename.value) := last.data]
      else before
  }

  /** Whether resource `i` is the last one carrying its (non-empty) name. */
  predicate LastOfItsName(rs: seq<ImageResource>, i: int)
    requires 0 <= i < |rs|
  {
    rs[i].filename.Some? && rs[i].filename.value != [] &&
    forall j :: i < j < |rs| ==> rs[j].filename != rs[i].filename
  }

  /**
   * Staging adds exactly the staged paths, keeps every other file, and the
   * copy of a name holds the data of the last resource with that name.
   */
  lemma {:induction false} StagedContents(files: map<string, seq<byte>>, root: string, rs: seq<ImageResource>)
    ensures Staged(files, root, rs).Keys == files.Keys + set p | p in StagedPaths(root, rs)
    ensures forall i :: 0 <= i < |rs| && LastOfItsName(rs, i) ==>
              Resolve(root, rs[i].filename.value) in Staged(files, root, rs) &&
              Staged(files, root, rs)[Resolve(root, rs[i].filename.value)] == rs[i].data
  {
    if rs != [] {
      var init := rs[..|rs| - 1];
      var last := rs[|rs| - 1];
      StagedContents(files, root, init);
      forall i | 0 <= i < |rs| && LastOfItsName(rs, i)
        ensures Resolve(root, rs[i].filename.value) in Staged(files, root, rs)
        ensures Staged(files, root, rs)[Resolve(root, rs[i].filename.value)] == rs[i].data
      {
        if i < |rs| - 1 {
          assert init[i] == rs[i];
          assert LastOfItsName(init, i);
          assert last.filename != rs[i].filename;
          if last.filename.Some? && last.filename.value != [] {
            ResolveInjective(root, last.filename.value, rs[i].filename.value);
          }
        }
      }
    }
  }

  /** Different names resolve to different paths in one directory. */
  lemma ResolveInjective(dir: string, a: string, b: string)
    requires a != b
    ensures Resolve(dir, a) != Resolve(dir, b)
  {
    var pa := Resolve(dir, a);
    var pb := Resolve(dir, b);
    assert pa[|dir| + 1..] == a;
    assert pb[|dir| + 1..] == b;
  }

  // ---------------------------------------------------------------------
  // The task body's checks

  /**
   * The digest check after decompression: a null declared digest fails
   * with a NullPointerException; a declared digest that differs from the
   * computed one, ignoring case, aborts the task.
   */
  function DigestCheck(source: SourceImage, computed: string): (r: Option<Failure>)
    ensures r.None? <==> source.uncompressedSha256.Some? && Lower(source.uncompressedSha256.value) == Lower(computed)
  {
    match source.uncompressedSha256
    case None => Some(NullPointer)
    case Some(declared) =>
      if Lower(declared) == Lower(computed) then None
      else Some(RuntimeFailure("Image " + source.id + " uncompressed SHA-256 digest " + computed +
                               " does not match " + declared))
  }

  /** The verdict on the subclass's result: the customised image's path, or why the task stops. */
  function SetupVerdict(key: string, result: ImageSetupResult): (r: Result<string>)
    ensures r.Ok? <==> result.success && result.imageFile.Some?
    ensures r.Ok? ==> r.value == result.imageFile.value
  {
    if result.success && result.imageFile.Some? then Ok(result.imageFile.value)
    else Err(RuntimeFailure("Image " + key + " setup failed: " + Text(result.message)))
  }

  /** A fresh tracker of 2 + 3 steps whose first two steps are completed stands at step 3 with nothing done. */
  lemma CustomizedProgress(dataLength: nat, expected: int)
    ensures FinishStep(FinishStep(ReadProgress(Fresh(2 + SaveTaskStepCount), dataLength, expected)))
            == Progress(2 + SaveTaskStepCount, 3, 0.0)
  {
    var read := ReadProgress(Fresh(2 + SaveTaskStepCount), dataLength, expected);
    assert read.currentStep <= 1 && read.stepCount == 2 + SaveTaskStepCount;
  }

  /**
   * Where a successful task leaves the tracker: from step 3 of 2 + 3, the
   * three successful save steps bring the overall value to 1.
   */
  lemma SaveFromThirdStepCompletes(dataLength: nat, expected: int, storedLength: nat, jsonLength: nat)
    ensures Overall(ProgressAfter(Progress(2 + SaveTaskStepCount, 3, 0.0), NoFault, dataLength, expected,
                                  storedLength, jsonLength)) == 1.0
  {
    var n := 2 + SaveTaskStepCount;
    SaveCompletesThreeSteps(Progress(n, 3, 0.0), dataLength, expected, storedLength, jsonLength);
    CompleteStepsFrom(n, 3, SaveTaskStepCount);
  }

  // ---------------------------------------------------------------------
  // The repository's save, as the task sees it

  /**
   * The failure the repository's `save` of `image` raises, if any: the
   * temporary file, the first step's streams or a missing compressor, then
   * the faults of the uploads.
   */
  function SaveFailure(prefix: Option<string>, compressionType: string, workDirectory: string, image: NewImage,
                       save: SaveInputs): (f: Option<Failure>)
    ensures f.None? <==> !save.tempFails && save.fault.NoFault? && save.codecFor(compressionType).Some?
  {
    var file := Resolve(workDirectory, "node-image-" + save.tempName);
    if save.tempFails then Some(RuntimeFailure("Error creating temporary image data file"))
    else if save.fault.OpenFault? || save.codecFor(compressionType).None? then
      Some(RuntimeFailure("Error compressing image data to " + file))
    else if save.fault.NoFault? then None
    else Some(SaveError(save.fault, file, DataKey(prefix, compressionType, image.id), MetaKey(prefix, image.id)))
  }

  /** The bucket after the repository's `save` of `image`: unchanged when it fails before the uploads. */
  function SavedObjects(objects: map<string, seq<byte>>, prefix: Option<string>, compressionType: string,
                        image: NewImage, save: SaveInputs, sha256Hex: DigestHex): map<string, seq<byte>>
  {
    if save.tempFails || save.fault.OpenFault? || save.codecFor(compressionType).None? then objects
    else
      var stored := save.codecFor(compressionType).value.compress(image.data);
      ObjectsAfter(objects, save.fault, DataKey(prefix, compressionType, image.id), stored, MetaKey(prefix, image.id),
                   save.json.encode(SavedInfo(image, stored, sha256Hex)))
  }

  /**
   * A save that meets no failure stores the image's metadata, with the
   * digests and lengths of both forms, under its metadata key and the
   * compressed data under its data key; every other object is kept.
   */
  lemma SavedImageStored(objects: map<string, seq<byte>>, prefix: Option<string>, compressionType: string,
                         workDirectory: string, image: NewImage, save: SaveInputs, sha256Hex: DigestHex)
    requires SaveFailure(prefix, compressionType, workDirectory, image, save).None?
    ensures var after := SavedObjects(objects, prefix, compressionType, image, save, sha256Hex);
            var stored := save.codecFor(compressionType).value.compress(image.data);
            MetaKey(prefix, image.id) in after && DataKey(prefix, compressionType, image.id) in after &&
            after[MetaKey(prefix, image.id)] == save.json.encode(SavedInfo(image, stored, sha256Hex)) &&
            (DataKey(prefix, compressionType, image.id) != MetaKey(prefix, image.id) ==>
               after[DataKey(prefix, compressionType, image.id)] == stored)
  {
  }

  /** A save that fails before its uploads, or on the data upload, changes no object. */
  lemma FailedSaveKeepsObjects(objects: map<string, seq<byte>>, prefix: Option<string>, compressionType: string,
                               image: NewImage, save: SaveInputs, sha256Hex: DigestHex)
    requires save.tempFails || !save.fault.DataStored()
    ensures SavedObjects(objects, prefix, compressionType, image, save, sha256Hex) == objects
  {
  }

  // ---------------------------------------------------------------------
  // The submitted task

  class ImageTask {
    const key: string
    const source: SourceImage
    const root: string
    /** The uncompressed image's path in the staging directory. */
    const imageDest: string := Resolve(root, source.id + ".img")
    const resourceFiles: seq<string>
    const outputId: string
    const tracker: TaskStepTracker
    const future: Task
    const staging: FileSystem
    const repository: S3NodeImageRepository

    constructor (key: string, source: SourceImage, root: string, resourceFiles: seq<string>, outputId: string,
                 tracker: TaskStepTracker, future: Task, staging: FileSystem, repository: S3NodeImageRepository)
      ensures this.key == key && this.source == source && this.root == root && imageDest == Resolve(root, source.id + ".img")
      ensures this.resourceFiles == resourceFiles && this.outputId == outputId && this.tracker == tracker
      ensures this.future == future && this.staging == staging && this.repository == repository
    {
      this.key := key;
      this.source := source;
      this.root := root;
      this.resourceFiles := resourceFiles;
      this.outputId := outputId;
      this.tracker := tracker;
      this.future := future;
      this.staging := staging;
      this.repository := repository;
    }

    /** Where the task body stands before its save: the customised image's path, or the failure that ended it. */
    function Prepared(setup: Customization, sha256Hex: DigestHex): (r: Result<string>)
      ensures r.Ok? <==> source.uncompressed.Ok? && DigestCheck(source, sha256Hex(source.uncompressed.value)).None? &&
                         setup.result.Ok? && setup.result.value.success && setup.result.value.imageFile.Some?
      ensures r.Ok? ==> r.value == setup.result.value.imageFile.value
    {
      if source.uncompressed.Err? then Err(source.uncompressed.error)
      else match DigestCheck(source, sha256Hex(source.uncompressed.value))
        case Some(mismatch) => Err(mismatch)
        case None => if setup.result.Err? then Err(setup.result.error) else SetupVerdict(key, setup.result.value)
    }

    /**
     * The image the task hands to `save`, from the staging files `files` it
     * started with: the customised file's bytes under the output id, or the
     * failure that came first.
     */
    function Output(files: map<string, seq<byte>>, setup: Customization, sha256Hex: DigestHex): (r: Result<NewImage>)
      ensures r.Ok? ==> Prepared(setup, sha256Hex).Ok? && r.value.id == outputId &&
                        r.value.filename == Some(AfterLastSlash(Prepared(setup, sha256Hex).value)) &&
                        r.value.expectedLength == |r.value.data|
    {
      match Prepared(setup, sha256Hex)
      case Err(f) => Err(f)
      case Ok(path) =>
        var staged := files[imageDest := source.uncompressed.value] + setup.edits;
        if path in staged then Ok(NewImage(outputId, Some(AfterLastSlash(path)), |staged[path]|, staged[path]))
        else Err(StagingIOFailure)
    }

    /** The failure the task body raises, if any, given the staging files and compression type it starts with. */
    function TaskFailure(files: map<string, seq<byte>>, compressionType: string, setup: Customization,
                         sha256Hex: DigestHex, save: SaveInputs): Option<Failure>
    {
      match Output(files, setup, sha256Hex)
      case Err(f) => Some(f)
      case Ok(image) => SaveFailure(repository.objectKeyPrefix, compressionType, repository.workDirectory, image, save)
    }

    /** The bucket after the task body: unchanged before the save, as the save leaves it from there. */
    function TaskObjects(objects: map<string, seq<byte>>, files: map<string, seq<byte>>, compressionType: string,
                         setup: Customization, sha256Hex: DigestHex, save: SaveInputs): map<string, seq<byte>>
    {
      match Output(files, setup, sha256Hex)
      case Err(_) => objects
      case Ok(image) => SavedObjects(objects, repository.objectKeyPrefix, compressionType, image, save, sha256Hex)
    }

    /**
     * A task whose steps succeed and whose save meets no fault raises
     * nothing, and the bucket then holds, under the output id's metadata
     * key, the metadata of the image built from the customised file's bytes.
     */
    lemma TaskStoresImage(objects: map<string, seq<byte>>, files: map<string, seq<byte>>, compressionType: string,
                          setup: Customization, sha256Hex: DigestHex, save: SaveInputs)
      requires Output(files, setup, sha256Hex).Ok?
      requires !save.tempFails && save.fault.NoFault? && save.codecFor(compressionType).Some?
      ensures TaskFailure(files, compressionType, setup, sha256Hex, save).None?
      ensures var image := Output(files, setup, sha256Hex).value;
              var after := TaskObjects(objects, files, compressionType, setup, sha256Hex, save);
              var metaKey := MetaKey(repository.objectKeyPrefix, outputId);
              image.data == (files[imageDest := source.uncompressed.value] + setup.edits)[Prepared(setup, sha256Hex).value] &&
              metaKey in after &&
              after[metaKey] == save.json.encode(SavedInfo(image, save.codecFor(compressionType).value.compress(image.data), sha256Hex))
    {
      var image := Output(files, setup, sha256Hex).value;
      SavedImageStored(objects, repository.objectKeyPrefix, compressionType, repository.workDirectory, image, save, sha256Hex);
    }

    /**
     * Step 1: the decompressed source is copied into the image file through
     * a digest and a progress filter expecting the declared uncompressed
     * length, then the step is completed. A source that cannot be opened
     * fails before anything is written.
     */
    method Decompress() returns (r: Result<seq<byte>>)
      requires tracker.Valid()
      modifies staging, tracker
      ensures r == source.uncompressed && tracker.Valid() && tracker.message == old(tracker.message)
      ensures tracker.startedDate == old(tracker.startedDate)
      ensures r.Ok? ==> staging.files == old(staging.files)[imageDest := r.value] &&
                        tracker.State() == FinishStep(ReadProgress(old(tracker.State()), |r.value|,
                                                                   source.uncompressedContentLength))
      ensures r.Err? ==> staging.files == old(staging.files) && tracker.State() == old(tracker.State())
    {
      r := source.uncompressed;
      if r.Err? {
        return;
      }
      staging.WriteFile(imageDest, r.value);
      ReportRead(tracker, |r.value|, source.uncompressedContentLength);
      tracker.CompleteStep();
    }

    /**
     * Step 2: "Customizing image", the subclass's work on the staged files,
     * then the step is completed unless that work threw.
     */
    method Customize(setup: Customization) returns (r: Result<string>)
      requires tracker.Valid()
      modifies staging, tracker
      ensures tracker.Valid() && tracker.message == Some("Customizing image")
      ensures tracker.startedDate == old(tracker.startedDate)
      ensures staging.files == old(staging.files) + setup.edits
      ensures setup.result.Err? ==> r == Err(setup.result.error) && tracker.State() == old(tracker.State())
      ensures setup.result.Ok? ==> r == SetupVerdict(key, setup.result.value) &&
                                   tracker.State() == FinishStep(old(tracker.State()))
    {
      tracker.SetMessage(Some("Customizing image"));
      staging.WriteAll(setup.edits);
      if setup.result.Err? {
        return Err(setup.result.error);
      }
      tracker.CompleteStep();
      r := SetupVerdict(key, setup.result.value);
    }

    /**
     * Steps 3 to N: "Compressing customized image", the image file is sized
     * and handed to the repository's `save` under the output id, and "Done"
     * follows a successful save.
     */
    method SaveOutput(path: string, sha256Hex: DigestHex, save: SaveInputs) returns (r: Result<S3SolarNodeImage>)
      requires tracker.Valid() && staging != repository.work
      requires Resolve(repository.workDirectory, "node-image-" + save.tempName) !in repository.work.files
      modifies tracker, repository.bucket, repository.work
      ensures tracker.Valid() && tracker.startedDate == old(tracker.startedDate)
      ensures repository.work.files == old(repository.work.files)
      ensures path !in staging.files ==>
                r == Err(StagingIOFailure) && repository.bucket.objects == old(repository.bucket.objects)
      ensures forall k :: k != DataKey(repository.objectKeyPrefix, repository.compressionType, outputId) &&
                          k != MetaKey(repository.objectKeyPrefix, outputId) ==>
                (k in repository.bucket.objects <==> k in old(repository.bucket.objects)) &&
                (k in repository.bucket.objects ==> repository.bucket.objects[k] == old(repository.bucket.objects)[k])
      ensures r.Ok? ==> tracker.message == Some("Done") && r.value.id == outputId && path in staging.files
      ensures r.Ok? && old(tracker.State()) == Progress(2 + SaveTaskStepCount, 3, 0.0) ==> Overall(tracker.State()) == 1.0
      ensures (path in staging.files && !save.tempFails && save.fault.NoFault? &&
               save.codecFor(repository.compressionType).Some? && Faithful(save.json)) ==> r.Ok?
      ensures path in staging.files ==>
                var image := NewImage(outputId, Some(AfterLastSlash(path)), |staging.files[path]|, staging.files[path]);
                var f := SaveFailure(repository.objectKeyPrefix, repository.compressionType, repository.workDirectory,
                                     image, save);
                repository.bucket.objects == SavedObjects(old(repository.bucket.objects), repository.objectKeyPrefix,
                                                          repository.compressionType, image, save, sha256Hex) &&
                (f.Some? ==> r == Err(f.value)) && (f.None? && Faithful(save.json) ==> r.Ok?)
    {
      tracker.SetMessage(Some("Compressing customized image"));
      if path !in staging.files {
        return Err(StagingIOFailure);
      }
      var data := staging.files[path];
      var image := NewImage(outputId, Some(AfterLastSlash(path)), |data|, data);
      ghost var before := tracker.State();
      r := repository.Save(image, tracker, save.codecFor, save.json, sha256Hex, save.tempName, save.tempFails, save.fault);
      if r.Ok? {
        if before == Progress(2 + SaveTaskStepCount, 3, 0.0) {
          var stored := repository.Stored(save.codecFor, data);
          SaveFromThirdStepCompletes(|data|, |data|, |stored|, |save.json.encode(SavedInfo(image, stored, sha256Hex))|);
        }
        tracker.SetMessage(Some("Done"));
      }
    }

    /**
     * `call()`: start, decompress and check, customise, save; on any
     * failure the message names the exception and deleting the output image
     * is attempted, its own failure (`deleteFault`) ignored; in every
     * outcome the staging directory is removed and the tracker completed.
     */
    method Call(setup: Customization, sha256Hex: DigestHex, save: SaveInputs, deleteFault: Option<Failure>,
                started: int, finished: int) returns (r: Result<S3SolarNodeImage>)
      requires tracker.Valid() && staging != repository.work
      requires Resolve(repository.workDirectory, "node-image-" + save.tempName) !in repository.work.files
      modifies tracker, staging, repository.bucket, repository.work
      ensures tracker.Valid() && tracker.startedDate == Some(started) && tracker.completedDate == Some(finished)
      ensures Under(staging.files, root) == {}
      ensures forall p :: p in old(staging.files) && p !in setup.edits && !StartsWith(p, root + "/") ==>
                p in staging.files && staging.files[p] == old(staging.files)[p]
      ensures repository.work.files == old(repository.work.files)
      ensures source.uncompressed.Err? ==> r == Err(source.uncompressed.error)
      ensures source.uncompressed.Ok? && DigestCheck(source, sha256Hex(source.uncompressed.value)).Some? ==>
                r == Err(DigestCheck(source, sha256Hex(source.uncompressed.value)).value)
      ensures source.uncompressed.Ok? && DigestCheck(source, sha256Hex(source.uncompressed.value)).None? ==>
                (setup.result.Err? ==> r == Err(setup.result.error)) &&
                (setup.result.Ok? && SetupVerdict(key, setup.result.value).Err? ==>
                   r == Err(SetupVerdict(key, setup.result.value).error))
      ensures r.Ok? ==> tracker.message == Some("Done") && r.value.id == outputId
      ensures r.Err? ==> tracker.message == Some(FailureMessage(r.error))
      ensures r.Err? && deleteFault.None? ==>
                DataKey(repository.objectKeyPrefix, repository.compressionType, outputId) !in repository.bucket.objects &&
                MetaKey(repository.objectKeyPrefix, outputId) !in repository.bucket.objects
      ensures forall k :: k != DataKey(repository.objectKeyPrefix, repository.compressionType, outputId) &&
                          k != MetaKey(repository.objectKeyPrefix, outputId) ==>
                (k in repository.bucket.objects <==> k in old(repository.bucket.objects)) &&
                (k in repository.bucket.objects ==> repository.bucket.objects[k] == old(repository.bucket.objects)[k])
      ensures r.Ok? && old(tracker.State()) == Fresh(2 + SaveTaskStepCount) ==> Overall(tracker.State()) == 1.0
      ensures var f := TaskFailure(old(staging.files), repository.compressionType, setup, sha256Hex, save);
              (f.Some? ==> r == Err(f.value)) && (f.None? && Faithful(save.json) ==> r.Ok?)
      ensures var stepped := TaskObjects(old(repository.bucket.objects), old(staging.files), repository.compressionType,
                                         setup, sha256Hex, save);
              repository.bucket.objects ==
                if r.Err? && deleteFault.None?
                then stepped - {MetaKey(repository.objectKeyPrefix, outputId),
                                DataKey(repository.objectKeyPrefix, repository.compressionType, outputId)}
                else stepped
    {
      assert StartsWith(imageDest, root + "/");
      tracker.Start(started);
      tracker.SetMessage(Some("Uncompressing source image"));
      r := Steps(setup, sha256Hex, save);
      Conclude(r, deleteFault, finished);
    }

    /**
     * The `catch` and `finally` blocks of `call()`: a failure is written to
     * the message and the output image's deletion attempted, its own failure
     * ignored; then the staging directory goes and the tracker completes.
     */
    method Conclude(r: Result<S3SolarNodeImage>, deleteFault: Option<Failure>, finished: int)
      requires tracker.Valid()
      modifies tracker, staging, repository.bucket
      ensures tracker.Valid() && tracker.State() == old(tracker.State())
      ensures tracker.startedDate == old(tracker.startedDate) && tracker.completedDate == Some(finished)
      ensures tracker.message == if r.Err? then Some(FailureMessage(r.error)) else old(tracker.message)
      ensures staging.files == old(staging.files) - Under(old(staging.files), root)
      ensures Under(staging.files, root) == {}
      ensures repository.bucket.objects ==
                if r.Err? && deleteFault.None?
                then old(repository.bucket.objects) - {MetaKey(repository.objectKeyPrefix, outputId),
                                                       DataKey(repository.objectKeyPrefix, repository.compressionType, outputId)}
                else old(repository.bucket.objects)
      ensures forall k :: k != DataKey(repository.objectKeyPrefix, repository.compressionType, outputId) &&
                          k != MetaKey(repository.objectKeyPrefix, outputId) ==>
                (k in repository.bucket.objects <==> k in old(repository.bucket.objects)) &&
                (k in repository.bucket.objects ==> repository.bucket.objects[k] == old(repository.bucket.objects)[k])
    {
      if r.Err? {
        tracker.SetMessage(Some(FailureMessage(r.error)));
        // a failure to delete is logged and ignored
        var _ := repository.Delete(outputId, deleteFault);
      }
      staging.DeleteRecursively(root);
      tracker.Complete(finished);
    }

    /** The body of `call()` inside its `try`: the steps up to the first failure. */
    method Steps(setup: Customization, sha256Hex: DigestHex, save: SaveInputs) returns (r: Result<S3SolarNodeImage>)
      requires tracker.Valid() && staging != repository.work
      requires Resolve(repository.workDirectory, "node-image-" + save.tempName) !in repository.work.files
      modifies tracker, staging, repository.bucket, repository.work
      ensures tracker.Valid() && tracker.startedDate == old(tracker.startedDate)
      ensures forall p :: p in old(staging.files) && p !in setup.edits && p != imageDest ==>
                p in staging.files && staging.files[p] == old(staging.files)[p]
      ensures repository.work.files == old(repository.work.files)
      ensures source.uncompressed.Err? ==> r == Err(source.uncompressed.error)
      ensures source.uncompressed.Ok? && DigestCheck(source, sha256Hex(source.uncompressed.value)).Some? ==>
                r == Err(DigestCheck(source, sha256Hex(source.uncompressed.value)).value)
      ensures source.uncompressed.Ok? && DigestCheck(source, sha256Hex(source.uncompressed.value)).None? ==>
                (setup.result.Err? ==> r == Err(setup.result.error)) &&
                (setup.result.Ok? && SetupVerdict(key, setup.result.value).Err? ==>
                   r == Err(SetupVerdict(key, setup.result.value).error))
      ensures r.Ok? ==> tracker.message == Some("Done") && r.value.id == outputId
      ensures forall k :: k != DataKey(repository.objectKeyPrefix, repository.compressionType, outputId) &&
                          k != MetaKey(repository.objectKeyPrefix, outputId) ==>
                (k in repository.bucket.objects <==> k in old(repository.bucket.objects)) &&
                (k in repository.bucket.objects ==> repository.bucket.objects[k] == old(repository.bucket.objects)[k])
      ensures r.Ok? && old(tracker.State()) == Fresh(2 + SaveTaskStepCount) ==> Overall(tracker.State()) == 1.0
      ensures var f := TaskFailure(old(staging.files), repository.compressionType, setup, sha256Hex, save);
              (f.Some? ==> r == Err(f.value)) && (f.None? && Faithful(save.json) ==> r.Ok?)
      ensures repository.bucket.objects ==
                TaskObjects(old(repository.bucket.objects), old(staging.files), repository.compressionType, setup, sha256Hex, save)
    {
      ghost var p0 := tracker.State();
      var data := Decompress();
      if data.Err? {
        return Err(data.error);
      }
      var mismatch := DigestCheck(source, sha256Hex(data.value));
      if mismatch.Some? {
        return Err(mismatch.value);
      }
      var path := Customize(setup);
      if path.Err? {
        return Err(path.error);
      }
      if p0 == Fresh(2 + SaveTaskStepCount) {
        CustomizedProgress(|data.value|, source.uncompressedContentLength);
      }
      r := SaveOutput(path.value, sha256Hex, save);
    }

    /** The worker thread: the task body runs and its outcome settles the future. */
    method Run(setup: Customization, sha256Hex: DigestHex, save: SaveInputs, deleteFault: Option<Failure>,
               started: int, finished: int)
      requires tracker.Valid() && staging != repository.work
      requires Resolve(repository.workDirectory, "node-image-" + save.tempName) !in repository.work.files
      requires future.outcome.Pending?
      modifies tracker, staging, repository.bucket, repository.work, future
      ensures future.outcome.Completed? ==> tracker.message == Some("Done") && future.outcome.image.id == outputId
      ensures future.outcome.Failed? ==> tracker.message == Some(FailureMessage(future.outcome.cause))
      ensures !future.outcome.Pending? && !future.outcome.Cancelled?
      ensures tracker.completedDate == Some(finished) && Under(staging.files, root) == {}
      ensures var f := TaskFailure(old(staging.files), repository.compressionType, setup, sha256Hex, save);
              (f.Some? ==> future.outcome == Failed(f.value)) &&
              (f.None? && Faithful(save.json) ==> future.outcome.Completed?)
      ensures var stepped := TaskObjects(old(repository.bucket.objects), old(staging.files), repository.compressionType,
                                         setup, sha256Hex, save);
              repository.bucket.objects ==
                if future.outcome.Failed? && deleteFault.None?
                then stepped - {MetaKey(repository.objectKeyPrefix, outputId),
                                DataKey(repository.objectKeyPrefix, repository.compressionType, outputId)}
                else stepped
    {
      var r := Call(setup, sha256Hex, save, deleteFault, started, finished);
      future.Finish(r);
    }
  }

  // ---------------------------------------------------------------------
  // Expiry

  /** The expiry test as written: `maxAge * 1000` is 32-bit `int` arithmetic, so large ages wrap. */
  predicate ExpiredAsWritten(createdDate: int, maxAgeSeconds: int, now: int)
  {
    createdDate + WrapInt32(maxAgeSeconds * 1000) < now
  }

  /** The expiry test as intended: older than the maximum age, in exact arithmetic. */
  predicate Expired(createdDate: int, maxAgeSeconds: int, now: int)
  {
    createdDate + maxAgeSeconds * 1000 < now
  }

  /** Both tests agree for every age whose millisecond count fits an `int`, the 12-hour default included. */
  lemma ExpiryAgreesForSmallAges(createdDate: int, maxAgeSeconds: int, now: int)
    requires -2147483 <= maxAgeSeconds <= 2147483
    ensures ExpiredAsWritten(createdDate, maxAgeSeconds, now) <==> Expired(createdDate, maxAgeSeconds, now)
    ensures Expired(createdDate, maxAgeSeconds, now) <==> now - createdDate > maxAgeSeconds * 1000
  {
    var x := maxAgeSeconds * 1000;
    assert -0x8000_0000 <= x < 0x8000_0000;
    var m := x % 0x1_0000_0000;
    if x >= 0 {
      assert m == x;
    } else {
      assert m == x + 0x1_0000_0000;
    }
  }

  /** A 30-day maximum age wraps to a negative span: a receipt created a moment ago counts as expired. */
  lemma ThirtyDayAgeExpiresAtOnce(createdDate: int)
    ensures WrapInt32(2592000 * 1000) == -1702967296
    ensures ExpiredAsWritten(createdDate, 2592000, createdDate + 1)
    ensures !Expired(createdDate, 2592000, createdDate + 1)
  {
    assert 2592000 * 1000 == 2592000000;
    assert 2592000000 % 0x1_0000_0000 == 2592000000;
  }

  // ---------------------------------------------------------------------
  // The service

  /** The metadata and data keys of the images `ids`, under `prefix` and for `compressionType`. */
  function KeysOf(prefix: Option<string>, compressionType: string, ids: set<string>): (keys: set<string>)
  {
    (set id | id in ids :: MetaKey(prefix, id)) + (set id | id in ids :: DataKey(prefix, compressionType, id))
  }

  lemma KeysOfUnion(prefix: Option<string>, compressionType: string, a: set<string>, b: set<string>)
    ensures KeysOf(prefix, compressionType, a + b) == KeysOf(prefix, compressionType, a) + KeysOf(prefix, compressionType, b)
  {
    assert (set id | id in a + b :: MetaKey(prefix, id)) ==
           (set id | id in a :: MetaKey(prefix, id)) + (set id | id in b :: MetaKey(prefix, id));
    assert (set id | id in a + b :: DataKey(prefix, compressionType, id)) ==
           (set id | id in a :: DataKey(prefix, compressionType, id)) + (set id | id in b :: DataKey(prefix, compressionType, id));
  }

  lemma KeysOfOne(prefix: Option<string>, compressionType: string, id: string)
    ensures KeysOf(prefix, compressionType, {id}) == {MetaKey(prefix, id), DataKey(prefix, compressionType, id)}
  {
  }

  lemma KeysOfNone(prefix: Option<string>, compressionType: string)
    ensures KeysOf(prefix, compressionType, {}) == {}
  {
  }

  /** Retiring one more receipt removes the keys of its image, if it completed, from the bucket. */
  lemma SweptBucketStep(prefix: Option<string>, compressionType: string, bucket0: map<string, seq<byte>>,
                        mid: map<string, seq<byte>>, after: map<string, seq<byte>>,
                        before: map<string, Outcome>, gone: set<string>, k: string)
    requires k in before
    requires mid == bucket0 - KeysOf(prefix, compressionType, CompletedImages(before, gone))
    requires after == mid - KeysOf(prefix, compressionType, if before[k].Completed? then {before[k].image.id} else {})
    ensures after == bucket0 - KeysOf(prefix, compressionType, CompletedImages(before, gone + {k}))
  {
    var done := CompletedImages(before, gone);
    var added: set<string> := if before[k].Completed? then {before[k].image.id} else {};
    assert CompletedImages(before, gone + {k}) == done + added;
    KeysOfUnion(prefix, compressionType, done, added);
    MapMinusUnion(bucket0, KeysOf(prefix, compressionType, done), KeysOf(prefix, compressionType, added));
  }

  lemma MapMinusUnion<K, V>(m: map<K, V>, a: set<K>, b: set<K>)
    ensures (m - a) - b == m - (a + b)
  {
  }

  lemma MapMinusStep<K, V>(m: map<K, V>, gone: set<K>, k: K)
    ensures (m - gone) - {k} == m - (gone + {k})
  {
  }

  /** Dropping the expired receipts keeps exactly the unexpired ones. */
  lemma Unexpired(receipts: map<string, SolarNodeImageReceiptFuture>, maxAgeSeconds: int, now: int)
    ensures receipts - ExpiredIn(receipts, maxAgeSeconds, now) ==
            map k | k in receipts && !Expired(receipts[k].createdDate, maxAgeSeconds, now) :: receipts[k]
  {
  }

  /** Dropping receipts keeps their futures and trackers distinct. */
  lemma DistinctReceiptsMinus(receipts: map<string, SolarNodeImageReceiptFuture>, gone: set<string>)
    requires DistinctReceipts(receipts)
    ensures DistinctReceipts(receipts - gone)
  {
    forall j, k | j in receipts - gone && k in receipts - gone && j != k
      ensures Apart(receipts - gone, j, k)
    {
      assert Apart(receipts, j, k);
    }
  }

  /** Storing a receipt whose future and tracker no stored receipt has keeps the receipts distinct. */
  lemma DistinctReceiptsAdd(receipts: map<string, SolarNodeImageReceiptFuture>, id: string,
                            receipt: SolarNodeImageReceiptFuture)
    requires DistinctReceipts(receipts)
    requires forall k :: k in receipts ==> receipts[k].task != receipt.task && receipts[k].tracker != receipt.tracker
    ensures DistinctReceipts(receipts[id := receipt])
  {
    var added := receipts[id := receipt];
    forall j, k | j in added && k in added && j != k
      ensures Apart(added, j, k)
    {
      if j != id && k != id {
        assert Apart(receipts, j, k);
      }
    }
  }

  /** The receipts of `receipts` older than `maxAgeSeconds` at `now`. */
  function ExpiredIn(receipts: map<string, SolarNodeImageReceiptFuture>, maxAgeSeconds: int, now: int): (ids: set<string>)
    ensures forall k {:trigger k in ids} :: k in ids <==> k in receipts && Expired(receipts[k].createdDate, maxAgeSeconds, now)
  {
    set k | k in receipts && Expired(receipts[k].createdDate, maxAgeSeconds, now)
  }

  /** One key of the sweep visited: the removed keys grow by it exactly when it is expired. */
  lemma SweepStep<K>(expired: set<K>, pending: set<K>, gone: set<K>, k: K)
    requires gone == expired - pending && k in pending
    ensures k !in gone && |gone + {k}| == |gone| + 1
    ensures k in expired ==> gone + {k} == expired - (pending - {k})
    ensures k !in expired ==> gone == expired - (pending - {k})
  {
  }

  /** No two receipts share a future or a tracker. */
  predicate DistinctReceipts(receipts: map<string, SolarNodeImageReceiptFuture>)
  {
    forall j, k {:trigger Apart(receipts, j, k)} :: j in receipts && k in receipts && j != k ==> Apart(receipts, j, k)
  }

  /** Receipts `j` and `k` share neither their future nor their tracker. */
  predicate Apart(receipts: map<string, SolarNodeImageReceiptFuture>, j: string, k: string)
    requires j in receipts && k in receipts
  {
    receipts[j].task != receipts[k].task && receipts[j].tracker != receipts[k].tracker
  }

  /** What a receipt reads from its tracker: the message, the progress and the two dates. */
  datatype TrackerView = TrackerView(message: Option<string>, progress: Progress, startedDate: Option<int>,
                                     completedDate: Option<int>)

  ghost function View(t: TaskStepTracker): TrackerView
    reads t
  {
    TrackerView(t.message, t.State(), t.startedDate, t.completedDate)
  }

  /** The view of every receipt's tracker. */
  ghost function Views(receipts: map<string, SolarNodeImageReceiptFuture>): map<string, TrackerView>
    reads set k | k in receipts :: receipts[k].tracker
  {
    map k | k in receipts :: View(receipts[k].tracker)
  }

  /**
   * The message of a receipt's tracker once the sweep has retired its task,
   * whose outcome was `o` and whose message was `message`: `getImageInfo`
   * leaves a completed task's message alone and otherwise writes the
   * message of the exception `get()` throws, which is none for a
   * cancellation and the cause's description for a failure.
   */
  function RetiredMessage(o: Outcome, message: Option<string>): (m: Option<string>)
    ensures o.Completed? ==> m == message
    ensures o.Pending? || o.Cancelled? ==> m.None?
    ensures o.Failed? ==> m == Some(Describe(o.cause))
  {
    if o.Completed? then message else Reported(Retired(o)).error.message
  }

  /** A tracker's view after the sweep retired its task, whose outcome was `o`: only the message may change. */
  function RetiredView(v: TrackerView, o: Outcome): (r: TrackerView)
    ensures r.progress == v.progress && r.startedDate == v.startedDate && r.completedDate == v.completedDate
    ensures r.message == RetiredMessage(o, v.message)
  {
    v.(message := RetiredMessage(o, v.message))
  }

  /** `SweptOutcomes` of the receipts' outcomes, spelt out receipt by receipt. */
  lemma OutcomesSwept(start: map<string, SolarNodeImageReceiptFuture>, before: map<string, Outcome>, gone: set<string>)
    ensures SweptOutcomes(Outcomes(start), before, gone) <==>
              forall j :: j in start ==>
                j in before && start[j].task.outcome == if j in gone then Retired(before[j]) else before[j]
  {
    assert forall j :: j in start ==> Outcomes(start)[j] == start[j].task.outcome;
  }

  /** `SweptViews` of the receipts' trackers, spelt out receipt by receipt. */
  lemma ViewsSwept(start: map<string, SolarNodeImageReceiptFuture>, views0: map<string, TrackerView>,
                   before: map<string, Outcome>, gone: set<string>)
    ensures SweptViews(Views(start), views0, before, gone) <==>
              forall j :: j in start ==>
                j in views0 && j in before &&
                View(start[j].tracker) == if j in gone then RetiredView(views0[j], before[j]) else views0[j]
  {
    assert forall j :: j in start ==> Views(start)[j] == View(start[j].tracker);
  }

  /** Each of `views` is its `views0` view, retired by its outcome `before` when it is in `gone`. */
  predicate SweptViews(views: map<string, TrackerView>, views0: map<string, TrackerView>, before: map<string, Outcome>,
                       gone: set<string>)
  {
    forall j {:trigger views[j]} :: j in views ==>
      j in views0 && j in before && views[j] == if j in gone then RetiredView(views0[j], before[j]) else views0[j]
  }

  /** The outcome of every receipt's task. */
  ghost function Outcomes(receipts: map<string, SolarNodeImageReceiptFuture>): map<string, Outcome>
    reads set k | k in receipts :: receipts[k].task
  {
    map k | k in receipts :: receipts[k].task.outcome
  }

  /** Each of `outcomes` is its `before` outcome, retired when it is in `gone`. */
  predicate SweptOutcomes(outcomes: map<string, Outcome>, before: map<string, Outcome>, gone: set<string>)
  {
    forall j {:trigger outcomes[j]} :: j in outcomes ==> j in before && outcomes[j] == if j in gone then Retired(before[j]) else before[j]
  }

  /** The ids of the images produced by the tasks of `gone`, by their outcomes `before`. */
  function CompletedImages(before: map<string, Outcome>, gone: set<string>): (ids: set<string>)
  {
    set k | k in gone && k in before && before[k].Completed? :: before[k].image.id
  }

  /** Both keys of the image of a completed task of `gone` are among the keys of `CompletedImages`. */
  lemma CompletedImageKeys(prefix: Option<string>, compressionType: string, before: map<string, Outcome>,
                           gone: set<string>, k: string)
    requires k in gone && k in before && before[k].Completed?
    ensures MetaKey(prefix, before[k].image.id) in KeysOf(prefix, compressionType, CompletedImages(before, gone))
    ensures DataKey(prefix, compressionType, before[k].image.id) in KeysOf(prefix, compressionType, CompletedImages(before, gone))
  {
    assert before[k].image.id in CompletedImages(before, gone);
  }

  /** The outcome of a task after the sweep retires it: a pending task is cancelled, a done one kept. */
  function Retired(o: Outcome): (r: Outcome)
    ensures r != Pending
  {
    if o.Pending? then Cancelled else o
  }

  /** The receipt stored under a task id, or null. */
  function Lookup(receipts: map<string, SolarNodeImageReceiptFuture>, taskId: string): (r: Option<SolarNodeImageReceiptFuture>)
    ensures r.Some? <==> taskId in receipts
    ensures r.Some? ==> r.value == receipts[taskId]
  {
    if taskId in receipts then Some(receipts[taskId]) else None
  }

  /**
   * A receipt `createImage` stored for key `key` is found by `getReceipt`
   * with the same key and receipt id: both derive the same task id.
   */
  lemma ReceiptFoundUnderItsKey(receipts: map<string, SolarNodeImageReceiptFuture>, receiptId: string, key: string,
                                sha256Hex: TextDigest, receipt: SolarNodeImageReceiptFuture)
    ensures Lookup(receipts[TaskId(receiptId, key, sha256Hex) := receipt],
                   TaskId(receiptId, Text(Some(key)), sha256Hex)) == Some(receipt)
  {
  }

  class AbstractNodeImageService {
    var receiptMaxAgeSeconds: int
    /** Whether a `NodeImageAuthorizor` is configured. */
    const hasAuthorizor: bool
    const repository: S3NodeImageRepository
    const staging: FileSystem
    const stagingDir: string
    var receipts: map<string, SolarNodeImageReceiptFuture>
    /** The session keys handed out under an authorizor, each with its expiry time (ms). */
    var authorizedKeys: map<string, int>
    /** The futures and trackers of the stored receipts: what a sweep may change. */
    ghost var Repr: set<object>

    constructor (hasAuthorizor: bool, repository: S3NodeImageRepository, staging: FileSystem, stagingDir: string)
      requires staging != repository.work
      ensures Valid() && receiptMaxAgeSeconds == DefaultReceiptMaxAgeSeconds
      ensures this.hasAuthorizor == hasAuthorizor && this.repository == repository
      ensures this.staging == staging && this.stagingDir == stagingDir
      ensures receipts == map[] && authorizedKeys == map[]
    {
      receiptMaxAgeSeconds := DefaultReceiptMaxAgeSeconds;
      this.hasAuthorizor := hasAuthorizor;
      this.repository := repository;
      this.staging := staging;
      this.stagingDir := stagingDir;
      receipts := map[];
      authorizedKeys := map[];
      Repr := {};
    }

    /**
     * The staging area and the repository's work area are separate file
     * trees, every stored receipt's future and tracker are in `Repr`, and
     * each receipt has a future and a tracker of its own.
     */
    ghost predicate Valid()
      reads this
    {
      staging != repository.work && this !in Repr && DistinctReceipts(receipts) &&
      forall k :: k in receipts ==> receipts[k].task in Repr && receipts[k].tracker in Repr
    }

    /** `activeSessionCount()`. */
    function ActiveSessionCount(): nat
      reads this
    {
      |authorizedKeys.Keys|
    }

    /**
     * `authorize(authorization, date)`: the fresh `key` is returned; under
     * an authorizor it is recorded for the maximum receipt age, and only if
     * the authorizor accepts (`rejection` is what it throws otherwise).
     */
    method Authorize(key: string, rejection: Option<Failure>, now: int) returns (r: Result<string>)
      modifies this`authorizedKeys
      ensures !hasAuthorizor ==> r == Ok(key) && authorizedKeys == old(authorizedKeys)
      ensures hasAuthorizor && rejection.Some? ==> r == Err(rejection.value) && authorizedKeys == old(authorizedKeys)
      ensures hasAuthorizor && rejection.None? ==>
                r == Ok(key) && authorizedKeys == old(authorizedKeys)[key := now + receiptMaxAgeSeconds * 1000]
    {
      if !hasAuthorizor {
        return Ok(key);
      }
      if rejection.Some? {
        return Err(rejection.value);
      }
      authorizedKeys := authorizedKeys[key := now + receiptMaxAgeSeconds * 1000];
      return Ok(key);
    }

    /** The gate of `createImage`: a key is required, and under an authorizor it must be a recorded one. */
    predicate MayCreate(key: Option<string>)
      reads this
    {
      key.Some? && (!hasAuthorizor || key.value in authorizedKeys)
    }

    /**
     * The staging loop of `createImage`: each resource with a non-empty
     * name is copied into `root`, in order, and its path collected.
     */
    method StageResources(root: string, resources: seq<ImageResource>) returns (paths: seq<string>)
      modifies staging
      ensures paths == StagedPaths(root, resources)
      ensures staging.files == Staged(old(staging.files), root, resources)
    {
      paths := [];
      var i := 0;
      while i < |resources|
        invariant 0 <= i <= |resources|
        invariant paths == StagedPaths(root, resources[..i])
        invariant staging.files == Staged(old(staging.files), root, resources[..i])
      {
        assert resources[..i + 1][..i] == resources[..i];
        var resource := resources[i];
        if resource.filename.Some? && resource.filename.value != [] {
          var dest := Resolve(root, resource.filename.value);
          paths := paths + [dest];
          staging.WriteFile(dest, resource.data);
        }
        i := i + 1;
      }
      assert resources[..i] == resources;
    }

    /**
     * `createImage(key, source, resources, options)`: after the gates, a
     * staging directory `node-image-<rootName>` is created, the resources
     * are staged, a tracker of 2 + 3 steps is made, and the task is
     * submitted; its receipt is stored under `taskId(receiptId, key)`.
     */
    method CreateImage(key: Option<string>, source: Option<SourceImage>, resources: seq<ImageResource>,
                       receiptId: string, outputId: string, rootName: string, rootFails: bool, now: int,
                       sha256Hex: TextDigest)
      returns (r: Result<SolarNodeImageReceiptFuture>, job: Option<ImageTask>)
      requires Valid()
      modifies this`receipts, this`Repr, staging
      ensures Valid()
      ensures !MayCreate(key) ==>
                r == Err(NotAuthorized) && job.None? && receipts == old(receipts) && staging.files == old(staging.files)
      ensures MayCreate(key) && source.None? ==>
                r == Err(NoSourceImage) && job.None? && receipts == old(receipts) && staging.files == old(staging.files)
      ensures MayCreate(key) && source.Some? && rootFails ==>
                r == Err(StagingIOFailure) && job.None? && receipts == old(receipts) && staging.files == old(staging.files)
      ensures MayCreate(key) && source.Some? && !rootFails ==>
                var root := Resolve(stagingDir, "node-image-" + rootName);
                r.Ok? && job.Some? && fresh(r.value) && fresh(job.value) && fresh(r.value.tracker) && fresh(r.value.task) &&
                receipts == old(receipts)[TaskId(receiptId, key.value, sha256Hex) := r.value] &&
                r.value.id == receiptId && r.value.baseImageId == source.value.id && r.value.createdDate == now &&
                r.value.task.outcome.Pending? && r.value.repository == Some(repository) &&
                r.value.tracker.Valid() && r.value.tracker.State() == Fresh(2 + SaveTaskStepCount) &&
                r.value.tracker.message.None? && !r.value.tracker.IsStarted() &&
                job.value.tracker == r.value.tracker && job.value.future == r.value.task &&
                job.value.key == key.value && job.value.source == source.value && job.value.root == root &&
                job.value.outputId == outputId && job.value.staging == staging && job.value.repository == repository &&
                job.value.resourceFiles == StagedPaths(root, resources) &&
                staging.files == Staged(old(staging.files), root, resources)
    {
      if !MayCreate(key) {
        return Err(NotAuthorized), None;
      }
      if source.None? {
        return Err(NoSourceImage), None;
      }
      if rootFails {
        return Err(StagingIOFailure), None;
      }
      var taskId := TaskId(receiptId, key.value, sha256Hex);
      var root := Resolve(stagingDir, "node-image-" + rootName);
      var resourceFiles := StageResources(root, resources);
      var tracker := new TaskStepTracker.Init(2 + SaveTaskStepCount);
      var future := new Task();
      var task := new ImageTask(key.value, source.value, root, resourceFiles, outputId, tracker, future, staging, repository);
      var receipt := new SolarNodeImageReceiptFuture(now, receiptId, source.value.id, future, tracker, Some(repository));
      DistinctReceiptsAdd(receipts, taskId, receipt);
      receipts := receipts[taskId := receipt];
      Repr := Repr + {future, tracker};
      return Ok(receipt), Some(task);
    }

    /**
     * `getReceipt(key, id)`: under an authorizor the key must be recorded
     * (a null key makes the concurrent map throw); the receipt is looked up
     * under `taskId(id, key)`, a null key reading as "null".
     */
    method GetReceipt(key: Option<string>, id: string, sha256Hex: TextDigest)
      returns (r: Result<Option<SolarNodeImageReceiptFuture>>)
      ensures hasAuthorizor && key.None? ==> r == Err(NullPointer)
      ensures hasAuthorizor && key.Some? && key.value !in authorizedKeys ==> r == Err(NotAuthorized)
      ensures !hasAuthorizor || (key.Some? && key.value in authorizedKeys) ==>
                r == Ok(Lookup(receipts, TaskId(id, Text(key), sha256Hex)))
    {
      if hasAuthorizor {
        if key.None? {
          return Err(NullPointer);
        }
        if key.value !in authorizedKeys {
          return Err(NotAuthorized);
        }
      }
      return Ok(Lookup(receipts, TaskId(id, Text(key), sha256Hex)));
    }

    /** The receipts the sweep at `now` removes. */
    function ExpiredIds(now: int): (ids: set<string>)
      reads this
      ensures ids <= receipts.Keys
    {
      ExpiredIn(receipts, receiptMaxAgeSeconds, now)
    }

    /**
     * `cleanExpiredReceipts()`: every expired receipt is cancelled if still
     * running, its image (if any) deleted from the repository, and removed;
     * the count of removed receipts is returned; expired session keys go too.
     */
    method CleanExpiredReceipts(now: int) returns (removed: int)
      requires Valid()
      modifies this`receipts, this`authorizedKeys, repository.bucket, Repr
      ensures Valid()
      ensures receipts == map k | k in old(receipts) && !Expired(old(receipts)[k].createdDate, receiptMaxAgeSeconds, now)
                                :: old(receipts)[k]
      ensures removed == |old(ExpiredIds(now))|
      ensures authorizedKeys == map k | k in old(authorizedKeys) && now < old(authorizedKeys)[k] :: old(authorizedKeys)[k]
      ensures forall k :: k in old(ExpiredIds(now)) ==> old(receipts)[k].task.IsDone()
      ensures forall k :: k in old(ExpiredIds(now)) ==>
                old(receipts)[k].task.outcome == Retired(old(receipts[k].task.outcome))
      ensures forall k :: k in receipts ==> receipts[k].task.outcome == old(receipts[k].task.outcome)
      ensures forall k :: k in old(ExpiredIds(now)) ==>
                View(old(receipts)[k].tracker) == RetiredView(old(View(receipts[k].tracker)), old(receipts[k].task.outcome))
      ensures forall k :: k in receipts ==> View(receipts[k].tracker) == old(View(receipts[k].tracker))
      ensures forall k :: k in old(ExpiredIds(now)) && old(receipts[k].task.outcome).Completed? ==>
                Deleted(old(receipts[k].task.outcome).image.id)
      ensures repository.bucket.objects ==
                old(repository.bucket.objects) - ImageKeys(CompletedImages(old(Outcomes(receipts)), old(ExpiredIds(now))))
    {
      removed := RemoveExpired(now);
      RemoveInvalidKeys(now);
    }

    /** The first loop of the sweep, on the service's receipts: the receipt half of `CleanExpiredReceipts`. */
    method RemoveExpired(now: int) returns (removed: int)
      requires Valid()
      modifies this`receipts, repository.bucket, Repr
      ensures Valid()
      ensures receipts == map k | k in old(receipts) && !Expired(old(receipts)[k].createdDate, receiptMaxAgeSeconds, now)
                                :: old(receipts)[k]
      ensures removed == |old(ExpiredIds(now))|
      ensures forall k :: k in old(ExpiredIds(now)) ==> old(receipts)[k].task.IsDone()
      ensures forall k :: k in old(ExpiredIds(now)) ==>
                old(receipts)[k].task.outcome == Retired(old(receipts[k].task.outcome))
      ensures forall k :: k in receipts ==> receipts[k].task.outcome == old(receipts[k].task.outcome)
      ensures forall k :: k in old(ExpiredIds(now)) ==>
                View(old(receipts)[k].tracker) == RetiredView(old(View(receipts[k].tracker)), old(receipts[k].task.outcome))
      ensures forall k :: k in receipts ==> View(receipts[k].tracker) == old(View(receipts[k].tracker))
      ensures forall k :: k in old(ExpiredIds(now)) && old(receipts[k].task.outcome).Completed? ==>
                Deleted(old(receipts[k].task.outcome).image.id)
      ensures repository.bucket.objects ==
                old(repository.bucket.objects) - ImageKeys(CompletedImages(old(Outcomes(receipts)), old(ExpiredIds(now))))
    {
      var remaining;
      remaining, removed := RetireExpired(receipts, receiptMaxAgeSeconds, now);
      Unexpired(receipts, receiptMaxAgeSeconds, now);
      DistinctReceiptsMinus(receipts, ExpiredIn(receipts, receiptMaxAgeSeconds, now));
      receipts := remaining;
    }

    /**
     * The first loop of the sweep: each expired receipt of `start` is
     * retired and dropped from the map, and counted.
     */
    method RetireExpired(start: map<string, SolarNodeImageReceiptFuture>, maxAge: int, now: int)
      returns (remaining: map<string, SolarNodeImageReceiptFuture>, removed: int)
      requires forall k :: k in start ==> start[k].task in Repr && start[k].tracker in Repr
      requires DistinctReceipts(start)
      modifies repository.bucket, Repr
      ensures remaining == start - ExpiredIn(start, maxAge, now)
      ensures removed == |ExpiredIn(start, maxAge, now)|
      ensures forall k :: k in ExpiredIn(start, maxAge, now) ==> start[k].task.IsDone()
      ensures forall k :: k in remaining ==> remaining[k].task.outcome == old(remaining[k].task.outcome)
      ensures forall k :: k in start ==>
                start[k].task.outcome == if k in ExpiredIn(start, maxAge, now) then Retired(old(start[k].task.outcome))
                                         else old(start[k].task.outcome)
      ensures forall k :: k in start ==>
                View(start[k].tracker) == if k in ExpiredIn(start, maxAge, now)
                                          then RetiredView(old(View(start[k].tracker)), old(start[k].task.outcome))
                                          else old(View(start[k].tracker))
      ensures forall k :: k in ExpiredIn(start, maxAge, now) && old(start[k].task.outcome).Completed? ==>
                Deleted(old(start[k].task.outcome).image.id)
      ensures repository.bucket.objects ==
                old(repository.bucket.objects) - ImageKeys(CompletedImages(old(Outcomes(start)), ExpiredIn(start, maxAge, now)))
    {
      ghost var before := Outcomes(start);
      ghost var views0 := Views(start);
      assert forall j :: j in start ==> before[j] == start[j].task.outcome && views0[j] == View(start[j].tracker);
      remaining, removed := SweepAll(start, maxAge, now);
      OutcomesSwept(start, before, ExpiredIn(start, maxAge, now));
      ViewsSwept(start, views0, before, ExpiredIn(start, maxAge, now));
      forall k | k in ExpiredIn(start, maxAge, now) && before[k].Completed?
        ensures Deleted(before[k].image.id)
      {
        CompletedImageKeys(repository.objectKeyPrefix, repository.compressionType,
                           before, ExpiredIn(start, maxAge, now), k);
      }
    }

    /** `RetireExpired` with the outcomes and trackers of `start` as maps: the loop and its setting up. */
    method SweepAll(start: map<string, SolarNodeImageReceiptFuture>, maxAge: int, now: int)
      returns (remaining: map<string, SolarNodeImageReceiptFuture>, removed: int)
      requires forall k :: k in start ==> start[k].task in Repr && start[k].tracker in Repr
      requires DistinctReceipts(start)
      modifies repository.bucket, Repr
      ensures remaining == start - ExpiredIn(start, maxAge, now)
      ensures removed == |ExpiredIn(start, maxAge, now)|
      ensures SweptOutcomes(Outcomes(start), old(Outcomes(start)), ExpiredIn(start, maxAge, now))
      ensures SweptViews(Views(start), old(Views(start)), old(Outcomes(start)), ExpiredIn(start, maxAge, now))
      ensures repository.bucket.objects ==
                old(repository.bucket.objects) - ImageKeys(CompletedImages(old(Outcomes(start)), ExpiredIn(start, maxAge, now)))
    {
      ghost var before := Outcomes(start);
      ghost var views0 := Views(start);
      ghost var bucket0 := repository.bucket.objects;
      assert CompletedImages(before, {}) == {};
      KeysOfNone(repository.objectKeyPrefix, repository.compressionType);
      remaining, removed := SweepReceipts(start, maxAge, now, before, views0, bucket0);
    }

    /** The loop of `RetireExpired`, over the keys of `start` in any order. */
    method SweepReceipts(start: map<string, SolarNodeImageReceiptFuture>, maxAge: int, now: int,
                         ghost before: map<string, Outcome>, ghost views0: map<string, TrackerView>,
                         ghost bucket0: map<string, seq<byte>>)
      returns (remaining: map<string, SolarNodeImageReceiptFuture>, removed: int)
      requires forall k :: k in start ==> start[k].task in Repr && start[k].tracker in Repr
      requires DistinctReceipts(start)
      requires Swept(start, before, {}, bucket0) && SweptViews(Views(start), views0, before, {})
      modifies repository.bucket, Repr
      ensures remaining == start - ExpiredIn(start, maxAge, now)
      ensures removed == |ExpiredIn(start, maxAge, now)|
      ensures Swept(start, before, ExpiredIn(start, maxAge, now), bucket0)
      ensures SweptViews(Views(start), views0, before, ExpiredIn(start, maxAge, now))
    {
      remaining := start;
      ghost var expired := ExpiredIn(start, maxAge, now);
      ghost var gone: set<string> := {};
      removed := 0;
      var pending := start.Keys;
      while pending != {}
        invariant pending <= start.Keys
        invariant gone == expired - pending && gone <= start.Keys
        invariant remaining == start - gone
        invariant removed == |gone|
        invariant Swept(start, before, gone, bucket0)
        invariant SweptViews(Views(start), views0, before, gone)
        decreases |pending|
      {
        var k :| k in pending;
        remaining, removed, gone := SweepOne(start, maxAge, now, k, before, views0, bucket0, expired, pending, gone, remaining, removed);
        pending := pending - {k};
      }
      assert gone == expired;
    }

    /** One key `k` of the sweep visited: retired, dropped and counted when it has expired. */
    method SweepOne(start: map<string, SolarNodeImageReceiptFuture>, maxAge: int, now: int, k: string,
                    ghost before: map<string, Outcome>, ghost views0: map<string, TrackerView>,
                    ghost bucket0: map<string, seq<byte>>, ghost expired: set<string>,
                    ghost pending: set<string>, ghost gone: set<string>,
                    remaining: map<string, SolarNodeImageReceiptFuture>, removed: int)
      returns (remaining': map<string, SolarNodeImageReceiptFuture>, removed': int, ghost gone': set<string>)
      requires k in pending && pending <= start.Keys && DistinctReceipts(start)
      requires expired == ExpiredIn(start, maxAge, now) && gone == expired - pending
      requires remaining == start - gone && removed == |gone|
      requires Swept(start, before, gone, bucket0) && SweptViews(Views(start), views0, before, gone)
      modifies start[k].task, start[k].tracker, repository.bucket
      ensures gone' == expired - (pending - {k}) && gone' <= start.Keys
      ensures remaining' == start - gone' && removed' == |gone'|
      ensures Swept(start, before, gone', bucket0) && SweptViews(Views(start), views0, before, gone')
    {
      SweepStep(expired, pending, gone, k);
      var hit := VisitIfExpired(start, maxAge, now, k, before, views0, gone, bucket0);
      remaining', removed', gone' := remaining, removed, gone;
      if hit {
        MapMinusStep(start, gone, k);
        remaining' := remaining - {k};
        gone' := gone + {k};
        removed' := removed + 1;
      }
    }

    /**
     * What the sweep has done so far to the receipts of `start` whose
     * outcomes were `before` and to the bucket that held `bucket0`: the
     * `gone` tasks are retired and every other task is as it was, and the
     * bucket has lost exactly the images of the completed `gone` ones.
     * (`SweptViews` says what it has done to their trackers.)
     */
    ghost predicate Swept(start: map<string, SolarNodeImageReceiptFuture>, before: map<string, Outcome>, gone: set<string>,
                          bucket0: map<string, seq<byte>>)
      reads this, repository, repository.bucket, set k | k in start :: start[k].task
    {
      SweptOutcomes(Outcomes(start), before, gone) &&
      repository.bucket.objects == bucket0 - ImageKeys(CompletedImages(before, gone))
    }

    /** One key of the sweep: the receipt is retired when it has expired, and `hit` says whether it had. */
    method VisitIfExpired(start: map<string, SolarNodeImageReceiptFuture>, maxAge: int, now: int, k: string,
                          ghost before: map<string, Outcome>, ghost views0: map<string, TrackerView>, ghost gone: set<string>,
                          ghost bucket0: map<string, seq<byte>>)
      returns (hit: bool)
      requires k in start && k !in gone && DistinctReceipts(start)
      requires gone <= start.Keys
      requires SweptOutcomes(Outcomes(start), before, gone)
      requires SweptViews(Views(start), views0, before, gone)
      requires repository.bucket.objects == bucket0 - ImageKeys(CompletedImages(before, gone))
      modifies start[k].task, start[k].tracker, repository.bucket
      ensures hit == Expired(start[k].createdDate, maxAge, now)
      ensures SweptOutcomes(Outcomes(start), before, if hit then gone + {k} else gone)
      ensures SweptViews(Views(start), views0, before, if hit then gone + {k} else gone)
      ensures repository.bucket.objects == bucket0 - ImageKeys(CompletedImages(before, if hit then gone + {k} else gone))
    {
      hit := Expired(start[k].createdDate, maxAge, now);
      if hit {
        OutcomesSwept(start, before, gone);
        ViewsSwept(start, views0, before, gone);
        Visit(start, k, before, views0, gone, bucket0);
        OutcomesSwept(start, before, gone + {k});
        ViewsSwept(start, views0, before, gone + {k});
      }
    }

    /** One expired receipt retired: the sweep so far extends to it. */
    method Visit(start: map<string, SolarNodeImageReceiptFuture>, k: string, ghost before: map<string, Outcome>,
                 ghost views0: map<string, TrackerView>, ghost gone: set<string>, ghost bucket0: map<string, seq<byte>>)
      requires k in start && k !in gone && DistinctReceipts(start)
      requires gone <= start.Keys
      requires forall j :: j in start ==> j in before && start[j].task.outcome == if j in gone then Retired(before[j]) else before[j]
      requires forall j :: j in start ==>
                 j in views0 && j in before &&
                 View(start[j].tracker) == if j in gone then RetiredView(views0[j], before[j]) else views0[j]
      requires repository.bucket.objects == bucket0 - ImageKeys(CompletedImages(before, gone))
      modifies start[k].task, start[k].tracker, repository.bucket
      ensures gone + {k} <= start.Keys
      ensures forall j :: j in start ==> j in before && start[j].task.outcome == if j in gone + {k} then Retired(before[j]) else before[j]
      ensures forall j :: j in start ==>
                j in views0 && j in before &&
                View(start[j].tracker) == if j in gone + {k} then RetiredView(views0[j], before[j]) else views0[j]
      ensures repository.bucket.objects == bucket0 - ImageKeys(CompletedImages(before, gone + {k}))
    {
      ghost var mid := repository.bucket.objects;
      assert start[k].task.outcome == before[k];
      Retire(start[k]);
      SweptBucketStep(repository.objectKeyPrefix, repository.compressionType,
                      bucket0, mid, repository.bucket.objects, before, gone, k);
      forall j | j in start
        ensures start[j].task.outcome == if j in gone + {k} then Retired(before[j]) else before[j]
        ensures View(start[j].tracker) == if j in gone + {k} then RetiredView(views0[j], before[j]) else views0[j]
      {
        if j != k {
          assert Apart(start, j, k);
        }
      }
      assert gone + {k} <= start.Keys;
    }

    /** The metadata and data keys of the images `ids`, as `delete` builds them. */
    function ImageKeys(ids: set<string>): (keys: set<string>)
      reads this, repository
    {
      KeysOf(repository.objectKeyPrefix, repository.compressionType, ids)
    }

    /** Neither object of the image `id` is left in the bucket. */
    predicate Deleted(id: string)
      reads this, repository, repository.bucket
    {
      MetaKey(repository.objectKeyPrefix, id) !in repository.bucket.objects &&
      DataKey(repository.objectKeyPrefix, repository.compressionType, id) !in repository.bucket.objects
    }

    /**
     * The sweep's treatment of one expired receipt: cancel it unless done,
     * then delete the image its task produced, if any. Asking for the image
     * writes the message of a cancelled or failed task to its tracker.
     */
    method Retire(receipt: SolarNodeImageReceiptFuture)
      modifies receipt.task, receipt.tracker, repository.bucket
      ensures receipt.task.IsDone()
      ensures receipt.task.outcome == Retired(old(receipt.task.outcome))
      ensures receipt.tracker.State() == old(receipt.tracker.State())
      ensures receipt.tracker.startedDate == old(receipt.tracker.startedDate)
      ensures receipt.tracker.completedDate == old(receipt.tracker.completedDate)
      ensures old(receipt.task.outcome).Completed? ==> receipt.tracker.message == old(receipt.tracker.message)
      ensures !old(receipt.task.outcome).Completed? ==> receipt.tracker.message == Reported(receipt.task.outcome).error.message
      ensures old(receipt.task.outcome).Completed? ==> Deleted(old(receipt.task.outcome).image.id)
      ensures repository.bucket.objects ==
                old(repository.bucket.objects) -
                ImageKeys(if old(receipt.task.outcome).Completed? then {old(receipt.task.outcome).image.id} else {})
    {
      if !receipt.IsDone() {
        var _ := receipt.Cancel();
      }
      var image := receipt.GetImageInfo();
      if image.Some? {
        KeysOfOne(repository.objectKeyPrefix, repository.compressionType, image.value.id);
        var _ := repository.Delete(image.value.id, None);
      } else {
        KeysOfNone(repository.objectKeyPrefix, repository.compressionType);
      }
    }

    /** The second loop of the sweep: session keys no longer valid at `now` are removed. */
    method RemoveInvalidKeys(now: int)
      modifies this`authorizedKeys
      ensures authorizedKeys == map k | k in old(authorizedKeys) && now < old(authorizedKeys)[k] :: old(authorizedKeys)[k]
    {
      var pending := authorizedKeys.Keys;
      var start := authorizedKeys;
      while pending != {}
        invariant pending <= start.Keys
        invariant authorizedKeys == map k | k in start && (k in pending || now < start[k]) :: start[k]
        decreases |pending|
      {
        var k :| k in pending;
        if !(now < start[k]) {
          authorizedKeys := authorizedKeys - {k};
        }
        pending := pending - {k};
      }
    }
  }
}
