# SolarNode image maker — a Dafny model of its core

The SolarNode image maker takes a base SolarNode disk image, copies it into
a staging directory, runs an image customisation tool (`guestfish`) with a
script and resources the caller supplies, and saves the result, compressed
with XZ, to a repository (a local directory or an S3 bucket). While this
happens a client holds a *receipt*. The receipt reports the task's progress
through a step tracker. When the task is done, the receipt gives a download
link for the customised image.

This project models that core:

- **the step tracker** and the streams that drive it:
  - `TaskStepTracker` and its input and output streams;
  - the digest-computing streams that hash and count bytes as they pass.
- **the stream cache**:
  - `FileSystemDataStreamCache`, with its per-key locks;
  - `CachingFileInputStream`, which tees a download into a temporary file and moves it into place at end of stream.
- **file naming for compression**: `MaxCompressorStreamFactory`'s level choice and its compressed and uncompressed file names.
- **the two repositories**:
  - the local-directory repository (`FileSystemNodeImageRepository`);
  - the S3 repository, with its listing, keys and three-step save;
  - the S3 image that loads its metadata lazily.
- **the service**:
  - `AbstractNodeImageService`: key authorisation, resource staging, the customisation task's steps, receipt lookup and expiry;
  - `GuestfsNodeImageService`: the guestfish process set-up and the capture of its output;
  - `GuestfishScriptSanitizer`: rejects local commands, pipes and `lcd`;
  - the receipt future.
- **the authorizor**: how `SolarNetworkNodeImageAuthorizor` finds the SNWS2 token and the signed date header, and how it maps the HTTP status.
- **sorting**: the case-insensitive sort of image infos by id.

The model uses these modules:

| Module | What it holds |
|---|---|
| `Common` | Shared string and sequence functions. |
| `Images` | Image metadata and abstract codecs. |
| `Streams` | JDK byte sources and sinks, and `MessageDigest`. |
| `DigestStreams` | The digest-computing input and output streams. |
| `StepTracker` | The step tracker. |
| `TrackerStreams` | The input and output streams that drive the step tracker. |
| `BufferedOutput` | The buffered writer of the cache file. |
| `FileStore` | The file system and the lock table. |
| `StreamCache` | The stream cache and the caching input stream. |
| `Compression` | The compression level and the compressed and uncompressed file names. |
| `SortById` | The sort of image infos by id. |
| `ScriptSanitizer` | The guestfish script sanitizer. |
| `Guestfish` | The guestfish service. |
| `FileSystemRepository` | The local-directory repository. |
| `S3Image` | S3 buckets and images. |
| `S3Repository` | The S3 repository. |
| `Receipts` | Receipts and the task future. |
| `NodeImageService` | The service itself. |
| `Authorizor` | The authorizor. |

Objects whose fields the Java code updates are classes in the model. Their methods have `modifies` clauses and state the whole new state:

- the tracker;
- the streams;
- the cache;
- the lock table;
- the repositories;
- the service.

Pure computations are functions. Each function has lemmas relating it to its inverse or to a reference definition:

- the file names;
- the keys;
- the sanitizer verdict;
- the header search;
- the progress arithmetic.

## Model

All source paths below are under `solarnode-image-maker/src/main/java/net/solarnetwork/nim/`.

| member | source | states |
|---|---|---|
| Common.LowByte | solarnode-image-maker/src/main/java/net/solarnetwork/nim/util/MessageDigestOutputStream.java:71-75 | `write(int)` keeps only the low eight bits: the byte equals the argument modulo 256, for negative arguments too |
| Common.WrapInt32 | solarnode-image-maker/src/main/java/net/solarnetwork/nim/service/impl/AbstractNodeImageService.java:296 | Java `int` arithmetic: the result lies in the 32-bit signed range and is congruent to the exact value modulo 2^32 |
| StepTracker.Fresh | solarnode-image-maker/src/main/java/net/solarnetwork/nim/util/TaskStepTracker.java:52-58 | a new tracker is well formed and reports 0 overall |
| StepTracker.Clamp | solarnode-image-maker/src/main/java/net/solarnetwork/nim/util/TaskStepTracker.java:107-117 | the stored step fraction always lies in [0, 1] and equals the given value whenever that already lies in [0, 1] |
| StepTracker.FinishSteps | solarnode-image-maker/src/main/java/net/solarnetwork/nim/util/TaskStepTracker.java:89-94 | completing steps never changes the step count |
| StepTracker.StepOperationsKeepWellFormed | solarnode-image-maker/src/main/java/net/solarnetwork/nim/util/TaskStepTracker.java:71-117 | `startNextStep`, `completeStep` and `setStepPercentComplete` keep the tracker well formed (current step between 0 and count + 1) and keep the step count |
| StepTracker.CompleteStepsFromFresh | solarnode-image-maker/src/main/java/net/solarnetwork/nim/util/TaskStepTracker.java:89-94 | k completions on a new n-step tracker leave the current step at min(k + 1, n + 1) (0 for k = 0) with fraction 0 |
| StepTracker.CompleteStepsFrom | solarnode-image-maker/src/main/java/net/solarnetwork/nim/util/TaskStepTracker.java:89-94 | k completions from step c advance to min(c + k, n + 1) and stop there |
| StepTracker.OverallAfterCompletedSteps | solarnode-image-maker/src/main/java/net/solarnetwork/nim/util/TaskStepTracker.java:124-131 | after k ≤ n completions the overall completion is exactly k / n |
| StepTracker.OverallAfterAllSteps | solarnode-image-maker/src/main/java/net/solarnetwork/nim/util/TaskStepTracker.java:89-131 | after n or more completions the overall completion is exactly 1 and a further `completeStep` changes nothing |
| StepTracker.CompleteStepSaturates | solarnode-image-maker/src/main/java/net/solarnetwork/nim/util/TaskStepTracker.java:89-94 | past the last step, `completeStep` is a no-op and the tracker reports 1 |
| StepTracker.SetStepPercentEffect | solarnode-image-maker/src/main/java/net/solarnetwork/nim/util/TaskStepTracker.java:107-117 | setting the fraction moves a not-yet-started tracker to step 1, clamps below 0 to 0 and above 1 to 1, and keeps values in [0, 1] |
| StepTracker.OverallAfterSetStepPercent | solarnode-image-maker/src/main/java/net/solarnetwork/nim/util/TaskStepTracker.java:107-131 | after setting the fraction, overall = (finished steps + clamped fraction) / step count |
| StepTracker.OverallInUnit | solarnode-image-maker/src/main/java/net/solarnetwork/nim/util/TaskStepTracker.java:124-131 | a well-formed tracker whose fraction lies in [0, 1] reports an overall value in [0, 1] |
| StepTracker.CompleteStepMonotone | solarnode-image-maker/src/main/java/net/solarnetwork/nim/util/TaskStepTracker.java:89-131 | completing a step never lowers the overall completion |
| StepTracker.StartNextStepCanExceedOne | solarnode-image-maker/src/main/java/net/solarnetwork/nim/util/TaskStepTracker.java:71-80 | `startNextStep` stores its fraction unclamped, so a fraction of 2 on a two-step tracker makes the overall value exceed 1 |
| StepTracker.TaskStepTracker.Init | solarnode-image-maker/src/main/java/net/solarnetwork/nim/util/TaskStepTracker.java:52-58 | a new tracker has the given step count, step 0, fraction 0, and no message or dates |
| StepTracker.TaskStepTracker.Create | solarnode-image-maker/src/main/java/net/solarnetwork/nim/util/TaskStepTracker.java:52-58 | a step count below 1 raises IllegalArgumentException "Step count must be > 0"; otherwise a new tracker |
| StepTracker.TaskStepTracker.StartNextStep | solarnode-image-maker/src/main/java/net/solarnetwork/nim/util/TaskStepTracker.java:71-80 | the state becomes the next step with the given fraction; the message and the dates are unchanged |
| StepTracker.TaskStepTracker.CompleteStep | solarnode-image-maker/src/main/java/net/solarnetwork/nim/util/TaskStepTracker.java:89-94 | the state advances by one step (saturating) with fraction 0; nothing else changes |
| StepTracker.TaskStepTracker.SetStepPercentComplete | solarnode-image-maker/src/main/java/net/solarnetwork/nim/util/TaskStepTracker.java:107-117 | the state takes the clamped fraction (starting step 1 if none had started); nothing else changes |
| StepTracker.TaskStepTracker.GetOverallPercentComplete | solarnode-image-maker/src/main/java/net/solarnetwork/nim/util/TaskStepTracker.java:124-131 | returns the overall completion of the state, in [0, 1] whenever the fraction is |
| StepTracker.TaskStepTracker.SetMessage | solarnode-image-maker/src/main/java/net/solarnetwork/nim/util/TaskStepTracker.java:148-150 | only the message changes |
| StepTracker.TaskStepTracker.Start | solarnode-image-maker/src/main/java/net/solarnetwork/nim/util/TaskStepTracker.java:173-175 | only the start date changes, to the current time |
| StepTracker.TaskStepTracker.Complete | solarnode-image-maker/src/main/java/net/solarnetwork/nim/util/TaskStepTracker.java:198-200 | only the completion date changes, to the current time |
| TrackerStreams.FractionOverNothing | solarnode-image-maker/src/main/java/net/solarnetwork/nim/util/TaskStepTrackerInputStream.java:50-52 | with an expected length of 0 any progress clamps to complete; with a negative one it clamps to 0 |
| TrackerStreams.FractionProgress | solarnode-image-maker/src/main/java/net/solarnetwork/nim/util/TaskStepTrackerInputStream.java:50-52 | the reported fraction never falls as bytes pass, is exactly count / expected up to the expected length, and is 1 from there on |
| TrackerStreams.FractionBounds | solarnode-image-maker/src/main/java/net/solarnetwork/nim/util/TaskStepTrackerInputStream.java:50-52 | the raw fraction is non-negative, at most 1 exactly when the count is within the expected length, and 1 at it |
| TrackerStreams.TaskStepTrackerInputStream.constructor | solarnode-image-maker/src/main/java/net/solarnetwork/nim/util/TaskStepTrackerInputStream.java:44-48 | a new stream has counted nothing and delivered nothing |
| TrackerStreams.TaskStepTrackerInputStream.Read | solarnode-image-maker/src/main/java/net/solarnetwork/nim/util/TaskStepTrackerInputStream.java:55-62 | returns the next byte or -1 at the end; a delivered byte is counted and the tracker's fraction becomes count / expected; at the end the tracker is unchanged |
| TrackerStreams.TaskStepTrackerInputStream.ReadInto | solarnode-image-maker/src/main/java/net/solarnetwork/nim/util/TaskStepTrackerInputStream.java:75-82 | returns the chunk length read; the bytes delivered are those placed in the buffer; the tracker advances only on a positive count |
| TrackerStreams.TaskStepTrackerInputStream.ReadAll | solarnode-image-maker/src/main/java/net/solarnetwork/nim/util/TaskStepTrackerInputStream.java:65-72 | as `ReadInto` over the whole buffer |
| TrackerStreams.TaskStepTrackerOutputStream.constructor | solarnode-image-maker/src/main/java/net/solarnetwork/nim/util/TaskStepTrackerOutputStream.java:48-53 | a new stream has counted nothing and forwarded nothing |
| TrackerStreams.TaskStepTrackerOutputStream.WriteRange | solarnode-image-maker/src/main/java/net/solarnetwork/nim/util/TaskStepTrackerOutputStream.java:56-60 | the range is forwarded and counted, and the tracker updated, exactly when the underlying write succeeds (a zero-length write still updates the tracker) |
| TrackerStreams.TaskStepTrackerOutputStream.WriteAll | solarnode-image-maker/src/main/java/net/solarnetwork/nim/util/TaskStepTrackerOutputStream.java:63-67 | as `WriteRange` over the whole buffer |
| TrackerStreams.TaskStepTrackerOutputStream.WriteByte | solarnode-image-maker/src/main/java/net/solarnetwork/nim/util/TaskStepTrackerOutputStream.java:70-74 | forwards the low byte of the argument, counts one byte and updates the tracker when the write succeeds |
| DigestStreams.MessageDigestInputStream.constructor | solarnode-image-maker/src/main/java/net/solarnetwork/nim/util/MessageDigestInputStream.java:53-57 | the digest and the counter start from what they already hold; nothing is delivered |
| DigestStreams.MessageDigestInputStream.Read | solarnode-image-maker/src/main/java/net/solarnetwork/nim/util/MessageDigestInputStream.java:60-67 | the byte returned is the next source byte, and exactly that byte is fed to the digest and counted; at the end -1 and no change |
| DigestStreams.MessageDigestInputStream.ReadInto | solarnode-image-maker/src/main/java/net/solarnetwork/nim/util/MessageDigestInputStream.java:80-87 | the bytes placed in the buffer are exactly the bytes appended to the digest input, and the counter grows by their number |
| DigestStreams.MessageDigestInputStream.ReadAll | solarnode-image-maker/src/main/java/net/solarnetwork/nim/util/MessageDigestInputStream.java:70-77 | as `ReadInto` over the whole buffer |
| DigestStreams.MessageDigestOutputStream.constructor | solarnode-image-maker/src/main/java/net/solarnetwork/nim/util/MessageDigestOutputStream.java:50-54 | nothing offered or forwarded yet |
| DigestStreams.MessageDigestOutputStream.WriteRange | solarnode-image-maker/src/main/java/net/solarnetwork/nim/util/MessageDigestOutputStream.java:57-61 | the range is always digested; it is counted and reaches the sink only when the write succeeds |
| DigestStreams.MessageDigestOutputStream.WriteAll | solarnode-image-maker/src/main/java/net/solarnetwork/nim/util/MessageDigestOutputStream.java:64-68 | as `WriteRange` over the whole buffer |
| DigestStreams.MessageDigestOutputStream.WriteByte | solarnode-image-maker/src/main/java/net/solarnetwork/nim/util/MessageDigestOutputStream.java:71-75 | digests and forwards the low byte of the argument |
| DigestStreams.MessageDigestOutputStream.DigestMatchesOutput | solarnode-image-maker/src/main/java/net/solarnetwork/nim/util/MessageDigestOutputStream.java:57-75 | while every write succeeded, the digest input is exactly what the sink received and the counter is its length |
| BufferedOutput.Write | solarnode-image-maker/src/main/java/net/solarnetwork/nim/util/CachingFileInputStream.java:71-72 | a buffered write accepts exactly the bytes given, only ever extends what reached the file, and keeps the pending bytes within the buffer capacity |
| BufferedOutput.Flush | solarnode-image-maker/src/main/java/net/solarnetwork/nim/util/CachingFileInputStream.java:71-72 | flushing puts every accepted byte in the file and leaves nothing pending |
| BufferedOutput.WriteAllAccepts | solarnode-image-maker/src/main/java/net/solarnetwork/nim/util/CachingFileInputStream.java:71-72 | writing a sequence of chunks accepts their concatenation |
| BufferedOutput.CacheFileFlushed | solarnode-image-maker/src/main/java/net/solarnetwork/nim/util/CachingFileInputStream.java:105-112 | with a flush before the move, the cache file holds the whole stream |
| BufferedOutput.SmallStreamLostAsWritten | solarnode-image-maker/src/main/java/net/solarnetwork/nim/util/CachingFileInputStream.java:105-112 | as written, without a flush, a three-byte stream leaves an empty cache file |
| BufferedOutput.AsWrittenIsPrefix | solarnode-image-maker/src/main/java/net/solarnetwork/nim/util/CachingFileInputStream.java:105-112 | as written, the cache file is a prefix of the stream missing at most one buffer's worth of bytes |
| StreamCache.CachingFileInputStream.constructor | solarnode-image-maker/src/main/java/net/solarnetwork/nim/util/CachingFileInputStream.java:69-76 | a new caching stream over an empty temporary file, not complete, holding the key's lock |
| StreamCache.CachingFileInputStream.Tee | solarnode-image-maker/src/main/java/net/solarnetwork/nim/util/CachingFileInputStream.java:79-103 | the bytes read are copied to the buffered branch, and the temporary file holds what the buffer has flushed |
| StreamCache.CachingFileInputStream.CompleteCacheFile | solarnode-image-maker/src/main/java/net/solarnetwork/nim/util/CachingFileInputStream.java:105-112 | flushes, then moves the temporary file to the cache file; completes and releases the lock even when the move fails; an unheld lock raises IllegalMonitorStateException |
| StreamCache.CachingFileInputStream.Read | solarnode-image-maker/src/main/java/net/solarnetwork/nim/util/CachingFileInputStream.java:79-85 | a byte read is teed to the cache branch; at end of stream the cache file is completed (again, if already complete): it then holds every byte the stream delivered, the lock is released even when the move fails, and the result is -1, IllegalMonitorStateException for an unheld lock, or the move's IOException |
| StreamCache.CachingFileInputStream.ReadInto | solarnode-image-maker/src/main/java/net/solarnetwork/nim/util/CachingFileInputStream.java:97-103 | as `Read` for a chunk: the buffer receives the next source bytes, which are teed, and the count is returned; at end of stream the cache file is completed, the lock released, and the result is -1 or the same failures as `Read` |
| StreamCache.CachingFileInputStream.Finalize | solarnode-image-maker/src/main/java/net/solarnetwork/nim/util/CachingFileInputStream.java:115-125 | an incomplete stream deletes its temporary file, and its `unlock()` throws IllegalMonitorStateException because the finaliser thread does not hold the lock, so the hold taken by `get` stays; a complete stream changes nothing |
| StreamCache.FileSystemDataStreamCache.constructor | solarnode-image-maker/src/main/java/net/solarnetwork/nim/service/impl/FileSystemDataStreamCache.java:52-55 | the cache keeps its directory, file system and lock table |
| StreamCache.FileSystemDataStreamCache.Get | solarnode-image-maker/src/main/java/net/solarnetwork/nim/service/impl/FileSystemDataStreamCache.java:58-85 | the key's lock is taken first; a cached file is opened and the lock released; on a miss the supplier's stream is teed into a new temporary file and the lock stays held; runtime failures release the lock, I/O failures creating the temporary file do not |
| FileStore.LockTable.Lock | solarnode-image-maker/src/main/java/net/solarnetwork/nim/service/impl/FileSystemDataStreamCache.java:58-62 | the key's lock exists from now on and its hold count rises by one |
| FileStore.LockTable.Unlock | solarnode-image-maker/src/main/java/net/solarnetwork/nim/service/impl/FileSystemDataStreamCache.java:73-74 | an unlock without a hold fails and changes nothing; otherwise the hold count falls by one |
| FileStore.LockUnlockRestores | solarnode-image-maker/src/main/java/net/solarnetwork/nim/service/impl/FileSystemDataStreamCache.java:58-76 | locking and then unlocking a key leaves every hold count as it was |
| Compression.XzLevel | solarnode-image-maker/src/main/java/net/solarnetwork/nim/util/MaxCompressorStreamFactory.java:87-98 | the XZ preset is exactly round(ratio × 9) when that is at least 1, and 1 otherwise |
| Compression.XzLevelValues | solarnode-image-maker/src/main/java/net/solarnetwork/nim/util/MaxCompressorStreamFactory.java:59-61 | the default ratio 1 gives preset 9; 0 gives 1; 0.5 gives 5; 2 gives 18 (not capped) |
| Compression.GetCompressedFilename | solarnode-image-maker/src/main/java/net/solarnetwork/nim/util/MaxCompressorStreamFactory.java:170-183 | for a type other than bzip2, gz, lzma or xz, the name gains "." and the type |
| Compression.StripExtension | solarnode-image-maker/src/main/java/net/solarnetwork/nim/util/MaxCompressorStreamFactory.java:144-148 | a name ending (ignoring case) in the extension loses exactly that suffix; any other name is unchanged |
| Compression.Extension | solarnode-image-maker/src/main/java/net/solarnetwork/nim/util/MaxCompressorStreamFactory.java:144-148 | the fallback extension is "." and the type name, ".null" for a null type |
| Compression.GetUncompressedFilename | solarnode-image-maker/src/main/java/net/solarnetwork/nim/util/MaxCompressorStreamFactory.java:119-149 | for a type other than bzip2, gz, lzma or xz and a name no format's suffix table claims (`ClaimedByTable`), the name loses its "." type suffix |
| Compression.StripAppendedExtension | solarnode-image-maker/src/main/java/net/solarnetwork/nim/util/MaxCompressorStreamFactory.java:144-148 | stripping a lower-case extension just appended gives the name back |
| Compression.UnknownTypeRoundTrip | solarnode-image-maker/src/main/java/net/solarnetwork/nim/util/MaxCompressorStreamFactory.java:119-183 | for an unknown lower-case type, the uncompressed name of the compressed name is the original |
| Compression.TarballName | solarnode-image-maker/src/main/java/net/solarnetwork/nim/util/MaxCompressorStreamFactory.java:104-107 | "package.tbz2" is mapped to "package.tar", with the bzip2 type and with a null type |
| Compression.NullTypeDetectsBzip2 | solarnode-image-maker/src/main/java/net/solarnetwork/nim/util/MaxCompressorStreamFactory.java:135-136 | with a null type, a name the bzip2 suffix table claims is mapped by that table |
| Compression.NullTypeStripsNullSuffix | solarnode-image-maker/src/main/java/net/solarnetwork/nim/util/MaxCompressorStreamFactory.java:144-148 | with a null type, a ".null" suffix is stripped |
| Compression.XzCompressesOnlyTar | solarnode-image-maker/src/main/java/net/solarnetwork/nim/util/MaxCompressorStreamFactory.java:170-183 | the XZ table rewrites only the ".tar" suffix |
| Compression.XzCompressAppends | solarnode-image-maker/src/main/java/net/solarnetwork/nim/util/MaxCompressorStreamFactory.java:170-183 | a name not ending in ".tar" gains ".xz" |
| Compression.XzUncompressStrips | solarnode-image-maker/src/main/java/net/solarnetwork/nim/util/MaxCompressorStreamFactory.java:119-149 | a non-empty name followed by ".xz" loses the ".xz" |
| Compression.XzRoundTrip | solarnode-image-maker/src/main/java/net/solarnetwork/nim/util/MaxCompressorStreamFactory.java:119-183 | XZ naming round-trips for every non-empty name not ending in ".tar" |
| SortById.Compare | solarnode-image-maker/src/main/java/net/solarnetwork/nim/domain/SolarNodeImageInfoSortById.java:39-50 | null ids sort first, two nulls compare equal, other ids compare ignoring case |
| SortById.CompareIgnoreCase | solarnode-image-maker/src/main/java/net/solarnetwork/nim/domain/SolarNodeImageInfoSortById.java:49 | against an empty string the result is the difference of the lengths |
| SortById.CompareIgnoreCaseAntisymmetric | solarnode-image-maker/src/main/java/net/solarnetwork/nim/domain/SolarNodeImageInfoSortById.java:49 | swapping the arguments negates the result |
| SortById.CompareIgnoreCaseZero | solarnode-image-maker/src/main/java/net/solarnetwork/nim/domain/SolarNodeImageInfoSortById.java:49 | two ids compare equal exactly when their lower-case forms are equal |
| SortById.CompareIgnoreCaseTransitive | solarnode-image-maker/src/main/java/net/solarnetwork/nim/domain/SolarNodeImageInfoSortById.java:49 | "less than" is transitive |
| SortById.CompareIgnoreCaseCongruent | solarnode-image-maker/src/main/java/net/solarnetwork/nim/domain/SolarNodeImageInfoSortById.java:49 | ids that compare equal compare alike against every third id |
| SortById.CompareEqualIds | solarnode-image-maker/src/main/java/net/solarnetwork/nim/domain/SolarNodeImageInfoSortById.java:39-50 | the comparator returns 0 exactly for two nulls or two ids equal ignoring case |
| SortById.CompareAntisymmetric | solarnode-image-maker/src/main/java/net/solarnetwork/nim/domain/SolarNodeImageInfoSortById.java:39-50 | the comparator is antisymmetric, nulls included |
| SortById.CompareTransitive | solarnode-image-maker/src/main/java/net/solarnetwork/nim/domain/SolarNodeImageInfoSortById.java:39-50 | the comparator is transitive, nulls included |
| ScriptSanitizer.TrimLeading | solarnode-image-maker/src/main/java/net/solarnetwork/nim/service/impl/GuestfishScriptSanitizer.java:45-50 | the patterns' leading `\s*` skips exactly the leading whitespace |
| ScriptSanitizer.TerminatorIndex | solarnode-image-maker/src/main/java/net/solarnetwork/nim/service/impl/GuestfishScriptSanitizer.java:70 | the first line terminator, or the end of the text |
| ScriptSanitizer.Lines | solarnode-image-maker/src/main/java/net/solarnetwork/nim/service/impl/GuestfishScriptSanitizer.java:70 | `readLine` yields lines that contain no terminator |
| ScriptSanitizer.LinesOfJoinLines | solarnode-image-maker/src/main/java/net/solarnetwork/nim/service/impl/GuestfishScriptSanitizer.java:70 | reading back a file written as newline-terminated lines yields those lines |
| ScriptSanitizer.FirstViolation | solarnode-image-maker/src/main/java/net/solarnetwork/nim/service/impl/GuestfishScriptSanitizer.java:70-85 | the first offending line, every earlier line being clean; none exactly when the script is clean |
| ScriptSanitizer.FirstViolationAt | solarnode-image-maker/src/main/java/net/solarnetwork/nim/service/impl/GuestfishScriptSanitizer.java:70-85 | an offending line preceded only by clean lines is the one reported |
| ScriptSanitizer.Validate | solarnode-image-maker/src/main/java/net/solarnetwork/nim/service/impl/GuestfishScriptSanitizer.java:66-90 | raises no error exactly when the file is readable and every line is clean; an error names the file and a 1-based line within the script, or -1 for an I/O error |
| ScriptSanitizer.TrimLeadingSpaces | solarnode-image-maker/src/main/java/net/solarnetwork/nim/service/impl/GuestfishScriptSanitizer.java:45-50 | whitespace in front of a command is skipped entirely |
| ScriptSanitizer.IndentedCommandsRejected | solarnode-image-maker/src/main/java/net/solarnetwork/nim/service/impl/GuestfishScriptSanitizer.java:45-55 | `!cmd` and `<!cmd` are local commands, and `lcd` without a pipe is a directory change, however indented |
| ScriptSanitizer.SecondLineLocalCommandRejected | solarnode-image-maker/src/main/java/net/solarnetwork/nim/service/impl/GuestfishScriptSanitizer.java:70-75 | a local command on line 2 after a clean line 1 is reported at line 2 with the local-command message |
| ScriptSanitizer.VerdictOfJoinedLines | solarnode-image-maker/src/main/java/net/solarnetwork/nim/service/impl/GuestfishScriptSanitizer.java:66-90 | validating a file written from lines is validating those lines |
| ScriptSanitizer.SecondLineVerdict | solarnode-image-maker/src/main/java/net/solarnetwork/nim/service/impl/GuestfishScriptSanitizer.java:70-85 | a violation on line 2 after a clean line 1 is reported at line 2 with its message |
| ScriptSanitizer.LcdOnlyAtLineStart | solarnode-image-maker/src/main/java/net/solarnetwork/nim/service/impl/GuestfishScriptSanitizer.java:50 | `lcd` is rejected only at the start of a line: "echo lcd" is clean |
| Guestfish.DropLeadingEmpty | solarnode-image-maker/src/main/java/net/solarnetwork/nim/service/impl/GuestfsNodeImageService.java:59-68 | leading empty lines are skipped: the result starts with a non-empty line |
| Guestfish.DropLeadingEmptySuffix | solarnode-image-maker/src/main/java/net/solarnetwork/nim/service/impl/GuestfsNodeImageService.java:59-68 | the kept lines are a suffix of the output, and only empty lines were dropped |
| Guestfish.CapturedSnoc | solarnode-image-maker/src/main/java/net/solarnetwork/nim/service/impl/GuestfsNodeImageService.java:59-68 | appending a line adds a newline separator only when something was captured before |
| Guestfish.CaptureOutput | solarnode-image-maker/src/main/java/net/solarnetwork/nim/service/impl/GuestfsNodeImageService.java:59-68 | the loop's buffer ends as the captured text of the lines |
| Guestfish.CapturedRecoversLines | solarnode-image-maker/src/main/java/net/solarnetwork/nim/service/impl/GuestfsNodeImageService.java:59-68 | splitting the captured text on newlines gives back the output lines after the leading empty ones |
| Guestfish.ParentOf | solarnode-image-maker/src/main/java/net/solarnetwork/nim/service/impl/GuestfsNodeImageService.java:84-91 | a path has a parent exactly when it contains a '/' |
| Guestfish.ParentOfResolved | solarnode-image-maker/src/main/java/net/solarnetwork/nim/service/impl/GuestfsNodeImageService.java:84-91 | the parent and file name of dir/name are dir and name |
| Guestfish.ScriptByFileName | solarnode-image-maker/src/main/java/net/solarnetwork/nim/service/impl/GuestfsNodeImageService.java:99-107 | a resource is the script exactly when its file name ends in ".fish" |
| Guestfish.ScriptIndex | solarnode-image-maker/src/main/java/net/solarnetwork/nim/service/impl/GuestfsNodeImageService.java:99-107 | the first ".fish" resource, or -1 when there is none |
| Guestfish.ParameterEnvironment | solarnode-image-maker/src/main/java/net/solarnetwork/nim/service/impl/GuestfsNodeImageService.java:93-97 | the environment gains exactly the parameters with non-null values |
| Guestfish.GuestfsNodeImageService.constructor | solarnode-image-maker/src/main/java/net/solarnetwork/nim/service/impl/GuestfsNodeImageService.java:51 | the guestfish binary defaults to "guestfish" |
| Guestfish.GuestfsNodeImageService.SetGuestfishBin | solarnode-image-maker/src/main/java/net/solarnetwork/nim/service/impl/GuestfsNodeImageService.java:125-127 | the binary becomes the given one |
| Guestfish.GuestfsNodeImageService.SetupProcess | solarnode-image-maker/src/main/java/net/solarnetwork/nim/service/impl/GuestfsNodeImageService.java:82-112 | a path without parent fails with NullPointerException and a missing script with IllegalArgumentException "No .fish resource provided"; otherwise the command is `bin --rw <file name> --inspector`, run in the image's directory with the first `.fish` resource as input and the parameters overriding the inherited environment |
| Guestfish.GuestfsNodeImageService.CreateImageInternal | solarnode-image-maker/src/main/java/net/solarnetwork/nim/service/impl/GuestfsNodeImageService.java:54-80 | set-up errors pass through; a non-zero exit raises an IOException with the captured output; success returns the image file and the captured output |
| FileSystemRepository.FirstNamed | solarnode-image-maker/src/main/java/net/solarnetwork/nim/service/impl/FileSystemNodeImageRepository.java:135-156 | finds the first file with the metadata file's exact name, or proves there is none |
| FileSystemRepository.FirstData | solarnode-image-maker/src/main/java/net/solarnetwork/nim/service/impl/FileSystemNodeImageRepository.java:135-156 | the first listed data file of the id, every earlier one not being one |
| FileSystemRepository.InfoPaths | solarnode-image-maker/src/main/java/net/solarnetwork/nim/service/impl/FileSystemNodeImageRepository.java:103-110 | exactly the listed paths whose file names end in ".json" |
| FileSystemRepository.ParseAll | solarnode-image-maker/src/main/java/net/solarnetwork/nim/service/impl/FileSystemNodeImageRepository.java:90-96 | every metadata file parses to the info at its position, or the call fails exactly when one of them is malformed |
| FileSystemRepository.FindAll | solarnode-image-maker/src/main/java/net/solarnetwork/nim/service/impl/FileSystemNodeImageRepository.java:103-110 | a listing failure becomes a runtime exception; otherwise the call succeeds exactly when every ".json" file parses, giving one info per file, parsed from it, in walk order |
| FileSystemRepository.FindAllReadsSavedInfo | solarnode-image-maker/src/main/java/net/solarnetwork/nim/service/impl/FileSystemNodeImageRepository.java:103-110 | an info saved as JSON is among those `findAll` returns |
| FileSystemRepository.FindOneInternal | solarnode-image-maker/src/main/java/net/solarnetwork/nim/service/impl/FileSystemNodeImageRepository.java:135-156 | nothing exactly when the id's metadata file or data file is missing; otherwise it fails exactly when the first `id.json` is malformed, and the image has that file's info and the first data file of the id as its resource |
| FileSystemRepository.FindOneCompressed | solarnode-image-maker/src/main/java/net/solarnetwork/nim/service/impl/FileSystemNodeImageRepository.java:127-133 | a listing failure becomes a runtime exception; a listing gives the image `findOneInternal` finds in it |
| FileSystemRepository.FindOneDecompresses | solarnode-image-maker/src/main/java/net/solarnetwork/nim/service/impl/FileSystemNodeImageRepository.java:113-124 | `findOne` finds what `findOneCompressed` finds, with the same info, and its content is the decompression of the stored content |
| FileSystemRepository.FileSystemNodeImageRepository.constructor | solarnode-image-maker/src/main/java/net/solarnetwork/nim/service/impl/FileSystemNodeImageRepository.java:74-81 | the compression type starts as "xz" |
| FileSystemRepository.FileSystemNodeImageRepository.Save | solarnode-image-maker/src/main/java/net/solarnetwork/nim/service/impl/FileSystemNodeImageRepository.java:159-242 | stores the compressed data and then the JSON metadata (the digests of both forms, no sizes); each failure raises a RuntimeException naming the file, and leaves what was already written |
| FileSystemRepository.FileSystemNodeImageRepository.WriteStored | solarnode-image-maker/src/main/java/net/solarnetwork/nim/service/impl/FileSystemNodeImageRepository.java:204-238 | the compressed data is written, then the metadata unless its write fails |
| FileSystemRepository.FindOneInternalPairs | solarnode-image-maker/src/main/java/net/solarnetwork/nim/service/impl/FileSystemNodeImageRepository.java:135-156 | with one metadata file and one data file for the id, `findOneInternal` returns the saved info backed by that data file |
| FileSystemRepository.PairedPaths | solarnode-image-maker/src/main/java/net/solarnetwork/nim/service/impl/FileSystemNodeImageRepository.java:135-156 | the name searches pick out that metadata file and that data file |
| FileSystemRepository.SavedWithoutFilenameIsFound | solarnode-image-maker/src/main/java/net/solarnetwork/nim/service/impl/FileSystemNodeImageRepository.java:160-166 | an image saved without a file name is stored as id.xz and `findOne` returns its info and its decompressed data |
| S3Image.FilenameFromObjectKey | solarnode-image-maker/src/main/java/net/solarnetwork/nim/service/impl/S3SolarNodeImage.java:116-122 | the text after the last '/' unless that slash is first or last, else the whole key |
| S3Image.FilenameOfNestedKey | solarnode-image-maker/src/main/java/net/solarnetwork/nim/service/impl/S3SolarNodeImage.java:116-122 | the file name of dir/name is name |
| S3Image.FilenameOfEdgeKeys | solarnode-image-maker/src/main/java/net/solarnetwork/nim/service/impl/S3SolarNodeImage.java:116-122 | keys with a leading or trailing slash only are returned whole |
| S3Image.S3SolarNodeImage.constructor | solarnode-image-maker/src/main/java/net/solarnetwork/nim/service/impl/S3SolarNodeImage.java:72-82 | nothing is loaded yet; the file name comes from the data key |
| S3Image.S3SolarNodeImage.FromObject | solarnode-image-maker/src/main/java/net/solarnetwork/nim/service/impl/S3SolarNodeImage.java:98-114 | the metadata object is parsed at once; malformed metadata raises a RuntimeException |
| S3Image.S3SolarNodeImage.GetInfo | solarnode-image-maker/src/main/java/net/solarnetwork/nim/service/impl/S3SolarNodeImage.java:129-140 | loaded info is returned as is; otherwise it is fetched and parsed, and kept only when that succeeds |
| S3Image.S3SolarNodeImage.GetSha256 | solarnode-image-maker/src/main/java/net/solarnetwork/nim/service/impl/S3SolarNodeImage.java:153-155 | the digest of the info already loaded; otherwise, as `getInfo()`, a missing metadata object raises the client's exception, malformed metadata a RuntimeException, and the decoded info is kept and its digest returned |
| S3Image.S3SolarNodeImage.GetContentLength | solarnode-image-maker/src/main/java/net/solarnetwork/nim/service/impl/S3SolarNodeImage.java:158-160 | the length of the info already loaded; otherwise, as `getInfo()`, a missing metadata object raises the client's exception, malformed metadata a RuntimeException, and the decoded info is kept and its length returned |
| S3Image.S3SolarNodeImage.GetUncompressedSha256 | solarnode-image-maker/src/main/java/net/solarnetwork/nim/service/impl/S3SolarNodeImage.java:163-165 | the uncompressed digest of the info already loaded; otherwise, as `getInfo()`, a missing metadata object raises the client's exception, malformed metadata a RuntimeException, and the decoded info is kept and its uncompressed digest returned |
| S3Image.S3SolarNodeImage.GetUncompressedContentLength | solarnode-image-maker/src/main/java/net/solarnetwork/nim/service/impl/S3SolarNodeImage.java:168-170 | the uncompressed length of the info already loaded; otherwise, as `getInfo()`, a missing metadata object raises the client's exception, malformed metadata a RuntimeException, and the decoded info is kept and its uncompressed length returned |
| S3Image.S3SolarNodeImage.DataSupplier | solarnode-image-maker/src/main/java/net/solarnetwork/nim/service/impl/S3SolarNodeImage.java:144-150 | the supplier yields the data object exactly when it exists |
| S3Image.S3SolarNodeImage.GetInputStream | solarnode-image-maker/src/main/java/net/solarnetwork/nim/service/impl/S3SolarNodeImage.java:144-150 | without a cache the data object is read directly; with one, through the cache: a hit reads the cached file, a miss tees the object and keeps the lock |
| S3Repository.AbsoluteObjectKey | solarnode-image-maker/src/main/java/net/solarnetwork/nim/service/impl/S3NodeImageRepository.java:118-124 | the key is prefixed with the configured prefix, if there is one |
| S3Repository.IdFromMetaKey | solarnode-image-maker/src/main/java/net/solarnetwork/nim/service/impl/S3NodeImageRepository.java:142-143 | the id is the file name of the key without ".json" |
| S3Repository.MetaKeyRoundTrip | solarnode-image-maker/src/main/java/net/solarnetwork/nim/service/impl/S3NodeImageRepository.java:139-143 | the id is recovered from its metadata key |
| S3Repository.ListedDataKeyMismatch | solarnode-image-maker/src/main/java/net/solarnetwork/nim/service/impl/S3NodeImageRepository.java:145-146 | the data key `findAll` gives a listed image lacks the ".img.xz" that `save` and `findOne` use |
| S3Repository.XzNameOfImage | solarnode-image-maker/src/main/java/net/solarnetwork/nim/service/impl/S3NodeImageRepository.java:193-195 | the stored data key is the image key with ".xz" appended |
| S3Repository.PageImages | solarnode-image-maker/src/main/java/net/solarnetwork/nim/service/impl/S3NodeImageRepository.java:137-147 | at most one image per listed key |
| S3Repository.PageImagesFromJsonKeys | solarnode-image-maker/src/main/java/net/solarnetwork/nim/service/impl/S3NodeImageRepository.java:137-147 | every listed image comes from a ".json" key, with the id taken from it and its data key |
| S3Repository.JsonKeysListed | solarnode-image-maker/src/main/java/net/solarnetwork/nim/service/impl/S3NodeImageRepository.java:137-147 | every ".json" key of a page yields an image |
| S3Repository.LastPage | solarnode-image-maker/src/main/java/net/solarnetwork/nim/service/impl/S3NodeImageRepository.java:135-149 | the first page that is not truncated, every earlier one being truncated |
| S3Repository.ListPage | solarnode-image-maker/src/main/java/net/solarnetwork/nim/service/impl/S3NodeImageRepository.java:137-147 | the loop collects the images of one page |
| S3Repository.S3NodeImageRepository.constructor | solarnode-image-maker/src/main/java/net/solarnetwork/nim/service/impl/S3NodeImageRepository.java:111-116 | the compression type starts as "xz" |
| S3Repository.S3NodeImageRepository.FindAll | solarnode-image-maker/src/main/java/net/solarnetwork/nim/service/impl/S3NodeImageRepository.java:127-152 | requests pages of up to 500 keys under the metadata prefix, each with the previous page's continuation token, up to the first untruncated page, and returns the images of those pages |
| S3Repository.S3NodeImageRepository.FindOne | solarnode-image-maker/src/main/java/net/solarnetwork/nim/service/impl/S3NodeImageRepository.java:155-171 | a missing metadata object raises the client's exception; otherwise the image parsed from it, with the compressed data key |
| S3Repository.S3NodeImageRepository.GetDownloadUrl | solarnode-image-maker/src/main/java/net/solarnetwork/nim/service/impl/S3NodeImageRepository.java:174-181 | a link to the data object in the bucket that expires one hour after now |
| S3Repository.S3NodeImageRepository.Delete | solarnode-image-maker/src/main/java/net/solarnetwork/nim/service/impl/S3NodeImageRepository.java:268-277 | removes both the metadata and the data object and nothing else; a failing request throws the client's exception and removes nothing |
| S3Repository.S3NodeImageRepository.Save | solarnode-image-maker/src/main/java/net/solarnetwork/nim/service/impl/S3NodeImageRepository.java:189-265 | compresses to a temporary file, uploads data then metadata, advancing the tracker one step each; a failed open in the first step or an unknown compressor stores nothing and leaves the tracker alone; the upload message is set only once the temporary file is reopened; I/O failures are wrapped in a RuntimeException naming the file or key, the client's exceptions pass through; the temporary file is always deleted; success returns the stored image |
| S3Repository.S3NodeImageRepository.SaveSteps | solarnode-image-maker/src/main/java/net/solarnetwork/nim/service/impl/S3NodeImageRepository.java:212-225 | when a stream of the first step cannot be opened, or there is no compressor for the configured type, nothing is stored, the tracker and its message are unchanged and the error names the temporary file; otherwise the three steps run |
| S3Repository.S3NodeImageRepository.CompressAndUpload | solarnode-image-maker/src/main/java/net/solarnetwork/nim/service/impl/S3NodeImageRepository.java:212-257 | the three steps: the bucket, the tracker and its message end as the fault dictates, a fault yields its error, and with no fault the stored image is read back with the saved info |
| S3Repository.S3NodeImageRepository.UploadAndReload | solarnode-image-maker/src/main/java/net/solarnetwork/nim/service/impl/S3NodeImageRepository.java:227-257 | the uploads leave the bucket and the tracker as the fault dictates, a fault yields its error, and with no fault the metadata just uploaded is read back |
| S3Repository.S3NodeImageRepository.Reload | solarnode-image-maker/src/main/java/net/solarnetwork/nim/service/impl/S3NodeImageRepository.java:254 | reading back the metadata object just uploaded yields an image with that id, its info and both object keys |
| S3Repository.S3NodeImageRepository.Uploads | solarnode-image-maker/src/main/java/net/solarnetwork/nim/service/impl/S3NodeImageRepository.java:227-257 | a temporary file that cannot be reopened stops before the message "Uploading customized image" is set; otherwise the message is set, the data upload precedes the metadata upload, and the first failure stops the sequence |
| S3Repository.S3NodeImageRepository.CompressStep | solarnode-image-maker/src/main/java/net/solarnetwork/nim/service/impl/S3NodeImageRepository.java:212-225 | once both streams are open (a failed open is `SaveSteps`'s), the temporary file holds the compressed data, the info carries both sizes and digests, and one step completes |
| S3Repository.S3NodeImageRepository.UploadStep | solarnode-image-maker/src/main/java/net/solarnetwork/nim/service/impl/S3NodeImageRepository.java:227-239 | a successful upload stores the object and completes a step; a failed one changes nothing |
| S3Repository.CompressThroughDigests | solarnode-image-maker/src/main/java/net/solarnetwork/nim/service/impl/S3NodeImageRepository.java:212-225 | feeding the input bytes to one `MessageDigest` and counter, compressing them, and feeding the output to another gives the compressed data and an info with both digests and both sizes |
| S3Repository.ReportRead | solarnode-image-maker/src/main/java/net/solarnetwork/nim/service/impl/S3NodeImageRepository.java:212-222 | reading the input reports progress through the tracker stream |
| S3Repository.SavedInfo | solarnode-image-maker/src/main/java/net/solarnetwork/nim/service/impl/S3NodeImageRepository.java:242-244 | the saved info has the image's id and both content lengths |
| S3Repository.ObjectsAfter | solarnode-image-maker/src/main/java/net/solarnetwork/nim/service/impl/S3NodeImageRepository.java:227-257 | a fault before the data object is stored leaves the bucket as it was; otherwise the data is stored, and the metadata too unless serialising or uploading it failed; other keys are untouched |
| S3Repository.SaveError | solarnode-image-maker/src/main/java/net/solarnetwork/nim/service/impl/S3NodeImageRepository.java:223-224 | the I/O failures become RuntimeExceptions naming the temporary file, the data key or the metadata key; the client's exceptions are reported unwrapped, since only IOException is caught |
| S3Repository.FinishStepAfterProgress | solarnode-image-maker/src/main/java/net/solarnetwork/nim/service/impl/S3NodeImageRepository.java:222 | completing the step after progress reports lands where completing it directly would |
| S3Repository.SaveCompletesThreeSteps | solarnode-image-maker/src/main/java/net/solarnetwork/nim/service/impl/S3NodeImageRepository.java:184-186 | a save without fault completes exactly the three steps it declares |
| Receipts.Reported | solarnode-image-maker/src/main/java/net/solarnetwork/nim/util/SolarNodeImageReceiptFuture.java:111-113 | `get()` yields the image, a CancellationException, or an ExecutionException wrapping the cause |
| Receipts.SolarNodeImageReceiptFuture.constructor | solarnode-image-maker/src/main/java/net/solarnetwork/nim/util/SolarNodeImageReceiptFuture.java:60-68 | the creation time is now; the ids, future and tracker are kept |
| Receipts.SolarNodeImageReceiptFuture.Cancel | solarnode-image-maker/src/main/java/net/solarnetwork/nim/util/SolarNodeImageReceiptFuture.java:86-88 | only a pending task is cancelled |
| Receipts.SolarNodeImageReceiptFuture.GetPercentComplete | solarnode-image-maker/src/main/java/net/solarnetwork/nim/util/SolarNodeImageReceiptFuture.java:127-129 | the tracker's overall completion, in [0, 1] while its fraction is |
| Receipts.SolarNodeImageReceiptFuture.GetImageInfo | solarnode-image-maker/src/main/java/net/solarnetwork/nim/util/SolarNodeImageReceiptFuture.java:132-141 | the image once the task succeeded; after a failure or cancellation nothing, with the exception's message written to the tracker |
| Receipts.SolarNodeImageReceiptFuture.GetDownloadUrl | solarnode-image-maker/src/main/java/net/solarnetwork/nim/util/SolarNodeImageReceiptFuture.java:149-158 | no link unless the task is done, not cancelled and fully complete; then the repository's link, or a RuntimeException wrapping the ExecutionException |
| NodeImageService.FailureMessage | solarnode-image-maker/src/main/java/net/solarnetwork/nim/service/impl/AbstractNodeImageService.java:233 | the tracker message of a failure starts with the exception's class name and ": " |
| NodeImageService.StagedPaths | solarnode-image-maker/src/main/java/net/solarnetwork/nim/service/impl/AbstractNodeImageService.java:176-185 | one path per named resource, in the staging root |
| NodeImageService.StagedContents | solarnode-image-maker/src/main/java/net/solarnetwork/nim/service/impl/AbstractNodeImageService.java:176-185 | staging adds exactly those paths, each holding the data of the last resource of that name |
| NodeImageService.DigestCheck | solarnode-image-maker/src/main/java/net/solarnetwork/nim/service/impl/AbstractNodeImageService.java:209-215 | the decompressed image passes exactly when its declared digest exists and equals the computed one ignoring case |
| NodeImageService.SetupVerdict | solarnode-image-maker/src/main/java/net/solarnetwork/nim/service/impl/AbstractNodeImageService.java:217-220 | customisation succeeds exactly when it reports success and an image file |
| NodeImageService.CustomizedProgress | solarnode-image-maker/src/main/java/net/solarnetwork/nim/service/impl/AbstractNodeImageService.java:200-220 | after decompression and customisation the tracker stands at step 3 of 5 |
| NodeImageService.SaveFromThirdStepCompletes | solarnode-image-maker/src/main/java/net/solarnetwork/nim/service/impl/AbstractNodeImageService.java:222-231 | a save without fault from there brings the overall completion to 1 |
| NodeImageService.ImageTask.constructor | solarnode-image-maker/src/main/java/net/solarnetwork/nim/service/impl/AbstractNodeImageService.java:169-173 | the image destination is root/<source id>.img |
| NodeImageService.ImageTask.Decompress | solarnode-image-maker/src/main/java/net/solarnetwork/nim/service/impl/AbstractNodeImageService.java:200-206 | the source is decompressed into the image destination with progress reported and a step completed; a failure changes nothing |
| NodeImageService.ImageTask.Customize | solarnode-image-maker/src/main/java/net/solarnetwork/nim/service/impl/AbstractNodeImageService.java:217-220 | the message becomes "Customizing image"; the tool's edits land; a step completes when the tool returned |
| NodeImageService.ImageTask.SaveOutput | solarnode-image-maker/src/main/java/net/solarnetwork/nim/service/impl/AbstractNodeImageService.java:222-231 | the message becomes "Compressing customized image"; an image file that cannot be sized fails and stores nothing; otherwise the bucket ends as `save` leaves it for the file's bytes under the output id (`SavedObjects`), a failing save yields its error (`SaveFailure`), and a save with no fault and faithful JSON succeeds; success says "Done" and, from step 3, reaches overall 1; only the output's two keys change |
| NodeImageService.ImageTask.Prepared | solarnode-image-maker/src/main/java/net/solarnetwork/nim/service/impl/AbstractNodeImageService.java:199-232 | the task reaches its save exactly when the source decompresses, the digest matches and the setup succeeds with an image file, whose path it gives |
| NodeImageService.ImageTask.Output | solarnode-image-maker/src/main/java/net/solarnetwork/nim/service/impl/AbstractNodeImageService.java:222-229 | the image handed to `save` carries the output id, the customised file's name and its own length as the expected length |
| NodeImageService.ImageTask.TaskStoresImage | solarnode-image-maker/src/main/java/net/solarnetwork/nim/service/impl/AbstractNodeImageService.java:222-231 | a task whose steps succeed and whose save meets no fault raises nothing, and the bucket holds the metadata of the image built from the customised file's bytes under the output id |
| NodeImageService.ImageTask.Conclude | solarnode-image-maker/src/main/java/net/solarnetwork/nim/service/impl/AbstractNodeImageService.java:234-252 | a failure sets the message and deletes the output's two objects unless the delete fails, which is ignored; the staging root is removed and the completion date set; the tracker's steps are untouched |
| NodeImageService.SaveFailure | solarnode-image-maker/src/main/java/net/solarnetwork/nim/service/impl/S3NodeImageRepository.java:189-265 | `save` fails exactly when the temporary file, the first step's streams, the compressor or an upload fails |
| NodeImageService.SavedImageStored | solarnode-image-maker/src/main/java/net/solarnetwork/nim/service/impl/S3NodeImageRepository.java:227-257 | a save with no failure stores the metadata, with both digests and lengths, under the metadata key and the compressed data under the data key |
| NodeImageService.FailedSaveKeepsObjects | solarnode-image-maker/src/main/java/net/solarnetwork/nim/service/impl/S3NodeImageRepository.java:189-239 | a save that fails before its uploads or on the data upload changes no object |
| NodeImageService.ImageTask.Call | solarnode-image-maker/src/main/java/net/solarnetwork/nim/service/impl/AbstractNodeImageService.java:196-255 | start and completion dates are set; the task fails with the first failure of its steps (`TaskFailure`) and the message "Class: message", and succeeds when there is none and the JSON is faithful; the bucket ends as the steps left it (`TaskObjects`), less the output's two objects after a failure whose delete succeeds; a failing delete is ignored; success says "Done" with overall 1; the staging root is always removed |
| NodeImageService.ImageTask.Steps | solarnode-image-maker/src/main/java/net/solarnetwork/nim/service/impl/AbstractNodeImageService.java:199-232 | the steps in order: decompress, check the digest, customise, save; the result is the first failure (`TaskFailure`), success when there is none and the JSON is faithful, and the bucket ends as `TaskObjects` says |
| NodeImageService.ImageTask.Run | solarnode-image-maker/src/main/java/net/solarnetwork/nim/service/impl/AbstractNodeImageService.java:196-255 | the submitted task ends failed with the task's first failure (`TaskFailure`) and its message, or completed with the output image when there is none and the JSON is faithful; the bucket ends as `Call` leaves it |
| NodeImageService.ExpiryAgreesForSmallAges | solarnode-image-maker/src/main/java/net/solarnetwork/nim/service/impl/AbstractNodeImageService.java:296 | for ages whose milliseconds fit an int, the expiry test as written and as intended agree: older than the maximum age |
| NodeImageService.ThirtyDayAgeExpiresAtOnce | solarnode-image-maker/src/main/java/net/solarnetwork/nim/service/impl/AbstractNodeImageService.java:296 | with a 30-day age, the product overflows to a negative value and a 1 ms old receipt counts as expired |
| NodeImageService.ExpiredIn | solarnode-image-maker/src/main/java/net/solarnetwork/nim/service/impl/AbstractNodeImageService.java:291-317 | exactly the receipts older than the maximum age |
| NodeImageService.Lookup | solarnode-image-maker/src/main/java/net/solarnetwork/nim/service/impl/AbstractNodeImageService.java:273-280 | the receipt stored under the task id, or null when none is |
| NodeImageService.ReceiptFoundUnderItsKey | solarnode-image-maker/src/main/java/net/solarnetwork/nim/service/impl/AbstractNodeImageService.java:258-280 | a receipt stored by `createImage` is found by `getReceipt` with the same key and id |
| NodeImageService.AbstractNodeImageService.constructor | solarnode-image-maker/src/main/java/net/solarnetwork/nim/service/impl/AbstractNodeImageService.java:85 | the maximum receipt age starts at 12 hours; no receipts or keys |
| NodeImageService.AbstractNodeImageService.Authorize | solarnode-image-maker/src/main/java/net/solarnetwork/nim/service/impl/AbstractNodeImageService.java:147-155 | without an authorizor the key is accepted as is; with one, a rejection passes through and an accepted key is recorded until now plus the maximum age |
| NodeImageService.AbstractNodeImageService.StageResources | solarnode-image-maker/src/main/java/net/solarnetwork/nim/service/impl/AbstractNodeImageService.java:176-185 | the loop stages each named resource into the root and returns their paths |
| NodeImageService.AbstractNodeImageService.CreateImage | solarnode-image-maker/src/main/java/net/solarnetwork/nim/service/impl/AbstractNodeImageService.java:158-270 | an unauthorised key, a missing source or a staging failure raise their exceptions and change nothing; otherwise the resources are staged, a five-step tracker is created, and a pending receipt is stored under the task id |
| NodeImageService.AbstractNodeImageService.GetReceipt | solarnode-image-maker/src/main/java/net/solarnetwork/nim/service/impl/AbstractNodeImageService.java:273-280 | a null key with an authorizor fails; an unknown key is not authorised; otherwise the receipt under the task id of the id and the key |
| NodeImageService.AbstractNodeImageService.ExpiredIds | solarnode-image-maker/src/main/java/net/solarnetwork/nim/service/impl/AbstractNodeImageService.java:291-317 | the expired receipts are among the stored ones |
| NodeImageService.AbstractNodeImageService.CleanExpiredReceipts | solarnode-image-maker/src/main/java/net/solarnetwork/nim/service/impl/AbstractNodeImageService.java:291-317 | keeps exactly the receipts that have not expired and returns the number removed; each expired task ends done, cancelled if it was pending and otherwise unchanged; its tracker keeps its progress and dates, and its message becomes the one `getImageInfo` writes (none for a cancelled task, the cause for a failed one, unchanged for a completed one); the tasks and trackers of the kept receipts are unchanged; the bucket loses exactly the two objects of each expired completed image; exactly the session keys still valid remain |
| NodeImageService.AbstractNodeImageService.RemoveExpired | solarnode-image-maker/src/main/java/net/solarnetwork/nim/service/impl/AbstractNodeImageService.java:292-307 | the first loop on the service's receipts: the same receipt, tracker and bucket effects as `CleanExpiredReceipts`, with the session keys untouched |
| NodeImageService.AbstractNodeImageService.RetireExpired | solarnode-image-maker/src/main/java/net/solarnetwork/nim/service/impl/AbstractNodeImageService.java:293-306 | the first loop: the receipts left are the unexpired ones and the count is the number expired; each expired task is retired and its tracker holds the retired message, every other task and tracker is unchanged; the bucket loses exactly the two objects of each expired completed image |
| NodeImageService.AbstractNodeImageService.SweepAll | solarnode-image-maker/src/main/java/net/solarnetwork/nim/service/impl/AbstractNodeImageService.java:293-306 | the loop from its start: the outcomes and tracker views of all receipts move from their values before the sweep to the retired ones exactly for the expired receipts |
| NodeImageService.AbstractNodeImageService.SweepReceipts | solarnode-image-maker/src/main/java/net/solarnetwork/nim/service/impl/AbstractNodeImageService.java:293-306 | the loop, over the receipts in any order, drops and counts exactly the expired receipts, retires exactly their tasks, sets exactly their trackers' messages and deletes exactly the objects of their completed images |
| NodeImageService.AbstractNodeImageService.SweepOne | solarnode-image-maker/src/main/java/net/solarnetwork/nim/service/impl/AbstractNodeImageService.java:294-305 | one iteration: the visited receipt is dropped and counted exactly when it has expired, and the record of retired tasks, tracker messages and deleted objects extends to it |
| NodeImageService.AbstractNodeImageService.VisitIfExpired | solarnode-image-maker/src/main/java/net/solarnetwork/nim/service/impl/AbstractNodeImageService.java:296-305 | the age test decides whether the visited receipt is retired, and only that receipt's task, tracker and image change |
| NodeImageService.AbstractNodeImageService.Visit | solarnode-image-maker/src/main/java/net/solarnetwork/nim/service/impl/AbstractNodeImageService.java:297-303 | retiring one expired receipt retires its task and sets its tracker's message alone, because distinct receipts have distinct futures and trackers, and removes only its image's objects |
| NodeImageService.AbstractNodeImageService.Retire | solarnode-image-maker/src/main/java/net/solarnetwork/nim/service/impl/AbstractNodeImageService.java:297-303 | the task ends done: cancelled if it was pending, otherwise unchanged; the tracker keeps its progress and dates; its message is kept for a completed task and is otherwise the message of the exception `get()` throws (`getImageInfo`, SolarNodeImageReceiptFuture.java); the bucket loses exactly the metadata and data objects of its image if it completed, and nothing otherwise (the delete is taken to succeed) |
| NodeImageService.RetiredMessage | solarnode-image-maker/src/main/java/net/solarnetwork/nim/util/SolarNodeImageReceiptFuture.java:132-141 | a retired task's tracker message: unchanged for a completed task, none for a pending or cancelled one (cancellation carries no message), the cause's description for a failed one |
| NodeImageService.RetiredView | solarnode-image-maker/src/main/java/net/solarnetwork/nim/service/impl/AbstractNodeImageService.java:300 | retiring changes only a tracker's message: its progress and both dates stay |
| NodeImageService.DistinctReceiptsMinus | solarnode-image-maker/src/main/java/net/solarnetwork/nim/service/impl/AbstractNodeImageService.java:304 | dropping receipts keeps their futures and trackers distinct |
| NodeImageService.DistinctReceiptsAdd | solarnode-image-maker/src/main/java/net/solarnetwork/nim/service/impl/AbstractNodeImageService.java:258-268 | storing a receipt with a fresh future and tracker keeps the receipts distinct |
| NodeImageService.Retired | solarnode-image-maker/src/main/java/net/solarnetwork/nim/service/impl/AbstractNodeImageService.java:297-299 | a retired task is never pending |
| NodeImageService.SweptBucketStep | solarnode-image-maker/src/main/java/net/solarnetwork/nim/service/impl/AbstractNodeImageService.java:300-303 | deleting one more image extends the record: the bucket lacks exactly the objects of the completed images retired so far |
| NodeImageService.AbstractNodeImageService.RemoveInvalidKeys | solarnode-image-maker/src/main/java/net/solarnetwork/nim/service/impl/AbstractNodeImageService.java:309-315 | exactly the authorised keys that are no longer valid are removed |
| Authorizor.UriHost | solarnode-image-maker/src/main/java/net/solarnetwork/nim/service/impl/SolarNetworkNodeImageAuthorizor.java:79-85 | ports 80 and 443 give the bare host; any other port is appended |
| Authorizor.UriHostSplits | solarnode-image-maker/src/main/java/net/solarnetwork/nim/service/impl/SolarNetworkNodeImageAuthorizor.java:79-85 | the host header splits at its last ':' into the host and the port |
| Authorizor.DefaultApiHostHeader | solarnode-image-maker/src/main/java/net/solarnetwork/nim/service/impl/SolarNetworkNodeImageAuthorizor.java:76-85 | the default API URI, which has no port, gives a host header ending in ":-1" |
| Authorizor.FirstMatch | solarnode-image-maker/src/main/java/net/solarnetwork/nim/service/impl/SolarNetworkNodeImageAuthorizor.java:65-66 | the leftmost position where the pattern matches |
| Authorizor.Find | solarnode-image-maker/src/main/java/net/solarnetwork/nim/service/impl/SolarNetworkNodeImageAuthorizor.java:65-66 | the captured group is non-empty and free of ','; no match exactly when the pattern matches nowhere |
| Authorizor.Token | solarnode-image-maker/src/main/java/net/solarnetwork/nim/service/impl/SolarNetworkNodeImageAuthorizor.java:114-118 | the credential is non-empty and free of ',' |
| Authorizor.Snws2Token | solarnode-image-maker/src/main/java/net/solarnetwork/nim/service/impl/SolarNetworkNodeImageAuthorizor.java:65-66 | a well-formed SNWS2 header yields its credential |
| Authorizor.Snws2SignedHeaders | solarnode-image-maker/src/main/java/net/solarnetwork/nim/service/impl/SolarNetworkNodeImageAuthorizor.java:65-66 | a well-formed SNWS2 header yields its signed header list |
| Authorizor.NoSignedHeadersLead | solarnode-image-maker/src/main/java/net/solarnetwork/nim/service/impl/SolarNetworkNodeImageAuthorizor.java:66 | the signed-headers pattern only matches right after a ',' |
| Authorizor.JavaSplit | solarnode-image-maker/src/main/java/net/solarnetwork/nim/service/impl/SolarNetworkNodeImageAuthorizor.java:137 | `String.split` on ';': no piece contains the separator |
| Authorizor.JavaSplitJoin | solarnode-image-maker/src/main/java/net/solarnetwork/nim/service/impl/SolarNetworkNodeImageAuthorizor.java:137 | splitting a joined list whose last name is non-empty gives back the names |
| Authorizor.BelowIrreflexive | solarnode-image-maker/src/main/java/net/solarnetwork/nim/service/impl/SolarNetworkNodeImageAuthorizor.java:138-141 | the string order `binarySearch` uses is irreflexive |
| Authorizor.BelowTotal | solarnode-image-maker/src/main/java/net/solarnetwork/nim/service/impl/SolarNetworkNodeImageAuthorizor.java:138-141 | the string order is total and asymmetric |
| Authorizor.BelowTransitive | solarnode-image-maker/src/main/java/net/solarnetwork/nim/service/impl/SolarNetworkNodeImageAuthorizor.java:138-141 | the string order is transitive |
| Authorizor.BinarySearch | solarnode-image-maker/src/main/java/net/solarnetwork/nim/service/impl/SolarNetworkNodeImageAuthorizor.java:138-141 | a non-negative result is an index of the key; a negative one encodes an insertion point |
| Authorizor.BinarySearchSorted | solarnode-image-maker/src/main/java/net/solarnetwork/nim/service/impl/SolarNetworkNodeImageAuthorizor.java:138-141 | on a sorted list, the key is found exactly when it is present |
| Authorizor.DateHeaderIndex | solarnode-image-maker/src/main/java/net/solarnetwork/nim/service/impl/SolarNetworkNodeImageAuthorizor.java:138-141 | the index of "x-sn-date" or of "date" among the names |
| Authorizor.DateHeaderFor | solarnode-image-maker/src/main/java/net/solarnetwork/nim/service/impl/SolarNetworkNodeImageAuthorizor.java:137-153 | "X-SN-Date" or "Date" only when that header is signed; otherwise the missing-date error |
| Authorizor.SignedDateHeaderName | solarnode-image-maker/src/main/java/net/solarnetwork/nim/service/impl/SolarNetworkNodeImageAuthorizor.java:129-155 | a missing header or a missing signed-header list each raise their error; otherwise the date header found among the signed headers |
| Authorizor.DateHeaderForSorted | solarnode-image-maker/src/main/java/net/solarnetwork/nim/service/impl/SolarNetworkNodeImageAuthorizor.java:137-153 | for a sorted list, X-SN-Date when it is signed, else Date when that is, else the error |
| Authorizor.SignedDateHeaderNameSorted | solarnode-image-maker/src/main/java/net/solarnetwork/nim/service/impl/SolarNetworkNodeImageAuthorizor.java:129-155 | the same, starting from the Authorization header |
| Authorizor.UnsortedHeadersMissXSnDate | solarnode-image-maker/src/main/java/net/solarnetwork/nim/service/impl/SolarNetworkNodeImageAuthorizor.java:137-141 | on an unsorted list the search can miss a signed "x-sn-date" and fall back to "Date" |
| Authorizor.StatusFailure | solarnode-image-maker/src/main/java/net/solarnetwork/nim/service/impl/SolarNetworkNodeImageAuthorizor.java:165-175 | 2xx is success; 401 and 403 are authorisation failures; other codes are I/O failures |
| Authorizor.Authorize | solarnode-image-maker/src/main/java/net/solarnetwork/nim/service/impl/SolarNetworkNodeImageAuthorizor.java:98-127 | the request carries the host, the signed date header, the date and the authorization; header errors and authorisation failures pass through; other HTTP errors become RuntimeExceptions; success returns the reply's details |
| Authorizor.WrappedIO | solarnode-image-maker/src/main/java/net/solarnetwork/nim/service/impl/SolarNetworkNodeImageAuthorizor.java:124-126 | an I/O failure is rethrown as a RuntimeException whose message starts with "java.io.IOException" |

## Left out

- I/O is modelled by parameters of the operations: files, S3 and HTTP. So are the clock, the external `guestfish` process and its exit, and the temporary-file names.
- Threads are not modelled: the executor, `synchronized` and concurrent access to the lock map. Everything is seen from one thread. The one exception is `CachingFileInputStream.finalize`, whose `unlock()` runs on the finaliser thread, which does not hold the lock.
- The `CachedResult` expiry of authorised keys is left out. A key is recorded with its expiry time, and the removal of invalid keys compares that time with now.
- SHA-256, hex encoding, JSON (Jackson) and the XZ, gzip and bzip2 codecs are abstract functions passed as parameters. Lemmas that need a faithful codec say so in their requires.
- Floating point is modelled as exact real arithmetic. NaN and infinities are not modelled.
- `CachingFileInputStream.close()`, stream closing in general and the timing of `finalize` are not modelled. `Finalize` models what the finaliser does when it runs.
- Partial writes and `transferTo` failures midway are not modelled. A write either succeeds or fails.
- Case-insensitive comparison uses ASCII case mapping only.
- Receipts.Describe: `Throwable.toString()` uses the fully qualified class name; the model uses the name it is given.
- StreamCache.FileSystemDataStreamCache.Get: the temporary file's fresh name is a parameter that the caller promises is unused.
- The process-start failure text and Jackson's exception texts are not modelled: only the exception class is kept.
- Date formatting for the HTTP date header is not modelled, and nor is the conversion of the JSON reply into a map of strings.
- The log line that includes the token is not modelled.
- `WebConstants` is not part of this model. Its `HEADER_DATE` value is taken as "X-SN-Date".
- `apiUri` parsing and `URISyntaxException` are not modelled.
- `DecompressingResource`, `CompressingResource` and `DecompressingSolarNodeImage` are not modelled. They appear only as the codec applied to a resource's contents.
- `FileSystemNodeImageRepository` has no `delete` and no tracker-driven save in the source. The model follows it.
- The plain setters are not modelled: compression type and ratio, receipt age, script sanitizer, and API URI.
- Paths ending in '/' are not modelled: path handling is string based.
- The exact Java class names of the file-system exceptions are not modelled: I/O failures share one `IOException` value.
- Java `byte` is modelled as an integer 0..255, not as a signed value.
- The XZ compressor stream's presets above 9 are not checked. The model computes the level only.
- NodeImageService.AbstractNodeImageService.CleanExpiredReceipts: the sweep takes every `delete` to succeed. In the source a failing `deleteObjects` throws out of the sweep: the current and every unvisited receipt stay, and the expired keys are not removed. That aborted sweep is not modelled.
- S3Repository.S3NodeImageRepository.Delete: a request that deletes some keys and fails on others (`MultiObjectDeleteException`) is not modelled. A failing request removes nothing.
- Images.ImageInfo: the two lengths are `Option<int>`, `None` where the writer recorded none. The source's getters return a primitive `long`, so such a length reads as 0 there. The model, its getters included, keeps `None` rather than 0.
- S3Repository.S3NodeImageRepository.FindAll: a failing `listObjectsV2` request is not modelled. The pages are given.
- FileSystemRepository.FindAll: the listing holds files only. `Files.walk` also yields the root and the directories under it, which the lookups pass over by name; a directory whose name ends in ".json" (which the source would fail to read) is not modelled. The same holds for `FindOneCompressed` and `FindOne`.
- Authorizor.Authorize: an `IOException` while connecting, before any status arrives, is not modelled. `Response` always carries a status.
- NodeImageService.ImageTask.Run: a receipt cancelled before the executor starts its task never runs `call()`. The model requires a pending future.
- S3Repository.S3NodeImageRepository.Save: a client exception during an upload is taken to arrive before the client reads any byte of that stream, so the progress of a partly read upload is not modelled.

## Findings

| source | as written | input that shows it | evidently intended | confidence | as-written member | corrected member |
|---|---|---|---|---|---|---|
| solarnode-image-maker/src/main/java/net/solarnetwork/nim/util/CachingFileInputStream.java:105-108 | the cache file is moved into place without flushing the `BufferedOutputStream` it was written through | a stream of 3 bytes: all three stay in the buffer, and the moved cache file is empty | flush, then move, so the cache file holds the whole stream | not executed | BufferedOutput.SmallStreamLostAsWritten | StreamCache.CachingFileInputStream.CompleteCacheFile |
| solarnode-image-maker/src/main/java/net/solarnetwork/nim/service/impl/AbstractNodeImageService.java:296 | `receiptMaxAgeSeconds * 1000` is computed in 32-bit `int` | a maximum age of 2592000 s (30 days): the product wraps to -1702967296, so a 1 ms old receipt is expired | compare the age in `long` milliseconds | not executed | NodeImageService.ThirtyDayAgeExpiresAtOnce | NodeImageService.AbstractNodeImageService.CleanExpiredReceipts |
