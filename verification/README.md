# Tubely upload handlers in Dafny

This project models the two upload handlers of Tubely, a video-hosting
back end written in Go. It models them as pure functions from a request
and the results of their collaborators to an HTTP response and an
ordered trace of side effects.

- **`handlerUploadVideo`** does the following, in order:
  - authorises the caller and checks that they own the video;
  - accepts an MP4 form file and stages it in a temporary file;
  - rewrites it for fast start with ffmpeg;
  - classifies its first stream as landscape, portrait or other with
    ffprobe;
  - puts it into S3 under `<label>/<hex of 32 random bytes>.mp4`;
  - records the CloudFront URL on the video row.
- **`handlerUploadThumbnail`** does the following, in order:
  - authorises the caller;
  - accepts a JPEG or PNG;
  - checks that the caller owns the video;
  - writes the image under the assets root as `<unpadded base64url of 32
    random bytes><extension>`;
  - records the local asset URL on the video row.

The modules follow the program's structure:

- `Prelude`: `Option` and `byte`.
- `Hex`: lowercase base16, section 8 of RFC 4648, with its decoder.
- `Base64Url`: the URL-safe alphabet of section 5 of RFC 4648 without
  padding, with a strict decoder.
- `AspectRatio`: `getVideoAspectRatio`'s classifier and the label switch.
- `ObjectKeys`: the S3 key, the CloudFront URL, the asset path and the
  asset URL.
- `Effects`: responses, side effects, deferred calls and the files left
  on disk.
- `Platform`: configuration, the parsed request, the black-box
  collaborators, and the ordered list of steps with the status each
  failure answers.
- `VideoUpload` and `ThumbnailUpload`: the two handlers.

Each handler is written twice:

- as the branching function that follows the Go code;
- as a reference list of steps, each with whether it succeeds given that
  every earlier step did.

The lemmas connect the two. The response status is the one that belongs
to the first failing step. Nothing happens before authorisation. Each
file, object and row write happens exactly at the steps the lemmas name.

### Behaviour worth noting

- Both handlers refuse another user's video with 401 Unauthorized. A
  video row that cannot be fetched answers 400.
- The video handler leaves the ffmpeg output `<temp>.processing` on disk
  when ffprobe fails or the output cannot be opened. Its removal is
  deferred only after the open.
- The thumbnail handler never removes the file it created, even when the
  copy or the row update fails.
- Both handlers draw 32 random bytes. The video key's file name is 64
  hex digits, and the thumbnail name is 43 base64url characters.
- The thumbnail handler checks the media type before it fetches the
  video row.
- The video handler checks ownership before it reads the form file.

## Model

| member | source | states |
|---|---|---|
| Hex.Encode | handler_upload_video.go:116-118 | the hex text of n bytes has 2n characters, all lowercase hex digits |
| Hex.Decode | handler_upload_video.go:118 | the decoder partner accepts exactly the even-length lowercase-hex strings, giving half as many bytes |
| Hex.DecodeEncode | handler_upload_video.go:118 | decoding the hex text of any bytes gives those bytes back |
| Hex.KnownAnswers | handler_upload_video.go:118 | the bytes de ad 0f encode to "dead0f" and 00 7f ff to "007fff": lowercase digits, high nibble first |
| Hex.EncodeDecode | handler_upload_video.go:118 | every accepted hex string is the encoding of what it decodes to, so encoding is onto the canonical strings |
| Base64Url.Encode | handler_upload_thumbnail.go:78 | every output character is in the URL-safe alphabet (A-Z, a-z, 0-9, '-', '_') |
| Base64Url.EncodeLength | handler_upload_thumbnail.go:76-78 | the output has the unpadded encoded length (4n/3 rounded up), so 32 bytes give 43 characters |
| Base64Url.DecodeAcceptsCanonical | handler_upload_thumbnail.go:78 | the decoder accepts a string iff it is URL-safe, its length is not 1 mod 4, and its final partial group has zero unused bits |
| Base64Url.DecodeEncode | handler_upload_thumbnail.go:78 | decoding the encoding of any bytes gives those bytes back |
| Base64Url.KnownAnswerShort | handler_upload_thumbnail.go:78 | "f" encodes to "Zg" and "fo" to "Zm8" (the unpadded RFC 4648 vectors), and fb ff to "-_8", using the two URL-safe characters |
| Base64Url.KnownAnswerFoobar | handler_upload_thumbnail.go:78 | "foo" encodes to "Zm9v" and "foobar" to "Zm9vYmFy" |
| Base64Url.EncodeDecode | handler_upload_thumbnail.go:78 | every accepted string is the encoding of what it decodes to |
| AspectRatio.Classify | handler_upload_video.go:169-181 | the ratio name is one of 16:9, 9:16 and other, and it is 16:9 exactly when the first tolerance window holds |
| AspectRatio.Label | handler_upload_video.go:98-106 | the switch always yields one of the three key labels |
| AspectRatio.SixteenByNineExact | handler_upload_video.go:169-176 | the integer cross-multiplied test holds iff the height is nonzero and the real ratio width/height is strictly within 0.01 of 16/9 |
| AspectRatio.NineBySixteenExact | handler_upload_video.go:169-178 | the integer cross-multiplied test holds iff the real ratio is strictly within 0.01 of 9/16 |
| AspectRatio.WindowsDisjoint | handler_upload_video.go:174-181 | no width and height lie in both tolerance windows |
| AspectRatio.ClassifyOrderIrrelevant | handler_upload_video.go:174-181 | testing 9:16 before 16:9 gives the same answer, so the order of the switch cases does not matter |
| AspectRatio.LabelMatchesGeometry | handler_upload_video.go:169-181 | label landscape iff within 0.01 of 16/9, portrait iff within 0.01 of 9/16, other iff neither (a zero height included) |
| AspectRatio.BoundaryCases | handler_upload_video.go:169-181 | 1920x1080 is landscape, 1080x1920 portrait, a square other, and a zero height other |
| AspectRatio.CloseToSixteenByNine | handler_upload_video.go:171-176 | a ratio within 0.009 of 16/9 is classified 16:9 |
| AspectRatio.FarFromBoth | handler_upload_video.go:171-181 | a ratio at least 0.02 from both references is classified other |
| AspectRatio.AspectRatioOf | handler_upload_video.go:145-182 | the classifier fails exactly when ffprobe fails, and otherwise names one of the three ratios |
| ObjectKeys.VideoKey | handler_upload_video.go:116-119 | the key's length is the label's, plus twice the byte count, plus 5 |
| ObjectKeys.ParseVideoKeyRoundTrip | handler_upload_video.go:119 | a key built from a prefix without '/' parses back into that prefix and the same bytes |
| ObjectKeys.VideoKeyOfParse | handler_upload_video.go:119 | every key that parses is the key of its parts |
| ObjectKeys.UploadKeyShape | handler_upload_video.go:98-119 | an upload key is a label, '/', 64 lowercase hex digits that decode to the 32 random bytes, then ".mp4" (69 characters after the label) |
| ObjectKeys.VideoUrl | handler_upload_video.go:132 | the URL starts with "https://" and ends with the key |
| ObjectKeys.AssetName | handler_upload_thumbnail.go:76-80 | the name has the unpadded encoded length of the random bytes plus the extension's length, and it ends with the extension |
| ObjectKeys.JoinPathLayout | handler_upload_thumbnail.go:80 | the joined path is the directory, '/', then the name (or just the name for an empty directory), so it always ends with the name |
| ObjectKeys.AssetUrlLayout | handler_upload_thumbnail.go:92 | the URL is "http://localhost:", the port, then "/assets/" and the name |
| ObjectKeys.LastSegmentAfterSlash | handler_upload_thumbnail.go:80-92 | a name without '/' is the last segment of itself and of any path joined onto it |
| ObjectKeys.AssetNameShape | handler_upload_thumbnail.go:76-92 | the thumbnail name is 43 URL-safe characters decoding to the random bytes, then the extension, and it is the last segment of both the file path and the URL |
| Effects.Unwind | handler_upload_video.go:79-114 | deferred calls run in reverse order of registration |
| VideoUpload.ProcessedPath | handler_upload_video.go:184-185 | the ffmpeg output path is the input path followed by ".processing", 11 characters longer |
| VideoUpload.ProcessForFastStart | handler_upload_video.go:184-193 | there is an output path exactly when ffmpeg succeeds, and it is longer than the input path and starts with it |
| VideoUpload.UploadVideo | handler_upload_video.go:23-143 | the status is 200, 400, 401 or 500; it is 200 exactly when the body is the JSON row, and otherwise the body is an error message; any effect begins with creating the temporary file |
| VideoUpload.Staged | handler_upload_video.go:79-143 | once the temporary file exists, the status is 200, 400 or 500, 200 exactly with the JSON row and an error message otherwise |
| VideoUpload.Admit | handler_upload_video.go:23-78 | a request refused before staging answers 400 or 401 with an error message and has no effects; an admitted one has media type video/mp4 and the temporary file `os.CreateTemp` made |
| VideoUpload.EntryRefusal | handler_upload_video.go:26-78 | a request failing an entry step is refused with that step's status |
| VideoUpload.EntryPhase | handler_upload_video.go:23-78 | the entry steps decide the request: a failing one answers with its status and an error and writes nothing; otherwise the caller owns the row, the file is MP4, and the rest is the staged part |
| VideoUpload.StagedStatus | handler_upload_video.go:82-141 | after staging, the status is that of the first failing step, and 200 with the JSON row when none fails |
| VideoUpload.StagedBrackets | handler_upload_video.go:74-80 | once the temporary file exists, the effects begin by creating it and end with its deferred removal, at least two effects in all |
| VideoUpload.StagedMatchesTrace | handler_upload_video.go:74-141 | the staged part's effects are the reference trace for the step at which it stops |
| VideoUpload.StagedTraceFiles | handler_upload_video.go:74-114 | every trace creates the temporary file first and removes it last; the processed file is left behind iff the request stops at ffprobe or at opening the output |
| VideoUpload.StagedTraceWrites | handler_upload_video.go:121-141 | a trace puts only the given object, and only once the put step is passed; it updates only the given row, and only when every step succeeds |
| VideoUpload.StatusMapping | handler_upload_video.go:23-141 | the status is that of the first failing step (401 for token and ownership, 500 for the S3 put, 400 otherwise) with an error body; 200 with JSON iff no step fails |
| VideoUpload.AuthorisedBeforeEffects | handler_upload_video.go:23-80 | a request has no effects iff it stops at an entry step, and any effect implies the caller owns the row and sent an MP4 form file |
| VideoUpload.OwnerCheckedFirst | handler_upload_video.go:51-72 | another user's video gets 401 "This is not your video" with no effects, whatever form file, media type or temp-file outcome follows |
| VideoUpload.StagingCleanup | handler_upload_video.go:74-114 | temp file created first and removed last; files left behind are exactly {temp.processing} when ffprobe or the open fails, otherwise none |
| VideoUpload.UploadedObject | handler_upload_video.go:116-130 | any put is the processed file under the derived key with type video/mp4; a put happens iff the S3 step passes; 500 iff the put fails; a put implies ffprobe succeeded |
| VideoUpload.StagedWritesRecord | handler_upload_video.go:132-141 | the staged part writes the row iff every step succeeds |
| VideoUpload.StagedRecord | handler_upload_video.go:132-141 | on success the response is the written row and the database accepted it; a failed write answers 400 after the object was put |
| VideoUpload.PublishedFields | handler_upload_video.go:132-134 | publishing changes only the video URL, to https://distribution/key |
| VideoUpload.RecordUpdate | handler_upload_video.go:121-141 | the row is written iff no step fails, with only its video URL changed, and the response carries it; if the write fails the object is already in S3 and the status is 400 |
| VideoUpload.KeyFollowsProcessedFile | handler_upload_video.go:93-119 | the key parses back to the random bytes, and its label is landscape, portrait or other exactly as the first stream of the processed file lies within 0.01 of 16/9, within 0.01 of 9/16, or neither |
| VideoUpload.FullHdKeys | handler_upload_video.go:98-119 | a 1920x1080 first stream gives key "landscape/<hex>.mp4" and a 1080x1920 one "portrait/<hex>.mp4" |
| ThumbnailUpload.Admit | handler_upload_thumbnail.go:17-68 | a request refused before storing answers 400 or 401, never with the JSON row, with no body only at 401, and has no effects; an admitted one has the request's media type, image/jpeg or image/png |
| ThumbnailUpload.UploadThumbnail | handler_upload_thumbnail.go:17-102 | the status is 200, 400 or 401; it is 200 exactly when the body is the JSON row; a bare response is always 401; any effect begins with creating the asset file |
| ThumbnailUpload.Store | handler_upload_thumbnail.go:70-102 | once ownership is established, the status is 200 or 400, 200 exactly with the JSON row and an error message otherwise; any effect begins with creating the asset file |
| ThumbnailUpload.EntryRefusal | handler_upload_thumbnail.go:18-68 | a request failing an entry step is refused with that step's status, and it has no body iff that step is the ownership check |
| ThumbnailUpload.EntryPhase | handler_upload_thumbnail.go:17-68 | the entry steps decide the request: a failing one answers with its status and writes nothing; otherwise the caller owns the row, the image type is allowed, and the rest is the storing part |
| ThumbnailUpload.StorePhase | handler_upload_thumbnail.go:70-101 | storing answers 400 with an error at each failing step; no effects before the file exists, only the file after copy or update failures, and file plus row update with 200 and the row on success |
| ThumbnailUpload.StatusMapping | handler_upload_thumbnail.go:17-101 | the status is that of the first failing step (401 for token and ownership, 400 otherwise); no body iff refused for ownership; 200 with JSON iff no step fails |
| ThumbnailUpload.AuthorisedImageOnly | handler_upload_thumbnail.go:43-68 | any effect implies an allowed image type and a caller who owns the row |
| ThumbnailUpload.MediaTypeCheckedFirst | handler_upload_thumbnail.go:49-63 | a disallowed media type gets 400 "invalid file type" with no effects, whatever the database holds |
| ThumbnailUpload.OwnerMismatchBare | handler_upload_thumbnail.go:65-68 | another user's video gets exactly a bare 401 with no body and no effects |
| ThumbnailUpload.StoreFiles | handler_upload_thumbnail.go:70-99 | storing leaves the asset file behind iff it was created (success, copy failure or update failure); effects are only file creations and row updates |
| ThumbnailUpload.AssetFileLeft | handler_upload_thumbnail.go:70-99 | over the whole handler, the asset file is left on disk iff the request stops after `os.Create`, and "Could not get extention" answers a missing extension |
| ThumbnailUpload.AssetNaming | handler_upload_thumbnail.go:76-92 | the asset name is 43 characters decoding to the random bytes, then the first extension, and it is the last segment of the URL and of the path |
| ThumbnailUpload.StoreRecord | handler_upload_thumbnail.go:87-101 | storing writes the row iff every step succeeds, and then answers with it after creating the asset file |
| ThumbnailUpload.ThumbnailRecorded | handler_upload_thumbnail.go:76-101 | the row is written iff no step fails, with only the thumbnail URL changed, to http://localhost:port/assets/name for the name of the file written under the assets root |

## Left out

- ffmpeg and ffprobe are not run. Whether the fast-start rewrite succeeds
  is a predicate on the input path. What ffprobe reports is a function
  from path to either a failure or a stream list. A failed ffmpeg is
  taken to leave no output file.
- Decoding ffprobe's JSON is not modelled: a stream's missing width or
  height decodes to 0, and a parse error counts as a probe failure. An
  empty stream list makes the Go code panic when it indexes element 0.
  The model's stream list type excludes that case.
- AspectRatio.Classify: decides the two tolerance windows exactly over
  the rationals. The Go code compares float64 values, so a ratio within
  about 1e-16 of a window edge may be classified differently by the
  program.
- JWT validation, the database, S3, `os.CreateTemp`, `os.Create`,
  `os.Open`, `io.Copy` and `mime.ExtensionsByType` are black boxes in
  the model. Each is represented by the result it returns, and a failed
  call leaves no effect.
- The deferred `os.Remove` calls (handler_upload_video.go:79 and :113)
  are assumed to succeed, because the handler ignores their errors. A
  `RemovedFile` effect therefore means the file is gone. The
  files-left-behind results of VideoUpload.StagingCleanup,
  VideoUpload.StagedBrackets and VideoUpload.StagedTraceFiles rest on
  this assumption.
- `uuid.Parse`, `GetBearerToken`, `FormFile` and `mime.ParseMediaType`
  are represented by their parsed results.
- `crypto/rand` is a parameter holding the 32 bytes read. The error of
  `rand.Read` is ignored, as in the source.
- `http.MaxBytesReader` (1 GiB) is not modelled directly. A body over
  the limit can only make `r.FormFile` or `io.Copy` fail, which the
  handler answers with 400. The model takes both results as free inputs
  (`formFile` and `copyOk`), so it covers that case.
- `ParseMultipartForm`, whose error is ignored, is not modelled. Its
  failure shows up only as a failing `r.FormFile`.
- Closing files and bodies, logging and the `fmt.Println` trace are not
  modelled, because none of them changes a response or an effect.
- Concurrency is not modelled: each request runs alone against fixed
  collaborator results.
- `filepath.Join` is modelled only for a name without separators and a
  root that needs no cleaning.
- Base64Url.Decode: the decoder used as the encoder's partner is
  stricter than Go's `RawURLEncoding`. It rejects nonzero unused bits in
  a final partial group, which makes encoding and decoding exact
  inverses.
- ThumbnailUpload.ThumbnailRecorded: the last-segment clause is stated
  only for an extension without '/'. The extensions `mime` returns for
  image types have none, but the model does not assume so.
