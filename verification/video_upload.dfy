/** `handlerUploadVideo`: authorise, stage the upload in a temporary file,
    rewrite it for fast start with ffmpeg, classify it with ffprobe, put it
    into S3 under a key that carries the classification, and record the
    CloudFront URL on the video row. */
module VideoUpload {
  import opened Prelude
  import opened Effects
  import opened Platform
  import opened AspectRatio
  import opened ObjectKeys
  import Hex

  const VideoMediaType := "video/mp4"

  /** The output path `processVideoForFastStart` gives ffmpeg. */
  function ProcessedPath(input: string): (output: string)
    ensures |output| == |input| + 11 && output[..|input|] == input
    ensures output[|input|..] == ".processing"
  {
    input + ".processing"
  }

  /** `processVideoForFastStart`: the processed file's path, or `None` when
      ffmpeg fails. */
  function ProcessForFastStart(env: Services, input: string): (output: Option<string>)
    ensures output.Some? <==> env.remuxOk(input)
    ensures output.Some? ==> |output.value| > |input| && output.value[..|input|] == input
  {
    if env.remuxOk(input) then Some(ProcessedPath(input)) else None
  }

  /** Where the checks before staging leave a request: answered already,
      or admitted with its video row, media type and temporary file. */
  datatype Admission = Refused(outcome: Outcome) | Admitted(video: Video, mediaType: string, temp: string)

  /** The handler up to the creation of the temporary file. */
  function Admit(req: Request, env: Services): (a: Admission)
    ensures a.Refused? ==> a.outcome.effects == [] && a.outcome.response.body.ErrorMessage?
    ensures a.Refused? ==> a.outcome.response.status == StatusBadRequest || a.outcome.response.status == StatusUnauthorized
    ensures a.Admitted? ==> a.mediaType == VideoMediaType && env.createTemp == Some(a.temp)
  {
    if req.videoId.None? then Refused(Reject(StatusBadRequest, "Invalid ID"))
    else if req.bearer.None? then Refused(Reject(StatusUnauthorized, "Couldn't find JWT"))
    else
      var user := env.validateJwt(req.bearer.value);
      if user.None? then Refused(Reject(StatusUnauthorized, "Couldn't validate JWT"))
      else
        var video := env.getVideo(req.videoId.value);
        if video.None? then Refused(Reject(StatusBadRequest, "Could not get video"))
        else if user.value != video.value.userId then Refused(Reject(StatusUnauthorized, "This is not your video"))
        else if !req.formFile then Refused(Reject(StatusBadRequest, "Unable to parse form file"))
        else if req.mediaType.None? then Refused(Reject(StatusBadRequest, "Invalid Content-Type"))
        else if req.mediaType.value != VideoMediaType then Refused(Reject(StatusBadRequest, "invalid file type"))
        else if env.createTemp.None? then Refused(Reject(StatusBadRequest, "Couldn't create temp file"))
        else Admitted(video.value, req.mediaType.value, env.createTemp.value)
  }

  /** The whole handler. The random bytes stand for what `rand.Read` fills
      in. */
  function UploadVideo(cfg: Config, req: Request, env: Services, random: seq<byte>): (o: Outcome)
    requires |random| == 32
    ensures o.response.status in {StatusOK, StatusBadRequest, StatusUnauthorized, StatusInternalServerError}
    ensures o.response.status == StatusOK <==> o.response.body.Json?
    ensures o.response.status != StatusOK ==> o.response.body.ErrorMessage?
    ensures o.effects != [] ==> env.createTemp.Some? && o.effects[0] == CreatedFile(env.createTemp.value)
  {
    match Admit(req, env)
    case Refused(outcome) => outcome
    case Admitted(video, mediaType, temp) => Staged(cfg, env, video, mediaType, temp, random)
  }

  /** The rest of the handler, once the temporary file exists; its removal
      is deferred at once, the processed file's only after it is opened. */
  function Staged(cfg: Config, env: Services, video: Video, mediaType: string, temp: string, random: seq<byte>): (o: Outcome)
    requires |random| == 32
    ensures o.response.status in {StatusOK, StatusBadRequest, StatusInternalServerError}
    ensures o.response.status == StatusOK <==> o.response.body.Json?
    ensures o.response.status != StatusOK ==> o.response.body.ErrorMessage?
  {
    var done := [CreatedFile(temp)];
    var deferred := [RemovedFile(temp)];
    if !env.copyOk then Exit(StatusBadRequest, ErrorMessage("Could not copy file"), done, deferred)
    else
      match ProcessForFastStart(env, temp)
      case None => Exit(StatusBadRequest, ErrorMessage("Could not process video for fast start"), done, deferred)
      case Some(processed) =>
        var done := done + [CreatedFile(processed)];
        match AspectRatioOf(env.probe(processed))
        case None => Exit(StatusBadRequest, ErrorMessage("Couldnt get aspect ratio"), done, deferred)
        case Some(ratio) =>
          var prefix := Label(ratio);
          if !env.openOk(processed) then Exit(StatusBadRequest, ErrorMessage("Could not open processed file"), done, deferred)
          else
            var deferred := deferred + [RemovedFile(processed)];
            var key := VideoKey(prefix, random);
            var put := ObjectPut(cfg.bucket, key, processed, mediaType);
            if !env.putOk(put) then Exit(StatusInternalServerError, ErrorMessage("Couldn't upload to S3"), done, deferred)
            else
              var updated := video.(videoUrl := Some(VideoUrl(cfg.distribution, key)));
              if !env.updateOk(updated) then Exit(StatusBadRequest, ErrorMessage("Couldn't update video"), done + [put], deferred)
              else Exit(StatusOK, Json(updated), done + [put, VideoUpdated(updated)], deferred)
  }

  // The steps of the handler in order, each with whether it succeeds given
  // that every earlier one did; the reference the lemmas below compare the
  // handler with.

  /** The steps that establish who is asking and that the video is theirs. */
  function AuthChecks(req: Request, env: Services): seq<Check> {
    [ Check(ParseId, req.videoId.Some?),
      Check(FindToken, req.bearer.Some?),
      Check(ValidateToken, Subject(req, env).Some?),
      Check(FetchVideo, Stored(req, env).Some?),
      Check(CheckOwner, Subject(req, env).Some? && Stored(req, env).Some?
                        && Subject(req, env).value == Stored(req, env).value.userId) ]
  }

  /** The steps that accept the upload, up to its temporary file. */
  function FormChecks(req: Request, env: Services): seq<Check> {
    [ Check(ReadFormFile, req.formFile),
      Check(ParseMediaType, req.mediaType.Some?),
      Check(CheckMediaType, req.mediaType == Some(VideoMediaType)),
      Check(CreateTemp, env.createTemp.Some?) ]
  }

  /** The steps before anything is written to disk. */
  function EntryChecks(req: Request, env: Services): seq<Check> {
    AuthChecks(req, env) + FormChecks(req, env)
  }

  /** The key the processed file is put under: the label of ffprobe's
      verdict on the processed path, then the hex of the random bytes. */
  function UploadKey(env: Services, temp: string, random: seq<byte>): string {
    VideoKey(Label(AspectRatioOf(env.probe(ProcessedPath(temp))).GetOr("")), random)
  }

  function PutOf(cfg: Config, env: Services, mediaType: string, temp: string, random: seq<byte>): Effect {
    ObjectPut(cfg.bucket, UploadKey(env, temp, random), ProcessedPath(temp), mediaType)
  }

  function Published(cfg: Config, env: Services, video: Video, temp: string, random: seq<byte>): Video {
    video.(videoUrl := Some(VideoUrl(cfg.distribution, UploadKey(env, temp, random))))
  }

  /** The steps once the temporary file exists. */
  function StagedChecks(cfg: Config, env: Services, video: Video, mediaType: string, temp: string, random: seq<byte>): seq<Check> {
    [ Check(CopyUpload, env.copyOk),
      Check(FastStart, env.remuxOk(temp)),
      Check(ProbeAspect, env.probe(ProcessedPath(temp)).Probed?),
      Check(OpenProcessed, env.openOk(ProcessedPath(temp))),
      Check(UploadObject, env.putOk(PutOf(cfg, env, mediaType, temp, random))),
      Check(UpdateRecord, env.updateOk(Published(cfg, env, video, temp, random))) ]
  }

  function VideoChecks(cfg: Config, req: Request, env: Services, random: seq<byte>): seq<Check> {
    var entry := EntryChecks(req, env);
    if FirstFailure(entry).Some? || Stored(req, env).None? || env.createTemp.None? then entry
    else entry + StagedChecks(cfg, env, Stored(req, env).value, VideoMediaType, env.createTemp.value, random)
  }

  /** The step at which a request stops, if it stops early. */
  function VideoFailure(cfg: Config, req: Request, env: Services, random: seq<byte>): Option<Stage> {
    FirstFailure(VideoChecks(cfg, req, env, random))
  }

  /** The steps before the temporary file exists. */
  predicate IsEntryStep(stage: Stage) {
    match stage
    case ParseId | FindToken | ValidateToken | FetchVideo | CheckOwner
       | ReadFormFile | ParseMediaType | CheckMediaType | CreateTemp => true
    case _ => false
  }

  /** The steps after it. */
  predicate IsStagedStep(stage: Stage) {
    match stage
    case CopyUpload | FastStart | ProbeAspect | OpenProcessed | UploadObject | UpdateRecord => true
    case _ => false
  }

  /** What the staged part of the handler is expected to leave in its trace,
      by the step at which it stops: the temporary file is created first
      and, deferred, removed last; the processed file exists from the
      fast-start step on but is removed only once it has been opened. */
  function StagedTrace(stop: Option<Stage>, temp: string, put: Effect, published: Video): seq<Effect> {
    var t, p := temp, ProcessedPath(temp);
    match stop
    case Some(CopyUpload) => [CreatedFile(t), RemovedFile(t)]
    case Some(FastStart) => [CreatedFile(t), RemovedFile(t)]
    case Some(ProbeAspect) => [CreatedFile(t), CreatedFile(p), RemovedFile(t)]
    case Some(OpenProcessed) => [CreatedFile(t), CreatedFile(p), RemovedFile(t)]
    case Some(UploadObject) => [CreatedFile(t), CreatedFile(p), RemovedFile(p), RemovedFile(t)]
    case Some(UpdateRecord) => [CreatedFile(t), CreatedFile(p), put, RemovedFile(p), RemovedFile(t)]
    case Some(_) => []
    case None => [CreatedFile(t), CreatedFile(p), put, VideoUpdated(published), RemovedFile(p), RemovedFile(t)]
  }

  // Phase lemmas: the handler against the two step lists.

  /** How far the entry steps get decides the first failure: the entry
      step that fails, or the first staged step that does. */
  lemma EntryFailure(cfg: Config, req: Request, env: Services, random: seq<byte>)
    ensures match FirstFailure(EntryChecks(req, env))
      case Some(stage) => VideoFailure(cfg, req, env, random) == Some(stage) && IsEntryStep(stage)
      case None =>
        && Stored(req, env).Some? && Subject(req, env) == Some(Stored(req, env).value.userId)
        && req.formFile && req.mediaType == Some(VideoMediaType) && env.createTemp.Some?
        && VideoFailure(cfg, req, env, random)
           == FirstFailure(StagedChecks(cfg, env, Stored(req, env).value, VideoMediaType, env.createTemp.value, random))
  {
    var entry := EntryChecks(req, env);
    FirstFailureShort(entry);
    if FirstFailure(entry).None? {
      FirstFailureAppend(entry, StagedChecks(cfg, env, Stored(req, env).value, VideoMediaType, env.createTemp.value, random));
    }
  }

  lemma AuthRefusal(req: Request, env: Services)
    ensures var a := Admit(req, env);
      FirstFailure(AuthChecks(req, env)).Some? ==>
        a.Refused? && a.outcome.response.status == StatusFor(FirstFailure(AuthChecks(req, env)).value)
  {
    FirstFailureShort(AuthChecks(req, env));
  }

  lemma FormRefusal(req: Request, env: Services)
    ensures var a := Admit(req, env);
      FirstFailure(AuthChecks(req, env)).None? && FirstFailure(FormChecks(req, env)).Some? ==>
        a.Refused? && a.outcome.response.status == StatusFor(FirstFailure(FormChecks(req, env)).value)
  {
    FirstFailureShort(AuthChecks(req, env));
    FirstFailureShort(FormChecks(req, env));
  }

  /** A request that fails an entry step is answered with that step's
      status and an error message, and leaves no trace. */
  lemma EntryRefusal(req: Request, env: Services)
    ensures var a := Admit(req, env);
      FirstFailure(EntryChecks(req, env)).Some? ==>
        a.Refused? && a.outcome.response.status == StatusFor(FirstFailure(EntryChecks(req, env)).value)
  {
    FirstFailureAppend(AuthChecks(req, env), FormChecks(req, env));
    AuthRefusal(req, env);
    FormRefusal(req, env);
  }

  /** One that passes them all is admitted with its row, media type and
      temporary file. */
  lemma EntryAdmission(req: Request, env: Services)
    ensures FirstFailure(EntryChecks(req, env)).None? ==>
        && Stored(req, env).Some? && env.createTemp.Some?
        && Admit(req, env) == Admitted(Stored(req, env).value, VideoMediaType, env.createTemp.value)
  {
    FirstFailureShort(EntryChecks(req, env));
  }

  lemma EntryPhase(cfg: Config, req: Request, env: Services, random: seq<byte>)
    requires |random| == 32
    ensures var o := UploadVideo(cfg, req, env, random);
      match FirstFailure(EntryChecks(req, env))
      case Some(stage) =>
        && o.response.status == StatusFor(stage) && o.response.body.ErrorMessage? && o.effects == []
        && VideoFailure(cfg, req, env, random) == Some(stage) && IsEntryStep(stage)
      case None =>
        && Stored(req, env).Some? && Subject(req, env) == Some(Stored(req, env).value.userId)
        && req.formFile && req.mediaType == Some(VideoMediaType) && env.createTemp.Some?
        && o == Staged(cfg, env, Stored(req, env).value, VideoMediaType, env.createTemp.value, random)
        && VideoFailure(cfg, req, env, random)
           == FirstFailure(StagedChecks(cfg, env, Stored(req, env).value, VideoMediaType, env.createTemp.value, random))
  {
    EntryFailure(cfg, req, env, random);
    EntryRefusal(req, env);
    EntryAdmission(req, env);
  }

  // What the staged part of the handler does, stage by stage.

  lemma StagedStops(cfg: Config, env: Services, video: Video, mediaType: string, temp: string, random: seq<byte>)
    ensures var r := FirstFailure(StagedChecks(cfg, env, video, mediaType, temp, random));
      r.Some? ==> IsStagedStep(r.value)
  {
    FirstFailureShort(StagedChecks(cfg, env, video, mediaType, temp, random));
  }

  lemma StagedBeforeProcessing(cfg: Config, env: Services, video: Video, mediaType: string, temp: string, random: seq<byte>)
    requires |random| == 32
    ensures var o, r := Staged(cfg, env, video, mediaType, temp, random), FirstFailure(StagedChecks(cfg, env, video, mediaType, temp, random));
      (r == Some(CopyUpload) || r == Some(FastStart)) ==>
        o.response.status == StatusBadRequest && o.response.body.ErrorMessage?
        && o.effects == [CreatedFile(temp), RemovedFile(temp)]
  {
    var checks := StagedChecks(cfg, env, video, mediaType, temp, random);
    FirstFailureShort(checks);
    if !env.copyOk {
    } else if !env.remuxOk(temp) {
      assert ProcessForFastStart(env, temp).None?;
    }
  }

  lemma StagedBeforeOpen(cfg: Config, env: Services, video: Video, mediaType: string, temp: string, random: seq<byte>)
    requires |random| == 32
    ensures var o, r := Staged(cfg, env, video, mediaType, temp, random), FirstFailure(StagedChecks(cfg, env, video, mediaType, temp, random));
      (r == Some(ProbeAspect) || r == Some(OpenProcessed)) ==>
        o.response.status == StatusBadRequest && o.response.body.ErrorMessage?
        && o.effects == [CreatedFile(temp), CreatedFile(ProcessedPath(temp)), RemovedFile(temp)]
  {
    var checks := StagedChecks(cfg, env, video, mediaType, temp, random);
    FirstFailureShort(checks);
    var r := FirstFailure(checks);
    var p := ProcessedPath(temp);
    if r == Some(ProbeAspect) {
      assert env.copyOk && env.remuxOk(temp) && !env.probe(p).Probed?;
      assert ProcessForFastStart(env, temp) == Some(p);
      assert AspectRatioOf(env.probe(p)).None?;
    } else if r == Some(OpenProcessed) {
      assert env.copyOk && env.remuxOk(temp) && env.probe(p).Probed? && !env.openOk(p);
      assert ProcessForFastStart(env, temp) == Some(p);
      assert AspectRatioOf(env.probe(p)).Some?;
    }
  }

  lemma StagedPutFailed(cfg: Config, env: Services, video: Video, mediaType: string, temp: string, random: seq<byte>)
    requires |random| == 32
    ensures var o, r := Staged(cfg, env, video, mediaType, temp, random), FirstFailure(StagedChecks(cfg, env, video, mediaType, temp, random));
      r == Some(UploadObject) ==>
        o.response == Response(StatusInternalServerError, ErrorMessage("Couldn't upload to S3"))
        && o.effects == [CreatedFile(temp), CreatedFile(ProcessedPath(temp)), RemovedFile(ProcessedPath(temp)), RemovedFile(temp)]
  {
    var checks := StagedChecks(cfg, env, video, mediaType, temp, random);
    FirstFailureShort(checks);
    if FirstFailure(checks) == Some(UploadObject) {
      var p := ProcessedPath(temp);
      assert env.copyOk && env.remuxOk(temp) && env.probe(p).Probed? && env.openOk(p);
      assert ProcessForFastStart(env, temp) == Some(p);
      assert AspectRatioOf(env.probe(p)).Some?;
    }
  }

  lemma StagedUpdateFailed(cfg: Config, env: Services, video: Video, mediaType: string, temp: string, random: seq<byte>)
    requires |random| == 32
    ensures var o, r := Staged(cfg, env, video, mediaType, temp, random), FirstFailure(StagedChecks(cfg, env, video, mediaType, temp, random));
      r == Some(UpdateRecord) ==>
        o.response == Response(StatusBadRequest, ErrorMessage("Couldn't update video"))
        && o.effects == [CreatedFile(temp), CreatedFile(ProcessedPath(temp)), PutOf(cfg, env, mediaType, temp, random),
                         RemovedFile(ProcessedPath(temp)), RemovedFile(temp)]
  {
    var checks := StagedChecks(cfg, env, video, mediaType, temp, random);
    FirstFailureShort(checks);
    if FirstFailure(checks) == Some(UpdateRecord) {
      var p := ProcessedPath(temp);
      assert env.copyOk && env.remuxOk(temp) && env.probe(p).Probed? && env.openOk(p);
      assert ProcessForFastStart(env, temp) == Some(p);
      assert AspectRatioOf(env.probe(p)).Some?;
    }
  }

  lemma StagedSucceeded(cfg: Config, env: Services, video: Video, mediaType: string, temp: string, random: seq<byte>)
    requires |random| == 32
    ensures var o, r := Staged(cfg, env, video, mediaType, temp, random), FirstFailure(StagedChecks(cfg, env, video, mediaType, temp, random));
      r == None ==>
        o.response == Response(StatusOK, Json(Published(cfg, env, video, temp, random)))
        && o.effects == [CreatedFile(temp), CreatedFile(ProcessedPath(temp)), PutOf(cfg, env, mediaType, temp, random),
                         VideoUpdated(Published(cfg, env, video, temp, random)), RemovedFile(ProcessedPath(temp)), RemovedFile(temp)]
  {
    var checks := StagedChecks(cfg, env, video, mediaType, temp, random);
    FirstFailureShort(checks);
    if FirstFailure(checks) == None {
      var p := ProcessedPath(temp);
      assert env.copyOk && env.remuxOk(temp) && env.probe(p).Probed? && env.openOk(p);
      assert ProcessForFastStart(env, temp) == Some(p);
      assert AspectRatioOf(env.probe(p)).Some?;
    }
  }

  lemma StagedStatus(cfg: Config, env: Services, video: Video, temp: string, random: seq<byte>)
    requires |random| == 32
    ensures var o, r := Staged(cfg, env, video, VideoMediaType, temp, random), FirstFailure(StagedChecks(cfg, env, video, VideoMediaType, temp, random));
      && (r.Some? ==> o.response.status == StatusFor(r.value) && o.response.body.ErrorMessage?)
      && (r.None? ==> o.response.status == StatusOK && o.response.body.Json?)
  {
    var r := FirstFailure(StagedChecks(cfg, env, video, VideoMediaType, temp, random));
    StagedStops(cfg, env, video, VideoMediaType, temp, random);
    if r == Some(CopyUpload) || r == Some(FastStart) {
      StagedBeforeProcessing(cfg, env, video, VideoMediaType, temp, random);
    } else if r == Some(ProbeAspect) || r == Some(OpenProcessed) {
      StagedBeforeOpen(cfg, env, video, VideoMediaType, temp, random);
    } else if r == Some(UploadObject) {
      StagedPutFailed(cfg, env, video, VideoMediaType, temp, random);
    } else if r == Some(UpdateRecord) {
      StagedUpdateFailed(cfg, env, video, VideoMediaType, temp, random);
    } else {
      StagedSucceeded(cfg, env, video, VideoMediaType, temp, random);
    }
  }

  lemma StagedMatchesTrace(cfg: Config, env: Services, video: Video, temp: string, random: seq<byte>)
    requires |random| == 32
    ensures Staged(cfg, env, video, VideoMediaType, temp, random).effects
         == StagedTrace(FirstFailure(StagedChecks(cfg, env, video, VideoMediaType, temp, random)), temp,
                        PutOf(cfg, env, VideoMediaType, temp, random), Published(cfg, env, video, temp, random))
  {
    var r := FirstFailure(StagedChecks(cfg, env, video, VideoMediaType, temp, random));
    StagedStops(cfg, env, video, VideoMediaType, temp, random);
    if r == Some(CopyUpload) || r == Some(FastStart) {
      StagedBeforeProcessing(cfg, env, video, VideoMediaType, temp, random);
    } else if r == Some(ProbeAspect) || r == Some(OpenProcessed) {
      StagedBeforeOpen(cfg, env, video, VideoMediaType, temp, random);
    } else if r == Some(UploadObject) {
      StagedPutFailed(cfg, env, video, VideoMediaType, temp, random);
    } else if r == Some(UpdateRecord) {
      StagedUpdateFailed(cfg, env, video, VideoMediaType, temp, random);
    } else {
      StagedSucceeded(cfg, env, video, VideoMediaType, temp, random);
    }
  }

  /** Once the temporary file exists, whatever happens next, the deferred
      removal of that file is the last effect. */
  lemma StagedBrackets(cfg: Config, env: Services, video: Video, temp: string, random: seq<byte>)
    requires |random| == 32
    ensures var o := Staged(cfg, env, video, VideoMediaType, temp, random);
      |o.effects| >= 2 && o.effects[0] == CreatedFile(temp) && o.effects[|o.effects| - 1] == RemovedFile(temp)
  {
    var r := FirstFailure(StagedChecks(cfg, env, video, VideoMediaType, temp, random));
    StagedStops(cfg, env, video, VideoMediaType, temp, random);
    StagedMatchesTrace(cfg, env, video, temp, random);
    StagedTraceFiles(r, temp, PutOf(cfg, env, VideoMediaType, temp, random), Published(cfg, env, video, temp, random));
  }

  /** The trace always starts by creating the temporary file and ends by
      removing it; the processed file is left behind exactly when the
      request stops at ffprobe or at opening the processed file. */
  lemma StagedTraceFiles(stop: Option<Stage>, temp: string, put: Effect, published: Video)
    requires stop.Some? ==> IsStagedStep(stop.value)
    requires put.ObjectPut?
    ensures var trace := StagedTrace(stop, temp, put, published);
      && |trace| >= 2 && trace[0] == CreatedFile(temp) && trace[|trace| - 1] == RemovedFile(temp)
      && FilesLeft(trace) == if stop == Some(ProbeAspect) || stop == Some(OpenProcessed) then {ProcessedPath(temp)} else {}
  {
    var trace := StagedTrace(stop, temp, put, published);
    var t, p := temp, ProcessedPath(temp);
    assert t != p by { assert |p| == |t| + 11; }
    FilesAfterShort({}, trace);
  }

  /** The trace puts only the given object and records only the given
      video: the object once the S3 step is passed, the video only when
      every step succeeds. */
  lemma StagedTraceWrites(stop: Option<Stage>, temp: string, put: Effect, published: Video)
    requires stop.Some? ==> IsStagedStep(stop.value)
    requires put.ObjectPut?
    ensures var trace := StagedTrace(stop, temp, put, published);
      && (forall e | e in trace && e.ObjectPut? :: e == put)
      && ((exists e :: e in trace && e.ObjectPut?) <==> stop.None? || stop == Some(UpdateRecord))
      && (forall e | e in trace && e.VideoUpdated? :: e == VideoUpdated(published))
      && ((exists e :: e in trace && e.VideoUpdated?) <==> stop.None?)
  {
    var trace := StagedTrace(stop, temp, put, published);
    if stop.None? || stop == Some(UpdateRecord) {
      assert trace[2] == put;
    }
    if stop.None? {
      assert trace[3] == VideoUpdated(published);
    }
  }

  /** Getting past ffprobe means the processed file was classified. */
  lemma StagedProbed(cfg: Config, env: Services, video: Video, temp: string, random: seq<byte>)
    ensures var r := FirstFailure(StagedChecks(cfg, env, video, VideoMediaType, temp, random));
      r.None? || r == Some(UploadObject) || r == Some(UpdateRecord) ==> env.probe(ProcessedPath(temp)).Probed?
  {
    FirstFailureShort(StagedChecks(cfg, env, video, VideoMediaType, temp, random));
  }

  // Properties of the whole handler.

  /** The response status is the one written at the step where the request
      stops: 401 for a missing or invalid token and for someone else's
      video, 500 for a failed S3 put, 400 for every other failure, 200
      only when every step succeeds. */
  lemma StatusMapping(cfg: Config, req: Request, env: Services, random: seq<byte>)
    requires |random| == 32
    ensures var o, r := UploadVideo(cfg, req, env, random), VideoFailure(cfg, req, env, random);
      && (r.Some? ==> o.response.status == StatusFor(r.value) && o.response.body.ErrorMessage?)
      && (r.None? ==> o.response.status == StatusOK && o.response.body.Json?)
      && (o.response.status == StatusOK <==> r.None?)
  {
    EntryPhase(cfg, req, env, random);
    if FirstFailure(EntryChecks(req, env)).None? {
      StagedStatus(cfg, env, Stored(req, env).value, env.createTemp.value, random);
    }
  }

  /** Nothing reaches the disk, S3 or the database unless the caller owns
      the video and sent an MP4 form file; and a request leaves no trace
      exactly when it stops before the temporary file exists. */
  lemma AuthorisedBeforeEffects(cfg: Config, req: Request, env: Services, random: seq<byte>)
    requires |random| == 32
    ensures var o, r := UploadVideo(cfg, req, env, random), VideoFailure(cfg, req, env, random);
      && (o.effects == [] <==> r.Some? && IsEntryStep(r.value))
      && (o.effects != [] ==>
            && Stored(req, env).Some? && Subject(req, env) == Some(Stored(req, env).value.userId)
            && req.formFile && req.mediaType == Some(VideoMediaType))
  {
    EntryPhase(cfg, req, env, random);
    if FirstFailure(EntryChecks(req, env)).None? {
      var video, temp := Stored(req, env).value, env.createTemp.value;
      StagedMatchesTrace(cfg, env, video, temp, random);
      StagedStops(cfg, env, video, VideoMediaType, temp, random);
      StagedTraceFiles(FirstFailure(StagedChecks(cfg, env, video, VideoMediaType, temp, random)), temp,
                       PutOf(cfg, env, VideoMediaType, temp, random), Published(cfg, env, video, temp, random));
    }
  }

  /** The ownership check comes before the form file and its media type are
      looked at: someone else's video is refused with 401 whatever was
      uploaded, and nothing is written. */
  lemma OwnerCheckedFirst(cfg: Config, req: Request, env: Services, random: seq<byte>,
                          formFile: bool, mediaType: Option<string>, createTemp: Option<string>)
    requires |random| == 32
    requires req.videoId.Some? && req.bearer.Some?
    requires Subject(req, env).Some? && Stored(req, env).Some?
    requires Subject(req, env).value != Stored(req, env).value.userId
    ensures var o := UploadVideo(cfg, req, env, random);
      && o.response == Response(StatusUnauthorized, ErrorMessage("This is not your video"))
      && o.effects == []
      && VideoFailure(cfg, req, env, random) == Some(CheckOwner)
      && UploadVideo(cfg, req.(formFile := formFile, mediaType := mediaType), env.(createTemp := createTemp), random) == o
  {
    EntryPhase(cfg, req, env, random);
    FirstFailureShort(EntryChecks(req, env));
  }

  /** Temporary files: the upload's temporary file is created first and
      removed last on every path that creates it; the ffmpeg output is left
      behind exactly when ffprobe or opening the output fails, because its
      removal is deferred only after the open. */
  lemma StagingCleanup(cfg: Config, req: Request, env: Services, random: seq<byte>)
    requires |random| == 32
    ensures var o, r, temp := UploadVideo(cfg, req, env, random), VideoFailure(cfg, req, env, random), env.createTemp.GetOr("");
      && (o.effects != [] ==> o.effects[0] == CreatedFile(temp) && o.effects[|o.effects| - 1] == RemovedFile(temp))
      && FilesLeft(o.effects) == if r == Some(ProbeAspect) || r == Some(OpenProcessed) then {ProcessedPath(temp)} else {}
  {
    EntryPhase(cfg, req, env, random);
    if FirstFailure(EntryChecks(req, env)).None? {
      var video, temp := Stored(req, env).value, env.createTemp.value;
      StagedMatchesTrace(cfg, env, video, temp, random);
      StagedStops(cfg, env, video, VideoMediaType, temp, random);
      StagedTraceFiles(FirstFailure(StagedChecks(cfg, env, video, VideoMediaType, temp, random)), temp,
                       PutOf(cfg, env, VideoMediaType, temp, random), Published(cfg, env, video, temp, random));
    }
  }

  /** At most one object is put, always the ffmpeg output under the derived
      key with the checked media type; it is put exactly when the request
      gets past the S3 step, and a 500 means the put itself failed. */
  lemma UploadedObject(cfg: Config, req: Request, env: Services, random: seq<byte>)
    requires |random| == 32
    ensures var o, r, temp := UploadVideo(cfg, req, env, random), VideoFailure(cfg, req, env, random), env.createTemp.GetOr("");
      && (forall e | e in o.effects && e.ObjectPut? ::
            e == ObjectPut(cfg.bucket, UploadKey(env, temp, random), ProcessedPath(temp), VideoMediaType))
      && ((exists e :: e in o.effects && e.ObjectPut?) <==> r.None? || r == Some(UpdateRecord))
      && (o.response.status == StatusInternalServerError <==> r == Some(UploadObject))
      && (r.None? || r == Some(UpdateRecord) ==> env.probe(ProcessedPath(temp)).Probed?)
  {
    EntryPhase(cfg, req, env, random);
    StatusMapping(cfg, req, env, random);
    if FirstFailure(EntryChecks(req, env)).None? {
      var video, temp := Stored(req, env).value, env.createTemp.value;
      var r := FirstFailure(StagedChecks(cfg, env, video, VideoMediaType, temp, random));
      StagedMatchesTrace(cfg, env, video, temp, random);
      StagedStops(cfg, env, video, VideoMediaType, temp, random);
      StagedProbed(cfg, env, video, temp, random);
      StagedTraceWrites(r, temp, PutOf(cfg, env, VideoMediaType, temp, random), Published(cfg, env, video, temp, random));
    }
  }

  /** The staged part writes the row exactly when every step succeeds. */
  lemma StagedWritesRecord(cfg: Config, env: Services, video: Video, temp: string, random: seq<byte>)
    requires |random| == 32
    ensures var o, r := Staged(cfg, env, video, VideoMediaType, temp, random), FirstFailure(StagedChecks(cfg, env, video, VideoMediaType, temp, random));
      (exists e :: e in o.effects && e.VideoUpdated?) <==> r.None?
  {
    var r := FirstFailure(StagedChecks(cfg, env, video, VideoMediaType, temp, random));
    StagedMatchesTrace(cfg, env, video, temp, random);
    StagedStops(cfg, env, video, VideoMediaType, temp, random);
    StagedTraceWrites(r, temp, PutOf(cfg, env, VideoMediaType, temp, random), Published(cfg, env, video, temp, random));
  }

  /** On success it answers with the row it wrote, which the database
      accepted; a failed write follows the put. */
  lemma StagedRecord(cfg: Config, env: Services, video: Video, temp: string, random: seq<byte>)
    requires |random| == 32
    ensures var o, r := Staged(cfg, env, video, VideoMediaType, temp, random), FirstFailure(StagedChecks(cfg, env, video, VideoMediaType, temp, random));
      var published := Published(cfg, env, video, temp, random);
      && (r.None? ==> o.response.body == Json(published) && VideoUpdated(published) in o.effects && env.updateOk(published))
      && (r == Some(UpdateRecord) ==>
            o.response.status == StatusBadRequest && PutOf(cfg, env, VideoMediaType, temp, random) in o.effects)
  {
    var checks := StagedChecks(cfg, env, video, VideoMediaType, temp, random);
    var r := FirstFailure(checks);
    if r.None? {
      StagedSucceeded(cfg, env, video, VideoMediaType, temp, random);
      FirstFailureShort(checks);
    } else if r == Some(UpdateRecord) {
      StagedUpdateFailed(cfg, env, video, VideoMediaType, temp, random);
    }
  }

  /** Publishing changes only the video URL, to the CloudFront URL of the
      key. */
  lemma PublishedFields(cfg: Config, env: Services, video: Video, temp: string, random: seq<byte>)
    ensures var after := Published(cfg, env, video, temp, random);
      && after.id == video.id && after.userId == video.userId && after.thumbnailUrl == video.thumbnailUrl
      && after.videoUrl == Some("https://" + cfg.distribution + "/" + UploadKey(env, temp, random))
  {
  }

  /** The video row is written only on success, and then only its video URL
      changes, to the CloudFront URL of the object just put; when the write
      fails the object stays in S3 with no row pointing at it. */
  lemma RecordUpdate(cfg: Config, req: Request, env: Services, random: seq<byte>)
    requires |random| == 32
    ensures var o, r, temp := UploadVideo(cfg, req, env, random), VideoFailure(cfg, req, env, random), env.createTemp.GetOr("");
      && ((exists e :: e in o.effects && e.VideoUpdated?) <==> r.None?)
      && (r.None? ==>
            && Stored(req, env).Some? && o.response.body.Json?
            && var before, after := Stored(req, env).value, o.response.body.video;
            && after.id == before.id && after.userId == before.userId && after.thumbnailUrl == before.thumbnailUrl
            && after.videoUrl == Some("https://" + cfg.distribution + "/" + UploadKey(env, temp, random))
            && VideoUpdated(after) in o.effects && env.updateOk(after))
      && (r == Some(UpdateRecord) ==>
            && o.response.status == StatusBadRequest
            && ObjectPut(cfg.bucket, UploadKey(env, temp, random), ProcessedPath(temp), VideoMediaType) in o.effects)
  {
    EntryPhase(cfg, req, env, random);
    if FirstFailure(EntryChecks(req, env)).None? {
      var video, temp := Stored(req, env).value, env.createTemp.value;
      StagedWritesRecord(cfg, env, video, temp, random);
      StagedRecord(cfg, env, video, temp, random);
      PublishedFields(cfg, env, video, temp, random);
    }
  }

  /** The key's directory is the label of the processed file's first stream,
      judged against the real-valued tolerance, and its file name carries
      the random bytes back unchanged. */
  lemma KeyFollowsProcessedFile(env: Services, temp: string, random: seq<byte>)
    requires |random| == 32 && env.probe(ProcessedPath(temp)).Probed?
    ensures var first := env.probe(ProcessedPath(temp)).streams[0];
      var parts := ParseVideoKey(UploadKey(env, temp, random));
      && parts.Some? && parts.value.id == random
      && (parts.value.prefix == Landscape <==> WithinTolerance(first.width, first.height, 16.0 / 9.0))
      && (parts.value.prefix == Portrait <==> WithinTolerance(first.width, first.height, 9.0 / 16.0))
      && (parts.value.prefix == OtherLabel
          <==> !WithinTolerance(first.width, first.height, 16.0 / 9.0) && !WithinTolerance(first.width, first.height, 9.0 / 16.0))
  {
    var first := env.probe(ProcessedPath(temp)).streams[0];
    var ratio := Classify(first.width, first.height);
    assert AspectRatioOf(env.probe(ProcessedPath(temp))) == Some(ratio);
    UploadKeyShape(ratio, random);
    LabelMatchesGeometry(first.width, first.height);
  }

  /** A 1920x1080 upload lands under "landscape/", a 1080x1920 one under
      "portrait/". */
  lemma FullHdKeys(env: Services, temp: string, random: seq<byte>, rest: seq<Stream>)
    ensures env.probe(ProcessedPath(temp)) == Probed([Stream(1920, 1080)] + rest)
            ==> UploadKey(env, temp, random) == "landscape/" + Hex.Encode(random) + ".mp4"
    ensures env.probe(ProcessedPath(temp)) == Probed([Stream(1080, 1920)] + rest)
            ==> UploadKey(env, temp, random) == "portrait/" + Hex.Encode(random) + ".mp4"
  {
    BoundaryCases(1, 0);
  }
}
