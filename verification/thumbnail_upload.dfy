/** `handlerUploadThumbnail`: authorise, accept a JPEG or PNG form file,
    check ownership, write the image under the assets root with a random
    URL-safe name, and record the local asset URL on the video row. */
module ThumbnailUpload {
  import opened Prelude
  import opened Effects
  import opened Platform
  import opened ObjectKeys
  import Base64Url

  /** The media types a thumbnail may have. */
  predicate IsImageType(mediaType: string) {
    mediaType == "image/jpeg" || mediaType == "image/png"
  }

  /** Where the checks up to ownership leave a request: answered already,
      or admitted with its video row and media type. */
  datatype Admission = Refused(outcome: Outcome) | Admitted(video: Video, mediaType: string)

  /** The handler up to the ownership check; the refusal for someone
      else's video is the only one without a message. */
  function Admit(req: Request, env: Services): (a: Admission)
    ensures a.Refused? ==> a.outcome.effects == []
    ensures a.Refused? ==> a.outcome.response.status == StatusBadRequest || a.outcome.response.status == StatusUnauthorized
    ensures a.Refused? ==> !a.outcome.response.body.Json? && (a.outcome.response.body.NoBody? ==> a.outcome.response.status == StatusUnauthorized)
    ensures a.Admitted? ==> IsImageType(a.mediaType) && req.mediaType == Some(a.mediaType)
  {
    if req.videoId.None? then Refused(Reject(StatusBadRequest, "Invalid ID"))
    else if req.bearer.None? then Refused(Reject(StatusUnauthorized, "Couldn't find JWT"))
    else
      var user := env.validateJwt(req.bearer.value);
      if user.None? then Refused(Reject(StatusUnauthorized, "Couldn't validate JWT"))
      else if !req.formFile then Refused(Reject(StatusBadRequest, "Unable to parse form file"))
      else if req.mediaType.None? then Refused(Reject(StatusBadRequest, "Invalid Content-Type"))
      else if !IsImageType(req.mediaType.value) then Refused(Reject(StatusBadRequest, "invalid file type"))
      else
        var video := env.getVideo(req.videoId.value);
        if video.None? then Refused(Reject(StatusBadRequest, "Bad request"))
        else if user.value != video.value.userId then Refused(Exit(StatusUnauthorized, NoBody, [], []))
        else Admitted(video.value, req.mediaType.value)
  }

  /** The whole handler. The random bytes stand for what `rand.Read` fills
      in. */
  function UploadThumbnail(cfg: Config, req: Request, env: Services, random: seq<byte>): (o: Outcome)
    requires |random| == 32
    ensures o.response.status in {StatusOK, StatusBadRequest, StatusUnauthorized}
    ensures o.response.status == StatusOK <==> o.response.body.Json?
    ensures o.response.body.NoBody? ==> o.response.status == StatusUnauthorized
    ensures o.effects != [] ==> o.effects[0] == CreatedFile(AssetPath(cfg, env, req.mediaType.GetOr(""), random))
  {
    match Admit(req, env)
    case Refused(outcome) => outcome
    case Admitted(video, mediaType) => Store(cfg, env, video, mediaType, random)
  }

  /** The rest: pick the first extension `mime` knows for the type, create
      the asset file, copy the upload into it, then update the row. The file
      is never removed, whatever fails after it is created. */
  function Store(cfg: Config, env: Services, video: Video, mediaType: string, random: seq<byte>): (o: Outcome)
    requires |random| == 32
    ensures o.response.status == StatusOK || o.response.status == StatusBadRequest
    ensures o.response.status == StatusOK <==> o.response.body.Json?
    ensures o.response.status != StatusOK ==> o.response.body.ErrorMessage?
    ensures o.effects != [] ==> o.effects[0] == CreatedFile(AssetPath(cfg, env, mediaType, random))
  {
    var extensions := env.extensions(mediaType);
    if extensions.None? || |extensions.value| == 0 then Reject(StatusBadRequest, "Could not get extention")
    else
      var name := AssetName(random, extensions.value[0]);
      var path := JoinPath(cfg.assetsRoot, name);
      if !env.createOk(path) then Reject(StatusBadRequest, "Could not create file")
      else if !env.copyOk then Exit(StatusBadRequest, ErrorMessage("Could not copy file"), [CreatedFile(path)], [])
      else
        var updated := video.(thumbnailUrl := Some(AssetUrl(cfg.port, name)));
        if !env.updateOk(updated) then Exit(StatusBadRequest, ErrorMessage("Could not update video"), [CreatedFile(path)], [])
        else Exit(StatusOK, Json(updated), [CreatedFile(path), VideoUpdated(updated)], [])
  }

  // The steps of the handler in order, each with whether it succeeds given
  // that every earlier one did.

  /** The steps that establish who is asking. */
  function AuthChecks(req: Request, env: Services): seq<Check> {
    [ Check(ParseId, req.videoId.Some?),
      Check(FindToken, req.bearer.Some?),
      Check(ValidateToken, Subject(req, env).Some?) ]
  }

  /** The steps that accept the image, before the row is fetched. */
  function FormChecks(req: Request, env: Services): seq<Check> {
    [ Check(ReadFormFile, req.formFile),
      Check(ParseMediaType, req.mediaType.Some?),
      Check(CheckMediaType, req.mediaType.Some? && IsImageType(req.mediaType.value)) ]
  }

  /** The steps that check the video is the caller's. */
  function OwnerChecks(req: Request, env: Services): seq<Check> {
    [ Check(FetchVideo, Stored(req, env).Some?),
      Check(CheckOwner, Subject(req, env).Some? && Stored(req, env).Some?
                        && Subject(req, env).value == Stored(req, env).value.userId) ]
  }

  /** The steps up to the ownership check. */
  function EntryChecks(req: Request, env: Services): seq<Check> {
    AuthChecks(req, env) + FormChecks(req, env) + OwnerChecks(req, env)
  }

  /** The extension the asset gets: the first one `mime` lists. */
  function Extension(env: Services, mediaType: string): string {
    var extensions := env.extensions(mediaType);
    if extensions.Some? && |extensions.value| > 0 then extensions.value[0] else ""
  }

  function AssetPath(cfg: Config, env: Services, mediaType: string, random: seq<byte>): string {
    JoinPath(cfg.assetsRoot, AssetName(random, Extension(env, mediaType)))
  }

  function WithThumbnail(cfg: Config, env: Services, video: Video, mediaType: string, random: seq<byte>): Video {
    video.(thumbnailUrl := Some(AssetUrl(cfg.port, AssetName(random, Extension(env, mediaType)))))
  }

  /** The steps once the caller is known to own the video. */
  function StoreChecks(cfg: Config, env: Services, video: Video, mediaType: string, random: seq<byte>): seq<Check> {
    [ Check(LookUpExtension, env.extensions(mediaType).Some? && |env.extensions(mediaType).value| > 0),
      Check(CreateAsset, env.createOk(AssetPath(cfg, env, mediaType, random))),
      Check(CopyUpload, env.copyOk),
      Check(UpdateRecord, env.updateOk(WithThumbnail(cfg, env, video, mediaType, random))) ]
  }

  function ThumbnailChecks(cfg: Config, req: Request, env: Services, random: seq<byte>): seq<Check> {
    var entry := EntryChecks(req, env);
    if FirstFailure(entry).Some? || Stored(req, env).None? || req.mediaType.None? then entry
    else entry + StoreChecks(cfg, env, Stored(req, env).value, req.mediaType.value, random)
  }

  /** The step at which a request stops, if it stops early. */
  function ThumbnailFailure(cfg: Config, req: Request, env: Services, random: seq<byte>): Option<Stage> {
    FirstFailure(ThumbnailChecks(cfg, req, env, random))
  }

  predicate IsEntryStep(stage: Stage) {
    match stage
    case ParseId | FindToken | ValidateToken | ReadFormFile | ParseMediaType
       | CheckMediaType | FetchVideo | CheckOwner => true
    case _ => false
  }

  predicate IsStoreStep(stage: Stage) {
    match stage
    case LookUpExtension | CreateAsset | CopyUpload | UpdateRecord => true
    case _ => false
  }

  // Phase lemmas: the handler against the two step lists.

  lemma EntryFailure(cfg: Config, req: Request, env: Services, random: seq<byte>)
    ensures match FirstFailure(EntryChecks(req, env))
      case Some(stage) => ThumbnailFailure(cfg, req, env, random) == Some(stage) && IsEntryStep(stage)
      case None =>
        && Stored(req, env).Some? && Subject(req, env) == Some(Stored(req, env).value.userId)
        && req.formFile && req.mediaType.Some? && IsImageType(req.mediaType.value)
        && ThumbnailFailure(cfg, req, env, random)
           == FirstFailure(StoreChecks(cfg, env, Stored(req, env).value, req.mediaType.value, random))
  {
    var entry := EntryChecks(req, env);
    FirstFailureAppend(AuthChecks(req, env), FormChecks(req, env));
    FirstFailureAppend(AuthChecks(req, env) + FormChecks(req, env), OwnerChecks(req, env));
    FirstFailureShort(AuthChecks(req, env));
    FirstFailureShort(FormChecks(req, env));
    FirstFailureShort(OwnerChecks(req, env));
    if FirstFailure(entry).None? {
      FirstFailureAppend(entry, StoreChecks(cfg, env, Stored(req, env).value, req.mediaType.value, random));
    }
  }

  /** The refusal a failed step answers with: its status, and a message
      unless it is the ownership check. */
  predicate RefusedAt(a: Admission, stage: Stage) {
    && a.Refused? && a.outcome.response.status == StatusFor(stage)
    && (a.outcome.response.body.NoBody? <==> stage == CheckOwner)
    && (stage != CheckOwner ==> a.outcome.response.body.ErrorMessage?)
  }

  lemma AuthRefusal(req: Request, env: Services)
    ensures var r := FirstFailure(AuthChecks(req, env));
      r.Some? ==> RefusedAt(Admit(req, env), r.value)
  {
    FirstFailureShort(AuthChecks(req, env));
  }

  lemma FormRefusal(req: Request, env: Services)
    ensures var r := FirstFailure(FormChecks(req, env));
      FirstFailure(AuthChecks(req, env)).None? && r.Some? ==> RefusedAt(Admit(req, env), r.value)
  {
    FirstFailureShort(AuthChecks(req, env));
    FirstFailureShort(FormChecks(req, env));
  }

  lemma OwnerRefusal(req: Request, env: Services)
    ensures var r := FirstFailure(OwnerChecks(req, env));
      FirstFailure(AuthChecks(req, env)).None? && FirstFailure(FormChecks(req, env)).None? && r.Some? ==>
        RefusedAt(Admit(req, env), r.value)
  {
    FirstFailureShort(AuthChecks(req, env));
    FirstFailureShort(FormChecks(req, env));
    FirstFailureShort(OwnerChecks(req, env));
  }

  lemma EntryRefusal(req: Request, env: Services)
    ensures var r := FirstFailure(EntryChecks(req, env));
      r.Some? ==> RefusedAt(Admit(req, env), r.value)
  {
    FirstFailureAppend(AuthChecks(req, env), FormChecks(req, env));
    FirstFailureAppend(AuthChecks(req, env) + FormChecks(req, env), OwnerChecks(req, env));
    AuthRefusal(req, env);
    FormRefusal(req, env);
    OwnerRefusal(req, env);
  }

  lemma EntryAdmission(req: Request, env: Services)
    ensures FirstFailure(EntryChecks(req, env)).None? ==>
      && Stored(req, env).Some? && req.mediaType.Some?
      && Admit(req, env) == Admitted(Stored(req, env).value, req.mediaType.value)
  {
    FirstFailureAppend(AuthChecks(req, env), FormChecks(req, env));
    FirstFailureAppend(AuthChecks(req, env) + FormChecks(req, env), OwnerChecks(req, env));
    FirstFailureShort(AuthChecks(req, env));
    FirstFailureShort(FormChecks(req, env));
    FirstFailureShort(OwnerChecks(req, env));
  }

  lemma EntryPhase(cfg: Config, req: Request, env: Services, random: seq<byte>)
    requires |random| == 32
    ensures var o := UploadThumbnail(cfg, req, env, random);
      match FirstFailure(EntryChecks(req, env))
      case Some(stage) =>
        && o.response.status == StatusFor(stage) && o.effects == []
        && (o.response.body.NoBody? <==> stage == CheckOwner)
        && (stage != CheckOwner ==> o.response.body.ErrorMessage?)
        && ThumbnailFailure(cfg, req, env, random) == Some(stage) && IsEntryStep(stage)
      case None =>
        && Stored(req, env).Some? && Subject(req, env) == Some(Stored(req, env).value.userId)
        && req.formFile && req.mediaType.Some? && IsImageType(req.mediaType.value)
        && o == Store(cfg, env, Stored(req, env).value, req.mediaType.value, random)
        && ThumbnailFailure(cfg, req, env, random)
           == FirstFailure(StoreChecks(cfg, env, Stored(req, env).value, req.mediaType.value, random))
  {
    EntryFailure(cfg, req, env, random);
    EntryRefusal(req, env);
    EntryAdmission(req, env);
  }

  /** What `Store` does, by the step at which it stops. */
  lemma StorePhase(cfg: Config, env: Services, video: Video, mediaType: string, random: seq<byte>)
    requires |random| == 32
    ensures var o, r := Store(cfg, env, video, mediaType, random), FirstFailure(StoreChecks(cfg, env, video, mediaType, random));
      var path, updated := AssetPath(cfg, env, mediaType, random), WithThumbnail(cfg, env, video, mediaType, random);
      && (r.Some? ==> IsStoreStep(r.value) && o.response.status == StatusBadRequest && o.response.body.ErrorMessage?)
      && (r == Some(LookUpExtension) || r == Some(CreateAsset) ==> o.effects == [])
      && (r == Some(LookUpExtension) ==> o.response == Response(StatusBadRequest, ErrorMessage("Could not get extention")))
      && (r == Some(CopyUpload) || r == Some(UpdateRecord) ==> o.effects == [CreatedFile(path)])
      && (r.None? ==> o.response == Response(StatusOK, Json(updated)) && o.effects == [CreatedFile(path), VideoUpdated(updated)])
  {
    FirstFailureShort(StoreChecks(cfg, env, video, mediaType, random));
  }

  // Properties of the whole handler.

  /** Every failure answers 400, except a missing or invalid token and
      someone else's video, which answer 401; the ownership refusal alone
      carries no body. 200 only when every step succeeds. */
  lemma StatusMapping(cfg: Config, req: Request, env: Services, random: seq<byte>)
    requires |random| == 32
    ensures var o, r := UploadThumbnail(cfg, req, env, random), ThumbnailFailure(cfg, req, env, random);
      && (r.Some? ==> o.response.status == StatusFor(r.value))
      && (o.response.body.NoBody? <==> r == Some(CheckOwner))
      && (r.Some? && r != Some(CheckOwner) ==> o.response.body.ErrorMessage?)
      && (r.None? ==> o.response.status == StatusOK && o.response.body.Json?)
      && (o.response.status == StatusOK <==> r.None?)
  {
    EntryPhase(cfg, req, env, random);
    if FirstFailure(EntryChecks(req, env)).None? {
      StorePhase(cfg, env, Stored(req, env).value, req.mediaType.value, random);
    }
  }

  /** Only a JPEG or PNG from the video's owner gets as far as the disk or
      the database. */
  lemma AuthorisedImageOnly(cfg: Config, req: Request, env: Services, random: seq<byte>)
    requires |random| == 32
    ensures var o := UploadThumbnail(cfg, req, env, random);
      o.effects != [] ==>
        && req.mediaType.Some? && IsImageType(req.mediaType.value)
        && Stored(req, env).Some? && Subject(req, env) == Some(Stored(req, env).value.userId)
  {
    EntryPhase(cfg, req, env, random);
  }

  /** The media type is checked before the row is fetched: any other type
      is refused with 400 whatever the database holds, and nothing is
      written. */
  lemma MediaTypeCheckedFirst(cfg: Config, req: Request, env: Services, random: seq<byte>,
                              getVideo: string -> Option<Video>)
    requires |random| == 32
    requires req.videoId.Some? && req.bearer.Some? && Subject(req, env).Some? && req.formFile
    requires req.mediaType.Some? && !IsImageType(req.mediaType.value)
    ensures var o := UploadThumbnail(cfg, req, env, random);
      && o.response == Response(StatusBadRequest, ErrorMessage("invalid file type")) && o.effects == []
      && ThumbnailFailure(cfg, req, env, random) == Some(CheckMediaType)
      && UploadThumbnail(cfg, req, env.(getVideo := getVideo), random) == o
  {
    EntryPhase(cfg, req, env, random);
    FirstFailureShort(EntryChecks(req, env));
  }

  /** A thumbnail for someone else's video is refused with a bare 401, and
      nothing is written. */
  lemma OwnerMismatchBare(cfg: Config, req: Request, env: Services, random: seq<byte>)
    requires |random| == 32
    requires req.videoId.Some? && req.bearer.Some? && req.formFile
    requires req.mediaType.Some? && IsImageType(req.mediaType.value)
    requires Subject(req, env).Some? && Stored(req, env).Some?
    requires Subject(req, env).value != Stored(req, env).value.userId
    ensures var o := UploadThumbnail(cfg, req, env, random);
      && o == Outcome(Response(StatusUnauthorized, NoBody), [])
      && ThumbnailFailure(cfg, req, env, random) == Some(CheckOwner)
  {
    EntryPhase(cfg, req, env, random);
    FirstFailureShort(EntryChecks(req, env));
  }

  lemma StoreFiles(cfg: Config, env: Services, video: Video, mediaType: string, random: seq<byte>)
    requires |random| == 32
    ensures var o, r := Store(cfg, env, video, mediaType, random), FirstFailure(StoreChecks(cfg, env, video, mediaType, random));
      && FilesLeft(o.effects)
         == (if r.None? || r == Some(CopyUpload) || r == Some(UpdateRecord) then {AssetPath(cfg, env, mediaType, random)} else {})
      && (r == Some(LookUpExtension) ==> o.response == Response(StatusBadRequest, ErrorMessage("Could not get extention")))
      && (forall e | e in o.effects :: e.CreatedFile? || e.VideoUpdated?)
  {
    StorePhase(cfg, env, video, mediaType, random);
    FilesAfterShort({}, Store(cfg, env, video, mediaType, random).effects);
  }

  /** The asset file exists after the request exactly when it was created,
      that is once an extension was found and `os.Create` succeeded; it is
      not removed when the copy or the update fails afterwards. */
  lemma AssetFileLeft(cfg: Config, req: Request, env: Services, random: seq<byte>)
    requires |random| == 32
    ensures var o, r := UploadThumbnail(cfg, req, env, random), ThumbnailFailure(cfg, req, env, random);
      var path := AssetPath(cfg, env, req.mediaType.GetOr(""), random);
      && FilesLeft(o.effects) == (if r.None? || r == Some(CopyUpload) || r == Some(UpdateRecord) then {path} else {})
      && (r == Some(LookUpExtension) ==> o.response == Response(StatusBadRequest, ErrorMessage("Could not get extention")))
      && (forall e | e in o.effects :: e.CreatedFile? || e.VideoUpdated?)
  {
    EntryPhase(cfg, req, env, random);
    if FirstFailure(EntryChecks(req, env)).None? {
      StoreFiles(cfg, env, Stored(req, env).value, req.mediaType.value, random);
    } else {
      FilesAfterShort({}, []);
    }
  }

  /** On success the asset's name is 43 URL-safe characters decoding to the
      random bytes, then the extension; the URL and the file path end in it. */
  lemma AssetNaming(cfg: Config, env: Services, mediaType: string, random: seq<byte>)
    requires |random| == 32
    ensures var ext := Extension(env, mediaType);
      var name := AssetName(random, ext);
      && |name| == 43 + |ext| && name[43..] == ext && Base64Url.Decode(name[..43]) == Some(random)
      && ((forall j :: 0 <= j < |ext| ==> ext[j] != '/') ==>
            LastSegment(AssetUrl(cfg.port, name)) == name == LastSegment(JoinPath(cfg.assetsRoot, name)))
  {
    var ext := Extension(env, mediaType);
    var name := AssetName(random, ext);
    AssetNameParts(random, ext);
    if forall j :: 0 <= j < |ext| ==> ext[j] != '/' {
      AssetNameShape(cfg.assetsRoot, cfg.port, random, ext);
    }
  }

  lemma StoreRecord(cfg: Config, env: Services, video: Video, mediaType: string, random: seq<byte>)
    requires |random| == 32
    ensures var o, r := Store(cfg, env, video, mediaType, random), FirstFailure(StoreChecks(cfg, env, video, mediaType, random));
      && ((exists e :: e in o.effects && e.VideoUpdated?) <==> r.None?)
      && (r.None? ==>
            && o.response.body.Json?
            && o.response.body.video == WithThumbnail(cfg, env, video, mediaType, random)
            && VideoUpdated(o.response.body.video) in o.effects
            && CreatedFile(AssetPath(cfg, env, mediaType, random)) in o.effects)
  {
    var o := Store(cfg, env, video, mediaType, random);
    StorePhase(cfg, env, video, mediaType, random);
    if FirstFailure(StoreChecks(cfg, env, video, mediaType, random)).None? {
      assert o.effects[1] == VideoUpdated(WithThumbnail(cfg, env, video, mediaType, random));
    }
  }

  /** The row is updated only after the copy succeeded, and then only its
      thumbnail URL changes: to the local asset URL, whose last segment is
      the name of the file written under the assets root; that name is 43
      URL-safe characters decoding to the random bytes, then the first
      extension `mime` lists. */
  lemma ThumbnailRecorded(cfg: Config, req: Request, env: Services, random: seq<byte>)
    requires |random| == 32
    ensures var o, r := UploadThumbnail(cfg, req, env, random), ThumbnailFailure(cfg, req, env, random);
      && ((exists e :: e in o.effects && e.VideoUpdated?) <==> r.None?)
      && (r.None? ==>
            && Stored(req, env).Some? && req.mediaType.Some? && o.response.body.Json?
            && var before, after := Stored(req, env).value, o.response.body.video;
            var ext, name := Extension(env, req.mediaType.value), AssetName(random, Extension(env, req.mediaType.value));
            && after.id == before.id && after.userId == before.userId && after.videoUrl == before.videoUrl
            && after.thumbnailUrl == Some("http://localhost:" + cfg.port + "/assets/" + name)
            && VideoUpdated(after) in o.effects && env.updateOk(after)
            && CreatedFile(JoinPath(cfg.assetsRoot, name)) in o.effects
            && |name| == 43 + |ext| && name[43..] == ext && Base64Url.Decode(name[..43]) == Some(random)
            && ((forall j :: 0 <= j < |ext| ==> ext[j] != '/') ==>
                  LastSegment(after.thumbnailUrl.value) == name == LastSegment(JoinPath(cfg.assetsRoot, name))))
  {
    EntryPhase(cfg, req, env, random);
    if FirstFailure(EntryChecks(req, env)).None? {
      var video, mediaType := Stored(req, env).value, req.mediaType.value;
      StoreRecord(cfg, env, video, mediaType, random);
      AssetNaming(cfg, env, mediaType, random);
      if FirstFailure(StoreChecks(cfg, env, video, mediaType, random)).None? {
        FirstFailureShort(StoreChecks(cfg, env, video, mediaType, random));
      }
    }
  }
}
