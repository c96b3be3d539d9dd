/** The handlers' surroundings, reduced to what they branch on: the server
    configuration, the request as parsed by the Go standard library, and the
    outcomes of the calls into code the model does not see (auth, the
    database, the file system, ffmpeg and ffprobe, S3, `mime`). */
module Platform {
  import opened Prelude
  import opened Effects
  import AspectRatio

  /** The `apiConfig` fields the handlers read. */
  datatype Config = Config(bucket: string, distribution: string, assetsRoot: string, port: string)

  /** The request: the parsed `videoID` path value (`None` when
      `uuid.Parse` fails), the bearer token (`None` when the header has
      none), whether the multipart form yields the expected file part, and
      that part's media type as `mime.ParseMediaType` returns it. */
  datatype Request = Request(videoId: Option<string>, bearer: Option<string>, formFile: bool, mediaType: Option<string>)

  /** Black-box collaborators, each as the result it returns.
      - validateJwt: `auth.ValidateJWT` with the configured secret
      - getVideo / updateOk: `db.GetVideo` / `db.UpdateVideo`
      - createTemp: `os.CreateTemp`, the new file's name or a failure
      - copyOk: `io.Copy` of the uploaded part into the new file
      - remuxOk: whether ffmpeg's fast-start rewrite of the path succeeds
      - probe: what ffprobe reports for a path
      - openOk: `os.Open`
      - putOk: `s3Client.PutObject`, given the object to put
      - extensions: `mime.ExtensionsByType`
      - createOk: `os.Create` */
  datatype Services = Services(
    validateJwt: string -> Option<string>,
    getVideo: string -> Option<Video>,
    createTemp: Option<string>,
    copyOk: bool,
    remuxOk: string -> bool,
    probe: string -> AspectRatio.Probe,
    openOk: string -> bool,
    putOk: Effect -> bool,
    updateOk: Video -> bool,
    extensions: string -> Option<seq<string>>,
    createOk: string -> bool
  )

  /** The user the bearer token names, if it has one and it validates. */
  function Subject(req: Request, env: Services): Option<string> {
    if req.bearer.Some? then env.validateJwt(req.bearer.value) else None
  }

  /** The video row the path names, if it parses and the row exists. */
  function Stored(req: Request, env: Services): Option<Video> {
    if req.videoId.Some? then env.getVideo(req.videoId.value) else None
  }

  /** The steps of the handlers, each of which can end the request. */
  datatype Stage =
    | ParseId | FindToken | ValidateToken | FetchVideo | CheckOwner
    | ReadFormFile | ParseMediaType | CheckMediaType
    | CreateTemp | CopyUpload | FastStart | ProbeAspect | OpenProcessed | UploadObject
    | LookUpExtension | CreateAsset
    | UpdateRecord

  /** The status code a failure at each step answers with. */
  function StatusFor(stage: Stage): int {
    match stage
    case FindToken | ValidateToken | CheckOwner => StatusUnauthorized
    case UploadObject => StatusInternalServerError
    case _ => StatusBadRequest
  }

  /** One step and whether it succeeds, given that every earlier one did. */
  datatype Check = Check(stage: Stage, ok: bool)

  function Step(check: Check, later: Option<Stage>): Option<Stage> {
    if check.ok then later else Some(check.stage)
  }

  /** The first step that fails, if any: the one whose failure ends the
      request. */
  function FirstFailure(checks: seq<Check>): (r: Option<Stage>)
    ensures r.None? <==> forall i :: 0 <= i < |checks| ==> checks[i].ok
    ensures r.Some? ==> exists i :: 0 <= i < |checks| && checks[i] == Check(r.value, false)
    decreases |checks|
  {
    if |checks| == 0 then None else Step(checks[0], FirstFailure(checks[1..]))
  }

  lemma FirstFailureStep(checks: seq<Check>, k: nat)
    requires k < |checks|
    ensures FirstFailure(checks[k..]) == Step(checks[k], FirstFailure(checks[k + 1..]))
  {
    assert checks[k..][1..] == checks[k + 1..];
  }

  /** Only the steps after a successful prefix are ever reached. */
  lemma {:induction false} FirstFailureAppend(a: seq<Check>, b: seq<Check>)
    ensures FirstFailure(a + b) == if FirstFailure(a).Some? then FirstFailure(a) else FirstFailure(b)
    decreases |a|
  {
    if |a| == 0 {
      assert a + b == b;
    } else {
      assert (a + b)[1..] == a[1..] + b;
      FirstFailureAppend(a[1..], b);
    }
  }

  /** `FirstFailure` of the step lists the handlers use, spelled out: the
      lengths of their segments (2 to 6) and of the whole entry lists (8 for
      the thumbnail, 9 for the video). The unrolled form saves the solver
      from unfolding the recursion inside the handler lemmas. */
  lemma FirstFailureShort(cs: seq<Check>)
    requires |cs| <= 9
    ensures |cs| == 2 ==> FirstFailure(cs) == Step(cs[0], Step(cs[1], None))
    ensures |cs| == 3 ==> FirstFailure(cs) == Step(cs[0], Step(cs[1], Step(cs[2], None)))
    ensures |cs| == 4 ==> FirstFailure(cs) == Step(cs[0], Step(cs[1], Step(cs[2], Step(cs[3], None))))
    ensures |cs| == 5 ==> FirstFailure(cs) == Step(cs[0], Step(cs[1], Step(cs[2], Step(cs[3], Step(cs[4], None)))))
    ensures |cs| == 6 ==> (FirstFailure(cs) ==
      Step(cs[0], Step(cs[1], Step(cs[2], Step(cs[3], Step(cs[4], Step(cs[5], None)))))))
    ensures |cs| == 8 ==> (FirstFailure(cs) ==
      Step(cs[0], Step(cs[1], Step(cs[2], Step(cs[3], Step(cs[4], Step(cs[5], Step(cs[6], Step(cs[7], None)))))))))
    ensures |cs| == 9 ==> (FirstFailure(cs) ==
      Step(cs[0], Step(cs[1], Step(cs[2], Step(cs[3], Step(cs[4], Step(cs[5], Step(cs[6], Step(cs[7],
      Step(cs[8], None))))))))))
  {
    assert cs[0..] == cs;
    var k := 0;
    while k < |cs|
      invariant 0 <= k <= |cs|
      invariant forall j :: 0 <= j < k ==> FirstFailure(cs[j..]) == Step(cs[j], FirstFailure(cs[j + 1..]))
    {
      FirstFailureStep(cs, k);
      k := k + 1;
    }
    assert cs[|cs|..] == [];
  }
}
