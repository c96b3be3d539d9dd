/** What a handler request does to the world, as the model records it:
    the HTTP response, and the ordered side effects on local files, the S3
    bucket and the videos table. */
module Effects {
  import opened Prelude

  /** The part of a `videos` row the upload handlers read or write. */
  datatype Video = Video(id: string, userId: string, thumbnailUrl: Option<string>, videoUrl: Option<string>)

  const StatusOK := 200
  const StatusBadRequest := 400
  const StatusUnauthorized := 401
  const StatusInternalServerError := 500

  /** `respondWithError` writes a JSON error message, `respondWithJSON` the
      record, and a bare `WriteHeader` nothing at all. */
  datatype Body = NoBody | ErrorMessage(message: string) | Json(video: Video)

  datatype Response = Response(status: int, body: Body)

  /** A side effect that took place. Failed calls leave no effect. A
      `RemovedFile` records a deferred `os.Remove`, whose error the handler
      ignores; the model takes every such removal to succeed. */
  datatype Effect =
    | CreatedFile(path: string)
    | RemovedFile(path: string)
    | ObjectPut(bucket: string, key: string, bodyPath: string, contentType: string)
    | VideoUpdated(video: Video)

  datatype Outcome = Outcome(response: Response, effects: seq<Effect>)

  /** Deferred calls run when the handler returns, last registered first. */
  function Unwind(deferred: seq<Effect>): (run: seq<Effect>)
    ensures |run| == |deferred|
    ensures forall i :: 0 <= i < |run| ==> run[i] == deferred[|deferred| - 1 - i]
  {
    if |deferred| == 0 then [] else [deferred[|deferred| - 1]] + Unwind(deferred[..|deferred| - 1])
  }

  /** A return from the handler: the response, then the effects so far
      followed by the pending deferred calls. */
  function Exit(status: int, body: Body, done: seq<Effect>, deferred: seq<Effect>): Outcome {
    Outcome(Response(status, body), done + Unwind(deferred))
  }

  /** An early return with an error message, before any effect. */
  function Reject(status: int, message: string): Outcome {
    Exit(status, ErrorMessage(message), [], [])
  }

  function Apply(live: set<string>, e: Effect): set<string> {
    match e
    case CreatedFile(p) => live + {p}
    case RemovedFile(p) => live - {p}
    case _ => live
  }

  /** The local files that exist after `effects`, starting from `live`. */
  function FilesAfter(live: set<string>, effects: seq<Effect>): set<string>
    decreases |effects|
  {
    if |effects| == 0 then live else FilesAfter(Apply(live, effects[0]), effects[1..])
  }

  /** The files a request leaves behind on local disk. */
  function FilesLeft(effects: seq<Effect>): set<string> {
    FilesAfter({}, effects)
  }

  lemma {:induction false} FilesAfterAppend(live: set<string>, a: seq<Effect>, b: seq<Effect>)
    ensures FilesAfter(live, a + b) == FilesAfter(FilesAfter(live, a), b)
    decreases |a|
  {
    if |a| > 0 {
      assert (a + b)[1..] == a[1..] + b;
      FilesAfterAppend(Apply(live, a[0]), a[1..], b);
    } else {
      assert a + b == b;
    }
  }

  lemma FilesAfterStep(live: set<string>, effects: seq<Effect>, k: nat)
    requires k < |effects|
    ensures FilesAfter(live, effects[k..]) == FilesAfter(Apply(live, effects[k]), effects[k + 1..])
  {
    assert effects[k..][1..] == effects[k + 1..];
  }

  /** `FilesAfter` of a short trace, spelled out one effect at a time. The
      handlers' traces have at most six effects; the unrolled form saves the
      solver from unfolding the recursion inside the handler lemmas. */
  lemma FilesAfterShort(live: set<string>, e: seq<Effect>)
    requires |e| <= 6
    ensures |e| == 0 ==> FilesAfter(live, e) == live
    ensures |e| == 1 ==> FilesAfter(live, e) == Apply(live, e[0])
    ensures |e| == 2 ==> FilesAfter(live, e) == Apply(Apply(live, e[0]), e[1])
    ensures |e| == 3 ==> FilesAfter(live, e) == Apply(Apply(Apply(live, e[0]), e[1]), e[2])
    ensures |e| == 4 ==> FilesAfter(live, e) == Apply(Apply(Apply(Apply(live, e[0]), e[1]), e[2]), e[3])
    ensures |e| == 5 ==> FilesAfter(live, e) == Apply(Apply(Apply(Apply(Apply(live, e[0]), e[1]), e[2]), e[3]), e[4])
    ensures |e| == 6 ==> FilesAfter(live, e) == Apply(Apply(Apply(Apply(Apply(Apply(live, e[0]), e[1]), e[2]), e[3]), e[4]), e[5])
  {
    assert e[0..] == e;
    if |e| == 1 {
      FilesAfterStep(live, e, 0);
      assert e[1..] == [];
    } else if |e| >= 2 {
      FilesAfterStep(live, e, 0);
      var s1 := Apply(live, e[0]);
      FilesAfterStep(s1, e, 1);
      var s2 := Apply(s1, e[1]);
      if |e| >= 3 {
        FilesAfterStep(s2, e, 2);
        var s3 := Apply(s2, e[2]);
        if |e| >= 4 {
          FilesAfterStep(s3, e, 3);
          var s4 := Apply(s3, e[3]);
          if |e| >= 5 {
            FilesAfterStep(s4, e, 4);
            var s5 := Apply(s4, e[4]);
            if |e| == 6 {
              FilesAfterStep(s5, e, 5);
            }
          }
        }
      }
    }
  }
}
