/** The geometry classifier of the video pipeline: ffprobe's first stream
    gives a width and a height, their ratio is compared with 16/9 and then
    with 9/16 under an absolute tolerance of 0.01, and the upload handler
    turns the resulting ratio name into the label that prefixes the
    storage key. The Go code compares float64 values; here the comparisons
    are exact, by multiplying both sides through by a positive integer. */
module AspectRatio {
  import opened Prelude

  function Abs(x: int): nat {
    if x < 0 then -x else x
  }

  /** |width/height - 16/9| < 1/100, multiplied through by 900 * |height|.
      A zero height makes the Go ratio +Inf or NaN, which no comparison
      accepts. */
  predicate NearSixteenByNine(width: int, height: int) {
    height != 0 && Abs(900 * width - 1600 * height) < 9 * Abs(height)
  }

  /** |width/height - 9/16| < 1/100, multiplied through by 1600 * |height|. */
  predicate NearNineBySixteen(width: int, height: int) {
    height != 0 && Abs(1600 * width - 900 * height) < 16 * Abs(height)
  }

  /** The ratio name `getVideoAspectRatio` returns: 16:9 is tested first. */
  function Classify(width: int, height: int): (ratio: string)
    ensures ratio == "16:9" || ratio == "9:16" || ratio == "other"
    ensures ratio == "16:9" <==> NearSixteenByNine(width, height)
  {
    if NearSixteenByNine(width, height) then "16:9"
    else if NearNineBySixteen(width, height) then "9:16"
    else "other"
  }

  /** The labels that prefix storage keys. */
  const Landscape := "landscape"
  const Portrait := "portrait"
  const OtherLabel := "other"

  predicate IsLabel(prefix: string) {
    prefix == Landscape || prefix == Portrait || prefix == OtherLabel
  }

  /** The handler's switch from ratio name to key label; anything that is
      not one of the two named ratios falls to the default. */
  function Label(ratio: string): (prefix: string)
    ensures IsLabel(prefix)
  {
    if ratio == "16:9" then Landscape
    else if ratio == "9:16" then Portrait
    else OtherLabel
  }

  // Real-valued reference: the comparison the Go code means to make.

  ghost function RealAbs(x: real): real {
    if x < 0.0 then -x else x
  }

  /** The ratio exists and lies strictly within 0.01 of `target`. */
  ghost predicate WithinTolerance(width: int, height: int, target: real) {
    height != 0 && RealAbs(width as real / height as real - target) < 0.01
  }

  lemma ScaleAbs(x: real, k: real)
    requires k > 0.0
    ensures RealAbs(x) * k == RealAbs(x * k)
  {
  }

  /** Comparing two reals scaled by the same positive factor, when the
      scaled values are integers, is comparing those integers. */
  lemma ScaledCompare(x: real, y: real, k: real, a: int, b: int)
    requires k > 0.0 && x * k == a as real && y * k == b as real
    ensures x < y <==> a < b
  {
    if x < y {
      assert x * k < y * k;
    } else {
      assert x * k >= y * k;
    }
  }

  /** For a nonzero height, |w/h - n/d| scaled by 100 * d * |h| is the
      integer |100 * d * w - 100 * n * h|. */
  lemma ScaledDistance(width: int, height: int, n: int, d: int)
    requires height != 0 && d > 0
    ensures RealAbs(width as real / height as real - n as real / d as real) * (100 * d * Abs(height)) as real
            == Abs(100 * d * width - 100 * n * height) as real
  {
    var q := width as real / height as real;
    var t := n as real / d as real;
    var k := (100 * d * Abs(height)) as real;
    assert q * height as real == width as real;
    assert t * d as real == n as real;
    ScaleAbs(q - t, k);
    if height > 0 {
      assert (q - t) * k == (100 * d * width - 100 * n * height) as real;
    } else {
      assert (q - t) * k == -(100 * d * width - 100 * n * height) as real;
    }
  }

  /** The integer window test is exactly the real-valued 16/9 test. */
  lemma SixteenByNineExact(width: int, height: int)
    ensures NearSixteenByNine(width, height) <==> WithinTolerance(width, height, 16.0 / 9.0)
  {
    if height != 0 {
      var k := (900 * Abs(height)) as real;
      var dist := RealAbs(width as real / height as real - 16.0 / 9.0);
      ScaledDistance(width, height, 16, 9);
      assert 16 as real / 9 as real == 16.0 / 9.0;
      assert 100 * 9 * Abs(height) == 900 * Abs(height);
      assert Abs(100 * 9 * width - 100 * 16 * height) == Abs(900 * width - 1600 * height);
      assert dist * k == Abs(900 * width - 1600 * height) as real;
      assert 0.01 * k == (9 * Abs(height)) as real;
      ScaledCompare(dist, 0.01, k,
                    Abs(900 * width - 1600 * height), 9 * Abs(height));
    }
  }

  /** The integer window test is exactly the real-valued 9/16 test. */
  lemma NineBySixteenExact(width: int, height: int)
    ensures NearNineBySixteen(width, height) <==> WithinTolerance(width, height, 9.0 / 16.0)
  {
    if height != 0 {
      var k := (1600 * Abs(height)) as real;
      var dist := RealAbs(width as real / height as real - 9.0 / 16.0);
      ScaledDistance(width, height, 9, 16);
      assert 9 as real / 16 as real == 9.0 / 16.0;
      assert 100 * 16 * Abs(height) == 1600 * Abs(height);
      assert Abs(100 * 16 * width - 100 * 9 * height) == Abs(1600 * width - 900 * height);
      assert dist * k == Abs(1600 * width - 900 * height) as real;
      assert 0.01 * k == (16 * Abs(height)) as real;
      ScaledCompare(dist, 0.01, k,
                    Abs(1600 * width - 900 * height), 16 * Abs(height));
    }
  }

  /** No width and height fall within both tolerance windows. */
  lemma WindowsDisjoint(width: int, height: int)
    ensures !(NearSixteenByNine(width, height) && NearNineBySixteen(width, height))
  {
  }

  /** The same classification with the two tests swapped: a reference that
      shows the order of the Go switch does not matter. */
  function ClassifyPortraitFirst(width: int, height: int): string {
    if NearNineBySixteen(width, height) then "9:16"
    else if NearSixteenByNine(width, height) then "16:9"
    else "other"
  }

  lemma ClassifyOrderIrrelevant(width: int, height: int)
    ensures Classify(width, height) == ClassifyPortraitFirst(width, height)
  {
    WindowsDisjoint(width, height);
  }

  /** The key label is determined by the real-valued geometry, in both
      directions: landscape exactly within 0.01 of 16/9, portrait exactly
      within 0.01 of 9/16, and other exactly when neither holds (including a
      zero height). */
  lemma LabelMatchesGeometry(width: int, height: int)
    ensures Label(Classify(width, height)) == Landscape <==> WithinTolerance(width, height, 16.0 / 9.0)
    ensures Label(Classify(width, height)) == Portrait <==> WithinTolerance(width, height, 9.0 / 16.0)
    ensures Label(Classify(width, height)) == OtherLabel
            <==> !WithinTolerance(width, height, 16.0 / 9.0) && !WithinTolerance(width, height, 9.0 / 16.0)
  {
    SixteenByNineExact(width, height);
    NineBySixteenExact(width, height);
    WindowsDisjoint(width, height);
  }

  /** The worked cases: full-HD landscape and portrait, squares, and a
      stream whose height is missing from the probe output (decoded as 0). */
  lemma BoundaryCases(side: int, width: int)
    requires side > 0
    ensures Classify(1920, 1080) == "16:9" && Label(Classify(1920, 1080)) == Landscape
    ensures Classify(1080, 1920) == "9:16" && Label(Classify(1080, 1920)) == Portrait
    ensures Classify(side, side) == "other" && Label(Classify(side, side)) == OtherLabel
    ensures Classify(width, 0) == "other" && Label(Classify(width, 0)) == OtherLabel
  {
  }

  /** A ratio within 0.009 of 16/9 is landscape. */
  lemma CloseToSixteenByNine(width: int, height: int)
    requires height != 0 && RealAbs(width as real / height as real - 16.0 / 9.0) <= 0.009
    ensures Classify(width, height) == "16:9"
  {
    SixteenByNineExact(width, height);
  }

  /** A ratio at least 0.02 away from both references is other. */
  lemma FarFromBoth(width: int, height: int)
    requires height != 0
    requires RealAbs(width as real / height as real - 16.0 / 9.0) >= 0.02
    requires RealAbs(width as real / height as real - 9.0 / 16.0) >= 0.02
    ensures Classify(width, height) == "other"
  {
    SixteenByNineExact(width, height);
    NineBySixteenExact(width, height);
  }

  /** One stream of ffprobe's JSON output. Fields missing from the JSON
      decode to 0. */
  datatype Stream = Stream(width: int, height: int)

  /** The stream list the classifier indexes. The Go code reads element 0
      without checking the length (an empty list panics), so the model only
      admits non-empty lists. */
  type Streams = s: seq<Stream> | |s| > 0 witness [Stream(0, 0)]

  /** What running ffprobe on a path yields: a failure (the tool failed or
      its output did not parse) or the decoded stream list. */
  datatype Probe = ProbeFailed | Probed(streams: Streams)

  /** `getVideoAspectRatio` once ffprobe has run: the first stream's ratio
      name, or `None` for the tool's error. */
  function AspectRatioOf(probe: Probe): (r: Option<string>)
    ensures r.None? <==> probe.ProbeFailed?
    ensures r.Some? ==> r.value == "16:9" || r.value == "9:16" || r.value == "other"
  {
    match probe
    case ProbeFailed => None
    case Probed(streams) => Some(Classify(streams[0].width, streams[0].height))
  }
}
