/** Names derived from random bytes: the S3 key and CloudFront URL of an
    uploaded video, and the on-disk path and served URL of a thumbnail. */
module ObjectKeys {
  import opened Prelude
  import Hex
  import Base64Url
  import AspectRatio

  /** The S3 key of a processed video: `<label>/<hex of id>.mp4`. */
  function VideoKey(prefix: string, id: seq<byte>): (key: string)
    ensures |key| == |prefix| + 2 * |id| + 5
  {
    prefix + "/" + Hex.Encode(id) + ".mp4"
  }

  /** The position of the first '/', or the length when there is none. */
  function FirstSlash(s: string): (i: nat)
    ensures i <= |s|
    ensures forall j :: 0 <= j < i ==> s[j] != '/'
    ensures i < |s| ==> s[i] == '/'
    decreases |s|
  {
    if |s| == 0 || s[0] == '/' then 0 else 1 + FirstSlash(s[1..])
  }

  datatype KeyParts = KeyParts(prefix: string, id: seq<byte>)

  /** The inverse of `VideoKey`: the text before the first '/', and the
      bytes whose hex digits sit between that '/' and the ".mp4" suffix. */
  function ParseVideoKey(key: string): Option<KeyParts> {
    var i := FirstSlash(key);
    if i == |key| then None
    else
      var rest := key[i + 1..];
      if |rest| < 4 || rest[|rest| - 4..] != ".mp4" then None
      else
        match Hex.Decode(rest[..|rest| - 4])
        case None => None
        case Some(id) => Some(KeyParts(key[..i], id))
  }

  lemma FirstSlashAfter(prefix: string, rest: string)
    requires forall j :: 0 <= j < |prefix| ==> prefix[j] != '/'
    ensures FirstSlash(prefix + "/" + rest) == |prefix|
  {
    var s := prefix + "/" + rest;
    assert s[|prefix|] == '/';
    assert forall j :: 0 <= j < |prefix| ==> s[j] == prefix[j];
  }

  /** A key built from a prefix without '/' splits back into that prefix
      and the same bytes. */
  lemma ParseVideoKeyRoundTrip(prefix: string, id: seq<byte>)
    requires forall j :: 0 <= j < |prefix| ==> prefix[j] != '/'
    ensures ParseVideoKey(VideoKey(prefix, id)) == Some(KeyParts(prefix, id))
  {
    var hex := Hex.Encode(id);
    var key := VideoKey(prefix, id);
    assert key == prefix + "/" + (hex + ".mp4");
    FirstSlashAfter(prefix, hex + ".mp4");
    var rest := key[|prefix| + 1..];
    assert rest == hex + ".mp4";
    assert rest[..|rest| - 4] == hex;
    assert rest[|rest| - 4..] == ".mp4";
    Hex.DecodeEncode(id);
    assert key[..|prefix|] == prefix;
  }

  lemma Reassemble(key: string, i: nat, hex: string)
    requires i < |key| && key[i] == '/' && key[i + 1..] == hex + ".mp4"
    ensures key[..i] + "/" + hex + ".mp4" == key
  {
    assert key == key[..i] + [key[i]] + key[i + 1..];
  }

  /** Every key that parses is the key of its parts. */
  lemma VideoKeyOfParse(key: string)
    requires ParseVideoKey(key).Some?
    ensures VideoKey(ParseVideoKey(key).value.prefix, ParseVideoKey(key).value.id) == key
  {
    var i := FirstSlash(key);
    var rest := key[i + 1..];
    var hex := rest[..|rest| - 4];
    var id := Hex.Decode(hex).value;
    assert ParseVideoKey(key).value == KeyParts(key[..i], id);
    Hex.EncodeDecode(hex);
    assert rest == hex + ".mp4";
    Reassemble(key, i, hex);
  }

  /** Where the parts of a key sit. */
  lemma VideoKeyLayout(prefix: string, id: seq<byte>)
    ensures var key := VideoKey(prefix, id);
      && key[..|prefix|] == prefix && key[|prefix|] == '/'
      && key[|prefix| + 1..|key| - 4] == Hex.Encode(id)
      && key[|key| - 4..] == ".mp4"
  {
  }

  /** The key of an upload: its prefix is one of the three labels, it ends
      in ".mp4", and the 64 characters in between are lowercase hex digits
      that decode back to the 32 random bytes. */
  lemma UploadKeyShape(ratio: string, id: seq<byte>)
    requires |id| == 32
    ensures var prefix := AspectRatio.Label(ratio);
      var key := VideoKey(prefix, id);
      && AspectRatio.IsLabel(prefix)
      && ParseVideoKey(key) == Some(KeyParts(prefix, id))
      && |key| == |prefix| + 69
      && key[..|prefix|] == prefix && key[|prefix|] == '/'
      && key[|key| - 4..] == ".mp4"
      && Hex.IsCanonical(key[|prefix| + 1..|prefix| + 65])
      && Hex.Decode(key[|prefix| + 1..|prefix| + 65]) == Some(id)
  {
    var prefix := AspectRatio.Label(ratio);
    assert forall j :: 0 <= j < |prefix| ==> prefix[j] != '/';
    ParseVideoKeyRoundTrip(prefix, id);
    VideoKeyLayout(prefix, id);
    Hex.DecodeEncode(id);
  }

  /** The public URL recorded for a video: `https://<distribution>/<key>`. */
  function VideoUrl(distribution: string, key: string): (url: string)
    ensures |url| == |distribution| + |key| + 9
    ensures url[..8] == "https://" && url[|url| - |key|..] == key
  {
    "https://" + distribution + "/" + key
  }

  /** A thumbnail's file name: the unpadded base64url text of the random
      bytes followed by the extension. */
  function AssetName(id: seq<byte>, ext: string): (name: string)
    ensures |name| == Base64Url.EncodedLen(|id|) + |ext| && name[|name| - |ext|..] == ext
  {
    Base64Url.EncodeLength(id);
    Base64Url.Encode(id) + ext
  }

  /** `filepath.Join(dir, name)` for a name without separators and a
      directory that needs no cleaning. */
  function JoinPath(dir: string, name: string): (path: string)
  {
    if dir == "" then name else dir + "/" + name
  }

  /** The URL a thumbnail is served from. */
  function AssetUrl(port: string, name: string): (url: string)
  {
    "http://localhost:" + port + "/assets/" + name
  }

  /** The joined path ends in the name, after the directory and a
      separator when there is a directory. */
  lemma JoinPathLayout(dir: string, name: string)
    ensures var path := JoinPath(dir, name);
      && |path| >= |name| && path[|path| - |name|..] == name
      && (dir != "" ==> |path| == |dir| + 1 + |name| && path[..|dir|] == dir && path[|dir|] == '/')
      && (dir == "" ==> path == name)
  {
  }

  /** The asset URL is the local server's origin on the given port, then
      "/assets/" and the name. */
  lemma AssetUrlLayout(port: string, name: string)
    ensures var url := AssetUrl(port, name);
      && |url| == 25 + |port| + |name|
      && url[..17] == "http://localhost:" && url[17..17 + |port|] == port
      && url[|url| - |name| - 8..] == "/assets/" + name
  {
  }

  /** The position of the last '/', or -1 when there is none. */
  function LastSlash(s: string): (i: int)
    ensures -1 <= i < |s|
    ensures i >= 0 ==> s[i] == '/'
    ensures forall j :: i < j < |s| ==> s[j] != '/'
    decreases |s|
  {
    if |s| == 0 then -1
    else if s[|s| - 1] == '/' then |s| - 1
    else LastSlash(s[..|s| - 1])
  }

  /** The text after the last '/': the file name of a path, the last
      segment of a URL path. */
  function LastSegment(s: string): string {
    s[LastSlash(s) + 1..]
  }

  lemma LastSegmentAfterSlash(dir: string, name: string)
    requires forall j :: 0 <= j < |name| ==> name[j] != '/'
    ensures LastSegment(dir + "/" + name) == name
    ensures LastSegment(name) == name
  {
    var s := dir + "/" + name;
    assert s[|dir|] == '/';
    assert forall j :: |dir| < j < |s| ==> s[j] == name[j - |dir| - 1];
    assert LastSlash(s) == |dir|;
  }

  /** The name's two parts: the encoded bytes, then the extension. */
  lemma AssetNameParts(id: seq<byte>, ext: string)
    requires |id| == 32
    ensures var name := AssetName(id, ext);
      && |name| == 43 + |ext| && name[..43] == Base64Url.Encode(id) && name[43..] == ext
      && Base64Url.Decode(name[..43]) == Some(id)
  {
    Base64Url.EncodeLength(id);
    Base64Url.DecodeEncode(id);
    var name := AssetName(id, ext);
    assert name[..43] == Base64Url.Encode(id);
  }

  /** Neither part of the name holds a separator. */
  lemma AssetNameNoSlash(enc: string, ext: string)
    requires forall j :: 0 <= j < |enc| ==> Base64Url.IsUrlSafe(enc[j])
    requires forall j :: 0 <= j < |ext| ==> ext[j] != '/'
    ensures forall j :: 0 <= j < |enc + ext| ==> (enc + ext)[j] != '/'
  {
    forall j | 0 <= j < |enc + ext| ensures (enc + ext)[j] != '/' {
      if j < |enc| {
        assert (enc + ext)[j] == enc[j];
      } else {
        assert (enc + ext)[j] == ext[j - |enc|];
      }
    }
  }

  /** The thumbnail name: 43 URL-safe characters that decode back to the 32
      random bytes, followed by the extension; and the file written under
      the assets root and the path of the URL end in that same name. */
  lemma AssetNameShape(root: string, port: string, id: seq<byte>, ext: string)
    requires |id| == 32
    requires forall j :: 0 <= j < |ext| ==> ext[j] != '/'
    ensures var name := AssetName(id, ext);
      && |name| == 43 + |ext| && name[43..] == ext
      && (forall j :: 0 <= j < 43 ==> Base64Url.IsUrlSafe(name[j]))
      && Base64Url.Decode(name[..43]) == Some(id)
      && LastSegment(JoinPath(root, name)) == name
      && LastSegment(AssetUrl(port, name)) == name
  {
    var enc := Base64Url.Encode(id);
    var name := AssetName(id, ext);
    AssetNameParts(id, ext);
    assert forall j :: 0 <= j < 43 ==> name[j] == enc[j];
    AssetNameNoSlash(enc, ext);
    LastSegmentAfterSlash(root, name);
    var dir := "http://localhost:" + port + "/assets";
    assert AssetUrl(port, name) == dir + "/" + name;
    LastSegmentAfterSlash(dir, name);
  }
}
