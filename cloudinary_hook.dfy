/**
 * The Cloudinary hook of the Vite client: how a delivery URL is turned back
 * into the public id that the delete endpoint needs, and when `deleteImage`
 * asks the server to delete at all. A delivery URL looks like
 * `https://res.cloudinary.com/<cloud>/image/upload/<transformations or version>/<folders>/<name>.<format>`.
 */
module CloudinaryHook {
  import opened Wrappers
  import opened Text
  import opened Numbers
  import Seqs

  /** A first segment that `/^v\d+\//` accepts: `v` and at least one digit. */
  predicate IsVersionSegment(seg: string) {
    |seg| >= 2 && seg[0] == 'v' && AllDigits(seg[1..])
  }

  /** A first segment that `/^[^\/]*[_,][^\/]*\//` accepts: it holds `_` or `,`. */
  predicate IsTransformationSegment(seg: string) {
    '_' in seg || ',' in seg
  }

  predicate IsSlash(c: char) { c == '/' }

  predicate IsUploadSegment(part: string) { part == "upload" }

  /** The position of the first `/`, or -1. */
  function FirstSlash(s: string): (k: int)
    ensures -1 <= k < |s|
    ensures k >= 0 ==> s[k] == '/' && '/' !in s[..k]
    ensures k == -1 <==> '/' !in s
  {
    Seqs.FindIndex(s, IsSlash)
  }

  /** The length of the version prefix `v<digits>/` at the start of `path`, or 0. */
  function VersionMatch(path: string): nat {
    var k := FirstSlash(path);
    if k >= 0 && IsVersionSegment(path[..k]) then k + 1 else 0
  }

  /** The length of a transformation segment and its `/` at the start of `path`, or 0. */
  function TransformationMatch(path: string): nat {
    var k := FirstSlash(path);
    if k >= 0 && IsTransformationSegment(path[..k]) then k + 1 else 0
  }

  /**
   * The segments after the first one equal to `upload`, joined again with
   * `/`; `None` when no segment is `upload`.
   */
  function PathAfterUpload(url: string): (r: Option<string>)
    ensures r.None? <==> "upload" !in Split(url, '/')
  {
    var parts := Split(url, '/');
    var i := Seqs.FindIndex(parts, IsUploadSegment);
    if i == -1 then None else Some(Join(parts[i + 1..], '/'))
  }

  /**
   * `s.replace(/\.[^.]+$/, '')`: the last `.` and what follows it go, provided
   * at least one character follows it.
   */
  function StripExtension(s: string): (r: string)
    ensures StartsWith(s, r)
    ensures r != s ==> s[|r|] == '.' && |s| - |r| >= 2 && '.' !in s[|r| + 1..]
    ensures r == s <==> '.' !in s || s[|s| - 1] == '.'
  {
    var i := LastIndexOf(s, '.');
    if i >= 0 && i + 1 < |s| then s[..i] else s
  }

  /**
   * `extractPublicIdFromUrl`: the path after `upload/`, without one leading
   * version segment or else one leading transformation segment, and without
   * its extension.
   */
  function ExtractPublicId(url: string): (r: Option<string>)
    ensures r.None? <==> "upload" !in Split(url, '/')
  {
    match PathAfterUpload(url)
    case None => None
    case Some(path) =>
      var version := VersionMatch(path);
      var cut := if version > 0 then version else TransformationMatch(path);
      Some(StripExtension(path[cut..]))
  }

  /** What `deleteImage` does before any request is sent. */
  datatype DeletePlan =
    | NotNeeded            // resolves to true at once
    | NoPublicId           // resolves to false at once
    | Request(publicId: string)

  function PlanDelete(imageUrl: string): (r: DeletePlan)
    ensures r == NotNeeded <==> imageUrl == "" || !Contains(imageUrl, "cloudinary.com")
    ensures r == NoPublicId <==>
      imageUrl != "" && Contains(imageUrl, "cloudinary.com") && ExtractPublicId(imageUrl) in {None, Some("")}
    ensures r.Request? ==> ExtractPublicId(imageUrl) == Some(r.publicId) && r.publicId != ""
  {
    if imageUrl == "" || !Contains(imageUrl, "cloudinary.com") then NotNeeded
    else
      match ExtractPublicId(imageUrl)
      case None => NoPublicId
      case Some(id) => if id == "" then NoPublicId else Request(id)
  }

  /**
   * `deleteImage(imageUrl)`: its result, given whether the delete request
   * (when one is sent) succeeded.
   */
  function DeleteImage(imageUrl: string, requestSucceeded: bool): (ok: bool)
    ensures PlanDelete(imageUrl) == NotNeeded ==> ok
    ensures PlanDelete(imageUrl) == NoPublicId ==> !ok
    ensures PlanDelete(imageUrl).Request? ==> (ok <==> requestSucceeded)
  {
    match PlanDelete(imageUrl)
    case NotNeeded => true
    case NoPublicId => false
    case Request(_) => requestSucceeded
  }

  /** The segments of `base/upload/rest`. */
  lemma UploadSplit(base: string, rest: string)
    ensures Split(base + "/upload/" + rest, '/') == Split(base, '/') + (["upload"] + Split(rest, '/'))
  {
    assert base + "/upload/" + rest == base + ['/'] + ("upload" + ['/'] + rest);
    SplitConcat(base, "upload" + ['/'] + rest, '/');
    SplitAfterPiece("upload", '/', rest);
  }

  /** The path after the first `upload` segment of `base/upload/rest`, when `base` has none. */
  lemma PathAfterUploadOf(base: string, rest: string)
    requires "upload" !in Split(base, '/')
    ensures PathAfterUpload(base + "/upload/" + rest) == Some(rest)
  {
    UploadSplit(base, rest);
    var b := Split(base, '/');
    var parts := b + (["upload"] + Split(rest, '/'));
    var n := |b|;
    assert forall j :: 0 <= j < n ==> parts[j] == b[j];
    Seqs.FindIndexAt(parts, IsUploadSegment, n);
    assert parts[n + 1..] == Split(rest, '/');
    JoinSplit(rest, '/');
  }

  /** A version segment in front of `q` is matched up to and including its `/`. */
  lemma VersionMatchOf(v: string, q: string)
    requires IsVersionSegment(v)
    ensures VersionMatch(v + "/" + q) == |v| + 1
    ensures (v + "/" + q)[|v| + 1..] == q
  {
    var path := v + "/" + q;
    assert '/' !in v by {
      forall j | 0 <= j < |v| ensures v[j] != '/' {
        if j > 0 { assert v[1..][j - 1] == v[j]; }
      }
    }
    ExtendNoSlash(v, q);
    assert path[..|v|] == v;
  }

  /** The first `/` of `t + "/" + q` is the one after `t` when `t` has none. */
  lemma ExtendNoSlash(t: string, q: string)
    requires '/' !in t
    ensures FirstSlash(t + "/" + q) == |t|
  {
    var path := t + "/" + q;
    assert path[|t|] == '/';
    assert path[..|t|] == t;
  }

  /**
   * `.../upload/v<digits>/<p>.<ext>`, with no `.` in `p` and a non-empty
   * extension without `.` or `/`, gives `p`; folders inside `p` are kept.
   */
  lemma VersionedUrl(base: string, digits: string, p: string, ext: string)
    requires "upload" !in Split(base, '/')
    requires digits != [] && AllDigits(digits)
    requires '.' !in p && ext != [] && '.' !in ext && '/' !in ext
    ensures ExtractPublicId(base + "/upload/v" + digits + "/" + p + "." + ext) == Some(p)
  {
    var v := "v" + digits;
    var q := p + "." + ext;
    assert base + "/upload/v" + digits + "/" + p + "." + ext == base + "/upload/" + (v + "/" + q);
    PathAfterUploadOf(base, v + "/" + q);
    assert v[1..] == digits;
    VersionMatchOf(v, q);
    StripOf(p, ext);
  }

  /**
   * `.../upload/<t>/<p>.<ext>`, where the segment `t` holds `_` or `,` and is
   * not a version, also gives `p`.
   */
  lemma TransformedUrl(base: string, t: string, p: string, ext: string)
    requires "upload" !in Split(base, '/')
    requires '/' !in t && IsTransformationSegment(t) && !IsVersionSegment(t)
    requires '.' !in p && ext != [] && '.' !in ext && '/' !in ext
    ensures ExtractPublicId(base + "/upload/" + t + "/" + p + "." + ext) == Some(p)
  {
    var q := p + "." + ext;
    assert base + "/upload/" + t + "/" + p + "." + ext == base + "/upload/" + (t + "/" + q);
    PathAfterUploadOf(base, t + "/" + q);
    ExtendNoSlash(t, q);
    var path := t + "/" + q;
    assert path[..|t|] == t;
    assert path[|t| + 1..] == q;
    StripOf(p, ext);
  }

  /** A name straight after `upload/`, without folders, is never cut, whatever it holds. */
  lemma PlainUrl(base: string, p: string, ext: string)
    requires "upload" !in Split(base, '/')
    requires '/' !in p && '.' !in p && ext != [] && '.' !in ext && '/' !in ext
    ensures ExtractPublicId(base + "/upload/" + p + "." + ext) == Some(p)
  {
    var q := p + "." + ext;
    assert base + "/upload/" + p + "." + ext == base + "/upload/" + q;
    PathAfterUploadOf(base, q);
    assert '/' !in q by {
      forall j | 0 <= j < |q| ensures q[j] != '/' {
        if j < |p| { assert q[j] == p[j]; } else if j > |p| { assert q[j] == ext[j - |p| - 1]; }
      }
    }
    assert q[0..] == q;
    StripOf(p, ext);
  }

  lemma StripOf(p: string, ext: string)
    requires '.' !in p && ext != [] && '.' !in ext
    ensures StripExtension(p + "." + ext) == p
  {
    var s := p + "." + ext;
    assert s == p + ['.'] + ext;
    LastIndexOfAfter(p, '.', ext);
    assert s[..|p|] == p;
  }
}
