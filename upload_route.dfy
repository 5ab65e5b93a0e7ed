/**
 * The Next.js upload endpoint: its own public-id extraction, which differs
 * from the client hook's, and the validation branches of `POST` and
 * `DELETE`. The Cloudinary calls are inputs: whether the upload of the new
 * file succeeded (and what it returned) and whether `destroy` succeeded.
 */
module UploadRoute {
  import opened Wrappers
  import opened Text
  import opened Numbers
  import Seqs
  import CloudinaryHook

  /** Cut at the last `.`, but only when that `.` is not the first character. */
  function StripExtension(s: string): (r: string)
    ensures StartsWith(s, r)
    ensures r != s ==> r != [] && s[|r|] == '.' && '.' !in s[|r| + 1..]
    ensures r == s <==> '.' !in s || (s[0] == '.' && '.' !in s[1..])
  {
    var i := LastIndexOf(s, '.');
    if i > 0 then s[..i] else s
  }

  /**
   * `extractPublicIdFromUrl` of the upload route: the path after the first
   * `upload` segment, without a leading version segment and without its
   * extension. Transformation segments are kept.
   */
  function ExtractPublicId(url: string): (r: Option<string>)
    ensures r.None? <==> "upload" !in Split(url, '/')
  {
    match CloudinaryHook.PathAfterUpload(url)
    case None => None
    case Some(path) => Some(StripExtension(path[CloudinaryHook.VersionMatch(path)..]))
  }

  lemma StripOf(p: string, ext: string)
    requires p != [] && '.' !in p && '.' !in ext
    ensures StripExtension(p + "." + ext) == p
  {
    var s := p + "." + ext;
    assert s == p + ['.'] + ext;
    LastIndexOfAfter(p, '.', ext);
    assert s[..|p|] == p;
  }

  /** `.../upload/v<digits>/<p>.<ext>` gives `p`, folders included. */
  lemma VersionedUrl(base: string, digits: string, p: string, ext: string)
    requires "upload" !in Split(base, '/')
    requires digits != [] && AllDigits(digits)
    requires p != [] && '.' !in p && ext != [] && '.' !in ext && '/' !in ext
    ensures ExtractPublicId(base + "/upload/v" + digits + "/" + p + "." + ext) == Some(p)
  {
    var v := "v" + digits;
    var q := p + "." + ext;
    assert base + "/upload/v" + digits + "/" + p + "." + ext == base + "/upload/" + (v + "/" + q);
    CloudinaryHook.PathAfterUploadOf(base, v + "/" + q);
    assert v[1..] == digits;
    CloudinaryHook.VersionMatchOf(v, q);
    StripOf(p, ext);
  }

  /** On a versioned URL with a non-empty name the server and the client hook agree. */
  lemma AgreeOnVersionedUrl(base: string, digits: string, p: string, ext: string)
    requires "upload" !in Split(base, '/')
    requires digits != [] && AllDigits(digits)
    requires p != [] && '.' !in p && ext != [] && '.' !in ext && '/' !in ext
    ensures var url := base + "/upload/v" + digits + "/" + p + "." + ext;
      ExtractPublicId(url) == CloudinaryHook.ExtractPublicId(url) == Some(p)
  {
    VersionedUrl(base, digits, p, ext);
    CloudinaryHook.VersionedUrl(base, digits, p, ext);
  }

  /** A segment in front of the name that is not a version stays part of the public id. */
  lemma TransformedUrl(base: string, t: string, p: string, ext: string)
    requires "upload" !in Split(base, '/')
    requires '/' !in t && '.' !in t && !CloudinaryHook.IsVersionSegment(t)
    requires '.' !in p && ext != [] && '.' !in ext && '/' !in ext
    ensures ExtractPublicId(base + "/upload/" + t + "/" + p + "." + ext) == Some(t + "/" + p)
  {
    var path := t + "/" + p + "." + ext;
    assert base + "/upload/" + t + "/" + p + "." + ext == base + "/upload/" + path;
    CloudinaryHook.PathAfterUploadOf(base, path);
    TransformedPath(t, p, ext);
  }

  /** The path `<t>/<p>.<ext>` loses its extension and keeps its first segment. */
  lemma TransformedPath(t: string, p: string, ext: string)
    requires '/' !in t && '.' !in t && !CloudinaryHook.IsVersionSegment(t)
    requires '.' !in p && '.' !in ext
    ensures var path := t + "/" + p + "." + ext;
      StripExtension(path[CloudinaryHook.VersionMatch(path)..]) == t + "/" + p
  {
    var q := p + "." + ext;
    var path := t + "/" + q;
    assert t + "/" + p + "." + ext == path;
    CloudinaryHook.ExtendNoSlash(t, q);
    assert path[..|t|] == t;
    assert path[0..] == path;
    var named := t + "/" + p;
    assert path == named + "." + ext;
    assert '.' !in named;
    StripOf(named, ext);
  }

  /** On a URL with a transformation segment the server keeps it and the client hook drops it. */
  lemma DisagreeOnTransformedUrl(base: string, t: string, p: string, ext: string)
    requires "upload" !in Split(base, '/')
    requires '/' !in t && '.' !in t && CloudinaryHook.IsTransformationSegment(t)
    requires !CloudinaryHook.IsVersionSegment(t)
    requires '.' !in p && ext != [] && '.' !in ext && '/' !in ext
    ensures var url := base + "/upload/" + t + "/" + p + "." + ext;
      ExtractPublicId(url) == Some(t + "/" + p) && CloudinaryHook.ExtractPublicId(url) == Some(p)
  {
    TransformedUrl(base, t, p, ext);
    CloudinaryHook.TransformedUrl(base, t, p, ext);
  }

  /** A name that is only an extension keeps its dot here, and is emptied by the client hook. */
  lemma DotNameUrl(base: string, ext: string)
    requires "upload" !in Split(base, '/')
    requires ext != [] && '.' !in ext && '/' !in ext
    ensures ExtractPublicId(base + "/upload/." + ext) == Some("." + ext)
    ensures CloudinaryHook.ExtractPublicId(base + "/upload/." + ext) == Some("")
  {
    var q := "." + ext;
    assert base + "/upload/." + ext == base + "/upload/" + q;
    CloudinaryHook.PathAfterUploadOf(base, q);
    assert q == [] + ['.'] + ext;
    LastIndexOfAfter([], '.', ext);
    assert '/' !in q by {
      forall j | 0 <= j < |q| ensures q[j] != '/' {
        if j > 0 { assert q[j] == ext[j - 1]; }
      }
    }
    assert q[0..] == q;
    assert q[1..] == ext;
  }

  /** What the `POST` handler does with the Cloudinary account and what it answers. */
  datatype PostReply =
    | PostFailure(status: int, message: string)
    | Uploaded(imageUrl: string, publicId: string)

  datatype PostOutcome = PostOutcome(destroyed: Option<string>, uploadAttempted: bool, reply: PostReply)

  /**
   * `POST /api/upload`. `oldImageUrl` is `None` when the form has no such
   * field; `upload` is the secure URL and public id of the stored file, or
   * `None` when the upload failed. A failed `destroy` is only logged, so its
   * success is not an input.
   */
  function Post(hasFile: bool, oldImageUrl: Option<string>, upload: Option<(string, string)>): (r: PostOutcome)
    ensures !hasFile ==> r == PostOutcome(None, false, PostFailure(400, "No file uploaded"))
    ensures r.destroyed.Some? <==>
      hasFile && oldImageUrl.Some? && oldImageUrl.value != [] &&
      ExtractPublicId(oldImageUrl.value).Some? && ExtractPublicId(oldImageUrl.value).value != []
    ensures r.destroyed.Some? ==> r.destroyed == ExtractPublicId(oldImageUrl.value)
    ensures r.uploadAttempted <==> hasFile
    ensures hasFile ==> (r.reply.Uploaded? <==> upload.Some?)
    ensures hasFile && upload.Some? ==> r.reply == Uploaded(upload.value.0, upload.value.1)
    ensures hasFile && upload.None? ==> r.reply == PostFailure(500, "Failed to upload image")
  {
    if !hasFile then PostOutcome(None, false, PostFailure(400, "No file uploaded"))
    else
      var destroyed :=
        if oldImageUrl.Some? && oldImageUrl.value != [] then
          match ExtractPublicId(oldImageUrl.value)
          case Some(id) => if id != [] then Some(id) else None
          case None => None
        else None;
      var reply := match upload
        case Some((url, id)) => Uploaded(url, id)
        case None => PostFailure(500, "Failed to upload image");
      PostOutcome(destroyed, true, reply)
  }

  /** The answer to `POST` does not depend on the old image at all. */
  lemma PostReplyIgnoresOldImage(hasFile: bool, a: Option<string>, b: Option<string>, upload: Option<(string, string)>)
    ensures Post(hasFile, a, upload).reply == Post(hasFile, b, upload).reply
  {
  }

  datatype DeleteOutcome = DeleteOutcome(destroyed: Option<string>, status: int, message: string)

  /**
   * `DELETE /api/upload?imageUrl=...`; `destroySucceeded` says whether
   * Cloudinary's `destroy` returned normally.
   */
  function Delete(imageUrl: Option<string>, destroySucceeded: bool): (r: DeleteOutcome)
    ensures imageUrl.None? || imageUrl == Some("") ==> r == DeleteOutcome(None, 400, "No image URL provided")
    ensures r.status == 400 <==>
      imageUrl.None? || imageUrl.value == [] || ExtractPublicId(imageUrl.value) in {None, Some("")}
    ensures r.status == 400 ==> r.destroyed.None?
    ensures imageUrl.Some? && imageUrl.value != [] && ExtractPublicId(imageUrl.value) in {None, Some("")} ==>
      r.message == "Invalid image URL"
    ensures r.destroyed.Some? <==> r.status != 400
    ensures r.destroyed.Some? ==> r.destroyed == ExtractPublicId(imageUrl.value)
    ensures r.status != 400 ==> (r.status == 200 <==> destroySucceeded) && (r.status == 500 <==> !destroySucceeded)
  {
    if imageUrl.None? || imageUrl.value == [] then DeleteOutcome(None, 400, "No image URL provided")
    else
      match ExtractPublicId(imageUrl.value)
      case None => DeleteOutcome(None, 400, "Invalid image URL")
      case Some(id) =>
        if id == [] then DeleteOutcome(None, 400, "Invalid image URL")
        else if destroySucceeded then DeleteOutcome(Some(id), 200, "Image deleted successfully")
        else DeleteOutcome(Some(id), 500, "Failed to delete image")
  }

  /** A URL without an `upload` segment never reaches Cloudinary. */
  lemma DeleteWithoutUpload(url: string, destroySucceeded: bool)
    requires "upload" !in Split(url, '/')
    ensures Delete(Some(url), destroySucceeded).status == 400
    ensures Delete(Some(url), destroySucceeded).destroyed.None?
  {
  }
}
