/**
 * The URL predicates of the Next.js app's image helpers. URL parsing is the
 * WHATWG URL parser, which is not modelled: `IsValidImageUrl` takes the
 * parsed pathname, or `None` when the parser throws.
 */
module ImageUtils {
  import opened Wrappers
  import opened Text

  const CloudinaryHost := "cloudinary.com"
  const CloudinaryResourceHost := "res.cloudinary.com"

  /** `isCloudinaryUrl`: the second test of the source adds nothing to the first. */
  function IsCloudinaryUrl(url: string): (r: bool)
    ensures r <==> Contains(url, CloudinaryHost)
  {
    if Contains(url, CloudinaryResourceHost) then
      assert OccursAt(CloudinaryResourceHost, CloudinaryHost, 4);
      ContainsTransitive(url, CloudinaryResourceHost, CloudinaryHost);
      true
    else Contains(url, CloudinaryHost)
  }

  /** The extensions the helper accepts, in lower case. */
  const ImageExtensions: seq<string> := [".jpg", ".jpeg", ".png", ".gif", ".webp", ".bmp"]

  /** Whether `s` ends in one of `suffixes`; the source writes the list out as a chain of `||`. */
  function EndsWithAny(s: string, suffixes: seq<string>): (r: bool)
    ensures r <==> exists e :: e in suffixes && EndsWith(s, e)
  {
    if suffixes == [] then false
    else EndsWith(s, suffixes[0]) || EndsWithAny(s, suffixes[1..])
  }

  /** `isValidImageUrl`, given the URL's pathname; `None` when the URL does not parse. */
  function IsValidImageUrl(pathname: Option<string>): (r: bool)
    ensures pathname.None? ==> !r
    ensures r <==> pathname.Some? && exists e :: e in ImageExtensions && EndsWith(Lower(pathname.value), e)
  {
    match pathname
    case None => false
    case Some(p) => EndsWithAny(Lower(p), ImageExtensions)
  }

  /** The test ignores the case of the pathname. */
  lemma ValidImageUrlIgnoresCase(p: string)
    ensures IsValidImageUrl(Some(Lower(p))) == IsValidImageUrl(Some(p))
  {
    LowerIdempotent(p);
  }

  /** A pathname that ends in an upper-case `.PNG` is accepted. */
  lemma UpperCaseExtensionAccepted(p: string)
    ensures IsValidImageUrl(Some(p + ".PNG"))
  {
    LowerConcat(p, ".PNG");
    assert Lower(".PNG") == ".png";
    var l := Lower(p + ".PNG");
    assert l[|l| - 4..] == ".png";
  }
}
