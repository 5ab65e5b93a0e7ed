/**
 * The Vite client's image field. It keeps the shown image (`previewUrl`),
 * the image it last settled on (`previousImageUrl`) and whether that image
 * is a file this field uploaded (`isUploadedFile`); only such an image is
 * ever deleted from Cloudinary. The upload and the deletion are network
 * calls: the upload's outcome is a parameter, and a deletion is returned as
 * the URL it is issued for. `onChange` calls are returned as the URL passed.
 */
module ClientImageUpload {
  import opened Wrappers
  import opened Text

  const MegaByte: nat := 1024 * 1024
  const DefaultMaxSizeInMB: nat := 5

  /** The two properties of a `File` the field looks at: its MIME type and its size in bytes. */
  datatype FileInfo = FileInfo(mimeType: string, size: nat)

  /** `validateFile`: an image type, at most `maxSizeInMB` mebibytes. */
  function ValidateFile(file: FileInfo, maxSizeInMB: nat): (r: bool)
    ensures r <==> StartsWith(file.mimeType, "image/") && file.size <= maxSizeInMB * MegaByte
  {
    if !StartsWith(file.mimeType, "image/") then false
    else if file.size > maxSizeInMB * MegaByte then false
    else true
  }

  /** A larger limit accepts every file a smaller one does. */
  lemma ValidateFileMonotone(file: FileInfo, m: nat, n: nat)
    requires m <= n && ValidateFile(file, m)
    ensures ValidateFile(file, n)
  {
    assert m * MegaByte <= n * MegaByte;
  }

  /** Under the default limit of 5 MB, exactly 5 MiB is accepted and one byte more is not. */
  lemma DefaultLimitBoundary(mimeType: string)
    requires StartsWith(mimeType, "image/")
    ensures ValidateFile(FileInfo(mimeType, 5 * MegaByte), DefaultMaxSizeInMB)
    ensures !ValidateFile(FileInfo(mimeType, 5 * MegaByte + 1), DefaultMaxSizeInMB)
  {
  }

  /** What a replacing upload deletes: the earlier image, when it was this field's upload and is replaced. */
  function ReplacedUpload(current: string, uploaded: string, wasUploaded: bool): (r: Option<string>)
    ensures r.Some? <==> current != "" && current != uploaded && wasUploaded
    ensures r.Some? ==> r.value == current
  {
    if current != "" && current != uploaded && wasUploaded then Some(current) else None
  }

  class ImageUpload {
    var previewUrl: string
    var isUploadedFile: bool
    var previousImageUrl: string
    const maxSizeInMB: nat

    /**
     * Between handlers the shown image is the one last settled on, and an
     * image marked as uploaded is a real URL.
     */
    predicate Valid()
      reads this
    {
      previewUrl == previousImageUrl && (isUploadedFile ==> previewUrl != "")
    }

    /** The field opens on `value || ""`, not marked as uploaded. */
    constructor (value: Option<string>, maxSizeInMB: nat)
      ensures Valid()
      ensures previewUrl == value.GetOr("") && !isUploadedFile && this.maxSizeInMB == maxSizeInMB
    {
      previewUrl := value.GetOr("");
      previousImageUrl := value.GetOr("");
      isUploadedFile := false;
      this.maxSizeInMB := maxSizeInMB;
    }

    /** Whether the URL input accepts typing: not while uploading, nor while an upload is shown. */
    predicate UrlInputEnabled(isUploading: bool)
      reads this
    {
      !isUploading && !isUploadedFile
    }

    /**
     * `handleFileSelect(file)` once the upload settles with `uploaded`
     * (`None` for a rejected promise). A rejected file changes nothing. A
     * falsy upload result restores the earlier image but forgets that it
     * was an upload, so that image is never deleted afterwards.
     */
    method HandleFileSelect(file: FileInfo, uploaded: Option<string>) returns (deleted: Option<string>, emitted: Option<string>)
      requires Valid()
      modifies this
      ensures Valid()
      ensures !ValidateFile(file, maxSizeInMB) ==>
        deleted.None? && emitted.None? && previewUrl == old(previewUrl) && isUploadedFile == old(isUploadedFile)
      ensures ValidateFile(file, maxSizeInMB) && Truthy(uploaded) ==>
        emitted == uploaded && previewUrl == uploaded.value && isUploadedFile &&
        deleted == ReplacedUpload(old(previewUrl), uploaded.value, old(isUploadedFile))
      ensures ValidateFile(file, maxSizeInMB) && !Truthy(uploaded) ==>
        deleted.None? && emitted.None? && previewUrl == old(previewUrl) && !isUploadedFile
      ensures deleted.Some? ==> deleted == Some(old(previewUrl)) && old(isUploadedFile)
      ensures ValidateFile(file, maxSizeInMB) && Truthy(uploaded) ==> !UrlInputEnabled(false)
    {
      deleted, emitted := None, None;
      if !ValidateFile(file, maxSizeInMB) {
        return;
      }
      var currentImageUrl := previewUrl;
      var wasUploaded := isUploadedFile;
      if Truthy(uploaded) {
        var url := uploaded.value;
        deleted := ReplacedUpload(currentImageUrl, url, wasUploaded);
        emitted := Some(url);
        previewUrl := url;
        previousImageUrl := url;
        isUploadedFile := true;
      } else {
        previewUrl := currentImageUrl;
        isUploadedFile := false;
      }
    }

    /** `handleUrlChange(url)`: a typed URL is shown, passed on, and never counted as an upload. */
    method HandleUrlChange(url: string) returns (emitted: string)
      requires Valid()
      modifies this
      ensures Valid()
      ensures emitted == url && previewUrl == url && !isUploadedFile
      ensures UrlInputEnabled(false)
    {
      previewUrl := url;
      previousImageUrl := url;
      isUploadedFile := false;
      emitted := url;
    }

    /** `clearImage`: an uploaded image is deleted; the field is emptied and `""` passed on. */
    method ClearImage() returns (deleted: Option<string>, emitted: string)
      requires Valid()
      modifies this
      ensures Valid()
      ensures deleted == if old(isUploadedFile) then Some(old(previewUrl)) else None
      ensures emitted == "" && previewUrl == "" && !isUploadedFile
      ensures UrlInputEnabled(false)
    {
      deleted := if previewUrl != "" && isUploadedFile then Some(previewUrl) else None;
      previewUrl := "";
      previousImageUrl := "";
      isUploadedFile := false;
      emitted := "";
    }
  }
}
