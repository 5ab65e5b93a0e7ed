/**
 * The Next.js app's image field. The image itself (`value`) belongs to the
 * page and changes only through `onChange`, which the page stores; the field
 * keeps the mode (URL entry or upload), the upload flag and the error shown.
 * `confirm` dialogs are boolean parameters, network requests are returned as
 * what they send, and the end of each awaited request is a method of its own.
 *
 * `handleRemoveImage` awaits its DELETE request before it clears the image
 * and leaves URL mode. `toggleMode` and `handleUrlChange` call it without
 * awaiting, so their own updates come first and the removal's updates later
 * (`RemovalSettled`), undoing them.
 */
module NextImageUpload {
  import opened Wrappers
  import opened ImageUtils
  import opened ClientImageUpload

  const NotAnImageError := "Please select an image file"
  const TooLargeError := "File size should be less than 5MB"
  const UploadFailedError := "Failed to upload image"
  const InvalidUrlError := "Please enter a valid image URL"

  /** The upload's checks on the file: the error it shows, if any. */
  function FileError(file: FileInfo): (r: Option<string>)
    ensures r.None? <==> ValidateFile(file, DefaultMaxSizeInMB)
    ensures r.Some? ==> r.value == NotAnImageError || r.value == TooLargeError
  {
    if !Text.StartsWith(file.mimeType, "image/") then Some(NotAnImageError)
    else if file.size > 5 * 1024 * 1024 then Some(TooLargeError)
    else None
  }

  /** Whether the image is one uploaded to Cloudinary. */
  predicate HoldsUpload(value: string) { value != "" && IsCloudinaryUrl(value) }

  /** Whether typing `url` over `value` replaces an upload, which asks for confirmation. */
  predicate ReplacesUpload(value: string, url: string) { HoldsUpload(value) && url != "" }

  /** The form the upload posts: the file, and the image it replaces when that is an upload. */
  datatype UploadRequest = UploadRequest(file: FileInfo, oldImageUrl: Option<string>)

  class ImageUpload {
    var value: string
    var isUploading: bool
    var uploadError: Option<string>
    var isUrlMode: bool
    /** Calls of `handleRemoveImage` whose DELETE request has not answered yet. */
    var pendingRemovals: nat

    /** The field opens in URL mode exactly when it is given a URL that is not an upload. */
    constructor (value: string)
      ensures isUrlMode <==> value != "" && !IsCloudinaryUrl(value)
      ensures this.value == value && !isUploading && uploadError.None? && pendingRemovals == 0
    {
      this.value := value;
      isUploading := false;
      uploadError := None;
      isUrlMode := value != "" && !IsCloudinaryUrl(value);
      pendingRemovals := 0;
    }

    /**
     * `handleFileUpload(file)` up to its request. A rejected file only shows
     * an error; replacing a typed URL needs `confirmed`.
     */
    method StartUpload(file: FileInfo, confirmed: bool) returns (request: Option<UploadRequest>)
      modifies this`isUploading, this`uploadError
      ensures FileError(file).Some? ==>
        request.None? && uploadError == FileError(file) && isUploading == old(isUploading)
      ensures FileError(file).None? && value != "" && !IsCloudinaryUrl(value) && !confirmed ==>
        request.None? && uploadError == old(uploadError) && isUploading == old(isUploading)
      ensures request.Some? <==> FileError(file).None? && (value != "" && !IsCloudinaryUrl(value) ==> confirmed)
      ensures request.Some? ==> isUploading && uploadError.None? && request.value.file == file
      ensures request.Some? ==> request.value.oldImageUrl == if HoldsUpload(value) then Some(value) else None
    {
      var error := FileError(file);
      if error.Some? {
        uploadError := error;
        return None;
      }
      if value != "" && !IsCloudinaryUrl(value) && !confirmed {
        return None;
      }
      isUploading := true;
      uploadError := None;
      request := Some(UploadRequest(file, if HoldsUpload(value) then Some(value) else None));
    }

    /**
     * The upload request's answer: the new image's URL, or `None` when the
     * request failed or answered with an error status.
     */
    method UploadSettled(response: Option<string>)
      modifies this`value, this`isUrlMode, this`uploadError, this`isUploading
      ensures !isUploading
      ensures response.Some? ==> value == response.value && !isUrlMode && uploadError == old(uploadError)
      ensures response.None? ==> value == old(value) && isUrlMode == old(isUrlMode) && uploadError == Some(UploadFailedError)
    {
      if response.Some? {
        value := response.value;
        isUrlMode := false;
      } else {
        uploadError := Some(UploadFailedError);
      }
      isUploading := false;
    }

    /**
     * `handleRemoveImage`: an upload is deleted, and the image is cleared
     * once the DELETE answers; anything else is cleared at once.
     */
    method HandleRemoveImage() returns (deleted: Option<string>)
      modifies this`value, this`isUrlMode, this`pendingRemovals
      ensures deleted == if HoldsUpload(old(value)) then Some(old(value)) else None
      ensures HoldsUpload(old(value)) ==>
        value == old(value) && isUrlMode == old(isUrlMode) && pendingRemovals == old(pendingRemovals) + 1
      ensures !HoldsUpload(old(value)) ==>
        value == "" && !isUrlMode && pendingRemovals == old(pendingRemovals)
    {
      if HoldsUpload(value) {
        deleted := Some(value);
        pendingRemovals := pendingRemovals + 1;
      } else {
        deleted := None;
        value := "";
        isUrlMode := false;
      }
    }

    /** The DELETE of a removal answers (or fails): the image is cleared and the field leaves URL mode. */
    method RemovalSettled()
      requires pendingRemovals > 0
      modifies this`value, this`isUrlMode, this`pendingRemovals
      ensures value == "" && !isUrlMode && pendingRemovals == old(pendingRemovals) - 1
    {
      value := "";
      isUrlMode := false;
      pendingRemovals := pendingRemovals - 1;
    }

    /**
     * `handleUrlChange`, as written: replacing an upload starts its removal
     * without awaiting it; the typed URL is stored and checked.
     * `pathname` is the pathname the URL parser gives for `url`.
     */
    method HandleUrlChange(url: string, pathname: Option<string>, confirmed: bool) returns (deleted: Option<string>)
      modifies this`value, this`isUrlMode, this`pendingRemovals, this`uploadError
      ensures ReplacesUpload(old(value), url) && !confirmed ==>
        deleted.None? && value == old(value) && uploadError == old(uploadError) && pendingRemovals == old(pendingRemovals)
      ensures !(ReplacesUpload(old(value), url) && !confirmed) ==> value == url
      ensures !(ReplacesUpload(old(value), url) && !confirmed) ==>
        (uploadError.Some? <==> url != "" && !IsValidImageUrl(pathname))
      ensures uploadError.Some? && !(ReplacesUpload(old(value), url) && !confirmed) ==> uploadError == Some(InvalidUrlError)
      ensures deleted.Some? <==> ReplacesUpload(old(value), url) && confirmed
      ensures deleted.Some? ==> deleted == Some(old(value)) && pendingRemovals == old(pendingRemovals) + 1
      ensures deleted.None? ==> pendingRemovals == old(pendingRemovals)
      ensures isUrlMode == old(isUrlMode)
    {
      deleted := None;
      if ReplacesUpload(value, url) {
        if !confirmed {
          return;
        }
        deleted := HandleRemoveImage();
      }
      value := url;
      uploadError := if url != "" && !IsValidImageUrl(pathname) then Some(InvalidUrlError) else None;
    }

    /**
     * `handleUrlChange` as evidently intended: the upload is deleted and the
     * typed URL replaces it for good, still in URL mode.
     */
    method HandleUrlChangeCorrected(url: string, pathname: Option<string>, confirmed: bool) returns (deleted: Option<string>)
      modifies this`value, this`uploadError
      ensures ReplacesUpload(old(value), url) && !confirmed ==>
        deleted.None? && value == old(value) && uploadError == old(uploadError)
      ensures !(ReplacesUpload(old(value), url) && !confirmed) ==> value == url
      ensures !(ReplacesUpload(old(value), url) && !confirmed) ==>
        (uploadError.Some? <==> url != "" && !IsValidImageUrl(pathname))
      ensures deleted.Some? <==> ReplacesUpload(old(value), url) && confirmed
      ensures deleted.Some? ==> deleted == Some(old(value))
    {
      deleted := None;
      if ReplacesUpload(value, url) {
        if !confirmed {
          return;
        }
        deleted := Some(value);
      }
      value := url;
      uploadError := if url != "" && !IsValidImageUrl(pathname) then Some(InvalidUrlError) else None;
    }

    /**
     * `toggleMode`, as written: leaving upload mode with an upload asks for
     * confirmation and starts the upload's removal without awaiting it;
     * every other case flips the mode.
     */
    method ToggleMode(confirmed: bool) returns (deleted: Option<string>)
      modifies this`value, this`isUrlMode, this`pendingRemovals
      ensures !old(isUrlMode) && HoldsUpload(old(value)) && !confirmed ==>
        deleted.None? && !isUrlMode && pendingRemovals == old(pendingRemovals)
      ensures !old(isUrlMode) && HoldsUpload(old(value)) && confirmed ==>
        deleted == Some(old(value)) && isUrlMode && pendingRemovals == old(pendingRemovals) + 1
      ensures !(!old(isUrlMode) && HoldsUpload(old(value))) ==>
        deleted.None? && isUrlMode == !old(isUrlMode) && pendingRemovals == old(pendingRemovals)
      ensures value == old(value)
    {
      deleted := None;
      if !isUrlMode && value != "" {
        if IsCloudinaryUrl(value) {
          if confirmed {
            deleted := HandleRemoveImage();
            isUrlMode := true;
          }
        } else {
          isUrlMode := true;
        }
      } else {
        isUrlMode := !isUrlMode;
      }
    }

    /**
     * `toggleMode` as evidently intended: a confirmed switch deletes the
     * upload, clears the image and stays in URL mode.
     */
    method ToggleModeCorrected(confirmed: bool) returns (deleted: Option<string>)
      modifies this`value, this`isUrlMode
      ensures !old(isUrlMode) && HoldsUpload(old(value)) && !confirmed ==>
        deleted.None? && !isUrlMode && value == old(value)
      ensures !old(isUrlMode) && HoldsUpload(old(value)) && confirmed ==>
        deleted == Some(old(value)) && isUrlMode && value == ""
      ensures !(!old(isUrlMode) && HoldsUpload(old(value))) ==>
        deleted.None? && isUrlMode == !old(isUrlMode) && value == old(value)
    {
      deleted := None;
      if !isUrlMode && HoldsUpload(value) {
        if confirmed {
          deleted := Some(value);
          value := "";
          isUrlMode := true;
        }
      } else {
        isUrlMode := !isUrlMode;
      }
    }
  }

  /** A confirmed switch to URL mode is undone once the upload's DELETE answers. */
  method ConfirmedToggleReverts(c: ImageUpload)
    requires !c.isUrlMode && HoldsUpload(c.value)
    modifies c
    ensures !c.isUrlMode && c.value == ""
  {
    var deleted := c.ToggleMode(true);
    assert c.isUrlMode;
    c.RemovalSettled();
  }

  /** A confirmed URL that replaces an upload is erased once the upload's DELETE answers. */
  method ConfirmedUrlErased(c: ImageUpload, url: string, pathname: Option<string>)
    requires HoldsUpload(c.value) && url != ""
    modifies c
    ensures c.value == "" && !c.isUrlMode
  {
    var deleted := c.HandleUrlChange(url, pathname, true);
    assert c.value == url;
    c.RemovalSettled();
  }
}
