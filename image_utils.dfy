/** `validateImageFile` of lib/image-utils.ts: a membership test on the MIME type, then a size bound. */
module ImageUtils {
  import opened Common
  import Constants

  /** The two fields of a browser `File` the validator reads. */
  datatype FileInfo = FileInfo(mimeType: string, size: nat)

  /** `{ valid: boolean; error?: string }`. */
  datatype Validation = Validation(valid: bool, error: Option<string>)

  const SupportedTypes: seq<string> := ["image/jpeg", "image/jpg", "image/png", "image/webp"]

  /** The limit local to the validator, `10 * 1024 * 1024`; it agrees with the configured maximum. */
  const MaxSize: nat := 10 * 1024 * 1024

  /** The message lists the supported types joined with ", ". */
  const UnsupportedTypeMessage: string := "Unsupported file type. Please use: image/jpeg, image/jpg, image/png, image/webp"

  /** The message prints `maxSize / 1024 / 1024`, which is 10. */
  const TooLargeMessage: string := "File too large. Maximum size is 10MB"

  /**
   * The type check comes first, so a file that is both of an unsupported type
   * and too large reports the type. A valid file carries no error message and
   * an invalid one always does.
   */
  function ValidateImageFile(file: FileInfo): (r: Validation)
    ensures r.valid <==> file.mimeType in SupportedTypes && file.size <= Constants.MaxSizeBytes
    ensures r.error.None? <==> r.valid
    ensures file.mimeType !in SupportedTypes ==> r.error == Some(UnsupportedTypeMessage)
    ensures file.mimeType in SupportedTypes && !r.valid ==> r.error == Some(TooLargeMessage)
  {
    if file.mimeType !in SupportedTypes then
      Validation(false, Some(UnsupportedTypeMessage))
    else if file.size > MaxSize then
      Validation(false, Some(TooLargeMessage))
    else
      Validation(true, None)
  }

  /** Exactly 10485760 bytes is accepted and one byte more is rejected. */
  lemma SizeBoundary(mimeType: string)
    requires mimeType in SupportedTypes
    ensures ValidateImageFile(FileInfo(mimeType, 10485760)).valid
    ensures !ValidateImageFile(FileInfo(mimeType, 10485761)).valid
  {
  }

  /** The type comparison is exact: an upper-case spelling of a supported type is rejected. */
  lemma TypeIsCaseSensitive(size: nat)
    ensures ValidateImageFile(FileInfo("IMAGE/PNG", size)) == Validation(false, Some(UnsupportedTypeMessage))
  {
    assert "IMAGE/PNG"[0] != "image/png"[0];
  }
}
