/** Upload validation and the storage key and proxy URL an upload is given. The storage
    client and its network call are outside the model: their combined outcome is a parameter. */
module Storage {
  import opened Wrappers
  import opened Strings
  import Decimal
  import DocumentUrl

  const AllowedMimeTypes: seq<string> :=
    ["image/jpeg", "image/jpg", "image/png", "image/gif", "image/webp", "application/pdf"]

  const MaxFileSize: int := 10 * 1024 * 1024

  const TypeError := "Invalid file type. Only images (JPEG, PNG, GIF, WebP) and PDF files are allowed."

  function SizeError(): string {
    "File size exceeds maximum allowed size of " + Decimal.IntToString(MaxFileSize / 1024 / 1024) + "MB"
  }

  datatype Validation = Valid | Invalid(error: string)

  /** `validateFile`: the type is checked before the size. */
  function ValidateFile(mimeType: string, size: int): (v: Validation)
    ensures v.Valid? <==> mimeType in AllowedMimeTypes && size <= MaxFileSize
    ensures mimeType !in AllowedMimeTypes ==> v == Invalid(TypeError)
    ensures mimeType in AllowedMimeTypes && size > MaxFileSize ==> v == Invalid(SizeError())
  {
    if mimeType !in AllowedMimeTypes then Invalid(TypeError)
    else if size > MaxFileSize then Invalid(SizeError())
    else Valid
  }

  /** Exactly 10 MiB is accepted; one byte more is not. */
  lemma SizeBoundary()
    ensures ValidateFile("application/pdf", 10_485_760) == Valid
    ensures ValidateFile("application/pdf", 10_485_761) == Invalid(SizeError())
    ensures ValidateFile("text/plain", 10_485_761) == Invalid(TypeError)
  {
    assert "application/pdf" == AllowedMimeTypes[5];
  }

  /** `fileName.split('.').pop() || ''`: the text after the last '.'. */
  function Extension(fileName: string): (ext: string)
    ensures '.' !in ext
  {
    LastOf(Split(fileName, '.'))
  }

  /** The extension is a suffix of the name; it is the whole name when there is no '.', and
      otherwise it directly follows the last '.'. */
  lemma ExtensionShape(fileName: string)
    ensures var ext := Extension(fileName);
            && |ext| <= |fileName| && fileName[|fileName| - |ext|..] == ext
            && ('.' !in fileName ==> ext == fileName)
            && ('.' in fileName ==> |ext| < |fileName| && fileName[|fileName| - |ext| - 1] == '.')
  {
    SplitLast(fileName, '.');
  }

  /** A name ending in '.' has the empty extension. */
  lemma ExtensionOfTrailingDot(fileName: string)
    requires |fileName| > 0 && fileName[|fileName| - 1] == '.'
    ensures Extension(fileName) == ""
  {
    ExtensionShape(fileName);
    LastInSuffix(fileName, |Extension(fileName)|);
  }

  datatype Uploaded = Uploaded(fileKey: string, publicUrl: string)

  /** `uploadFile` for a file of `size` bytes; `uuid` is the random id and `storage` the
      outcome of obtaining the client and sending the object (None when both succeed). */
  function UploadFile(size: int, fileName: string, mimeType: string, uuid: string,
                      storage: Option<string>): (r: Result<Uploaded, string>)
    // a file that fails validation is rejected whatever the storage would have done
    ensures ValidateFile(mimeType, size).Invalid? ==> r == Failure(ValidateFile(mimeType, size).error)
    ensures ValidateFile(mimeType, size).Valid? && storage.Some? ==> r == Failure(storage.value)
    ensures r.Success? <==> ValidateFile(mimeType, size).Valid? && storage.None?
    ensures r.Success? ==>
              && r.value.fileKey == "documents/" + uuid + "." + Extension(fileName)
              && r.value.publicUrl == DocumentUrl.ProxyPrefix + r.value.fileKey
              && DocumentUrl.Normalize(r.value.publicUrl) == r.value.publicUrl
  {
    var validation := ValidateFile(mimeType, size);
    if validation.Invalid? then Failure(validation.error)
    else if storage.Some? then Failure(storage.value)
    else
      var fileKey := "documents/" + uuid + "." + Extension(fileName);
      var publicUrl := DocumentUrl.ProxyPrefix + fileKey;
      assert StartsWith(publicUrl, DocumentUrl.ProxyPrefix) by {
        assert publicUrl[..|DocumentUrl.ProxyPrefix|] == DocumentUrl.ProxyPrefix;
      }
      Success(Uploaded(fileKey, publicUrl))
  }
}
