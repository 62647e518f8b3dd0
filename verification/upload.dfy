/** The image checks of the upload path: `validateImageFile`, written twice (src/app/api/upload/route.js
    and src/lib/imgbb.js), and the upload handler's checks ahead of the image host call. The host
    call itself is the parameter `outcome`. */
module Upload {
  import opened Wrappers

  /** An uploaded file as the validators see it: its MIME type and its size in bytes. */
  datatype File = File(mimeType: string, size: nat)

  /** The image host's size limit, 32 MiB. */
  const MaxSize: nat := 32 * 1024 * 1024

  const AllowedTypes: seq<string> := ["image/jpeg", "image/jpg", "image/png", "image/gif", "image/webp"]

  const NoFileSelected: string := "No file selected"
  const InvalidType: string := "Invalid file type. Only JPEG, PNG, GIF, and WebP are allowed."
  const TooLarge: string := "File size too large. Maximum size is 32MB."

  datatype Validation = Valid | Invalid(error: string)

  /** An acceptable image: one of the five types and at most 32 MiB. */
  predicate Acceptable(f: File) {
    f.mimeType in AllowedTypes && f.size <= MaxSize
  }

  /** The upload route's validator: a missing file, then the type, then the size. */
  function ValidateImageFile(file: Option<File>): (v: Validation)
    ensures v.Valid? <==> file.Some? && Acceptable(file.value)
    ensures file.None? ==> v == Invalid(NoFileSelected)
    ensures file.Some? && file.value.mimeType !in AllowedTypes ==> v == Invalid(InvalidType)
    ensures file.Some? && file.value.mimeType in AllowedTypes && file.value.size > MaxSize ==> v == Invalid(TooLarge)
  {
    if file.None? then Invalid(NoFileSelected)
    else if file.value.mimeType !in AllowedTypes then Invalid(InvalidType)
    else if file.value.size > MaxSize then Invalid(TooLarge)
    else Valid
  }

  /** The image library's copy of the validator. */
  function ImgbbValidateImageFile(file: Option<File>): (v: Validation)
    ensures v.Valid? <==> file.Some? && Acceptable(file.value)
    ensures v.Invalid? ==> v.error in [NoFileSelected, InvalidType, TooLarge]
  {
    match file
    case None => Invalid(NoFileSelected)
    case Some(f) =>
      if !(f.mimeType in AllowedTypes) then Invalid(InvalidType)
      else if f.size > MaxSize then Invalid(TooLarge)
      else Valid
  }

  /** The two copies agree on every input, messages included. */
  lemma {:induction false} ValidatorsAgree(file: Option<File>)
    ensures ValidateImageFile(file) == ImgbbValidateImageFile(file)
  {
    match file
    case None =>
    case Some(f) =>
      if f.mimeType in AllowedTypes && f.size <= MaxSize {
        assert ImgbbValidateImageFile(file) == Valid;
      }
  }

  /** The size limit is inclusive: a file of exactly 32 MiB passes, one byte more does not. */
  lemma SizeLimitInclusive(t: string)
    requires t in AllowedTypes
    ensures ValidateImageFile(Some(File(t, 33554432))) == Valid
    ensures ValidateImageFile(Some(File(t, 33554433))) == Invalid(TooLarge)
  {
  }

  /** What the image host returns for a successful upload. */
  datatype Hosted = Hosted(url: string, deleteUrl: string, id: string)

  /** `POST /api/upload`: a missing file gives 400 "No file provided"; a file the validator refuses
      gives 400 with the validator's message; otherwise the host's outcome decides: its details on
      success, 500 with its message (or a fixed one when that is empty) on failure. */
  function UploadImage(file: Option<File>, outcome: Result<Hosted>): (r: Reply<Hosted>)
    ensures file.None? ==> r == Failure(400, "No file provided")
    ensures file.Some? && !Acceptable(file.value) ==> r == Failure(400, ValidateImageFile(file).error)
    ensures r.Success? <==> file.Some? && Acceptable(file.value) && outcome.Ok?
    ensures r.Success? ==> r == Success(200, outcome.value)
    ensures file.Some? && Acceptable(file.value) && outcome.Err? ==>
      r == Failure(500, if outcome.msg == "" then "Failed to upload file" else outcome.msg)
  {
    if file.None? then Failure(400, "No file provided")
    else
      match ValidateImageFile(file)
      case Invalid(error) => Failure(400, error)
      case Valid =>
        match outcome
        case Ok(h) => Success(200, h)
        case Err(msg) => Failure(500, if msg == "" then "Failed to upload file" else msg)
  }

  /** The handler answers a missing file itself, so the validator's "No file selected" never
      reaches a client. */
  lemma NoFileSelectedNeverReplied(file: Option<File>, outcome: Result<Hosted>)
    requires outcome.Err? ==> outcome.msg != NoFileSelected
    ensures UploadImage(file, outcome) != Failure(400, NoFileSelected)
  {
  }
}
