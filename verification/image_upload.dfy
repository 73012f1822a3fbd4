/** The admin spot form's image picker (app/admin/spots/image-upload.tsx):
    the two guards a chosen file passes before it is uploaded, how the
    picker's state and its callback follow the upload's outcome, and image
    removal. The upload request itself is an input: the URL the server
    returned, or None when it failed. */
module ImageUpload {
  import opened Common
  import opened Text

  /** The largest accepted file, 5 MiB. */
  const MAX_IMAGE_BYTES: nat := 5 * 1024 * 1024

  datatype File = File(mimeType: string, size: nat)

  /** What the guards decide for the first selected file, if any. */
  datatype Check = NoFile | WrongType | TooLarge | Upload

  function CheckFile(file: Option<File>): (c: Check)
    ensures c == NoFile <==> file.None?
    ensures c == WrongType <==> file.Some? && !StartsWith(file.value.mimeType, "image/")
    ensures c == TooLarge <==> file.Some? && StartsWith(file.value.mimeType, "image/") && file.value.size > MAX_IMAGE_BYTES
    ensures c == Upload <==> file.Some? && StartsWith(file.value.mimeType, "image/") && file.value.size <= 5242880
  {
    if file.None? then NoFile
    else if !StartsWith(file.value.mimeType, "image/") then WrongType
    else if file.value.size > MAX_IMAGE_BYTES then TooLarge
    else Upload
  }

  /** The toast shown after a choice. */
  datatype Notice = InvalidFileType | FileTooLarge | ImageUploaded | UploadFailed

  /** The picker's state: the shown image and the busy flag. */
  datatype Picker = Picker(image: Option<string>, uploading: bool)

  /** The effect of one choice: the new state, the URL reported to the
      form (if any) and the toast (if any). */
  datatype Effect = Effect(picker: Picker, reported: Option<string>, notice: Option<Notice>)

  /** `handleFileChange`. `uploaded` is what the upload request returned:
      the stored image's URL, or None when it failed; it is consulted only
      when both guards pass. */
  function FileChanged(p: Picker, file: Option<File>, uploaded: Option<string>): (e: Effect)
    ensures CheckFile(file) == NoFile ==> e == Effect(p, None, None)
    ensures CheckFile(file) == WrongType ==> e == Effect(p, None, Some(InvalidFileType))
    ensures CheckFile(file) == TooLarge ==> e == Effect(p, None, Some(FileTooLarge))
    ensures e.reported.Some? <==> CheckFile(file) == Upload && uploaded.Some?
    ensures e.reported.Some? ==> e.picker.image == e.reported && e.reported == uploaded
    ensures CheckFile(file) == Upload ==> !e.picker.uploading
    ensures CheckFile(file) == Upload && uploaded.None? ==> e == Effect(p.(uploading := false), None, Some(UploadFailed))
  {
    match CheckFile(file)
    case NoFile => Effect(p, None, None)
    case WrongType => Effect(p, None, Some(InvalidFileType))
    case TooLarge => Effect(p, None, Some(FileTooLarge))
    case Upload =>
      // `isUploading` is set for the request and cleared in `finally`
      if uploaded.Some? then Effect(Picker(uploaded, false), uploaded, Some(ImageUploaded))
      else Effect(Picker(p.image, false), None, Some(UploadFailed))
  }

  /** `handleRemoveImage`: no image, and "" reported to the form. */
  function Removed(p: Picker): (e: Effect)
    ensures e.picker.image.None? && e.picker.uploading == p.uploading
    ensures e.reported == Some("") && e.notice.None?
  {
    Effect(p.(image := None), Some(""), None)
  }

  /** The busy flag is never left set by a choice that started idle. */
  lemma IdleAfterChoice(p: Picker, file: Option<File>, uploaded: Option<string>)
    requires !p.uploading
    ensures !FileChanged(p, file, uploaded).picker.uploading
  {
  }

  /** The size limit is inclusive: a 5 MiB image is uploaded, one byte more
      is refused. */
  lemma SizeBoundary(mimeType: string)
    requires StartsWith(mimeType, "image/")
    ensures CheckFile(Some(File(mimeType, 5242880))) == Upload
    ensures CheckFile(Some(File(mimeType, 5242881))) == TooLarge
  {
  }

  /** A refused file never reaches the form: nothing is reported and the
      picker is as it was. */
  lemma RefusedFileChangesNothing(p: Picker, file: Option<File>, uploaded: Option<string>)
    requires CheckFile(file) != Upload
    ensures FileChanged(p, file, uploaded).picker == p
    ensures FileChanged(p, file, uploaded).reported.None?
  {
  }
}
