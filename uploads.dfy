/**
 * The image handling both editors share: the image input's selection, and
 * the URL a submit stores, which comes from uploading a newly picked file
 * and is otherwise empty. The upload service's answer is a parameter.
 */
module Uploads {
  import opened Options

  /** A file picked in the image input. */
  datatype File = File(name: string)

  /** The selected image: files still to upload, and the URL shown as preview. */
  datatype ImageSelection = ImageSelection(files: seq<File>, url: string)

  /** A file the upload service stored, with its public URL. */
  datatype UploadedFile = UploadedFile(ufsUrl: string)

  /** What `startUpload` gives back: the stored files, nothing, or an error. */
  datatype UploadReply = Uploaded(stored: seq<UploadedFile>) | NoResult | UploadThrew

  /** `handleImageChange`: no file list clears the selection; otherwise the
      first file is selected with its object URL. For an empty list the
      object-URL call throws before anything is set. */
  function ImageAfterChange(current: Option<ImageSelection>, files: Option<seq<File>>, objectUrl: string): (r: Option<ImageSelection>)
    ensures files.None? ==> r == None
    ensures files.Some? && files.value != [] ==> r == Some(ImageSelection([files.value[0]], objectUrl)) && |r.value.files| == 1
    ensures files.Some? && files.value == [] ==> r == current
  {
    match files
    case None => None
    case Some(fs) => if fs == [] then current else Some(ImageSelection([fs[0]], objectUrl))
  }

  /** The image URL a submit stores, or `None` when getting it throws (the
      upload throws, or reports no file so that reading the first one
      fails). An upload happens only when a newly picked file is selected. */
  function SubmittedImageUrl(image: Option<ImageSelection>, upload: UploadReply): (r: Option<string>)
    ensures (image.None? || image.value.files == []) ==> r == Some("")
    ensures r.Some? ==> r.value == "" || (upload.Uploaded? && upload.stored != [] && r.value == upload.stored[0].ufsUrl)
    ensures r.None? <==> image.Some? && image.value.files != [] && (upload.UploadThrew? || upload == Uploaded([]))
  {
    if image.Some? && |image.value.files| > 0 then
      match upload
      case UploadThrew => None
      case NoResult => Some("")
      case Uploaded(stored) => if stored == [] then None else Some(stored[0].ufsUrl)
    else Some("")
  }

  /** A previously loaded image is never resubmitted: with no new file
      picked, the stored URL is "" whatever the upload service would answer. */
  lemma LoadedImageNotResubmitted(url: string, upload: UploadReply)
    ensures SubmittedImageUrl(Some(ImageSelection([], url)), upload) == Some("")
  {
  }

  /** A newly picked file is uploaded and its stored URL used. */
  lemma PickedImageUploaded(current: Option<ImageSelection>, file: File, objectUrl: string, url: string)
    ensures SubmittedImageUrl(ImageAfterChange(current, Some([file]), objectUrl), Uploaded([UploadedFile(url)])) == Some(url)
  {
  }
}
