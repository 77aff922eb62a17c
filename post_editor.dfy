/**
 * The dashboard's post editor: the post being written (title, content,
 * published flag, tags, featured image), the per-field error messages, the
 * selected image, and the handlers that update them. The post schema and
 * the upload service are parameters; the network request is returned as
 * data rather than sent.
 */
module PostEditor {
  import opened Options
  import opened Lists
  import opened ZodErrors
  import opened Entries
  import opened Uploads

  /** The two text fields whose changes are validated as they are typed. */
  datatype TextField = Title | Content

  function FieldKey(field: TextField): string
  {
    match field
    case Title => "title"
    case Content => "content"
  }

  /** The JSON body of the save request. */
  datatype PostBody = PostBody(title: string, content: string, published: bool, tags: seq<string>, featuredImage: string)

  /** A post as the editor loads it from the API. */
  datatype LoadedPost = LoadedPost(title: string, content: string, published: bool, tags: seq<string>, featuredImage: string)

  datatype HttpMethod = Put | Post

  datatype Request = Request(verb: HttpMethod, path: string, body: PostBody)

  /** How a submit ends: a request to send, a payload refused by the
      schema, or an error thrown before any request. */
  datatype SubmitOutcome = Send(request: Request) | Invalid | Failed

  /** The new error map after an invalid submit: the formatted issues
      spread over the previous errors. */
  function MergeErrors(prev: map<string, string>, issues: seq<Issue>): map<string, string>
  {
    prev + Flatten(issues)
  }

  /** Merging overwrites exactly the fields the issues name, each with the
      message of its last issue, and keeps every other field's error. */
  lemma MergeErrorsOverwritesReported(prev: map<string, string>, issues: seq<Issue>)
    ensures MergeErrors(prev, issues).Keys == prev.Keys + IssueKeys(issues)
    ensures forall k :: k in prev && k !in IssueKeys(issues) ==> MergeErrors(prev, issues)[k] == prev[k]
    ensures forall i :: 0 <= i < |issues| && (forall j :: i < j < |issues| ==> Key(issues[j]) != Key(issues[i])) ==>
      MergeErrors(prev, issues)[Key(issues[i])] == issues[i].message
  {
    FlattenKeys(issues);
    forall i | 0 <= i < |issues| && (forall j :: i < j < |issues| ==> Key(issues[j]) != Key(issues[i]))
      ensures MergeErrors(prev, issues)[Key(issues[i])] == issues[i].message
    {
      FlattenLastWins(issues, i);
    }
  }

  class Editor {
    const isEditing: bool
    const id: string
    var title: string
    var content: string
    var published: bool
    var tags: seq<string>
    var featuredImage: string
    var errors: map<string, string>
    var image: Option<ImageSelection>

    /** The initial state: an empty draft, every field error empty, no image. */
    constructor (isEditing: bool, id: string)
      ensures this.isEditing == isEditing && this.id == id
      ensures title == "" && content == "" && !published && tags == [] && featuredImage == ""
      ensures errors == map["title" := "", "content" := "", "tags" := "", "featuredImage" := ""]
      ensures image == None
    {
      this.isEditing, this.id := isEditing, id;
      title, content, published, tags, featuredImage := "", "", false, [], "";
      errors := map["title" := "", "content" := "", "tags" := "", "featuredImage" := ""];
      image := None;
    }

    /** The load effect, when the fetch succeeds: the post's fields are
        copied and its image becomes the preview, with no file to upload. */
    method Load(data: LoadedPost)
      modifies this
      ensures title == data.title && content == data.content && published == data.published
      ensures tags == data.tags && featuredImage == data.featuredImage
      ensures image == Some(ImageSelection([], data.featuredImage))
      ensures errors == old(errors)
    {
      title, content, published, tags, featuredImage := data.title, data.content, data.published, data.tags, data.featuredImage;
      image := Some(ImageSelection([], data.featuredImage));
    }

    /** `handleImageChange`. */
    method ImageChange(files: Option<seq<File>>, objectUrl: string)
      modifies this`image
      ensures image == ImageAfterChange(old(image), files, objectUrl)
    {
      image := ImageAfterChange(image, files, objectUrl);
    }

    /** The image's Remove button: the selection is dropped, so a submit
        that follows uploads nothing and sends "" as the image URL. */
    method RemoveImage()
      modifies this`image
      ensures image == None
      ensures forall upload :: SubmittedImageUrl(image, upload) == Some("")
    {
      image := None;
    }

    /** The upload-complete callback: a non-empty URL of the first stored
        file becomes the featured image. */
    method UploadComplete(firstUrl: Option<string>)
      modifies this`featuredImage
      ensures firstUrl.Some? && firstUrl.value != "" ==> featuredImage == firstUrl.value
      ensures firstUrl.None? || firstUrl.value == "" ==> featuredImage == old(featuredImage)
    {
      if firstUrl.Some? && firstUrl.value != "" {
        featuredImage := firstUrl.value;
      }
    }

    /** `handleContentChange`: the value is always stored; the field's error
        becomes the first issue's message, or "" when the field is valid;
        other fields' errors are untouched. */
    method ContentChange(field: TextField, value: string, validateField: string -> seq<Issue>)
      modifies this`title, this`content, this`errors
      ensures field == Title ==> title == value && content == old(content)
      ensures field == Content ==> content == value && title == old(title)
      ensures validateField(value) != [] ==> errors == old(errors)[FieldKey(field) := validateField(value)[0].message]
      ensures validateField(value) == [] ==> errors == old(errors)[FieldKey(field) := ""]
    {
      var issues := validateField(value);
      if issues != [] {
        errors := errors[FieldKey(field) := issues[0].message];
      } else {
        errors := errors[FieldKey(field) := ""];
      }
      match field {
        case Title => title := value;
        case Content => content := value;
      }
    }

    method PublishedChange(checked: bool)
      modifies this`published
      ensures published == checked
    {
      published := checked;
    }

    /** The tag input's Enter handler: the trimmed value is appended when it
        is non-blank and new, and the input is then cleared. */
    method AddTag(input: string) returns (clearInput: bool)
      modifies this`tags
      ensures tags == AddEntry(old(tags), input)
      ensures clearInput == Accepts(old(tags), input)
      ensures NoDuplicates(old(tags)) ==> NoDuplicates(tags)
    {
      clearInput := Accepts(tags, input);
      if NoDuplicates(tags) {
        AddEntryKeepsNoDuplicates(tags, input);
      }
      tags := AddEntry(tags, input);
    }

    /** A tag's remove button: every tag equal to it is removed. */
    method RemoveTag(tag: string)
      modifies this`tags
      ensures tags == RemoveAll(old(tags), tag)
      ensures NoDuplicates(old(tags)) ==> NoDuplicates(tags)
    {
      RemoveEntryKeepsOthers(tags, tag);
      tags := RemoveAll(tags, tag);
    }

    /** `handleSubmit`: upload a newly picked image, build the body with the
        uploaded URL or "", validate it; an invalid body merges its errors
        and sends nothing, a valid one is sent with PUT when editing and
        POST otherwise. */
    method Submit(upload: UploadReply, validate: PostBody -> seq<Issue>) returns (outcome: SubmitOutcome)
      modifies this`errors
      ensures SubmittedImageUrl(image, upload).None? ==> outcome == Failed && errors == old(errors)
      ensures SubmittedImageUrl(image, upload).Some? ==>
        var body := PostBody(title, content, published, tags, SubmittedImageUrl(image, upload).value);
        && (validate(body) != [] ==> outcome == Invalid && errors == MergeErrors(old(errors), validate(body)))
        && (validate(body) == [] ==> errors == old(errors) && outcome == Send(
              if isEditing then Request(Put, "/api/posts/" + id, body) else Request(Post, "/api/posts", body)))
    {
      var url := SubmittedImageUrl(image, upload);
      if url.None? {
        return Failed;
      }
      var body := PostBody(title, content, published, tags, url.value);
      var issues := validate(body);
      if issues != [] {
        errors := MergeErrors(errors, issues);
        return Invalid;
      }
      if isEditing {
        outcome := Send(Request(Put, "/api/posts/" + id, body));
      } else {
        outcome := Send(Request(Post, "/api/posts", body));
      }
    }
  }
}
