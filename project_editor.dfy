/**
 * The dashboard's project form: the project being written, the tool being
 * typed, the selected image, and the handlers for adding and removing
 * tools, loading a project and submitting. The upload service's answer is a
 * parameter, and the create or update call is returned as data.
 */
module ProjectEditor {
  import opened Options
  import opened Lists
  import opened Entries
  import opened Uploads

  /** The project fields the form edits. Absent optional URLs read as "". */
  datatype ProjectInput = ProjectInput(
    title: string,
    description: string,
    role: string,
    tools: seq<string>,
    summary: string,
    outcome: string,
    imageUrl: string,
    githubUrl: string,
    liveUrl: string)

  const EmptyProject: ProjectInput := ProjectInput("", "", "", [], "", "", "", "", "")

  /** The API call a submit makes. */
  datatype ProjectCall = Update(id: string, input: ProjectInput) | Create(input: ProjectInput)

  /** How a submit ends: the call to make, or an error thrown before it. */
  datatype SubmitOutcome = Call(call: ProjectCall) | Failed

  class Form {
    const isEditing: bool
    const id: string
    var form: ProjectInput
    var currentTool: string
    var image: Option<ImageSelection>

    /** The initial state: every string empty, no tools, no image. */
    constructor (isEditing: bool, id: string)
      ensures this.isEditing == isEditing && this.id == id
      ensures form == EmptyProject && form.tools == [] && currentTool == "" && image == None
    {
      this.isEditing, this.id := isEditing, id;
      form := EmptyProject;
      currentTool := "";
      image := None;
    }

    /** The load effect, when the fetch succeeds: the project replaces the
        form, and a non-empty image URL becomes the preview. */
    method Load(data: ProjectInput)
      modifies this`form, this`image
      ensures form == data
      ensures data.imageUrl != "" ==> image == Some(ImageSelection([], data.imageUrl))
      ensures data.imageUrl == "" ==> image == old(image)
    {
      form := data;
      if data.imageUrl != "" {
        image := Some(ImageSelection([], data.imageUrl));
      }
    }

    /** The tool input's `onChange`. */
    method SetCurrentTool(value: string)
      modifies this`currentTool
      ensures currentTool == value
    {
      currentTool := value;
    }

    /** `addTool`: the trimmed tool is appended when it is non-blank and
        new, and the input is then cleared; otherwise nothing changes. */
    method AddTool()
      modifies this`form, this`currentTool
      ensures form == old(form).(tools := AddEntry(old(form.tools), old(currentTool)))
      ensures currentTool == if Accepts(old(form.tools), old(currentTool)) then "" else old(currentTool)
      ensures NoDuplicates(old(form.tools)) ==> NoDuplicates(form.tools)
    {
      if NoDuplicates(form.tools) {
        AddEntryKeepsNoDuplicates(form.tools, currentTool);
      }
      if Accepts(form.tools, currentTool) {
        form := form.(tools := AddEntry(form.tools, currentTool));
        currentTool := "";
      }
    }

    /** `removeTool`: every tool equal to the given one is removed. */
    method RemoveTool(tool: string)
      modifies this`form
      ensures form == old(form).(tools := RemoveAll(old(form.tools), tool))
      ensures NoDuplicates(old(form.tools)) ==> NoDuplicates(form.tools)
    {
      RemoveEntryKeepsOthers(form.tools, tool);
      form := form.(tools := RemoveAll(form.tools, tool));
    }

    /** `handleKeyPress`: only the Enter key adds the current tool. */
    method KeyPress(key: string)
      modifies this`form, this`currentTool
      ensures key == "Enter" ==> form == old(form).(tools := AddEntry(old(form.tools), old(currentTool)))
      ensures key == "Enter" ==> currentTool == if Accepts(old(form.tools), old(currentTool)) then "" else old(currentTool)
      ensures key != "Enter" ==> form == old(form) && currentTool == old(currentTool)
    {
      if key == "Enter" {
        AddTool();
      }
    }

    /** `handleImageChange`. */
    method ImageChange(files: Option<seq<File>>, objectUrl: string)
      modifies this`image
      ensures image == ImageAfterChange(old(image), files, objectUrl)
    {
      image := ImageAfterChange(image, files, objectUrl);
    }

    /** The image's Remove button: the selection is dropped, so a submit
        that follows uploads nothing and sends "" as the image URL. */
    method RemoveImage()
      modifies this`image
      ensures image == None
      ensures forall upload :: SubmittedImageUrl(image, upload) == Some("")
    {
      image := None;
    }

    /** The upload-complete callback: a non-empty URL of the first stored
        file becomes the form's image URL. */
    method UploadComplete(firstUrl: Option<string>)
      modifies this`form
      ensures firstUrl.Some? && firstUrl.value != "" ==> form == old(form).(imageUrl := firstUrl.value)
      ensures firstUrl.None? || firstUrl.value == "" ==> form == old(form)
    {
      if firstUrl.Some? && firstUrl.value != "" {
        form := form.(imageUrl := firstUrl.value);
      }
    }

    /** `handleSubmit`: the form is sent with its image URL replaced by the
        freshly uploaded one, or "", to the update call when editing and the
        create call otherwise. Nothing in the form changes. */
    method Submit(upload: UploadReply) returns (outcome: SubmitOutcome)
      ensures SubmittedImageUrl(image, upload).None? ==> outcome == Failed
      ensures SubmittedImageUrl(image, upload).Some? ==>
        var sent := form.(imageUrl := SubmittedImageUrl(image, upload).value);
        outcome == Call(if isEditing then Update(id, sent) else Create(sent))
    {
      var url := SubmittedImageUrl(image, upload);
      if url.None? {
        return Failed;
      }
      var sent := form.(imageUrl := url.value);
      if isEditing {
        outcome := Call(Update(id, sent));
      } else {
        outcome := Call(Create(sent));
      }
    }
  }
}
