/**
  The upload form (`FileUpload`): the selected file, the prompt text and the
  drag-hover flag, the submit guard and the submit button's disabled rule.
  The file input element, markup and the size formatting are not modelled.
 */
module UploadForm {
  import opened Wrappers
  import opened JsText
  import Backend

  /** The preset prompt the form starts with. */
  const InitialPrompt := "Analyze and categorize this content. Identify and create a list of keywords."

  /** A picked or dropped file, as far as the form looks at it. */
  datatype MediaFile = MediaFile(name: string, size: nat)

  /** A call of `onUpload(file, analysisPrompt)`. */
  datatype UploadCall = UploadCall(file: MediaFile, prompt: string)

  /** The form's preset prompt is the backend's default prompt. */
  lemma InitialPromptIsBackendDefault()
    ensures InitialPrompt == Backend.DefaultPrompt
  {
  }

  /** `handleSubmit`: a call only with a file and a prompt that is not blank, and
      then with the trimmed prompt. */
  function SubmitCall(selected: Option<MediaFile>, prompt: string): (c: Option<UploadCall>)
    ensures c.Some? <==> selected.Some? && !AllWhitespace(prompt)
    ensures c.Some? ==> c.value.file == selected.value && c.value.prompt == Trim(prompt)
    ensures c.Some? ==> c.value.prompt != "" && Trim(c.value.prompt) == c.value.prompt
  {
    TrimEmptyIff(prompt);
    TrimIdempotent(prompt);
    if selected.Some? && Trim(prompt) != "" then Some(UploadCall(selected.value, Trim(prompt))) else None
  }

  /** `disabled={!selectedFile || !analysisPrompt.trim() || isUploading}`. */
  function SubmitDisabled(selected: Option<MediaFile>, prompt: string, isUploading: bool): (d: bool)
    ensures d <==> selected.None? || AllWhitespace(prompt) || isUploading
  {
    TrimEmptyIff(prompt);
    selected.None? || Trim(prompt) == "" || isUploading
  }

  /** While no upload is in progress the button is enabled exactly when pressing it
      makes a call; during an upload it is always disabled. */
  lemma SubmitEnabledIffCall(selected: Option<MediaFile>, prompt: string, isUploading: bool)
    ensures !SubmitDisabled(selected, prompt, false) <==> SubmitCall(selected, prompt).Some?
    ensures isUploading ==> SubmitDisabled(selected, prompt, isUploading)
  {
  }

  class FileUploadForm {
    var selectedFile: Option<MediaFile>
    var analysisPrompt: string
    var dragOver: bool

    constructor ()
      ensures selectedFile == None && analysisPrompt == InitialPrompt && !dragOver
    {
      selectedFile := None;
      analysisPrompt := InitialPrompt;
      dragOver := false;
    }

    /** `handleDrop`: the hover flag is cleared; the first dropped file, if any,
        becomes the selection. */
    method HandleDrop(files: seq<MediaFile>)
      modifies this
      ensures !dragOver
      ensures selectedFile == if |files| > 0 then Some(files[0]) else old(selectedFile)
      ensures analysisPrompt == old(analysisPrompt)
    {
      dragOver := false;
      if |files| > 0 {
        selectedFile := Some(files[0]);
      }
    }

    /** `handleFileSelect`: the first picked file, if any, becomes the selection
        (the input's file list may be null). */
    method HandleFileSelect(files: Option<seq<MediaFile>>)
      modifies this
      ensures selectedFile == if files.Some? && |files.value| > 0 then Some(files.value[0]) else old(selectedFile)
      ensures analysisPrompt == old(analysisPrompt) && dragOver == old(dragOver)
    {
      if files.Some? && |files.value| > 0 {
        selectedFile := Some(files.value[0]);
      }
    }

    method HandleDragOver()
      modifies this
      ensures dragOver
      ensures selectedFile == old(selectedFile) && analysisPrompt == old(analysisPrompt)
    {
      dragOver := true;
    }

    method HandleDragLeave()
      modifies this
      ensures !dragOver
      ensures selectedFile == old(selectedFile) && analysisPrompt == old(analysisPrompt)
    {
      dragOver := false;
    }

    /** Typing in the prompt box replaces the prompt. */
    method EditPrompt(text: string)
      modifies this
      ensures analysisPrompt == text
      ensures selectedFile == old(selectedFile) && dragOver == old(dragOver)
    {
      analysisPrompt := text;
    }

    /** `clearFile`: no file is selected afterwards. */
    method ClearFile()
      modifies this
      ensures selectedFile == None
      ensures analysisPrompt == old(analysisPrompt) && dragOver == old(dragOver)
    {
      selectedFile := None;
    }

    /** `handleSubmit`: the form's state is left as it is. */
    method HandleSubmit() returns (call: Option<UploadCall>)
      ensures call.Some? <==> selectedFile.Some? && !AllWhitespace(analysisPrompt)
      ensures call.Some? ==> call.value == UploadCall(selectedFile.value, Trim(analysisPrompt))
    {
      call := SubmitCall(selectedFile, analysisPrompt);
    }
  }
}
