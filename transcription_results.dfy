/**
  The result viewer (`TranscriptionResults`): which view a job is shown in, the
  prompt editor that triggers a re-analysis, and the two "Copied!" flags.
  The clipboard write and the 2-second timer are foreign; the write's outcome is a
  parameter and the timer is the delay a copy returns.
 */
module ResultsView {
  import opened Wrappers
  import opened JobModel
  import opened JsText

  const CopiedResetDelay := 2000
  const TranscribingLabel := "Transcribing audio..."
  const AnalyzingLabel := "Analyzing content..."

  /** The analysis area of the results view. */
  datatype AnalysisPane = AnalysisText(text: string) | AnalysisInProgress

  /** The four views, in the order the component tests for them. */
  datatype View =
    | FailureView(message: Option<string>)
    | ProgressView(caption: string)
    | Placeholder
    | ResultsPane(transcript: string, analysis: AnalysisPane, analysisCopyButton: bool)

  /** The view for a job: failure first, then the spinner for a job in flight,
      then the placeholder while there is no transcript, then the results. */
  function SelectView(job: Job): (v: View)
    ensures job.status == Failed ==>
              v == FailureView(if Present(job.errorMessage) then job.errorMessage else None)
    ensures InFlight(job.status) ==>
              v == ProgressView(if job.status == Processing then TranscribingLabel else AnalyzingLabel)
    ensures job.status != Failed && !InFlight(job.status) && !Present(job.transcript) ==> v == Placeholder
    ensures v.ResultsPane? <==> job.status != Failed && !InFlight(job.status) && Present(job.transcript)
    ensures v.ResultsPane? ==>
              && v.transcript == job.transcript.value
              && (v.analysisCopyButton <==> Present(job.analysisResult))
              && v.analysis == (if Present(job.analysisResult) then AnalysisText(job.analysisResult.value)
                                else AnalysisInProgress)
  {
    if job.status == Failed then
      FailureView(if Present(job.errorMessage) then job.errorMessage else None)
    else if job.status == Processing || job.status == Analyzing then
      ProgressView(if job.status == Processing then TranscribingLabel else AnalyzingLabel)
    else if !Present(job.transcript) then
      Placeholder
    else
      var result := job.analysisResult;
      ResultsPane(job.transcript.value,
                  if Present(result) then AnalysisText(result.value) else AnalysisInProgress,
                  Present(result))
  }

  /** `disabled={!newPrompt.trim()}` on the Re-analyze button. */
  function ReanalyzeDisabled(buffer: string): (d: bool)
    ensures d <==> AllWhitespace(buffer)
  {
    TrimEmptyIff(buffer);
    Trim(buffer) == ""
  }

  /** A call of `onReanalyze(jobId, newPrompt)`. */
  datatype ReanalyzeCall = ReanalyzeCall(jobId: int, prompt: string)

  /** The call `handleReanalyze` makes: only when the trimmed buffer differs from
      the job's prompt as stored (which is not trimmed), with the trimmed buffer. */
  function CommitCall(job: Job, buffer: string): (c: Option<ReanalyzeCall>)
    ensures c.Some? <==> Trim(buffer) != job.analysisPrompt
    ensures c.Some? ==> c.value.jobId == job.id && c.value.prompt == Trim(buffer)
  {
    if Trim(buffer) != job.analysisPrompt then Some(ReanalyzeCall(job.id, Trim(buffer))) else None
  }

  /** Committing an untouched buffer calls nothing when the stored prompt has no
      whitespace at either end. */
  lemma UntouchedPromptNoCall(job: Job)
    requires Trim(job.analysisPrompt) == job.analysisPrompt
    ensures CommitCall(job, job.analysisPrompt) == None
  {
  }

  /** Committing an untouched buffer does call `onReanalyze` when the stored prompt
      ends in whitespace: the comparison is between a trimmed and an untrimmed text. */
  lemma UntouchedPaddedPromptCalls(job: Job)
    requires job.analysisPrompt == "Summarize "
    ensures CommitCall(job, job.analysisPrompt) == Some(ReanalyzeCall(job.id, "Summarize"))
  {
    var s := "Summarize ";
    assert TrimStart(s) == s;
    assert s[..|s| - 1] == "Summarize";
    assert TrimEnd("Summarize") == "Summarize";
    assert TrimEnd(s) == "Summarize";
  }

  datatype CopyKind = TranscriptCopy | AnalysisCopy

  /** The component's local state. */
  class ResultsPanel {
    var isEditing: bool
    var newPrompt: string
    var copiedTranscript: bool
    var copiedAnalysis: bool

    /** The edit buffer starts as the prompt of the job the panel is first shown with. */
    constructor (job: Job)
      ensures newPrompt == job.analysisPrompt
      ensures !isEditing && !copiedTranscript && !copiedAnalysis
    {
      isEditing := false;
      newPrompt := job.analysisPrompt;
      copiedTranscript := false;
      copiedAnalysis := false;
    }

    /** "Edit Prompt" toggles the editor. */
    method ToggleEdit()
      modifies this
      ensures isEditing == !old(isEditing)
      ensures newPrompt == old(newPrompt)
      ensures copiedTranscript == old(copiedTranscript) && copiedAnalysis == old(copiedAnalysis)
    {
      isEditing := !isEditing;
    }

    /** Typing in the editor replaces the buffer. */
    method EditBuffer(text: string)
      modifies this
      ensures newPrompt == text
      ensures isEditing == old(isEditing)
      ensures copiedTranscript == old(copiedTranscript) && copiedAnalysis == old(copiedAnalysis)
    {
      newPrompt := text;
    }

    /** "Cancel" closes the editor and calls nothing; the buffer is kept. */
    method CancelEdit()
      modifies this
      ensures !isEditing
      ensures newPrompt == old(newPrompt)
      ensures copiedTranscript == old(copiedTranscript) && copiedAnalysis == old(copiedAnalysis)
    {
      isEditing := false;
    }

    /** `handleReanalyze` for the job currently shown: maybe one call, and the editor
        is closed whether or not a call was made. */
    method CommitEdit(job: Job) returns (call: Option<ReanalyzeCall>)
      modifies this
      ensures call == CommitCall(job, old(newPrompt))
      ensures !isEditing
      ensures newPrompt == old(newPrompt)
      ensures copiedTranscript == old(copiedTranscript) && copiedAnalysis == old(copiedAnalysis)
    {
      call := CommitCall(job, newPrompt);
      isEditing := false;
    }

    /** `copyToClipboard`: after a successful write, only the matching flag is set
        and its reset is scheduled after two seconds; a failed write changes nothing. */
    method CopyToClipboard(kind: CopyKind, written: bool) returns (resetAfter: Option<int>)
      modifies this
      ensures resetAfter == if written then Some(CopiedResetDelay) else None
      ensures copiedTranscript == (if written && kind == TranscriptCopy then true else old(copiedTranscript))
      ensures copiedAnalysis == (if written && kind == AnalysisCopy then true else old(copiedAnalysis))
      ensures isEditing == old(isEditing) && newPrompt == old(newPrompt)
    {
      if !written {
        return None;
      }
      if kind == TranscriptCopy {
        copiedTranscript := true;
      } else {
        copiedAnalysis := true;
      }
      return Some(CopiedResetDelay);
    }

    /** The scheduled reset: the flag of that kind goes back to false. */
    method CopyReset(kind: CopyKind)
      modifies this
      ensures copiedTranscript == (if kind == TranscriptCopy then false else old(copiedTranscript))
      ensures copiedAnalysis == (if kind == AnalysisCopy then false else old(copiedAnalysis))
      ensures isEditing == old(isEditing) && newPrompt == old(newPrompt)
    {
      if kind == TranscriptCopy {
        copiedTranscript := false;
      } else {
        copiedAnalysis := false;
      }
    }
  }
}
