# av_analyzer in Dafny

av_analyzer is a media transcription and analysis service. A browser client
uploads an audio or video file with an analysis prompt. The backend refuses
unsupported file types, de-duplicates uploads by the SHA-256 hash of their
content and stores one job per file. In a background task it transcribes the
file and asks a language model to analyse the transcript. A job moves through
`processing`, `analyzing` and then `completed` or `failed`. The client polls the
job until it leaves `processing`/`analyzing`, shows it in a result viewer with a
prompt editor that triggers a re-analysis, and lists the jobs it has seen.

The model is organised by the program's own parts:

- `wrappers.dfy`: `Option` and `Result`.
- `job_model.dfy` (`JobModel`): the job record shared by the backend table and
  the client, its five statuses, and first-match lookup by id and by hash.
- `file_service.dfy` (`FileService`): the media-type check, with Python's
  `PurePosixPath` name and suffix rules and `str.lower` written out. The MIME
  guesser is a parameter.
- `backend.dfy` (`Backend`): the job table as a class with its invariant
  (increasing ids, unique hashes, the per-row lifecycle rule). The upload,
  status, list, re-analysis and background-processing handlers are methods on
  it. The hash, the transcriber and the language model enter as parameters
  and outcome values.
- `js_text.dfy` (`JsText`): ECMAScript `String.prototype.trim`.
- `client_app.dfy` (`ClientApp`): the application state (current job, job
  list, busy flag, error banner) as a class. The poll step, upload handler and
  re-analysis handler are methods on it, and the list upsert is a function.
  `setTimeout` is modelled as the delay a step returns.
- `transcription_results.dfy` (`ResultsView`): the result viewer's view
  selection, re-analysis trigger, and editor and "Copied!" state.
- `file_upload.dfy` (`UploadForm`): the upload form's selection, drag flag,
  submit guard and disabled rule.
- `jobs_list.dfy` (`JobsListView`): the sidebar's rows, icons and badge.

Three behaviours of the code are easy to miss, and the model keeps each:

- Re-analysis puts the row back to `processing` while its transcript is kept,
  so a status lookup during the language-model call answers `processing`. The
  client that triggered the re-analysis only polls once the endpoint has
  returned, when the row is already `completed` or `failed`.
- An upload of known content with a different prompt does not re-analyse. It
  hands a bare string to the re-analysis handler, which fails reading
  `.prompt`. This marks the job `failed` when it has a transcript and answers
  500. Such a failed row keeps its old analysis result.
- A job that is still `pending` when polled ends the poll chain. Only
  `processing` and `analyzing` are polled again.

A fourth follows from the declarations alone. `upload_media` declares
`analysis_prompt` as a plain optional parameter (src/main.py:51), not as a form
field, so the web framework reads it from the query string. The client sends the
prompt as a multipart form field (frontend/types/api.ts:56). A client upload
therefore always gets the default prompt, and the client never reaches the
existing-content re-analysis path. `UploadMedia` takes the prompt as the backend
receives it, so it covers both cases.

## Model

| member | source | states |
|---|---|---|
| JobModel.IndexOfId | frontend/app.tsx:42 | the index of the first job with the id, or -1 when no job has it; no earlier job has the id |
| JobModel.IndexOfHash | src/main.py:70-72 | the index of the first row with the content hash, or -1 when no row has it |
| FileService.Name | src/services/file_service.py:36 | the name contains no '/' and is not "."; when the text after the last '/' is neither empty nor ".", that text is the name |
| FileService.TrailerConcat | src/services/file_service.py:36 | two runs of empty and "." path components concatenate to one |
| FileService.NameStepsBack | src/services/file_service.py:36 | an empty or "." last component is dropped: the name is that of the path before the last '/' |
| FileService.ComponentExtends | src/services/file_service.py:36 | appending an empty or "." component keeps a component and what follows it a component followed only by empty and "." components |
| FileService.TrailerExtends | src/services/file_service.py:36 | appending an empty or "." component to a path of such components keeps it one |
| FileService.NameIsFinalComponent | src/services/file_service.py:36 | a non-empty name is a '/'-delimited component of the path followed only by empty and "." components |
| FileService.EmptyNameIsTrailer | src/services/file_service.py:36 | the name is empty only for a path made of empty and "." components |
| FileService.DirClipName | src/services/file_service.py:36 | the name of "dir/clip.mp3" is "clip.mp3" |
| FileService.Suffix | src/services/file_service.py:36 | the suffix is empty exactly when the last dot is missing, first or last; otherwise it is the tail from that dot, with no further dot |
| FileService.Lower | src/services/file_service.py:36 | lowering keeps the length and maps every character by the ASCII lower-case rule |
| FileService.Extension | src/services/file_service.py:36 | the extension is empty exactly when the name has no suffix; otherwise it is a dot followed by at least one character, none of them a dot, a '/' or an upper-case ASCII letter |
| FileService.IsSupportedMediaType | src/services/file_service.py:30-46 | a missing or empty file name is refused; a name with a supported extension is accepted without consulting the MIME guess |
| FileService.MimeFallback | src/services/file_service.py:41-46 | without a supported extension, a name is accepted exactly when the guessed MIME type is in the audio or video set; no guess means refusal |
| FileService.ExtensionCaseInsensitive | src/services/file_service.py:36-38 | names that differ only in ASCII letter case have the same extension and pass the extension test together |
| FileService.LastIndexOfLower | src/services/file_service.py:36 | lowering a name leaves the positions of '/' and '.' where they were |
| FileService.NameLower | src/services/file_service.py:36 | taking the name commutes with lowering |
| FileService.SuffixLower | src/services/file_service.py:36 | taking the suffix commutes with lowering |
| FileService.ExtensionOfLowered | src/services/file_service.py:36 | the extension of a name is the suffix of its lowered name |
| FileService.ClipExtension | src/services/file_service.py:36 | the extension of "clip.mp3" is ".mp3" |
| FileService.UpperCaseClipAccepted | src/services/file_service.py:36-38 | "clip.mp3" and "CLIP.MP3" are both accepted whatever the MIME guess is |
| FileService.GetFileTypeAsWritten | src/services/file_service.py:48-55 | as written, the normal path returns no type; an error is raised exactly when the guesser raises |
| FileService.GetFileType | src/services/file_service.py:48-55 | the intended behaviour: the guessed type is returned, or the guesser's error |
| FileService.GetFileTypeLosesGuess | src/services/file_service.py:48-55 | for every guess the code as written answers None while the intended function answers the guess |
| Backend.UploadFailed | src/main.py:104-105 | a failure inside the upload becomes a 500 whose detail starts with "Upload failed: " |
| Backend.PromptOrDefault | src/main.py:84 | a missing or empty prompt becomes the default keyword prompt; any other prompt is kept; the result is never empty |
| Backend.UpdateKeepsValid | src/main.py:179-192 | rewriting one row's fields, keeping its id and hash and the lifecycle rule, keeps the table invariant |
| Backend.AppendKeepsValid | src/main.py:81-91 | inserting a row with the next id and a new hash keeps the table invariant |
| Backend.HashIdentifiesRow | src/models.py:13 | in a valid table a row's hash lookup finds that very row, so there is at most one job per hash |
| Backend.IdIdentifiesRow | src/main.py:111 | in a valid table a row's id lookup finds that very row |
| Backend.JobTable.constructor | src/models.py:8-11 | the table starts empty, and the first row inserted gets id 1 |
| Backend.JobTable.Commit | src/main.py:129-134 | assigning fields of one row and committing replaces that row and nothing else, and keeps the table invariant |
| Backend.JobTable.GetJobStatus | src/main.py:107-115 | a job is returned exactly when a row has the id, and it is that row; otherwise 404 "Job not found" |
| Backend.JobTable.ListJobs | src/main.py:152-157 | at most `limit` rows, in table order, starting after the first `skip` rows |
| Backend.JobTable.UploadMedia | src/main.py:49-105 | an unsupported name gives 400 and no change; known content returns the existing job and inserts nothing, or fails as the existing-hash path does; new content appends one `processing` row with the next id and the given or default prompt, and starts processing |
| Backend.JobTable.ReanalyzeJob | src/main.py:117-150 | unknown id gives 404, no transcript gives 400, both with no change; otherwise the prompt is replaced and the result and error cleared, and the row ends `completed` with the new result or `failed` with the error and a 500; the table invariant is kept |
| Backend.JobTable.BeginReanalysis | src/main.py:117-134 | unknown id gives 404, no transcript gives 400, both with no change; a bare string fails the row with the attribute error and a 500; a request stores its prompt, marks the row `processing` and clears the result and error |
| Backend.JobTable.FinishReanalysis | src/main.py:136-150 | on the row left `processing`, the analysis completes it with the result and the reply "Re-analysis completed", or the error fails it and answers 500 "Re-analysis failed: " with the error |
| Backend.JobTable.ProcessMediaFile | src/main.py:159-203 | the row ends `completed` with transcript and analysis, `failed` with the transcript and the analysis error, or `failed` with the transcription error; the table invariant is kept |
| Backend.JobTable.RecordTranscript | src/main.py:177-184 | a transcript is stored and the row marked `analyzing`; a transcription error fails the row with its text, as the handler at lines 197-201 does; nothing else changes |
| Backend.JobTable.RecordAnalysis | src/main.py:186-201 | on the row left `analyzing`, the analysis completes it with the result, or the error fails it with its text; nothing else changes |
| Backend.UploadTwiceScenario | src/main.py:70-78 | uploading the same content twice returns the same job both times and leaves one row |
| Backend.LifecycleScenario | src/main.py:159-192 | between the two steps of processing the status lookup answers `analyzing` with the transcript and no analysis; afterwards it answers `completed` with both and no error |
| Backend.ReanalysisScenario | src/main.py:117-150 | while the model runs, a re-analysed job is `processing` with the new prompt, its transcript and no analysis; a model error then leaves it `failed` with that error and answers 500 |
| JsText.Trim | frontend/components/FileUpload.tsx:38 | the trimmed text is the infix left after dropping whitespace at both ends: what is dropped is whitespace, and what is kept starts and ends with non-whitespace |
| JsText.TrimEmptyIff | frontend/components/FileUpload.tsx:127 | a text trims to "" exactly when it is whitespace only |
| JsText.TrimIdempotent | frontend/components/FileUpload.tsx:38 | trimming twice is trimming once |
| ClientApp.ErrorText | frontend/app.tsx:28 | an Error object gives its message; any other thrown value gives the fallback text |
| ClientApp.StatusIcon | frontend/app.tsx:74-86 | the application's status icon mapping is the job list's: check, cross, spinner for in-flight, clock otherwise |
| ClientApp.Upsert | frontend/app.tsx:41-50 | a list holding the id keeps its length and has its first entry with that id replaced, all others unchanged; otherwise the job is prepended to the unchanged list |
| ClientApp.UpsertKeepsIdsDistinct | frontend/app.tsx:41-50 | with distinct ids and a job carrying the polled id, ids stay distinct and the job is the one entry with that id |
| ClientApp.UpsertLatestWins | frontend/app.tsx:41-50 | publishing two versions of a job leaves the list as publishing only the later one |
| ClientApp.UpsertIdempotent | frontend/app.tsx:41-50 | applying the same upsert twice equals applying it once |
| ClientApp.NextPollDelay | frontend/app.tsx:52-55 | another poll after 2000 ms exactly for `processing` and `analyzing`; pending, completed and failed end the chain |
| ClientApp.InFlightViewsAgree | frontend/app.tsx:53 | a job is polled again exactly when the list shows its spinner and exactly when the viewer shows its progress view |
| ClientApp.App.constructor | frontend/app.tsx:12-15 | no current job, an empty list, not uploading, no error |
| ClientApp.App.Poll | frontend/app.tsx:34-63 | a fetched job becomes the current job and is upserted, and the next poll follows the status; a failed fetch changes nothing and retries after 5000 ms; distinct ids are kept |
| ClientApp.App.BeginUpload | frontend/app.tsx:17-19 | the busy flag is raised and the error cleared before the upload is awaited |
| ClientApp.App.FinishUpload | frontend/app.tsx:21-31 | success makes the response the current job and polls its id without touching the list; failure shows the message or "Upload failed"; the busy flag is lowered either way |
| ClientApp.App.HandleReanalyze | frontend/app.tsx:65-72 | success polls the job again; failure shows the message or "Re-analysis failed"; nothing else changes |
| ClientApp.App.SelectJob | frontend/app.tsx:152 | a job picked in the list becomes the current job and nothing else changes |
| ClientApp.UploadAndPollScenario | frontend/app.tsx:17-63 | an upload followed by polls through processing, a failed fetch and completion leaves one listed job, completed, shown with its transcript |
| ResultsView.SelectView | frontend/components/TranscriptionResults.tsx:42-177 | failed shows the failure view, with the error only if present; else in-flight shows the matching progress caption; else no transcript shows the placeholder; else the results, with the analysis copy button exactly when a result is present and "in progress" otherwise |
| ResultsView.ReanalyzeDisabled | frontend/components/TranscriptionResults.tsx:156 | the Re-analyze button is disabled exactly when the buffer is whitespace only |
| ResultsView.CommitCall | frontend/components/TranscriptionResults.tsx:20-23 | a re-analysis call is made exactly when the trimmed buffer differs from the stored prompt, with the job's id and the trimmed buffer |
| ResultsView.UntouchedPromptNoCall | frontend/components/TranscriptionResults.tsx:20-23 | committing an untouched buffer calls nothing when the stored prompt has no surrounding whitespace |
| ResultsView.UntouchedPaddedPromptCalls | frontend/components/TranscriptionResults.tsx:20-23 | committing an untouched buffer "Summarize " does call re-analysis, with "Summarize" |
| ResultsView.ResultsPanel.constructor | frontend/components/TranscriptionResults.tsx:15-18 | the buffer starts as the job's prompt; editing and both copied flags start off |
| ResultsView.ResultsPanel.ToggleEdit | frontend/components/TranscriptionResults.tsx:113 | "Edit Prompt" flips edit mode and changes nothing else |
| ResultsView.ResultsPanel.EditBuffer | frontend/components/TranscriptionResults.tsx:143 | typing replaces the buffer and changes nothing else |
| ResultsView.ResultsPanel.CancelEdit | frontend/components/TranscriptionResults.tsx:149 | Cancel exits edit mode, keeps the buffer and calls nothing |
| ResultsView.ResultsPanel.CommitEdit | frontend/components/TranscriptionResults.tsx:20-25 | the call is the one the commit rule gives for the buffer, and edit mode is always exited |
| ResultsView.ResultsPanel.CopyToClipboard | frontend/components/TranscriptionResults.tsx:27-40 | a successful write sets only the matching copied flag and schedules its reset after 2000 ms; a failed write changes nothing |
| ResultsView.ResultsPanel.CopyReset | frontend/components/TranscriptionResults.tsx:32-35 | the scheduled reset clears only the matching flag |
| UploadForm.InitialPromptIsBackendDefault | frontend/components/FileUpload.tsx:12-14 | the form's preset prompt is the backend's default prompt |
| UploadForm.SubmitCall | frontend/components/FileUpload.tsx:35-40 | an upload call is made exactly when a file is selected and the prompt is not blank, with that file and the trimmed, non-empty prompt |
| UploadForm.SubmitDisabled | frontend/components/FileUpload.tsx:127 | the button is disabled exactly when no file is selected, the prompt is blank, or an upload is running |
| UploadForm.SubmitEnabledIffCall | frontend/components/FileUpload.tsx:125-127 | when idle, the button is enabled exactly when submitting makes a call; while uploading it is always disabled |
| UploadForm.FileUploadForm.constructor | frontend/components/FileUpload.tsx:11-15 | no file, the preset prompt, no drag hover |
| UploadForm.FileUploadForm.HandleDrop | frontend/components/FileUpload.tsx:18-26 | a drop clears the hover flag and selects the first file, if any; no files leave the selection |
| UploadForm.FileUploadForm.HandleFileSelect | frontend/components/FileUpload.tsx:28-33 | picking selects the first file, if any; a null or empty list leaves the selection |
| UploadForm.FileUploadForm.HandleDragOver | frontend/components/FileUpload.tsx:61-64 | drag-over sets the hover flag |
| UploadForm.FileUploadForm.HandleDragLeave | frontend/components/FileUpload.tsx:65 | drag-leave clears the hover flag |
| UploadForm.FileUploadForm.EditPrompt | frontend/components/FileUpload.tsx:117 | typing replaces the prompt and nothing else |
| UploadForm.FileUploadForm.ClearFile | frontend/components/FileUpload.tsx:42-47 | no file is selected afterwards; the prompt and the hover flag stay |
| UploadForm.FileUploadForm.HandleSubmit | frontend/components/FileUpload.tsx:35-40 | a call exactly when a file is selected and the prompt is not blank, with the file and the trimmed prompt |
| JobsListView.StatusIcon | frontend/components/JobsList.tsx:14-26 | check exactly for completed, cross exactly for failed, spinner exactly for processing and analyzing, clock exactly for pending |
| JobsListView.RenderRows | frontend/components/JobsList.tsx:42-74 | one row per job, in order, each with its job, its status icon and the "Complete" badge exactly when completed |
| JobsListView.Render | frontend/components/JobsList.tsx:32-38 | the "No jobs yet" placeholder exactly for an empty list, the rows otherwise |
| JobsListView.SelectRowGivesThatJob | frontend/components/JobsList.tsx:46 | a click on row i selects exactly the i-th job |
| JobsListView.RowsPreserveOrder | frontend/components/JobsList.tsx:42-74 | the rows' jobs are the list itself: no sorting or filtering |

## Left out

- Timers, promises and background tasks are not modelled as such. A `setTimeout` is the delay a step returns. `asyncio.create_task` is the `started` flag of an upload. `ProcessMediaFile` is a separate call.
- Concurrency is not modelled: interleaved poll chains, and background tasks racing with re-analysis or with each other. Every model is sequential.
- SQLAlchemy sessions, commits and ORM/Pydantic conversion are not modelled. The table is a sequence of rows in insertion order, and each commit is an in-place row update.
- Reading the upload body and hashing it are foreign calls. The SHA-256 digest is a parameter, and the failures of those calls (which would also end in a 500) are not modelled.
- The temporary file in background processing is not modelled: its write, and an unlink failure after success.
- The transcriber and the language model are outcome values (`Ok` text or `Err` exception text). The transcriber's joining and stripping of segments is not modelled.
- `mimetypes.guess_type` is an arbitrary function parameter.
- Timestamps, `file_size` and `duration` are display-only and are not in the job record.
- The `frontend/types/api.ts` and `frontend/api_types.ts` fetch wrappers, and their error-detail fallbacks, are not modelled. Their outcomes enter as `Result` values.
- Markup, CSS, the file-size and date formatting, and the transcript copy button's markup are left out.
- The job list's unused `onReanalyze` prop is left out.
- The backend writes four statuses. Upload writes `processing` (src/main.py:85). Background processing writes `analyzing`, `completed` and `failed`, and re-analysis writes `processing`, `completed` and `failed`. `pending` is only the column default (src/models.py:14), which the handlers never leave in place. The model has these five statuses and no others, so the clients' default icon branch is only reached by `pending`.
- FileService.Lower: lowers ASCII letters only, because Python's full Unicode `str.lower` is not modelled. Non-ASCII letters cannot turn into the ASCII letters of the extension set, so the extension test is unaffected.
- FileService.Suffix: follows the suffix rule of Python before 3.14. Python 3.14 also treats a name ending in "." as having the suffix ".". Such names never reach a supported extension under either rule.
- Backend.UploadFailed: assumes that `str()` of an `HTTPException` is Starlette's `"<status>: <detail>"` rendering and writes that rendering out. Starlette itself is not part of this model.
- Backend.JobTable.ListJobs: the query has no `ORDER BY`, so the database does not promise any order. The model returns rows in insertion order, which is id order, as SQLite's rowid order gives in practice.
- Backend.JobTable.ListJobs: `skip` and `limit` are natural numbers. Negative values, which the database would interpret, are not modelled.
- Backend.JobTable.ProcessMediaFile: requires that the row exists and carries no error message. That holds for the fresh row `upload_media` creates, which is the only row the task is started for. The case of the row being deleted meanwhile is not modelled.
- ClientApp.StatusIcon: the application component defines this mapping but does not use it when rendering. It is modelled only to show that it agrees with the job list's.

## Findings

| source | as written | input that shows it | evidently intended | confidence | as-written member | corrected member |
|---|---|---|---|---|---|---|
| src/services/file_service.py:48-55 | the `try` branch calls `mimetypes.guess_type` and discards the result, so the normal path returns None; the `except` branch repeats the call that raised | a guess that returns `audio/mpeg` | return the guessed MIME type | not executed | FileService.GetFileTypeAsWritten | FileService.GetFileType |
