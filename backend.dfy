/**
  The job lifecycle of the backend service: the `transcription_jobs` table and the
  handlers that create, look up, list, process and re-analyse its rows.

  Hashing, transcription and the language model are foreign calls. Their results
  enter as parameters: `fileHash` is the SHA-256 digest of the uploaded bytes,
  `transcription` and `analysis` are what the transcription model and the language
  model return or raise (`Err` carries the text of the exception).
 */
module Backend {
  import opened Wrappers
  import opened JobModel
  import FileService

  const DefaultPrompt := "Analyze and categorize this content. Identify and create a list of keywords."
  const UnsupportedTypeDetail := "Unsupported file type. Supported: mp3, mp4, wav, m4a, flac"
  const JobNotFoundDetail := "Job not found"
  const NoTranscriptDetail := "No transcript available for analysis"
  const ReanalysisFailedPrefix := "Re-analysis failed: "
  const UploadFailedPrefix := "Upload failed: "
  const ReanalysisCompleted := "Re-analysis completed"
  /** What Python raises on reading `.prompt` from a plain string. */
  const PromptAttributeError := "'str' object has no attribute 'prompt'"

  /** An `HTTPException`: status code and detail text. */
  datatype HttpError = HttpError(status: int, detail: string)

  /** The body of `reanalyze_job`'s success response. */
  datatype ReanalyzeReply = ReanalyzeReply(message: string, jobId: int)

  /** The `request` argument of `reanalyze_job`: a parsed `AnalysisRequest` when
      the endpoint is called over HTTP, a bare string when `upload_media` calls it. */
  datatype ReanalyzeRequest = AnalysisRequest(prompt: string) | BareString(text: string)

  /** The three-digit decimal text of an HTTP status code. */
  function CodeText(code: int): (r: string)
    requires 100 <= code <= 999
    ensures |r| == 3 && forall i :: 0 <= i < 3 ==> '0' <= r[i] <= '9'
  {
    [(48 + code / 100) as char, (48 + code / 10 % 10) as char, (48 + code % 10) as char]
  }

  /** `str(HTTPException)` is "<status>: <detail>", and `upload_media` wraps any
      exception it catches into a 500 whose detail starts with "Upload failed: ". */
  function UploadFailed(inner: HttpError): (r: HttpError)
    requires 100 <= inner.status <= 999
    ensures r.status == 500
    ensures |r.detail| > |UploadFailedPrefix| && r.detail[..|UploadFailedPrefix|] == UploadFailedPrefix
  {
    HttpError(500, UploadFailedPrefix + CodeText(inner.status) + ": " + inner.detail)
  }

  /** `analysis_prompt or DEFAULT`: a missing or empty prompt falls back to the default. */
  function PromptOrDefault(prompt: Option<string>): (r: string)
    ensures r != ""
    ensures Present(prompt) ==> r == prompt.value
    ensures !Present(prompt) ==> r == DefaultPrompt
  {
    if Present(prompt) then prompt.value else DefaultPrompt
  }

  /** The lifecycle invariant of one row: a job that is analysing or completed has a
      transcript, a completed job has an analysis, and only a failed job carries an
      error message. */
  predicate WellFormed(job: Job) {
    && (job.status == Analyzing || job.status == Completed ==> job.transcript.Some?)
    && (job.status == Completed ==> job.analysisResult.Some?)
    && (job.errorMessage.Some? ==> job.status == Failed)
  }

  /** The table invariant over the rows and the next id: ids are positive, increase
      along the table and stay below `nextId`; the `file_hash` column is unique;
      every row keeps the lifecycle invariant. */
  ghost predicate ValidRows(rows: seq<Job>, nextId: int) {
    && nextId >= 1
    && (forall i :: 0 <= i < |rows| ==> 1 <= rows[i].id < nextId)
    && (forall i, j :: 0 <= i < j < |rows| ==> rows[i].id < rows[j].id)
    && (forall i, j :: 0 <= i < j < |rows| ==> rows[i].fileHash != rows[j].fileHash)
    && (forall i :: 0 <= i < |rows| ==> WellFormed(rows[i]))
  }

  /** Rewriting one row in place keeps the table valid when its id and hash stay. */
  lemma UpdateKeepsValid(rows: seq<Job>, nextId: int, k: nat, job: Job)
    requires ValidRows(rows, nextId) && k < |rows|
    requires job.id == rows[k].id && job.fileHash == rows[k].fileHash && WellFormed(job)
    ensures ValidRows(rows[k := job], nextId)
  {
    var r := rows[k := job];
    forall i, j | 0 <= i < j < |r| ensures r[i].id < r[j].id && r[i].fileHash != r[j].fileHash {
      assert rows[i].id < rows[j].id && rows[i].fileHash != rows[j].fileHash;
    }
  }

  /** Appending a row with the next id and a hash not yet in the table keeps it valid. */
  lemma AppendKeepsValid(rows: seq<Job>, nextId: int, job: Job)
    requires ValidRows(rows, nextId) && IndexOfHash(rows, job.fileHash) < 0
    requires job.id == nextId && WellFormed(job)
    ensures ValidRows(rows + [job], nextId + 1)
  {
    var r := rows + [job];
    forall i, j | 0 <= i < j < |r| ensures r[i].id < r[j].id && r[i].fileHash != r[j].fileHash {
      if j < |rows| {
        assert rows[i].id < rows[j].id && rows[i].fileHash != rows[j].fileHash;
      } else {
        assert rows[i].fileHash != job.fileHash;
      }
    }
  }

  /** In a valid table the content hash names one row: looking a row's hash up finds
      that very row (at most one job per hash, as the unique `file_hash` column demands). */
  lemma HashIdentifiesRow(rows: seq<Job>, nextId: int, i: nat)
    requires ValidRows(rows, nextId) && i < |rows|
    ensures IndexOfHash(rows, rows[i].fileHash) == i
  {
    assert forall k :: 0 <= k < i ==> rows[k].fileHash != rows[i].fileHash;
  }

  /** In a valid table an id names one row: looking a row's id up finds that row. */
  lemma IdIdentifiesRow(rows: seq<Job>, nextId: int, i: nat)
    requires ValidRows(rows, nextId) && i < |rows|
    ensures IndexOfId(rows, rows[i].id) == i
  {
    assert forall k :: 0 <= k < i ==> rows[k].id < rows[i].id;
  }

  /** The table in insertion order (the order `list_jobs` returns rows in). */
  class JobTable {
    var rows: seq<Job>
    /** The id the next inserted row receives. */
    var nextId: int

    ghost predicate Valid()
      reads this
    {
      ValidRows(rows, nextId)
    }

    constructor ()
      ensures Valid() && rows == [] && nextId == 1
    {
      rows := [];
      nextId := 1;
    }

    /** `get_job_status`: the row with that id, or 404. */
    function GetJobStatus(id: int): (r: Result<Job, HttpError>)
      reads this
      ensures r.Ok? <==> exists i :: 0 <= i < |rows| && rows[i].id == id
      ensures r.Ok? ==> r.value in rows && r.value.id == id
      ensures r.Err? ==> r.error == HttpError(404, JobNotFoundDetail)
    {
      var k := IndexOfId(rows, id);
      if k < 0 then Err(HttpError(404, JobNotFoundDetail)) else Ok(rows[k])
    }

    /** `list_jobs`: at most `limit` rows, in table order, after skipping `skip`. */
    function ListJobs(skip: nat, limit: nat): (r: seq<Job>)
      reads this
      ensures |r| <= limit
      ensures |r| == if skip >= |rows| then 0
                     else if |rows| - skip < limit then |rows| - skip else limit
      ensures forall i :: 0 <= i < |r| ==> r[i] == rows[skip + i]
    {
      if skip >= |rows| then []
      else if |rows| - skip < limit then rows[skip..]
      else rows[skip..skip + limit]
    }

    /** `upload_media`. Returns the response (or the HTTP error) and whether the
        background `process_media_file` task was started for the returned job. */
    method UploadMedia(filename: Option<string>, guess: string -> Option<string>,
                       fileHash: string, prompt: Option<string>)
      returns (r: Result<Job, HttpError>, started: bool)
      requires Valid()
      modifies this
      ensures Valid()
      // An unsupported name is refused before anything is read or stored.
      ensures !FileService.IsSupportedMediaType(filename, guess) ==>
                r == Err(HttpError(400, UnsupportedTypeDetail)) && !started
                && rows == old(rows) && nextId == old(nextId)
      // Known content: the existing job, and no new row.
      ensures FileService.IsSupportedMediaType(filename, guess) && IndexOfHash(old(rows), fileHash) >= 0 ==>
                var k := IndexOfHash(old(rows), fileHash);
                var job := old(rows)[k];
                && !started && nextId == old(nextId)
                && (if !(Present(prompt) && job.analysisPrompt != prompt.value) then
                      r == Ok(job) && rows == old(rows)
                    else if !Present(job.transcript) then
                      r == Err(UploadFailed(HttpError(400, NoTranscriptDetail))) && rows == old(rows)
                    else
                      && r == Err(UploadFailed(HttpError(500, ReanalysisFailedPrefix + PromptAttributeError)))
                      && rows == old(rows)[k := job.(status := Failed, errorMessage := Some(PromptAttributeError))])
      // New content: one new row, processing, with the given or default prompt.
      ensures FileService.IsSupportedMediaType(filename, guess) && IndexOfHash(old(rows), fileHash) < 0 ==>
                var job := Job(old(nextId), filename.value, fileHash, Processing, None,
                               PromptOrDefault(prompt), None, None);
                && r == Ok(job) && started
                && rows == old(rows) + [job] && nextId == old(nextId) + 1
    {
      if !FileService.IsSupportedMediaType(filename, guess) {
        return Err(HttpError(400, UnsupportedTypeDetail)), false;
      }
      var k := IndexOfHash(rows, fileHash);
      if k >= 0 {
        var existing := rows[k];
        if Present(prompt) && existing.analysisPrompt != prompt.value {
          // The handler passes the bare prompt string where a request object is
          // expected, so the re-analysis fails before the language model is called.
          IdIdentifiesRow(rows, nextId, k);
          var failure := BeginReanalysis(existing.id, BareString(prompt.value));
          if failure.Some? {
            return Err(UploadFailed(failure.value)), false;
          }
        }
        return Ok(existing), false;
      }
      var job := Job(nextId, filename.value, fileHash, Processing, None, PromptOrDefault(prompt), None, None);
      AppendKeepsValid(rows, nextId, job);
      rows := rows + [job];
      nextId := nextId + 1;
      return Ok(job), true;
    }

    /** `reanalyze_job`. */
    method ReanalyzeJob(id: int, request: ReanalyzeRequest, analysis: Result<string, string>)
      returns (r: Result<ReanalyzeReply, HttpError>)
      requires Valid()
      modifies this
      ensures Valid() && nextId == old(nextId)
      ensures r.Err? ==> 100 <= r.error.status <= 999
      ensures IndexOfId(old(rows), id) < 0 ==>
                r == Err(HttpError(404, JobNotFoundDetail)) && rows == old(rows)
      ensures IndexOfId(old(rows), id) >= 0 ==>
                var k := IndexOfId(old(rows), id);
                var job := old(rows)[k];
                if !Present(job.transcript) then
                  r == Err(HttpError(400, NoTranscriptDetail)) && rows == old(rows)
                else match request
                  case BareString(_) =>
                    && r == Err(HttpError(500, ReanalysisFailedPrefix + PromptAttributeError))
                    && rows == old(rows)[k := job.(status := Failed, errorMessage := Some(PromptAttributeError))]
                  case AnalysisRequest(p) =>
                    match analysis
                    case Ok(a) =>
                      && r == Ok(ReanalyzeReply(ReanalysisCompleted, id))
                      && rows == old(rows)[k := job.(analysisPrompt := p, status := Completed,
                                                     analysisResult := Some(a), errorMessage := None)]
                    case Err(e) =>
                      && r == Err(HttpError(500, ReanalysisFailedPrefix + e))
                      && rows == old(rows)[k := job.(analysisPrompt := p, status := Failed,
                                                     analysisResult := None, errorMessage := Some(e))]
    {
      var k := IndexOfId(rows, id);
      var failure := BeginReanalysis(id, request);
      if failure.Some? {
        return Err(failure.value);
      }
      IdIdentifiesRow(rows, nextId, k);
      r := FinishReanalysis(id, analysis);
    }

    /** The part of `reanalyze_job` before the language model is called: the 404 and
        400 checks, then the first commit, which stores the new prompt, marks the row
        processing and clears the previous result and error. `None` means the model
        is to be called; `Some` is the error the handler raises. */
    method BeginReanalysis(id: int, request: ReanalyzeRequest) returns (failure: Option<HttpError>)
      requires Valid()
      modifies this
      ensures Valid() && nextId == old(nextId)
      ensures failure.Some? ==> 100 <= failure.value.status <= 999
      ensures IndexOfId(old(rows), id) < 0 ==>
                failure == Some(HttpError(404, JobNotFoundDetail)) && rows == old(rows)
      ensures IndexOfId(old(rows), id) >= 0 ==>
                var k := IndexOfId(old(rows), id);
                var job := old(rows)[k];
                if !Present(job.transcript) then
                  failure == Some(HttpError(400, NoTranscriptDetail)) && rows == old(rows)
                else match request
                  case BareString(_) =>
                    && failure == Some(HttpError(500, ReanalysisFailedPrefix + PromptAttributeError))
                    && rows == old(rows)[k := job.(status := Failed, errorMessage := Some(PromptAttributeError))]
                  case AnalysisRequest(p) =>
                    && failure == None
                    && rows == old(rows)[k := job.(analysisPrompt := p, status := Processing,
                                                   analysisResult := None, errorMessage := None)]
    {
      var k := IndexOfId(rows, id);
      if k < 0 {
        return Some(HttpError(404, JobNotFoundDetail));
      }
      if !Present(rows[k].transcript) {
        return Some(HttpError(400, NoTranscriptDetail));
      }
      match request
      case BareString(_) =>
        // Reading `request.prompt` raises before any field is assigned.
        Commit(k, rows[k].(status := Failed, errorMessage := Some(PromptAttributeError)));
        return Some(HttpError(500, ReanalysisFailedPrefix + PromptAttributeError));
      case AnalysisRequest(p) =>
        Commit(k, rows[k].(analysisPrompt := p, status := Processing,
                           analysisResult := None, errorMessage := None));
        return None;
    }

    /** The part of `reanalyze_job` after the language model returned or raised, on a
        row the first commit left processing: the analysis completes the row, or the
        exception fails it with its text. */
    method FinishReanalysis(id: int, analysis: Result<string, string>)
      returns (r: Result<ReanalyzeReply, HttpError>)
      requires Valid() && IndexOfId(rows, id) >= 0
      requires rows[IndexOfId(rows, id)].status == Processing
      requires rows[IndexOfId(rows, id)].transcript.Some?
      modifies this
      ensures Valid() && nextId == old(nextId)
      ensures var k := IndexOfId(old(rows), id);
              var job := old(rows)[k];
              match analysis
              case Ok(a) =>
                && r == Ok(ReanalyzeReply(ReanalysisCompleted, id))
                && rows == old(rows)[k := job.(analysisResult := Some(a), status := Completed)]
              case Err(e) =>
                && r == Err(HttpError(500, ReanalysisFailedPrefix + e))
                && rows == old(rows)[k := job.(status := Failed, errorMessage := Some(e))]
    {
      var k := IndexOfId(rows, id);
      match analysis
      case Ok(a) =>
        Commit(k, rows[k].(analysisResult := Some(a), status := Completed));
        return Ok(ReanalyzeReply(ReanalysisCompleted, id));
      case Err(e) =>
        Commit(k, rows[k].(status := Failed, errorMessage := Some(e)));
        return Err(HttpError(500, ReanalysisFailedPrefix + e));
    }

    /** `process_media_file`, the background task started by `upload_media` for a
        new row: transcribe, record the transcript, analyse, record the analysis;
        any exception marks the row failed with the exception text. */
    method ProcessMediaFile(id: int, transcription: Result<string, string>, analysis: Result<string, string>)
      requires Valid() && IndexOfId(rows, id) >= 0
      requires rows[IndexOfId(rows, id)].errorMessage == None
      modifies this
      ensures Valid() && nextId == old(nextId)
      ensures var k := IndexOfId(old(rows), id);
              var job := old(rows)[k];
              rows == old(rows)[k := match transcription
                case Err(e) => job.(status := Failed, errorMessage := Some(e))
                case Ok(t) =>
                  match analysis
                  case Ok(a) => job.(transcript := Some(t), status := Completed, analysisResult := Some(a))
                  case Err(e) => job.(transcript := Some(t), status := Failed, errorMessage := Some(e))]
    {
      var k := IndexOfId(rows, id);
      RecordTranscript(id, transcription);
      if transcription.Ok? {
        IdIdentifiesRow(rows, nextId, k);
        RecordAnalysis(id, analysis);
      }
    }

    /** The first step of `process_media_file`, once the transcription model returned
        or raised: the transcript is stored and the row marked analyzing (the first
        commit), or the exception fails the row with its text. */
    method RecordTranscript(id: int, transcription: Result<string, string>)
      requires Valid() && IndexOfId(rows, id) >= 0
      requires rows[IndexOfId(rows, id)].errorMessage == None
      modifies this
      ensures Valid() && nextId == old(nextId)
      ensures var k := IndexOfId(old(rows), id);
              var job := old(rows)[k];
              rows == old(rows)[k := match transcription
                case Err(e) => job.(status := Failed, errorMessage := Some(e))
                case Ok(t) => job.(transcript := Some(t), status := Analyzing)]
    {
      var k := IndexOfId(rows, id);
      match transcription
      case Err(e) =>
        Commit(k, rows[k].(status := Failed, errorMessage := Some(e)));
      case Ok(t) =>
        Commit(k, rows[k].(transcript := Some(t), status := Analyzing));
    }

    /** The second step of `process_media_file`, on a row left analyzing, once the
        language model returned or raised: the analysis completes the row (the second
        commit), or the exception fails it with its text. */
    method RecordAnalysis(id: int, analysis: Result<string, string>)
      requires Valid() && IndexOfId(rows, id) >= 0
      requires rows[IndexOfId(rows, id)].status == Analyzing
      modifies this
      ensures Valid() && nextId == old(nextId)
      ensures var k := IndexOfId(old(rows), id);
              var job := old(rows)[k];
              rows == old(rows)[k := match analysis
                case Ok(a) => job.(analysisResult := Some(a), status := Completed)
                case Err(e) => job.(status := Failed, errorMessage := Some(e))]
    {
      var k := IndexOfId(rows, id);
      match analysis
      case Ok(a) =>
        Commit(k, rows[k].(analysisResult := Some(a), status := Completed));
      case Err(e) =>
        Commit(k, rows[k].(status := Failed, errorMessage := Some(e)));
    }

    /** A `db.commit()` of field assignments to the row at `k`: the row is replaced,
        nothing else changes, and the table stays valid, provided the new row keeps
        its id and hash and the lifecycle invariant. */
    method Commit(k: nat, job: Job)
      requires Valid() && k < |rows|
      requires job.id == rows[k].id && job.fileHash == rows[k].fileHash && WellFormed(job)
      modifies this
      ensures Valid() && nextId == old(nextId)
      ensures rows == old(rows)[k := job]
    {
      UpdateKeepsValid(rows, nextId, k, job);
      rows := rows[k := job];
    }
  }

  /** Uploading the same bytes twice: the second upload answers with the job the
      first one created, starts nothing and adds no row. */
  method UploadTwiceScenario(guess: string -> Option<string>)
    returns (first: Result<Job, HttpError>, second: Result<Job, HttpError>, rowCount: nat)
    ensures first.Ok? && first.value.status == Processing
    ensures first.value.analysisPrompt == DefaultPrompt
    ensures second == first && rowCount == 1
  {
    var table := new JobTable();
    FileService.UpperCaseClipAccepted(guess);
    var started;
    first, started := table.UploadMedia(Some("clip.mp3"), guess, "h", None);
    second, started := table.UploadMedia(Some("clip.mp3"), guess, "h", Some(""));
    rowCount := |table.rows|;
  }

  /** A new upload processed to the end. Between the two steps of the background
      task the status lookup answers analyzing, with the transcript and no analysis
      yet; at the end it answers completed, with both. */
  method LifecycleScenario(guess: string -> Option<string>)
    returns (between: Result<Job, HttpError>, status: Result<Job, HttpError>)
    ensures between.Ok? && between.value.status == Analyzing
    ensures between.value.transcript == Some("hello") && between.value.analysisResult == None
    ensures status.Ok? && status.value.status == Completed
    ensures status.value.transcript == Some("hello") && status.value.analysisResult == Some("keywords")
    ensures status.value.errorMessage == None
  {
    var table := new JobTable();
    FileService.UpperCaseClipAccepted(guess);
    var r, started := table.UploadMedia(Some("CLIP.MP3"), guess, "h", Some("Summarize"));
    var id := r.value.id;
    assert |table.rows| == 1 && table.rows[0].id == id && IndexOfId(table.rows, id) == 0;
    table.RecordTranscript(id, Ok("hello"));
    assert |table.rows| == 1 && table.rows[0].id == id && IndexOfId(table.rows, id) == 0;
    assert table.rows[0].status == Analyzing;
    between := table.GetJobStatus(id);
    table.RecordAnalysis(id, Ok("keywords"));
    assert |table.rows| == 1 && table.rows[0].id == id && IndexOfId(table.rows, id) == 0;
    status := table.GetJobStatus(id);
  }

  /** Re-analysing a completed job whose model call fails: while the model runs the
      row is processing with the new prompt and no analysis; afterwards it is failed
      with the error, and the transcript is kept throughout. */
  method ReanalysisScenario(guess: string -> Option<string>)
    returns (between: Result<Job, HttpError>, reply: Result<ReanalyzeReply, HttpError>, status: Result<Job, HttpError>)
    ensures between.Ok? && between.value.status == Processing
    ensures between.value.analysisPrompt == "Find names" && between.value.analysisResult == None
    ensures between.value.transcript == Some("hello")
    ensures reply == Err(HttpError(500, ReanalysisFailedPrefix + "rate limited"))
    ensures status.Ok? && status.value.status == Failed && status.value.errorMessage == Some("rate limited")
    ensures status.value.transcript == Some("hello")
  {
    var table := new JobTable();
    FileService.UpperCaseClipAccepted(guess);
    var r, started := table.UploadMedia(Some("clip.mp3"), guess, "h", None);
    var id := r.value.id;
    assert |table.rows| == 1 && table.rows[0].id == id && IndexOfId(table.rows, id) == 0;
    table.ProcessMediaFile(id, Ok("hello"), Ok("keywords"));
    assert |table.rows| == 1 && table.rows[0].id == id && IndexOfId(table.rows, id) == 0;
    assert table.rows[0].transcript == Some("hello");
    var failure := table.BeginReanalysis(id, AnalysisRequest("Find names"));
    assert |table.rows| == 1 && table.rows[0].id == id && IndexOfId(table.rows, id) == 0;
    assert table.rows[0].status == Processing;
    between := table.GetJobStatus(id);
    reply := table.FinishReanalysis(id, Err("rate limited"));
    assert |table.rows| == 1 && table.rows[0].id == id && IndexOfId(table.rows, id) == 0;
    status := table.GetJobStatus(id);
  }
}
