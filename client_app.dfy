/**
  The browser application's shared state (`App`): the current job, the job list,
  the upload-in-progress flag and the error banner, with the poller, the upload
  and re-analysis handlers that update them.

  Network calls are awaited promises: what they resolve to or throw enters as a
  parameter. `setTimeout(poll, d)` is modelled by returning `Some(d)` ("poll again
  after d ms"); `None` means the poll chain stops.
 */
module ClientApp {
  import opened Wrappers
  import opened JobModel
  import JobsListView
  import ResultsView

  const PollInterval := 2000
  const RetryInterval := 5000
  const UploadFailedMessage := "Upload failed"
  const ReanalysisFailedMessage := "Re-analysis failed"

  /** What an awaited call threw: an `Error` with its message, or any other value. */
  datatype Thrown = ErrorObject(message: string) | OtherValue

  /** `err instanceof Error ? err.message : fallback`. */
  function ErrorText(err: Thrown, fallback: string): (text: string)
    ensures err.ErrorObject? ==> text == err.message
    ensures err.OtherValue? ==> text == fallback
  {
    match err
    case ErrorObject(m) => m
    case OtherValue => fallback
  }

  /** `getStatusIcon` of the application component, the same mapping as the job list's. */
  function StatusIcon(s: Status): (icon: JobsListView.Icon)
    ensures icon == JobsListView.StatusIcon(s)
  {
    match s
    case Completed => JobsListView.CheckIcon
    case Failed => JobsListView.CrossIcon
    case Processing | Analyzing => JobsListView.SpinnerIcon
    case _ => JobsListView.ClockIcon
  }

  predicate DistinctIds(jobs: seq<Job>) {
    forall i, j :: 0 <= i < j < |jobs| ==> jobs[i].id != jobs[j].id
  }

  /** The `setJobs` updater of a successful poll for `jobId`: the first entry with
      that id is replaced by the fetched job, or the job is put in front. */
  function Upsert(prev: seq<Job>, jobId: int, job: Job): (r: seq<Job>)
    ensures IndexOfId(prev, jobId) >= 0 ==>
              && |r| == |prev|
              && r[IndexOfId(prev, jobId)] == job
              && forall k :: 0 <= k < |prev| && k != IndexOfId(prev, jobId) ==> r[k] == prev[k]
    ensures IndexOfId(prev, jobId) < 0 ==> r == [job] + prev
  {
    var index := IndexOfId(prev, jobId);
    if index >= 0 then prev[index := job] else [job] + prev
  }

  /** With distinct ids and a fetched job that carries the polled id, the list keeps
      distinct ids and holds the fetched job as the one entry with that id. */
  lemma UpsertKeepsIdsDistinct(prev: seq<Job>, jobId: int, job: Job)
    requires DistinctIds(prev) && job.id == jobId
    ensures DistinctIds(Upsert(prev, jobId, job))
    ensures job in Upsert(prev, jobId, job)
    ensures forall i :: 0 <= i < |Upsert(prev, jobId, job)| && Upsert(prev, jobId, job)[i].id == jobId ==>
              Upsert(prev, jobId, job)[i] == job
  {
    var r := Upsert(prev, jobId, job);
    var index := IndexOfId(prev, jobId);
    if index >= 0 {
      forall i, j | 0 <= i < j < |r| ensures r[i].id != r[j].id {
        assert prev[i].id != prev[j].id;
      }
      assert r[index] == job;
    } else {
      forall i, j | 0 <= i < j < |r| ensures r[i].id != r[j].id {
        if i > 0 { assert prev[i - 1].id != prev[j - 1].id; }
      }
      assert r[0] == job;
    }
  }

  /** Publishing two versions of the same job leaves the later one, exactly as if
      only the later one had been published. */
  lemma UpsertLatestWins(prev: seq<Job>, jobId: int, first: Job, second: Job)
    requires first.id == jobId
    ensures Upsert(Upsert(prev, jobId, first), jobId, second) == Upsert(prev, jobId, second)
  {
    var r := Upsert(prev, jobId, first);
    var index := IndexOfId(prev, jobId);
    if index >= 0 {
      FirstIndexOfId(r, jobId, index);
      assert r[index := second] == prev[index := second];
    } else {
      FirstIndexOfId(r, jobId, 0);
    }
  }

  /** Applying the same upsert twice is applying it once. */
  lemma UpsertIdempotent(prev: seq<Job>, jobId: int, job: Job)
    requires job.id == jobId
    ensures Upsert(Upsert(prev, jobId, job), jobId, job) == Upsert(prev, jobId, job)
  {
    UpsertLatestWins(prev, jobId, job, job);
  }

  /** A position holding the id, with no earlier position holding it, is the one
      `findIndex` returns. */
  lemma FirstIndexOfId(jobs: seq<Job>, id: int, index: nat)
    requires index < |jobs| && jobs[index].id == id
    requires forall k :: 0 <= k < index ==> jobs[k].id != id
    ensures IndexOfId(jobs, id) == index
  {
  }

  /** The delay before the next poll after a successful fetch: only a job in flight
      is polled again; pending, completed and failed jobs end the chain. */
  function NextPollDelay(s: Status): (d: Option<int>)
    ensures d.Some? <==> InFlight(s)
    ensures d.Some? ==> d.value == PollInterval
  {
    if s == Processing || s == Analyzing then Some(PollInterval) else None
  }

  /** The spinner in the list, the spinner in the viewer and another poll go together. */
  lemma InFlightViewsAgree(job: Job)
    ensures NextPollDelay(job.status).Some?
        <==> JobsListView.StatusIcon(job.status) == JobsListView.SpinnerIcon
    ensures NextPollDelay(job.status).Some? <==> ResultsView.SelectView(job).ProgressView?
  {
  }

  /** The state held by the application component. */
  class App {
    var currentJob: Option<Job>
    var jobs: seq<Job>
    var isUploading: bool
    var error: Option<string>

    constructor ()
      ensures currentJob == None && jobs == [] && !isUploading && error == None
    {
      currentJob := None;
      jobs := [];
      isUploading := false;
      error := None;
    }

    /** One run of `poll` for `jobId`, given what `getJobStatus(jobId)` resolved to or
        threw. A fetched job becomes the current job and is upserted into the list;
        a failed fetch changes nothing and is retried after 5 s, without limit. */
    method Poll(jobId: int, fetched: Result<Job, Thrown>) returns (next: Option<int>)
      modifies this
      ensures fetched.Ok? ==>
                && currentJob == Some(fetched.value)
                && jobs == Upsert(old(jobs), jobId, fetched.value)
                && next == NextPollDelay(fetched.value.status)
      ensures fetched.Err? ==>
                currentJob == old(currentJob) && jobs == old(jobs) && next == Some(RetryInterval)
      ensures fetched.Ok? && fetched.value.id == jobId && DistinctIds(old(jobs)) ==> DistinctIds(jobs)
      ensures isUploading == old(isUploading) && error == old(error)
    {
      match fetched
      case Ok(job) =>
        currentJob := Some(job);
        if job.id == jobId && DistinctIds(jobs) {
          UpsertKeepsIdsDistinct(jobs, jobId, job);
        }
        jobs := Upsert(jobs, jobId, job);
        if job.status == Processing || job.status == Analyzing {
          next := Some(PollInterval);
        } else {
          next := None;
        }
      case Err(_) =>
        next := Some(RetryInterval);
    }

    /** The synchronous start of `handleFileUpload`, before the upload is awaited:
        the busy flag is raised and the error banner cleared. */
    method BeginUpload()
      modifies this
      ensures isUploading && error == None
      ensures currentJob == old(currentJob) && jobs == old(jobs)
    {
      isUploading := true;
      error := None;
    }

    /** The rest of `handleFileUpload`, once `uploadFile` resolved or threw. On success
        the response becomes the current job and polling starts for its id (the list
        itself is not touched); on failure the banner shows the error's message.
        Either way the busy flag is lowered. */
    method FinishUpload(response: Result<Job, Thrown>) returns (pollFor: Option<int>)
      modifies this
      ensures !isUploading
      ensures jobs == old(jobs)
      ensures response.Ok? ==>
                currentJob == Some(response.value) && pollFor == Some(response.value.id)
                && error == old(error)
      ensures response.Err? ==>
                currentJob == old(currentJob) && pollFor == None
                && error == Some(ErrorText(response.error, UploadFailedMessage))
    {
      match response {
        case Ok(job) =>
          currentJob := Some(job);
          pollFor := Some(job.id);
        case Err(err) =>
          error := Some(ErrorText(err, UploadFailedMessage));
          pollFor := None;
      }
      isUploading := false;
    }

    /** `handleReanalyze`, once `reanalyzeJob` resolved or threw: success restarts
        polling for the job and leaves the banner as it was; failure shows the error. */
    method HandleReanalyze(jobId: int, outcome: Result<(), Thrown>) returns (pollFor: Option<int>)
      modifies this
      ensures currentJob == old(currentJob) && jobs == old(jobs) && isUploading == old(isUploading)
      ensures outcome.Ok? ==> pollFor == Some(jobId) && error == old(error)
      ensures outcome.Err? ==>
                pollFor == None && error == Some(ErrorText(outcome.error, ReanalysisFailedMessage))
    {
      match outcome
      case Ok(_) =>
        pollFor := Some(jobId);
      case Err(err) =>
        error := Some(ErrorText(err, ReanalysisFailedMessage));
        pollFor := None;
    }

    /** `onJobSelect`: a job picked in the list becomes the current job; no poll starts. */
    method SelectJob(job: Job)
      modifies this
      ensures currentJob == Some(job)
      ensures jobs == old(jobs) && isUploading == old(isUploading) && error == old(error)
    {
      currentJob := Some(job);
    }
  }

  /** Upload "clip.mp3", see the job pending, then processing (polled again after
      2 s), then completed with a transcript (the chain stops and the viewer shows it). */
  method UploadAndPollScenario() returns (app: App)
    ensures app.currentJob.Some? && app.currentJob.value.status == Completed
    ensures |app.jobs| == 1 && app.jobs[0] == app.currentJob.value
    ensures ResultsView.SelectView(app.currentJob.value).ResultsPane?
    ensures ResultsView.SelectView(app.currentJob.value).transcript == "hello world"
  {
    app := new App();
    var pending := Job(1, "clip.mp3", "h", Pending, None, "Summarize", None, None);
    app.BeginUpload();
    var pollFor := app.FinishUpload(Ok(pending));
    assert pollFor == Some(1);
    var next := app.Poll(1, Ok(pending.(status := Processing)));
    assert next == Some(PollInterval);
    next := app.Poll(1, Err(ErrorObject("network")));
    assert next == Some(RetryInterval);
    var done := pending.(status := Completed, transcript := Some("hello world"));
    next := app.Poll(1, Ok(done));
    assert next == None;
    assert app.jobs == [done];
  }
}
