/**
  The transcription job record shared by the backend table and the browser client
  (the `transcription_jobs` row and the `TranscriptionJob` JSON shape).
  Timestamps, file size and duration are display-only and are not part of the model.
 */
module JobModel {
  import opened Wrappers

  /** The five values the `status` column takes. */
  datatype Status = Pending | Processing | Analyzing | Completed | Failed

  datatype Job = Job(
    id: int,
    filename: string,
    fileHash: string,
    status: Status,
    transcript: Option<string>,
    analysisPrompt: string,
    analysisResult: Option<string>,
    errorMessage: Option<string>)

  /** Truthiness of an optional text in Python and in JavaScript: absent and "" are both false. */
  predicate Present(s: Option<string>) {
    s.Some? && s.value != ""
  }

  /** A job whose status still changes on its own: the poller keeps fetching it. */
  predicate InFlight(s: Status) {
    s == Processing || s == Analyzing
  }

  /** Index of the first job with the given id, or -1: `Array.prototype.findIndex`
      in the client and `filter(id == ...).first()` in the backend. */
  function IndexOfId(jobs: seq<Job>, id: int): (r: int)
    ensures -1 <= r < |jobs|
    ensures r >= 0 ==> jobs[r].id == id
    ensures forall k :: 0 <= k < |jobs| && (r < 0 || k < r) ==> jobs[k].id != id
  {
    if |jobs| == 0 then -1
    else if jobs[0].id == id then 0
    else
      var r := IndexOfId(jobs[1..], id);
      if r < 0 then -1 else r + 1
  }

  /** Index of the first job with the given content hash, or -1:
      `filter(file_hash == ...).first()` in the backend. */
  function IndexOfHash(jobs: seq<Job>, hash: string): (r: int)
    ensures -1 <= r < |jobs|
    ensures r >= 0 ==> jobs[r].fileHash == hash
    ensures forall k :: 0 <= k < |jobs| && (r < 0 || k < r) ==> jobs[k].fileHash != hash
  {
    if |jobs| == 0 then -1
    else if jobs[0].fileHash == hash then 0
    else
      var r := IndexOfHash(jobs[1..], hash);
      if r < 0 then -1 else r + 1
  }
}
