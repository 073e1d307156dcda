/**
  The job list sidebar (`JobsList`): one row per job, in the order received, with
  a status icon and a "Complete" badge. Markup, the filename and prompt text and
  the locale date formatting are presentation and are not modelled.
 */
module JobsListView {
  import opened JobModel

  /** The four icons: check circle, cross circle, spinning arrows, clock. */
  datatype Icon = CheckIcon | CrossIcon | SpinnerIcon | ClockIcon

  /** `getStatusIcon`: completed, failed, in flight, and everything else. */
  function StatusIcon(s: Status): (icon: Icon)
    ensures icon == CheckIcon <==> s == Completed
    ensures icon == CrossIcon <==> s == Failed
    ensures icon == SpinnerIcon <==> InFlight(s)
    ensures icon == ClockIcon <==> s == Pending
  {
    match s
    case Completed => CheckIcon
    case Failed => CrossIcon
    case Processing | Analyzing => SpinnerIcon
    case _ => ClockIcon
  }

  /** What one row shows about its job (and which job a click on it selects). */
  datatype Row = Row(job: Job, icon: Icon, completeBadge: bool)

  datatype ListView = NoJobsPlaceholder | JobRows(rows: seq<Row>)

  function RowFor(job: Job): Row {
    Row(job, StatusIcon(job.status), job.status == Completed)
  }

  /** `jobs.map(...)`: exactly one row per job, in the same order. */
  function RenderRows(jobs: seq<Job>): (rows: seq<Row>)
    ensures |rows| == |jobs|
    ensures forall i :: 0 <= i < |jobs| ==> rows[i].job == jobs[i]
    ensures forall i :: 0 <= i < |jobs| ==> rows[i].icon == StatusIcon(jobs[i].status)
    ensures forall i :: 0 <= i < |jobs| ==> (rows[i].completeBadge <==> jobs[i].status == Completed)
  {
    if jobs == [] then [] else [RowFor(jobs[0])] + RenderRows(jobs[1..])
  }

  /** The component: the placeholder for an empty list, the rows otherwise. */
  function Render(jobs: seq<Job>): (v: ListView)
    ensures v.NoJobsPlaceholder? <==> jobs == []
    ensures v.JobRows? ==> v.rows == RenderRows(jobs)
  {
    if |jobs| == 0 then NoJobsPlaceholder else JobRows(RenderRows(jobs))
  }

  /** The job handed to `onJobSelect` by a click on row `i`. */
  function SelectRow(v: ListView, i: nat): Job
    requires v.JobRows? && i < |v.rows|
  {
    v.rows[i].job
  }

  /** A click on row `i` selects exactly the `i`-th job. */
  lemma SelectRowGivesThatJob(jobs: seq<Job>, i: nat)
    requires i < |jobs|
    ensures Render(jobs).JobRows? && i < |Render(jobs).rows|
    ensures SelectRow(Render(jobs), i) == jobs[i]
  {
  }

  /** No sorting or filtering: the rows' jobs are the list itself. */
  lemma RowsPreserveOrder(jobs: seq<Job>)
    ensures seq(|jobs|, i requires 0 <= i < |jobs| => RenderRows(jobs)[i].job) == jobs
  {
  }
}
