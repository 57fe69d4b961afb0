/**
 * The data carriers that cross the plug-in's boundary with the workflow orchestrator:
 * job status reports, finished-job answers and normalised lifecycle events.
 */
module GridTypes {
  import opened Optional

  /** The states a status report can carry. */
  datatype JobState = Queued | Running | Finished | NotFound

  /** A job status report. Every field starts unset ("never assigned" is `None`). */
  datatype GridJobInfo = GridJobInfo(
    jobId: string,
    state: Option<JobState>,
    queuedTime: Option<int>,
    startTime: Option<int>,
    finishTime: Option<int>,
    exitStatus: Option<int>,
    complexVariables: map<string, string>)

  /** A fresh report for `jobId`, as `new GridJobInfo(jobId)` creates it. */
  function NewJobInfo(jobId: string): (r: GridJobInfo)
    ensures r.jobId == jobId && r.state.None? && r.complexVariables == map[]
  {
    GridJobInfo(jobId, None, None, None, None, None, map[])
  }

  /** The answer of the external accounting backend about one finished job. */
  datatype FinishedJobInfo = FinishedJobInfo(
    jobId: string,
    exitStatus: Option<int>,
    startTimestamp: Option<int>,
    endTimestamp: Option<int>)

  /** The exit status the translators put on a Finished event for a killed job. */
  const KILLED_EXIT_STATUS: int := -88

  /** The normalised lifecycle events forwarded to the orchestrator. A Finished event carries a
      start time only when it was built from accounting data. */
  datatype PluginEvent =
    | EventQueued(jobId: string, taskId: string, tag: Option<string>)
    | EventRunning(jobId: string, taskId: string)
    | EventFinished(jobId: string, taskId: string, endTime: int, startTime: Option<int>, exitStatus: int)
}
