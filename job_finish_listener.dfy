/**
 * The job-finish listener: translates final-usage and deletion events into Finished events.
 */
module JobFinishListener {
  import opened Optional
  import opened JavaText
  import opened GridTypes
  import JobModListener

  /** The events this listener can be handed. The load values of a final-usage event are given
      by name, already converted to whole numbers. */
  datatype JgdiEvent =
    | JobFinalUsage(jobId: int, taskId: int, loadValues: map<string, int>)
    | JobDel(jobNumber: int, timestamp: int)
    | OtherEvent

  /** eventOccured: what the listener sends for one event. */
  function EventOccured(evt: JgdiEvent): Option<PluginEvent> {
    match evt
    case OtherEvent => None
    case JobDel(jobNumber, timestamp) =>
      Some(EventFinished(IntToString(jobNumber), "0", timestamp * 1000, None, KILLED_EXIT_STATUS))
    case JobFinalUsage(jobId, taskId, load) =>
      if |load| == 0 then None
      else
        var exitMissing := "exit_status" !in load;
        var exitStatus := if exitMissing then 0 else load["exit_status"];
        var timesMissing := "end_time" !in load || "start_time" !in load;
        var endTime := if timesMissing then 0 else load["end_time"] * 1000;
        var startTime := if timesMissing then 0 else load["start_time"] * 1000;
        var failed := exitMissing || timesMissing;
        if endTime > 0 && !failed then
          Some(EventFinished(IntToString(jobId), IntToString(taskId), endTime, Some(startTime), exitStatus))
        else None
  }

  /** A final-usage event yields a Finished event exactly when it has load values, an exit
      status, both times and a positive end time; the event then carries those values with the
      times converted from seconds to milliseconds. */
  lemma FinalUsageFiresIff(jobId: int, taskId: int, load: map<string, int>)
    ensures EventOccured(JobFinalUsage(jobId, taskId, load)).Some? <==>
              "exit_status" in load && "end_time" in load && "start_time" in load && load["end_time"] > 0
    ensures EventOccured(JobFinalUsage(jobId, taskId, load)).Some? ==>
              EventOccured(JobFinalUsage(jobId, taskId, load)) ==
              Some(EventFinished(IntToString(jobId), IntToString(taskId), load["end_time"] * 1000,
                                 Some(load["start_time"] * 1000), load["exit_status"]))
  {
    if "exit_status" in load {
      assert |load| > 0;
    }
  }

  /** A deletion always yields a Finished event with the kill status, and it is the same event
      the state-change listener fires for a running task that is being deleted. */
  lemma DeletionMatchesRunningDeleted(jobNumber: int, taskNumber: int, timestamp: int)
    ensures EventOccured(JobDel(jobNumber, timestamp)).Some?
    ensures EventOccured(JobDel(jobNumber, timestamp)).value.EventFinished?
    ensures EventOccured(JobDel(jobNumber, timestamp)).value.exitStatus == -88
    ensures EventOccured(JobDel(jobNumber, timestamp)) ==
            JobModListener.EventOccured(JobModListener.JobTaskMod(jobNumber, taskNumber, timestamp, Some(0x480)))
  {
  }
}
