/**
 * The task state-change listener: translates a JGDI task-modification event into at most one
 * normalised event by comparing the task's state word against exact values.
 */
module JobModListener {
  import opened Optional
  import opened JavaText
  import opened GridTypes

  // Job state flags, as in the scheduler's def.h.
  const STATE_QUEUED: int := 0x40
  const STATE_RUNNING: int := 0x80
  const STATE_DELETED: int := 0x400
  const STATE_WAITING: int := 0x800
  const STATE_ERROR: int := 0x8000

  /** The events this listener can be handed. `taskState` is None when the event carries no task
      object: reading its state then throws, and the listener swallows the exception. */
  datatype JgdiEvent =
    | JobTaskMod(jobId: int, taskNumber: int, timestamp: int, taskState: Option<int>)
    | OtherEvent

  /** The normalised event for one state word, or None: the `default` branch only logs. */
  function Translate(jobId: int, taskNumber: int, timestamp: int, state: int): Option<PluginEvent> {
    var job := IntToString(jobId);
    var task := IntToString(taskNumber);
    if state == STATE_RUNNING + STATE_DELETED then
      Some(EventFinished(job, "0", timestamp * 1000, None, KILLED_EXIT_STATUS))
    else if state == STATE_RUNNING then
      Some(EventRunning(job, task))
    else if state == STATE_QUEUED || state == STATE_QUEUED + STATE_WAITING then
      Some(EventQueued(job, task, None))
    else if state == STATE_QUEUED + STATE_WAITING + STATE_ERROR then
      Some(EventQueued(job, task, Some("Eqw")))
    else
      None
  }

  /** eventOccured: what the listener fires for one event. */
  function EventOccured(evt: JgdiEvent): (r: Option<PluginEvent>)
    ensures evt.OtherEvent? ==> r.None?
    ensures evt.JobTaskMod? && evt.taskState.None? ==> r.None?
  {
    match evt
    case OtherEvent => None
    case JobTaskMod(jobId, taskNumber, timestamp, taskState) =>
      if taskState.None? then None else Translate(jobId, taskNumber, timestamp, taskState.value)
  }

  /** The five state words the switch handles, written out as plain numbers. */
  const HandledStates: set<int> := {0x480, 0x80, 0x40, 0x840, 0x8840}

  /** An event is fired exactly for the five handled state words; every other word, including
      words that merely contain one of those bit patterns, fires nothing. */
  lemma FiresIffHandled(jobId: int, taskNumber: int, timestamp: int, state: int)
    ensures EventOccured(JobTaskMod(jobId, taskNumber, timestamp, Some(state))).Some?
            <==> state in HandledStates
  {
  }

  /** What each handled word fires. */
  lemma HandledStateEvents(jobId: int, taskNumber: int, timestamp: int, state: int)
    requires state in HandledStates
    ensures var r := EventOccured(JobTaskMod(jobId, taskNumber, timestamp, Some(state)));
            var job, task := IntToString(jobId), IntToString(taskNumber);
            && (state == 0x480 ==> r == Some(EventFinished(job, "0", timestamp * 1000, None, -88)))
            && (state == 0x80 ==> r == Some(EventRunning(job, task)))
            && (state == 0x40 || state == 0x840 ==> r == Some(EventQueued(job, task, None)))
            && (state == 0x8840 ==> r == Some(EventQueued(job, task, Some("Eqw"))))
  {
  }

  /** The switch compares exact values: a running task that is also suspended (0x100) fires
      nothing although its RUNNING bit is set. */
  lemma ExactValueNotBits(jobId: int, taskNumber: int, timestamp: int)
    ensures EventOccured(JobTaskMod(jobId, taskNumber, timestamp, Some(STATE_RUNNING + 0x100))).None?
    ensures Translate(jobId, taskNumber, timestamp, STATE_RUNNING).Some?
  {
  }
}
