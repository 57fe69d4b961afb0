/**
 * The plug-in object: master liveness, the active-job view (the complex-variable request,
 * the job filter, the task expansion and the task-state inference), the dispatch of
 * finished-job lookups to the two accounting backends, and job deletion.
 *
 * JGDI is a foreign library: the job list and the job records it returns, whether the master
 * answers a probe and whether the listeners register are inputs.
 */
module Plugin {
  import opened Optional
  import opened JavaText
  import opened GridTypes
  import AccountingThread
  import ArcoDatabases

  // ---------------------------------------------------------------------------------------
  // Jobs as JGDI reports them

  /** An array task the master lists for a job: its number and start time in seconds. */
  datatype JobTask = JobTask(number: int, startTime: int)

  /** The task range of a job, from getJaStructure(0). */
  datatype TaskRange = TaskRange(min: int, max: int, step: int)

  /** A job: number, name, hard resource requests (name, value) in their order, the task list
      (null when JGDI gives none), submission time in seconds and task range. */
  datatype Job = Job(
    number: int,
    name: string,
    hardResources: seq<(string, string)>,
    tasks: Option<seq<JobTask>>,
    submissionTime: int,
    structure: TaskRange)

  function TaskList(j: Job): seq<JobTask> {
    if j.tasks.Some? then j.tasks.value else []
  }

  /** A HashMap filled by put calls in the order of `kvs`: it holds exactly the keys put, each
      with the value put last. */
  function Puts(kvs: seq<(string, string)>): map<string, string>
    decreases |kvs|
  {
    if |kvs| == 0 then map[]
    else
      var last := kvs[|kvs| - 1];
      Puts(kvs[..|kvs| - 1])[last.0 := last.1]
  }

  /** The map holds exactly the keys put, each bound to the value put last. */
  lemma {:induction false} PutsContents(kvs: seq<(string, string)>)
    ensures forall k :: k in Puts(kvs) <==> exists i :: 0 <= i < |kvs| && kvs[i].0 == k
    ensures forall i :: 0 <= i < |kvs| && (forall j :: i < j < |kvs| ==> kvs[j].0 != kvs[i].0) ==>
              kvs[i].0 in Puts(kvs) && Puts(kvs)[kvs[i].0] == kvs[i].1
    decreases |kvs|
  {
    if |kvs| > 0 {
      var front := kvs[..|kvs| - 1];
      PutsContents(front);
      assert forall i :: 0 <= i < |kvs| - 1 ==> front[i] == kvs[i];
    }
  }

  lemma PutsSnoc(kvs: seq<(string, string)>, kv: (string, string))
    ensures Puts(kvs + [kv]) == Puts(kvs)[kv.0 := kv.1]
  {
    assert (kvs + [kv])[..|kvs|] == kvs;
  }

  // ---------------------------------------------------------------------------------------
  // The complex-variable request of getJobList

  const NAME_PREFIX_KEY: string := "GridJobNamePrefix"

  /** What one comma-separated entry puts into the request map. The entry is trimmed and
      split on '='. A lone name means "true", and so does "name=" (split drops the trailing
      empty piece); a lone name is put untrimmed when it had blanks before a '=' that split
      dropped. Entries with a blank name or with more than one '=' put nothing. */
  function Entry(str: string): (e: Option<(string, string)>)
    ensures e.Some? ==> |Trim(e.value.0)| > 0 && |e.value.1| > 0
  {
    if |Trim(str)| == 0 then None
    else
      var parts := Split(Trim(str), '=');
      if |parts| == 1 then
        if |Trim(parts[0])| > 0 then Some((parts[0], "true")) else None
      else if |parts| == 2 then
        if |Trim(parts[0])| == 0 then None
        else if |Trim(parts[1])| > 0 then Some((Trim(parts[0]), Trim(parts[1])))
        else Some((Trim(parts[0]), "true"))
      else None
  }

  /** The puts of a sequence of entries, in order. */
  function EntryPuts(strs: seq<string>): (r: seq<(string, string)>)
    ensures |r| <= |strs|
    decreases |strs|
  {
    if |strs| == 0 then []
    else
      var e := Entry(strs[|strs| - 1]);
      EntryPuts(strs[..|strs| - 1]) + (if e.Some? then [e.value] else [])
  }

  lemma EntryPutsSnoc(strs: seq<string>, k: nat)
    requires k < |strs|
    ensures var e := Entry(strs[k]);
            EntryPuts(strs[..k + 1]) == EntryPuts(strs[..k]) + (if e.Some? then [e.value] else [])
  {
    assert strs[..k + 1][..k] == strs[..k];
  }

  lemma RequestStep(strs: seq<string>, k: nat)
    requires k < |strs|
    ensures var e := Entry(strs[k]);
            var m := Puts(EntryPuts(strs[..k]));
            Puts(EntryPuts(strs[..k + 1])) == if e.Some? then m[e.value.0 := e.value.1] else m
  {
    EntryPutsSnoc(strs, k);
    var e := Entry(strs[k]);
    if e.Some? {
      PutsSnoc(EntryPuts(strs[..k]), e.value);
    } else {
      assert EntryPuts(strs[..k]) + [] == EntryPuts(strs[..k]);
    }
  }

  /** The request map of getJobList(complexVariables). */
  function RequestedVars(complexVariables: Option<string>): map<string, string> {
    if complexVariables.None? then map[] else Puts(EntryPuts(Split(complexVariables.value, ',')))
  }

  /** The loop over complexVariables.split(","). */
  method ParseRequest(complexVariables: Option<string>) returns (vars: map<string, string>)
    ensures vars == RequestedVars(complexVariables)
  {
    vars := map[];
    if complexVariables.None? {
      return;
    }
    var tokens := Split(complexVariables.value, ',');
    var k := 0;
    while k < |tokens|
      invariant 0 <= k <= |tokens|
      invariant vars == Puts(EntryPuts(tokens[..k]))
    {
      RequestStep(tokens, k);
      var e := Entry(tokens[k]);
      if e.Some? {
        vars := vars[e.value.0 := e.value.1];
      }
      k := k + 1;
    }
    assert tokens[..k] == tokens;
  }

  // ---------------------------------------------------------------------------------------
  // The job filter of getJobList

  /** Whether getJobList keeps a job for the request `vars`: every job for an empty request;
      with a name prefix entry the jobs whose name starts with it; otherwise the jobs that
      request every named resource with a value equal up to case. */
  predicate Keeps(vars: map<string, string>, j: Job) {
    if |vars| == 0 then true
    else if NAME_PREFIX_KEY in vars then StartsWith(j.name, vars[NAME_PREFIX_KEY])
    else
      var hard := Puts(j.hardResources);
      forall k :: k in vars ==> k in hard && EqualsIgnoreCase(hard[k], vars[k])
  }

  /** The loop that fills jobComplexVars. */
  method ResourceMap(res: seq<(string, string)>) returns (m: map<string, string>)
    ensures m == Puts(res)
  {
    m := map[];
    var i := 0;
    while i < |res|
      invariant 0 <= i <= |res|
      invariant m == Puts(res[..i])
    {
      assert res[..i + 1][..i] == res[..i];
      m := m[res[i].0 := res[i].1];
      i := i + 1;
    }
    assert res[..i] == res;
  }

  /** The test of one job, with the loop over the requested names and its break. */
  method Matches(vars: map<string, string>, j: Job) returns (same: bool)
    ensures same == Keeps(vars, j)
  {
    same := true;
    if |vars| == 0 {
      return;
    }
    if NAME_PREFIX_KEY in vars {
      return StartsWith(j.name, vars[NAME_PREFIX_KEY]);
    }
    var hard := ResourceMap(j.hardResources);
    var keys := vars.Keys;
    while keys != {} && same
      invariant keys <= vars.Keys
      invariant same <==> forall k :: k in vars.Keys - keys ==> k in hard && EqualsIgnoreCase(hard[k], vars[k])
      decreases |keys|
    {
      var cvn :| cvn in keys;
      if cvn !in hard || !EqualsIgnoreCase(hard[cvn], vars[cvn]) {
        same := false;
      }
      keys := keys - {cvn};
    }
  }

  /** The jobs getJobList keeps, in their order. */
  function Kept(vars: map<string, string>, jobs: seq<Job>): (r: seq<Job>)
    ensures |r| <= |jobs|
    ensures forall i :: 0 <= i < |r| ==> Keeps(vars, r[i]) && r[i] in jobs
    decreases |jobs|
  {
    if |jobs| == 0 then []
    else Kept(vars, jobs[..|jobs| - 1]) + (if Keeps(vars, jobs[|jobs| - 1]) then [jobs[|jobs| - 1]] else [])
  }

  // ---------------------------------------------------------------------------------------
  // getJobInfo(String, Job)

  /** What the plug-in's getFinishedJobInfo gives getJobInfo: null, a report, an exception,
      or a wait that never ends (an ARCo lookup with no permit left). */
  datatype Seen = NullAnswer | NonNullAnswer | Raises | Blocks

  /** What jgdi.getJob answers: the job, if the master knows it, or an exception. */
  datatype Fetch = Fetched(job: Option<Job>) | FetchFails

  /** The report getJobInfo returns (null is `Info(None)`), the NumberFormatException that the
      task number parse outside the try block lets escape, or a lookup that never returns. */
  datatype InfoResult = Info(report: Option<GridJobInfo>) | BadTaskId | InfoBlocks

  /** The job number part of "J" or "J.T" and its task number: 1 without a dot, None when the
      text after the first dot is not an int. */
  function SplitJobId(jobId: string): (string, Option<int>) {
    var dot := IndexOf(jobId, '.');
    if dot == -1 then (jobId, Some(1)) else (jobId[..dot], ParseInt(jobId[dot + 1..]))
  }

  /** maxTaskId: the largest listed task number, or 0. */
  function MaxTask(tasks: seq<JobTask>): (m: int)
    ensures m >= 0 && forall i :: 0 <= i < |tasks| ==> tasks[i].number <= m
    ensures m == 0 || exists i :: 0 <= i < |tasks| && tasks[i].number == m
    decreases |tasks|
  {
    if |tasks| == 0 then 0
    else
      var m := MaxTask(tasks[..|tasks| - 1]);
      assert forall i :: 0 <= i < |tasks| - 1 ==> tasks[..|tasks| - 1][i] == tasks[i];
      if tasks[|tasks| - 1].number > m then tasks[|tasks| - 1].number else m
  }

  /** The position of the first listed task with number `taskId`, or -1. */
  function FirstTask(tasks: seq<JobTask>, taskId: int): (r: int)
    ensures -1 <= r < |tasks|
    ensures r == -1 <==> forall i :: 0 <= i < |tasks| ==> tasks[i].number != taskId
    ensures r >= 0 ==> tasks[r].number == taskId && forall i :: 0 <= i < r ==> tasks[i].number != taskId
    decreases |tasks|
  {
    if |tasks| == 0 then -1
    else if tasks[0].number == taskId then 0
    else
      var r := FirstTask(tasks[1..], taskId);
      if r == -1 then -1 else r + 1
  }

  lemma FirstTaskAt(tasks: seq<JobTask>, taskId: int, i: nat)
    requires i < |tasks| && tasks[i].number == taskId
    requires forall k :: 0 <= k < i ==> tasks[k].number != taskId
    ensures FirstTask(tasks, taskId) == i
  {
    var r := FirstTask(tasks, taskId);
    assert r != -1;
  }

  lemma MaxTaskSnoc(tasks: seq<JobTask>, i: nat)
    requires i < |tasks|
    ensures MaxTask(tasks[..i + 1]) ==
            if tasks[i].number > MaxTask(tasks[..i]) then tasks[i].number else MaxTask(tasks[..i])
  {
    assert tasks[..i + 1][..i] == tasks[..i];
  }

  function QueuedSince(g: GridJobInfo, j: Job): GridJobInfo {
    g.(queuedTime := Some(j.submissionTime * 1000), state := Some(Queued))
  }

  /** The inference once the job is known, `g` carrying its hard resources. */
  function TaskState(g: GridJobInfo, j: Job, taskId: int, finished: Seen): InfoResult {
    var tasks := TaskList(j);
    if |tasks| == 0 then Info(Some(QueuedSince(g, j)))
    else
      var k := FirstTask(tasks, taskId);
      if k >= 0 then Info(Some(g.(startTime := Some(tasks[k].startTime * 1000), state := Some(Running))))
      else if taskId <= MaxTask(tasks) then Info(None)
      else match finished
        case NullAnswer => Info(Some(QueuedSince(g, j)))
        case NonNullAnswer => Info(None)
        case Raises => Info(Some(g))
        case Blocks => InfoBlocks
  }

  /** The id getJobInfo asks getFinishedJobInfo about. */
  function LookupId(num: string, taskId: int): string {
    num + "." + IntToString(taskId)
  }

  /** getJobInfo(jobId, j): `given` is the job getJobList passes (null from the public
      getJobInfo), `session` whether there is a JGDI session, `fetched` what jgdi.getJob
      answers and `finished` what getFinishedJobInfo answers for an id. A failure inside the
      try block leaves the fresh report. */
  function JobInfoOf(jobId: string, given: Option<Job>, session: bool, fetched: Fetch,
                     finished: string -> Seen): InfoResult
  {
    var (num, task) := SplitJobId(jobId);
    if task.None? then BadTaskId
    else
      var g := NewJobInfo(jobId);
      if given.None? && (ParseInt(num).None? || !session || fetched.FetchFails?) then Info(Some(g))
      else if given.None? && fetched.job.None? then Info(None)
      else
        var j := if given.Some? then given.value else fetched.job.value;
        TaskState(g.(complexVariables := Puts(j.hardResources)), j, task.value, finished(LookupId(num, task.value)))
  }

  /** The body of getJobInfo, with its loops over the hard resources and the task list. */
  method JobInfo(jobId: string, given: Option<Job>, session: bool, fetched: Fetch, finished: string -> Seen)
    returns (r: InfoResult)
    ensures r == JobInfoOf(jobId, given, session, fetched, finished)
  {
    var gji := NewJobInfo(jobId);
    var num := jobId;
    var taskId := 1;
    var dot := IndexOf(jobId, '.');
    if dot != -1 {
      var t := ParseInt(jobId[dot + 1..]);
      if t.None? {
        return BadTaskId;
      }
      taskId := t.value;
      num := jobId[..dot];
    }
    var j: Job;
    if given.Some? {
      j := given.value;
    } else {
      if ParseInt(num).None? || !session || fetched.FetchFails? {
        return Info(Some(gji));
      }
      if fetched.job.None? {
        return Info(None);
      }
      j := fetched.job.value;
    }
    var vars := ResourceMap(j.hardResources);
    r := InferState(gji.(complexVariables := vars), j, taskId, finished(LookupId(num, taskId)));
  }

  /** The part of getJobInfo after the job is known: the scan of the task list for the task
      and for maxTaskId. */
  method InferState(gji: GridJobInfo, j: Job, taskId: int, finished: Seen) returns (r: InfoResult)
    ensures r == TaskState(gji, j, taskId, finished)
  {
    var tasks := TaskList(j);
    if |tasks| == 0 {
      return Info(Some(QueuedSince(gji, j)));
    }
    var maxTaskId := 0;
    var i := 0;
    while i < |tasks|
      invariant 0 <= i <= |tasks|
      invariant forall k :: 0 <= k < i ==> tasks[k].number != taskId
      invariant maxTaskId == MaxTask(tasks[..i])
    {
      var taskNum := tasks[i].number;
      if taskNum == taskId {
        FirstTaskAt(tasks, taskId, i);
        return Info(Some(gji.(startTime := Some(tasks[i].startTime * 1000), state := Some(Running))));
      }
      MaxTaskSnoc(tasks, i);
      if taskNum > maxTaskId {
        maxTaskId := taskNum;
      }
      i := i + 1;
    }
    assert tasks[..i] == tasks;
    assert FirstTask(tasks, taskId) == -1;
    if taskId <= maxTaskId {
      return Info(None);
    }
    match finished
    case NonNullAnswer =>
      r := Info(None);
    case NullAnswer =>
      r := Info(Some(QueuedSince(gji, j)));
    case Raises =>
      r := Info(Some(gji));
    case Blocks =>
      r := InfoBlocks;
  }

  // ---------------------------------------------------------------------------------------
  // The task expansion of getJobList

  /** The reports getJobList collects (null ones included where it adds them), null when
      there is no JGDI session, or how it fails to return: a lookup that waits for ever, an
      exception escaping, or a range loop whose int counter leaves the int range (or never
      moves) before it ends. */
  datatype Listing =
    | NoSession
    | Listed(reports: seq<Option<GridJobInfo>>)
    | ListBlocks
    | ListEscapes
    | ListRunaway

  /** The values `for (i = min; i <= max; i += step)` visits before i += step first leaves the
      int range, and whether it does (a zero step never moves and counts as leaving). */
  function Counter(i: int, max: int, step: int): (r: (seq<int>, bool))
    ensures forall k :: 0 <= k < |r.0| ==> r.0[k] == i + k * step && r.0[k] <= max
    ensures INT_MIN <= i && step > 0 && max + step <= INT_MAX ==> !r.1
    decreases if step > 0 then max - i else if step < 0 then i - INT_MIN else 0
  {
    if i > max then ([], false)
    else if step == 0 then ([i], true)
    else if i + step > INT_MAX || i + step < INT_MIN then ([i], true)
    else
      var rest := Counter(i + step, max, step);
      ShiftedSteps(i, step, rest.0);
      ([i] + rest.0, rest.1)
  }

  /** Steps from i + step, with i in front, are steps from i. */
  lemma ShiftedSteps(i: int, step: int, rest: seq<int>)
    requires forall k :: 0 <= k < |rest| ==> rest[k] == (i + step) + k * step
    ensures forall k :: 0 <= k < |[i] + rest| ==> ([i] + rest)[k] == i + k * step
  {
    forall k | 1 <= k < |rest| + 1 ensures ([i] + rest)[k] == i + k * step {
      assert ([i] + rest)[k] == rest[k - 1];
      assert (i + step) + (k - 1) * step == i + k * step;
    }
  }

  /** The counter stays in the int range. */
  lemma {:induction false} CounterInRange(i: int, max: int, step: int)
    requires INT_MIN <= i <= INT_MAX
    ensures forall k :: 0 <= k < |Counter(i, max, step).0| ==> INT_MIN <= Counter(i, max, step).0[k] <= INT_MAX
    decreases if step > 0 then max - i else if step < 0 then i - INT_MIN else 0
  {
    if i <= max && step != 0 && INT_MIN <= i + step <= INT_MAX {
      CounterInRange(i + step, max, step);
      var rest := Counter(i + step, max, step).0;
      assert Counter(i, max, step).0 == [i] + rest;
    }
  }

  /** A counter that ends normally has its next value past max. */
  lemma {:induction false} CounterPassesMax(i: int, max: int, step: int)
    requires step > 0 && !Counter(i, max, step).1
    ensures i + |Counter(i, max, step).0| * step > max
    decreases max - i
  {
    if i <= max {
      CounterPassesMax(i + step, max, step);
      var n := |Counter(i + step, max, step).0|;
      assert |Counter(i, max, step).0| == n + 1;
      assert (i + step) + n * step == i + (n + 1) * step;
    }
  }


  /** "J.T" for each task number T of job J. */
  function TaskIds(num: int, tasks: seq<int>): (ids: seq<string>)
    ensures |ids| == |tasks|
    ensures forall k :: 0 <= k < |tasks| ==> ids[k] == LookupId(IntToString(num), tasks[k])
  {
    seq(|tasks|, k requires 0 <= k < |tasks| => LookupId(IntToString(num), tasks[k]))
  }

  function TaskNumbers(tasks: seq<JobTask>): (ns: seq<int>)
    ensures |ns| == |tasks| && forall k :: 0 <= k < |tasks| ==> ns[k] == tasks[k].number
  {
    seq(|tasks|, k requires 0 <= k < |tasks| => tasks[k].number)
  }

  /** One more getJobInfo answer added to the reports so far. */
  function AddReport(prev: Listing, g: InfoResult, keepNull: bool): Listing {
    match prev
    case Listed(rs) =>
      (match g
       case Info(report) => Listed(rs + (if report.Some? || keepNull then [report] else []))
       case BadTaskId => ListEscapes
       case InfoBlocks => ListBlocks)
    case other => other
  }

  /** What getJobInfo answers for each id of job `j`, in turn. */
  function Answers(j: Job, ids: seq<string>, finished: string -> Seen): (gs: seq<InfoResult>)
    ensures |gs| == |ids|
  {
    seq(|ids|, k requires 0 <= k < |ids| => JobInfoOf(ids[k], Some(j), true, FetchFails, finished))
  }

  /** The answers in turn, collecting the reports (null ones only with `keepNull`) until one
      of them fails to return. */
  function Collected(gs: seq<InfoResult>, keepNull: bool): Listing
    decreases |gs|
  {
    if |gs| == 0 then Listed([])
    else AddReport(Collected(gs[..|gs| - 1], keepNull), gs[|gs| - 1], keepNull)
  }

  /** getJobInfo for each id in turn, collecting the reports. */
  function Reports(j: Job, ids: seq<string>, finished: string -> Seen, keepNull: bool): Listing {
    Collected(Answers(j, ids, finished), keepNull)
  }

  /** The reports getJobList collects for one job: none without a task list; the one task or
      each listed task, null reports left out; for a job with an empty task list, each task
      of its range, null reports included. */
  function JobReports(j: Job, finished: string -> Seen): Listing {
    if j.tasks.None? then Listed([])
    else if |j.tasks.value| == 0 then
      var c := Counter(j.structure.min, j.structure.max, j.structure.step);
      match Reports(j, TaskIds(j.number, c.0), finished, true)
      case Listed(rs) => if c.1 then ListRunaway else Listed(rs)
      case other => other
    else Reports(j, TaskIds(j.number, TaskNumbers(j.tasks.value)), finished, false)
  }

  /** The reports of one more job added to the reports so far. */
  function AddJob(prev: Listing, more: Listing): Listing {
    match prev
    case Listed(rs) => (if more.Listed? then Listed(rs + more.reports) else more)
    case other => other
  }

  /** The reports of the jobs in turn. */
  function JobsReports(js: seq<Job>, finished: string -> Seen): Listing
    decreases |js|
  {
    if |js| == 0 then Listed([])
    else AddJob(JobsReports(js[..|js| - 1], finished), JobReports(js[|js| - 1], finished))
  }

  /** getJobList(complexVariables): `session` is whether there is a JGDI session and `jobs`
      what jgdi.getJobList answers (None when it throws). */
  function JobListOf(session: bool, complexVariables: Option<string>, jobs: Option<seq<Job>>,
                     finished: string -> Seen): Listing
  {
    if !session then NoSession
    else if jobs.None? then Listed([])
    else JobsReports(Kept(RequestedVars(complexVariables), jobs.value), finished)
  }

  /** The range loop's counter values. */
  method CountTasks(min: int, max: int, step: int) returns (ns: seq<int>, runaway: bool)
    ensures (ns, runaway) == Counter(min, max, step)
  {
    ns := [];
    runaway := false;
    var i := min;
    ghost var goal := Counter(min, max, step);
    assert [] + goal.0 == goal.0;
    while i <= max
      invariant goal == (ns + Counter(i, max, step).0, Counter(i, max, step).1)
      decreases if step > 0 then max - i else if step < 0 then i - INT_MIN else 0
    {
      if step == 0 || i + step > INT_MAX || i + step < INT_MIN {
        ns := ns + [i];
        runaway := true;
        return;
      }
      assert Counter(i, max, step).0 == [i] + Counter(i + step, max, step).0;
      assert ns + ([i] + Counter(i + step, max, step).0) == (ns + [i]) + Counter(i + step, max, step).0;
      ns := ns + [i];
      i := i + step;
    }
    assert ns + [] == ns;
  }

  lemma CollectedSnoc(gs: seq<InfoResult>, k: nat, keepNull: bool)
    requires k < |gs|
    ensures Collected(gs[..k + 1], keepNull) == AddReport(Collected(gs[..k], keepNull), gs[k], keepNull)
  {
    assert gs[..k + 1][..k] == gs[..k];
  }

  /** getJobInfo for the `k`-th id of job `j`. */
  method AnswerAt(j: Job, ids: seq<string>, k: nat, finished: string -> Seen) returns (g: InfoResult)
    requires k < |ids|
    ensures g == Answers(j, ids, finished)[k]
  {
    g := JobInfo(ids[k], Some(j), true, FetchFails, finished);
  }

  /** The loop over the ids of one job. */
  method CollectReports(j: Job, ids: seq<string>, finished: string -> Seen, keepNull: bool) returns (r: Listing)
    ensures r == Reports(j, ids, finished, keepNull)
  {
    ghost var gs := Answers(j, ids, finished);
    var rs := [];
    var k := 0;
    while k < |ids|
      invariant 0 <= k <= |ids|
      invariant Collected(gs[..k], keepNull) == Listed(rs)
    {
      CollectedSnoc(gs, k, keepNull);
      var g := AnswerAt(j, ids, k, finished);
      if !g.Info? {
        r := if g.BadTaskId? then ListEscapes else ListBlocks;
        PrefixFailureStays(gs, k + 1, keepNull);
        return;
      }
      if g.report.Some? || keepNull {
        rs := rs + [g.report];
      } else {
        assert rs + [] == rs;
      }
      k := k + 1;
    }
    assert gs[..k] == gs;
    r := Listed(rs);
  }

  /** Once the answers of a prefix fail, the answers of the whole fail the same way. */
  lemma {:induction false} PrefixFailureStays(gs: seq<InfoResult>, k: nat, keepNull: bool)
    requires k <= |gs| && !Collected(gs[..k], keepNull).Listed?
    ensures Collected(gs, keepNull) == Collected(gs[..k], keepNull)
    decreases |gs| - k
  {
    if k < |gs| {
      CollectedSnoc(gs, k, keepNull);
      PrefixFailureStays(gs, k + 1, keepNull);
    } else {
      assert gs[..k] == gs;
    }
  }

  /** The reports of one job, as the loops of getJobList collect them. */
  method ListJob(j: Job, finished: string -> Seen) returns (r: Listing)
    ensures r == JobReports(j, finished)
  {
    if j.tasks.None? {
      return Listed([]);
    }
    var taskList := j.tasks.value;
    if |taskList| == 0 {
      var ns, runaway := CountTasks(j.structure.min, j.structure.max, j.structure.step);
      r := CollectReports(j, TaskIds(j.number, ns), finished, true);
      if r.Listed? && runaway {
        r := ListRunaway;
      }
    } else {
      r := CollectReports(j, TaskIds(j.number, TaskNumbers(taskList)), finished, false);
    }
  }

  // ---------------------------------------------------------------------------------------
  // pingQmaster

  /** The liveness part of the plug-in: the alive flag, the JGDI session (a probe instance
      number) and whether the three event clients are open. */
  datatype Liveness = Liveness(alive: bool, session: Option<nat>, listenersOpen: bool)

  /** pingQmaster: `probe` is the instance a new JGDI connection yields (None when that
      throws), `followUpOk` whether what comes next succeeds: registering the listeners
      when the master was down, closing the probe when it was up. A follow-up that throws
      falls through to the crash branch. */
  function PingNext(s: Liveness, probe: Option<nat>, followUpOk: bool): Liveness {
    if probe.Some? && !s.alive then
      if followUpOk then Liveness(true, probe, true) else Liveness(false, probe, false)
    else if probe.Some? && followUpOk then s
    else if s.alive then s.(alive := false, listenersOpen := false)
    else s
  }

  /** After a ping the master counts as alive exactly when the probe connected and its
      follow-up succeeded, whatever the state before. */
  lemma PingAliveIff(s: Liveness, probe: Option<nat>, followUpOk: bool)
    ensures PingNext(s, probe, followUpOk).alive <==> probe.Some? && followUpOk
  {
  }

  /** A ping keeps the listeners open exactly while the master counts as alive. */
  lemma PingKeepsListenersInStep(s: Liveness, probe: Option<nat>, followUpOk: bool)
    requires s.listenersOpen == s.alive
    ensures PingNext(s, probe, followUpOk).listenersOpen == PingNext(s, probe, followUpOk).alive
  {
  }

  /** A successful probe while up changes nothing; a failed probe while down changes nothing;
      a restore switches the session to the probe's instance. */
  lemma PingTransitions(s: Liveness, probe: Option<nat>, followUpOk: bool)
    ensures s.alive && probe.Some? && followUpOk ==> PingNext(s, probe, followUpOk) == s
    ensures !s.alive && probe.None? ==> PingNext(s, probe, followUpOk) == s
    ensures !s.alive && probe.Some? ==> PingNext(s, probe, followUpOk).session == probe
    ensures s.alive && !(probe.Some? && followUpOk) ==>
              PingNext(s, probe, followUpOk) == Liveness(false, s.session, false)
  {
  }

  // ---------------------------------------------------------------------------------------
  // getFinishedJobInfo and killJob

  /** The backend a GridFinishedJobRetrievalMethod preference selects. */
  datatype Backend = LocalBackend | ArcoBackend | Unsupported

  function BackendOf(m: Option<string>): (b: Backend)
    ensures b == LocalBackend <==> m.None? || |Trim(m.value)| == 0
    ensures b == ArcoBackend <==> m.Some? && |Trim(m.value)| > 0 && ToLower(m.value) == "arco"
  {
    if m.None? || |Trim(m.value)| == 0 then LocalBackend
    else if ToLower(m.value) == "arco" then ArcoBackend
    else Unsupported
  }

  function UnsupportedMessage(m: string): string {
    "Method \"" + m + "\" is not supported by this plugin for obtaining finished job information."
  }

  /** What getFinishedJobInfo gives: the accounting thread's report, the ARCo answer, the
      NullPointerException of a local lookup without an accounting thread, or the
      PLGrid_InvalidMethodException for another method. */
  datatype FinishedLookup =
    | FromAccounting(report: Option<GridJobInfo>)
    | FromArco(answer: ArcoDatabases.Answer)
    | NoAccountingThread
    | InvalidMethod(message: string)

  /** How getJobInfo sees a lookup. */
  function SeenOf(l: FinishedLookup): (s: Seen)
    ensures s == NonNullAnswer <==>
            (l.FromAccounting? && l.report.Some?) || (l.FromArco? && l.answer.Answer? && l.answer.info.Some?)
  {
    match l
    case FromAccounting(report) => if report.Some? then NonNullAnswer else NullAnswer
    case FromArco(answer) =>
      (match answer
       case Answer(info) => if info.Some? then NonNullAnswer else NullAnswer
       case Waits => Blocks
       case Threw(_) => Raises)
    case _ => Raises
  }

  /** What killJob does: run a qdel command line, delete through JGDI (a task id with its
      answer list, or a job number), nothing (a job id that is not an int), or throw (no
      JGDI session: the NullPointerException has no message, and the catch block's
      getMessage().contains throws again). */
  datatype KillAction =
    | Exec(command: seq<string>)
    | DeleteTasks(ids: seq<string>, force: bool)
    | DeleteJob(number: int)
    | NoDeletion
    | KillRaises

  function KillCommand(jobId: string, username: string, force: bool): string {
    "sudo -u " + (username + (" " + ("qdel " + ((if force then "-f " else "") + jobId))))
  }

  function KillOf(session: bool, jobId: string, username: Option<string>, force: bool): KillAction {
    if username.Some? then Exec(Tokens(KillCommand(jobId, username.value, force), Whitespace))
    else if Contains(jobId, ".") then (if session then DeleteTasks([jobId], force) else KillRaises)
    else
      var n := ParseInt(jobId);
      if n.None? then NoDeletion else if session then DeleteJob(n.value) else KillRaises
  }

  // ---------------------------------------------------------------------------------------
  // The plug-in object

  class JgdiPlugin {
    /** The preferences the ARCo backend reads when it is created. */
    const preferences: map<string, string>
    /** GridFinishedJobRetrievalMethod, and the accounting thread, as setPreferences leaves them. */
    const finishedMethod: Option<string>
    const accounting: AccountingThread.SgeAccountingThread?
    var arco: ArcoDatabases.ArcoDatabase?
    var isQmasterAlive: bool
    var session: Option<nat>
    var listenersOpen: bool

    function Liv(): Liveness
      reads this
    {
      Liveness(isQmasterAlive, session, listenersOpen)
    }

    /** The plug-in after its constructor: `connection` is the JGDI instance (None when the
        connection throws) and `registered` whether the listeners then register. */
    constructor(connection: Option<nat>, registered: bool, prefs: map<string, string>,
                retrieval: Option<string>, thread: AccountingThread.SgeAccountingThread?)
      ensures isQmasterAlive && session == connection
      ensures listenersOpen == (connection.Some? && registered)
      ensures preferences == prefs && finishedMethod == retrieval && accounting == thread && arco == null
    {
      preferences := prefs;
      finishedMethod := retrieval;
      accounting := thread;
      arco := null;
      isQmasterAlive := true;
      session := connection;
      listenersOpen := connection.Some? && registered;
    }

    method PingQmaster(probe: Option<nat>, followUpOk: bool)
      modifies this`isQmasterAlive, this`session, this`listenersOpen
      ensures Liv() == PingNext(old(Liv()), probe, followUpOk)
    {
      if probe.Some? {
        if !isQmasterAlive {
          isQmasterAlive := true;
          session := probe;
          if followUpOk {
            listenersOpen := true;
            return;
          }
        } else if followUpOk {
          return;
        }
      }
      if isQmasterAlive {
        isQmasterAlive := false;
        listenersOpen := false;
      }
    }

    /** getFinishedJobInfo. For ARCo, `opens` is how many connections open when the backend is
        created here, and `failedQueries`, `rows` and `probe` what its lookup meets. */
    method GetFinishedJobInfo(jobId: string, opens: nat, failedQueries: nat, rows: seq<ArcoDatabases.DbRow>,
                              probe: ArcoDatabases.Probe) returns (r: FinishedLookup)
      modifies this`arco, arco
      ensures BackendOf(finishedMethod) == LocalBackend ==>
                arco == old(arco) &&
                r == if accounting == null then NoAccountingThread
                     else FromAccounting(AccountingThread.LookupOver(accounting.db, accounting.tables, jobId))
      ensures BackendOf(finishedMethod) == Unsupported ==>
                arco == old(arco) && r == InvalidMethod(UnsupportedMessage(finishedMethod.value))
      ensures BackendOf(finishedMethod) == ArcoBackend ==> arco != null && r.FromArco?
      ensures BackendOf(finishedMethod) == ArcoBackend && old(arco) != null ==> arco == old(arco)
      ensures BackendOf(finishedMethod) == ArcoBackend && old(arco) != null && !arco.initialized ==>
                r == FromArco(ArcoDatabases.Answer(None))
      ensures BackendOf(finishedMethod) == ArcoBackend && old(arco) != null && arco.initialized &&
              old(arco.Balanced()) && old(arco.permits) > 0 ==>
                r == FromArco(ArcoDatabases.Answer(ArcoDatabases.ScanAnswer(jobId, ArcoDatabases.Scan(rows))))
      ensures BackendOf(finishedMethod) == ArcoBackend && (old(arco) == null || old(arco.Valid())) ==> arco.Valid()
      ensures BackendOf(finishedMethod) == ArcoBackend && old(arco) == null ==>
                fresh(arco) && arco.url == ArcoDatabases.Lookup(preferences, "GridJobAccountingURL") &&
                r == FromArco(ArcoDatabases.Answer(
                       if arco.initialized then ArcoDatabases.ScanAnswer(jobId, ArcoDatabases.Scan(rows)) else None))
    {
      var backend := BackendOf(finishedMethod);
      if backend == LocalBackend {
        if accounting == null {
          return NoAccountingThread;
        }
        var report := accounting.GetFinishedJobInfo(jobId);
        return FromAccounting(report);
      } else if backend == ArcoBackend {
        r := ArcoFinishedJobInfo(jobId, opens, failedQueries, rows, probe);
        return;
      }
      return InvalidMethod(UnsupportedMessage(finishedMethod.value));
    }

    /** The ARCo branch of getFinishedJobInfo: the backend is created from the preferences on
        first use, then asked. */
    method ArcoFinishedJobInfo(jobId: string, opens: nat, failedQueries: nat, rows: seq<ArcoDatabases.DbRow>,
                               probe: ArcoDatabases.Probe) returns (r: FinishedLookup)
      modifies this`arco, arco
      ensures arco != null && r.FromArco?
      ensures old(arco) != null ==> arco == old(arco)
      ensures old(arco) != null && !arco.initialized ==> r == FromArco(ArcoDatabases.Answer(None))
      ensures old(arco) != null && arco.initialized && old(arco.Balanced()) && old(arco.permits) > 0 ==>
                r == FromArco(ArcoDatabases.Answer(ArcoDatabases.ScanAnswer(jobId, ArcoDatabases.Scan(rows))))
      ensures old(arco) == null || old(arco.Valid()) ==> arco.Valid()
      ensures old(arco) == null ==>
                fresh(arco) && arco.url == ArcoDatabases.Lookup(preferences, "GridJobAccountingURL") &&
                r == FromArco(ArcoDatabases.Answer(
                       if arco.initialized then ArcoDatabases.ScanAnswer(jobId, ArcoDatabases.Scan(rows)) else None))
    {
      if arco == null {
        arco := new ArcoDatabases.ArcoDatabase(preferences, opens);
      }
      var answer := arco.GetFinishedJobInfo(jobId, failedQueries, rows, probe);
      r := FromArco(answer);
    }

    /** getJobInfo(String): no job given, so it is fetched through the session. */
    method GetJobInfo(jobId: string, fetched: Fetch, finished: string -> Seen) returns (r: InfoResult)
      ensures r == JobInfoOf(jobId, None, session.Some?, fetched, finished)
    {
      r := JobInfo(jobId, None, session.Some?, fetched, finished);
    }

    /** getJobList(complexVariables), with its loops over the request, the jobs and the kept
        jobs. */
    method GetJobList(complexVariables: Option<string>, jobs: Option<seq<Job>>, finished: string -> Seen)
      returns (r: Listing)
      ensures r == JobListOf(session.Some?, complexVariables, jobs, finished)
    {
      if session.None? {
        return NoSession;
      }
      if jobs.None? {
        return Listed([]);
      }
      var vars := ParseRequest(complexVariables);
      var plJobs := FilterJobs(vars, jobs.value);
      r := ListJobs(plJobs, finished);
    }

    method KillJob(jobId: string, username: Option<string>, force: bool) returns (a: KillAction)
      ensures a == KillOf(session.Some?, jobId, username, force)
    {
      if username.Some? {
        var cmd := "sudo -u " + (username.value + (" " + "qdel "));
        if force {
          cmd := cmd + "-f ";
        }
        cmd := cmd + jobId;
        assert cmd == KillCommand(jobId, username.value, force);
        return Exec(Tokens(cmd, Whitespace));
      }
      if Contains(jobId, ".") {
        return if session.Some? then DeleteTasks([jobId], force) else KillRaises;
      }
      var n := ParseInt(jobId);
      if n.None? {
        return NoDeletion;
      }
      return if session.Some? then DeleteJob(n.value) else KillRaises;
    }
  }

  /** The filter loop of getJobList. */
  method FilterJobs(vars: map<string, string>, qJobs: seq<Job>) returns (plJobs: seq<Job>)
    ensures plJobs == Kept(vars, qJobs)
  {
    plJobs := [];
    var i := 0;
    while i < |qJobs|
      invariant 0 <= i <= |qJobs|
      invariant plJobs == Kept(vars, qJobs[..i])
    {
      assert qJobs[..i + 1][..i] == qJobs[..i];
      var same := Matches(vars, qJobs[i]);
      if same {
        plJobs := plJobs + [qJobs[i]];
      } else {
        assert plJobs + [] == plJobs;
      }
      i := i + 1;
    }
    assert qJobs[..i] == qJobs;
  }

  /** The loop of getJobList over the kept jobs. */
  method ListJobs(plJobs: seq<Job>, finished: string -> Seen) returns (r: Listing)
    ensures r == JobsReports(plJobs, finished)
  {
    var ret := [];
    var k := 0;
    while k < |plJobs|
      invariant 0 <= k <= |plJobs|
      invariant JobsReports(plJobs[..k], finished) == Listed(ret)
    {
      assert plJobs[..k + 1][..k] == plJobs[..k];
      var more := ListJob(plJobs[k], finished);
      if !more.Listed? {
        JobsFailureStays(plJobs, k + 1, finished);
        return more;
      }
      ret := ret + more.reports;
      k := k + 1;
    }
    assert plJobs[..k] == plJobs;
    r := Listed(ret);
  }

  /** Once the reports of some jobs fail, the reports of all of them fail the same way. */
  lemma {:induction false} JobsFailureStays(js: seq<Job>, k: nat, finished: string -> Seen)
    requires k <= |js| && !JobsReports(js[..k], finished).Listed?
    ensures JobsReports(js, finished) == JobsReports(js[..k], finished)
    decreases |js| - k
  {
    if k < |js| {
      assert js[..k + 1][..k] == js[..k];
      JobsFailureStays(js, k + 1, finished);
    } else {
      assert js[..k] == js;
    }
  }

  // ---------------------------------------------------------------------------------------
  // Properties of the request parse and the filter

  /** A name or value as a request writes it: non-empty, no blank, no '=' and no ','. */
  predicate Word(w: string) {
    |w| > 0 && forall i :: 0 <= i < |w| ==> !Blank(w[i]) && w[i] != '=' && w[i] != ','
  }

  lemma TrimOfUnpadded(w: string)
    requires |w| > 0 && !Blank(w[0]) && !Blank(w[|w| - 1])
    ensures Trim(w) == w
  {
  }

  lemma TrimDropsTrailingSpace(w: string)
    requires Word(w)
    ensures Trim(w + " ") == w
  {
    assert (w + " ")[..|w + " "| - 1] == w;
    assert TrimEnd(w) == w;
  }

  lemma SplitWhole(w: string, c: char)
    requires c !in w
    ensures Split(w, c) == [w]
  {
    PiecesOfWord(w, {c});
  }

  lemma SplitPair(a: string, b: string, c: char)
    requires |a| > 0 && |b| > 0 && c !in a && c !in b
    ensures Split(a + [c] + b, c) == [a, b]
  {
    PiecesAppend(a, c, b, {c});
    PiecesOfWord(a, {c});
    PiecesOfWord(b, {c});
  }

  lemma SplitTrailing(a: string, c: char)
    requires |a| > 0 && c !in a
    ensures Split(a + [c], c) == [a]
  {
    assert a + [c] == a + [c] + "";
    PiecesAppend(a, c, "", {c});
    PiecesOfWord(a, {c});
    var ps := Pieces(a + [c], {c});
    assert ps == [a, ""];
    assert ps[..1] == [a];
    assert DropTrailingEmpty([a]) == [a];
  }

  /** A request made of one entry without a comma is the map of that entry alone. */
  lemma RequestOfOneEntry(entry: string, kv: (string, string))
    requires ',' !in entry && Entry(entry) == Some(kv)
    ensures RequestedVars(Some(entry)) == map[kv.0 := kv.1]
  {
    SplitWhole(entry, ',');
    EntryPutsOne(entry);
    PutsOne(kv);
  }

  lemma EntryPutsOne(entry: string)
    ensures EntryPuts([entry]) == EntryPuts([]) + (if Entry(entry).Some? then [Entry(entry).value] else [])
  {
    assert [entry][..0] == [];
  }

  lemma PutsOne(kv: (string, string))
    ensures Puts([kv]) == map[kv.0 := kv.1]
  {
    assert [kv][..0] == [];
    assert Puts([kv]) == Puts([])[kv.0 := kv.1];
  }

  /** "name", "name=" and "name=value" request name = "true", "true" and value. */
  lemma RequestOfName(name: string, value: string)
    requires Word(name) && Word(value)
    ensures RequestedVars(Some(name)) == map[name := "true"]
    ensures RequestedVars(Some(name + "=")) == map[name := "true"]
    ensures RequestedVars(Some(name + "=" + value)) == map[name := value]
  {
    RequestOfBareName(name);
    RequestOfEmptyValue(name);
    RequestOfPair(name, value);
  }

  lemma RequestOfBareName(name: string)
    requires Word(name)
    ensures RequestedVars(Some(name)) == map[name := "true"]
  {
    TrimOfUnpadded(name);
    SplitWhole(name, '=');
    RequestOfOneEntry(name, (name, "true"));
  }

  lemma RequestOfEmptyValue(name: string)
    requires Word(name)
    ensures RequestedVars(Some(name + "=")) == map[name := "true"]
  {
    TrimOfUnpadded(name);
    var bare := name + "=";
    TrimOfUnpadded(bare);
    assert bare == name + ['='];
    SplitTrailing(name, '=');
    RequestOfOneEntry(bare, (name, "true"));
  }

  lemma RequestOfPair(name: string, value: string)
    requires Word(name) && Word(value)
    ensures RequestedVars(Some(name + "=" + value)) == map[name := value]
  {
    TrimOfUnpadded(name);
    TrimOfUnpadded(value);
    var pair := name + "=" + value;
    TrimOfUnpadded(pair);
    assert pair == name + ['='] + value;
    SplitPair(name, value, '=');
    RequestOfOneEntry(pair, (name, value));
  }

  /** "name =" requests "name " (with its space) = "true": the piece split leaves is put
      without trimming. */
  lemma PaddedNameKeepsItsSpace(name: string)
    requires Word(name)
    ensures RequestedVars(Some(name + " =")) == map[name + " " := "true"]
  {
    var entry := name + " =";
    TrimOfUnpadded(entry);
    assert entry == (name + " ") + ['='];
    SplitTrailing(name + " ", '=');
    TrimDropsTrailingSpace(name);
    RequestOfOneEntry(entry, (name + " ", "true"));
  }

  /** A request "GridJobNamePrefix=p" keeps exactly the jobs whose name starts with p. */
  lemma NamePrefixRequest(prefix: string, j: Job)
    requires Word(prefix)
    ensures Keeps(RequestedVars(Some(NAME_PREFIX_KEY + "=" + prefix)), j) <==> StartsWith(j.name, prefix)
  {
    assert Word(NAME_PREFIX_KEY);
    RequestOfName(NAME_PREFIX_KEY, prefix);
  }

  /** Any request with a GridJobNamePrefix entry, whatever else it names, keeps exactly the jobs
      whose name starts with that entry's value: the resources the job requests are not
      looked at. */
  lemma NamePrefixOverrides(complexVariables: Option<string>, j: Job, other: seq<(string, string)>)
    requires NAME_PREFIX_KEY in RequestedVars(complexVariables)
    ensures Keeps(RequestedVars(complexVariables), j) <==>
            StartsWith(j.name, RequestedVars(complexVariables)[NAME_PREFIX_KEY])
    ensures Keeps(RequestedVars(complexVariables), j) ==
            Keeps(RequestedVars(complexVariables), j.(hardResources := other))
  {
  }

  /** A request with no entries keeps every job, in order. */
  lemma {:induction false} EmptyRequestKeepsAll(jobs: seq<Job>)
    ensures Kept(map[], jobs) == jobs
    decreases |jobs|
  {
    if |jobs| > 0 {
      EmptyRequestKeepsAll(jobs[..|jobs| - 1]);
      assert jobs[..|jobs| - 1] + [jobs[|jobs| - 1]] == jobs;
    }
  }

  /** The kept jobs are exactly the jobs the request keeps. */
  lemma {:induction false} KeptExactly(vars: map<string, string>, jobs: seq<Job>, j: Job)
    ensures j in Kept(vars, jobs) <==> j in jobs && Keeps(vars, j)
    decreases |jobs|
  {
    if |jobs| > 0 {
      KeptExactly(vars, jobs[..|jobs| - 1], j);
      assert jobs == jobs[..|jobs| - 1] + [jobs[|jobs| - 1]];
    }
  }

  // ---------------------------------------------------------------------------------------
  // Properties of the task-state inference

  lemma NoDotInNumber(n: int)
    ensures '.' !in IntToString(n)
  {
    var s := IntToString(n);
    if n < 0 {
      assert forall i :: 1 <= i < |s| ==> s[i] == NatToString(-n)[i - 1];
    }
    assert forall i :: 0 <= i < |s| ==> IsDigit(s[i]) || s[i] == '-';
  }

  /** A bare job number asks about task 1. */
  lemma JobNumberMeansTaskOne(n: int)
    ensures SplitJobId(IntToString(n)) == (IntToString(n), Some(1))
  {
    NoDotInNumber(n);
  }

  /** "J.T" built from two ints splits back into J and T. */
  lemma TaskIdRoundTrip(n: int, t: int)
    requires INT_MIN <= t <= INT_MAX
    ensures SplitJobId(LookupId(IntToString(n), t)) == (IntToString(n), Some(t))
  {
    var a := IntToString(n);
    var id := LookupId(a, t);
    NoDotInNumber(n);
    assert id == a + ['.'] + IntToString(t);
    IndexOfAfter(a, '.', IntToString(t));
    assert id[..|a|] == a;
    assert id[|a| + 1..] == IntToString(t);
    ParseIntegerOfIntToString(t, INT_MIN, INT_MAX);
  }

  /** getJobInfo on "J.T" built by getJobList comes to the inference for task T of job J. */
  lemma TaskIdReachesInference(j: Job, t: int, finished: string -> Seen)
    requires INT_MIN <= t <= INT_MAX
    ensures var id := LookupId(IntToString(j.number), t);
            JobInfoOf(id, Some(j), true, FetchFails, finished) ==
            TaskState(NewJobInfo(id).(complexVariables := Puts(j.hardResources)), j, t, finished(id))
  {
    TaskIdRoundTrip(j.number, t);
  }

  /** The inference: QUEUED since submission when no task is listed; RUNNING since the first
      listed task t started when t is listed; null when t is below the largest listed task;
      otherwise null when the finished lookup answers and QUEUED when it gives null. */
  lemma TaskInference(g: GridJobInfo, j: Job, t: int, seen: Seen)
    ensures var r := TaskState(g, j, t, seen);
            var tasks := TaskList(j);
            (|tasks| == 0 ==> r == Info(Some(QueuedSince(g, j)))) &&
            (forall k :: 0 <= k < |tasks| && tasks[k].number == t && (forall i :: 0 <= i < k ==> tasks[i].number != t) ==>
               r == Info(Some(g.(startTime := Some(tasks[k].startTime * 1000), state := Some(Running))))) &&
            ((forall k :: 0 <= k < |tasks| ==> tasks[k].number != t) && |tasks| > 0 ==>
               (t <= MaxTask(tasks) ==> r == Info(None)) &&
               (t > MaxTask(tasks) && seen == NonNullAnswer ==> r == Info(None)) &&
               (t > MaxTask(tasks) && seen == NullAnswer ==> r == Info(Some(QueuedSince(g, j)))))
  {
    var tasks := TaskList(j);
    forall k | 0 <= k < |tasks| && tasks[k].number == t && (forall i :: 0 <= i < k ==> tasks[i].number != t)
      ensures FirstTask(tasks, t) == k
    {
      assert FirstTask(tasks, t) != -1;
    }
  }

  /** With the local backend and a database connection every lookup answers, NOT_FOUND
      included; so a job with listed tasks is never reported QUEUED: a task above the
      largest listed one counts as finished. */
  lemma LocalBackendHidesLateTasks(db: AccountingThread.DbState, tables: AccountingThread.Tables,
                                   j: Job, t: int, finished: string -> Seen)
    requires db != AccountingThread.NoConnection && INT_MIN <= t <= INT_MAX
    requires forall id :: finished(id) == SeenOf(FromAccounting(AccountingThread.LookupOver(db, tables, id)))
    requires |TaskList(j)| > 0
    ensures var r := JobInfoOf(LookupId(IntToString(j.number), t), Some(j), true, FetchFails, finished);
            r.Info? && (r.report.Some? ==> r.report.value.state == Some(Running))
  {
    var id := LookupId(IntToString(j.number), t);
    LocalLookupAnswers(db, tables, id, finished);
    TaskIdReachesInference(j, t, finished);
    AnsweredTaskNotQueued(NewJobInfo(id).(complexVariables := Puts(j.hardResources)), j, t);
  }

  /** With a connection, the local backend answers every lookup. */
  lemma LocalLookupAnswers(db: AccountingThread.DbState, tables: AccountingThread.Tables, id: string,
                           finished: string -> Seen)
    requires db != AccountingThread.NoConnection
    requires forall id :: finished(id) == SeenOf(FromAccounting(AccountingThread.LookupOver(db, tables, id)))
    ensures finished(id) == NonNullAnswer
  {
  }

  /** A job with listed tasks whose finished lookup answers is never inferred QUEUED. */
  lemma AnsweredTaskNotQueued(g: GridJobInfo, j: Job, t: int)
    requires |TaskList(j)| > 0
    ensures var r := TaskState(g, j, t, NonNullAnswer);
            r.Info? && (r.report.Some? ==> r.report.value.state == Some(Running))
  {
  }

  // ---------------------------------------------------------------------------------------
  // getJobList never lets the task number parse escape

  /** The ints of a job fit Java's int, as JGDI hands them out. */
  predicate JavaJob(j: Job) {
    INT_MIN <= j.structure.min <= INT_MAX &&
    forall k :: 0 <= k < |TaskList(j)| ==> INT_MIN <= TaskList(j)[k].number <= INT_MAX
  }

  lemma {:induction false} CollectedNeverEscapes(gs: seq<InfoResult>, keepNull: bool)
    requires forall k :: 0 <= k < |gs| ==> !gs[k].BadTaskId?
    ensures Collected(gs, keepNull) != ListEscapes
    decreases |gs|
  {
    if |gs| > 0 {
      var front := gs[..|gs| - 1];
      assert forall k :: 0 <= k < |front| ==> front[k] == gs[k];
      CollectedNeverEscapes(front, keepNull);
    }
  }

  /** Ids whose task part parses never make getJobInfo's NumberFormatException escape. */
  lemma ReportsNeverEscape(j: Job, ids: seq<string>, finished: string -> Seen, keepNull: bool)
    requires forall k :: 0 <= k < |ids| ==> SplitJobId(ids[k]).1.Some?
    ensures Reports(j, ids, finished, keepNull) != ListEscapes
  {
    var gs := Answers(j, ids, finished);
    forall k | 0 <= k < |gs| ensures !gs[k].BadTaskId? {
      assert SplitJobId(ids[k]).1.Some?;
    }
    CollectedNeverEscapes(gs, keepNull);
  }

  lemma TaskIdsParse(num: int, ns: seq<int>)
    requires forall k :: 0 <= k < |ns| ==> INT_MIN <= ns[k] <= INT_MAX
    ensures forall k :: 0 <= k < |ns| ==> SplitJobId(TaskIds(num, ns)[k]).1.Some?
  {
    forall k | 0 <= k < |ns| ensures SplitJobId(TaskIds(num, ns)[k]).1.Some? {
      TaskIdRoundTrip(num, ns[k]);
    }
  }

  lemma JobReportsNeverEscape(j: Job, finished: string -> Seen)
    requires JavaJob(j)
    ensures JobReports(j, finished) != ListEscapes
  {
    if j.tasks.Some? {
      if |j.tasks.value| == 0 {
        var c := Counter(j.structure.min, j.structure.max, j.structure.step);
        CounterInRange(j.structure.min, j.structure.max, j.structure.step);
        assert forall k :: 0 <= k < |c.0| ==> INT_MIN <= c.0[k] <= INT_MAX;
        TaskIdsParse(j.number, c.0);
        ReportsNeverEscape(j, TaskIds(j.number, c.0), finished, true);
      } else {
        assert TaskList(j) == j.tasks.value;
        TaskIdsParse(j.number, TaskNumbers(j.tasks.value));
        ReportsNeverEscape(j, TaskIds(j.number, TaskNumbers(j.tasks.value)), finished, false);
      }
    }
  }

  lemma {:induction false} JobsReportsNeverEscape(js: seq<Job>, finished: string -> Seen)
    requires forall k :: 0 <= k < |js| ==> JavaJob(js[k])
    ensures JobsReports(js, finished) != ListEscapes
    decreases |js|
  {
    if |js| > 0 {
      var front := js[..|js| - 1];
      assert forall k :: 0 <= k < |front| ==> front[k] == js[k];
      JobsReportsNeverEscape(front, finished);
      JobReportsNeverEscape(js[|js| - 1], finished);
    }
  }

  /** The ids getJobList builds always parse back, so the NumberFormatException that
      getJobInfo lets through never escapes from getJobList. */
  lemma JobListNeverEscapes(session: bool, complexVariables: Option<string>, jobs: Option<seq<Job>>,
                            finished: string -> Seen)
    requires jobs.Some? ==> forall k :: 0 <= k < |jobs.value| ==> JavaJob(jobs.value[k])
    ensures JobListOf(session, complexVariables, jobs, finished) != ListEscapes
  {
    if session && jobs.Some? {
      var kept := Kept(RequestedVars(complexVariables), jobs.value);
      forall k | 0 <= k < |kept| ensures JavaJob(kept[k]) {
        var i :| 0 <= i < |jobs.value| && jobs.value[i] == kept[k];
      }
      JobsReportsNeverEscape(kept, finished);
    }
  }

  // ---------------------------------------------------------------------------------------
  // Properties of killJob

  /** With a user name, killJob runs "sudo -u <user> qdel [-f] <id>" as these tokens. */
  lemma KillCommandTokens(jobId: string, username: string, force: bool)
    requires IsWord(jobId, Whitespace) && IsWord(username, Whitespace)
    ensures Tokens(KillCommand(jobId, username, force), Whitespace) ==
            ["sudo", "-u", username, "qdel"] + (if force then ["-f"] else []) + [jobId]
  {
    KillWords();
    var tail := (if force then "-f " else "") + jobId;
    var tailTokens := (if force then ["-f"] else []) + [jobId];
    assert Tokens(tail, Whitespace) == tailTokens by {
      TokensOfWord(jobId, Whitespace);
      if force {
        assert tail == "-f" + " " + jobId;
        WordThenSpace("-f", jobId);
      } else {
        assert tail == jobId;
      }
    }
    assert KillCommand(jobId, username, force) == "sudo" + " " + ("-u" + " " + (username + " " + ("qdel" + " " + tail)));
    FourWordsThen("sudo", "-u", username, "qdel", tail);
  }

  /** The fixed words of the kill command hold no whitespace. */
  lemma KillWords()
    ensures IsWord("sudo", Whitespace) && IsWord("-u", Whitespace) && IsWord("qdel", Whitespace) && IsWord("-f", Whitespace)
  {
  }

  /** Four words, each followed by a space, are the first four tokens. */
  lemma FourWordsThen(a: string, b: string, c: string, d: string, rest: string)
    requires IsWord(a, Whitespace) && IsWord(b, Whitespace) && IsWord(c, Whitespace) && IsWord(d, Whitespace)
    ensures Tokens(a + " " + (b + " " + (c + " " + (d + " " + rest))), Whitespace) == [a, b, c, d] + Tokens(rest, Whitespace)
  {
    WordThenSpace(d, rest);
    WordThenSpace(c, d + " " + rest);
    WordThenSpace(b, c + " " + (d + " " + rest));
    WordThenSpace(a, b + " " + (c + " " + (d + " " + rest)));
  }
}
