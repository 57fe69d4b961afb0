/**
 * The optional external accounting backend (ARCo): a pool of five SQL connections guarded by
 * a counting semaphore, and the finished-job query run over one of them. Connections are
 * identified by number; whether `getConnection`, `isClosed` or a query succeed is an input.
 */
module ArcoDatabases {
  import opened Optional
  import opened JavaText
  import opened GridTypes

  const NUM_CONNECTIONS: nat := 5

  /** A connection, by identity. */
  type Conn = nat

  /** What `isClosed()` does for a returned connection: answers false, answers true (and then
      whether opening a replacement succeeds), or throws SQLException. */
  datatype Probe = IsOpen | IsClosed(reopens: bool) | ProbeFails

  /** acquireConnection: a connection; NoSuchElementException from an empty list after the
      permit was taken; or the thread waits on a semaphore without permits. */
  datatype Acquired = Got(conn: Conn) | EmptyPool | Blocked

  const QUERY_HEAD: string :=
    "SELECT ju_end_time, ju_exit_status, ju_start_time FROM sge_job, sge_job_usage WHERE j_id=ju_parent AND j_job_number="
  const QUERY_TASK: string := " AND j_task_number="
  const QUERY_TAIL: string := " ORDER BY ju_end_time DESC"

  /** The query for a job id: in array-job mode an id with a '.' is split at its first '.'
      into job and task number; otherwise the id goes in verbatim. */
  function BuildQuery(jobId: string, useArrayJobs: bool): string {
    if useArrayJobs && '.' in jobId then
      var dot := IndexOf(jobId, '.');
      QUERY_HEAD + jobId[..dot] + QUERY_TASK + jobId[dot + 1..] + QUERY_TAIL
    else QUERY_HEAD + jobId + QUERY_TAIL
  }

  /** In array-job mode splitting happens at the first '.': a job part without '.' and any
      task part. */
  lemma QueryOfTaskId(job: string, task: string)
    requires '.' !in job
    ensures BuildQuery(job + "." + task, true) == QUERY_HEAD + job + QUERY_TASK + task + QUERY_TAIL
  {
    var id := job + "." + task;
    assert id == job + ['.'] + task;
    IndexOfAfter(job, '.', task);
    assert id[..|job|] == job;
    assert id[|job| + 1..] == task;
  }

  /** Outside array-job mode, or for an id without '.', the id is used as it is. */
  lemma QueryOfPlainId(jobId: string, useArrayJobs: bool)
    requires !useArrayJobs || '.' !in jobId
    ensures BuildQuery(jobId, useArrayJobs) == QUERY_HEAD + jobId + QUERY_TAIL
  {
  }

  // ---------------------------------------------------------------------------------------
  // The row scan

  /** One result row; a timestamp column may be SQL NULL. */
  datatype DbRow = DbRow(endTime: Option<int>, exitStatus: int, startTime: Option<int>)

  predicate NonNull(row: DbRow) {
    row.endTime.Some? && row.startTime.Some?
  }

  /** A row that records a real run: both timestamps present and positive. */
  predicate Complete(row: DbRow) {
    NonNull(row) && row.endTime.value > 0 && row.startTime.value > 0
  }

  /** How the scan of the result rows ends: no rows at all; a NULL timestamp reached first
      (NullPointerException); a complete row reached first; or rows but none complete. */
  datatype ScanResult = NoRows | NullTimestamp | FirstComplete(row: DbRow) | NoneComplete

  function ScanFrom(rows: seq<DbRow>): ScanResult
    decreases |rows|
  {
    if |rows| == 0 then NoneComplete
    else if !NonNull(rows[0]) then NullTimestamp
    else if Complete(rows[0]) then FirstComplete(rows[0])
    else ScanFrom(rows[1..])
  }

  function Scan(rows: seq<DbRow>): ScanResult {
    if |rows| == 0 then NoRows else ScanFrom(rows)
  }

  /** The rows before position i all have both timestamps and are not complete. */
  predicate Passed(rows: seq<DbRow>, i: int)
    requires 0 <= i <= |rows|
  {
    forall j :: 0 <= j < i ==> NonNull(rows[j]) && !Complete(rows[j])
  }

  /** The scan finds row r exactly when r is the first complete row and no NULL timestamp
      comes before it. */
  lemma {:induction false} ScanFindsFirstComplete(rows: seq<DbRow>, r: DbRow)
    ensures ScanFrom(rows) == FirstComplete(r) <==>
            exists i :: 0 <= i < |rows| && rows[i] == r && Complete(r) && Passed(rows, i)
    decreases |rows|
  {
    if |rows| > 0 {
      ScanFindsFirstComplete(rows[1..], r);
      if ScanFrom(rows) == FirstComplete(r) {
        if !Complete(rows[0]) {
          var i :| 0 <= i < |rows[1..]| && rows[1..][i] == r && Complete(r) && Passed(rows[1..], i);
          assert rows[i + 1] == r;
          assert Passed(rows, i + 1) by {
            forall j | 0 <= j < i + 1 ensures NonNull(rows[j]) && !Complete(rows[j]) {
              if j > 0 {
                assert rows[j] == rows[1..][j - 1];
              }
            }
          }
        } else {
          assert Passed(rows, 0);
        }
      }
      if exists i :: 0 <= i < |rows| && rows[i] == r && Complete(r) && Passed(rows, i) {
        var i :| 0 <= i < |rows| && rows[i] == r && Complete(r) && Passed(rows, i);
        if i > 0 {
          assert NonNull(rows[0]) && !Complete(rows[0]);
          assert rows[1..][i - 1] == r;
          assert Passed(rows[1..], i - 1) by {
            forall j | 0 <= j < i - 1 ensures NonNull(rows[1..][j]) && !Complete(rows[1..][j]) {
              assert rows[1..][j] == rows[j + 1];
            }
          }
        }
      }
    }
  }

  /** The scan ends on a NULL timestamp exactly when one is reached before any complete row. */
  lemma {:induction false} ScanHitsNull(rows: seq<DbRow>)
    ensures ScanFrom(rows) == NullTimestamp <==>
            exists i :: 0 <= i < |rows| && !NonNull(rows[i]) && Passed(rows, i)
    decreases |rows|
  {
    if |rows| > 0 {
      ScanHitsNull(rows[1..]);
      if ScanFrom(rows) == NullTimestamp && NonNull(rows[0]) {
        var i :| 0 <= i < |rows[1..]| && !NonNull(rows[1..][i]) && Passed(rows[1..], i);
        assert rows[i + 1] == rows[1..][i];
        assert Passed(rows, i + 1) by {
          forall j | 0 <= j < i + 1 ensures NonNull(rows[j]) && !Complete(rows[j]) {
            if j > 0 {
              assert rows[j] == rows[1..][j - 1];
            }
          }
        }
      }
      if exists i :: 0 <= i < |rows| && !NonNull(rows[i]) && Passed(rows, i) {
        var i :| 0 <= i < |rows| && !NonNull(rows[i]) && Passed(rows, i);
        if i > 0 {
          assert rows[1..][i - 1] == rows[i];
          assert Passed(rows[1..], i - 1) by {
            forall j | 0 <= j < i - 1 ensures NonNull(rows[1..][j]) && !Complete(rows[1..][j]) {
              assert rows[1..][j] == rows[j + 1];
            }
          }
        }
      }
    }
  }

  /** The rs.next() loop of getFinishedJobInfo. */
  method ScanRows(rows: seq<DbRow>) returns (s: ScanResult)
    ensures s == Scan(rows)
  {
    if |rows| == 0 {
      return NoRows;
    }
    var i := 0;
    while i < |rows|
      invariant 0 <= i <= |rows|
      invariant ScanFrom(rows[i..]) == ScanFrom(rows)
    {
      assert rows[i..][1..] == rows[i + 1..];
      var row := rows[i];
      if row.endTime.None? || row.startTime.None? {
        return NullTimestamp;
      }
      if row.endTime.value > 0 && row.startTime.value > 0 {
        return FirstComplete(row);
      }
      i := i + 1;
    }
    s := NoneComplete;
  }

  /** A report with only the job id set. */
  function BlankInfo(jobId: string): FinishedJobInfo {
    FinishedJobInfo(jobId, None, None, None)
  }

  /** The answer a scan leads to: null for no rows, the first complete row's values, and the
      blank report otherwise. */
  function ScanAnswer(jobId: string, s: ScanResult): (r: Option<FinishedJobInfo>)
    ensures r.None? <==> s == NoRows
    ensures r.Some? ==> r.value.jobId == jobId
    ensures s.FirstComplete? ==>
              r == Some(FinishedJobInfo(jobId, Some(s.row.exitStatus), s.row.startTime, s.row.endTime))
    ensures s == NullTimestamp || s == NoneComplete ==> r == Some(BlankInfo(jobId))
  {
    match s
    case NoRows => None
    case FirstComplete(row) => Some(FinishedJobInfo(jobId, Some(row.exitStatus), row.startTime, row.endTime))
    case _ => Some(BlankInfo(jobId))
  }

  /** The answer of getFinishedJobInfo: the lookup result, the calling thread waiting forever
      on the semaphore, or an exception escaping from the finally block. */
  datatype Answer = Answer(info: Option<FinishedJobInfo>) | Waits | Threw(message: string)

  function Lookup(m: map<string, string>, key: string): Option<string> {
    if key in m then Some(m[key]) else None
  }

  /** The first n connection numbers. */
  function Numbers(n: nat): (r: seq<Conn>)
    ensures |r| == n && forall i :: 0 <= i < n ==> r[i] == i
  {
    seq(n, i requires 0 <= i < n => i)
  }

  function Elements(s: seq<Conn>): set<Conn> {
    set c | c in s
  }

  function Min(a: nat, b: nat): nat {
    if a < b then a else b
  }

  class ArcoDatabase {
    const url: Option<string>
    const useArrayJobs: bool
    const initialized: bool
    var available: seq<Conn>
    var all: set<Conn>
    var permits: int
    var nextId: nat

    /** Connection numbers handed out so far are below nextId. */
    predicate Valid()
      reads this
    {
      (forall c :: c in all ==> c < nextId) &&
      (forall i :: 0 <= i < |available| ==> available[i] < nextId)
    }

    /** The pool as the code means it to be: one permit per available connection, no
        connection listed twice, and every available connection one of ours. */
    predicate Balanced()
      reads this
    {
      Valid() && permits == |available| &&
      (forall i, j :: 0 <= i < j < |available| ==> available[i] != available[j]) &&
      (forall i :: 0 <= i < |available| ==> available[i] in all)
    }

    /** The constructor: with a non-empty URL it opens connections until five are open or
        one fails (`opens` is how many succeed); it is initialized only with all five. The
        array-job mode is the boolean preference GridUseArrayJobs. */
    constructor(preferences: map<string, string>, opens: nat)
      ensures url == Lookup(preferences, "GridJobAccountingURL")
      ensures useArrayJobs == ParseBoolean(Lookup(preferences, "GridUseArrayJobs"))
      ensures var n := if url.Some? && |url.value| > 0 then Min(opens, NUM_CONNECTIONS) else 0;
              available == Numbers(n) && all == Elements(Numbers(n)) && nextId == n
      ensures initialized <==> url.Some? && |url.value| > 0 && opens >= NUM_CONNECTIONS
      ensures permits == NUM_CONNECTIONS
      ensures Valid()
      ensures initialized ==> Balanced()
    {
      url := Lookup(preferences, "GridJobAccountingURL");
      useArrayJobs := ParseBoolean(Lookup(preferences, "GridUseArrayJobs"));
      var u := Lookup(preferences, "GridJobAccountingURL");
      var n := 0;
      var ok := false;
      if u.Some? && |u.value| > 0 {
        while n < NUM_CONNECTIONS && n < opens
          invariant n <= NUM_CONNECTIONS && n <= opens
        {
          n := n + 1;
        }
        ok := n == NUM_CONNECTIONS;
      }
      initialized := ok;
      available := Numbers(n);
      all := Elements(Numbers(n));
      nextId := n;
      permits := NUM_CONNECTIONS;
    }

    /** shutdown: closes and forgets every connection. */
    method Shutdown()
      modifies this`all, this`available
      ensures all == {} && available == []
    {
      all := {};
      available := [];
    }

    method AcquireConnection() returns (a: Acquired)
      modifies this`permits, this`available
      ensures old(permits) <= 0 ==> a == Blocked && permits == old(permits) && available == old(available)
      ensures old(permits) > 0 ==> permits == old(permits) - 1
      ensures old(permits) > 0 && old(available) == [] ==> a == EmptyPool && available == []
      ensures old(permits) > 0 && old(available) != [] ==>
                a == Got(old(available)[0]) && available == old(available)[1..]
    {
      if permits <= 0 {
        return Blocked;
      }
      permits := permits - 1;
      if available == [] {
        return EmptyPool;
      }
      a := Got(available[0]);
      available := available[1..];
    }

    /** reconnectConnection: refuses a connection that is not ours; otherwise replaces it by a
        new one (retrying until one opens), makes the new one available and returns a permit. */
    method ReconnectConnection(c: Conn) returns (error: Option<string>)
      modifies this`all, this`available, this`permits, this`nextId
      ensures c !in old(all) ==>
                error == Some("You must reconnect the connection given to you") &&
                all == old(all) && available == old(available) && permits == old(permits) && nextId == old(nextId)
      ensures c in old(all) ==>
                error.None? && nextId == old(nextId) + 1 &&
                all == old(all) - {c} + {old(nextId)} &&
                available == old(available) + [old(nextId)] &&
                permits == old(permits) + 1
      ensures old(Valid()) ==> Valid()
    {
      if c !in all {
        return Some("You must reconnect the connection given to you");
      }
      var replacement := nextId;
      nextId := nextId + 1;
      all := all - {c} + {replacement};
      available := available + [replacement];
      permits := permits + 1;
      error := None;
    }

    /** releaseConnection: refuses a connection that is not ours. An open connection goes back
        to the list. A closed one is replaced by a new one; when the new one fails to open the
        method returns without putting anything back and without returning the permit. When
        the check itself fails the connection is reconnected and then also put back, so two
        permits are returned. */
    method ReleaseConnection(c: Conn, probe: Probe) returns (error: Option<string>)
      modifies this`all, this`available, this`permits, this`nextId
      ensures c !in old(all) ==>
                error == Some("You must release the connection given to you") &&
                all == old(all) && available == old(available) && permits == old(permits) && nextId == old(nextId)
      ensures c in old(all) ==> error.None?
      ensures c in old(all) && probe == IsOpen ==>
                all == old(all) && available == old(available) + [c] && permits == old(permits) + 1 &&
                nextId == old(nextId)
      ensures c in old(all) && probe == IsClosed(true) ==>
                all == old(all) - {c} + {old(nextId)} && available == old(available) + [old(nextId)] &&
                permits == old(permits) + 1 && nextId == old(nextId) + 1
      ensures c in old(all) && probe == IsClosed(false) ==>
                all == old(all) - {c} && available == old(available) && permits == old(permits) &&
                nextId == old(nextId)
      ensures c in old(all) && probe == ProbeFails ==>
                all == old(all) - {c} + {old(nextId)} && available == old(available) + [old(nextId), c] &&
                permits == old(permits) + 2 && nextId == old(nextId) + 1
      ensures old(Valid()) ==> Valid()
    {
      if c !in all {
        return Some("You must release the connection given to you");
      }
      var back := c;
      match probe {
        case IsOpen =>
        case IsClosed(reopens) =>
          all := all - {c};
          if !reopens {
            return None;
          }
          back := nextId;
          nextId := nextId + 1;
          all := all + {back};
        case ProbeFails =>
          var ignored := ReconnectConnection(c);
      }
      available := available + [back];
      permits := permits + 1;
      error := None;
    }

    /** getFinishedJobInfo. `failedQueries` is how many times in a row the query throws (each
        failure reconnects the connection and starts over with a newly acquired one), `rows`
        are the rows the successful query returns, and `probe` is what the connection check
        does when the finally block releases the connection last acquired. */
    method GetFinishedJobInfo(jobId: string, failedQueries: nat, rows: seq<DbRow>, probe: Probe)
      returns (ans: Answer)
      modifies this`all, this`available, this`permits, this`nextId
      ensures !initialized ==> ans == Answer(None) && unchanged(this)
      ensures initialized && old(Balanced()) && old(permits) > 0 ==>
                ans == Answer(ScanAnswer(jobId, Scan(rows)))
      ensures initialized && old(Balanced()) && old(permits) > 0 && probe == IsOpen ==>
                Balanced() && |available| == old(|available|)
      ensures old(Valid()) ==> Valid()
    {
      if !initialized {
        return Answer(None);
      }
      ghost var balanced := Balanced() && permits > 0;
      var waits, connection, scanned := RunQuery(failedQueries, rows);
      if waits {
        return Waits;
      }
      if connection.Some? {
        ghost var before := available;
        var error := ReleaseConnection(connection.value, probe);
        if error.Some? {
          return Threw(error.value);
        }
        if balanced && probe == IsOpen {
          ReturnedBalances(before, connection.value);
        }
      }
      ans := if scanned.Some? then Answer(ScanAnswer(jobId, scanned.value)) else Answer(Some(BlankInfo(jobId)));
    }

    /** The pool while `c` is checked out: balanced, with `c` ours and not in the list. */
    predicate CheckedOut(c: Conn)
      reads this
    {
      Valid() && permits == |available| &&
      (forall i, j :: 0 <= i < j < |available| ==> available[i] != available[j]) &&
      (forall i :: 0 <= i < |available| ==> available[i] in all) &&
      c in all && c !in available
    }

    /** Putting the checked-out connection back with its permit balances the pool again. */
    lemma ReturnedBalances(before: seq<Conn>, c: Conn)
      requires c in all && available == before + [c] && permits == |available| && Valid()
      requires forall i, j :: 0 <= i < j < |before| ==> before[i] != before[j]
      requires forall i :: 0 <= i < |before| ==> before[i] in all
      requires c !in before
      ensures Balanced()
    {
      forall i, j | 0 <= i < j < |available| ensures available[i] != available[j] {
        if j == |before| {
          assert available[i] == before[i];
        }
      }
      forall i | 0 <= i < |available| ensures available[i] in all {
        if i < |before| {
          assert available[i] == before[i];
        }
      }
    }

    /** The retry loop of getFinishedJobInfo: acquire a connection and run the query; a
        failing query reconnects the connection and starts over. `waits` is the thread
        blocking on the semaphore; `connection` is the connection last acquired, which the
        finally block releases. From a balanced pool with a free permit the query runs, on a
        connection checked out of the pool. */
    method RunQuery(failedQueries: nat, rows: seq<DbRow>)
      returns (waits: bool, connection: Option<Conn>, scanned: Option<ScanResult>)
      modifies this`all, this`available, this`permits, this`nextId
      ensures old(Valid()) ==> Valid()
      ensures old(Balanced()) && old(permits) > 0 ==>
                !waits && connection.Some? && CheckedOut(connection.value) &&
                |available| == old(|available|) - 1 && scanned == Some(Scan(rows))
    {
      ghost var balanced := Balanced() && permits > 0;
      ghost var size := |available|;
      waits := false;
      connection := None;
      scanned := None;
      var failures := 0;
      while true
        invariant old(Valid()) ==> Valid()
        invariant balanced ==> Balanced() && |available| == size && size > 0 && scanned.None?
        invariant failures <= failedQueries
        decreases failedQueries - failures
      {
        var a := AcquireConnection();
        if a.Blocked? {
          return true, connection, scanned;
        }
        if a.EmptyPool? {
          break;
        }
        connection := Some(a.conn);
        if failures < failedQueries {
          ghost var tail := available;
          var error := ReconnectConnection(a.conn);
          failures := failures + 1;
          if error.Some? {
            break;
          }
          if balanced {
            assert available == tail + [nextId - 1];
            forall i | 0 <= i < |available| ensures available[i] in all {
              if i < |tail| {
                assert available[i] == tail[i];
                assert tail[i] != a.conn;
              }
            }
          }
        } else {
          var s := ScanRows(rows);
          scanned := Some(s);
          break;
        }
      }
    }
  }
}
