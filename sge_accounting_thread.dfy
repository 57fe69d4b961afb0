/**
 * The accounting synchronizer: it tails the scheduler's accounting file and keeps a local
 * database of recently finished jobs. The FINISHED_JOBS table is a map from job-id string to
 * a row (plus the rows whose JOB_ID is SQL NULL), the PARAMETERS table is the sync cursor.
 * The file is given as snapshots: its length when a pass starts and, for each turn of the
 * read loop, what readLine returned together with the clock, existence and length seen then.
 */
module AccountingThread {
  import opened Optional
  import opened JavaText
  import opened GridTypes
  import opened FinishedJobRecords

  const DEFAULT_CUTOFF_MS: int := 1000 * 60 * 60 * 24   // 24 hours
  const SYNC_MARGIN_MS: int := 1000 * 60 * 5            // 5 minutes
  const CLEANUP_INTERVAL_MS: int := 1000 * 60 * 30      // 30 minutes

  /** One FINISHED_JOBS row without its JOB_ID. */
  datatype Row = Row(startTime: int, endTime: int, exitStatus: int)

  /** The database: FINISHED_JOBS keyed by JOB_ID, the rows whose JOB_ID is NULL, and the single
      PARAMETERS row (last sync time, last sync file size). */
  datatype Tables = Tables(
    finished: map<string, Row>,
    unkeyed: seq<Row>,
    lastSyncTime: int,
    lastSyncFileSize: int)

  /** A freshly created database: no rows and the cursor row (0, 0). */
  const FreshTables: Tables := Tables(map[], [], 0, 0)

  // ---------------------------------------------------------------------------------------
  // persist

  /** The JOB_ID persist looks up: the job number (the text "null" when it is missing), plus
      "." and the task number when the task number is positive. */
  function SelectKey(r: FinishedJobRecord): string {
    JavaStr(r.jobNumber) + (if r.taskNumber > 0 then "." + IntToString(r.taskNumber) else "")
  }

  /** The JOB_ID persist inserts: the same text, except SQL NULL when the job number is missing
      and no task suffix is added. */
  function InsertKey(r: FinishedJobRecord): (k: Option<string>)
    ensures k.Some? ==> k.value == SelectKey(r)
    ensures k.None? <==> r.jobNumber.None? && r.taskNumber <= 0
  {
    if r.jobNumber.None? && r.taskNumber <= 0 then None else Some(SelectKey(r))
  }

  function LeadingDigits(s: string): (n: nat)
    ensures n <= |s| && AllDigits(s[..n]) && (n < |s| ==> !IsDigit(s[n]))
    decreases |s|
  {
    if |s| > 0 && IsDigit(s[0]) then
      var k := LeadingDigits(s[1..]);
      assert s[..k + 1] == [s[0]] + s[1..][..k];
      k + 1
    else 0
  }

  predicate IsExponent(e: string) {
    |e| >= 2 && (e[0] == 'e' || e[0] == 'E') &&
    var f := if e[1] == '+' || e[1] == '-' then e[2..] else e[1..];
    |f| > 0 && AllDigits(f)
  }

  /** Digits with at most one '.', at least one digit, an optional exponent and an optional
      type suffix. */
  predicate IsDecimalFloat(u: string) {
    var v := if |u| > 0 && u[|u| - 1] in {'f', 'F', 'd', 'D'} then u[..|u| - 1] else u;
    var a := LeadingDigits(v);
    var rest := v[a..];
    var dotted := |rest| > 0 && rest[0] == '.';
    var b := if dotted then LeadingDigits(rest[1..]) else 0;
    var tail := if dotted then rest[1 + b..] else rest;
    a + b > 0 && (tail == [] || IsExponent(tail))
  }

  /** Double.parseDouble succeeds: a non-null string that is, once trimmed and stripped of one
      sign, "NaN", "Infinity" or a decimal floating-point literal. */
  predicate JavaDoubleParses(s: Option<string>) {
    s.Some? &&
    var t := Trim(s.value);
    var u := if |t| > 0 && (t[0] == '+' || t[0] == '-') then t[1..] else t;
    u == "NaN" || u == "Infinity" || IsDecimalFloat(u)
  }

  /** The insert statement runs to completion: when the start and end times are equal the CPU
      time is parsed first, and a parse failure aborts the insert. */
  predicate InsertRuns(r: FinishedJobRecord) {
    r.startTime != r.endTime || JavaDoubleParses(r.ruUtime)
  }

  /** persist with a live connection: nothing when a row with the record's id exists or the
      insert aborts; otherwise one new row holding the record's own start, end and exit status
      (the CPU-adjusted end time is computed and dropped). */
  function Persisted(t: Tables, r: FinishedJobRecord): (t': Tables)
    ensures t'.lastSyncTime == t.lastSyncTime && t'.lastSyncFileSize == t.lastSyncFileSize
    ensures SelectKey(r) in t.finished || !InsertRuns(r) ==> t' == t
    ensures SelectKey(r) !in t.finished && InsertRuns(r) && InsertKey(r).Some? ==>
              t'.finished == t.finished[SelectKey(r) := Row(r.startTime, r.endTime, r.exitStatus)] &&
              t'.unkeyed == t.unkeyed
    ensures SelectKey(r) !in t.finished && InsertRuns(r) && InsertKey(r).None? ==>
              t'.finished == t.finished &&
              t'.unkeyed == t.unkeyed + [Row(r.startTime, r.endTime, r.exitStatus)]
  {
    if SelectKey(r) in t.finished || !InsertRuns(r) then t
    else
      var row := Row(r.startTime, r.endTime, r.exitStatus);
      match InsertKey(r)
      case Some(k) => t.(finished := t.finished[k := row])
      case None => t.(unkeyed := t.unkeyed + [row])
  }

  /** Persisting the same record twice leaves the table as persisting it once, for every record
      that has a job number or a positive task number. */
  lemma PersistIdempotent(t: Tables, r: FinishedJobRecord)
    requires r.jobNumber.Some? || r.taskNumber > 0
    ensures Persisted(Persisted(t, r), r) == Persisted(t, r)
  {
  }

  /** A record without a job number and task 0 is stored under a NULL id that its own lookup
      key ("null") never matches, so persisting it twice stores it twice. */
  lemma PersistNullIdTwice(t: Tables)
    requires "null" !in t.finished
    ensures var r := FinishedJobRecord(None, None, 1000, 2000, 0, None, None, 0);
            |Persisted(Persisted(t, r), r).unkeyed| == |t.unkeyed| + 2
  {
    var r := FinishedJobRecord(None, None, 1000, 2000, 0, None, None, 0);
    assert SelectKey(r) == "null";
    assert "null" !in Persisted(t, r).finished;
  }

  /** A record whose start and end are equal and whose CPU time does not parse is never stored. */
  lemma UnparsableCpuTimeSkipsInsert(t: Tables, r: FinishedJobRecord)
    requires r.startTime == r.endTime && r.ruUtime.None?
    ensures Persisted(t, r) == t
  {
  }

  // ---------------------------------------------------------------------------------------
  // cleanup

  function KeepRows(rows: seq<Row>, cutoff: int): (r: seq<Row>)
    ensures |r| <= |rows|
    ensures forall i :: 0 <= i < |r| ==> r[i].endTime >= cutoff
    ensures forall i :: 0 <= i < |rows| && rows[i].endTime >= cutoff ==> rows[i] in r
    ensures forall x :: x in r ==> x in rows
  {
    if |rows| == 0 then []
    else if rows[0].endTime < cutoff then KeepRows(rows[1..], cutoff)
    else [rows[0]] + KeepRows(rows[1..], cutoff)
  }

  /** DELETE FROM FINISHED_JOBS WHERE END_TIME < cutoff. */
  function CleanedUp(t: Tables, cutoff: int): (t': Tables)
    ensures forall k :: k in t'.finished <==> k in t.finished && t.finished[k].endTime >= cutoff
    ensures forall k :: k in t'.finished ==> t'.finished[k] == t.finished[k]
    ensures t'.unkeyed == KeepRows(t.unkeyed, cutoff)
    ensures t'.lastSyncTime == t.lastSyncTime && t'.lastSyncFileSize == t.lastSyncFileSize
  {
    t.(finished := map k | k in t.finished && t.finished[k].endTime >= cutoff :: t.finished[k],
       unkeyed := KeepRows(t.unkeyed, cutoff))
  }

  /** The number of rows the delete statement removes. */
  function DeletedCount(t: Tables, cutoff: int): nat {
    |set k | k in t.finished && t.finished[k].endTime < cutoff| +
    (|t.unkeyed| - |KeepRows(t.unkeyed, cutoff)|)
  }

  /** Cleanup is handed the window length, not "now minus the window": with the default window
      every row whose end time is at least one day after the epoch survives a sweep, however
      old it is. */
  lemma CleanupKeepsOldRows(t: Tables, k: string, now: int)
    requires k in t.finished && t.finished[k].endTime >= DEFAULT_CUTOFF_MS
    ensures k in CleanedUp(t, CutOff(now, 0)).finished
  {
  }

  /** A sweep is idempotent. */
  lemma CleanupIdempotent(t: Tables, cutoff: int)
    ensures CleanedUp(CleanedUp(t, cutoff), cutoff).finished == CleanedUp(t, cutoff).finished
  {
  }

  // ---------------------------------------------------------------------------------------
  // getFinishedJobInfo

  /** What the local lookup answers: null only without a database connection; otherwise a
      report in state NOT_FOUND when no row has that id, and a FINISHED report with the stored
      start, end and exit status when one does. */
  function LocalFinishedJobInfo(connected: bool, t: Tables, jobId: string): (r: Option<GridJobInfo>)
    ensures r.None? <==> !connected
    ensures r.Some? ==> r.value.jobId == jobId
    ensures r.Some? && jobId !in t.finished ==>
              r.value.state == Some(NotFound) &&
              r.value.startTime.None? && r.value.finishTime.None? && r.value.exitStatus.None?
    ensures r.Some? && jobId in t.finished ==>
              r.value.state == Some(Finished) &&
              r.value.startTime == Some(t.finished[jobId].startTime) &&
              r.value.finishTime == Some(t.finished[jobId].endTime) &&
              r.value.exitStatus == Some(t.finished[jobId].exitStatus)
  {
    if !connected then None
    else if jobId in t.finished then
      var row := t.finished[jobId];
      Some(NewJobInfo(jobId).(state := Some(Finished), startTime := Some(row.startTime),
                              finishTime := Some(row.endTime), exitStatus := Some(row.exitStatus)))
    else Some(NewJobInfo(jobId).(state := Some(NotFound)))
  }

  /** A stored record is found again under its id, with its own times and exit status. */
  lemma PersistThenLookup(t: Tables, r: FinishedJobRecord)
    requires SelectKey(r) !in t.finished && InsertRuns(r) && r.jobNumber.Some?
    ensures var info := LocalFinishedJobInfo(true, Persisted(t, r), SelectKey(r));
            info.Some? && info.value.state == Some(Finished) &&
            info.value.startTime == Some(r.startTime) && info.value.finishTime == Some(r.endTime) &&
            info.value.exitStatus == Some(r.exitStatus)
  {
  }

  // ---------------------------------------------------------------------------------------
  // getDuration

  /** The unit as printed after `n`: the unit itself exactly when `n` is 1, else its plural. */
  function UnitWord(n: int, unit: string): (r: string)
    ensures |r| >= |unit| && r[..|unit|] == unit
    ensures r == unit <==> n == 1
  {
    if n == 1 then unit else unit + "s"
  }

  /** "<n> <unit>" with the unit singular exactly when n is 1. */
  function Quantity(n: nat, unit: string): string {
    NatToString(n) + " " + UnitWord(n, unit)
  }

  /** "<n> <unit>, " when n is non-zero, nothing otherwise. */
  function Leading(n: nat, unit: string): string {
    if n != 0 then Quantity(n, unit) + ", " else ""
  }

  /** Whole seconds of a duration in milliseconds, negative durations counting as 0. */
  function TotalSeconds(duration: int): nat {
    if duration < 0 then 0 else duration / 1000
  }

  /** Weeks, days of the week, hours of the day, minutes of the hour and seconds of the minute. */
  function Components(s: nat): (c: (nat, nat, nat, nat, nat)) {
    (s / 604800, (s / 86400) % 7, (s / 3600) % 24, (s / 60) % 60, s % 60)
  }

  /** getDuration: weeks, days, hours and minutes when non-zero, then always the seconds. */
  function DurationText(duration: int): (r: string)
    ensures EndsWith(r, " second") || EndsWith(r, " seconds")
  {
    var c := Components(TotalSeconds(duration));
    var unit := " " + UnitWord(c.4, "second");
    var q := Quantity(c.4, "second");
    assert unit == " second" || unit == " seconds";
    assert q == NatToString(c.4) + unit;
    EndsWithConcat(NatToString(c.4), unit);
    var lm := Leading(c.3, "minute") + q;
    EndsWithExtend(Leading(c.3, "minute"), q, unit);
    var lh := Leading(c.2, "hour") + lm;
    EndsWithExtend(Leading(c.2, "hour"), lm, unit);
    var ld := Leading(c.1, "day") + lh;
    EndsWithExtend(Leading(c.1, "day"), lh, unit);
    EndsWithExtend(Leading(c.0, "week"), ld, unit);
    Leading(c.0, "week") + ld
  }

  /** Seconds per unit word of the duration text. */
  function UnitSeconds(word: string): int {
    if word == "week" || word == "weeks" then 604800
    else if word == "day" || word == "days" then 86400
    else if word == "hour" || word == "hours" then 3600
    else if word == "minute" || word == "minutes" then 60
    else if word == "second" || word == "seconds" then 1
    else 0
  }

  /** The seconds a tokenised duration text denotes: pairs of a number and a unit word. */
  function SecondsOf(tokens: seq<string>): int
    decreases |tokens|
  {
    if |tokens| < 2 then 0
    else ParseLong(tokens[0]).GetOr(0) * UnitSeconds(tokens[1]) + SecondsOf(tokens[2..])
  }

  const DurationDelims: set<char> := {' ', ','}

  lemma {:induction false} QuantityTokens(n: nat, unit: string)
    requires IsWord(unit, DurationDelims)
    ensures Tokens(Quantity(n, unit), DurationDelims) == [NatToString(n), UnitWord(n, unit)]
  {
    var d := NatToString(n);
    assert forall i :: 0 <= i < |d| ==> IsDigit(d[i]);
    assert IsWord(d, DurationDelims);
    var w := UnitWord(n, unit);
    assert IsWord(w, DurationDelims);
    assert Quantity(n, unit) == d + [' '] + w;
    TokensAppend(d, ' ', w, DurationDelims);
    TokensOfWord(d, DurationDelims);
    TokensOfWord(w, DurationDelims);
  }

  lemma {:induction false} LeadingTokens(n: nat, unit: string, rest: string)
    requires IsWord(unit, DurationDelims)
    ensures Tokens(Leading(n, unit) + rest, DurationDelims) == Pair(n, unit) + Tokens(rest, DurationDelims)
  {
    if n != 0 {
      var q := Quantity(n, unit);
      assert Leading(n, unit) + rest == q + [','] + ("" + [' '] + rest);
      TokensAppend(q, ',', "" + [' '] + rest, DurationDelims);
      TokensAppend("", ' ', rest, DurationDelims);
      assert "" + [' '] + rest == [' '] + rest;
      QuantityTokens(n, unit);
    } else {
      assert Leading(n, unit) + rest == rest;
    }
  }

  lemma QuantitySeconds(n: nat, unit: string, rest: seq<string>)
    requires unit == "week" || unit == "day" || unit == "hour" || unit == "minute" || unit == "second"
    requires n <= LONG_MAX
    ensures SecondsOf([NatToString(n), UnitWord(n, unit)] + rest) == n * UnitSeconds(unit) + SecondsOf(rest)
  {
    var ts := [NatToString(n), UnitWord(n, unit)] + rest;
    assert ts[2..] == rest;
    ParseIntegerOfIntToString(n, LONG_MIN, LONG_MAX);
    assert IntToString(n) == NatToString(n);
    UnitWordSeconds(n, unit);
  }

  /** A unit word counts the same seconds in the singular and in the plural. */
  lemma UnitWordSeconds(n: int, unit: string)
    requires unit == "week" || unit == "day" || unit == "hour" || unit == "minute" || unit == "second"
    ensures UnitSeconds(UnitWord(n, unit)) == UnitSeconds(unit)
  {
    if n != 1 {
      if unit == "week" {
        assert UnitWord(n, unit) == "weeks";
      } else if unit == "day" {
        assert UnitWord(n, unit) == "days";
        assert "days" != "week" && "days" != "weeks";
      } else if unit == "hour" {
        assert UnitWord(n, unit) == "hours";
        assert "hours" != "week" && "hours" != "weeks" && "hours" != "day" && "hours" != "days";
      } else if unit == "minute" {
        assert UnitWord(n, unit) == "minutes";
        assert "minutes" != "week" && "minutes" != "weeks" && "minutes" != "day" && "minutes" != "days";
        assert "minutes" != "hour" && "minutes" != "hours";
      } else {
        assert UnitWord(n, unit) == "seconds";
        assert "seconds" != "week" && "seconds" != "weeks" && "seconds" != "day" && "seconds" != "days";
        assert "seconds" != "hour" && "seconds" != "hours" && "seconds" != "minute" && "seconds" != "minutes";
      }
    }
  }

  lemma {:induction false} LeadingSeconds(n: nat, unit: string, rest: seq<string>)
    requires unit == "week" || unit == "day" || unit == "hour" || unit == "minute"
    requires n <= LONG_MAX
    ensures SecondsOf(Pair(n, unit) + rest) ==
            n * UnitSeconds(unit) + SecondsOf(rest)
  {
    if n != 0 {
      QuantitySeconds(n, unit, rest);
    } else {
      assert [] + rest == rest;
    }
  }

  /** The tokens a non-zero component contributes. */
  function Pair(n: nat, unit: string): seq<string> {
    if n != 0 then [NatToString(n), UnitWord(n, unit)] else []
  }

  /** The words of getDuration's text: each non-zero component from weeks down, then always
      the seconds, every number followed by its unit word. */
  lemma {:induction false} DurationTokens(duration: int)
    ensures var c := Components(TotalSeconds(duration));
            Tokens(DurationText(duration), DurationDelims) ==
            Pair(c.0, "week") + (Pair(c.1, "day") + (Pair(c.2, "hour") + (Pair(c.3, "minute") +
            [NatToString(c.4), UnitWord(c.4, "second")])))
  {
    var c := Components(TotalSeconds(duration));
    var q := Quantity(c.4, "second");
    var lm := Leading(c.3, "minute") + q;
    var lh := Leading(c.2, "hour") + lm;
    var ld := Leading(c.1, "day") + lh;
    UnitsAreWords();
    QuantityTokens(c.4, "second");
    LeadingTokens(c.3, "minute", q);
    LeadingTokens(c.2, "hour", lm);
    LeadingTokens(c.1, "day", lh);
    LeadingTokens(c.0, "week", ld);
  }

  lemma UnitsAreWords()
    ensures IsWord("second", DurationDelims) && IsWord("minute", DurationDelims)
    ensures IsWord("hour", DurationDelims) && IsWord("day", DurationDelims) && IsWord("week", DurationDelims)
  {
    assert IsWord("second", DurationDelims) && IsWord("minute", DurationDelims);
  }

  lemma {:induction false} ComponentSeconds(c: (nat, nat, nat, nat, nat))
    requires c.0 <= LONG_MAX && c.1 <= LONG_MAX && c.2 <= LONG_MAX && c.3 <= LONG_MAX && c.4 <= LONG_MAX
    ensures SecondsOf(Pair(c.0, "week") + (Pair(c.1, "day") + (Pair(c.2, "hour") + (Pair(c.3, "minute") +
                      [NatToString(c.4), UnitWord(c.4, "second")])))) ==
            c.0 * 604800 + c.1 * 86400 + c.2 * 3600 + c.3 * 60 + c.4
  {
    var ts := [NatToString(c.4), UnitWord(c.4, "second")];
    assert UnitSeconds("second") == 1 && UnitSeconds("minute") == 60 && UnitSeconds("hour") == 3600;
    assert UnitSeconds("day") == 86400 && UnitSeconds("week") == 604800;
    QuantitySeconds(c.4, "second", []);
    assert ts + [] == ts;
    LeadingSeconds(c.3, "minute", ts);
    LeadingSeconds(c.2, "hour", Pair(c.3, "minute") + ts);
    LeadingSeconds(c.1, "day", Pair(c.2, "hour") + (Pair(c.3, "minute") + ts));
    LeadingSeconds(c.0, "week", Pair(c.1, "day") + (Pair(c.2, "hour") + (Pair(c.3, "minute") + ts)));
  }

  /** Reading the duration text back, number by number and unit by unit, gives the whole
      seconds of the duration. */
  lemma DurationTextRoundTrip(duration: int)
    requires duration <= LONG_MAX
    ensures SecondsOf(Tokens(DurationText(duration), DurationDelims)) == TotalSeconds(duration)
  {
    var c := Components(TotalSeconds(duration));
    DurationTokens(duration);
    ComponentSeconds(c);
    ComponentsRecombine(TotalSeconds(duration));
  }

  /** The five components put back together give the whole number of seconds. */
  lemma ComponentsRecombine(s: nat)
    ensures var c := Components(s);
            c.0 * 604800 + c.1 * 86400 + c.2 * 3600 + c.3 * 60 + c.4 == s
  {
    var mins := s / 60;
    var hrs := mins / 60;
    var dys := hrs / 24;
    assert hrs == s / 3600;
    assert dys == s / 86400;
    assert dys / 7 == s / 604800;
    assert s == mins * 60 + s % 60;
    assert mins == hrs * 60 + mins % 60;
    assert hrs == dys * 24 + hrs % 24;
    assert dys == (dys / 7) * 7 + dys % 7;
  }

  // ---------------------------------------------------------------------------------------
  // The cut-off window

  /** How far back a record may have ended and still be stored: one day on the first sync,
      otherwise the time since the last sync plus five minutes. */
  function CutOff(now: int, lastSyncTime: int): int {
    if lastSyncTime > 0 then now - lastSyncTime + SYNC_MARGIN_MS else DEFAULT_CUTOFF_MS
  }

  /** Whether a record read at time `now` lies in the window. */
  predicate InWindow(now: int, r: FinishedJobRecord, cutoff: int) {
    now - r.endTime < cutoff
  }

  /** The cut-off is computed once per pass, at time `computed`, and each record is compared
      against the clock `read` when it is read. After a sync a record is kept when it ended
      after five minutes before the last sync, shifted by the time the pass has run so far;
      before the first sync, when it ended within the day before it is read. */
  lemma WindowBounds(computed: int, read: int, lastSyncTime: int, r: FinishedJobRecord)
    ensures lastSyncTime > 0 ==>
              (InWindow(read, r, CutOff(computed, lastSyncTime)) <==>
               r.endTime > lastSyncTime - SYNC_MARGIN_MS + (read - computed))
    ensures lastSyncTime <= 0 ==>
              (InWindow(read, r, CutOff(computed, lastSyncTime)) <==> r.endTime > read - DEFAULT_CUTOFF_MS)
  {
  }

  // ---------------------------------------------------------------------------------------
  // One pass over the accounting file

  /** What one readLine returns: a line, end of file (null), or an I/O exception. */
  datatype Read = Line(text: string) | EndOfFile | ReadFailed

  /** One turn of the read loop: whether shutdown has been requested by then, what readLine
      returned, and the clock and the file's existence and length as the turn sees them. */
  datatype Tick = Tick(shutdown: bool, read: Read, now: int, present: bool, length: int)

  /** The file as one pass sees it: its length before reading, whether it opens, the clock when
      the cut-off is computed, and the turns of the read loop. */
  datatype FileSnapshot = FileSnapshot(length: int, opens: bool, now: int, ticks: seq<Tick>)

  /** Why a pass ends. TraceEnded: the snapshot has no more turns (the loop would go on). */
  datatype Stop =
    | ShutdownSeen | EndOfInput | FileRotated | RotationDetected
    | MalformedLine | ReadError | OpenFailed | TraceEnded

  /** The loop's local state: the database, numJobsAdded and lastCleanupTime. */
  datatype LoopState = LoopState(tables: Tables, added: nat, lastCleanup: int)

  datatype StepOutcome = Continue(next: LoopState) | Halt(last: LoopState, stop: Stop)

  /** One turn of the read loop. */
  function StepTick(s: LoopState, t: Tick, cutoff: int, updateDB: bool, continuous: bool, stopFlag: bool)
    : StepOutcome
  {
    if stopFlag || t.shutdown then Halt(s, ShutdownSeen)
    else
      match t.read
      case ReadFailed => Halt(s, ReadError)
      case Line(text) =>
        (match RecordOf(text)
         case None => Halt(s, MalformedLine)
         case Some(r) =>
           if InWindow(t.now, r, cutoff) then Continue(LoopState(Persisted(s.tables, r), s.added + 1, s.lastCleanup))
           else Continue(s))
      case EndOfFile =>
        if !continuous then Halt(s, EndOfInput)
        else if s.added == 0 && (!t.present || t.length < s.tables.lastSyncFileSize) then Halt(s, FileRotated)
        else
          var synced := if s.added > 0 && updateDB
                        then s.tables.(lastSyncTime := t.now, lastSyncFileSize := t.length)
                        else s.tables;
          if t.now - s.lastCleanup > CLEANUP_INTERVAL_MS
          then Continue(LoopState(CleanedUp(synced, cutoff), 0, t.now))
          else Continue(LoopState(synced, 0, s.lastCleanup))
  }

  /** The read loop over a sequence of turns. */
  function RunTicks(s: LoopState, ticks: seq<Tick>, cutoff: int, updateDB: bool, continuous: bool, stopFlag: bool)
    : (LoopState, Stop)
    decreases |ticks|
  {
    if |ticks| == 0 then (s, TraceEnded)
    else
      match StepTick(s, ticks[0], cutoff, updateDB, continuous, stopFlag)
      case Halt(last, stop) => (last, stop)
      case Continue(next) => RunTicks(next, ticks[1..], cutoff, updateDB, continuous, stopFlag)
  }

  /** The database after a pass, the rotated-copy flag, why the pass ended, and whether it (or
      the read of the rotated copy inside it) saw shutdown. */
  datatype PassResult = PassResult(tables: Tables, parsedRotatedFile: bool, stop: Stop, sawShutdown: bool)

  /** parseFile: a non-updating pass reads the file from the start; an updating pass first
      compares the file's length with the stored size and, when the file shrank or is empty,
      treats it as rotated: it reads the rotated copy "<path>.0.gz" once (not updating, not
      continuous), resets the stored size to 0 and ends. A path ending in ".gz" marks the
      rotated copy as read, whatever happened while reading it. */
  function Pass(t: Tables, parsedRotated: bool, path: string, updateDB: bool, continuous: bool,
                stopFlag: bool, file: FileSnapshot, rotated: FileSnapshot): PassResult
    decreases if updateDB then 1 else 0
  {
    if updateDB && (file.length < t.lastSyncFileSize || file.length == 0) then
      if !parsedRotated then
        var inner := Pass(t, parsedRotated, path + ".0.gz", false, false, stopFlag, rotated, rotated);
        PassResult(inner.tables.(lastSyncFileSize := 0), inner.parsedRotatedFile, RotationDetected,
                   inner.sawShutdown)
      else PassResult(t, parsedRotated, RotationDetected, false)
    else
      var (t', stop) :=
        if !file.opens then (t, OpenFailed)
        else
          var (last, stop) := RunTicks(LoopState(t, 0, 0), file.ticks, CutOff(file.now, t.lastSyncTime),
                                       updateDB, continuous, stopFlag);
          (last.tables, stop);
      PassResult(t', parsedRotated || EndsWith(path, ".gz"), stop, stop == ShutdownSeen)
  }

  /** A pass that does not update the database never moves the sync cursor. */
  lemma {:induction false} NonUpdatingKeepsCursor(s: LoopState, ticks: seq<Tick>, cutoff: int,
                                                  continuous: bool, stopFlag: bool)
    ensures var (last, _) := RunTicks(s, ticks, cutoff, false, continuous, stopFlag);
            last.tables.lastSyncTime == s.tables.lastSyncTime &&
            last.tables.lastSyncFileSize == s.tables.lastSyncFileSize
    decreases |ticks|
  {
    if |ticks| > 0 {
      match StepTick(s, ticks[0], cutoff, false, continuous, stopFlag)
      case Halt(_, _) =>
      case Continue(next) =>
        NonUpdatingKeepsCursor(next, ticks[1..], cutoff, continuous, stopFlag);
    }
  }

  /** The rotation branch: it reads no line of the current file, ends the pass, and, unless the
      rotated copy was read before, leaves the stored size 0, the sync time unchanged and the
      rotated copy marked as read. */
  lemma RotationBranch(t: Tables, parsedRotated: bool, path: string, continuous: bool, stopFlag: bool,
                       file: FileSnapshot, rotated: FileSnapshot)
    requires file.length < t.lastSyncFileSize || file.length == 0
    ensures var p := Pass(t, parsedRotated, path, true, continuous, stopFlag, file, rotated);
            p == Pass(t, parsedRotated, path, true, continuous, stopFlag, file.(ticks := []), rotated) &&
            p.stop == RotationDetected &&
            p.parsedRotatedFile &&
            (parsedRotated ==> p.tables == t) &&
            (!parsedRotated ==> p.tables.lastSyncFileSize == 0 && p.tables.lastSyncTime == t.lastSyncTime)
  {
    if !parsedRotated && rotated.opens {
      NonUpdatingKeepsCursor(LoopState(t, 0, 0), rotated.ticks, CutOff(rotated.now, t.lastSyncTime),
                             false, stopFlag);
    }
    assert EndsWith(path + ".0.gz", ".gz");
  }

  /** Once the rotated copy has been read the flag stays set. */
  lemma RotatedFlagSticks(t: Tables, path: string, updateDB: bool, continuous: bool, stopFlag: bool,
                          file: FileSnapshot, rotated: FileSnapshot)
    ensures Pass(t, true, path, updateDB, continuous, stopFlag, file, rotated).parsedRotatedFile
  {
  }

  /** Turns that each read a well-formed line, without shutdown. */
  predicate PlainLines(ticks: seq<Tick>) {
    forall i :: 0 <= i < |ticks| ==>
      !ticks[i].shutdown && ticks[i].read.Line? && RecordOf(ticks[i].read.text).Some?
  }

  function RecordAt(ticks: seq<Tick>, i: nat): FinishedJobRecord
    requires PlainLines(ticks) && i < |ticks|
  {
    RecordOf(ticks[i].read.text).value
  }

  /** Reading well-formed lines keeps every stored row, stores every record in the window that
      has a job number and whose insert runs, and stores nothing under any other id. */
  lemma {:induction false} LinesPersistWindow(s: LoopState, ticks: seq<Tick>, cutoff: int,
                                              updateDB: bool, continuous: bool)
    requires PlainLines(ticks)
    ensures var (last, stop) := RunTicks(s, ticks, cutoff, updateDB, continuous, false);
            stop == TraceEnded && StoredWindow(s.tables, last.tables, ticks, cutoff)
    decreases |ticks|
  {
    if |ticks| > 0 {
      var r := RecordAt(ticks, 0);
      var next := if InWindow(ticks[0].now, r, cutoff) then LoopState(Persisted(s.tables, r), s.added + 1, s.lastCleanup)
                  else s;
      assert StepTick(s, ticks[0], cutoff, updateDB, continuous, false) == Continue(next);
      var rest := ticks[1..];
      assert PlainLines(rest) by {
        forall i | 0 <= i < |rest| ensures !rest[i].shutdown && rest[i].read.Line? && RecordOf(rest[i].read.text).Some? {
          assert rest[i] == ticks[i + 1];
        }
      }
      LinesPersistWindow(next, rest, cutoff, updateDB, continuous);
      var (last, stop) := RunTicks(next, rest, cutoff, updateDB, continuous, false);
      assert RunTicks(s, ticks, cutoff, updateDB, continuous, false) == (last, stop);
      StoredWindowCons(s.tables, next.tables, last.tables, ticks, cutoff);
    }
  }

  /** After the lines `ticks`, `last` keeps the cursor and every row of `s`, holds every
      in-window record with a job number whose insert runs, and holds no other new id. */
  predicate StoredWindow(s: Tables, last: Tables, ticks: seq<Tick>, cutoff: int)
    requires PlainLines(ticks)
  {
    Keeps(s, last) && Hits(last, ticks, cutoff) && OnlyWindow(s, last, ticks, cutoff)
  }

  /** `last` keeps the cursor and every row of `s`. */
  predicate Keeps(s: Tables, last: Tables) {
    last.lastSyncTime == s.lastSyncTime &&
    last.lastSyncFileSize == s.lastSyncFileSize &&
    (forall k :: k in s.finished ==> k in last.finished && last.finished[k] == s.finished[k])
  }

  /** Every in-window record with a job number whose insert runs is in `last`. */
  predicate Hits(last: Tables, ticks: seq<Tick>, cutoff: int)
    requires PlainLines(ticks)
  {
    forall i :: (0 <= i < |ticks| && InWindow(ticks[i].now, RecordAt(ticks, i), cutoff) &&
                 InsertRuns(RecordAt(ticks, i)) && RecordAt(ticks, i).jobNumber.Some?) ==>
      SelectKey(RecordAt(ticks, i)) in last.finished
  }

  /** Every id `last` holds beyond those of `s` is that of an in-window record. */
  predicate OnlyWindow(s: Tables, last: Tables, ticks: seq<Tick>, cutoff: int)
    requires PlainLines(ticks)
  {
    forall k :: k in last.finished && k !in s.finished ==>
      exists i :: 0 <= i < |ticks| && InWindow(ticks[i].now, RecordAt(ticks, i), cutoff) &&
        SelectKey(RecordAt(ticks, i)) == k
  }

  lemma StoredWindowCons(s: Tables, next: Tables, last: Tables, ticks: seq<Tick>, cutoff: int)
    requires |ticks| > 0 && PlainLines(ticks) && PlainLines(ticks[1..])
    requires next == if InWindow(ticks[0].now, RecordAt(ticks, 0), cutoff) then Persisted(s, RecordAt(ticks, 0)) else s
    requires StoredWindow(next, last, ticks[1..], cutoff)
    ensures StoredWindow(s, last, ticks, cutoff)
  {
    assert Keeps(s, next);
    HitsCons(next, last, ticks, cutoff);
    OnlyWindowCons(s, next, last, ticks, cutoff);
  }

  lemma HitsCons(next: Tables, last: Tables, ticks: seq<Tick>, cutoff: int)
    requires |ticks| > 0 && PlainLines(ticks) && PlainLines(ticks[1..])
    requires var r := RecordAt(ticks, 0);
             InWindow(ticks[0].now, r, cutoff) && InsertRuns(r) && r.jobNumber.Some? ==> SelectKey(r) in next.finished
    requires Keeps(next, last) && Hits(last, ticks[1..], cutoff)
    ensures Hits(last, ticks, cutoff)
  {
    var rest := ticks[1..];
    forall i | 0 <= i < |ticks| && InWindow(ticks[i].now, RecordAt(ticks, i), cutoff) &&
               InsertRuns(RecordAt(ticks, i)) && RecordAt(ticks, i).jobNumber.Some?
      ensures SelectKey(RecordAt(ticks, i)) in last.finished
    {
      if i > 0 {
        assert rest[i - 1] == ticks[i];
        assert RecordAt(rest, i - 1) == RecordAt(ticks, i);
      }
    }
  }

  lemma OnlyWindowCons(s: Tables, next: Tables, last: Tables, ticks: seq<Tick>, cutoff: int)
    requires |ticks| > 0 && PlainLines(ticks) && PlainLines(ticks[1..])
    requires forall k :: k in next.finished && k !in s.finished ==>
               InWindow(ticks[0].now, RecordAt(ticks, 0), cutoff) && SelectKey(RecordAt(ticks, 0)) == k
    requires OnlyWindow(next, last, ticks[1..], cutoff)
    ensures OnlyWindow(s, last, ticks, cutoff)
  {
    var rest := ticks[1..];
    forall k | k in last.finished && k !in s.finished
      ensures exists i :: 0 <= i < |ticks| && InWindow(ticks[i].now, RecordAt(ticks, i), cutoff) &&
                SelectKey(RecordAt(ticks, i)) == k
    {
      if k in next.finished {
        assert InWindow(ticks[0].now, RecordAt(ticks, 0), cutoff) && SelectKey(RecordAt(ticks, 0)) == k;
      } else {
        var j :| 0 <= j < |rest| && InWindow(rest[j].now, RecordAt(rest, j), cutoff) &&
                 SelectKey(RecordAt(rest, j)) == k;
        assert rest[j] == ticks[j + 1];
        assert RecordAt(rest, j) == RecordAt(ticks, j + 1);
      }
    }
  }

  /** A non-continuous pass over well-formed lines ends at the end of file, having stored what
      the lines in the window describe, as above. */
  lemma {:induction false} LinesThenEndOfFile(s: LoopState, ticks: seq<Tick>, cutoff: int, updateDB: bool,
                                              eof: Tick)
    requires PlainLines(ticks) && !eof.shutdown && eof.read == EndOfFile
    ensures RunTicks(s, ticks + [eof], cutoff, updateDB, false, false) ==
            (RunTicks(s, ticks, cutoff, updateDB, false, false).0, EndOfInput)
    decreases |ticks|
  {
    if |ticks| == 0 {
      assert [] + [eof] == [eof];
      assert [eof][1..] == [];
    } else {
      var r := RecordAt(ticks, 0);
      var next := if InWindow(ticks[0].now, r, cutoff) then LoopState(Persisted(s.tables, r), s.added + 1, s.lastCleanup)
                  else s;
      assert StepTick(s, ticks[0], cutoff, updateDB, false, false) == Continue(next);
      var rest := ticks[1..];
      assert PlainLines(rest) by {
        forall i | 0 <= i < |rest| ensures !rest[i].shutdown && rest[i].read.Line? && RecordOf(rest[i].read.text).Some? {
          assert rest[i] == ticks[i + 1];
        }
      }
      assert (ticks + [eof])[1..] == rest + [eof];
      LinesThenEndOfFile(next, rest, cutoff, updateDB, eof);
    }
  }

  /** At the end of file in continuous mode: after new records the stored cursor moves to the
      clock and the file length of that turn (when updating); without new records a missing or
      shorter file ends the pass as rotated. An end of file that goes on sweeps the table when
      more than half an hour has passed since the last sweep (the first sweep of a pass, from
      lastCleanupTime 0, once the clock is past half an hour), and then records the clock as
      the last sweep; otherwise it neither sweeps nor moves that time. */
  lemma EndOfFileTurn(s: LoopState, t: Tick, cutoff: int, updateDB: bool)
    requires !t.shutdown && t.read == EndOfFile
    ensures s.added > 0 && updateDB ==>
              StepTick(s, t, cutoff, updateDB, true, false).Continue? &&
              StepTick(s, t, cutoff, updateDB, true, false).next.tables.lastSyncTime == t.now &&
              StepTick(s, t, cutoff, updateDB, true, false).next.tables.lastSyncFileSize == t.length
    ensures s.added == 0 && (!t.present || t.length < s.tables.lastSyncFileSize) ==>
              StepTick(s, t, cutoff, updateDB, true, false) == Halt(s, FileRotated)
    ensures s.added > 0 && s.lastCleanup == 0 && t.now > CLEANUP_INTERVAL_MS ==>
              StepTick(s, t, cutoff, updateDB, true, false).Continue? &&
              StepTick(s, t, cutoff, updateDB, true, false).next.lastCleanup == t.now &&
              StepTick(s, t, cutoff, updateDB, true, false).next.tables.finished ==
                CleanedUp(s.tables, cutoff).finished
    ensures StepTick(s, t, cutoff, updateDB, true, false).Continue? ==>
              StepTick(s, t, cutoff, updateDB, true, false).next.added == 0
    ensures StepTick(s, t, cutoff, updateDB, true, false).Continue? &&
            t.now - s.lastCleanup > CLEANUP_INTERVAL_MS ==>
              StepTick(s, t, cutoff, updateDB, true, false).next.lastCleanup == t.now &&
              StepTick(s, t, cutoff, updateDB, true, false).next.tables.finished ==
                CleanedUp(s.tables, cutoff).finished
    ensures StepTick(s, t, cutoff, updateDB, true, false).Continue? &&
            t.now - s.lastCleanup <= CLEANUP_INTERVAL_MS ==>
              StepTick(s, t, cutoff, updateDB, true, false).next.lastCleanup == s.lastCleanup &&
              StepTick(s, t, cutoff, updateDB, true, false).next.tables.finished == s.tables.finished
  {
  }

  // ---------------------------------------------------------------------------------------
  // The thread

  /** The state of the database connection. */
  datatype DbState = NoConnection | Open | Closed

  /** getFinishedJobInfo over a connection in any state: a closed connection makes the query
      fail, which leaves the NOT_FOUND report. */
  function LookupOver(db: DbState, t: Tables, jobId: string): (r: Option<GridJobInfo>)
    ensures db == NoConnection <==> r.None?
    ensures db == Closed ==> r == Some(NewJobInfo(jobId).(state := Some(NotFound)))
    ensures db == Open ==> r == LocalFinishedJobInfo(true, t, jobId)
  {
    if db == Closed then Some(NewJobInfo(jobId).(state := Some(NotFound)))
    else LocalFinishedJobInfo(db == Open, t, jobId)
  }

  /** One pass of run(): the current file and its rotated copy as that pass sees them, and
      whether shutdown has been requested by the time the pass returns. */
  datatype RunPass = RunPass(file: FileSnapshot, rotated: FileSnapshot, shutdownAfter: bool)

  /** The database after run(), and whether run() closed the connection. */
  datatype RunResult = RunResult(tables: Tables, parsedRotatedFile: bool, closed: bool)

  /** run(): updating, continuous passes over the accounting file until shutdown has been
      requested at the end of a pass. */
  function RunSpec(t: Tables, parsedRotated: bool, path: string, stopFlag: bool, passes: seq<RunPass>)
    : RunResult
    decreases |passes|
  {
    if |passes| == 0 then RunResult(t, parsedRotated, false)
    else
      var p := Pass(t, parsedRotated, path, true, true, stopFlag, passes[0].file, passes[0].rotated);
      if stopFlag || p.sawShutdown || passes[0].shutdownAfter
      then RunResult(p.tables, p.parsedRotatedFile, true)
      else RunSpec(p.tables, p.parsedRotatedFile, path, false, passes[1..])
  }

  class SgeAccountingThread {
    const filepath: string
    var db: DbState
    var tables: Tables
    var parsedRotatedFile: bool
    var shutdown: bool

    /** The thread over "<root>/<cell>/common/accounting". `connects` says whether the embedded
        database opens; `stored` is what it already holds, if anything (the tables are created
        with the cursor row (0, 0) otherwise). */
    constructor(sgeRoot: string, sgeCell: string, connects: bool, stored: Option<Tables>)
      ensures filepath == sgeRoot + "/" + sgeCell + "/common/accounting"
      ensures db == (if connects then Open else NoConnection)
      ensures tables == stored.GetOr(FreshTables)
      ensures !parsedRotatedFile && !shutdown
    {
      filepath := sgeRoot + "/" + sgeCell + "/common/accounting";
      db := if connects then Open else NoConnection;
      tables := stored.GetOr(FreshTables);
      parsedRotatedFile := false;
      shutdown := false;
    }

    /** shutdown(): the read loop stops at its next turn. */
    method Shutdown()
      modifies this`shutdown
      ensures shutdown
    {
      shutdown := true;
    }

    method Persist(r: FinishedJobRecord)
      modifies this`tables
      ensures tables == if db == Open then Persisted(old(tables), r) else old(tables)
    {
      if db != Open {
        return;
      }
      tables := Persisted(tables, r);
    }

    /** cleanup: the number of deleted rows, 0 without a connection, -1 when the statement fails. */
    method Cleanup(cutoff: int) returns (deleted: int)
      modifies this`tables
      ensures db == NoConnection ==> deleted == 0 && tables == old(tables)
      ensures db == Closed ==> deleted == -1 && tables == old(tables)
      ensures db == Open ==> deleted == DeletedCount(old(tables), cutoff) && tables == CleanedUp(old(tables), cutoff)
    {
      if db == NoConnection {
        return 0;
      }
      if db == Closed {
        return -1;
      }
      deleted := DeletedCount(tables, cutoff);
      tables := CleanedUp(tables, cutoff);
    }

    method GetFinishedJobInfo(jobId: string) returns (r: Option<GridJobInfo>)
      ensures r == LookupOver(db, tables, jobId)
    {
      if db == NoConnection {
        return None;
      }
      r := Some(NewJobInfo(jobId).(state := Some(NotFound)));
      if db == Open && jobId in tables.finished {
        var row := tables.finished[jobId];
        r := Some(r.value.(state := Some(Finished), startTime := Some(row.startTime),
                           finishTime := Some(row.endTime), exitStatus := Some(row.exitStatus)));
      }
    }

    /** One turn of the read loop over the tables, numJobsAdded and lastCleanupTime; `halt` is
        why the loop ends at this turn, if it does. */
    method Turn(tick: Tick, cutoff: int, updateDB: bool, continuous: bool, added: nat, lastCleanup: int)
      returns (halt: Option<Stop>, added': nat, lastCleanup': int)
      requires db == Open
      modifies this`tables, this`shutdown
      ensures var o := StepTick(LoopState(old(tables), added, lastCleanup), tick, cutoff, updateDB, continuous,
                                old(shutdown));
              (o.Continue? ==> halt.None? && LoopState(tables, added', lastCleanup') == o.next) &&
              (o.Halt? ==> halt == Some(o.stop) && tables == o.last.tables)
      ensures shutdown == (old(shutdown) || halt == Some(ShutdownSeen))
    {
      added', lastCleanup' := added, lastCleanup;
      if shutdown || tick.shutdown {
        shutdown := true;
        return Some(ShutdownSeen), added', lastCleanup';
      }
      match tick.read {
        case ReadFailed =>
          halt := Some(ReadError);
        case EndOfFile =>
          if !continuous {
            return Some(EndOfInput), added', lastCleanup';
          }
          if added > 0 {
            if updateDB {
              tables := tables.(lastSyncTime := tick.now, lastSyncFileSize := tick.length);
            }
            added' := 0;
          } else if !tick.present || tick.length < tables.lastSyncFileSize {
            return Some(FileRotated), added', lastCleanup';
          }
          if tick.now - lastCleanup > CLEANUP_INTERVAL_MS {
            var deleted := Cleanup(cutoff);
            lastCleanup' := tick.now;
          }
          halt := None;
        case Line(text) =>
          var r := ParseRecord(text);
          if r.None? {
            return Some(MalformedLine), added', lastCleanup';
          }
          if InWindow(tick.now, r.value, cutoff) {
            Persist(r.value);
            added' := added + 1;
          }
          halt := None;
      }
    }

    /** The read loop of parseFile, from numJobsAdded = 0 and lastCleanupTime = 0. */
    method ReadLoop(ticks: seq<Tick>, cutoff: int, updateDB: bool, continuous: bool) returns (stop: Stop)
      requires db == Open
      modifies this`tables, this`shutdown
      ensures var (last, s) := RunTicks(LoopState(old(tables), 0, 0), ticks, cutoff, updateDB, continuous,
                                        old(shutdown));
              tables == last.tables && stop == s
      ensures shutdown == (old(shutdown) || stop == ShutdownSeen)
    {
      ghost var goal := RunTicks(LoopState(tables, 0, 0), ticks, cutoff, updateDB, continuous, shutdown);
      var numJobsAdded: nat := 0;
      var lastCleanupTime := 0;
      var k := 0;
      while k < |ticks|
        invariant 0 <= k <= |ticks|
        invariant shutdown == old(shutdown)
        invariant RunTicks(LoopState(tables, numJobsAdded, lastCleanupTime), ticks[k..], cutoff,
                           updateDB, continuous, shutdown) == goal
      {
        assert ticks[k..][1..] == ticks[k + 1..];
        var halt;
        halt, numJobsAdded, lastCleanupTime := Turn(ticks[k], cutoff, updateDB, continuous,
                                                    numJobsAdded, lastCleanupTime);
        if halt.Some? {
          return halt.value;
        }
        k := k + 1;
      }
      stop := TraceEnded;
    }

    /** parseFile. Only run() calls it, and only over an open connection. */
    method ParseFile(path: string, updateDB: bool, continuous: bool, file: FileSnapshot, rotated: FileSnapshot)
      returns (stop: Stop)
      requires db == Open
      modifies this
      ensures var p := Pass(old(tables), old(parsedRotatedFile), path, updateDB, continuous, old(shutdown),
                            file, rotated);
              tables == p.tables && parsedRotatedFile == p.parsedRotatedFile && stop == p.stop
      ensures shutdown == (old(shutdown) || Pass(old(tables), old(parsedRotatedFile), path, updateDB, continuous,
                                                 old(shutdown), file, rotated).sawShutdown)
      ensures db == old(db)
      decreases if updateDB then 1 else 0
    {
      var isZip := EndsWith(path, ".gz");
      if updateDB && (file.length < tables.lastSyncFileSize || file.length == 0) {
        if !parsedRotatedFile {
          var inner := ParseFile(path + ".0.gz", false, false, rotated, rotated);
          tables := tables.(lastSyncFileSize := 0);
        }
        return RotationDetected;
      }
      stop := OpenFailed;
      if file.opens {
        stop := ReadLoop(file.ticks, CutOff(file.now, tables.lastSyncTime), updateDB, continuous);
      }
      if isZip {
        parsedRotatedFile := true;
      }
    }

    /** run(): nothing without a connection; otherwise passes until one ends with shutdown
        requested, which closes the connection. A thread runs once, so the connection is not
        already closed. */
    method Run(passes: seq<RunPass>)
      requires db != Closed
      modifies this
      ensures old(db) == NoConnection ==>
                tables == old(tables) && parsedRotatedFile == old(parsedRotatedFile) && db == NoConnection
      ensures old(db) == Open ==>
                var r := RunSpec(old(tables), old(parsedRotatedFile), filepath, old(shutdown), passes);
                tables == r.tables && parsedRotatedFile == r.parsedRotatedFile &&
                db == (if r.closed then Closed else Open)
    {
      if db == NoConnection {
        return;
      }
      ghost var goal := RunSpec(tables, parsedRotatedFile, filepath, shutdown, passes);
      var i := 0;
      while i < |passes|
        invariant 0 <= i <= |passes|
        invariant db == Open
        invariant RunSpec(tables, parsedRotatedFile, filepath, shutdown, passes[i..]) == goal
      {
        var closed := RunTurn(passes[i..]);
        if closed {
          return;
        }
        assert passes[i..][1..] == passes[i + 1..];
        i := i + 1;
      }
    }

    /** One pass of run(): parse the file, then close the connection if shutdown has been
        requested. */
    method RunTurn(passes: seq<RunPass>) returns (closed: bool)
      requires db == Open && |passes| > 0
      modifies this
      ensures closed ==> (db == Closed &&
                          RunSpec(old(tables), old(parsedRotatedFile), filepath, old(shutdown), passes) ==
                          RunResult(tables, parsedRotatedFile, true))
      ensures !closed ==> (db == Open &&
                           RunSpec(old(tables), old(parsedRotatedFile), filepath, old(shutdown), passes) ==
                           RunSpec(tables, parsedRotatedFile, filepath, shutdown, passes[1..]))
    {
      var stop := ParseFile(filepath, true, true, passes[0].file, passes[0].rotated);
      if passes[0].shutdownAfter {
        shutdown := true;
      }
      closed := shutdown;
      if shutdown {
        db := Closed;
      }
    }
  }
}
