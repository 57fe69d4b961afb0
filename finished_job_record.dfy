/**
 * One line of the scheduler's accounting file, parsed the way the FinishedJobRecord
 * constructor does it: a StringTokenizer over ':' and a switch on the token number.
 */
module FinishedJobRecords {
  import opened Optional
  import opened JavaText

  const Colon: set<char> := {':'}

  /** The fields the plug-in keeps. Strings stay null (None) and numbers 0 when their token is
      missing; times are in milliseconds. */
  datatype FinishedJobRecord = FinishedJobRecord(
    qname: Option<string>,      // token 1
    jobNumber: Option<string>,  // token 6
    startTime: int,             // token 10, seconds * 1000
    endTime: int,               // token 11, seconds * 1000
    exitStatus: int,            // token 13
    ruUtime: Option<string>,    // token 15
    ruStime: Option<string>,    // token 16
    taskNumber: int)            // token 36

  const EmptyRecord: FinishedJobRecord := FinishedJobRecord(None, None, 0, 0, 0, None, None, 0)

  /** Token number `n` (counted from 1), if the line has that many tokens. */
  function Token(tokens: seq<string>, n: nat): (r: Option<string>)
    ensures r.Some? <==> 1 <= n <= |tokens|
  {
    if 1 <= n <= |tokens| then Some(tokens[n - 1]) else None
  }

  /** A numeric field: its default 0 when the token is missing, None when the token is present
      but does not parse within [lo, hi]. */
  function NumberField(tokens: seq<string>, n: nat, lo: int, hi: int): Option<int> {
    if 1 <= n <= |tokens| then ParseInteger(tokens[n - 1], lo, hi) else Some(0)
  }

  /** The record described by a token sequence, or None when one of the numeric tokens 10, 11,
      13 or 36 is malformed (the constructor throws NumberFormatException). */
  function RecordOfTokens(tokens: seq<string>): Option<FinishedJobRecord> {
    var start := NumberField(tokens, 10, LONG_MIN, LONG_MAX);
    var end := NumberField(tokens, 11, LONG_MIN, LONG_MAX);
    var exit := NumberField(tokens, 13, INT_MIN, INT_MAX);
    var task := NumberField(tokens, 36, INT_MIN, INT_MAX);
    if start.None? || end.None? || exit.None? || task.None? then None
    else Some(FinishedJobRecord(Token(tokens, 1), Token(tokens, 6), start.value * 1000,
                                end.value * 1000, exit.value, Token(tokens, 15),
                                Token(tokens, 16), task.value))
  }

  /** The record of one accounting line. */
  function RecordOf(line: string): Option<FinishedJobRecord> {
    RecordOfTokens(Tokens(line, Colon))
  }

  /** The constructor's loop: walk the tokens, count them, and assign the field each token
      number selects. None is the NumberFormatException. */
  method ParseRecord(line: string) returns (r: Option<FinishedJobRecord>)
    ensures r == RecordOf(line)
  {
    var tokens := Tokens(line, Colon);
    var rec := EmptyRecord;
    var tokNumber := 0;
    while tokNumber < |tokens|
      invariant 0 <= tokNumber <= |tokens|
      invariant RecordOfTokens(tokens[..tokNumber]) == Some(rec)
    {
      tokNumber := tokNumber + 1;
      var val := tokens[tokNumber - 1];
      assert tokens[..tokNumber] == tokens[..tokNumber - 1] + [val];
      if tokNumber == 1 {
        rec := rec.(qname := Some(val));
      } else if tokNumber == 6 {
        rec := rec.(jobNumber := Some(val));
      } else if tokNumber == 36 {
        var v := ParseInt(val);
        if v.None? {
          return None;
        }
        rec := rec.(taskNumber := v.value);
      } else if tokNumber == 10 {
        var v := ParseLong(val);
        if v.None? {
          return None;
        }
        rec := rec.(startTime := v.value * 1000);
      } else if tokNumber == 11 {
        var v := ParseLong(val);
        if v.None? {
          return None;
        }
        rec := rec.(endTime := v.value * 1000);
      } else if tokNumber == 13 {
        var v := ParseInt(val);
        if v.None? {
          return None;
        }
        rec := rec.(exitStatus := v.value);
      } else if tokNumber == 15 {
        rec := rec.(ruUtime := Some(val));
      } else if tokNumber == 16 {
        rec := rec.(ruStime := Some(val));
      }
    }
    assert tokens[..tokNumber] == tokens;
    r := Some(rec);
  }

  /** Consecutive colons delimit no field: an empty field between them is skipped and does not
      advance the token number. */
  lemma EmptyFieldsSkipped(a: string, b: string)
    ensures RecordOf(a + "::" + b) == RecordOf(a + ":" + b)
  {
    assert a + "::" + b == a + [':'] + ("" + [':'] + b);
    assert a + ":" + b == a + [':'] + b;
    assert "" + [':'] + b == [':'] + b;
    TokensAppend(a, ':', "" + [':'] + b, Colon);
    TokensAppend("", ':', b, Colon);
    TokensAppend(a, ':', b, Colon);
  }

  /** Writing the accounting fields with ':' between them and parsing the line gives back the
      selected fields, the times scaled to milliseconds; all other fields are ignored. */
  lemma ParseOfFormattedLine(fields: seq<string>, start: int, end: int, exit: int, task: int)
    requires |fields| >= 36
    requires forall i :: 0 <= i < |fields| ==> IsWord(fields[i], Colon)
    requires LONG_MIN <= start <= LONG_MAX && LONG_MIN <= end <= LONG_MAX
    requires INT_MIN <= exit <= INT_MAX && INT_MIN <= task <= INT_MAX
    requires fields[9] == IntToString(start) && fields[10] == IntToString(end)
    requires fields[12] == IntToString(exit) && fields[35] == IntToString(task)
    ensures RecordOf(Join(":", fields)) ==
            Some(FinishedJobRecord(Some(fields[0]), Some(fields[5]), start * 1000, end * 1000,
                                   exit, Some(fields[14]), Some(fields[15]), task))
  {
    TokensOfJoin(fields, ':', Colon);
    ParseIntegerOfIntToString(start, LONG_MIN, LONG_MAX);
    ParseIntegerOfIntToString(end, LONG_MIN, LONG_MAX);
    ParseIntegerOfIntToString(exit, INT_MIN, INT_MAX);
    ParseIntegerOfIntToString(task, INT_MIN, INT_MAX);
  }

  /** A line with fewer than 36 tokens keeps task number 0, and one with fewer than 11 tokens
      keeps end time 0. */
  lemma ShortLinesKeepDefaults(line: string)
    requires RecordOf(line).Some?
    ensures |Tokens(line, Colon)| < 36 ==> RecordOf(line).value.taskNumber == 0
    ensures |Tokens(line, Colon)| < 11 ==> RecordOf(line).value.endTime == 0
    ensures |Tokens(line, Colon)| < 6 ==> RecordOf(line).value.jobNumber.None?
  {
  }
}
