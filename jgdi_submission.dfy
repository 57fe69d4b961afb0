/**
 * Job submission: the qsub command line built from a submission request, the retry loop
 * around it and the way the job id is read back from qsub's output.
 *
 * The environment of each turn of the retry loop is an input: whether the master is reachable
 * (a restart waits until it is), whether the process starts and what it writes, and the date
 * the error message would quote.
 */
module Submission {
  import opened Optional
  import opened JavaText

  /** A submission request. Nullable fields are `Option`s; the environment properties are
      listed in the order the property set hands them out. */
  datatype SubmitInfo = SubmitInfo(
    username: Option<string>,
    privilegeEscalation: bool,
    command: Option<string>,
    arguments: Option<seq<Option<string>>>,
    isArray: bool,
    nativeSpecification: Option<string>,
    outputPath: Option<string>,
    errorPath: Option<string>,
    environment: Option<seq<(string, string)>>)

  /** The checks made before the command is built, in their order: the exception message of
      the first one that fails. */
  function Validate(info: SubmitInfo): (m: Option<string>)
    ensures m.None? <==>
            info.username.Some? && info.command.Some? && info.arguments.Some? &&
            forall i :: 0 <= i < |info.arguments.value| ==> info.arguments.value[i].Some?
  {
    if info.username.None? then Some("Failed to get Username")
    else if info.command.None? then Some("Failed to get Executable Location")
    else if info.arguments.None? || None in info.arguments.value then Some("Failed to get command line arguments")
    else None
  }

  function Arguments(info: SubmitInfo): (args: seq<string>)
    requires Validate(info).None?
    ensures |args| == |info.arguments.value|
    ensures forall i :: 0 <= i < |args| ==> Some(args[i]) == info.arguments.value[i]
  {
    seq(|info.arguments.value|, i requires 0 <= i < |info.arguments.value| => info.arguments.value[i].value)
  }

  /** " -v k1=v1,k2=v2 " for a non-empty environment, nothing otherwise. */
  function EnvEntry(kv: (string, string)): string {
    kv.0 + "=" + kv.1
  }

  function EnvEntries(env: seq<(string, string)>): (r: seq<string>)
    ensures |r| == |env| && forall i :: 0 <= i < |env| ==> r[i] == EnvEntry(env[i])
  {
    seq(|env|, i requires 0 <= i < |env| => EnvEntry(env[i]))
  }

  function EnvFlag(env: Option<seq<(string, string)>>): string {
    if env.Some? && |env.value| > 0 then " -v " + (Join(",", EnvEntries(env.value)) + " ") else ""
  }

  /** Each argument preceded by a space. */
  function ArgsText(args: seq<string>): string
    decreases |args|
  {
    if |args| == 0 then "" else " " + (args[0] + ArgsText(args[1..]))
  }

  function SudoPrefix(info: SubmitInfo): string
    requires Validate(info).None?
  {
    if info.privilegeEscalation then "sudo -E -u " + (info.username.value + " ") else ""
  }

  /** The command line submitJob builds: "qsub <executable>" for an array submission; otherwise
      qsub with the native specification, the output and error paths, the environment flag
      and the executable with its arguments. Nulls print as "null". */
  function CommandText(info: SubmitInfo): string
    requires Validate(info).None?
  {
    if info.isArray then SudoPrefix(info) + ("qsub " + info.command.value)
    else
      SudoPrefix(info) + ("qsub " + (JavaStr(info.nativeSpecification) + (" -o " + (JavaStr(info.outputPath) +
      (" -e " + (JavaStr(info.errorPath) + (EnvFlag(info.environment) + (" " + (info.command.value +
      ArgsText(Arguments(info)))))))))))
  }

  /** The command handed to ProcessBuilder: the whitespace-separated tokens of the command line. */
  function CommandTokens(info: SubmitInfo): seq<string>
    requires Validate(info).None?
  {
    Tokens(CommandText(info), Whitespace)
  }

  /** The command line, appended piece by piece as submitJob does. */
  method BuildCommand(info: SubmitInfo) returns (cmd: string)
    requires Validate(info).None?
    ensures cmd == CommandText(info)
  {
    var sudo := "";
    if info.privilegeEscalation {
      sudo := "sudo -E -u " + (info.username.value + " ");
    }
    if info.isArray {
      return sudo + ("qsub " + info.command.value);
    }
    var envFlag := "";
    if info.environment.Some? && |info.environment.value| > 0 {
      var env := info.environment.value;
      var joined := "";
      var k := 0;
      while k < |env|
        invariant 0 <= k <= |env|
        invariant k == 0 ==> joined == ""
        invariant k > 0 ==> joined == Join(",", EnvEntries(env[..k]))
      {
        if k > 0 {
          joined := joined + ",";
        }
        JoinSnoc(",", EnvEntries(env[..k]), EnvEntry(env[k]));
        assert "" + EnvEntry(env[k]) == EnvEntry(env[k]);
        assert EnvEntries(env[..k + 1]) == EnvEntries(env[..k]) + [EnvEntry(env[k])];
        joined := joined + EnvEntry(env[k]);
        k := k + 1;
      }
      assert env[..k] == env;
      envFlag := " -v " + (joined + " ");
    }
    var args := Arguments(info);
    var argText := "";
    var k := |args|;
    while k > 0
      invariant 0 <= k <= |args|
      invariant argText == ArgsText(args[k..])
    {
      k := k - 1;
      assert args[k..][1..] == args[k + 1..];
      argText := " " + (args[k] + argText);
    }
    cmd := sudo + ("qsub " + (JavaStr(info.nativeSpecification) + (" -o " + (JavaStr(info.outputPath) +
           (" -e " + (JavaStr(info.errorPath) + (envFlag + (" " + (info.command.value + argText)))))))));
  }

  lemma {:induction false} JoinSnoc(sep: string, parts: seq<string>, x: string)
    ensures |parts| == 0 ==> Join(sep, parts + [x]) == x
    ensures |parts| > 0 ==> Join(sep, parts + [x]) == Join(sep, parts) + sep + x
    decreases |parts|
  {
    if |parts| == 0 {
      assert parts + [x] == [x];
    } else if |parts| == 1 {
      assert (parts + [x])[1..] == [x];
    } else {
      assert (parts + [x])[1..] == parts[1..] + [x];
      JoinSnoc(sep, parts[1..], x);
    }
  }

  // ---------------------------------------------------------------------------------------
  // Tokens of the command line

  /** Tokenising strings joined by a space. */
  lemma SpaceSplits(a: string, b: string)
    ensures Tokens(a + (" " + b), Whitespace) == Tokens(a, Whitespace) + Tokens(b, Whitespace)
  {
    assert a + (" " + b) == a + [' '] + b;
    TokensAppend(a, ' ', b, Whitespace);
  }

  /** A space, a fixed word, a space and more text. */
  lemma SpacedWord(w: string, b: string)
    requires IsWord(w, Whitespace)
    ensures Tokens(" " + w + " " + b, Whitespace) == [w] + Tokens(b, Whitespace)
  {
    assert " " + w + " " + b == "" + [' '] + (w + " " + b);
    TokensAppend("", ' ', w + " " + b, Whitespace);
    WordThenSpace(w, b);
  }

  /** The tokens of all arguments, one argument after another. */
  function ArgTokens(args: seq<string>): seq<string>
    decreases |args|
  {
    if |args| == 0 then [] else Tokens(args[0], Whitespace) + ArgTokens(args[1..])
  }

  lemma {:induction false} ArgsTextTokens(args: seq<string>)
    ensures Tokens(ArgsText(args), Whitespace) == ArgTokens(args)
    decreases |args|
  {
    if |args| > 0 {
      var r := ArgsText(args[1..]);
      ArgsTextTokens(args[1..]);
      LeadingSpace(args[0] + r);
      if r == "" {
        assert args[0] + r == args[0];
      } else {
        var t := args[1] + ArgsText(args[2..]);
        assert r == " " + t;
        SpaceSplits(args[0], t);
        LeadingSpace(t);
      }
    }
  }


  function SudoTokens(info: SubmitInfo): seq<string>
    requires Validate(info).None?
  {
    if info.privilegeEscalation then ["sudo", "-E", "-u"] + Tokens(info.username.value, Whitespace) else []
  }

  function EnvTokens(env: Option<seq<(string, string)>>): seq<string> {
    if env.Some? && |env.value| > 0 then ["-v"] + Tokens(Join(",", EnvEntries(env.value)), Whitespace) else []
  }

  lemma SudoTokensSplice(info: SubmitInfo, rest: string)
    requires Validate(info).None?
    ensures Tokens(SudoPrefix(info) + rest, Whitespace) == SudoTokens(info) + Tokens(rest, Whitespace)
  {
    if info.privilegeEscalation {
      var u := info.username.value;
      assert SudoPrefix(info) + rest == "sudo" + " " + ("-E" + " " + ("-u" + " " + (u + (" " + rest))));
      WordThenSpace("sudo", "-E" + " " + ("-u" + " " + (u + (" " + rest))));
      WordThenSpace("-E", "-u" + " " + (u + (" " + rest)));
      WordThenSpace("-u", u + (" " + rest));
      SpaceSplits(u, rest);
    } else {
      assert SudoPrefix(info) + rest == rest;
    }
  }

  /** "qsub" after the sudo prefix is a token of its own. */
  lemma QsubTokens(info: SubmitInfo, rest: string)
    requires Validate(info).None?
    ensures Tokens(SudoPrefix(info) + ("qsub " + rest), Whitespace) ==
            SudoTokens(info) + (["qsub"] + Tokens(rest, Whitespace))
  {
    SudoTokensSplice(info, "qsub " + rest);
    assert "qsub " + rest == "qsub" + " " + rest;
    WordThenSpace("qsub", rest);
  }

  /** An array submission hands ProcessBuilder "qsub" and the executable's tokens. */
  lemma ArrayCommandTokens(info: SubmitInfo)
    requires Validate(info).None? && info.isArray
    ensures CommandTokens(info) == SudoTokens(info) + (["qsub"] + Tokens(info.command.value, Whitespace))
  {
    assert CommandText(info) == SudoPrefix(info) + ("qsub " + info.command.value);
    QsubTokens(info, info.command.value);
  }

  /** A single submission hands ProcessBuilder "qsub", the native specification's tokens, "-o",
      the output path's tokens, "-e", the error path's tokens, "-v" and the environment list
      when there is one, the executable's tokens and every argument's tokens; an argument with
      a space in it is split into several. */
  lemma SingleCommandTokens(info: SubmitInfo)
    requires Validate(info).None? && !info.isArray
    ensures CommandTokens(info) ==
            SudoTokens(info) + (["qsub"] + (Tokens(JavaStr(info.nativeSpecification), Whitespace) +
            (["-o"] + (Tokens(JavaStr(info.outputPath), Whitespace) +
            (["-e"] + (Tokens(JavaStr(info.errorPath), Whitespace) +
            (EnvTokens(info.environment) + (Tokens(info.command.value, Whitespace) +
            ArgTokens(Arguments(info))))))))))
  {
    var c := info.command.value;
    var tail := c + ArgsText(Arguments(info));
    var n := JavaStr(info.nativeSpecification) + (" -o " + (JavaStr(info.outputPath) +
             (" -e " + (JavaStr(info.errorPath) + (EnvFlag(info.environment) + (" " + tail))))));
    QsubTokens(info, n);
    PathTokens(JavaStr(info.nativeSpecification), JavaStr(info.outputPath), JavaStr(info.errorPath),
               info.environment, tail);
    ArgsTextSplice(c, Arguments(info));
  }

  lemma PathTokens(ns: string, op: string, ep: string, env: Option<seq<(string, string)>>, tail: string)
    ensures Tokens(ns + (" -o " + (op + (" -e " + (ep + (EnvFlag(env) + (" " + tail)))))), Whitespace) ==
            Tokens(ns, Whitespace) + (["-o"] + (Tokens(op, Whitespace) + (["-e"] + (Tokens(ep, Whitespace) +
            (EnvTokens(env) + Tokens(tail, Whitespace))))))
  {
    var e := ep + (EnvFlag(env) + (" " + tail));
    OutErrTokens(ns, op, e);
    TokensConcatEnv(ep, env, tail);
    var te, tv, tt := Tokens(ep, Whitespace), EnvTokens(env), Tokens(tail, Whitespace);
    assert te + tv + tt == te + (tv + tt);
  }

  /** "-o" and "-e" are tokens of their own between the texts around them. */
  lemma OutErrTokens(ns: string, op: string, e: string)
    ensures Tokens(ns + (" -o " + (op + (" -e " + e))), Whitespace) ==
            Tokens(ns, Whitespace) + (["-o"] + (Tokens(op, Whitespace) + (["-e"] + Tokens(e, Whitespace))))
  {
    assert " -e " + e == " " + "-e" + " " + e;
    assert " -o " + (op + (" -e " + e)) == " " + "-o" + " " + (op + (" " + "-e" + " " + e));
    TwoFlagTokens(ns, "-o", op, "-e", e);
  }

  /** Two flags, each between spaces, are tokens of their own between the texts around them. */
  lemma TwoFlagTokens(a: string, f: string, b: string, g: string, c: string)
    requires IsWord(f, Whitespace) && IsWord(g, Whitespace)
    ensures Tokens(a + (" " + f + " " + (b + (" " + g + " " + c))), Whitespace) ==
            Tokens(a, Whitespace) + ([f] + (Tokens(b, Whitespace) + ([g] + Tokens(c, Whitespace))))
  {
    FlagTokens(b, g, c);
    FlagTokens(a, f, b + (" " + g + " " + c));
  }

  /** A flag between two texts, with a space on either side, is a token of its own. */
  lemma FlagTokens(a: string, flag: string, b: string)
    requires IsWord(flag, Whitespace)
    ensures Tokens(a + (" " + flag + " " + b), Whitespace) ==
            Tokens(a, Whitespace) + ([flag] + Tokens(b, Whitespace))
  {
    assert a + (" " + flag + " " + b) == a + (" " + (flag + " " + b));
    SpaceSplits(a, flag + " " + b);
    WordThenSpace(flag, b);
  }

  /** A leading space adds no token. */
  lemma LeadingSpace(b: string)
    ensures Tokens(" " + b, Whitespace) == Tokens(b, Whitespace)
  {
    assert " " + b == "" + [' '] + b;
    TokensAppend("", ' ', b, Whitespace);
  }

  lemma TokensConcatEnv(p: string, env: Option<seq<(string, string)>>, tail: string)
    ensures Tokens(p + (EnvFlag(env) + (" " + tail)), Whitespace) ==
            Tokens(p, Whitespace) + EnvTokens(env) + Tokens(tail, Whitespace)
  {
    if env.Some? && |env.value| > 0 {
      var j := Join(",", EnvEntries(env.value));
      assert p + (EnvFlag(env) + (" " + tail)) == p + (" " + ("-v" + " " + (j + (" " + (" " + tail)))));
      SpaceSplits(p, "-v" + " " + (j + (" " + (" " + tail))));
      WordThenSpace("-v", j + (" " + (" " + tail)));
      SpaceSplits(j, " " + tail);
      LeadingSpace(tail);
    } else {
      assert p + (EnvFlag(env) + (" " + tail)) == p + (" " + tail);
      SpaceSplits(p, tail);
      assert EnvTokens(env) == [];
      assert Tokens(p, Whitespace) + [] == Tokens(p, Whitespace);
    }
  }

  lemma ArgsTextSplice(c: string, args: seq<string>)
    ensures Tokens(c + ArgsText(args), Whitespace) == Tokens(c, Whitespace) + ArgTokens(args)
  {
    ArgsTextTokens(args);
    if |args| == 0 {
      assert c + ArgsText(args) == c;
    } else {
      assert c + ArgsText(args) == c + [' '] + (args[0] + ArgsText(args[1..]));
      TokensAppend(c, ' ', args[0] + ArgsText(args[1..]), Whitespace);
      assert ArgsText(args) == "" + [' '] + (args[0] + ArgsText(args[1..]));
      TokensAppend("", ' ', args[0] + ArgsText(args[1..]), Whitespace);
    }
  }

  // ---------------------------------------------------------------------------------------
  // qsub's answer

  /** One start of qsub: what its two streams deliver, or the message of the exception
      ProcessBuilder.start throws. */
  datatype Run = Started(stdout: string, stderr: string) | StartFailed(message: string)

  /** The world as one turn of the retry loop sees it: whether the master is reachable, what
      starting qsub gives, and the date an error message quotes. */
  datatype PassEnv = PassEnv(masterAlive: bool, run: Run, date: string)

  const OUT_BUFFER: nat := 100
  const ERR_BUFFER: nat := 255
  const JOB_PREFIX: string := "Your job"
  const CONNECT_FAILURE: string := "can't connect to service"
  const READ_FAILURE: string := "got read error"

  /** new String(buff) after one read into a zeroed buffer of `n` bytes: the first `n`
      characters of the stream, padded with NUL characters. */
  function Buffer(s: string, n: nat): (r: string)
    ensures |r| == n
    ensures forall i :: 0 <= i < n ==> r[i] == (if i < |s| then s[i] else '\0')
  {
    if |s| >= n then s[..n] else s + seq(n - |s|, _ => '\0')
  }

  /** The first line that starts with "Your job". */
  function FirstJobLine(lines: seq<string>): (r: Option<string>)
    ensures r.None? <==> forall i :: 0 <= i < |lines| ==> !StartsWith(lines[i], JOB_PREFIX)
    ensures r.Some? ==> StartsWith(r.value, JOB_PREFIX) && exists k :: FirstJobAt(lines, k) && r.value == lines[k]
  {
    if |lines| == 0 then None
    else if StartsWith(lines[0], JOB_PREFIX) then
      assert FirstJobAt(lines, 0);
      Some(lines[0])
    else
      var r := FirstJobLine(lines[1..]);
      if r.Some? then
        var k :| FirstJobAt(lines[1..], k) && r.value == lines[1..][k];
        assert FirstJobAt(lines, k + 1);
        r
      else r
  }

  /** Line `k` is the first that starts with "Your job": every later one is ignored. */
  predicate FirstJobAt(lines: seq<string>, k: int) {
    0 <= k < |lines| && StartsWith(lines[k], JOB_PREFIX) &&
    forall j :: 0 <= j < k ==> !StartsWith(lines[j], JOB_PREFIX)
  }

  /** What submitJob reads from qsub's answer: the text between `offset` and the next space
      of the first "Your job" line; the length less the offset when that line is shorter than
      the offset (substring throws StringIndexOutOfBoundsException); or nothing. */
  datatype IdParse = Found(id: string) | OutOfRange(n: int) | NoId

  function JobId(response: string, offset: nat): IdParse {
    var line := FirstJobLine(Split(response, '\n'));
    if line.None? then NoId
    else if offset > |line.value| then OutOfRange(|line.value| - offset)
    else
      var sub := line.value[offset..];
      var sp := IndexOf(sub, ' ');
      if sp == -1 then NoId else Found(sub[..sp])
  }

  /** The loop over response.split("\n"), its return and its break. */
  method ParseJobId(response: string, offset: nat) returns (r: IdParse)
    ensures r == JobId(response, offset)
  {
    var lines := Split(response, '\n');
    var k := 0;
    while k < |lines|
      invariant 0 <= k <= |lines|
      invariant FirstJobLine(lines[k..]) == FirstJobLine(lines)
    {
      var s := lines[k];
      if StartsWith(s, JOB_PREFIX) {
        if offset > |s| {
          return OutOfRange(|s| - offset);
        }
        var sub := s[offset..];
        var spaceIndex := IndexOf(sub, ' ');
        if spaceIndex != -1 {
          return Found(sub[..spaceIndex]);
        }
        return NoId;
      }
      assert lines[k..][1..] == lines[k + 1..];
      k := k + 1;
    }
    return NoId;
  }

  lemma {:induction false} DropKeepsFirst(ps: seq<string>)
    requires |ps| > 0 && ps[0] != ""
    ensures |DropTrailingEmpty(ps)| > 0 && DropTrailingEmpty(ps)[0] == ps[0]
    decreases |ps|
  {
    if ps[|ps| - 1] == "" {
      DropKeepsFirst(ps[..|ps| - 1]);
    }
  }

  /** A line of at most 99 characters that ends at a newline, starts with "Your job" and has
      `id` and a space at `offset`, gives `id` back. */
  lemma JobIdOfLine(line: string, more: string, offset: nat, id: string, tail: string)
    requires StartsWith(line, JOB_PREFIX) && '\n' !in line && |line| < OUT_BUFFER
    requires offset <= |line| && line[offset..] == id + " " + tail && ' ' !in id
    ensures JobId(Buffer(line + "\n" + more, OUT_BUFFER), offset) == Found(id)
  {
    var b := Buffer(line + "\n" + more, OUT_BUFFER);
    var rest := b[|line| + 1..];
    assert b == line + ['\n'] + rest;
    PiecesAppend(line, '\n', rest, {'\n'});
    PiecesOfWord(line, {'\n'});
    var ps := Pieces(b, {'\n'});
    assert ps == [line] + Pieces(rest, {'\n'});
    DropKeepsFirst(ps);
    assert Split(b, '\n')[0] == line;
    assert FirstJobLine(Split(b, '\n')) == Some(line);
    assert id + " " + tail == id + [' '] + tail;
    IndexOfAfter(id, ' ', tail);
    assert (id + " " + tail)[..|id|] == id;
  }

  // ---------------------------------------------------------------------------------------
  // One turn of the retry loop

  datatype PassKind = Submitted(id: string) | Restart | Counted(err: string)

  /** The message built in the catch block. */
  function InternalError(date: string, reason: string): string {
    "Unable to submit job. Internal error occurred\n" + ("\n     Date: " + (date + ("\n   Reason: " + reason)))
  }

  /** The offset after a turn: six more for an array submission that passed the checks. */
  function PassOffset(info: SubmitInfo, offset: nat): (r: nat)
    ensures r == offset || (info.isArray && r == offset + 6)
  {
    if Validate(info).None? && info.isArray then offset + 6 else offset
  }

  /** How a turn ends, `offset` being the offset after it: a failed check or a start that
      throws is a counted attempt with the internal-error message; a master that is down,
      or an error stream that reports the service unreachable, sends the loop round again
      without counting; a job id ends the loop; anything else is a counted attempt whose
      message is the error stream and qsub's answer. */
  function Classify(info: SubmitInfo, p: PassEnv, offset: nat): PassKind {
    if Validate(info).Some? then Counted(InternalError(p.date, Validate(info).value))
    else if !p.masterAlive then Restart
    else if p.run.StartFailed? then Counted(InternalError(p.date, p.run.message))
    else StartedKind(p.date, p.run.stdout, p.run.stderr, offset)
  }

  /** How a turn whose qsub process started ends, by what qsub wrote. */
  function StartedKind(date: string, out: string, errOut: string, offset: nat): PassKind {
    var err := Buffer(errOut, ERR_BUFFER);
    if Contains(err, CONNECT_FAILURE) || Contains(err, READ_FAILURE) then Restart
    else
      var response := Buffer(out, OUT_BUFFER);
      match JobId(response, offset)
      case Found(id) => Submitted(id)
      case OutOfRange(n) => Counted(InternalError(date, "String index out of range: " + IntToString(n)))
      case NoId => Counted((if |Trim(err)| > 0 then err + "\n" else err) + ("ERROR: " + response))
  }

  /** The command a turn hands ProcessBuilder, if it gets that far. */
  function Invocation(info: SubmitInfo, p: PassEnv): seq<seq<string>> {
    if Validate(info).None? && p.masterAlive then [CommandTokens(info)] else []
  }

  /** One turn of the loop body: the offset after it, the command it starts, and how it ends. */
  method Attempt(info: SubmitInfo, p: PassEnv, offset: nat) returns (next: nat, invoked: seq<seq<string>>, kind: PassKind)
    ensures next == PassOffset(info, offset)
    ensures invoked == Invocation(info, p)
    ensures kind == Classify(info, p, next)
  {
    next := offset;
    invoked := [];
    var failed := Validate(info);
    if failed.Some? {
      return next, invoked, Counted(InternalError(p.date, failed.value));
    }
    var cmd := BuildCommand(info);
    if info.isArray {
      next := offset + 6;
    }
    if !p.masterAlive {
      return next, invoked, Restart;
    }
    invoked := [Tokens(cmd, Whitespace)];
    match p.run
    case StartFailed(m) =>
      kind := Counted(InternalError(p.date, m));
    case Started(out, errOut) =>
      kind := ReadAnswer(p.date, out, errOut, next);
  }

  /** Reading what the started qsub process wrote: a connection failure on its error stream
      restarts the turn; otherwise the job id is looked for in its output. */
  method ReadAnswer(date: string, out: string, errOut: string, offset: nat) returns (kind: PassKind)
    ensures kind == StartedKind(date, out, errOut, offset)
  {
    var err := Buffer(errOut, ERR_BUFFER);
    if Contains(err, CONNECT_FAILURE) || Contains(err, READ_FAILURE) {
      return Restart;
    }
    var response := Buffer(out, OUT_BUFFER);
    var id := ParseJobId(response, offset);
    match id
    case Found(j) =>
      kind := Submitted(j);
    case OutOfRange(n) =>
      kind := Counted(InternalError(date, "String index out of range: " + IntToString(n)));
    case NoId =>
      if |Trim(err)| > 0 {
        err := err + "\n";
      }
      err := err + ("ERROR: " + response);
      kind := Counted(err);
  }

  // ---------------------------------------------------------------------------------------
  // The retry loop

  /** How submitJob ends: with the text it returns, or not within the turns given. */
  datatype Outcome = Returned(text: string) | Unfinished

  /** The outcome, the sleeps between turns, and the commands started, in order. */
  datatype SubmitTrace = SubmitTrace(outcome: Outcome, sleeps: seq<int>, invocations: seq<seq<string>>)

  function Prepend(sleeps: seq<int>, invocations: seq<seq<string>>, t: SubmitTrace): SubmitTrace {
    SubmitTrace(t.outcome, sleeps + t.sleeps, invocations + t.invocations)
  }

  function AttemptLine(i: int, err: string): string {
    "Attempt " + (IntToString(i) + (": " + (err + "\n")))
  }

  /** The loop from turn `passes[0]` on, with attempt number `i`, sleep time `sleepTime`,
      offset `offset` and log `ret`. Each turn after the first attempt sleeps first. A counted
      attempt adds its line to the log; the fifth returns "ERROR:" and the log, the others
      double the sleep from the third attempt on. With `carry` the offset of one turn is the
      next turn's starting offset, as submitJob has it; without it every turn starts again
      from `offset`. */
  function SubmitFrom(info: SubmitInfo, passes: seq<PassEnv>, i: int, sleepTime: int, offset: nat,
                      ret: string, carry: bool): SubmitTrace
    decreases |passes|
  {
    if |passes| == 0 then SubmitTrace(Unfinished, [], [])
    else
      var p := passes[0];
      var slept := if i > 1 then [sleepTime] else [];
      var off := PassOffset(info, offset);
      var nextOffset := if carry then off else offset;
      match Classify(info, p, off)
      case Submitted(id) => SubmitTrace(Returned(id), slept, Invocation(info, p))
      case Restart =>
        Prepend(slept, Invocation(info, p), SubmitFrom(info, passes[1..], i, sleepTime, nextOffset, ret, carry))
      case Counted(err) =>
        var log := ret + AttemptLine(i, err);
        if i + 1 < 6 then
          var sleep := if i + 1 > 2 then sleepTime * 2 else sleepTime;
          Prepend(slept, Invocation(info, p), SubmitFrom(info, passes[1..], i + 1, sleep, nextOffset, log, carry))
        else SubmitTrace(Returned("ERROR:" + log), slept, Invocation(info, p))
  }

  const FIRST_OFFSET: nat := 9

  /** submitJob as written: the offset carries over from turn to turn. */
  function AsWrittenSubmit(info: SubmitInfo, passes: seq<PassEnv>): SubmitTrace {
    SubmitFrom(info, passes, 1, 2000, FIRST_OFFSET, "", true)
  }

  /** submitJob with the offset set afresh on every turn: 9, or 15 for an array submission. */
  function CorrectedSubmit(info: SubmitInfo, passes: seq<PassEnv>): SubmitTrace {
    SubmitFrom(info, passes, 1, 2000, FIRST_OFFSET, "", false)
  }

  lemma PrependPrepend(a: seq<int>, b: seq<seq<string>>, c: seq<int>, d: seq<seq<string>>, t: SubmitTrace)
    ensures Prepend(a, b, Prepend(c, d, t)) == Prepend(a + c, b + d, t)
  {
    assert a + (c + t.sleeps) == (a + c) + t.sleeps;
    assert b + (d + t.invocations) == (b + d) + t.invocations;
  }

  /** One turn of SubmitFrom, by how the turn ends. */
  lemma SubmitTurn(info: SubmitInfo, passes: seq<PassEnv>, i: int, sleepTime: int, offset: nat,
                   ret: string, carry: bool)
    requires |passes| > 0
    ensures var p := passes[0];
            var slept := if i > 1 then [sleepTime] else [];
            var off := PassOffset(info, offset);
            var nextOffset := if carry then off else offset;
            var t := SubmitFrom(info, passes, i, sleepTime, offset, ret, carry);
            match Classify(info, p, off)
            case Submitted(id) => t == Prepend(slept, Invocation(info, p), SubmitTrace(Returned(id), [], []))
            case Restart =>
              t == Prepend(slept, Invocation(info, p), SubmitFrom(info, passes[1..], i, sleepTime, nextOffset, ret, carry))
            case Counted(err) =>
              var log := ret + AttemptLine(i, err);
              if i + 1 < 6 then
                t == Prepend(slept, Invocation(info, p),
                             SubmitFrom(info, passes[1..], i + 1, if i + 1 > 2 then sleepTime * 2 else sleepTime,
                                        nextOffset, log, carry))
              else t == Prepend(slept, Invocation(info, p), SubmitTrace(Returned("ERROR:" + log), [], []))
  {
    var p := passes[0];
    var slept := if i > 1 then [sleepTime] else [];
    assert slept + [] == slept;
    assert Invocation(info, p) + [] == Invocation(info, p);
  }

  /** One turn of the do-while loop of submitJob: the sleep it takes, the commands it starts,
      and either the value submitJob returns or the loop variables of the next turn. */
  method SubmitStep(info: SubmitInfo, passes: seq<PassEnv>, i: int, sleepTime: int, offset: nat, ret: string)
    returns (slept: seq<int>, invoked: seq<seq<string>>, done: Option<Outcome>,
             i': int, sleepTime': int, offset': nat, ret': string)
    requires |passes| > 0 && 1 <= i < 6
    ensures done.Some? ==>
              SubmitFrom(info, passes, i, sleepTime, offset, ret, true) ==
              SubmitTrace(done.value, slept, invoked)
    ensures done.None? ==>
              1 <= i' < 6 &&
              SubmitFrom(info, passes, i, sleepTime, offset, ret, true) ==
              Prepend(slept, invoked, SubmitFrom(info, passes[1..], i', sleepTime', offset', ret', true))
  {
    SubmitTurn(info, passes, i, sleepTime, offset, ret, true);
    slept := if i > 1 then [sleepTime] else [];
    var kind;
    offset', invoked, kind := Attempt(info, passes[0], offset);
    i', sleepTime', ret' := i, sleepTime, ret;
    match kind
    case Submitted(id) =>
      done := Some(Returned(id));
    case Restart =>
      done := None;
    case Counted(err) =>
      ret' := ret + AttemptLine(i, err);
      i' := i + 1;
      if i' < 6 {
        if i' > 2 {
          sleepTime' := sleepTime * 2;
        }
        done := None;
      } else {
        done := Some(Returned("ERROR:" + ret'));
      }
  }

  /** The do-while loop of submitJob over the turns `passes`. */
  method SubmitJob(info: SubmitInfo, passes: seq<PassEnv>)
    returns (outcome: Outcome, sleeps: seq<int>, invocations: seq<seq<string>>)
    ensures SubmitTrace(outcome, sleeps, invocations) == AsWrittenSubmit(info, passes)
  {
    var ret := "";
    var offset: nat := FIRST_OFFSET;
    var sleepTime := 2000;
    var i := 1;
    var k := 0;
    sleeps := [];
    invocations := [];
    ghost var goal := AsWrittenSubmit(info, passes);
    while k < |passes|
      invariant 0 <= k <= |passes| && 1 <= i < 6
      invariant Prepend(sleeps, invocations, SubmitFrom(info, passes[k..], i, sleepTime, offset, ret, true)) == goal
    {
      assert passes[k..][1..] == passes[k + 1..];
      var slept, invoked, done;
      ghost var before, started := sleeps, invocations;
      slept, invoked, done, i, sleepTime, offset, ret := SubmitStep(info, passes[k..], i, sleepTime, offset, ret);
      sleeps := sleeps + slept;
      invocations := invocations + invoked;
      if done.Some? {
        outcome := done.value;
        PrependPrepend(before, started, slept, invoked, SubmitTrace(outcome, [], []));
        assert slept + [] == slept && invoked + [] == invoked;
        assert sleeps + [] == sleeps && invocations + [] == invocations;
        return;
      }
      PrependPrepend(before, started, slept, invoked, SubmitFrom(info, passes[k + 1..], i, sleepTime, offset, ret, true));
      k := k + 1;
    }
    outcome := Unfinished;
    assert sleeps + [] == sleeps && invocations + [] == invocations;
  }

  // ---------------------------------------------------------------------------------------
  // Properties of the retry loop

  /** The sleep before a turn with attempt number `i`: 2 s before the second attempt, then
      doubling up to 16 s before the fifth. */
  function Backoff(i: int): int {
    if i <= 2 then 2000 else if i == 3 then 4000 else if i == 4 then 8000 else 16000
  }

  /** The attempt number of every turn the loop takes, from attempt `i` on: it stays on a
      restart and goes up by one on a counted attempt, and the loop stops after a submission
      or the fifth counted attempt. */
  function TurnAttempts(info: SubmitInfo, passes: seq<PassEnv>, i: int, offset: nat, carry: bool): (r: seq<int>)
    requires 1 <= i < 6
    ensures |r| <= |passes| && (|passes| > 0 <==> |r| > 0)
    ensures |r| > 0 ==> r[0] == i
    ensures forall j :: 0 <= j < |r| ==> i <= r[j] < 6
    ensures forall j :: 0 < j < |r| ==> r[j - 1] <= r[j] <= r[j - 1] + 1
    decreases |passes|
  {
    if |passes| == 0 then []
    else
      var off := PassOffset(info, offset);
      var next := if carry then off else offset;
      match Classify(info, passes[0], off)
      case Submitted(_) => [i]
      case Restart => [i] + TurnAttempts(info, passes[1..], i, next, carry)
      case Counted(_) => if i + 1 < 6 then [i] + TurnAttempts(info, passes[1..], i + 1, next, carry) else [i]
  }

  /** The sleeps before turns with attempt numbers `attempts`: none before a turn of the first
      attempt, Backoff of its attempt number before any other. */
  function Backoffs(attempts: seq<int>): (r: seq<int>)
    ensures |r| <= |attempts|
    decreases |attempts|
  {
    if |attempts| == 0 then []
    else (if attempts[0] > 1 then [Backoff(attempts[0])] else []) + Backoffs(attempts[1..])
  }

  /** The sleep before every turn is the backoff of that turn's attempt number: 2 s before the
      second attempt, 4, 8 and 16 s before the third, fourth and fifth, and none before a turn
      of the first. */
  lemma {:induction false} SleepsFollowBackoff(info: SubmitInfo, passes: seq<PassEnv>, i: int, offset: nat,
                                               ret: string, carry: bool)
    requires 1 <= i < 6
    ensures SubmitFrom(info, passes, i, Backoff(i), offset, ret, carry).sleeps ==
            Backoffs(TurnAttempts(info, passes, i, offset, carry))
    decreases |passes|
  {
    if |passes| > 0 {
      var off := PassOffset(info, offset);
      var nextOffset := if carry then off else offset;
      var slept := if i > 1 then [Backoff(i)] else [];
      SubmitTurn(info, passes, i, Backoff(i), offset, ret, carry);
      match Classify(info, passes[0], off)
      case Submitted(_) =>
        assert slept + [] == slept;
        assert Backoffs([i]) == slept + Backoffs([]);
      case Restart =>
        SleepsFollowBackoff(info, passes[1..], i, nextOffset, ret, carry);
        var r := TurnAttempts(info, passes[1..], i, nextOffset, carry);
        assert ([i] + r)[1..] == r;
      case Counted(err) =>
        if i + 1 < 6 {
          assert (if i + 1 > 2 then Backoff(i) * 2 else Backoff(i)) == Backoff(i + 1);
          var log := ret + AttemptLine(i, err);
          SleepsFollowBackoff(info, passes[1..], i + 1, nextOffset, log, carry);
          var r := TurnAttempts(info, passes[1..], i + 1, nextOffset, carry);
          assert ([i] + r)[1..] == r;
        } else {
          assert slept + [] == slept;
          assert Backoffs([i]) == slept + Backoffs([]);
        }
    }
  }

  /** The offset the `j`-th turn from `offset` on reads at, the offset carrying over. */
  function ReadOffset(info: SubmitInfo, offset: nat, j: nat): nat {
    if Validate(info).None? && info.isArray then offset + 6 * (j + 1) else offset
  }

  /** The log lines of counted attempts `i`, `i` + 1, ... with the messages `errs`. */
  function AttemptLines(i: int, errs: seq<string>): string
    decreases |errs|
  {
    if |errs| == 0 then "" else AttemptLine(i, errs[0]) + AttemptLines(i + 1, errs[1..])
  }

  /** The commands the first `n` of the turns `ps` start, in order. */
  function Invocations(info: SubmitInfo, ps: seq<PassEnv>, n: nat): seq<seq<string>>
    decreases n
  {
    if n == 0 || |ps| == 0 then [] else Invocation(info, ps[0]) + Invocations(info, ps[1..], n - 1)
  }

  /** The attempt numbers from `i` up to, not including, `n`. */
  function Range(i: int, n: int): (r: seq<int>)
    ensures |r| == if i < n then n - i else 0
    decreases n - i
  {
    if i >= n then [] else [i] + Range(i + 1, n)
  }

  /** A counted attempt: the log gets its line, and the loop goes on with the next attempt and
      its backoff, or returns "ERROR:" and the log after the fifth. */
  lemma CountedTurn(info: SubmitInfo, passes: seq<PassEnv>, i: int, offset: nat, ret: string, err: string)
    requires |passes| > 0 && 1 <= i < 6 && Classify(info, passes[0], PassOffset(info, offset)) == Counted(err)
    ensures var t := SubmitFrom(info, passes, i, Backoff(i), offset, ret, true);
            var slept := if i > 1 then [Backoff(i)] else [];
            var log := ret + AttemptLine(i, err);
            if i + 1 < 6 then
              t == Prepend(slept, Invocation(info, passes[0]),
                           SubmitFrom(info, passes[1..], i + 1, Backoff(i + 1), PassOffset(info, offset), log, true))
            else t == SubmitTrace(Returned("ERROR:" + log), slept, Invocation(info, passes[0]))
  {
    SubmitTurn(info, passes, i, Backoff(i), offset, ret, true);
    BackoffDoubles(i);
    var slept := if i > 1 then [Backoff(i)] else [];
    assert slept + [] == slept && Invocation(info, passes[0]) + [] == Invocation(info, passes[0]);
  }

  /** The loop's sleep update takes Backoff of one attempt to Backoff of the next. */
  lemma BackoffDoubles(i: int)
    requires 1 <= i
    ensures (if i + 1 > 2 then Backoff(i) * 2 else Backoff(i)) == Backoff(i + 1) || i + 1 >= 6
  {
  }

  /** A counted turn in front of a loop that ends in "ERROR:": the turn's line joins the log. */
  lemma FinishLog(t: SubmitTrace, rest: SubmitTrace, slept: seq<int>, inv: seq<seq<string>>, ret: string,
                  line: string, lines: string, sleeps: seq<int>, invs: seq<seq<string>>)
    requires t == Prepend(slept, inv, rest)
    requires rest == SubmitTrace(Returned("ERROR:" + ((ret + line) + lines)), sleeps, invs)
    ensures t == SubmitTrace(Returned("ERROR:" + (ret + (line + lines))), slept + sleeps, inv + invs)
  {
    assert (ret + line) + lines == ret + (line + lines);
  }

  lemma FinishLast(t: SubmitTrace, slept: seq<int>, inv: seq<seq<string>>, ret: string, line: string)
    requires t == SubmitTrace(Returned("ERROR:" + (ret + line)), slept, inv)
    ensures t == SubmitTrace(Returned("ERROR:" + (ret + (line + ""))), slept + [], inv + [])
  {
    assert line + "" == line && slept + [] == slept && inv + [] == inv;
  }

  /** From attempt `i` on, turns that are all counted attempts, whatever made them counted
      (a failed check, a start that throws, an offset past the line, or an answer without an
      id), end the loop after the fifth with "ERROR:", the log and one line per attempt. */
  lemma {:induction false} CountedToTheEnd(info: SubmitInfo, passes: seq<PassEnv>, i: int, offset: nat, ret: string,
                                           errs: seq<string>)
    requires 1 <= i < 6 && |errs| == 6 - i && |passes| >= |errs|
    requires forall j :: 0 <= j < |errs| ==> Classify(info, passes[j], ReadOffset(info, offset, j)) == Counted(errs[j])
    ensures SubmitFrom(info, passes, i, Backoff(i), offset, ret, true) ==
            SubmitTrace(Returned("ERROR:" + (ret + AttemptLines(i, errs))), Backoffs(Range(i, 6)),
                        Invocations(info, passes, 6 - i))
    decreases 6 - i
  {
    var off := PassOffset(info, offset);
    assert ReadOffset(info, offset, 0) == off;
    CountedTurn(info, passes, i, offset, ret, errs[0]);
    var slept := if i > 1 then [Backoff(i)] else [];
    var inv := Invocation(info, passes[0]);
    var line := AttemptLine(i, errs[0]);
    BackoffsOfRange(i, 6);
    InvocationsCons(info, passes, 6 - i);
    if i + 1 < 6 {
      forall j | 0 <= j < |errs[1..]|
        ensures Classify(info, passes[1..][j], ReadOffset(info, off, j)) == Counted(errs[1..][j])
      {
        assert ReadOffset(info, off, j) == ReadOffset(info, offset, j + 1);
      }
      CountedToTheEnd(info, passes[1..], i + 1, off, ret + line, errs[1..]);
      FinishLog(SubmitFrom(info, passes, i, Backoff(i), offset, ret, true),
                SubmitFrom(info, passes[1..], i + 1, Backoff(i + 1), off, ret + line, true),
                slept, inv, ret, line, AttemptLines(i + 1, errs[1..]), Backoffs(Range(i + 1, 6)),
                Invocations(info, passes[1..], 5 - i));
    } else {
      assert AttemptLines(i, errs) == line + AttemptLines(i + 1, errs[1..]) && AttemptLines(i + 1, errs[1..]) == "";
      assert Invocations(info, passes[1..], 0) == [] && Backoffs(Range(i + 1, 6)) == [];
      FinishLast(SubmitFrom(info, passes, i, Backoff(i), offset, ret, true), slept, inv, ret, line);
    }
  }

  lemma BackoffsOfRange(i: int, n: int)
    requires i < n
    ensures Backoffs(Range(i, n)) == (if i > 1 then [Backoff(i)] else []) + Backoffs(Range(i + 1, n))
  {
    assert Range(i, n)[1..] == Range(i + 1, n);
  }

  lemma InvocationsCons(info: SubmitInfo, ps: seq<PassEnv>, n: nat)
    requires n > 0 && |ps| > 0
    ensures Invocations(info, ps, n) == Invocation(info, ps[0]) + Invocations(info, ps[1..], n - 1)
  {
  }

  lemma BackoffsOfAttempts()
    ensures Backoffs(Range(1, 6)) == [2000, 4000, 8000, 16000]
  {
    BackoffsOfRange(1, 6);
    BackoffsOfRange(2, 6);
    BackoffsOfRange(3, 6);
    BackoffsOfRange(4, 6);
    BackoffsOfRange(5, 6);
    assert Backoffs(Range(6, 6)) == [];
  }

  lemma EmptyLogFirst(t: SubmitTrace, lines: string, sleeps: seq<int>, invs: seq<seq<string>>)
    requires t == SubmitTrace(Returned("ERROR:" + ("" + lines)), sleeps, invs)
    ensures t == SubmitTrace(Returned("ERROR:" + lines), sleeps, invs)
  {
    assert "" + lines == lines;
  }

  /** Five counted attempts in a row, whatever made each one counted, give "ERROR:" and the
      five attempt lines, after sleeps of 2, 4, 8 and 16 seconds. */
  lemma FiveCountedAttempts(info: SubmitInfo, passes: seq<PassEnv>, errs: seq<string>)
    requires |errs| == 5 && |passes| >= 5
    requires forall j :: 0 <= j < 5 ==> Classify(info, passes[j], ReadOffset(info, FIRST_OFFSET, j)) == Counted(errs[j])
    ensures AsWrittenSubmit(info, passes) ==
            SubmitTrace(Returned("ERROR:" + AttemptLines(1, errs)), [2000, 4000, 8000, 16000],
                        Invocations(info, passes, 5))
  {
    assert Backoff(1) == 2000;
    CountedToTheEnd(info, passes, 1, FIRST_OFFSET, "", errs);
    BackoffsOfAttempts();
    EmptyLogFirst(AsWrittenSubmit(info, passes), AttemptLines(1, errs), Backoffs(Range(1, 6)), Invocations(info, passes, 5));
  }

  /** Requests that fail the checks give five attempts, each with its internal-error line,
      with 2, 4, 8 and 16 seconds between them, and start no process; later turns are
      never reached. */
  lemma FailedChecksGiveFiveAttempts(info: SubmitInfo, passes: seq<PassEnv>)
    requires Validate(info).Some? && |passes| >= 5
    ensures var m := Validate(info).value;
            AsWrittenSubmit(info, passes) ==
            SubmitTrace(Returned("ERROR:" + ("" + AttemptLine(1, InternalError(passes[0].date, m))
                                          + AttemptLine(2, InternalError(passes[1].date, m))
                                          + AttemptLine(3, InternalError(passes[2].date, m))
                                          + AttemptLine(4, InternalError(passes[3].date, m))
                                          + AttemptLine(5, InternalError(passes[4].date, m)))),
                        [2000, 4000, 8000, 16000], [])
  {
    var m := Validate(info).value;
    var ps := passes;
    assert ps[1..][1..][1..][1..][0] == passes[4];
    SubmitTurn(info, ps, 1, 2000, FIRST_OFFSET, "", true);
    var l1 := "" + AttemptLine(1, InternalError(passes[0].date, m));
    SubmitTurn(info, ps[1..], 2, 2000, FIRST_OFFSET, l1, true);
    var l2 := l1 + AttemptLine(2, InternalError(passes[1].date, m));
    SubmitTurn(info, ps[1..][1..], 3, 4000, FIRST_OFFSET, l2, true);
    var l3 := l2 + AttemptLine(3, InternalError(passes[2].date, m));
    SubmitTurn(info, ps[1..][1..][1..], 4, 8000, FIRST_OFFSET, l3, true);
    var l4 := l3 + AttemptLine(4, InternalError(passes[3].date, m));
    SubmitTurn(info, ps[1..][1..][1..][1..], 5, 16000, FIRST_OFFSET, l4, true);
  }

  /** A turn that sends the loop round again, because the master is down or because qsub
      reports the service unreachable, changes nothing that follows: the attempt number, the
      sleep and the log stay, and for a single submission, or with the offset set afresh,
      the outcome is the one the remaining turns give. */
  lemma RestartKeepsOutcome(info: SubmitInfo, p: PassEnv, rest: seq<PassEnv>, i: int, sleepTime: int,
                            offset: nat, ret: string, carry: bool)
    requires Classify(info, p, PassOffset(info, offset)).Restart?
    ensures var next := if carry then PassOffset(info, offset) else offset;
            SubmitFrom(info, [p] + rest, i, sleepTime, offset, ret, carry) ==
            Prepend(if i > 1 then [sleepTime] else [], Invocation(info, p),
                    SubmitFrom(info, rest, i, sleepTime, next, ret, carry))
    ensures !carry || !info.isArray ==>
              SubmitFrom(info, [p] + rest, i, sleepTime, offset, ret, carry).outcome ==
              SubmitFrom(info, rest, i, sleepTime, offset, ret, carry).outcome
  {
    assert ([p] + rest)[1..] == rest;
    SubmitTurn(info, [p] + rest, i, sleepTime, offset, ret, carry);
  }

  /** The standard answer to a single submission, "Your job <id> (...) has been submitted",
      gives the id on the first turn, after one start of the command and no sleep. */
  lemma SingleSubmissionId(info: SubmitInfo, p: PassEnv, rest: seq<PassEnv>, id: string, tail: string, more: string)
    requires Validate(info).None? && !info.isArray && p.masterAlive && p.run.Started?
    requires var err := Buffer(p.run.stderr, ERR_BUFFER);
             !Contains(err, CONNECT_FAILURE) && !Contains(err, READ_FAILURE)
    requires p.run.stdout == "Your job " + id + " " + tail + "\n" + more
    requires ' ' !in id && '\n' !in id && '\n' !in tail && |"Your job " + id + " " + tail| < OUT_BUFFER
    ensures AsWrittenSubmit(info, [p] + rest) == SubmitTrace(Returned(id), [], [CommandTokens(info)])
  {
    var line := "Your job " + id + " " + tail;
    assert line[..|JOB_PREFIX|] == JOB_PREFIX;
    assert line[FIRST_OFFSET..] == id + " " + tail;
    assert '\n' !in "Your job ";
    JobIdOfLine(line, more, FIRST_OFFSET, id, tail);
  }

  /** The standard answer to an array submission, "Your job-array <id> (...) has been
      submitted", read at offset 15. */
  lemma ArrayAnswerId(offset: nat, id: string, tail: string, more: string)
    requires ' ' !in id && '\n' !in id && '\n' !in tail && |"Your job-array " + id + " " + tail| < OUT_BUFFER
    requires offset == 15 || (offset == 21 && |id| >= 6)
    ensures JobId(Buffer("Your job-array " + id + " " + tail + "\n" + more, OUT_BUFFER), offset) ==
            Found(id[offset - 15..])
  {
    ArrayPrefix();
    AnswerIdAt("Your job-array ", offset, id, tail, more);
  }

  lemma ArrayPrefix()
    ensures StartsWith("Your job-array ", JOB_PREFIX) && '\n' !in "Your job-array " && |"Your job-array "| == 15
  {
    assert "Your job-array "[..|JOB_PREFIX|] == JOB_PREFIX;
  }

  /** An answer line that starts with `pre`, fifteen characters long, and continues with the
      id and a space gives the id read at `offset`. */
  lemma AnswerIdAt(pre: string, offset: nat, id: string, tail: string, more: string)
    requires StartsWith(pre, JOB_PREFIX) && '\n' !in pre && |pre| == 15
    requires ' ' !in id && '\n' !in id && '\n' !in tail && |pre + id + " " + tail| < OUT_BUFFER
    requires offset == 15 || (offset == 21 && |id| >= 6)
    ensures JobId(Buffer(pre + id + " " + tail + "\n" + more, OUT_BUFFER), offset) == Found(id[offset - 15..])
  {
    var line := pre + id + " " + tail;
    assert line[..|JOB_PREFIX|] == pre[..|JOB_PREFIX|];
    assert line[offset..] == id[offset - 15..] + " " + tail;
    JobIdOfLine(line, more, offset, id[offset - 15..], tail);
  }

  /** A started turn that gets the standard array answer returns the id read at `offset`. */
  lemma ArrayAnswerKind(info: SubmitInfo, p: PassEnv, offset: nat, id: string, tail: string, more: string)
    requires Validate(info).None? && p.masterAlive && p.run.Started?
    requires var err := Buffer(p.run.stderr, ERR_BUFFER);
             !Contains(err, CONNECT_FAILURE) && !Contains(err, READ_FAILURE)
    requires p.run.stdout == "Your job-array " + id + " " + tail + "\n" + more
    requires ' ' !in id && '\n' !in id && '\n' !in tail && |"Your job-array " + id + " " + tail| < OUT_BUFFER
    requires offset == 15 || (offset == 21 && |id| >= 6)
    ensures Classify(info, p, offset) == Submitted(id[offset - 15..])
  {
    ArrayAnswerId(offset, id, tail, more);
  }

  /** The standard answer to an array submission gives the id on the first turn. */
  lemma ArraySubmissionId(info: SubmitInfo, p: PassEnv, rest: seq<PassEnv>, id: string, tail: string, more: string)
    requires Validate(info).None? && info.isArray && p.masterAlive && p.run.Started?
    requires var err := Buffer(p.run.stderr, ERR_BUFFER);
             !Contains(err, CONNECT_FAILURE) && !Contains(err, READ_FAILURE)
    requires p.run.stdout == "Your job-array " + id + " " + tail + "\n" + more
    requires ' ' !in id && '\n' !in id && '\n' !in tail && |"Your job-array " + id + " " + tail| < OUT_BUFFER
    ensures AsWrittenSubmit(info, [p] + rest) == SubmitTrace(Returned(id), [], [CommandTokens(info)])
  {
    ArrayAnswerKind(info, p, 15, id, tail, more);
    assert id[0..] == id;
    SubmitTurn(info, [p] + rest, 1, 2000, FIRST_OFFSET, "", true);
  }

  lemma DropFirst<T>(a: T, b: T, rest: seq<T>)
    ensures ([a, b] + rest)[1..] == [b] + rest
  {
  }

  /** An array submission whose first turn finds the master down returns, on the second
      turn, the id the answer gives at the offset that turn reads at: 21 as written, where
      the offset carries over, and 15 when it is set afresh. */
  lemma RestartThenAnswer(info: SubmitInfo, down: PassEnv, p: PassEnv, rest: seq<PassEnv>, carry: bool,
                          x: string)
    requires Validate(info).None? && info.isArray && !down.masterAlive
    requires Classify(info, p, if carry then 21 else 15) == Submitted(x)
    ensures SubmitFrom(info, [down, p] + rest, 1, 2000, FIRST_OFFSET, "", carry) ==
            SubmitTrace(Returned(x), [], [CommandTokens(info)])
  {
    var passes := [down, p] + rest;
    DropFirst(down, p, rest);
    assert Classify(info, down, 15) == Restart;
    SubmitTurn(info, passes, 1, 2000, FIRST_OFFSET, "", carry);
    SubmitTurn(info, passes[1..], 1, 2000, if carry then 15 else FIRST_OFFSET, "", carry);
    assert [] + [CommandTokens(info)] == [CommandTokens(info)];
  }

  /** As written: an array submission whose first turn finds the master down, and whose
      second gets the standard answer, returns the id less its first six characters, because
      the second turn reads at offset 21. */
  lemma ArrayRetryAsWritten(info: SubmitInfo, down: PassEnv, p: PassEnv, rest: seq<PassEnv>, id: string,
                            tail: string, more: string)
    requires Validate(info).None? && info.isArray && !down.masterAlive && p.masterAlive && p.run.Started?
    requires var err := Buffer(p.run.stderr, ERR_BUFFER);
             !Contains(err, CONNECT_FAILURE) && !Contains(err, READ_FAILURE)
    requires p.run.stdout == "Your job-array " + id + " " + tail + "\n" + more
    requires ' ' !in id && '\n' !in id && '\n' !in tail && |"Your job-array " + id + " " + tail| < OUT_BUFFER
    requires |id| >= 6
    ensures AsWrittenSubmit(info, [down, p] + rest) == SubmitTrace(Returned(id[6..]), [], [CommandTokens(info)])
    ensures id[6..] != id
  {
    ArrayAnswerKind(info, p, 21, id, tail, more);
    RestartThenAnswer(info, down, p, rest, true, id[6..]);
    assert |id[6..]| < |id|;
  }

  /** Corrected: the same turns give the whole id when every turn starts again from offset 9. */
  lemma ArrayRetryCorrected(info: SubmitInfo, down: PassEnv, p: PassEnv, rest: seq<PassEnv>, id: string,
                            tail: string, more: string)
    requires Validate(info).None? && info.isArray && !down.masterAlive && p.masterAlive && p.run.Started?
    requires var err := Buffer(p.run.stderr, ERR_BUFFER);
             !Contains(err, CONNECT_FAILURE) && !Contains(err, READ_FAILURE)
    requires p.run.stdout == "Your job-array " + id + " " + tail + "\n" + more
    requires ' ' !in id && '\n' !in id && '\n' !in tail && |"Your job-array " + id + " " + tail| < OUT_BUFFER
    ensures CorrectedSubmit(info, [down, p] + rest) == SubmitTrace(Returned(id), [], [CommandTokens(info)])
  {
    ArrayAnswerKind(info, p, 15, id, tail, more);
    assert id[0..] == id;
    RestartThenAnswer(info, down, p, rest, false, id);
  }
}
