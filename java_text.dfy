/**
 * The slice of java.lang.String, java.util.StringTokenizer, java.lang.Integer/Long and
 * java.lang.Boolean that the plug-in relies on, stated over `string`.
 * Case folding and digit recognition are ASCII only.
 */
module JavaText {
  import opened Optional

  // Ranges of Java's int and long.
  const INT_MIN: int := -0x8000_0000
  const INT_MAX: int := 0x7fff_ffff
  const LONG_MIN: int := -0x8000_0000_0000_0000
  const LONG_MAX: int := 0x7fff_ffff_ffff_ffff

  /** The delimiters of a StringTokenizer built without a delimiter argument. */
  const Whitespace: set<char> := {' ', '\t', '\n', '\r', '\U{C}'}

  /** What StringBuilder.append and string concatenation write for a possibly-null String. */
  function JavaStr(s: Option<string>): (r: string)
    ensures s.Some? ==> r == s.value
    ensures s.None? ==> r == "null"
  {
    s.GetOr("null")
  }

  predicate StartsWith(s: string, prefix: string) {
    |prefix| <= |s| && s[..|prefix|] == prefix
  }

  predicate EndsWith(s: string, suffix: string) {
    |suffix| <= |s| && s[|s| - |suffix|..] == suffix
  }

  lemma EndsWithConcat(a: string, b: string)
    ensures EndsWith(a + b, b)
  {
    assert (a + b)[|a + b| - |b|..] == b;
  }

  lemma EndsWithExtend(a: string, b: string, suffix: string)
    requires EndsWith(b, suffix)
    ensures EndsWith(a + b, suffix)
  {
    assert (a + b)[|a + b| - |suffix|..] == b[|b| - |suffix|..];
  }

  /** String.contains: `t` occurs somewhere in `s`. */
  predicate Contains(s: string, t: string)
    decreases |s|
  {
    StartsWith(s, t) || (|s| > 0 && Contains(s[1..], t))
  }

  /** String.indexOf(char): the first position of `c`, or -1 when there is none. */
  function IndexOf(s: string, c: char): (r: int)
    ensures -1 <= r < |s|
    ensures r == -1 <==> c !in s
    ensures r >= 0 ==> s[r] == c && c !in s[..r]
    decreases |s|
  {
    if |s| == 0 then -1
    else if s[0] == c then 0
    else
      var k := IndexOf(s[1..], c);
      if k == -1 then -1
      else
        assert s[..k + 1] == [s[0]] + s[1..][..k];
        k + 1
  }

  /** The first `c` of `a + [c] + b` is the one after `a` when `a` has none. */
  lemma {:induction false} IndexOfAfter(a: string, c: char, b: string)
    requires c !in a
    ensures IndexOf(a + [c] + b, c) == |a|
    decreases |a|
  {
    if |a| > 0 {
      assert (a + [c] + b)[1..] == a[1..] + [c] + b;
      IndexOfAfter(a[1..], c, b);
    }
  }

  // ---------------------------------------------------------------------------------------
  // String.trim

  /** The characters String.trim strips: everything at or below U+0020. */
  predicate Blank(c: char) {
    c <= ' '
  }

  function TrimStart(s: string): (r: string)
    ensures |r| <= |s| && r == s[|s| - |r|..]
    ensures r == [] || !Blank(r[0])
    ensures forall i :: 0 <= i < |s| - |r| ==> Blank(s[i])
    decreases |s|
  {
    if |s| > 0 && Blank(s[0]) then TrimStart(s[1..]) else s
  }

  function TrimEnd(s: string): (r: string)
    ensures |r| <= |s| && r == s[..|r|]
    ensures r == [] || !Blank(r[|r| - 1])
    ensures forall i :: |r| <= i < |s| ==> Blank(s[i])
    decreases |s|
  {
    if |s| > 0 && Blank(s[|s| - 1]) then TrimEnd(s[..|s| - 1]) else s
  }

  /** String.trim: `s` less its leading and trailing characters `<= ' '`. */
  function Trim(s: string): (r: string)
    ensures r == [] || (!Blank(r[0]) && !Blank(r[|r| - 1]))
    ensures |r| <= |s|
    ensures exists i :: StrippedAt(s, r, i)
  {
    TrimStripped(s);
    TrimEnd(TrimStart(s))
  }

  lemma TrimStripped(s: string)
    ensures StrippedAt(s, TrimEnd(TrimStart(s)), |s| - |TrimStart(s)|)
  {
    StrippedOf(s, TrimStart(s), TrimEnd(TrimStart(s)));
  }

  lemma StrippedOf(s: string, t: string, r: string)
    requires |t| <= |s| && t == s[|s| - |t|..] && forall k :: 0 <= k < |s| - |t| ==> Blank(s[k])
    requires |r| <= |t| && r == t[..|r|] && forall k :: |r| <= k < |t| ==> Blank(t[k])
    ensures StrippedAt(s, r, |s| - |t|)
  {
    var i := |s| - |t|;
    assert r == s[i..i + |r|];
    forall k | i + |r| <= k < |s| ensures Blank(s[k]) {
      assert s[k] == t[k - i];
    }
  }

  /** `r` is `s` less its first `i` characters and its last |s| - i - |r|, all of them `<= ' '`. */
  predicate StrippedAt(s: string, r: string, i: int) {
    0 <= i <= |s| - |r| && r == s[i..i + |r|] &&
    (forall k :: 0 <= k < i ==> Blank(s[k])) && (forall k :: i + |r| <= k < |s| ==> Blank(s[k]))
  }

  // ---------------------------------------------------------------------------------------
  // Splitting

  /** The pieces of `s` between delimiter characters, empty pieces included. */
  function Pieces(s: string, delims: set<char>): (r: seq<string>)
    ensures |r| >= 1
    decreases |s|
  {
    if |s| == 0 then [""]
    else
      var rest := Pieces(s[1..], delims);
      if s[0] in delims then [""] + rest
      else [[s[0]] + rest[0]] + rest[1..]
  }

  /** The non-empty elements of `ps`, in order. */
  function NonEmpty(ps: seq<string>): (r: seq<string>)
    ensures |r| <= |ps|
    ensures forall i :: 0 <= i < |r| ==> r[i] != ""
  {
    if |ps| == 0 then []
    else if ps[0] == "" then NonEmpty(ps[1..])
    else [ps[0]] + NonEmpty(ps[1..])
  }

  /** The tokens a StringTokenizer over `s` with delimiter set `delims` hands out: the maximal
      runs of non-delimiter characters. */
  function Tokens(s: string, delims: set<char>): seq<string> {
    NonEmpty(Pieces(s, delims))
  }

  function DropTrailingEmpty(ps: seq<string>): (r: seq<string>)
    ensures |r| <= |ps| && r == ps[..|r|]
    ensures r == [] || r[|r| - 1] != ""
    decreases |ps|
  {
    if |ps| > 0 && ps[|ps| - 1] == "" then DropTrailingEmpty(ps[..|ps| - 1]) else ps
  }

  /** String.split with a one-character pattern: the pieces, less the trailing empty ones;
      a string without the character comes back whole. */
  function Split(s: string, c: char): seq<string> {
    var ps := Pieces(s, {c});
    if |ps| == 1 then ps else DropTrailingEmpty(ps)
  }

  /** `parts` with `sep` between consecutive elements. */
  function Join(sep: string, parts: seq<string>): string
    decreases |parts|
  {
    if |parts| == 0 then ""
    else if |parts| == 1 then parts[0]
    else parts[0] + sep + Join(sep, parts[1..])
  }

  /** A token that survives StringTokenizer unchanged: non-empty, no delimiter inside. */
  predicate IsWord(w: string, delims: set<char>) {
    w != "" && forall i :: 0 <= i < |w| ==> w[i] !in delims
  }

  lemma {:induction false} PiecesAppend(a: string, c: char, b: string, delims: set<char>)
    requires c in delims
    ensures Pieces(a + [c] + b, delims) == Pieces(a, delims) + Pieces(b, delims)
    decreases |a|
  {
    if |a| == 0 {
      assert a + [c] + b == [c] + b;
      assert ([c] + b)[1..] == b;
    } else {
      assert (a + [c] + b)[1..] == a[1..] + [c] + b;
      PiecesAppend(a[1..], c, b, delims);
    }
  }

  lemma {:induction false} PiecesOfWord(w: string, delims: set<char>)
    requires forall i :: 0 <= i < |w| ==> w[i] !in delims
    ensures Pieces(w, delims) == [w]
    decreases |w|
  {
    if |w| > 0 {
      PiecesOfWord(w[1..], delims);
      assert [w[0]] + w[1..] == w;
    }
  }

  lemma {:induction false} NonEmptyAppend(x: seq<string>, y: seq<string>)
    ensures NonEmpty(x + y) == NonEmpty(x) + NonEmpty(y)
    decreases |x|
  {
    if |x| > 0 {
      assert (x + y)[1..] == x[1..] + y;
      NonEmptyAppend(x[1..], y);
    } else {
      assert x + y == y;
    }
  }

  /** Tokenising two strings joined by a delimiter gives the tokens of each, one after the other. */
  lemma TokensAppend(a: string, c: char, b: string, delims: set<char>)
    requires c in delims
    ensures Tokens(a + [c] + b, delims) == Tokens(a, delims) + Tokens(b, delims)
  {
    PiecesAppend(a, c, b, delims);
    NonEmptyAppend(Pieces(a, delims), Pieces(b, delims));
  }

  lemma TokensOfWord(w: string, delims: set<char>)
    requires IsWord(w, delims)
    ensures Tokens(w, delims) == [w]
  {
    PiecesOfWord(w, delims);
  }

  /** A fixed word followed by a space and more text. */
  lemma WordThenSpace(w: string, b: string)
    requires IsWord(w, Whitespace)
    ensures Tokens(w + " " + b, Whitespace) == [w] + Tokens(b, Whitespace)
  {
    TokensAppend(w, ' ', b, Whitespace);
    TokensOfWord(w, Whitespace);
  }

  /** Words joined by a delimiter tokenise back to the same words. */
  lemma {:induction false} TokensOfJoin(parts: seq<string>, c: char, delims: set<char>)
    requires c in delims
    requires forall i :: 0 <= i < |parts| ==> IsWord(parts[i], delims)
    ensures Tokens(Join([c], parts), delims) == parts
    decreases |parts|
  {
    if |parts| == 1 {
      TokensOfWord(parts[0], delims);
    } else if |parts| > 1 {
      TokensOfJoin(parts[1..], c, delims);
      TokensOfWord(parts[0], delims);
      TokensAppend(parts[0], c, Join([c], parts[1..]), delims);
      assert parts == [parts[0]] + parts[1..];
    }
  }

  // ---------------------------------------------------------------------------------------
  // Decimal numbers

  predicate IsDigit(c: char) {
    '0' <= c <= '9'
  }

  predicate AllDigits(s: string) {
    forall i :: 0 <= i < |s| ==> IsDigit(s[i])
  }

  function DigitChar(d: nat): (c: char)
    requires d < 10
    ensures IsDigit(c)
  {
    (('0' as int) + d) as char
  }

  /** Long.toString / Integer.toString of a non-negative value. */
  function NatToString(n: nat): (r: string)
    ensures |r| >= 1 && AllDigits(r)
    decreases n
  {
    if n < 10 then [DigitChar(n)] else NatToString(n / 10) + [DigitChar(n % 10)]
  }

  /** String.valueOf(int), String.valueOf(long) and StringBuilder.append of an integer. */
  function IntToString(n: int): (r: string)
    ensures |r| >= 1
    ensures n >= 0 <==> IsDigit(r[0])
  {
    if n < 0 then "-" + NatToString(-n) else NatToString(n)
  }

  /** The value of a string of decimal digits. */
  function DigitsValue(s: string): nat
    requires AllDigits(s)
    decreases |s|
  {
    if |s| == 0 then 0
    else DigitsValue(s[..|s| - 1]) * 10 + (s[|s| - 1] as int - '0' as int)
  }

  lemma {:induction false} DigitsValueOfNatToString(n: nat)
    ensures DigitsValue(NatToString(n)) == n
    decreases n
  {
    if n >= 10 {
      var s := NatToString(n);
      assert s[..|s| - 1] == NatToString(n / 10);
      DigitsValueOfNatToString(n / 10);
    }
  }

  /** Integer.parseInt / Long.parseLong with bounds [lo, hi]: an optional sign followed by at
      least one digit, whose value fits. None stands for NumberFormatException. */
  function ParseInteger(s: string, lo: int, hi: int): (r: Option<int>)
    ensures r.Some? ==> lo <= r.value <= hi
    ensures r.Some? ==> |s| > 0 && (IsDigit(s[0]) || s[0] == '-' || s[0] == '+')
  {
    if |s| == 0 then None
    else
      var digits := if s[0] == '-' || s[0] == '+' then s[1..] else s;
      if |digits| == 0 || !AllDigits(digits) then None
      else
        var v: int := if s[0] == '-' then -(DigitsValue(digits) as int) else DigitsValue(digits);
        if lo <= v <= hi then Some(v) else None
  }

  function ParseInt(s: string): Option<int> {
    ParseInteger(s, INT_MIN, INT_MAX)
  }

  function ParseLong(s: string): Option<int> {
    ParseInteger(s, LONG_MIN, LONG_MAX)
  }

  /** The value of the digits `d` after the sign `sign`. */
  function SignedValue(sign: string, d: string): int
    requires AllDigits(d)
  {
    if sign == "-" then -(DigitsValue(d) as int) else DigitsValue(d)
  }

  /** A sign ("", "+" or "-") then at least one digit parses exactly when its value is within
      the bounds, to that value. */
  lemma ParseIntegerOfSignedDigits(sign: string, d: string, lo: int, hi: int)
    requires sign == "" || sign == "+" || sign == "-"
    requires |d| > 0 && AllDigits(d)
    ensures ParseInteger(sign + d, lo, hi) ==
            if lo <= SignedValue(sign, d) <= hi then Some(SignedValue(sign, d)) else None
  {
    var s := sign + d;
    if sign == "" {
      assert s == d;
      assert IsDigit(d[0]);
    } else {
      assert s[0] == sign[0] && s[1..] == d;
    }
  }

  /** Whatever parses is a sign ("", "+" or "-") and at least one digit, and its value is what
      those digits say; so any other text raises NumberFormatException. */
  lemma ParsedIsSignedDigits(s: string, lo: int, hi: int)
    requires ParseInteger(s, lo, hi).Some?
    ensures exists sign, d :: (sign == "" || sign == "+" || sign == "-") && |d| > 0 && AllDigits(d) &&
              s == sign + d && ParseInteger(s, lo, hi).value == SignedValue(sign, d)
  {
    if s[0] == '-' || s[0] == '+' {
      var sign, d := s[..1], s[1..];
      assert s == sign + d;
      assert sign == "-" || sign == "+";
      assert ParseInteger(s, lo, hi).value == SignedValue(sign, d);
    } else {
      assert s == "" + s;
      assert ParseInteger(s, lo, hi).value == SignedValue("", s);
    }
  }

  /** Printing an integer and parsing it back gives the integer again. */
  lemma ParseIntegerOfIntToString(n: int, lo: int, hi: int)
    requires lo <= n <= hi
    ensures ParseInteger(IntToString(n), lo, hi) == Some(n)
  {
    var s := IntToString(n);
    if n < 0 {
      var d := NatToString(-n);
      DigitsValueOfNatToString(-n);
      assert s == "-" + d;
      assert s[0] == '-' && s[1..] == d;
      assert AllDigits(d) && |d| > 0;
    } else {
      var d := NatToString(n);
      DigitsValueOfNatToString(n);
      assert s == d && IsDigit(d[0]);
    }
  }

  // ---------------------------------------------------------------------------------------
  // Case

  function LowerChar(c: char): char {
    if 'A' <= c <= 'Z' then ((c as int) + 32) as char else c
  }

  /** String.toLowerCase (ASCII letters only). */
  function ToLower(s: string): (r: string)
    ensures |r| == |s|
    ensures forall i :: 0 <= i < |s| ==> r[i] == LowerChar(s[i])
  {
    seq(|s|, i requires 0 <= i < |s| => LowerChar(s[i]))
  }

  /** String.equalsIgnoreCase (ASCII letters only). */
  predicate EqualsIgnoreCase(a: string, b: string) {
    |a| == |b| && forall i :: 0 <= i < |a| ==> LowerChar(a[i]) == LowerChar(b[i])
  }

  /** Boolean.parseBoolean: true exactly for a non-null "true" in any case. */
  predicate ParseBoolean(s: Option<string>) {
    s.Some? && EqualsIgnoreCase(s.value, "true")
  }
}
