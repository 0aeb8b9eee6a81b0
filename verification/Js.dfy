/**
 * JavaScript value and string semantics that the rest of the model relies on.
 *
 * A JavaScript string is modelled as a Dafny `string`; each character stands
 * for one UTF-16 code unit. Optional values (`undefined`) are `Option`s and
 * the outcome of a call that may throw is a `Result` whose failure carries
 * the thrown value.
 */
module Js {

  datatype Option<+T> = None | Some(value: T) {
    /** The `??` operator: the value when present, the default otherwise. */
    function GetOr(default: T): T {
      match this
      case Some(v) => v
      case None => default
    }
  }

  datatype Result<+T, +E> = Ok(value: T) | Fail(error: E)

  /** What a callee throws: an `Error` object with its message, or some other value. */
  datatype Thrown = ErrorObject(message: string) | NonError

  /**
   * What `fetch` followed by `response.json()` yields: a thrown error, a
   * response whose `ok` is false, or the parsed body of an ok response.
   */
  datatype Fetched<+T> = FetchThrew(thrown: Thrown) | NotOk(status: int, statusText: string) | OkBody(body: T)

  /** `error instanceof Error ? error.message : fallback` */
  function MessageOr(t: Thrown, fallback: string): string {
    match t
    case ErrorObject(m) => m
    case NonError => fallback
  }

  /** A string is truthy in JavaScript exactly when it is not empty. */
  predicate Truthy(s: Option<string>) {
    s.Some? && s.value != ""
  }

  /** `s || d` on an optional string. */
  function OrDefault(s: Option<string>, d: string): (r: string)
    ensures r == d || (s.Some? && r == s.value)
    ensures Truthy(s) <==> (s.Some? && r == s.value && r != "")
    ensures d != "" ==> r != ""
  {
    if Truthy(s) then s.value else d
  }

  // ---------------------------------------------------------------------
  // Characters

  /** JavaScript `WhiteSpace` and `LineTerminator`: the set matched by `\s` and removed by `trim()`. */
  predicate IsSpace(c: char) {
    c == '\t' || c == '\n' || c == '\U{B}' || c == '\U{C}' || c == '\r' || c == ' '
    || c == '\U{A0}' || c == '\U{1680}' || ('\U{2000}' <= c <= '\U{200A}')
    || c == '\U{2028}' || c == '\U{2029}' || c == '\U{202F}' || c == '\U{205F}'
    || c == '\U{3000}' || c == '\U{FEFF}'
  }

  /** The characters that `.` does not match without the `s` flag. */
  predicate IsLineTerminator(c: char) {
    c == '\n' || c == '\r' || c == '\U{2028}' || c == '\U{2029}'
  }

  predicate IsDigit(c: char) {
    '0' <= c <= '9'
  }

  predicate IsLowerLetter(c: char) {
    'a' <= c <= 'z'
  }

  /** The characters `\w` matches; `\b` sits between a word and a non-word character. */
  predicate IsWordChar(c: char) {
    IsDigit(c) || IsLowerLetter(c) || ('A' <= c <= 'Z') || c == '_'
  }

  /** Case folding as a case-insensitive regular expression applies it to ASCII patterns. */
  function Lower(c: char): (r: char)
    ensures 'A' <= c <= 'Z' ==> IsLowerLetter(r)
    ensures !('A' <= c <= 'Z') ==> r == c
  {
    if 'A' <= c <= 'Z' then (c as int + 32) as char else c
  }

  // ---------------------------------------------------------------------
  // Trimming

  function TrimStart(s: string): (r: string)
    ensures |r| <= |s|
    ensures r == [] || !IsSpace(r[0])
    ensures forall i :: 0 <= i < |s| - |r| ==> IsSpace(s[i])
  {
    if |s| > 0 && IsSpace(s[0]) then TrimStart(s[1..]) else s
  }

  function TrimEnd(s: string): (r: string)
    ensures |r| <= |s|
    ensures r == [] || !IsSpace(r[|r| - 1])
    ensures forall i :: |r| <= i < |s| ==> IsSpace(s[i])
  {
    if |s| > 0 && IsSpace(s[|s| - 1]) then TrimEnd(s[..|s| - 1]) else s
  }

  /** `trimStart` keeps a suffix. */
  lemma {:induction false} TrimStartIsSuffix(s: string)
    ensures TrimStart(s) == s[|s| - |TrimStart(s)|..]
  {
    if |s| > 0 && IsSpace(s[0]) {
      TrimStartIsSuffix(s[1..]);
      assert s[1..][|s[1..]| - |TrimStart(s[1..])|..] == s[|s| - |TrimStart(s)|..];
    }
  }

  /** `trimEnd` keeps a prefix. */
  lemma {:induction false} TrimEndIsPrefix(s: string)
    ensures TrimEnd(s) == s[..|TrimEnd(s)|]
  {
    if |s| > 0 && IsSpace(s[|s| - 1]) {
      TrimEndIsPrefix(s[..|s| - 1]);
      assert s[..|s| - 1][..|TrimEnd(s)|] == s[..|TrimEnd(s)|];
    }
  }

  /** `String.prototype.trim` */
  function Trim(s: string): (r: string)
    ensures r == [] || (!IsSpace(r[0]) && !IsSpace(r[|r| - 1]))
  {
    var t := TrimStart(s);
    TrimEndIsPrefix(t);
    assert TrimEnd(t) == [] || TrimEnd(t)[0] == t[0];
    TrimEnd(t)
  }

  /** Only white space, or nothing at all. */
  predicate IsBlank(s: string) {
    forall i :: 0 <= i < |s| ==> IsSpace(s[i])
  }

  /** The trimmed string is the part of `s` between its leading and trailing white space. */
  lemma TrimIsInfix(s: string)
    ensures exists k :: OccursAt(s, Trim(s), k)
    ensures Trim(s) == [] || (!IsSpace(Trim(s)[0]) && !IsSpace(Trim(s)[|Trim(s)| - 1]))
  {
    var t := TrimStart(s);
    var k := |s| - |t|;
    TrimStartIsSuffix(s);
    TrimEndIsPrefix(t);
    assert Trim(s) == t[..|Trim(s)|];
    assert Trim(s) == s[k..k + |Trim(s)|];
    assert OccursAt(s, Trim(s), k);
  }

  /** `s.trim() === ""` holds exactly for blank strings. */
  lemma TrimEmptyIffBlank(s: string)
    ensures Trim(s) == "" <==> IsBlank(s)
  {
    var t := TrimStart(s);
    if Trim(s) == "" {
      assert t == [];
    } else {
      TrimIsInfix(s);
      var k :| OccursAt(s, Trim(s), k);
      assert s[k] == Trim(s)[0];
    }
  }

  /** White space put in front of a string is removed again by `trimStart`. */
  lemma {:induction false} TrimStartSkipsBlank(ws: string, s: string)
    requires IsBlank(ws)
    ensures TrimStart(ws + s) == TrimStart(s)
  {
    if |ws| > 0 {
      assert (ws + s)[1..] == ws[1..] + s;
      assert IsSpace((ws + s)[0]);
      TrimStartSkipsBlank(ws[1..], s);
    } else {
      assert ws + s == s;
    }
  }

  /** The first `k` characters of `s` are white space, so `\s*` at the start can stop at `k`. */
  predicate LeadingBlank(s: string, k: int) {
    0 <= k <= |s| && IsBlank(s[..k])
  }

  /** `trimStart` removes exactly the leading white space. */
  lemma TrimStartAfterLeadingBlank(s: string)
    ensures LeadingBlank(s, |s| - |TrimStart(s)|) && TrimStart(s) == s[|s| - |TrimStart(s)|..]
  {
    TrimStartIsSuffix(s);
    var k := |s| - |TrimStart(s)|;
    forall i | 0 <= i < k
      ensures IsSpace(s[..k][i])
    {
      assert s[..k][i] == s[i];
    }
  }

  /** `/^\s*w/i` matches with the word `w` starting at `k`. */
  predicate WordAfterBlank(s: string, w: string, k: int) {
    LeadingBlank(s, k) && StartsWithIgnoringCase(s[k..], w)
  }

  /**
   * A case-insensitive word `w` that begins with a visible character can only
   * follow the leading white space where `trimStart` stops.
   */
  lemma WordAfterBlankAt(s: string, w: string, k: int)
    requires |w| > 0 && !IsSpace(w[0])
    ensures WordAfterBlank(s, w, k) <==> k == |s| - |TrimStart(s)| && StartsWithIgnoringCase(TrimStart(s), w)
  {
    TrimStartAfterLeadingBlank(s);
    if WordAfterBlank(s, w, k) {
      assert !IsSpace(s[k]) by {
        assert Lower(s[k..][0]) == w[0];
      }
      assert s == s[..k] + s[k..];
      TrimStartSkipsBlank(s[..k], s[k..]);
    }
  }

  /**
   * The request guard `!text || text.trim() === ""`, stated through
   * `IsBlank`; `TrimEmptyIffBlank` shows the two readings agree.
   */
  predicate MissingOrBlank(text: Option<string>) {
    text.None? || IsBlank(text.value)
  }

  // ---------------------------------------------------------------------
  // Searching

  /**
   * `s` begins with the lower-case ASCII text `p` under a case-insensitive
   * regular expression: only ASCII letters fold onto ASCII letters there.
   */
  predicate StartsWithIgnoringCase(s: string, p: string) {
    |p| <= |s| && forall i :: 0 <= i < |p| ==> Lower(s[i]) == p[i]
  }

  predicate StartsWith(s: string, prefix: string) {
    |prefix| <= |s| && s[..|prefix|] == prefix
  }

  predicate EndsWith(s: string, suffix: string) {
    |suffix| <= |s| && s[|s| - |suffix|..] == suffix
  }

  /** There is an occurrence of `p` in `s` starting at `i`. */
  predicate OccursAt(s: string, p: string, i: int) {
    0 <= i && i + |p| <= |s| && s[i..i + |p|] == p
  }

  /** `s.indexOf(p, from)`: the first occurrence at or after `from`, or -1. */
  function IndexOfFrom(s: string, p: string, from: nat): (r: int)
    requires from <= |s| + 1
    ensures r == -1 || (from <= r && OccursAt(s, p, r))
    ensures r == -1 ==> forall i :: from <= i <= |s| ==> !OccursAt(s, p, i)
    ensures r != -1 ==> forall i :: from <= i < r ==> !OccursAt(s, p, i)
    decreases |s| + 1 - from
  {
    if from + |p| > |s| then -1
    else if s[from..from + |p|] == p then from
    else IndexOfFrom(s, p, from + 1)
  }

  /** `s.indexOf(p)` */
  function IndexOf(s: string, p: string): (r: int)
    ensures r == -1 <==> forall i :: 0 <= i <= |s| ==> !OccursAt(s, p, i)
    ensures r != -1 ==> OccursAt(s, p, r) && forall i :: 0 <= i < r ==> !OccursAt(s, p, i)
  {
    IndexOfFrom(s, p, 0)
  }

  /** `s.includes(p)` */
  predicate Contains(s: string, p: string) {
    IndexOf(s, p) != -1
  }

  /** `s.lastIndexOf(c)` for a one-character argument. */
  function LastIndexOf(s: string, c: char): (r: int)
    ensures -1 <= r < |s|
    ensures r != -1 ==> s[r] == c
    ensures forall i :: r < i < |s| ==> s[i] != c
  {
    if |s| == 0 then -1
    else if s[|s| - 1] == c then |s| - 1
    else LastIndexOf(s[..|s| - 1], c)
  }

  /** `s.replace(p, q)` with a string pattern: only the first occurrence is replaced. */
  function ReplaceFirst(s: string, p: string, q: string): (r: string)
    ensures IndexOf(s, p) == -1 ==> r == s
    ensures IndexOf(s, p) != -1 ==>
      r == s[..IndexOf(s, p)] + q + s[IndexOf(s, p) + |p|..]
  {
    var i := IndexOf(s, p);
    if i == -1 then s else s[..i] + q + s[i + |p|..]
  }

  /** `xs.join(sep)` */
  function Join(xs: seq<string>, sep: string): string {
    if |xs| == 0 then ""
    else if |xs| == 1 then xs[0]
    else xs[0] + sep + Join(xs[1..], sep)
  }

  /** `xs.join(sep)` begins with the first element. */
  lemma JoinStartsWithFirst(xs: seq<string>, sep: string)
    requires |xs| > 0
    ensures StartsWith(Join(xs, sep), xs[0])
  {
    if |xs| > 1 {
      assert Join(xs, sep) == xs[0] + (sep + Join(xs[1..], sep));
    }
  }

  /** An occurrence in `b` is one in `a + b`, shifted by `|a|`. */
  lemma OccursAfter(a: string, b: string, p: string, k: int)
    requires OccursAt(b, p, k)
    ensures OccursAt(a + b, p, |a| + k)
  {
    assert (a + b)[|a| + k..|a| + k + |p|] == b[k..k + |p|];
  }

  /** Every element of `xs` occurs in `xs.join(sep)`. */
  lemma {:induction false} JoinContainsEach(xs: seq<string>, sep: string, i: nat)
    requires i < |xs|
    ensures Contains(Join(xs, sep), xs[i])
  {
    var j := Join(xs, sep);
    if i == 0 {
      JoinStartsWithFirst(xs, sep);
      assert OccursAt(j, xs[0], 0);
    } else {
      assert xs[1..][i - 1] == xs[i];
      JoinContainsEach(xs[1..], sep, i - 1);
      var rest := Join(xs[1..], sep);
      assert j == (xs[0] + sep) + rest;
      OccursAfter(xs[0] + sep, rest, xs[i], IndexOf(rest, xs[i]));
    }
  }

  // ---------------------------------------------------------------------
  // Numbers and their decimal text

  function DigitChar(d: nat): (c: char)
    requires d < 10
    ensures IsDigit(c) && c as int - '0' as int == d
  {
    ('0' as int + d) as char
  }

  /** `n.toString()` for a non-negative integer. */
  function NatToString(n: nat): (r: string)
    ensures |r| > 0
    ensures forall i :: 0 <= i < |r| ==> IsDigit(r[i])
    ensures r[0] != '0' || n == 0
  {
    if n < 10 then [DigitChar(n)] else NatToString(n / 10) + [DigitChar(n % 10)]
  }

  /** `i.toString()` for an integer. */
  function IntToString(i: int): (r: string)
    ensures |r| > 0
  {
    if i < 0 then "-" + NatToString(-i) else NatToString(i)
  }

  /** The value of a string of decimal digits. */
  function DigitsValue(s: string): nat
    requires forall i :: 0 <= i < |s| ==> IsDigit(s[i])
  {
    if |s| == 0 then 0
    else
      assert IsDigit(s[|s| - 1]);
      10 * DigitsValue(s[..|s| - 1]) + (s[|s| - 1] as int - '0' as int)
  }

  /** The longest prefix of decimal digits. */
  function DigitPrefix(s: string): (r: string)
    ensures |r| <= |s|
    ensures forall i :: 0 <= i < |r| ==> IsDigit(r[i])
    ensures |r| == |s| || !IsDigit(s[|r|])
  {
    if |s| > 0 && IsDigit(s[0]) then [s[0]] + DigitPrefix(s[1..]) else []
  }

  /**
   * `parseInt(s, 10)`: leading white space is skipped, one sign is accepted and
   * the longest run of digits is read; `None` stands for `NaN`.
   */
  function ParseInt(s: string): (r: Option<int>)
    ensures r.None? <==> DigitPrefix(
      var t := TrimStart(s); if |t| > 0 && (t[0] == '+' || t[0] == '-') then t[1..] else t) == []
  {
    var t := TrimStart(s);
    var negative := |t| > 0 && t[0] == '-';
    var u := if |t| > 0 && (t[0] == '+' || t[0] == '-') then t[1..] else t;
    var digits := DigitPrefix(u);
    if digits == [] then None
    else
      var magnitude: int := DigitsValue(digits);
      Some(if negative then -magnitude else magnitude)
  }

  lemma {:induction false} DigitsValueOfNatToString(n: nat)
    ensures DigitsValue(NatToString(n)) == n
  {
    if n >= 10 {
      DigitsValueOfNatToString(n / 10);
      var s := NatToString(n);
      assert s[..|s| - 1] == NatToString(n / 10);
    }
  }

  lemma {:induction false} DigitPrefixOfDigits(s: string)
    requires forall i :: 0 <= i < |s| ==> IsDigit(s[i])
    ensures DigitPrefix(s) == s
  {
    if |s| > 0 {
      DigitPrefixOfDigits(s[1..]);
    }
  }

  /** Reading back the decimal text of a number gives the number. */
  lemma ParseIntOfNatToString(n: nat)
    ensures ParseInt(NatToString(n)) == Some(n)
  {
    var s := NatToString(n);
    assert IsDigit(s[0]) && !IsSpace(s[0]) && s[0] != '+' && s[0] != '-';
    assert TrimStart(s) == s;
    DigitPrefixOfDigits(s);
    assert DigitPrefix(s) == s;
    DigitsValueOfNatToString(n);
  }

  /** A minus sign in front of decimal digits negates their value. */
  lemma ParseIntOfNegated(digits: string)
    requires digits != [] && forall i :: 0 <= i < |digits| ==> IsDigit(digits[i])
    ensures ParseInt("-" + digits).Some? && ParseInt("-" + digits).value == -(DigitsValue(digits) as int)
  {
    var s := "-" + digits;
    assert s[0] == '-' && s[1..] == digits;
    assert TrimStart(s) == s by {
      assert !IsSpace(s[0]);
    }
    DigitPrefixOfDigits(digits);
  }

  /** The same for negative numbers, whose text carries a minus sign. */
  lemma ParseIntOfIntToString(i: int)
    ensures ParseInt(IntToString(i)) == Some(i)
  {
    if i < 0 {
      var digits := NatToString(-i);
      assert IntToString(i) == "-" + digits;
      ParseIntOfNegated(digits);
      DigitsValueOfNatToString(-i);
      calc {
        ParseInt(IntToString(i));
        ParseInt("-" + digits);
        Some(-(DigitsValue(digits) as int));
      }
    } else {
      ParseIntOfNatToString(i);
    }
  }
}
