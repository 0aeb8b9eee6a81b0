/**
 * `encodeURIComponent` and the title rewrites used to build encyclopedia URLs.
 *
 * Dafny characters are Unicode scalar values, so the lone surrogates on which
 * `encodeURIComponent` throws cannot occur and the encoder is total.
 */
module Uri {
  import opened Js

  /** The characters `encodeURIComponent` leaves as they are. */
  predicate IsUnreserved(c: char) {
    IsDigit(c) || IsLowerLetter(c) || ('A' <= c <= 'Z')
    || c == '-' || c == '_' || c == '.' || c == '!' || c == '~' || c == '*'
    || c == '\'' || c == '(' || c == ')'
  }

  /** The value of a hexadecimal digit, either case; -1 for any other character. */
  function HexValue(c: char): int {
    if '0' <= c <= '9' then c as int - '0' as int
    else if 'A' <= c <= 'F' then c as int - 'A' as int + 10
    else if 'a' <= c <= 'f' then c as int - 'a' as int + 10
    else -1
  }

  /** The upper-case hexadecimal digit of `d`. */
  function HexDigit(d: nat): (c: char)
    requires d < 16
    ensures IsUnreserved(c) && !IsLowerLetter(c)
    ensures HexValue(c) == d
  {
    if d < 10 then DigitChar(d) else ('A' as int + (d - 10)) as char
  }

  /** `%XX` for one byte. */
  function PercentByte(b: nat): (r: string)
    requires b < 256
    ensures |r| == 3 && r[0] == '%' && IsUnreserved(r[1]) && IsUnreserved(r[2])
    ensures 16 * HexValue(r[1]) + HexValue(r[2]) == b
  {
    ['%', HexDigit(b / 16), HexDigit(b % 16)]
  }

  /** The UTF-8 encoding of one scalar value. */
  function Utf8(c: char): (bytes: seq<nat>)
    ensures 1 <= |bytes| <= 4
    ensures forall i :: 0 <= i < |bytes| ==> bytes[i] < 256
  {
    var v := c as int;
    if v < 0x80 then [v]
    else if v < 0x800 then [0xC0 + v / 0x40, 0x80 + v % 0x40]
    else if v < 0x10000 then [0xE0 + v / 0x1000, 0x80 + (v / 0x40) % 0x40, 0x80 + v % 0x40]
    else [0xF0 + v / 0x40000, 0x80 + (v / 0x1000) % 0x40, 0x80 + (v / 0x40) % 0x40, 0x80 + v % 0x40]
  }

  function PercentBytes(bytes: seq<nat>): (r: string)
    requires forall i :: 0 <= i < |bytes| ==> bytes[i] < 256
    ensures |r| == 3 * |bytes|
    ensures forall i :: 0 <= i < |r| ==> r[i] == '%' || IsUnreserved(r[i])
  {
    if |bytes| == 0 then "" else PercentByte(bytes[0]) + PercentBytes(bytes[1..])
  }

  /** The i-th byte is the i-th escape: a `%` and two hex digits that read back as the byte. */
  lemma {:induction false} PercentBytesDecode(bytes: seq<nat>, i: nat)
    requires forall k :: 0 <= k < |bytes| ==> bytes[k] < 256
    requires i < |bytes|
    ensures PercentBytes(bytes)[3 * i] == '%'
    ensures 16 * HexValue(PercentBytes(bytes)[3 * i + 1]) + HexValue(PercentBytes(bytes)[3 * i + 2]) == bytes[i]
  {
    if i > 0 {
      PercentBytesDecode(bytes[1..], i - 1);
      assert bytes[1..][i - 1] == bytes[i];
      var rest := PercentBytes(bytes[1..]);
      assert PercentBytes(bytes) == PercentByte(bytes[0]) + rest;
      assert PercentBytes(bytes)[3 * i] == rest[3 * (i - 1)];
      assert PercentBytes(bytes)[3 * i + 1] == rest[3 * (i - 1) + 1];
      assert PercentBytes(bytes)[3 * i + 2] == rest[3 * (i - 1) + 2];
    }
  }

  /** `encodeURIComponent(s)` */
  function EncodeURIComponent(s: string): (r: string)
    ensures forall i :: 0 <= i < |r| ==> r[i] == '%' || IsUnreserved(r[i])
    ensures (forall i :: 0 <= i < |s| ==> IsUnreserved(s[i])) ==> r == s
  {
    if |s| == 0 then ""
    else
      var head := if IsUnreserved(s[0]) then [s[0]] else PercentBytes(Utf8(s[0]));
      head + EncodeURIComponent(s[1..])
  }

  /** `title.replace(/ /g, '_')` */
  function UnderscoreSpaces(s: string): (r: string)
    ensures |r| == |s|
    ensures forall i :: 0 <= i < |s| ==> r[i] == (if s[i] == ' ' then '_' else s[i])
  {
    if |s| == 0 then "" else [if s[0] == ' ' then '_' else s[0]] + UnderscoreSpaces(s[1..])
  }

  /** `title.replace(/\s+/g, '_')`: every run of white space becomes one underscore. */
  function UnderscoreWhitespaceRuns(s: string): (r: string)
    ensures |r| <= |s|
    ensures forall i :: 0 <= i < |r| ==> !IsSpace(r[i])
    decreases |s|
  {
    if |s| == 0 then ""
    else if IsSpace(s[0]) then
      var rest := TrimStart(s[1..]);
      "_" + UnderscoreWhitespaceRuns(rest)
    else [s[0]] + UnderscoreWhitespaceRuns(s[1..])
  }

  /** A title without white space keeps every character under the run rewrite. */
  lemma {:induction false} UnderscoreWhitespaceRunsNoSpace(s: string)
    requires forall i :: 0 <= i < |s| ==> !IsSpace(s[i])
    ensures UnderscoreWhitespaceRuns(s) == s
  {
    if |s| > 0 {
      UnderscoreWhitespaceRunsNoSpace(s[1..]);
    }
  }

  /** Leading white space followed by a non-space (or nothing) trims to what follows. */
  lemma {:induction false} TrimStartOfRun(w: string, b: string)
    requires forall i :: 0 <= i < |w| ==> IsSpace(w[i])
    requires b == [] || !IsSpace(b[0])
    ensures TrimStart(w + b) == b
  {
    if |w| > 0 {
      assert (w + b)[1..] == w[1..] + b;
      TrimStartOfRun(w[1..], b);
    } else {
      assert w + b == b;
    }
  }

  /**
   * A word, then a run of white space, then the rest: the word is kept, the
   * whole run becomes one underscore, and the rest is rewritten on its own.
   */
  lemma {:induction false} UnderscoreWhitespaceRunsCollapse(a: string, w: string, b: string)
    requires forall i :: 0 <= i < |a| ==> !IsSpace(a[i])
    requires |w| > 0 && forall i :: 0 <= i < |w| ==> IsSpace(w[i])
    requires b == [] || !IsSpace(b[0])
    ensures UnderscoreWhitespaceRuns(a + w + b) == a + "_" + UnderscoreWhitespaceRuns(b)
  {
    if |a| > 0 {
      assert (a + w + b)[0] == a[0];
      assert (a + w + b)[1..] == a[1..] + w + b;
      UnderscoreWhitespaceRunsCollapse(a[1..], w, b);
      assert a + "_" + UnderscoreWhitespaceRuns(b) == [a[0]] + (a[1..] + "_" + UnderscoreWhitespaceRuns(b));
    } else {
      assert a + w + b == w + b;
      assert (w + b)[1..] == w[1..] + b;
      TrimStartOfRun(w[1..], b);
    }
  }
}
