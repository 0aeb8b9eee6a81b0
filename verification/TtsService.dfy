/**
 * The speech service: it names each generated audio file after a 32-bit
 * hash of the text and the clock, writes it to the audio cache, serves it
 * back by name, and sweeps out files older than an hour.
 *
 * The cache directory is the map `files` from file name to what the file
 * holds and when it was last written. Clock readings are parameters, and so
 * are the outcomes of the file-system calls that can fail.
 */
module TtsService {
  import opened Js

  const TwoTo31 := 0x8000_0000
  const TwoTo32 := 0x1_0000_0000
  const OneHour := 60 * 60 * 1000
  const MockAudioPrefix := "mock audio data for: "

  // ---------------------------------------------------------------------
  // 32-bit arithmetic

  /** ECMAScript `ToInt32`: the 32-bit two's-complement value congruent to `x`. */
  function ToInt32(x: int): (r: int)
    ensures -TwoTo31 <= r < TwoTo31
    ensures -TwoTo31 <= x < TwoTo31 ==> r == x
  {
    (x + TwoTo31) % TwoTo32 - TwoTo31
  }

  /** `ToInt32` only sees `x` modulo 2^32. */
  lemma ToInt32Congruent(x: int, k: int)
    ensures ToInt32(x + k * TwoTo32) == ToInt32(x)
  {
    assert (x + k * TwoTo32 + TwoTo31) % TwoTo32 == (x + TwoTo31) % TwoTo32;
  }

  /**
   * One round of the hash as the source writes it: `(h << 5) - h + c`, where
   * only the shift wraps to 32 bits, followed by `h & h`, which wraps the sum.
   */
  function HashStep(h: int, c: int): int {
    ToInt32(ToInt32(h * 32) - h + c)
  }

  /** A round is the familiar `h := toInt32(31 * h + c)`. */
  lemma HashStepIsTimes31(h: int, c: int)
    ensures HashStep(h, c) == ToInt32(31 * h + c)
  {
    var shifted := ToInt32(h * 32);
    var q := (h * 32 + TwoTo31) / TwoTo32;
    assert shifted == h * 32 - q * TwoTo32;
    assert shifted - h + c == 31 * h + c + (-q) * TwoTo32;
    ToInt32Congruent(31 * h + c, -q);
  }

  // ---------------------------------------------------------------------
  // UTF-16 code units

  /** The UTF-16 code units of one character: a surrogate pair above the basic plane. */
  function UnitsOf(c: char): (u: seq<int>)
    ensures 1 <= |u| <= 2
    ensures forall i :: 0 <= i < |u| ==> 0 <= u[i] < 0x1_0000
    ensures c as int < 0x1_0000 ==> u == [c as int]
  {
    if c as int < 0x1_0000 then [c as int]
    else
      var v := c as int - 0x1_0000;
      [0xD800 + v / 0x400, 0xDC00 + v % 0x400]
  }

  /** The code units `charCodeAt` walks through. */
  function CodeUnits(s: string): (u: seq<int>)
    ensures |u| >= |s|
    ensures forall i :: 0 <= i < |u| ==> 0 <= u[i] < 0x1_0000
  {
    if |s| == 0 then [] else UnitsOf(s[0]) + CodeUnits(s[1..])
  }

  lemma {:induction false} CodeUnitsAppend(s: string, c: char)
    ensures CodeUnits(s + [c]) == CodeUnits(s) + UnitsOf(c)
  {
    if |s| == 0 {
      assert s + [c] == [c];
    } else {
      assert (s + [c])[1..] == s[1..] + [c];
      CodeUnitsAppend(s[1..], c);
    }
  }

  // ---------------------------------------------------------------------
  // The hash

  /** The running hash after the code units `u`, starting from 0. */
  function HashFold(u: seq<int>): (h: int)
    ensures -TwoTo31 <= h < TwoTo31
  {
    if |u| == 0 then 0 else HashStep(HashFold(u[..|u| - 1]), u[|u| - 1])
  }

  /** The 32-bit hash of a text. */
  function HashCode(s: string): (h: int)
    ensures -TwoTo31 <= h < TwoTo31
  {
    HashFold(CodeUnits(s))
  }

  /** Appending a character of the basic plane folds it in as `toInt32(31 * h + c)`. */
  lemma HashCodeAppend(s: string, c: char)
    requires c as int < 0x1_0000
    ensures HashCode(s + [c]) == ToInt32(31 * HashCode(s) + c as int)
  {
    CodeUnitsAppend(s, c);
    var u := CodeUnits(s + [c]);
    assert u[..|u| - 1] == CodeUnits(s);
    HashStepIsTimes31(HashCode(s), c as int);
  }

  predicate IsBase36Char(c: char) {
    ('0' <= c <= '9') || ('a' <= c <= 'z')
  }

  function Base36Digit(d: nat): (c: char)
    requires d < 36
    ensures IsBase36Char(c)
  {
    if d < 10 then ('0' as int + d) as char else ('a' as int + d - 10) as char
  }

  function Base36DigitValue(c: char): (d: nat)
    requires IsBase36Char(c)
    ensures d < 36
  {
    if c <= '9' then c as int - '0' as int else c as int - 'a' as int + 10
  }

  /** `n.toString(36)` for a non-negative integer: lower-case digits, no leading zero. */
  function ToBase36(n: nat): (r: string)
    ensures |r| > 0
    ensures forall i :: 0 <= i < |r| ==> IsBase36Char(r[i])
    ensures r[0] != '0' || n == 0
    ensures n == 0 ==> r == "0"
  {
    if n < 36 then [Base36Digit(n)] else ToBase36(n / 36) + [Base36Digit(n % 36)]
  }

  /** The number a string of base-36 digits denotes. */
  function Base36Value(s: string): nat
    requires forall i :: 0 <= i < |s| ==> IsBase36Char(s[i])
  {
    if |s| == 0 then 0 else 36 * Base36Value(s[..|s| - 1]) + Base36DigitValue(s[|s| - 1])
  }

  /** Reading the base-36 text back gives the number. */
  lemma {:induction false} Base36RoundTrip(n: nat)
    ensures Base36Value(ToBase36(n)) == n
  {
    if n >= 36 {
      Base36RoundTrip(n / 36);
      var s := ToBase36(n);
      assert s[..|s| - 1] == ToBase36(n / 36);
    }
  }

  /** What `simpleHash` returns: the base-36 text of the hash's magnitude. */
  function HashText(s: string): (r: string)
    ensures |r| > 0 && forall i :: 0 <= i < |r| ==> IsBase36Char(r[i])
    ensures s == "" ==> r == "0"
  {
    var h := HashCode(s);
    ToBase36(if h < 0 then -h else h)
  }

  /** The hash text encodes the magnitude of the 32-bit hash, which never exceeds 2^31. */
  lemma HashTextValue(s: string)
    ensures Base36Value(HashText(s)) == (if HashCode(s) < 0 then -HashCode(s) else HashCode(s))
    ensures Base36Value(HashText(s)) <= TwoTo31
  {
    var h := HashCode(s);
    Base36RoundTrip(if h < 0 then -h else h);
  }

  /** `simpleHash`: the loop over the code units, keeping the hash a 32-bit integer. */
  method SimpleHash(str: string) returns (r: string)
    ensures r == HashText(str)
  {
    var units := CodeUnits(str);
    var hash := 0;
    var i := 0;
    while i < |units|
      invariant 0 <= i <= |units|
      invariant hash == HashFold(units[..i])
    {
      var c := units[i];
      assert units[..i + 1][..i] == units[..i] && units[..i + 1][i] == c;
      assert HashFold(units[..i + 1]) == HashStep(hash, c);
      hash := ToInt32(hash * 32) - hash + c;
      hash := ToInt32(hash);
      i := i + 1;
    }
    assert units[..i] == units;
    r := ToBase36(if hash < 0 then -hash else hash);
  }

  // ---------------------------------------------------------------------
  // Names and URLs

  /** The audio file name for `text` written at clock reading `now`. */
  function AudioFileName(text: string, now: nat): (name: string)
    ensures StartsWith(name, "tts_" + HashText(text) + "_")
    ensures EndsWith(name, NatToString(now) + ".wav")
    ensures |name| == |"tts_" + HashText(text) + "_"| + |NatToString(now) + ".wav"|
  {
    var head := "tts_" + HashText(text) + "_";
    var tail := NatToString(now) + ".wav";
    var name := "tts_" + HashText(text) + "_" + NatToString(now) + ".wav";
    assert name == head + tail;
    assert name[..|head|] == head;
    assert name[|name| - |tail|..] == tail;
    name
  }

  /** The same text written at two different clock readings gets two different names. */
  lemma AudioFileNamesDifferInTime(text: string, now1: nat, now2: nat)
    requires now1 != now2
    ensures AudioFileName(text, now1) != AudioFileName(text, now2)
  {
    var n1, n2 := AudioFileName(text, now1), AudioFileName(text, now2);
    var k := |"tts_" + HashText(text) + "_"|;
    if n1 == n2 {
      var t1, t2 := NatToString(now1) + ".wav", NatToString(now2) + ".wav";
      assert n1[k..] == t1 && n2[k..] == t2;
      assert t1[..|t1| - 4] == NatToString(now1) && t2[..|t2| - 4] == NatToString(now2);
      ParseIntOfNatToString(now1);
      ParseIntOfNatToString(now2);
      assert false;
    }
  }

  /** The URL an audio file is served under. */
  function AudioUrl(fileName: string): (url: string)
    ensures StartsWith(url, "/api/audio/") && EndsWith(url, fileName)
    ensures |url| == |"/api/audio/"| + |fileName|
  {
    var url := "/api/audio/" + fileName;
    assert url[..11] == "/api/audio/";
    assert url[|url| - |fileName|..] == fileName;
    url
  }

  // ---------------------------------------------------------------------
  // The service

  datatype AudioFile = AudioFile(data: string, mtime: int)

  /** What `generateSpeech` answers; the estimated duration is not modelled. */
  datatype SpeechResponse = SpeechResponse(audioUrl: string)

  /** More than an hour old at clock reading `now`. */
  predicate Stale(f: AudioFile, now: int) {
    now - f.mtime > OneHour
  }

  /**
   * The cache after the files named in `visited` have been checked for age,
   * in that order: each stale one still present is deleted.
   */
  function Swept(m: map<string, AudioFile>, visited: seq<string>, now: int): map<string, AudioFile>
    decreases |visited|
  {
    if visited == [] then m
    else
      var before := Swept(m, visited[..|visited| - 1], now);
      var last := visited[|visited| - 1];
      if last in before && Stale(before[last], now) then before - {last} else before
  }

  /** A sweep deletes exactly the stale files it visits, and changes no other file. */
  lemma {:induction false} SweptKeepsFresh(m: map<string, AudioFile>, visited: seq<string>, now: int)
    ensures forall n :: n in Swept(m, visited, now) <==> n in m && !(n in visited && Stale(m[n], now))
    ensures forall n :: n in Swept(m, visited, now) ==> Swept(m, visited, now)[n] == m[n]
    decreases |visited|
  {
    if visited != [] {
      var earlier := visited[..|visited| - 1];
      SweptKeepsFresh(m, earlier, now);
      assert forall n :: n in visited <==> n in earlier || n == visited[|visited| - 1];
    }
  }

  /** A file the sweep has not visited is still there, unchanged. */
  lemma {:induction false} SweptKeepsUnvisited(m: map<string, AudioFile>, visited: seq<string>, name: string, now: int)
    requires name in m && name !in visited
    ensures name in Swept(m, visited, now) && Swept(m, visited, now)[name] == m[name]
    decreases |visited|
  {
    if visited != [] {
      var earlier := visited[..|visited| - 1];
      assert visited == earlier + [visited[|visited| - 1]];
      SweptKeepsUnvisited(m, earlier, name, now);
    }
  }

  /** Checking one more file deletes it when it is present and stale. */
  lemma SweptStep(m: map<string, AudioFile>, visited: seq<string>, name: string, now: int)
    ensures var before := Swept(m, visited, now);
      Swept(m, visited + [name], now)
        == if name in before && Stale(before[name], now) then before - {name} else before
  {
    assert (visited + [name])[..|visited|] == visited;
  }

  /** `names` is a listing of the directory `m`: every file, once. */
  ghost predicate Lists(names: seq<string>, m: map<string, AudioFile>) {
    && (forall n :: n in names <==> n in m)
    && (forall i, j :: 0 <= i < j < |names| ==> names[i] != names[j])
  }

  class TTSService {
    var initialized: bool
    var files: map<string, AudioFile>

    /** The service over a cache directory that may already hold files. */
    constructor (existing: map<string, AudioFile>)
      ensures !initialized && files == existing
    {
      initialized := false;
      files := existing;
    }

    /** `initialize`: marks the service ready; a second call changes nothing. */
    method Initialize()
      modifies this
      ensures initialized && files == old(files)
    {
      if initialized {
        return;
      }
      initialized := true;
    }

    /** `getAudioFile`: the file's contents, or "Audio file not found: <name>". */
    function GetAudioFile(fileName: string): (r: Result<string, Thrown>)
      reads this
      ensures r.Ok? <==> fileName in files
      ensures r.Ok? ==> r.value == files[fileName].data
      ensures r.Fail? ==> r.error == ErrorObject("Audio file not found: " + fileName)
    {
      if fileName in files then Ok(files[fileName].data)
      else Fail(ErrorObject("Audio file not found: " + fileName))
    }

    /**
     * `generateSpeech`: initialises when needed, writes the mock audio under
     * the hashed name and answers its URL. `write` is what writing the file
     * does; when it throws, the error is rethrown wrapped and the cache is
     * as before.
     */
    method GenerateSpeech(text: string, write: Result<(), Thrown>, now: nat) returns (r: Result<SpeechResponse, Thrown>)
      modifies this
      ensures initialized
      ensures var name := AudioFileName(text, now);
        && (write.Ok? ==>
              && r == Ok(SpeechResponse(AudioUrl(name)))
              && files == old(files)[name := AudioFile(MockAudioPrefix + text, now)]
              && GetAudioFile(name) == Ok(MockAudioPrefix + text))
        && (write.Fail? ==>
              && r == Fail(ErrorObject("Failed to generate speech: " + MessageOr(write.error, "Unknown error")))
              && files == old(files))
    {
      if !initialized {
        Initialize();
      }
      var hash := SimpleHash(text);
      var fileName := "tts_" + hash + "_" + NatToString(now) + ".wav";
      if write.Fail? {
        return Fail(ErrorObject("Failed to generate speech: " + MessageOr(write.error, "Unknown error")));
      }
      files := files[fileName := AudioFile(MockAudioPrefix + text, now)];
      r := Ok(SpeechResponse("/api/audio/" + fileName));
    }

    /**
     * `cleanupOldFiles`: lists the cache and deletes every file more than an
     * hour old, in listing order. A failing listing changes nothing; a
     * file-system error at position `brokenAt` of the listing stops the
     * sweep there. Errors are swallowed.
     */
    method CleanupOldFiles(now: int, listing: Result<seq<string>, Thrown>, brokenAt: Option<nat>)
      requires listing.Ok? ==> Lists(listing.value, files)
      modifies this
      ensures initialized == old(initialized)
      ensures listing.Fail? ==> files == old(files)
      ensures listing.Ok? ==>
        var stop := if brokenAt.Some? && brokenAt.value < |listing.value| then brokenAt.value else |listing.value|;
        files == Swept(old(files), listing.value[..stop], now)
      ensures listing.Ok? && brokenAt.None? ==>
        forall n :: n in files <==> n in old(files) && !Stale(old(files)[n], now)
    {
      if listing.Fail? {
        return;
      }
      var names := listing.value;
      var stop := if brokenAt.Some? && brokenAt.value < |names| then brokenAt.value else |names|;
      ghost var m0 := files;
      var i := 0;
      while i < stop
        invariant 0 <= i <= stop <= |names|
        invariant initialized == old(initialized)
        invariant files == Swept(m0, names[..i], now)
      {
        var name := names[i];
        assert names[..i + 1] == names[..i] + [name] && name !in names[..i];
        SweptStep(m0, names[..i], name, now);
        SweptKeepsUnvisited(m0, names[..i], name, now);
        if Stale(files[name], now) {
          files := files - {name};
        }
        i := i + 1;
      }
      assert brokenAt.None? ==> names[..i] == names;
      SweptKeepsFresh(m0, names[..i], now);
    }
  }
}
