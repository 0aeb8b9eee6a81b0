/**
 * The speech routes: `POST /tts` validates the text and has the speech
 * service generate audio; `GET /audio/:filename` refuses names that could
 * leave the audio cache and serves the others as WAV audio.
 */
module TtsRoutes {
  import opened Js
  import opened TtsService

  datatype TtsReply =
    | Spoken(response: SpeechResponse)
    | TtsRejected(status: nat, error: string, message: string)

  datatype AudioReply =
    | AudioServed(contentType: string, data: string)
    | AudioRejected(status: nat, error: string, message: string)

  /** The traversal guard: the name mentions "..", "/" or "\". */
  predicate UnsafeFileName(name: string): (b: bool)
    ensures b <==> (exists i :: 0 <= i < |name| && (name[i] == '/' || name[i] == '\\'))
                   || exists i :: 0 <= i < |name| - 1 && name[i] == '.' && name[i + 1] == '.'
  {
    ContainsCharAt(name, '/');
    ContainsCharAt(name, '\\');
    ContainsDoubleDotAt(name);
    Contains(name, "..") || Contains(name, "/") || Contains(name, "\\")
  }

  /** `s.includes(c)` for one character: `c` is one of the characters of `s`. */
  lemma ContainsCharAt(s: string, c: char)
    ensures Contains(s, [c]) <==> exists i :: 0 <= i < |s| && s[i] == c
  {
    if Contains(s, [c]) {
      var k := IndexOf(s, [c]);
      assert s[k..k + 1][0] == s[k];
    } else {
      forall i | 0 <= i < |s|
        ensures s[i] != c
      {
        assert !OccursAt(s, [c], i);
        assert s[i..i + 1] == [s[i]];
      }
    }
  }

  /** `s.includes("..")`: two dots stand side by side in `s`. */
  lemma ContainsDoubleDotAt(s: string)
    ensures Contains(s, "..") <==> exists i :: 0 <= i < |s| - 1 && s[i] == '.' && s[i + 1] == '.'
  {
    if Contains(s, "..") {
      var k := IndexOf(s, "..");
      assert s[k..k + 2][0] == s[k] && s[k..k + 2][1] == s[k + 1];
    } else {
      forall i | 0 <= i < |s| - 1
        ensures !(s[i] == '.' && s[i + 1] == '.')
      {
        assert !OccursAt(s, "..", i);
        assert s[i..i + 2] == [s[i], s[i + 1]];
      }
    }
  }

  /**
   * `POST /tts`: a missing or blank text is refused with 400 and the service
   * is not called; otherwise the service generates the audio, and any error
   * it throws becomes 500 with its message.
   */
  method PostTts(service: TTSService, text: Option<string>, write: Result<(), Thrown>, now: nat)
    returns (reply: TtsReply)
    modifies service
    ensures MissingOrBlank(text) ==>
      && reply == TtsRejected(400, "No text provided", "Please provide text in the request body")
      && service.files == old(service.files) && service.initialized == old(service.initialized)
    ensures !MissingOrBlank(text) ==>
      var name := AudioFileName(text.value, now);
      && (reply.Spoken? <==> write.Ok?)
      && (write.Ok? ==>
            && reply.response.audioUrl == AudioUrl(name)
            && service.files == old(service.files)[name := AudioFile(MockAudioPrefix + text.value, now)])
      && (write.Fail? ==>
            && reply == TtsRejected(500, "Internal server error",
                 "Failed to generate speech: " + MessageOr(write.error, "Unknown error"))
            && service.files == old(service.files))
  {
    if MissingOrBlank(text) {
      return TtsRejected(400, "No text provided", "Please provide text in the request body");
    }
    var r := service.GenerateSpeech(text.value, write, now);
    match r
    case Ok(response) =>
      reply := Spoken(response);
    case Fail(e) =>
      reply := TtsRejected(500, "Internal server error", MessageOr(e, "Unknown error occurred"));
  }

  /**
   * `GET /audio/:filename`: an unsafe name is refused with 400 before any
   * lookup; a known file is served as `audio/wav`; any error while serving
   * gives 404 with its message.
   */
  function GetAudio(service: TTSService, filename: string): (r: AudioReply)
    reads service
    ensures UnsafeFileName(filename) ==>
      r == AudioRejected(400, "Invalid filename", "Filename contains invalid characters")
    ensures !UnsafeFileName(filename) ==>
      && (r.AudioServed? <==> filename in service.files)
      && (r.AudioServed? ==> r.contentType == "audio/wav" && r.data == service.files[filename].data)
      && (r.AudioRejected? ==> r == AudioRejected(404, "Audio file not found", "Audio file not found: " + filename))
  {
    if UnsafeFileName(filename) then
      AudioRejected(400, "Invalid filename", "Filename contains invalid characters")
    else
      match service.GetAudioFile(filename)
      case Ok(data) => AudioServed("audio/wav", data)
      case Fail(e) => AudioRejected(404, "Audio file not found", MessageOr(e, "Unknown error occurred"))
  }

  /** A character that may appear in a generated name outside its extension. */
  predicate PlainNameChar(c: char) {
    IsBase36Char(c) || c == '_'
  }

  lemma PlainConcat(a: string, b: string)
    requires forall i :: 0 <= i < |a| ==> PlainNameChar(a[i])
    requires forall i :: 0 <= i < |b| ==> PlainNameChar(b[i])
    ensures forall i :: 0 <= i < |a + b| ==> PlainNameChar((a + b)[i])
  {
    forall i | 0 <= i < |a + b|
      ensures PlainNameChar((a + b)[i])
    {
      if i < |a| {
        assert (a + b)[i] == a[i];
      } else {
        assert (a + b)[i] == b[i - |a|];
      }
    }
  }

  /** Every name the speech service generates passes the traversal guard. */
  lemma GeneratedNamesAreSafe(text: string, now: nat)
    ensures !UnsafeFileName(AudioFileName(text, now))
  {
    var hash := HashText(text);
    var digits := NatToString(now);
    assert forall i :: 0 <= i < |digits| ==> IsDigit(digits[i]) && PlainNameChar(digits[i]);
    assert forall i :: 0 <= i < |"tts_"| ==> PlainNameChar("tts_"[i]);
    PlainConcat("tts_", hash);
    PlainConcat("tts_" + hash, "_");
    var stem := "tts_" + hash + "_" + digits;
    PlainConcat("tts_" + hash + "_", digits);
    var name := stem + ".wav";
    assert name == AudioFileName(text, now);
    forall i | 0 <= i < |name|
      ensures name[i] != '/' && name[i] != '\\' && (i != |stem| ==> name[i] != '.')
    {
      if i < |stem| {
        assert name[i] == stem[i] && PlainNameChar(stem[i]);
      } else {
        assert name[i] == ".wav"[i - |stem|];
      }
    }
  }

  /** Audio that `POST /tts` has just generated is served back under its URL's file name. */
  lemma GeneratedAudioIsServed(service: TTSService, text: string, now: nat)
    requires AudioFileName(text, now) in service.files
    ensures GetAudio(service, AudioFileName(text, now))
         == AudioServed("audio/wav", service.files[AudioFileName(text, now)].data)
  {
    GeneratedNamesAreSafe(text, now);
  }

  /** The speak-then-fetch round trip: the served audio is the audio just written. */
  method SpeakThenFetch(service: TTSService, text: string, write: Result<(), Thrown>, now: nat)
    returns (spoken: TtsReply, served: AudioReply)
    requires !IsBlank(text) && write.Ok?
    modifies service
    ensures spoken.Spoken? && spoken.response.audioUrl == AudioUrl(AudioFileName(text, now))
    ensures served == AudioServed("audio/wav", MockAudioPrefix + text)
  {
    spoken := PostTts(service, Some(text), write, now);
    GeneratedAudioIsServed(service, text, now);
    served := GetAudio(service, AudioFileName(text, now));
  }
}
