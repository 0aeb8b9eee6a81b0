/**
 * The browser-side service that answers with a small local text-generation
 * model: it wraps the question in a short instruction prompt, has the model
 * continue it, and cleans the continuation into a short reply.
 *
 * Loading the model and running it are parameters: `load` is what loading
 * does, `generate` maps a prompt to what the model returns, and `now` is
 * the clock reading of the reply.
 */
module LocalLlmService {
  import opened Js

  const Instruction := "You are a helpful AI assistant. Give very short, direct answers. Maximum 2 sentences."
  const Fallback := "I understand. How can I help you?"
  const LoadFailure := "Failed to load local AI model. Please check your internet connection and try again."
  const Unexpected := "An unexpected error occurred with the local AI model"
  const MaxReply := 150
  const SentenceCut := 75

  /** The prompt for a question: the instruction, a blank line, then a question and answer frame. */
  function FormatPrompt(userInput: string): (p: string)
    ensures StartsWith(p, Instruction + "\n\nQuestion: ")
    ensures EndsWith(p, userInput + "\nAnswer:")
    ensures |p| == |Instruction + "\n\nQuestion: "| + |userInput + "\nAnswer:"|
  {
    var head := Instruction + "\n\nQuestion: ";
    var p := head + (userInput + "\nAnswer:");
    assert p[..|head|] == head;
    assert p[|p| - |userInput + "\nAnswer:"|..] == userInput + "\nAnswer:";
    p
  }

  // ---------------------------------------------------------------------
  // Occurrences

  /** `p` occurs nowhere in `s`. */
  predicate Free(s: string, p: string) {
    forall i :: 0 <= i <= |s| ==> !OccursAt(s, p, i)
  }

  /** An occurrence inside `s[a..b]` is an occurrence in `s`. */
  lemma OccursInInfix(s: string, p: string, a: int, b: int, i: int)
    requires 0 <= a <= b <= |s| && OccursAt(s[a..b], p, i)
    ensures OccursAt(s, p, a + i)
  {
    forall k | 0 <= k < |p|
      ensures s[a + i..a + i + |p|][k] == p[k]
    {
      assert s[a..b][i..i + |p|][k] == p[k];
    }
  }

  lemma FreeInfix(s: string, p: string, a: int, b: int)
    requires Free(s, p) && 0 <= a <= b <= |s|
    ensures Free(s[a..b], p)
  {
    forall i | 0 <= i <= b - a
      ensures !OccursAt(s[a..b], p, i)
    {
      if OccursAt(s[a..b], p, i) {
        OccursInInfix(s, p, a, b, i);
        assert false;
      }
    }
  }

  lemma FreeTrim(s: string, p: string)
    requires Free(s, p)
    ensures Free(TrimStart(s), p) && Free(Trim(s), p)
  {
    var t := TrimStart(s);
    var k := |s| - |t|;
    TrimStartIsSuffix(s);
    TrimEndIsPrefix(t);
    FreeInfix(s, p, k, |s|);
    assert s[k..|s|] == t;
    assert Trim(s) == t[..|Trim(s)|];
    FreeInfix(t, p, 0, |Trim(s)|);
  }

  /** A text lacking some character of `p` does not contain `p`. */
  lemma MissingCharFree(s: string, p: string, j: int)
    requires 0 <= j < |p| && forall i :: 0 <= i < |s| ==> s[i] != p[j]
    ensures Free(s, p)
  {
    forall i | 0 <= i <= |s|
      ensures !OccursAt(s, p, i)
    {
      if i + |p| <= |s| {
        assert s[i..i + |p|][j] == s[i + j];
      }
    }
  }

  // ---------------------------------------------------------------------
  // Cleaning a reply

  /** No white space at either end. */
  predicate Trimmed(s: string) {
    s == [] || (!IsSpace(s[0]) && !IsSpace(s[|s| - 1]))
  }

  /** Removes the first occurrence of the prompt, if any, and trims what is left. */
  function StripPrompt(text: string, prompt: string): (r: string)
    ensures IndexOf(text, prompt) == -1 ==> r == text
    ensures IndexOf(text, prompt) != -1 ==>
      r == Trim(text[..IndexOf(text, prompt)] + text[IndexOf(text, prompt) + |prompt|..])
  {
    if Contains(text, prompt) then
      var i := IndexOf(text, prompt);
      assert text[..i] + "" == text[..i];
      Trim(ReplaceFirst(text, prompt, ""))
    else text
  }

  // `s.replace(/^.*?M\s*/s, '')`: drops everything through the first `M` and the white space after it.
  // Without an `M` the text is kept; otherwise what is left is the part after the white space that follows `M`.
  function DropThrough(s: string, marker: string): (r: string)
    ensures IndexOf(s, marker) == -1 ==> r == s
    ensures IndexOf(s, marker) != -1 ==>
      var j := IndexOf(s, marker) + |marker|;
      && |r| <= |s| - j && r == s[|s| - |r|..] && LeadingBlank(s[j..], |s| - j - |r|)
      && (r == [] || !IsSpace(r[0]))
  {
    var i := IndexOf(s, marker);
    if i == -1 then s
    else
      var u := s[i + |marker|..];
      TrimStartAfterLeadingBlank(u);
      assert u[|u| - |TrimStart(u)|..] == s[|s| - |TrimStart(u)|..];
      TrimStart(u)
  }

  /** `s.replace(/M.*$/s, '')`: drops everything from the first `M` on. */
  function CutFrom(s: string, marker: string): (r: string)
    ensures IndexOf(s, marker) == -1 ==> r == s
    ensures IndexOf(s, marker) != -1 ==> r == s[..IndexOf(s, marker)]
    ensures marker != "" ==> Free(r, marker)
  {
    var i := IndexOf(s, marker);
    if i == -1 then s
    else
      assert marker != "" ==> Free(s[..i], marker) by {
        if marker != "" {
          forall k | 0 <= k <= i
            ensures !OccursAt(s[..i], marker, k)
          {
            if OccursAt(s[..i], marker, k) {
              OccursInInfix(s, marker, 0, i, k);
            }
          }
        }
      }
      s[..i]
  }

  /**
   * The reply once the prompt and the question and answer frames are gone,
   * trimmed: no "Question:" or "User:" turn is left in it.
   */
  function Stripped(text: string, prompt: string): (r: string)
    ensures Trimmed(r)
    ensures Free(r, "Question:") && Free(r, "User:")
  {
    var s1 := StripPrompt(text, prompt);
    var s2 := DropThrough(s1, "Answer:");
    var s3 := CutFrom(s2, "Question:");
    var s4 := DropThrough(s3, "Assistant:");
    var s5 := CutFrom(s4, "User:");
    FreeAfterFollowUpCuts(s3, "Question:");
    FreeTrim(s5, "Question:");
    FreeTrim(s5, "User:");
    Trim(s5)
  }

  /** A reply longer than 150 characters is cut there, trimmed, and ended at its last '.' past 75. */
  function Truncated(s: string): (r: string)
    ensures |s| <= MaxReply ==> r == s
    ensures |s| > MaxReply ==>
      var t := Trim(s[..MaxReply]);
      && |r| <= |t| <= MaxReply && r == t[..|r|]
      && (r == t || (|r| > SentenceCut + 1 && r[|r| - 1] == '.' && forall i :: |r| <= i < |t| ==> t[i] != '.'))
      && ((forall i :: SentenceCut < i < |t| ==> t[i] != '.') ==> r == t)
  {
    if |s| > MaxReply then
      var t := Trim(s[..MaxReply]);
      var lastPeriod := LastIndexOf(t, '.');
      if lastPeriod > SentenceCut then t[..lastPeriod + 1] else t
    else s
  }

  /** The truncated text, or the fallback reply when that is shorter than 3 characters. */
  function Shortened(s: string): string {
    var t := Truncated(s);
    if |t| < 3 then Fallback else t
  }

  /**
   * What `cleanResponse` returns: between 3 and 150 characters with no white
   * space at either end; a stripped reply already that size is returned as is.
   */
  function Cleaned(text: string, prompt: string): (r: string)
    ensures 3 <= |r| <= MaxReply && Trimmed(r)
    ensures 3 <= |Stripped(text, prompt)| <= MaxReply ==> r == Stripped(text, prompt)
  {
    ShortenedShape(Stripped(text, prompt));
    Shortened(Stripped(text, prompt))
  }

  /** The fallback reply is trimmed and has no ':'. */
  lemma FallbackShape()
    ensures |Fallback| == 33 && Fallback[0] == 'I' && Fallback[32] == '?'
    ensures forall i :: 0 <= i < |Fallback| ==> Fallback[i] != ':'
  {
  }

  /** `cleanResponse`, rewriting the text step by step. */
  method CleanResponse(responseText: string, originalPrompt: string) returns (cleanText: string)
    ensures cleanText == Cleaned(responseText, originalPrompt)
  {
    cleanText := StripPrompt(responseText, originalPrompt);
    cleanText := DropThrough(cleanText, "Answer:");
    cleanText := CutFrom(cleanText, "Question:");
    cleanText := DropThrough(cleanText, "Assistant:");
    cleanText := CutFrom(cleanText, "User:");
    cleanText := Trim(cleanText);
    assert cleanText == Stripped(responseText, originalPrompt);
    if |cleanText| > MaxReply {
      cleanText := Trim(cleanText[..MaxReply]);
      var lastPeriod := LastIndexOf(cleanText, '.');
      if lastPeriod > SentenceCut {
        cleanText := cleanText[..lastPeriod + 1];
      }
    }
    if |cleanText| < 3 {
      cleanText := Fallback;
    }
  }

  /** Truncating a trimmed text keeps it trimmed and at most 150 characters long. */
  lemma TruncatedShape(s: string)
    requires Trimmed(s)
    ensures |Truncated(s)| <= MaxReply && Trimmed(Truncated(s))
  {
    if |s| > MaxReply {
      var u := Trim(s[..MaxReply]);
      var lastPeriod := LastIndexOf(u, '.');
      if lastPeriod > SentenceCut {
        var t := u[..lastPeriod + 1];
        assert t[0] == u[0] && t[|t| - 1] == '.';
      }
    }
  }

  lemma ShortenedShape(s: string)
    requires Trimmed(s)
    ensures 3 <= |Shortened(s)| <= MaxReply && Trimmed(Shortened(s))
  {
    TruncatedShape(s);
    FallbackShape();
  }

  /** A cleaned reply never carries a follow-up "Question:" or "User:" turn. */
  lemma CleanedHasNoFollowUp(text: string, prompt: string)
    ensures Free(Cleaned(text, prompt), "Question:") && Free(Cleaned(text, prompt), "User:")
  {
    var s1 := StripPrompt(text, prompt);
    var s2 := DropThrough(s1, "Answer:");
    var s3 := CutFrom(s2, "Question:");
    var s4 := DropThrough(s3, "Assistant:");
    var s5 := CutFrom(s4, "User:");
    NoMarkerSurvives(s3, s5, "Question:");
    NoMarkerSurvives(s3, s5, "User:");
    FallbackShape();
    assert "Question:"[8] == ':' && "User:"[4] == ':';
    MissingCharFree(Fallback, "Question:", 8);
    MissingCharFree(Fallback, "User:", 4);
  }

  /** Dropping through "Assistant:" and cutting at "User:" keep to an infix, so a marker gone stays gone. */
  lemma FreeAfterFollowUpCuts(s3: string, marker: string)
    requires Free(s3, marker)
    ensures Free(CutFrom(DropThrough(s3, "Assistant:"), "User:"), marker)
  {
    var i := IndexOf(s3, "Assistant:");
    var s4 := DropThrough(s3, "Assistant:");
    if i != -1 {
      var rest := s3[i + |"Assistant:"|..];
      FreeInfix(s3, marker, i + |"Assistant:"|, |s3|);
      assert s3[i + |"Assistant:"|..|s3|] == rest;
      FreeTrim(rest, marker);
    }
    var j := IndexOf(s4, "User:");
    if j != -1 {
      FreeInfix(s4, marker, 0, j);
      assert s4[0..j] == s4[..j];
    }
  }

  /** Truncation keeps to an infix too. */
  lemma FreeTruncated(s: string, marker: string)
    requires Free(s, marker)
    ensures Free(Truncated(s), marker)
  {
    if |s| > MaxReply {
      FreeInfix(s, marker, 0, MaxReply);
      assert s[0..MaxReply] == s[..MaxReply];
      FreeTrim(s[..MaxReply], marker);
      var t := Trim(s[..MaxReply]);
      var lastPeriod := LastIndexOf(t, '.');
      if lastPeriod > SentenceCut {
        FreeInfix(t, marker, 0, lastPeriod + 1);
        assert t[0..lastPeriod + 1] == t[..lastPeriod + 1];
      }
    }
  }

  /** Every step after the "Question:" cut keeps to an infix, so a marker gone stays gone. */
  lemma NoMarkerSurvives(s3: string, s5: string, marker: string)
    requires s5 == CutFrom(DropThrough(s3, "Assistant:"), "User:")
    requires Free(s3, marker) || Free(s5, marker)
    ensures Free(Truncated(Trim(s5)), marker)
  {
    if !Free(s5, marker) {
      FreeAfterFollowUpCuts(s3, marker);
    }
    FreeTrim(s5, marker);
    FreeTruncated(Trim(s5), marker);
  }

  /** A long text whose cut has a '.' past position 75 is ended at that '.', keeping its first character. */
  lemma TruncatedAtSentence(s: string)
    requires |s| > MaxReply && Trimmed(s)
    requires LastIndexOf(Trim(s[..MaxReply]), '.') > SentenceCut
    ensures Truncated(s)[|Truncated(s)| - 1] == '.' && Truncated(s)[0] == s[0]
  {
    var c := s[..MaxReply];
    assert c[0] == s[0];
    assert TrimStart(c) == c;
    var t := Trim(c);
    TrimEndIsPrefix(c);
    assert t == TrimEnd(c) && t[0] == c[0];
  }

  /** The same for a shortened text: the cut is long enough that the fallback does not apply. */
  lemma ShortenedAtSentence(s: string)
    requires |s| > MaxReply && Trimmed(s)
    requires LastIndexOf(Trim(s[..MaxReply]), '.') > SentenceCut
    ensures EndsWith(Shortened(s), ".") && Shortened(s)[0] == s[0]
  {
    TruncatedAtSentence(s);
    var t := Truncated(s);
    assert |t| > SentenceCut + 1;
    assert Shortened(s) == t;
    assert t[|t| - 1..] == ".";
  }

  /** A long reply whose cut has a '.' past position 75 ends at that '.'. */
  lemma LongReplyEndsAtSentence(text: string, prompt: string)
    requires |Stripped(text, prompt)| > MaxReply
    requires LastIndexOf(Trim(Stripped(text, prompt)[..MaxReply]), '.') > SentenceCut
    ensures EndsWith(Cleaned(text, prompt), ".")
    ensures Cleaned(text, prompt)[0] == Stripped(text, prompt)[0]
  {
    ShortenedAtSentence(Stripped(text, prompt));
  }

  /** Only the first occurrence of the prompt is removed: a reply that opens with it keeps the rest. */
  lemma PromptRemovedOnce(prompt: string, rest: string)
    ensures StripPrompt(prompt + rest, prompt) == Trim(rest)
  {
    var s := prompt + rest;
    assert OccursAt(s, prompt, 0) by { assert s[0..|prompt|] == prompt; }
    assert IndexOf(s, prompt) == 0;
    assert s[..0] + s[|prompt|..] == rest;
  }

  /**
   * When the model echoes the prompt (such as `FormatPrompt(question)`) and
   * then a clean short answer, the reply is exactly that answer.
   */
  lemma EchoedAnswerIsKept(prompt: string, answer: string)
    requires 3 <= |answer| <= MaxReply
    requires Trimmed(answer)
    requires Free(answer, "Answer:") && Free(answer, "Question:") && Free(answer, "Assistant:") && Free(answer, "User:")
    ensures Cleaned(prompt + answer, prompt) == answer
  {
    PromptRemovedOnce(prompt, answer);
    TrimOfTrimmed(answer);
    assert StripPrompt(prompt + answer, prompt) == answer;
    assert DropThrough(answer, "Answer:") == answer;
    assert CutFrom(answer, "Question:") == answer;
    assert DropThrough(answer, "Assistant:") == answer;
    assert CutFrom(answer, "User:") == answer;
    assert Stripped(prompt + answer, prompt) == answer;
    assert Truncated(answer) == answer;
  }

  lemma TrimOfTrimmed(s: string)
    requires Trimmed(s)
    ensures Trim(s) == s
  {
    if s != [] {
      assert TrimStart(s) == s;
      assert TrimEnd(s) == s;
    }
  }

  // ---------------------------------------------------------------------
  // Generation

  /**
   * What the text-generation pipeline returns: a list whose first entry
   * may carry `generated_text`, a plain string, an object with a
   * `generated_text` field, or anything else.
   */
  datatype Generation =
    | GeneratedList(generatedTexts: seq<Option<string>>)
    | GeneratedString(text: string)
    | GeneratedObject(generatedText: Option<string>)
    | GeneratedOther

  /** The generated text: the first entry's, the string itself, the object's, or ''. */
  function GeneratedText(g: Generation): (t: string)
    ensures g.GeneratedList? && |g.generatedTexts| > 0 ==> t == OrDefault(g.generatedTexts[0], "")
    ensures g.GeneratedString? ==> t == g.text
    ensures g.GeneratedObject? ==> t == OrDefault(g.generatedText, "")
    ensures (g.GeneratedList? && g.generatedTexts == []) || g.GeneratedOther? ==> t == ""
  {
    match g
    case GeneratedList(ts) => if |ts| > 0 then OrDefault(ts[0], "") else ""
    case GeneratedString(s) => s
    case GeneratedObject(gt) => OrDefault(gt, "")
    case GeneratedOther => ""
  }

  datatype ClientRequest = ClientRequest(text: string, conversationId: Option<string>)

  datatype ClientResponse = ClientResponse(message: string, conversationId: string, timestamp: int)

  /** The service: whether the model is loaded. */
  class LocalLLMService {
    var modelLoaded: bool

    constructor ()
      ensures !modelLoaded
    {
      modelLoaded := false;
    }

    /** Loads the model unless it is loaded; a failed load is reported with a fixed message. */
    method InitializeModel(load: Result<(), Thrown>) returns (r: Result<(), Thrown>)
      modifies this
      ensures old(modelLoaded) ==> modelLoaded && r.Ok?
      ensures !old(modelLoaded) ==> modelLoaded == load.Ok? && (r.Ok? <==> load.Ok?)
      ensures r.Fail? ==> r.error == ErrorObject(LoadFailure)
    {
      if modelLoaded {
        return Ok(());
      }
      if load.Fail? {
        r := Fail(ErrorObject(LoadFailure));
      } else {
        modelLoaded := true;
        r := Ok(());
      }
    }

    /**
     * `sendMessage`: loads the model when needed, asks it with the formatted
     * prompt and answers the cleaned reply, addressed to the request's
     * conversation or 'default'. Errors are rethrown; one that is not an
     * `Error` is replaced by a generic one.
     */
    method SendMessage(request: ClientRequest, load: Result<(), Thrown>,
                       generate: string -> Result<Generation, Thrown>, now: int)
      returns (r: Result<ClientResponse, Thrown>)
      modifies this
      ensures modelLoaded == (old(modelLoaded) || load.Ok?)
      ensures !modelLoaded ==> r == Fail(ErrorObject(LoadFailure))
      ensures modelLoaded ==>
        var prompt := FormatPrompt(request.text);
        var g := generate(prompt);
        && (g.Ok? ==> r == Ok(ClientResponse(Cleaned(GeneratedText(g.value), prompt),
                                            OrDefault(request.conversationId, "default"), now)))
        && (g.Fail? ==> r == Fail(if g.error.ErrorObject? then g.error else ErrorObject(Unexpected)))
    {
      var ready := InitializeModel(load);
      if ready.Fail? {
        return Fail(ready.error);
      }
      var prompt := FormatPrompt(request.text);
      var result := generate(prompt);
      if result.Fail? {
        return Fail(if result.error.ErrorObject? then result.error else ErrorObject(Unexpected));
      }
      var message := CleanResponse(GeneratedText(result.value), prompt);
      r := Ok(ClientResponse(message, OrDefault(request.conversationId, "default"), now));
    }

    /** `testConnection`: true exactly when the model is, or can be, loaded. */
    method TestConnection(load: Result<(), Thrown>) returns (ok: bool)
      modifies this
      ensures ok == (old(modelLoaded) || load.Ok?) && modelLoaded == ok
    {
      var r := InitializeModel(load);
      ok := r.Ok?;
    }

    function IsReady(): (ready: bool)
      reads this
      ensures ready == modelLoaded
    {
      modelLoaded
    }
  }

  /** Every successful local reply is between 3 and 150 characters. */
  lemma LocalRepliesAreShort(text: string, g: Generation)
    ensures 3 <= |Cleaned(GeneratedText(g), FormatPrompt(text))| <= MaxReply
  {
  }
}
