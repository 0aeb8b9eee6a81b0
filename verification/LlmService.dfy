/**
 * The server's chat service: it initialises the language model once, sends
 * search-like texts through an encyclopedia search and a summary prompt,
 * sends other texts to the model as they are, and lifts dynamic UI
 * components out of replies that are JSON.
 *
 * The model, the search service and `JSON.parse` are function parameters:
 * `prompt` maps a prompt to what the model answers, `search` a search
 * request to what the search service returns, and `parse` a reply to what
 * parsing it finds. Whether loading the model succeeds is the parameter
 * `load`, and the clock reading for the timestamp is `now`.
 */
module LlmService {
  import opened Js
  import opened ServerTypes
  import opened SearchService

  const NoQueryMessage := "No search query provided"
  const Apology := "I'm sorry, I couldn't search Wikipedia at the moment. Please try again later."
  const VoiceNotImplemented := "Voice processing not yet implemented"
  const SearchMaxResults := 5

  /**
   * What `JSON.parse` makes of a reply, as far as the service looks at it:
   * no JSON, or an object with its `text` and, when truthy, its `components`.
   */
  datatype ParsedReply = NotJson | JsonReply(text: string, components: Option<seq<DynamicComponent>>)

  /** One search result as it is shown to the model, numbered `k`. */
  function ResultLine(k: nat, r: WikipediaSearchResult): string {
    NatToString(k) + ". " + r.title + "\n" + r.snippet + "\n" + r.url
  }

  /** The lines of `rs`, numbered from `first` in result order. */
  function ResultLines(rs: seq<WikipediaSearchResult>, first: nat): (lines: seq<string>)
    ensures |lines| == |rs|
    ensures forall i :: 0 <= i < |rs| ==> lines[i] == ResultLine(first + i, rs[i])
  {
    if |rs| == 0 then [] else [ResultLine(first, rs[0])] + ResultLines(rs[1..], first + 1)
  }

  /** The numbered results, separated by blank lines: every result's numbered entry is in the text. */
  function FormatSearchResults(rs: seq<WikipediaSearchResult>): (r: string)
    ensures rs == [] ==> r == ""
    ensures rs != [] ==> StartsWith(r, "1. " + rs[0].title + "\n" + rs[0].snippet + "\n" + rs[0].url)
    ensures forall i :: 0 <= i < |rs| ==> Contains(r, ResultLine(i + 1, rs[i]))
  {
    var lines := ResultLines(rs, 1);
    var text := Join(lines, "\n\n");
    assert rs != [] ==> StartsWith(text, "1. " + rs[0].title + "\n" + rs[0].snippet + "\n" + rs[0].url) by {
      if rs != [] {
        JoinStartsWithFirst(lines, "\n\n");
        assert lines[0] == "1. " + rs[0].title + "\n" + rs[0].snippet + "\n" + rs[0].url;
      }
    }
    assert forall i :: 0 <= i < |rs| ==> Contains(text, ResultLine(i + 1, rs[i])) by {
      forall i | 0 <= i < |rs|
        ensures Contains(text, ResultLine(i + 1, rs[i]))
      {
        JoinContainsEach(lines, "\n\n", i);
      }
    }
    text
  }

  const SummaryLead := "Summarize the following Wikipedia search results for the query: \""
  const SummaryMiddle := "\". Be helpful in tone and provide a concise answer.\n\nResults:\n"

  /** The prompt that asks the model to summarise the search results for `query`. */
  function SummaryPrompt(query: string, rs: seq<WikipediaSearchResult>): (p: string)
    ensures StartsWith(p, SummaryLead + query + SummaryMiddle)
    ensures EndsWith(p, FormatSearchResults(rs))
    ensures |p| == |SummaryLead + query + SummaryMiddle| + |FormatSearchResults(rs)|
  {
    var head := SummaryLead + query + SummaryMiddle;
    var p := head + FormatSearchResults(rs);
    assert p[..|head|] == head;
    assert p[|p| - |FormatSearchResults(rs)|..] == FormatSearchResults(rs);
    p
  }

  /**
   * The model's raw reply to `text`. A search prompt without a query fails;
   * any other search prompt searches for its query, five results at most,
   * and has the model summarise them, answering with the apology when
   * either step fails. Every other text goes to the model unchanged.
   */
  function RawReply(text: string, prompt: string -> Result<string, Thrown>,
                    search: SearchRequest -> Result<SearchResponse, Thrown>): (r: Result<string, Thrown>)
    ensures !IsSearchPrompt(text) ==> r == prompt(text)
    ensures IsSearchPrompt(text) && ExtractSearchQuery(text) == "" ==> r == Fail(ErrorObject(NoQueryMessage))
    ensures IsSearchPrompt(text) && ExtractSearchQuery(text) != "" ==>
      var query := ExtractSearchQuery(text);
      var found := search(SearchRequest(query, Some(SearchMaxResults)));
      && r.Ok?
      && (found.Fail? ==> r.value == Apology)
      && (found.Ok? ==>
            var summary := prompt(SummaryPrompt(query, found.value.results));
            r.value == if summary.Ok? then summary.value else Apology)
  {
    if IsSearchPrompt(text) then
      var query := ExtractSearchQuery(text);
      if query == "" then Fail(ErrorObject(NoQueryMessage))
      else
        match search(SearchRequest(query, Some(SearchMaxResults)))
        case Fail(_) => Ok(Apology)
        case Ok(found) =>
          match prompt(SummaryPrompt(query, found.results))
          case Fail(_) => Ok(Apology)
          case Ok(summary) => Ok(summary)
    else prompt(text)
  }

  /**
   * The message and components of a reply: those of the parsed object when
   * it carries components, otherwise the reply itself and no components.
   */
  function WithComponents(reply: string, parse: string -> ParsedReply): (mc: (string, Option<seq<DynamicComponent>>))
    ensures parse(reply).JsonReply? && parse(reply).components.Some? ==>
      mc == (parse(reply).text, parse(reply).components)
    ensures !(parse(reply).JsonReply? && parse(reply).components.Some?) ==> mc == (reply, None)
  {
    match parse(reply)
    case JsonReply(t, Some(cs)) => (t, Some(cs))
    case _ => (reply, None)
  }

  /**
   * What `processChat` resolves to once the model is loaded: a failure is
   * rethrown as "Failed to process chat: <message>"; a reply becomes the
   * response, addressed to the request's conversation or "default".
   */
  function ChatOutcome(
    request: ChatRequest, prompt: string -> Result<string, Thrown>,
    search: SearchRequest -> Result<SearchResponse, Thrown>, parse: string -> ParsedReply, now: int)
    : (r: Result<ChatResponse, Thrown>)
    requires request.text.Some?
    ensures var raw := RawReply(request.text.value, prompt, search);
      && (raw.Fail? ==> r == Fail(ErrorObject("Failed to process chat: " + MessageOr(raw.error, "Unknown error"))))
      && (raw.Ok? ==>
            var mc := WithComponents(raw.value, parse);
            r == Ok(ChatResponse(mc.0, OrDefault(request.conversationId, "default"), now, mc.1)))
  {
    match RawReply(request.text.value, prompt, search)
    case Fail(e) => Fail(ErrorObject("Failed to process chat: " + MessageOr(e, "Unknown error")))
    case Ok(reply) =>
      var (message, components) := WithComponents(reply, parse);
      Ok(ChatResponse(message, OrDefault(request.conversationId, "default"), now, components))
  }

  /** A search prompt that names a query never fails: the search path falls back to the apology. */
  lemma SearchPathNeverFails(
    request: ChatRequest, prompt: string -> Result<string, Thrown>,
    search: SearchRequest -> Result<SearchResponse, Thrown>, parse: string -> ParsedReply, now: int)
    requires request.text.Some? && IsSearchPrompt(request.text.value)
    ensures ExtractSearchQuery(request.text.value) == "" <==> ChatOutcome(request, prompt, search, parse, now).Fail?
    ensures ChatOutcome(request, prompt, search, parse, now).Fail? ==>
      ChatOutcome(request, prompt, search, parse, now).error == ErrorObject("Failed to process chat: " + NoQueryMessage)
  {
  }

  /** Texts that are not search prompts reach the model unchanged, and only its failure fails the chat. */
  lemma PlainPathAsksModel(
    request: ChatRequest, prompt: string -> Result<string, Thrown>,
    search: SearchRequest -> Result<SearchResponse, Thrown>, parse: string -> ParsedReply, now: int)
    requires request.text.Some? && !IsSearchPrompt(request.text.value)
    ensures ChatOutcome(request, prompt, search, parse, now).Fail? <==> prompt(request.text.value).Fail?
    ensures forall other: SearchRequest -> Result<SearchResponse, Thrown> ::
      ChatOutcome(request, prompt, other, parse, now) == ChatOutcome(request, prompt, search, parse, now)
  {
  }

  /** `processVoice` always rejects. */
  function ProcessVoice(audioData: string): (r: Result<ChatResponse, Thrown>)
    ensures r.Fail? && r.error.ErrorObject? && r.error.message == VoiceNotImplemented
  {
    Fail(ErrorObject(VoiceNotImplemented))
  }

  /** The service with its one-time initialisation. */
  class LLMService {
    var initialized: bool

    constructor ()
      ensures !initialized
    {
      initialized := false;
    }

    /** Loads the model unless that already happened; a failed load is rethrown and leaves it unloaded. */
    method Initialize(load: Result<(), Thrown>) returns (r: Result<(), Thrown>)
      modifies this
      ensures old(initialized) ==> initialized && r.Ok?
      ensures !old(initialized) ==> r == load && initialized == load.Ok?
    {
      if initialized {
        return Ok(());
      }
      r := load;
      initialized := load.Ok?;
    }

    /**
     * `processChat`: initialises first when needed, rethrowing a load
     * failure as it is; once loaded it answers `ChatOutcome`.
     */
    method ProcessChat(
      request: ChatRequest, load: Result<(), Thrown>, prompt: string -> Result<string, Thrown>,
      search: SearchRequest -> Result<SearchResponse, Thrown>, parse: string -> ParsedReply, now: int)
      returns (r: Result<ChatResponse, Thrown>)
      requires request.text.Some?
      modifies this
      ensures initialized == (old(initialized) || load.Ok?)
      ensures !old(initialized) && load.Fail? ==> r == Fail(load.error)
      ensures initialized ==> r == ChatOutcome(request, prompt, search, parse, now)
    {
      if !initialized {
        var loaded := Initialize(load);
        if loaded.Fail? {
          return Fail(loaded.error);
        }
      }
      r := ChatOutcome(request, prompt, search, parse, now);
    }
  }

  /** Once loaded, the load outcome plays no part: initialisation runs at most once. */
  method ProcessChatTwice(
    service: LLMService, request: ChatRequest, load1: Result<(), Thrown>, load2: Result<(), Thrown>,
    prompt: string -> Result<string, Thrown>, search: SearchRequest -> Result<SearchResponse, Thrown>,
    parse: string -> ParsedReply, now: int)
    returns (first: Result<ChatResponse, Thrown>, second: Result<ChatResponse, Thrown>)
    requires request.text.Some?
    modifies service
    ensures load1.Ok? ==> service.initialized && first == second
    ensures old(service.initialized) ==> first == second == ChatOutcome(request, prompt, search, parse, now)
  {
    first := service.ProcessChat(request, load1, prompt, search, parse, now);
    second := service.ProcessChat(request, load2, prompt, search, parse, now);
  }
}
