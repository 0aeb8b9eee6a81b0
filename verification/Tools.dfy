/**
 * The tools offered to the model while it answers: the notification hook
 * that the streaming chat route listens on, and the `web_search` tool.
 *
 * The registered callback is identified by a number; each call the tool
 * makes to it is recorded in `notifications` as the pair of that number and
 * the tool name, which is what the callback receives.
 */
module Tools {
  import opened Js
  import opened BraveSearch

  const ToolName: string := "web_search"
  const MissingQueryMessage: string := "Error: Query parameter is required and must be a string"
  const NoResultsMessage: string := "No search results found."
  const SearchCount: int := 5

  /** The `query` argument as the model supplied it. */
  datatype QueryParam = QueryAbsent | QueryText(text: string) | QueryNotText

  /** The tools passed to the model, by name. */
  const Functions: set<string> := {ToolName}

  /** One result as the model reads it: "k. title\ndescription\nurl". */
  function ResultEntry(k: nat, r: BraveSearchResult): string {
    NatToString(k) + ". " + r.title + "\n" + r.description + "\n" + r.url
  }

  /** The entries of `rs`, numbered from `first`. */
  function ResultEntries(rs: seq<BraveSearchResult>, first: nat): (entries: seq<string>)
    ensures |entries| == |rs|
    ensures forall i :: 0 <= i < |rs| ==> entries[i] == ResultEntry(first + i, rs[i])
  {
    if |rs| == 0 then [] else [ResultEntry(first, rs[0])] + ResultEntries(rs[1..], first + 1)
  }

  /** `results.map((r, i) => ...).join("\n\n")`: every result's numbered entry is in the text. */
  function FormatResults(rs: seq<BraveSearchResult>): (r: string)
    ensures rs == [] ==> r == ""
    ensures rs != [] ==> StartsWith(r, "1. " + rs[0].title + "\n" + rs[0].description + "\n" + rs[0].url)
    ensures forall i :: 0 <= i < |rs| ==> Contains(r, ResultEntry(i + 1, rs[i]))
  {
    var lines := ResultEntries(rs, 1);
    var text := Join(lines, "\n\n");
    assert rs != [] ==> StartsWith(text, "1. " + rs[0].title + "\n" + rs[0].description + "\n" + rs[0].url) by {
      if rs != [] {
        JoinStartsWithFirst(lines, "\n\n");
        assert lines[0] == "1. " + rs[0].title + "\n" + rs[0].description + "\n" + rs[0].url;
      }
    }
    assert forall i :: 0 <= i < |rs| ==> Contains(text, ResultEntry(i + 1, rs[i])) by {
      forall i | 0 <= i < |rs|
        ensures Contains(text, ResultEntry(i + 1, rs[i]))
      {
        JoinContainsEach(lines, "\n\n", i);
      }
    }
    text
  }

  /** What the tool tells the model, given what the provider did. */
  function ToolAnswer(outcome: Result<seq<BraveSearchResult>, Thrown>): (answer: string)
    ensures outcome.Fail? ==>
      answer == "Error performing web search: " + MessageOr(outcome.error, "Unknown error during web search")
    ensures outcome.Ok? && outcome.value == [] ==> answer == NoResultsMessage
    ensures outcome.Ok? && outcome.value != [] ==> answer == FormatResults(outcome.value)
  {
    match outcome
    case Fail(t) => "Error performing web search: " + MessageOr(t, "Unknown error during web search")
    case Ok(rs) => if |rs| == 0 then NoResultsMessage else FormatResults(rs)
  }

  /** The module-level `toolCallCallback` and what it has been told. */
  class ToolRegistry {
    var callback: Option<nat>
    var notifications: seq<(nat, string)>

    constructor ()
      ensures callback == None && notifications == []
    {
      callback := None;
      notifications := [];
    }

    method SetToolCallCallback(listener: nat)
      modifies this
      ensures callback == Some(listener) && notifications == old(notifications)
    {
      callback := Some(listener);
    }

    method ClearToolCallCallback()
      modifies this
      ensures callback == None && notifications == old(notifications)
    {
      callback := None;
    }

    /**
     * The `web_search` handler. The registered callback, if any, hears of the
     * call first, whatever the arguments. A missing, empty or non-string
     * query is answered with an error text and the provider is not asked;
     * otherwise the provider is asked for five results and whatever it does,
     * failures included, becomes the text handed back to the model.
     */
    method WebSearch(
      limiter: RateLimiter, query: QueryParam, apiKey: Option<string>, now: int, delay: nat,
      fetch: BraveRequest -> Result<BraveResponse, Thrown>)
      returns (answer: string, sent: Option<BraveRequest>)
      modifies this, limiter
      ensures callback == old(callback)
      ensures old(callback).Some? ==> notifications == old(notifications) + [(old(callback).value, ToolName)]
      ensures old(callback).None? ==> notifications == old(notifications)
      ensures !(query.QueryText? && query.text != "") ==>
        answer == MissingQueryMessage && sent == None && limiter.lastQueryTime == old(limiter.lastQueryTime)
      ensures query.QueryText? && query.text != "" && Truthy(apiKey) ==>
        && sent == Some(BraveRequest(query.text, SearchCount, apiKey.value))
        && answer == ToolAnswer(InterpretResponse(fetch(sent.value)))
        && limiter.lastQueryTime >= old(limiter.lastQueryTime) + MinIntervalMs
        && limiter.lastQueryTime >= now
      ensures query.QueryText? && query.text != "" && !Truthy(apiKey) ==>
        answer == "Error performing web search: " + MissingKeyMessage && sent == None
        && limiter.lastQueryTime == old(limiter.lastQueryTime)
    {
      if callback.Some? {
        notifications := notifications + [(callback.value, ToolName)];
      }
      if !(query.QueryText? && query.text != "") {
        return MissingQueryMessage, None;
      }
      var results;
      results, sent := limiter.BraveWebSearch(query.text, Some(SearchCount), apiKey, now, delay, fetch);
      answer := ToolAnswer(results);
    }
  }
}
