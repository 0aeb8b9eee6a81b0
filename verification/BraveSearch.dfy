/**
 * The web search provider: the search-prompt test, the one-query-per-second
 * rate limiter and the shaping of the provider's JSON answer.
 *
 * The API key read from the environment, the clock and the HTTP exchange
 * are parameters. `fetch` maps the request the provider would send to the
 * outcome of sending it; `delay` is how much longer than asked the timer
 * of `sleep` took.
 */
module BraveSearch {
  import opened Js

  /**
   * `/^\s*search for\b/i.test(text)`: after leading white space comes
   * "search for" in any case, and then the end or a non-word character.
   */
  predicate IsWebSearchPrompt(text: string): (b: bool)
    ensures b <==> exists k :: WordAfterBlank(text, "search for", k) && (k + 10 == |text| || !IsWordChar(text[k + 10]))
  {
    var t := TrimStart(text);
    assert forall k :: WordAfterBlank(text, "search for", k) <==>
                       k == |text| - |t| && StartsWithIgnoringCase(t, "search for") by {
      forall k {
        WordAfterBlankAt(text, "search for", k);
      }
    }
    var k0 := |text| - |t|;
    TrimStartAfterLeadingBlank(text);
    assert |t| > 10 ==> t[10] == text[k0 + 10];
    assert StartsWithIgnoringCase(t, "search for") ==> WordAfterBlank(text, "search for", k0);
    StartsWithIgnoringCase(t, "search for") && (|t| == 10 || !IsWordChar(t[10]))
  }

  /** Text that begins with "search for" and then a non-word character or nothing is a search prompt. */
  lemma SearchForIsWebSearchPrompt(rest: string)
    requires rest == [] || !IsWordChar(rest[0])
    ensures IsWebSearchPrompt("search for" + rest)
  {
    var t := "search for" + rest;
    assert !IsSpace(t[0]);
    assert TrimStart(t) == t;
    assert t[..10] == "search for";
    assert |t| == 10 || t[10] == rest[0];
  }

  /** Leading white space never changes the verdict. */
  lemma WebSearchPromptIgnoresLeadingSpace(ws: string, text: string)
    requires IsBlank(ws)
    ensures IsWebSearchPrompt(ws + text) == IsWebSearchPrompt(text)
  {
    TrimStartSkipsBlank(ws, text);
  }

  /** A word that merely begins with "search for" is not a search prompt. */
  lemma SearchForWordIsNotWebSearchPrompt(rest: string)
    requires |rest| > 0 && IsWordChar(rest[0])
    ensures !IsWebSearchPrompt("search for" + rest)
  {
    var t := "search for" + rest;
    assert !IsSpace(t[0]);
    assert TrimStart(t) == t;
    assert t[10] == rest[0];
  }

  datatype BraveSearchResult = BraveSearchResult(title: string, url: string, description: string)

  /** One entry of `web.results` as it arrives. */
  datatype BraveItem = BraveItem(title: string, url: string, description: Option<string>, snippet: Option<string>)

  /**
   * The parsed JSON body: `web` absent, or present with `results` that is an
   * array (`Some`) or something else (`None`).
   */
  datatype BraveBody = NoWeb | Web(results: Option<seq<BraveItem>>)

  /** What `fetch` gave back. */
  datatype BraveResponse =
    | NotOk(status: int, statusText: string, errorText: string)
    | OkJson(body: BraveBody)

  /** The query string the provider sends. */
  datatype BraveRequest = BraveRequest(q: string, count: int, apiKey: string)

  const MissingKeyMessage: string :=
    "Brave Search API key not set. Please set BRAVE_SEARCH_API_KEY in your environment."
  const UnexpectedFormatMessage: string := "Unexpected Brave Search API response format"
  const DefaultCount: int := 5
  const MinIntervalMs: int := 1000

  /** `item.description || item.snippet || ''` */
  function ShapeItem(item: BraveItem): (r: BraveSearchResult)
    ensures r.title == item.title && r.url == item.url
    ensures Truthy(item.description) ==> r.description == item.description.value
    ensures !Truthy(item.description) && Truthy(item.snippet) ==> r.description == item.snippet.value
    ensures !Truthy(item.description) && !Truthy(item.snippet) ==> r.description == ""
  {
    BraveSearchResult(item.title, item.url, OrDefault(item.description, OrDefault(item.snippet, "")))
  }

  function ShapeItems(items: seq<BraveItem>): (r: seq<BraveSearchResult>)
    ensures |r| == |items|
    ensures forall i :: 0 <= i < |items| ==> r[i] == ShapeItem(items[i])
  {
    if |items| == 0 then [] else [ShapeItem(items[0])] + ShapeItems(items[1..])
  }

  /** What the provider makes of the HTTP exchange: an error status or a malformed body throws. */
  function InterpretResponse(outcome: Result<BraveResponse, Thrown>): (r: Result<seq<BraveSearchResult>, Thrown>)
    ensures outcome.Fail? ==> r == Fail(outcome.error)
    ensures outcome.Ok? && outcome.value.NotOk? ==>
      r == Fail(ErrorObject("Brave Search API error: " + IntToString(outcome.value.status) + " "
                            + outcome.value.statusText + " - " + outcome.value.errorText))
    ensures outcome.Ok? && outcome.value.OkJson? && !(outcome.value.body.Web? && outcome.value.body.results.Some?) ==>
      r == Fail(ErrorObject(UnexpectedFormatMessage))
    ensures r.Ok? ==> exists items ::
      outcome == Ok(OkJson(Web(Some(items)))) && r.value == ShapeItems(items) && |r.value| == |items|
  {
    match outcome
    case Fail(t) => Fail(t)
    case Ok(NotOk(status, statusText, errorText)) =>
      Fail(ErrorObject("Brave Search API error: " + IntToString(status) + " " + statusText + " - " + errorText))
    case Ok(OkJson(NoWeb)) => Fail(ErrorObject(UnexpectedFormatMessage))
    case Ok(OkJson(Web(None))) => Fail(ErrorObject(UnexpectedFormatMessage))
    case Ok(OkJson(Web(Some(items)))) => Ok(ShapeItems(items))
  }

  /** The module-level `lastQueryTime`, shared by every query. */
  class RateLimiter {
    var lastQueryTime: int

    constructor ()
      ensures lastQueryTime == 0
    {
      lastQueryTime := 0;
    }

    /**
     * `braveWebSearch(query, {count})` at clock reading `now`. Without a key it
     * throws before the limiter is consulted. Otherwise it sleeps until a
     * second has passed since the previous query, records the clock reading
     * after the sleep as the new query time and sends the request.
     */
    method BraveWebSearch(
      query: string, count: Option<int>, apiKey: Option<string>, now: int, delay: nat,
      fetch: BraveRequest -> Result<BraveResponse, Thrown>)
      returns (r: Result<seq<BraveSearchResult>, Thrown>, sent: Option<BraveRequest>)
      modifies this
      ensures !Truthy(apiKey) ==>
        r == Fail(ErrorObject(MissingKeyMessage)) && sent == None && lastQueryTime == old(lastQueryTime)
      ensures Truthy(apiKey) ==>
        && sent == Some(BraveRequest(query, count.GetOr(DefaultCount), apiKey.value))
        && r == InterpretResponse(fetch(sent.value))
        && lastQueryTime >= old(lastQueryTime) + MinIntervalMs
        && lastQueryTime >= now
        && (now - old(lastQueryTime) >= MinIntervalMs ==> lastQueryTime == now + delay)
        && (now - old(lastQueryTime) < MinIntervalMs ==> lastQueryTime == old(lastQueryTime) + MinIntervalMs + delay)
    {
      if !Truthy(apiKey) {
        return Fail(ErrorObject(MissingKeyMessage)), None;
      }
      var elapsed := now - lastQueryTime;
      var waited := 0;
      if elapsed < MinIntervalMs {
        waited := MinIntervalMs - elapsed;
      }
      lastQueryTime := now + waited + delay;
      var request := BraveRequest(query, count.GetOr(DefaultCount), apiKey.value);
      sent := Some(request);
      r := InterpretResponse(fetch(request));
    }
  }
}
