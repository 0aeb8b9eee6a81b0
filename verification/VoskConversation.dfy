/**
 * The conversation state of the speech-recognition app: the messages shown,
 * whether an answer is awaited, the last error and the connection flag.
 * Every callback of the hook maps the previous state to the next one.
 *
 * Clock readings are parameters (`now`, in milliseconds, also used for
 * message ids), and so are the outcomes of the server calls.
 */
module VoskConversation {
  import opened Js
  import opened LocalLlmService

  datatype Speaker = UserTurn | AiTurn

  datatype Message = Message(id: string, text: string, timestamp: int, speaker: Speaker)

  datatype State = State(messages: seq<Message>, isLoading: bool, error: Option<string>, isConnected: bool)

  /** The initial state: no messages, not loading, no error, not connected. */
  const Initial := State([], false, None, false)

  const FailedResponse := "Failed to get response from AI"

  /** The last message is the user's turn. */
  predicate EndsWithUserTurn(s: State) {
    |s.messages| > 0 && s.messages[|s.messages| - 1].speaker == UserTurn
  }

  /**
   * `updateCurrentMessage`: while an answer is awaited and the last message
   * is the user's, its text is replaced; otherwise a new user message is
   * appended.
   */
  function UpdateCurrentMessage(s: State, text: string, now: nat): (t: State)
    ensures t.isLoading == s.isLoading && t.error == s.error && t.isConnected == s.isConnected
    ensures s.isLoading && EndsWithUserTurn(s) ==>
      && |t.messages| == |s.messages|
      && t.messages[..|s.messages| - 1] == s.messages[..|s.messages| - 1]
      && var last := s.messages[|s.messages| - 1];
         t.messages[|s.messages| - 1] == last.(text := text, timestamp := now)
    ensures !(s.isLoading && EndsWithUserTurn(s)) ==>
      t.messages == s.messages + [Message(NatToString(now), text, now, UserTurn)]
    ensures EndsWithUserTurn(t) && t.messages[|t.messages| - 1].text == text
  {
    var n := |s.messages|;
    if n > 0 && s.messages[n - 1].speaker == UserTurn && s.isLoading then
      s.(messages := s.messages[n - 1 := s.messages[n - 1].(text := text, timestamp := now)])
    else
      s.(messages := s.messages + [Message(NatToString(now), text, now, UserTurn)])
  }

  /** Live transcription while waiting: however many partial texts arrive, one user message shows the latest. */
  function ApplyUpdates(s: State, texts: seq<string>, now: nat): State
    decreases |texts|
  {
    if |texts| == 0 then s else ApplyUpdates(UpdateCurrentMessage(s, texts[0], now), texts[1..], now)
  }

  lemma {:induction false} UpdatesWhileLoadingKeepOneTurn(s: State, texts: seq<string>, now: nat)
    requires s.isLoading && EndsWithUserTurn(s)
    ensures |ApplyUpdates(s, texts, now).messages| == |s.messages|
    ensures ApplyUpdates(s, texts, now).messages[..|s.messages| - 1] == s.messages[..|s.messages| - 1]
    ensures texts != [] ==>
      ApplyUpdates(s, texts, now).messages[|s.messages| - 1].text == texts[|texts| - 1]
    decreases |texts|
  {
    if |texts| > 0 {
      var next := UpdateCurrentMessage(s, texts[0], now);
      UpdatesWhileLoadingKeepOneTurn(next, texts[1..], now);
      if |texts| > 1 {
        assert texts[1..][|texts[1..]| - 1] == texts[|texts| - 1];
      }
    }
  }

  /** The request a text is sent with: trimmed, to the 'default' conversation. */
  function RequestFor(text: string): (r: ClientRequest)
    ensures r.text == Trim(text) && r.conversationId == Some("default")
  {
    ClientRequest(Trim(text), Some("default"))
  }

  /** The first update of `sendMessage`: awaiting an answer, error cleared, messages untouched. */
  function SendStarted(s: State): (t: State)
    ensures t == s.(isLoading := true, error := None)
  {
    s.(isLoading := true, error := None)
  }

  /**
   * The update once the server has answered: the answer is appended as one
   * AI message, or on failure the error is shown; either way loading ends.
   */
  function SendFinished(s: State, outcome: Result<ClientResponse, Thrown>, now: nat): (t: State)
    ensures !t.isLoading && t.isConnected == s.isConnected
    ensures outcome.Ok? ==>
      && t.error.None?
      && t.messages == s.messages + [Message(NatToString(now + 1), outcome.value.message, outcome.value.timestamp, AiTurn)]
    ensures outcome.Fail? ==>
      t.messages == s.messages && t.error == Some(MessageOr(outcome.error, FailedResponse))
  {
    match outcome
    case Ok(response) =>
      var reply := Message(NatToString(now + 1), response.message, response.timestamp, AiTurn);
      s.(messages := s.messages + [reply], isLoading := false, error := None)
    case Fail(e) =>
      s.(isLoading := false, error := Some(MessageOr(e, FailedResponse)))
  }

  /**
   * `sendMessage` when nothing else updates the state meanwhile: a blank
   * text changes nothing; otherwise the answer to `RequestFor(text)` is
   * appended, and the user message is left to `updateCurrentMessage`.
   */
  function SendMessage(s: State, text: string, send: ClientRequest -> Result<ClientResponse, Thrown>, now: nat): (t: State)
    ensures IsBlank(text) ==> t == s
    ensures !IsBlank(text) ==> t == SendFinished(SendStarted(s), send(RequestFor(text)), now)
  {
    if IsBlank(text) then s else SendFinished(SendStarted(s), send(RequestFor(text)), now)
  }

  /** A sent message adds at most one message, the AI's, and never a user message. */
  lemma SendAddsOnlyTheAnswer(s: State, text: string, send: ClientRequest -> Result<ClientResponse, Thrown>, now: nat)
    ensures var t := SendMessage(s, text, send, now);
      && t.messages[..|s.messages|] == s.messages
      && |t.messages| == |s.messages| + (if !IsBlank(text) && send(RequestFor(text)).Ok? then 1 else 0)
      && (|t.messages| > |s.messages| ==> t.messages[|s.messages|].speaker == AiTurn)
  {
    var t := SendMessage(s, text, send, now);
    assert t.messages[..|s.messages|] == s.messages;
  }

  /** `clearConversation`: no messages and no error; loading and connection kept. */
  function ClearConversation(s: State): (t: State)
    ensures t.messages == [] && t.error.None?
    ensures t.isLoading == s.isLoading && t.isConnected == s.isConnected
  {
    s.(messages := [], error := None)
  }

  /** `clearError`: only the error is reset. */
  function ClearError(s: State): (t: State)
    ensures t.error.None? && t.messages == s.messages
    ensures t.isLoading == s.isLoading && t.isConnected == s.isConnected
  {
    s.(error := None)
  }

  /** `testConnection`: the probe's answer, false when it throws; only the connection flag changes. */
  function TestConnection(s: State, probe: Result<bool, Thrown>): (r: (State, bool))
    ensures r.1 <==> probe.Ok? && probe.value
    ensures r.0 == s.(isConnected := r.1)
  {
    var connected := probe.Ok? && probe.value;
    (s.(isConnected := connected), connected)
  }
}
