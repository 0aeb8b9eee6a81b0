/**
 * The conversation state of the mobile app: separate state cells for the
 * messages, the loading flag, the error, the connection flag and the
 * conversation id, set one after another by the hook's callbacks.
 *
 * The server calls are parameters (`send` from the request to its outcome,
 * and the outcomes of the connection probe and of clearing on the server);
 * `now` is the clock reading, in milliseconds, also used for message ids.
 */
module MobileConversation {
  import opened Js
  import opened ServerTypes

  datatype Speaker = UserSide | AssistantSide

  datatype Message = Message(
    id: string,
    text: string,
    timestamp: int,
    speaker: Speaker,
    conversationId: string,
    components: Option<seq<DynamicComponent>>)

  const FailedSend := "Failed to send message"
  const Unreachable := "Unable to connect to AI server"
  const ProbeFailed := "Connection test failed"
  const ClearFailed := "Failed to clear conversation"
  const MobileUser := "mobile-user"

  /** The request a text is sent with. */
  function RequestFor(text: string, conversationId: string): (r: ChatRequest)
    ensures r.text == Some(Trim(text)) && r.conversationId == Some(conversationId)
    ensures r.frontendType == Some(Mobile) && r.userId == Some(MobileUser)
  {
    ChatRequest(Some(Trim(text)), Some(conversationId), Some(Mobile), Some(MobileUser))
  }

  /** The assistant's message for a response. */
  function AssistantMessage(response: ChatResponse, now: nat): (m: Message)
    ensures m.speaker == AssistantSide && m.text == response.message && m.timestamp == response.timestamp
    ensures m.conversationId == response.conversationId && m.components == response.components
  {
    Message(NatToString(now), response.message, response.timestamp, AssistantSide,
            response.conversationId, response.components)
  }

  class Conversation {
    var messages: seq<Message>
    var isLoading: bool
    var error: Option<string>
    var isConnected: bool
    var conversationId: string

    /** No messages, not loading, no error, not connected, conversation 'default'. */
    constructor ()
      ensures messages == [] && !isLoading && error.None? && !isConnected && conversationId == "default"
    {
      messages := [];
      isLoading := false;
      error := None;
      isConnected := false;
      conversationId := "default";
    }

    /**
     * `sendMessage`: ignored for a blank text or while a request is under
     * way. Otherwise the trimmed text is sent; on success the response's
     * conversation id is adopted and one assistant message carrying its
     * components is appended; on failure the error is shown. Loading ends
     * either way. `sent` is the request that went out, if any.
     */
    method SendMessage(text: string, send: ChatRequest -> Result<ChatResponse, Thrown>, now: nat)
      returns (sent: Option<ChatRequest>)
      modifies this
      ensures isConnected == old(isConnected)
      ensures IsBlank(text) || old(isLoading) ==>
        && sent.None?
        && messages == old(messages) && isLoading == old(isLoading)
        && error == old(error) && conversationId == old(conversationId)
      ensures !(IsBlank(text) || old(isLoading)) ==> sent == Some(RequestFor(text, old(conversationId))) && !isLoading
      ensures sent.Some? && send(sent.value).Ok? ==>
        && messages == old(messages) + [AssistantMessage(send(sent.value).value, now)]
        && conversationId == send(sent.value).value.conversationId
        && error.None?
      ensures sent.Some? && send(sent.value).Fail? ==>
        && messages == old(messages)
        && conversationId == old(conversationId)
        && error == Some(MessageOr(send(sent.value).error, FailedSend))
    {
      if IsBlank(text) || isLoading {
        return None;
      }
      isLoading := true;
      error := None;
      var request := RequestFor(text, conversationId);
      sent := Some(request);
      var outcome := send(request);
      match outcome {
        case Ok(response) =>
          conversationId := response.conversationId;
          messages := messages + [AssistantMessage(response, now)];
        case Fail(e) =>
          error := Some(MessageOr(e, FailedSend));
      }
      isLoading := false;
    }

    /**
     * `updateCurrentMessage`: ignores a blank text and a text equal to the
     * last message when that is the user's; otherwise appends the trimmed
     * text as a user message. The comparison is with the untrimmed text.
     */
    method UpdateCurrentMessage(text: string, now: nat)
      modifies this
      ensures isLoading == old(isLoading) && error == old(error)
      ensures isConnected == old(isConnected) && conversationId == old(conversationId)
      ensures IsRepeat(old(messages), text) ==> messages == old(messages)
      ensures !IsRepeat(old(messages), text) ==>
        messages == old(messages) + [Message(NatToString(now), Trim(text), now, UserSide, conversationId, None)]
    {
      if IsBlank(text) {
        return;
      }
      if |messages| > 0 && messages[|messages| - 1].speaker == UserSide && messages[|messages| - 1].text == text {
        return;
      }
      messages := messages + [Message(NatToString(now), Trim(text), now, UserSide, conversationId, None)];
    }

    /**
     * `clearConversation`: the messages are emptied, and the error cleared,
     * only once the server has cleared the conversation; otherwise the error
     * says so and the messages stay.
     */
    method ClearConversation(serverClear: Result<(), Thrown>)
      modifies this
      ensures isLoading == old(isLoading) && isConnected == old(isConnected)
      ensures conversationId == old(conversationId)
      ensures serverClear.Ok? ==> messages == [] && error.None?
      ensures serverClear.Fail? ==> messages == old(messages) && error == Some(ClearFailed)
    {
      if serverClear.Ok? {
        messages := [];
        error := None;
      } else {
        error := Some(ClearFailed);
      }
    }

    method ClearError()
      modifies this
      ensures error.None? && messages == old(messages) && isLoading == old(isLoading)
      ensures isConnected == old(isConnected) && conversationId == old(conversationId)
    {
      error := None;
    }

    /**
     * `testConnection`: the probe's answer becomes the connection flag, with
     * an error when the server is unreachable; a probe that throws leaves
     * the app disconnected with its own error.
     */
    method TestConnection(probe: Result<bool, Thrown>)
      modifies this
      ensures messages == old(messages) && isLoading == old(isLoading) && conversationId == old(conversationId)
      ensures isConnected <==> probe.Ok? && probe.value
      ensures probe.Ok? ==> error == if probe.value then None else Some(Unreachable)
      ensures probe.Fail? ==> error == Some(ProbeFailed)
    {
      match probe {
        case Ok(connected) =>
          isConnected := connected;
          error := if connected then None else Some(Unreachable);
        case Fail(_) =>
          isConnected := false;
          error := Some(ProbeFailed);
      }
    }
  }

  /**
   * The repeat check of `updateCurrentMessage`: blank, or equal to the user's
   * last message as typed. A non-blank repeat is a text the user sent, and
   * once the assistant has answered only a blank text is a repeat.
   */
  predicate IsRepeat(messages: seq<Message>, text: string): (b: bool)
    ensures IsBlank(text) ==> b
    ensures b && !IsBlank(text) ==>
      exists i :: 0 <= i < |messages| && messages[i].speaker == UserSide && messages[i].text == text
    ensures messages == [] || messages[|messages| - 1].speaker == AssistantSide ==> (b <==> IsBlank(text))
  {
    IsBlank(text)
    || (|messages| > 0 && messages[|messages| - 1].speaker == UserSide && messages[|messages| - 1].text == text)
  }

  /** A text already trimmed is recognised as a repeat of the user's message it produced. */
  lemma TrimmedTextIsDeduplicated(messages: seq<Message>, text: string, now: nat, cid: string)
    requires Trim(text) == text && !IsBlank(text)
    ensures IsRepeat(messages + [Message(NatToString(now), Trim(text), now, UserSide, cid, None)], text)
  {
  }

  /**
   * A text with surrounding white space is stored trimmed but compared as
   * typed, so sending it twice shows it twice.
   */
  lemma PaddedTextIsNotDeduplicated(messages: seq<Message>, text: string, now: nat, cid: string)
    requires Trim(text) != text && !IsBlank(text)
    ensures !IsRepeat(messages + [Message(NatToString(now), Trim(text), now, UserSide, cid, None)], text)
  {
  }

  /** Two sends in a row from an idle state: the second is accepted, as loading ended with the first. */
  method SendTwice(c: Conversation, first: string, second: string,
                   send: ChatRequest -> Result<ChatResponse, Thrown>, now: nat)
    returns (sentFirst: Option<ChatRequest>, sentSecond: Option<ChatRequest>)
    requires !c.isLoading && !IsBlank(first) && !IsBlank(second)
    modifies c
    ensures sentFirst.Some? && sentSecond.Some?
    ensures |c.messages| <= |old(c.messages)| + 2
  {
    sentFirst := c.SendMessage(first, send, now);
    sentSecond := c.SendMessage(second, send, now + 1);
  }
}
