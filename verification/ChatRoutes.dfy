/**
 * The conversation routes under `/api`: `POST /chat`, `GET` and `DELETE`
 * `/conversations/:id` and `GET /stats`, driving the conversation store.
 *
 * The chat service is a function parameter from the request it receives to
 * its outcome; `Date.now()` readings are parameters (`before` is read when
 * the user message is built, `after` once the chat service has answered),
 * and the uuid of a conversation created on the way is `freshId`.
 */
module ChatRoutes {
  import opened Js
  import opened ServerTypes
  import opened Sessions

  /** What the chat route sends back. */
  datatype ChatReply =
    | ChatAnswered(response: ChatResponse)
    | ChatRejected(status: nat, error: string, message: string)

  /** What the conversation routes send back. */
  datatype ConversationReply =
    | Found(conversation: Conversation, messages: seq<ChatMessage>)
    | Cleared(message: string, conversationId: string)
    | ConversationMissing(status: nat, error: string, message: string)

  /** The conversation the chat route works on, before its messages are appended. */
  function ResolvedConversation(
    req: ChatRequest, m: map<string, Conversation>, freshId: string, now: int): (c: Conversation)
    ensures Truthy(req.conversationId) && req.conversationId.value in m ==> c == m[req.conversationId.value]
    ensures !(Truthy(req.conversationId) && req.conversationId.value in m) ==>
      c.id == freshId && c.messages == [] && c.userId == req.userId
      && c.frontendType == req.frontendType.GetOr(Web)
  {
    if Truthy(req.conversationId) && req.conversationId.value in m then m[req.conversationId.value]
    else Conversation(freshId, req.userId, [], now, now, req.frontendType.GetOr(Web))
  }

  /** The message the user sent, stamped with the clock reading `now`. */
  function UserMessage(text: string, conversationId: string, now: nat): (m: ChatMessage)
    ensures m.sender == FromUser && m.text == text && m.conversationId == conversationId && m.timestamp == now
  {
    ChatMessage(NatToString(now), text, now, FromUser, conversationId)
  }

  /** The assistant's answer, with the answer's own timestamp. */
  function AssistantMessage(answer: ChatResponse, conversationId: string, now: nat): (m: ChatMessage)
    ensures m.sender == FromAssistant && m.text == answer.message && m.timestamp == answer.timestamp
    ensures m.conversationId == conversationId
  {
    ChatMessage(NatToString(now + 1), answer.message, answer.timestamp, FromAssistant, conversationId)
  }

  /**
   * The user's message id reads back as its clock reading and the assistant's
   * as one more, so two messages stamped at one reading never share an id.
   */
  lemma MessageIdsReadBack(text: string, answer: ChatResponse, conversationId: string, now: nat)
    ensures ParseInt(UserMessage(text, conversationId, now).id) == Some(now)
    ensures ParseInt(AssistantMessage(answer, conversationId, now).id) == Some(now + 1)
    ensures UserMessage(text, conversationId, now).id != AssistantMessage(answer, conversationId, now).id
  {
    ParseIntOfNatToString(now);
    ParseIntOfNatToString(now + 1);
  }

  /**
   * `POST /chat`. A missing or blank text is refused with 400 before the
   * store is touched. Otherwise the conversation is resolved (created under
   * `freshId` when the caller's id is unknown), the user message is
   * appended, the chat service is asked with the resolved id, and on success
   * the assistant message is appended and echoed; a failure of the chat
   * service gives 500 and leaves the user message in place.
   */
  method PostChat(
    store: SessionService, req: ChatRequest, processChat: ChatRequest -> Result<ChatResponse, Thrown>,
    freshId: string, before: nat, after: nat)
    returns (reply: ChatReply)
    requires store.Valid() && freshId !in store.conversations
    modifies store
    ensures store.Valid() && store.users == old(store.users)
    ensures MissingOrBlank(req.text) ==>
      reply == ChatRejected(400, "No text provided", "Please provide text in the request body")
      && store.conversations == old(store.conversations) && store.order == old(store.order)
    ensures !MissingOrBlank(req.text) ==>
      var c := ResolvedConversation(req, old(store.conversations), freshId, before);
      var userMsg := UserMessage(req.text.value, c.id, before);
      var outcome := processChat(req.(conversationId := Some(c.id)));
      && c.id in store.conversations
      && store.order == (if c.id in old(store.conversations) then old(store.order) else old(store.order) + [c.id])
      && (outcome.Ok? ==>
            reply == ChatAnswered(ChatResponse(outcome.value.message, c.id, outcome.value.timestamp,
                                               outcome.value.components))
            && store.conversations == old(store.conversations)[c.id := c.(
                 messages := c.messages + [userMsg, AssistantMessage(outcome.value, c.id, after)],
                 updatedAt := after)])
      && (outcome.Fail? ==>
            reply == ChatRejected(500, "Internal server error", MessageOr(outcome.error, "Unknown error occurred"))
            && store.conversations == old(store.conversations)[c.id := c.(
                 messages := c.messages + [userMsg], updatedAt := before)])
  {
    if MissingOrBlank(req.text) {
      return ChatRejected(400, "No text provided", "Please provide text in the request body");
    }
    ghost var m0 := store.conversations;
    var text := req.text.value;
    var c := store.GetOrCreateConversation(req.conversationId, req.userId, req.frontendType.GetOr(Web), freshId, before);
    assert c == ResolvedConversation(req, m0, freshId, before);
    assert store.conversations == m0[c.id := c];
    var userMsg := UserMessage(text, c.id, before);
    var added := store.AddMessage(c.id, userMsg, before);
    ghost var withUser := c.(messages := c.messages + [userMsg], updatedAt := before);
    assert store.conversations == m0[c.id := withUser];
    var outcome := processChat(req.(conversationId := Some(c.id)));
    if outcome.Fail? {
      return ChatRejected(500, "Internal server error", MessageOr(outcome.error, "Unknown error occurred"));
    }
    var answer := outcome.value;
    var assistantMsg := AssistantMessage(answer, c.id, after);
    added := store.AddMessage(c.id, assistantMsg, after);
    ghost var answered := withUser.(messages := withUser.messages + [assistantMsg], updatedAt := after);
    assert store.conversations == m0[c.id := withUser][c.id := answered];
    AppendTwo(c.messages, userMsg, assistantMsg);
    UpdateTwice(m0, c.id, withUser, answered);
    reply := ChatAnswered(ChatResponse(answer.message, c.id, answer.timestamp, answer.components));
  }

  /** Proof step for `PostChat`: the second store of a key overrides the first. */
  lemma UpdateTwice(m: map<string, Conversation>, k: string, first: Conversation, second: Conversation)
    ensures m[k := first][k := second] == m[k := second]
  {
  }

  /** Proof step for `PostChat`: two appends are one append of both. */
  lemma AppendTwo(s: seq<ChatMessage>, first: ChatMessage, second: ChatMessage)
    ensures (s + [first]) + [second] == s + [first, second]
  {
  }

  /** `GET /conversations/:id`: the conversation and its messages, or 404. */
  function GetConversationRoute(store: SessionService, id: string): (r: ConversationReply)
    reads store
    ensures r.Found? <==> id in store.conversations
    ensures r.Found? ==> r.conversation == store.conversations[id] && r.messages == store.conversations[id].messages
    ensures !r.Found? ==> r == ConversationMissing(404, "Conversation not found", "Conversation " + id + " does not exist")
  {
    match store.GetConversation(id)
    case None => ConversationMissing(404, "Conversation not found", "Conversation " + id + " does not exist")
    case Some(c) => Found(c, c.messages)
  }

  /**
   * `DELETE /conversations/:id`: an unknown id gives 404 and changes nothing;
   * a known one has its messages emptied and stays retrievable.
   */
  method DeleteConversationRoute(store: SessionService, id: string, now: int) returns (r: ConversationReply)
    requires store.Valid()
    modifies store
    ensures store.Valid() && store.users == old(store.users) && store.order == old(store.order)
    ensures id !in old(store.conversations) ==>
      r == ConversationMissing(404, "Conversation not found", "Conversation " + id + " does not exist")
      && store.conversations == old(store.conversations)
    ensures id in old(store.conversations) ==>
      && r == Cleared("Conversation cleared successfully", id)
      && store.conversations
           == old(store.conversations)[id := old(store.conversations)[id].(messages := [], updatedAt := now)]
  {
    if store.GetConversation(id).None? {
      return ConversationMissing(404, "Conversation not found", "Conversation " + id + " does not exist");
    }
    store.ClearConversation(id, now);
    r := Cleared("Conversation cleared successfully", id);
  }

  /** `GET /stats` */
  method StatsRoute(store: SessionService) returns (s: Stats)
    requires store.Valid()
    ensures s.totalConversations == |store.conversations| && s.totalUsers == |store.users|
    ensures s.totalMessages == MessageCount(store.order, store.conversations)
  {
    s := store.GetStats();
  }
}
