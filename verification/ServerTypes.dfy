/**
 * The data shapes the server exchanges with its frontends. Timestamps, which
 * the server writes as ISO-8601 strings, are modelled as the millisecond
 * instant they denote.
 */
module ServerTypes {
  import opened Js

  datatype FrontendType = Web | Mobile | VoiceOnly

  datatype Sender = FromUser | FromAssistant

  datatype ChatMessage = ChatMessage(
    id: string,
    text: string,
    timestamp: int,
    sender: Sender,
    conversationId: string)

  datatype Conversation = Conversation(
    id: string,
    userId: Option<string>,
    messages: seq<ChatMessage>,
    createdAt: int,
    updatedAt: int,
    frontendType: FrontendType)

  datatype Preferences = Preferences(
    defaultVoice: string,
    defaultSpeed: real,
    frontendType: FrontendType)

  /** A partial preferences object: absent fields keep their current value when spread. */
  datatype PreferencesPatch = PreferencesPatch(
    defaultVoice: Option<string>,
    defaultSpeed: Option<real>,
    frontendType: Option<FrontendType>)

  datatype User = User(
    id: string,
    name: string,
    email: Option<string>,
    preferences: Preferences)

  datatype ChatRequest = ChatRequest(
    text: Option<string>,
    conversationId: Option<string>,
    frontendType: Option<FrontendType>,
    userId: Option<string>)

  /** A dynamic UI component; its props are carried through unchanged. */
  datatype DynamicComponent = DynamicComponent(componentType: string, props: map<string, string>)

  datatype ChatResponse = ChatResponse(
    message: string,
    conversationId: string,
    timestamp: int,
    components: Option<seq<DynamicComponent>>)

  datatype WikipediaSearchResult = WikipediaSearchResult(
    title: string,
    snippet: string,
    pageId: string,
    url: string)

  datatype SearchRequest = SearchRequest(query: string, maxResults: Option<int>)

  datatype SearchResponse = SearchResponse(
    results: seq<WikipediaSearchResult>,
    query: string,
    timestamp: int)

  datatype Stats = Stats(totalConversations: nat, totalMessages: nat, totalUsers: nat)
}
