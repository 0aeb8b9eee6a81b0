# dallama in Dafny

dallama is a voice and text assistant built around a local language model.
This project models its core:

- **The streaming chat server** (`src/index.ts`). At start-up the user picks a `.gguf` model file, by a command-line flag or by an interactive answer. `POST /chat` then streams the model's reply as server-sent events. Before a `web_search` tool call is answered, one "just a moment" event is sent.
- **The web-search tool** (`src/tools/index.ts`) and its Brave Search provider (`src/braveSearch.ts`). The provider spaces queries at least one second apart.
- **The Wikipedia helpers** (`src/wikipediaSearch.ts`): search, article fetch, and their composition.
- **The REST server's services**:
  - the session store (`sessionService.ts`);
  - the chat service (`llmService.ts`), which routes "search for …" and factual questions through Wikipedia (`searchService.ts`);
  - the mock text-to-speech cache (`ttsService.ts`);
  - the routes that expose them (`routes/chat.ts`, `routes/tts.ts`).
- **The browser side of the speech-recognition app**:
  - the in-browser model service, including its reply clean-up (`localLLMService.ts`);
  - the local/server switch with its fallback (`unifiedLLMService.ts`);
  - the conversation hook (`hooks/useConversation.ts`).
- **The mobile app's conversation hook** (`frontends/mobile-app/src/hooks/useConversation.ts`).
- **The voice client's audio-URL resolution** (`frontends/pi-voice-app/src/apiClient.ts`).

The module `Js` gives the JavaScript built-ins the code relies on, with their JavaScript meaning:

- `trim` and its white-space set;
- `indexOf`, `lastIndexOf` and `includes`;
- `parseInt(_, 10)` and `String(n)`;
- truthiness and `||` defaults;
- the `error instanceof Error ? error.message : …` idiom.

`Uri` gives `encodeURIComponent` and the two title-to-URL replacements.

These are not modelled as real I/O:

- Outside calls become parameters: the model, `fetch`, local storage, the file system and the servers the frontends call.
  - A call that can fail is a parameter holding its outcome, a `Result`.
  - A call that is made with an argument is a function parameter, from the request to its outcome.
- Clock readings are parameters too, as integer milliseconds.
- Fresh uuids are parameters that are required not to be in use already.

Objects whose fields the source updates in place are classes, with methods that change their fields:

- `SessionService`, `TTSService`, `LLMService`, `LocalLLMService`, `UnifiedLLMService`;
- the module-level tool callback and query clock;
- the mobile hook's state cells.

The speech-recognition hook works by `setState(prev => …)`, so each of its callbacks is a function from the old state to the new one.

## Model

| member | source | states |
|---|---|---|
| Uri.EncodeURIComponent | src/wikipediaSearch.ts:52 | the result consists only of unreserved characters and `%`-escapes, and a text of unreserved characters is left unchanged |
| Uri.PercentBytes | src/server/services/searchService.ts:14 | every byte becomes exactly three characters, `%` and two upper-case hex digits |
| Uri.PercentByte | src/server/services/searchService.ts:14 | one byte is `%` and two hex digits whose value, read back, is the byte |
| Uri.PercentBytesDecode | src/server/services/searchService.ts:14 | the i-th escape is `%` followed by two hex digits that read back as the i-th byte |
| Uri.UnderscoreSpaces | src/wikipediaSearch.ts:52 | `replace(/ /g, '_')`: same length; each space becomes `_`, every other character is kept |
| Uri.UnderscoreWhitespaceRuns | src/server/services/searchService.ts:38 | `replace(/\s+/g, '_')`: no white space is left and the text never grows |
| Uri.UnderscoreWhitespaceRunsCollapse | src/server/services/searchService.ts:38 | a word followed by a run of white space keeps the word and turns the whole run into one `_`, the rest rewritten on its own |
| Uri.UnderscoreWhitespaceRunsNoSpace | src/server/services/searchService.ts:38 | a title without white space is left unchanged |
| Sessions.Without | src/server/services/sessionService.ts:68-70 | the insertion order after a delete holds exactly the other ids |
| Sessions.WithoutNoDuplicates | src/server/services/sessionService.ts:68-70 | deleting keeps every id listed once |
| Sessions.SurvivingKeys | src/server/services/sessionService.ts:107-118 | the ids kept by the sweep are exactly the listed, stored, unexpired ones, each listed once |
| Sessions.Surviving | src/server/services/sessionService.ts:107-118 | the sweep keeps exactly the conversations idle for at most a day, unchanged |
| Sessions.MessageCountAfterAppend | src/server/services/sessionService.ts:121-132 | appending one message to one conversation raises the message total by exactly one |
| Sessions.MessageCountUnaffected | src/server/services/sessionService.ts:121-132 | the total over other conversations ignores a change to one conversation |
| Sessions.InsertByUpdatedPermutes | src/server/services/sessionService.ts:75 | one insertion step of the sort adds exactly the inserted conversation |
| Sessions.InsertByUpdatedSorted | src/server/services/sessionService.ts:75 | one insertion step keeps the list ordered by `updatedAt`, newest first |
| Sessions.SortByUpdatedDesc | src/server/services/sessionService.ts:75 | the sort is a permutation, ordered newest first |
| Sessions.OwnedBy | src/server/services/sessionService.ts:73-74 | the filter keeps exactly the stored conversations whose userId matches |
| Sessions.SliceLast | src/server/services/sessionService.ts:55-58 | `slice(-limit)`: for a positive limit, the last `min(limit, n)` messages; for 0, all of them; for a negative limit, all but the first `-limit` |
| Sessions.SweepStep | src/server/services/sessionService.ts:111-117 | visiting one id removes it from the map and from the order exactly when it has expired |
| Sessions.SweepComplete | src/server/services/sessionService.ts:111-117 | after visiting every id, the sweep has removed exactly the expired conversations, and the store stays indexed |
| Sessions.SessionService.constructor | src/server/services/sessionService.ts:8-11 | the store starts with one empty 'voice-only' conversation owned by 'default' |
| Sessions.SessionService.CreateConversation | src/server/services/sessionService.ts:13-26 | a new empty conversation under the fresh id, created and updated now, is added at the end of the order |
| Sessions.SessionService.GetConversation | src/server/services/sessionService.ts:28-30 | present exactly for a stored id, with the stored conversation |
| Sessions.SessionService.GetOrCreateConversation | src/server/services/sessionService.ts:32-38 | a truthy, known id returns its conversation and changes nothing; otherwise a new conversation is created under the fresh id |
| Sessions.SessionService.AddMessage | src/server/services/sessionService.ts:40-48 | a known conversation gets the message at its end and a new `updatedAt`; an unknown id fails with "Conversation … not found" and changes nothing |
| Sessions.SessionService.GetMessages | src/server/services/sessionService.ts:50-53 | the stored messages, or none for an unknown id |
| Sessions.SessionService.GetRecentMessages | src/server/services/sessionService.ts:55-58 | `slice(-limit)` with the limit defaulting to 10: the last `limit` messages (at most ten without a limit), all of them for 0, all but the first `-limit` for a negative limit |
| Sessions.SessionService.ClearConversation | src/server/services/sessionService.ts:60-66 | a known conversation keeps its identity, with no messages and a new `updatedAt`; an unknown id changes nothing |
| Sessions.SessionService.DeleteConversation | src/server/services/sessionService.ts:68-70 | reports whether the id was stored, and removes exactly it from the map and the order |
| Sessions.SessionService.GetUserConversations | src/server/services/sessionService.ts:72-76 | exactly the user's stored conversations, newest first, a permutation of the filtered list |
| Sessions.SessionService.CreateUser | src/server/services/sessionService.ts:78-93 | a user under the fresh id with the default preferences ('en-US-Neural2-F', speed 1.0, 'web') |
| Sessions.SessionService.GetUser | src/server/services/sessionService.ts:95-97 | present exactly for a stored user id |
| Sessions.SessionService.UpdateUserPreferences | src/server/services/sessionService.ts:99-104 | the patch's fields override the stored preferences, the rest are kept; an unknown user is ignored |
| Sessions.SessionService.CleanupOldConversations | src/server/services/sessionService.ts:107-118 | the in-place sweep leaves exactly the conversations idle for at most 24 hours, in their order |
| Sessions.SessionService.GetStats | src/server/services/sessionService.ts:121-132 | counts the conversations and users; the message total is the sum over all conversations |
| Sessions.StatsCountAppendedMessage | src/server/services/sessionService.ts:40-48 | after `addMessage`, the reported message total is one higher |
| ChatRoutes.ResolvedConversation | src/server/routes/chat.ts:23-27 | a known conversation id is reused; otherwise a fresh conversation, of the request's frontend type or 'web' |
| ChatRoutes.UserMessage | src/server/routes/chat.ts:30-36 | the user's message: sent by the user, with the request's text, in the resolved conversation, at the clock reading |
| ChatRoutes.AssistantMessage | src/server/routes/chat.ts:47-53 | the assistant's message: sent by the assistant, with the answer's text and timestamp, in the resolved conversation |
| ChatRoutes.MessageIdsReadBack | src/server/routes/chat.ts:31-48 | the user's id reads back as its clock reading and the assistant's as one more, so the two never share an id at one reading |
| ChatRoutes.PostChat | src/server/routes/chat.ts:9-73 | a missing or blank text gives 400 and changes nothing; otherwise the user message is stored first; on success the assistant message follows and the answer is echoed under the resolved id; a failure gives 500 and keeps the user message; a conversation created for the request is appended to the insertion order, which is otherwise unchanged |
| ChatRoutes.GetConversationRoute | src/server/routes/chat.ts:76-100 | the conversation and its messages, or 404 "Conversation … does not exist" |
| ChatRoutes.DeleteConversationRoute | src/server/routes/chat.ts:103-129 | an unknown id gives 404 with its messages and changes nothing; a known one replies "Conversation cleared successfully" and its conversation alone is replaced by itself with no messages and `updatedAt` at the clock reading |
| ChatRoutes.StatsRoute | src/server/routes/chat.ts:132-143 | the store's statistics |
| SearchService.QuestionMarkFrom | src/server/services/searchService.ts:109 | the first `?` at or after the index, else the end |
| SearchService.RunFrom | src/server/services/searchService.ts:110-116 | the greedy group `([^?]+)` from an index is exactly the text from there up to the next `?` or the end; there is none exactly when that stretch is empty |
| SearchService.ClosedRunFrom | src/server/services/searchService.ts:109 | `([^?]+)\?`: exactly the text from the index up to a `?` that follows it; none when the stretch is empty or no `?` follows |
| SearchService.ArticleRun | src/server/services/searchService.ts:134 | `(?:a \|an \|the )?([^?]+)\?` at an index: a found group is non-empty and holds no `?` |
| SearchService.ArticleRunTriesInOrder | src/server/services/searchService.ts:134 | the group is the closed run after the first of "a ", "an ", "the ", "" that is present and leaves a closed run; none exactly when no alternative does |
| SearchService.TrailGroup | src/server/services/searchService.ts:142-144 | `^([^?]+) <tail>`: the group is the prefix that the tail follows, and no longer prefix before the first `?` is followed by the tail; none exactly when no such prefix is |
| SearchService.GroupAt | src/server/services/searchService.ts:133-145 | a pattern's group, when the match starts at the index, is non-empty and holds no `?` |
| SearchService.GroupAtMeaning | src/server/services/searchService.ts:133-145 | which group each kind of pattern gives at an index: the article run after "what is ", the run after a lead phrase, or the trail group at index 0 only |
| SearchService.MatchFrom | src/server/services/searchService.ts:148 | a found group is non-empty with no `?`; none means no start from the index matches |
| SearchService.MatchFromLeftmost | src/server/services/searchService.ts:148 | a found group is the group at the leftmost start from the index where the pattern matches |
| SearchService.Match | src/server/services/searchService.ts:148 | `text.match(pattern)`: a found group is non-empty and holds no `?` |
| SearchService.FirstMatching | src/server/services/searchService.ts:147-152 | the first pattern that matches, with all earlier ones failing |
| SearchService.StartsWithSearchFor | src/server/services/searchService.ts:103 | `/^\s*search for\s/i`: holds exactly when, after some leading white space, "search for" in any case is followed by white space |
| SearchService.IsSearchPrompt | src/server/services/searchService.ts:101-123 | a search prompt exactly when the text starts with "search for" or some factual pattern matches it |
| SearchService.SearchForRest | src/server/services/searchService.ts:127 | the group of `/^\s*search for\s+(.*)$/i`: the suffix after the white space that follows "search for", holding no line break; absent for a "search for" text only when a line break comes after some visible character past "search for" |
| SearchService.ExtractSearchQuery | src/server/services/searchService.ts:125-155 | the trimmed rest of a "search for" request, else the trimmed group of the first matching factual pattern, else ""; a non-empty query comes only from a search prompt and never starts or ends with white space |
| SearchService.SearchForIsSearchPrompt | src/server/services/searchService.ts:101-105 | white space, "search for" in any case and white space make a search prompt |
| SearchService.SearchForQuery | src/server/services/searchService.ts:127-130 | from such a text, the query is the trimmed rest |
| SearchService.SearchForIsWebSearchPrompt | src/braveSearch.ts:13-16 | whatever passes the Wikipedia "search for" test also passes the web-search test |
| SearchService.WhatIsQuery | src/server/services/searchService.ts:134 | "what is <article> <body>?" asks for the body |
| SearchService.TellMeAboutQuery | src/server/services/searchService.ts:135 | "tell me about <body>" with no question mark asks for the body |
| SearchService.QueryFromPattern | src/server/services/searchService.ts:147-152 | once "search for" does not apply, the first matching pattern gives the query |
| SearchService.NoQuestionNoWhatIs | src/server/services/searchService.ts:134 | without a question mark the "what is …?" pattern cannot match |
| SearchService.NotSearchFor | src/server/services/searchService.ts:127 | a text whose first visible character is not an 's' is no "search for" request |
| SearchService.ArticleUrl | src/server/services/searchService.ts:38 | the URL starts with the wiki prefix and has no white space after it |
| SearchService.ResultsOf | src/server/services/searchService.ts:34-39 | one result per item, in order |
| SearchService.RequestError | src/server/services/searchService.ts:20-22 | a non-ok status becomes an error reading the prefix, "Wikipedia API error: " and text that parses back to the status; a thrown error keeps its message after the prefix, anything else thrown gives "Unknown error" |
| SearchService.Search | src/server/services/searchService.ts:8-50 | at most `maxResults` (5 by default) results are asked for; a reply without `query.search` gives none; each item keeps its title and snippet, gets its title's URL and its page id written out; failures become "Failed to search Wikipedia: …" |
| SearchService.SearchDefaultsToFive | src/server/services/searchService.ts:9 | no maximum means five |
| SearchService.GetPageSummary | src/server/services/searchService.ts:52-72 | the extract, or "" when there is none; failures become "Failed to get Wikipedia summary: …" |
| SearchService.GetPageContent | src/server/services/searchService.ts:74-99 | the extract of the requested page, or "" when the pages, the page or its extract is absent; failures become "Failed to get Wikipedia content: …" |
| WikipediaSearch.Lookup | src/wikipediaSearch.ts:23-30 | the first value given to a parameter name, and none exactly when the name is absent |
| WikipediaSearch.TitleUrl | src/wikipediaSearch.ts:52 | the URL starts with the wiki prefix, and a plain title becomes the prefix, then the title with '_' for spaces |
| WikipediaSearch.ResultsOf | src/wikipediaSearch.ts:48-53 | one result per item, in order |
| WikipediaSearch.SearchWikipedia | src/wikipediaSearch.ts:18-65 | succeeds exactly when the fetch answers ok; a malformed reply gives no results; each item keeps its title and page id, gets "" for a missing snippet and its title's URL; a throw or a non-ok status propagates |
| WikipediaSearch.SearchParams | src/wikipediaSearch.ts:23-30 | the search query asks for `action=query`, `list=search`, the keyword as `srsearch` and the limit as `srlimit` |
| WikipediaSearch.SearchDefaultsToFive | src/wikipediaSearch.ts:19 | no limit means `srlimit=5` |
| WikipediaSearch.ArticleParams | src/wikipediaSearch.ts:82-96 | the title is asked for; `exintro` and `exchars=<maxChars>` appear exactly when the full article is not wanted |
| WikipediaSearch.GetWikipediaArticle | src/wikipediaSearch.ts:74-135 | no article when pages are absent, empty or the first is missing; otherwise the first page, with "" for a missing extract and the title's URL for a missing `fullurl`; errors propagate |
| WikipediaSearch.ArticleDefaultsToIntro | src/wikipediaSearch.ts:79-80 | without options, only the intro of up to 1000 characters is asked for |
| WikipediaSearch.SearchWithDetails | src/wikipediaSearch.ts:145-181 | a failed search propagates; an empty one returns nothing; otherwise the results come with the first title's article when it could be fetched |
| WikipediaSearch.EmptySearchFetchesNoArticle | src/wikipediaSearch.ts:154-156 | an empty search never depends on the article fetch |
| WikipediaSearch.ResultsSurviveArticleFailure | src/wikipediaSearch.ts:172-175 | a successful search always returns its results, whatever the article fetch does |
| BraveSearch.IsWebSearchPrompt | src/braveSearch.ts:13-16 | `/^\s*search for\b/i`: holds exactly when, after some leading white space, "search for" in any case is followed by the end or a non-word character |
| BraveSearch.SearchForIsWebSearchPrompt | src/braveSearch.ts:13-16 | "search for" followed by a non-word character or nothing is a search prompt |
| BraveSearch.WebSearchPromptIgnoresLeadingSpace | src/braveSearch.ts:15 | leading white space never changes the verdict |
| BraveSearch.SearchForWordIsNotWebSearchPrompt | src/braveSearch.ts:15 | "search for" running on into a word is not a search prompt |
| BraveSearch.ShapeItem | src/braveSearch.ts:54-58 | title and url are kept; the description is the description, else the snippet, else "" |
| BraveSearch.ShapeItems | src/braveSearch.ts:54-58 | one result per item, in order |
| BraveSearch.InterpretResponse | src/braveSearch.ts:36-58 | a non-ok status throws "Brave Search API error: …", and so does a body without `web.results` ("Unexpected …"); otherwise the items are shaped |
| BraveSearch.RateLimiter.constructor | src/braveSearch.ts:1 | no query has been made yet |
| BraveSearch.RateLimiter.BraveWebSearch | src/braveSearch.ts:18-59 | a missing key throws before the limiter is touched; otherwise the request carries the query and the count (5 by default); the recorded query time is `now + delay` when a second has passed, else the previous time plus a second plus `delay`, so always at least a second after the previous one |
| Tools.ResultEntries | src/tools/index.ts:92-94 | one "k. title\ndescription\nurl" entry per result, numbered from 1 |
| Tools.FormatResults | src/tools/index.ts:92-94 | no results give ""; otherwise the text begins with the first result, numbered 1, and every result's numbered entry occurs in it |
| Tools.ToolAnswer | src/tools/index.ts:63-114 | a failure becomes "Error performing web search: …", no results become "No search results found.", and results are formatted |
| Tools.ToolRegistry.constructor | src/tools/index.ts:6 | no callback is set |
| Tools.ToolRegistry.SetToolCallCallback | src/tools/index.ts:11-13 | the listener is installed |
| Tools.ToolRegistry.ClearToolCallCallback | src/tools/index.ts:18-20 | the listener is removed |
| Tools.ToolRegistry.WebSearch | src/tools/index.ts:37-115 | the listener, if any, is notified once with "web_search"; a missing or empty query is refused without asking the provider; a missing key gives the error text; in both cases the limiter's clock is untouched; otherwise five results are asked for, whatever happens becomes the tool's text, and the recorded query time is at least a second after the previous one and no earlier than now |
| LlmService.ResultLines | src/server/services/llmService.ts:115-117 | one "k. title\nsnippet\nurl" line per result, numbered from 1 |
| LlmService.FormatSearchResults | src/server/services/llmService.ts:115-117 | no results give ""; otherwise the text begins with the first result, numbered 1, and every result's numbered line occurs in it |
| LlmService.SummaryPrompt | src/server/services/llmService.ts:119 | the prompt is the lead naming the query followed directly by the formatted results, nothing in between |
| LlmService.RawReply | src/server/services/llmService.ts:99-144 | a plain text goes to the model; a search prompt without a query fails; otherwise a failed search or summary gives the apology text |
| LlmService.WithComponents | src/server/services/llmService.ts:150-159 | a JSON reply with components gives its text and components; anything else is kept as plain text |
| LlmService.ChatOutcome | src/server/services/llmService.ts:92-171 | failures become "Failed to process chat: …"; success carries the conversation id or 'default' and the timestamp |
| LlmService.SearchPathNeverFails | src/server/services/llmService.ts:100-134 | a search prompt fails exactly when no query can be extracted |
| LlmService.PlainPathAsksModel | src/server/services/llmService.ts:135-144 | a plain prompt fails exactly when the model fails, and never consults the search |
| LlmService.ProcessVoice | src/server/services/llmService.ts:174-178 | always fails with "Voice processing not yet implemented" |
| LlmService.LLMService.constructor | src/server/services/llmService.ts:17 | starts uninitialised |
| LlmService.LLMService.Initialize | src/server/services/llmService.ts:19-85 | loads once: a second call does nothing; a failed load is rethrown and leaves the service uninitialised |
| LlmService.LLMService.ProcessChat | src/server/services/llmService.ts:87-172 | initialises first, and its error escapes unwrapped; then the chat outcome |
| LlmService.ProcessChatTwice | src/server/services/llmService.ts:87-90 | once loaded, repeating a request gives the same outcome |
| StreamingChat.Classify | src/index.ts:263-264 | a chunk is a thought or a comment exactly when it is a segment of that type |
| StreamingChat.ChunkFramesAreVisibleTexts | src/index.ts:276-300 | the chunk events carry exactly the non-thought texts, in order |
| StreamingChat.ToolCallFrameOnce | src/index.ts:232-242 | one tool-call event if the tool was called at all, else none |
| StreamingChat.RunningFramesAreChunksOrToolCalls | src/index.ts:232-300 | while streaming, only chunk and tool-call events are sent, all for the conversation id |
| StreamingChat.FramesOf | src/index.ts:227-300 | at most one event is written per item of the stream |
| StreamingChat.StreamFrames | src/index.ts:227-315 | the loop sends exactly the specified events, and the collected response is the concatenation of the visible texts |
| StreamingChat.Chat | src/index.ts:201-359 | blank text gives 400; otherwise the events, then "done" with the collected text (or the model's return value when nothing was collected); a failure gives 500 before any event, else an error event; the callback is cleared either way |
| ModelSelection.TextLeTotal | src/index.ts:21 | the default sort order compares any two names |
| ModelSelection.TextLeTransitive | src/index.ts:21 | the default sort order is transitive |
| ModelSelection.InsertTextPermutes | src/index.ts:21 | one insertion step adds exactly the inserted name |
| ModelSelection.InsertTextSorted | src/index.ts:21 | one insertion step keeps the names sorted |
| ModelSelection.SortText | src/index.ts:21 | the sort is a permutation, sorted by code units |
| ModelSelection.ModelFiles | src/index.ts:21 | the filter keeps exactly the `.gguf` names, each as often as listed |
| ModelSelection.ListAvailableModels | src/index.ts:18-26 | the `.gguf` files, sorted, or none when the directory cannot be read |
| ModelSelection.ListedModelsAreNamed | src/index.ts:18-26 | no listed model name is empty |
| ModelSelection.ParseArgs | src/index.ts:50-73 | the loop computes the argument fold |
| ModelSelection.ModelFlagTakesNextArgument | src/index.ts:55-59 | `--model`/`-m` takes the next argument |
| ModelSelection.TrailingModelFlagIgnored | src/index.ts:56 | a last `--model` with nothing after it is ignored |
| ModelSelection.ListModelsNeedsFlag | src/index.ts:60-61 | listing is only switched on by `--list-models`/`-l` |
| ModelSelection.ModelNeedsFlag | src/index.ts:55-59 | a model is only named through `--model`/`-m` |
| ModelSelection.ParsedWithoutHelp | src/index.ts:62-69 | only `--help`/`-h` stops parsing |
| ModelSelection.SelectModel | src/index.ts:78-144 | a chosen model is always an available one; the program exits only with 0 or 1, with 1 exactly when there are no models; a help flag exits with 0 |
| ModelSelection.ChooseFromAnswer | src/index.ts:120-141 | the answer picks a listed model; it exits with 1 only when the first model is missing; a listed name that is not a valid model number picks itself; with named models, a `parseInt` value k in 1..n picks the k-th model, and an answer that is neither such a number nor a listed name picks the first |
| ModelSelection.UndecidedFlagsLeaveTheAnswer | src/index.ts:94-118 | for any command line whose flags neither list nor name a listed model, the typed answer decides |
| ModelSelection.ListFlagExits | src/index.ts:88-92 | for any command line that switches listing on, the program exits with 0 |
| ModelSelection.ParsedModelWins | src/index.ts:95-99 | for any command line whose last model flag names a listed model, that model is chosen |
| ModelSelection.NamePicksModel | src/index.ts:128-132 | for any command line the flags leave undecided, typing a listed name that is not a valid model number picks that model |
| ModelSelection.FlaggedModelWins | src/index.ts:95-99 | a flagged, available model is chosen without asking |
| ModelSelection.NumberPicksModel | src/index.ts:120-127 | answering k picks the k-th listed model |
| ModelSelection.InvalidAnswerPicksFirst | src/index.ts:135-141 | for any command line the flags leave undecided, an answer that is neither a valid model number nor a listed name picks the first model |
| ModelSelection.ParsedNumberPicksModel | src/index.ts:120-127 | for any command line the flags leave undecided, an answer whose `parseInt` value k is in 1..n picks the k-th model |
| TtsService.ToInt32 | src/server/services/ttsService.ts:87 | the result is a 32-bit signed integer, and a value already in range is unchanged |
| TtsService.ToInt32Congruent | src/server/services/ttsService.ts:86-87 | wrap-around ignores multiples of 2^32 |
| TtsService.HashStepIsTimes31 | src/server/services/ttsService.ts:86 | `(h << 5) - h + c` wrapped is `31 * h + c` wrapped |
| TtsService.UnitsOf | src/server/services/ttsService.ts:85 | a character gives one or two UTF-16 code units, itself when it is in the BMP |
| TtsService.CodeUnitsAppend | src/server/services/ttsService.ts:84-85 | the code units of a text extended by one character |
| TtsService.HashCode | src/server/services/ttsService.ts:83-88 | the hash is a 32-bit signed integer |
| TtsService.HashCodeAppend | src/server/services/ttsService.ts:84-88 | one more BMP character multiplies by 31 and adds its code, wrapped |
| TtsService.ToBase36 | src/server/services/ttsService.ts:89 | `toString(36)` has base-36 digits and no leading zero |
| TtsService.Base36RoundTrip | src/server/services/ttsService.ts:89 | reading the base-36 text back gives the number |
| TtsService.HashText | src/server/services/ttsService.ts:82-90 | non-empty base-36 text; the empty text hashes to "0" |
| TtsService.HashTextValue | src/server/services/ttsService.ts:89 | the text denotes the absolute value of the 32-bit hash, at most 2^31 |
| TtsService.SimpleHash | src/server/services/ttsService.ts:82-90 | the loop computes the specified hash text |
| TtsService.AudioFileName | src/server/services/ttsService.ts:75-80 | the name is `tts_`, the hash of the text and `_`, then the clock reading and `.wav`, nothing else |
| TtsService.AudioFileNamesDifferInTime | src/server/services/ttsService.ts:75-80 | the same text at two clock readings gets two different names |
| TtsService.AudioUrl | src/server/services/ttsService.ts:65 | the URL is `/api/audio/` followed directly by the file name, nothing else |
| TtsService.SweptKeepsFresh | src/server/services/ttsService.ts:116-124 | after visiting some names, exactly the unvisited or fresh files remain, unchanged |
| TtsService.SweptKeepsUnvisited | src/server/services/ttsService.ts:116-124 | a file not yet visited is still there |
| TtsService.TTSService.constructor | src/server/services/ttsService.ts:14-17 | starts uninitialised, with the cache as found |
| TtsService.TTSService.Initialize | src/server/services/ttsService.ts:25-39 | the service becomes initialised and the cache is untouched |
| TtsService.TTSService.GetAudioFile | src/server/services/ttsService.ts:99-107 | the data of a cached file, or "Audio file not found: <name>" |
| TtsService.TTSService.GenerateSpeech | src/server/services/ttsService.ts:41-73 | a written file holds the mock audio under the generated name and is served from its URL; a failed write gives "Failed to generate speech: …" and changes nothing |
| TtsService.TTSService.CleanupOldFiles | src/server/services/ttsService.ts:110-128 | a failed listing changes nothing; otherwise the files visited before any failure are swept, and a full pass removes exactly the files older than an hour |
| TtsRoutes.PostTts | src/server/routes/tts.ts:8-32 | a missing or blank text gives 400 and changes nothing; otherwise the speech URL, or 500 with the service's error |
| TtsRoutes.GetAudio | src/server/routes/tts.ts:35-59 | a name with "..", '/' or '\\' gives 400; otherwise the cached audio as `audio/wav`, or 404 |
| TtsRoutes.UnsafeFileName | src/server/routes/tts.ts:40 | the guard holds exactly when the name has a '/' or '\\' or two dots side by side |
| TtsRoutes.GeneratedNamesAreSafe | src/server/routes/tts.ts:40-45 | every generated file name passes the traversal guard |
| TtsRoutes.GeneratedAudioIsServed | src/server/routes/tts.ts:35-59 | a generated file in the cache is served |
| TtsRoutes.SpeakThenFetch | src/server/routes/tts.ts:8-59 | speaking a text and then fetching its URL's file gives the mock audio of that text |
| LocalLlmService.FormatPrompt | vosk-stt-app/src/services/localLLMService.ts:125-131 | the instruction and "\n\nQuestion: ", then directly the input and "\nAnswer:", nothing else |
| LocalLlmService.StripPrompt | vosk-stt-app/src/services/localLLMService.ts:137-139 | an echoed prompt is removed at its first occurrence and the rest trimmed; otherwise the text is kept |
| LocalLlmService.CutFrom | vosk-stt-app/src/services/localLLMService.ts:143 | the text before the first marker, which no longer holds the marker |
| LocalLlmService.Truncated | vosk-stt-app/src/services/localLLMService.ts:151-158 | a reply of at most 150 characters is kept; a longer one becomes a prefix of its first 150 characters trimmed: all of it, or a cut ending at its last period, which lies past index 75; with no period past 75 nothing is cut |
| LocalLlmService.CleanResponse | vosk-stt-app/src/services/localLLMService.ts:133-168 | the step-by-step clean-up computes the specified cleaned text |
| LocalLlmService.DropThrough | vosk-stt-app/src/services/localLLMService.ts:142-144 | without the marker the text is kept; otherwise the result is the suffix after the marker's first occurrence and the white space that follows it |
| LocalLlmService.Stripped | vosk-stt-app/src/services/localLLMService.ts:135-148 | the stripped reply is trimmed and contains no "Question:" and no "User:" |
| LocalLlmService.Cleaned | vosk-stt-app/src/services/localLLMService.ts:133-168 | the cleaned reply is trimmed and between 3 and 150 characters long; a stripped reply already of that size comes back unchanged |
| LocalLlmService.CleanedHasNoFollowUp | vosk-stt-app/src/services/localLLMService.ts:143-145 | the cleaned reply contains no "Question:" and no "User:" |
| LocalLlmService.LongReplyEndsAtSentence | vosk-stt-app/src/services/localLLMService.ts:151-158 | a long reply with a period after index 75 ends at a period |
| LocalLlmService.PromptRemovedOnce | vosk-stt-app/src/services/localLLMService.ts:137-139 | an echo of the prompt is removed |
| LocalLlmService.EchoedAnswerIsKept | vosk-stt-app/src/services/localLLMService.ts:133-168 | a short, clean answer after the echoed prompt comes back unchanged |
| LocalLlmService.FallbackShape | vosk-stt-app/src/services/localLLMService.ts:161-163 | the fallback text is 33 characters long and holds no ':' |
| LocalLlmService.GeneratedText | vosk-stt-app/src/services/localLLMService.ts:92-99 | the first generated text of a list, the string itself, or an object's `generated_text`; otherwise "" |
| LocalLlmService.LocalLLMService.constructor | vosk-stt-app/src/services/localLLMService.ts:20-26 | no model is loaded |
| LocalLlmService.LocalLLMService.InitializeModel | vosk-stt-app/src/services/localLLMService.ts:28-62 | loads once; a failure gives the "Failed to load local AI model" error and leaves no model |
| LocalLlmService.LocalLLMService.SendMessage | vosk-stt-app/src/services/localLLMService.ts:64-123 | loads the model, prompts it, and answers with the cleaned text and the conversation id or 'default'; a non-Error throw becomes the "unexpected error" message |
| LocalLlmService.LocalLLMService.TestConnection | vosk-stt-app/src/services/localLLMService.ts:170-180 | true exactly when the model is or becomes loaded |
| LocalLlmService.LocalLLMService.IsReady | vosk-stt-app/src/services/localLLMService.ts:183-185 | ready exactly when a model is loaded |
| LocalLlmService.LocalRepliesAreShort | vosk-stt-app/src/services/localLLMService.ts:64-123 | whatever the model generates, the local reply is 3 to 150 characters long |
| UnifiedLlmService.LoadedMode | vosk-stt-app/src/services/unifiedLLMService.ts:32-41 | server mode exactly when storage could be read and holds "server" |
| UnifiedLlmService.SavedModeRoundTrip | vosk-stt-app/src/services/unifiedLLMService.ts:32-49 | a saved mode loads back as itself |
| UnifiedLlmService.TestAllConnections | vosk-stt-app/src/services/unifiedLLMService.ts:104-119 | each probe's answer, false for one that throws |
| UnifiedLlmService.UnifiedLLMService.constructor | vosk-stt-app/src/services/unifiedLLMService.ts:23-30 | starts in the saved mode, and local otherwise |
| UnifiedLlmService.UnifiedLLMService.SetMode | vosk-stt-app/src/services/unifiedLLMService.ts:51-55 | switches mode and saves it when storage accepts the write |
| UnifiedLlmService.UnifiedLLMService.GetMode | vosk-stt-app/src/services/unifiedLLMService.ts:57-59 | the current mode |
| UnifiedLlmService.UnifiedLLMService.SendMessage | vosk-stt-app/src/services/unifiedLLMService.ts:61-86 | server mode asks the server once; local mode falls back to the server once and rethrows the local error if both fail |
| UnifiedLlmService.UnifiedLLMService.TestConnection | vosk-stt-app/src/services/unifiedLLMService.ts:88-101 | the probe of the current mode, false when it throws |
| UnifiedLlmService.LocalModeFailsOnlyIfBothFail | vosk-stt-app/src/services/unifiedLLMService.ts:61-86 | in local mode, a message fails only when both services fail, and then with the local error |
| UnifiedLlmService.ModeSurvivesReload | vosk-stt-app/src/services/unifiedLLMService.ts:26-55 | a mode set now is the mode of the next session |
| VoskConversation.UpdateCurrentMessage | vosk-stt-app/src/hooks/useConversation.ts:40-69 | while loading, the user's last message is rewritten in place; otherwise a user message is appended; either way the last message is the user's, with the new text |
| VoskConversation.UpdatesWhileLoadingKeepOneTurn | vosk-stt-app/src/hooks/useConversation.ts:40-69 | partial transcripts while waiting keep one user message, showing the latest |
| VoskConversation.RequestFor | vosk-stt-app/src/hooks/useConversation.ts:87-90 | the trimmed text, to the 'default' conversation |
| VoskConversation.SendStarted | vosk-stt-app/src/hooks/useConversation.ts:80-84 | loading, with the error cleared |
| VoskConversation.SendFinished | vosk-stt-app/src/hooks/useConversation.ts:96-120 | the answer becomes one AI message, or the error is shown; loading ends |
| VoskConversation.SendMessage | vosk-stt-app/src/hooks/useConversation.ts:71-121 | a blank text changes nothing; otherwise start, send, finish |
| VoskConversation.SendAddsOnlyTheAnswer | vosk-stt-app/src/hooks/useConversation.ts:71-121 | sending adds at most one message, and that message is the AI's |
| VoskConversation.ClearConversation | vosk-stt-app/src/hooks/useConversation.ts:123-129 | no messages and no error |
| VoskConversation.ClearError | vosk-stt-app/src/hooks/useConversation.ts:131-136 | only the error is reset |
| VoskConversation.TestConnection | vosk-stt-app/src/hooks/useConversation.ts:26-38 | the probe's answer, false when it throws; only the connection flag changes |
| MobileConversation.RequestFor | frontends/mobile-app/src/hooks/useConversation.ts:54-59 | the trimmed text with the conversation id, 'mobile' and 'mobile-user' |
| MobileConversation.AssistantMessage | frontends/mobile-app/src/hooks/useConversation.ts:69-76 | the assistant's message carries the response's text, id, timestamp and components |
| MobileConversation.Conversation.constructor | frontends/mobile-app/src/hooks/useConversation.ts:25-30 | no messages, idle, no error, disconnected, conversation 'default' |
| MobileConversation.Conversation.SendMessage | frontends/mobile-app/src/hooks/useConversation.ts:47-86 | ignored when blank or loading; otherwise the request goes out; success adopts the conversation id and appends the answer; failure shows the error; loading ends |
| MobileConversation.Conversation.UpdateCurrentMessage | frontends/mobile-app/src/hooks/useConversation.ts:88-106 | a blank text, or one equal to the user's last message, is ignored; otherwise the trimmed text is appended as a user message |
| MobileConversation.Conversation.ClearConversation | frontends/mobile-app/src/hooks/useConversation.ts:108-117 | messages are emptied only once the server has cleared them; otherwise an error is shown |
| MobileConversation.Conversation.ClearError | frontends/mobile-app/src/hooks/useConversation.ts:119-121 | only the error is reset |
| MobileConversation.Conversation.TestConnection | frontends/mobile-app/src/hooks/useConversation.ts:32-45 | the connection flag is the probe's answer, with "Unable to connect…" when false and "Connection test failed" when it throws |
| MobileConversation.IsRepeat | frontends/mobile-app/src/hooks/useConversation.ts:89-95 | a blank text is always a repeat; a non-blank repeat is a text the user sent; with no messages, or after an assistant message, only a blank text is one |
| MobileConversation.TrimmedTextIsDeduplicated | frontends/mobile-app/src/hooks/useConversation.ts:88-106 | a trimmed text is recognised as a repeat of the message it produced |
| MobileConversation.PaddedTextIsNotDeduplicated | frontends/mobile-app/src/hooks/useConversation.ts:88-106 | a padded text is stored trimmed but compared as typed, so it is never recognised as a repeat |
| MobileConversation.SendTwice | frontends/mobile-app/src/hooks/useConversation.ts:47-86 | two sends from idle both go out, since loading ends with the first |
| ApiClient.FullAudioUrl | frontends/pi-voice-app/src/apiClient.ts:117-122 | an "http…" URL is kept; otherwise the base URL is prefixed; the result always ends with the given URL |
| ApiClient.FullAudioUrlIdempotent | frontends/pi-voice-app/src/apiClient.ts:117-122 | with an absolute base, resolving twice is resolving once |
| ApiClient.SpeechUrlResolves | frontends/pi-voice-app/src/apiClient.ts:117-122 | a speech URL from the server resolves to `<base>/api/audio/<file>` |

## Left out

- Sessions.SortByUpdatedDesc: states a permutation in newest-first order; the relative order of conversations with equal `updatedAt`, which the stable `Array.prototype.sort` keeps, is not stated.
- Logging, console output, coloured terminal text, and the timing measurements that exist only to be logged.
- Floating point:
  - `estimateDuration` and the `duration` field of a speech reply;
  - the model's sampling parameters (temperature, top-p, top-k, penalties, token limits);
  - the user's default speed (kept as the literal 1.0).
- The language models themselves. Each model call is a deterministic function parameter from the prompt to its outcome. The same applies to `JSON.parse` of a reply, `fetch`, `readdir`, `localStorage` and the servers the frontends call. Stop sequences and token limits have no effect in the model.
- Asynchrony and concurrency:
  - the shared initialisation promise of the local model, including `isInitializing` and `getInitializationStatus`;
  - `getLocalLLMStatus`;
  - requests that overlap;
  - React's batching of state updates and the stale `isLoading` a callback may capture.
- The hourly `setInterval` sweeps. Each sweep is a method call with the clock reading.
- The HTTP layer: Fastify routing, headers, the raw event-stream writes and `headersSent`. A reply is a datatype value, and an event stream is the sequence of its events.
- The 500 paths that only a thrown JavaScript bug could reach, such as the `catch` around `GET /stats`.
- `URLSearchParams` form encoding. Query parameters are a list of name-value pairs, and the Brave request is a record of its query, count and key.
- The audio cache directory is a map from file names to contents and modification times. `path.join`, `mkdirSync` and `existsSync` are not modelled. A file that disappears between the existence check and the read is not modelled.
- TtsService.TTSService.CleanupOldFiles: a `statSync` or `unlinkSync` that throws is given as the index of the listed name where the pass stops, and earlier names stay swept. The name listing must match the cache.
- ISO timestamps are integer milliseconds. In the mobile app a message timestamp is an ISO string.
- Strings:
  - one Dafny character stands for one UTF-16 code unit in `length`, `substring` and `indexOf`;
  - astral characters count twice only in the hash's `charCodeAt` loop;
  - `\s` and `trim` use the ECMAScript white-space set.
- The regular expressions of `searchService.ts` are written out as matchers for those exact patterns. There is no general regex engine. The later patterns (who/where/when/how/explain/describe/facts/information/details) share the matcher of "tell me about" and of `^(…) details`.
- SearchService.ArticleUrl: states the prefix and the absence of white space. The exact encoded title follows from `UnderscoreWhitespaceRuns` and `EncodeURIComponent`.
- Uri.EncodeURIComponent: states the output alphabet and that unreserved text is unchanged. A decoding round trip is not stated.
- The mobile `apiService` (`frontends/mobile-app/src/services/api.ts`) is not part of this model. Its calls are parameters of the hook.
- The request path of the speech-recognition app's server client is not part of this model. Its outcome is a parameter.
- The pi voice client's audio capture, wake word and voice-activity detection are not part of this model, and neither are the UI components.
- The Brave rate limiter's clock after its sleep: the sleep itself is computed, `1000 - elapsed` milliseconds when less than a second has passed since the previous query and none otherwise; the parameter `delay` is the extra time the clock advances beyond that sleep, so the recorded query time is `now + sleep + delay`.
- A JSON reply whose `components` is present but whose `text` is absent is not distinguished. The reply's text is taken as given by the parse parameter.

