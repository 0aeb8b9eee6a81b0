/**
 * The streaming `/chat` route of the command-line server. The model's
 * streamed answer is an input sequence of stream items (text chunks, and the
 * tool-call notices the `web_search` tool raises while it runs), followed by
 * the outcome of the prompt call. The route answers with a list of
 * server-sent event frames, or with a plain JSON error when no frame has
 * been written yet.
 */
module StreamingChat {
  import opened Js
  import opened Tools

  /** One chunk as the model runtime delivers it: a bare string, or an object with optional fields. */
  datatype Chunk =
    | TextChunk(value: string)
    | ObjectChunk(text: Option<string>, chunkType: Option<string>, segmentType: Option<string>)

  /** What the model runtime does while the prompt runs. */
  datatype StreamItem = ChunkArrived(chunk: Chunk) | ToolNotice(toolName: string)

  datatype Frame =
    | ToolCallFrame(message: string, tool: string, conversationId: string)
    | ChunkFrame(text: string, conversationId: string)
    | DoneFrame(message: string, conversationId: string, timestamp: int)
    | ErrorFrame(error: string)

  datatype StreamReply =
    | JsonError(status: nat, error: string, message: string)
    | EventStream(frames: seq<Frame>)

  const ToolCallMessage: string := "Just a moment while I check on that."

  datatype ChunkKind = Thought | Comment | Response

  /** `chunk.text || ""` for an object, the chunk itself for a string. */
  function ChunkText(c: Chunk): string {
    match c
    case TextChunk(s) => s
    case ObjectChunk(t, _, _) => OrDefault(t, "")
  }

  /** A `segment` chunk whose segment type is `thought` or `comment`; anything else is response text. */
  function Classify(c: Chunk): (k: ChunkKind)
    ensures k == Thought <==> c.ObjectChunk? && c.chunkType == Some("segment") && c.segmentType == Some("thought")
    ensures k == Comment <==> c.ObjectChunk? && c.chunkType == Some("segment") && c.segmentType == Some("comment")
  {
    match c
    case TextChunk(_) => Response
    case ObjectChunk(_, chunkType, segmentType) =>
      if chunkType == Some("segment") && segmentType == Some("thought") then Thought
      else if chunkType == Some("segment") && segmentType == Some("comment") then Comment
      else Response
  }

  /** A chunk whose text is shown to the user: non-empty and not part of a thought. */
  predicate Visible(c: Chunk) {
    ChunkText(c) != "" && Classify(c) != Thought
  }

  /** The texts the user is shown, in arrival order. */
  function VisibleTexts(items: seq<StreamItem>): seq<string> {
    if |items| == 0 then []
    else
      var last := items[|items| - 1];
      VisibleTexts(items[..|items| - 1])
        + (if last.ChunkArrived? && Visible(last.chunk) then [ChunkText(last.chunk)] else [])
  }

  /** Concatenation of strings. */
  function Concat(texts: seq<string>): string {
    if |texts| == 0 then "" else Concat(texts[..|texts| - 1]) + texts[|texts| - 1]
  }

  /** The frames written while the prompt runs, for the items seen so far: at most one per item. */
  function FramesOf(items: seq<StreamItem>, cid: string): (frames: seq<Frame>)
    ensures |frames| <= |items|
  {
    if |items| == 0 then []
    else
      var init := items[..|items| - 1];
      var last := items[|items| - 1];
      FramesOf(init, cid)
        + (match last
           case ToolNotice(name) => if ToolNoticed(init) then [] else [ToolCallFrame(ToolCallMessage, name, cid)]
           case ChunkArrived(c) => if Visible(c) then [ChunkFrame(ChunkText(c), cid)] else [])
  }

  predicate ToolNoticed(items: seq<StreamItem>) {
    exists i :: 0 <= i < |items| && items[i].ToolNotice?
  }

  /** The texts of the chunk frames among `frames`. */
  function ChunkTexts(frames: seq<Frame>): seq<string> {
    if |frames| == 0 then []
    else
      ChunkTexts(frames[..|frames| - 1])
        + (if frames[|frames| - 1].ChunkFrame? then [frames[|frames| - 1].text] else [])
  }

  function ToolCallCount(frames: seq<Frame>): nat {
    if |frames| == 0 then 0
    else ToolCallCount(frames[..|frames| - 1]) + (if frames[|frames| - 1].ToolCallFrame? then 1 else 0)
  }

  lemma ChunkTextsAppend(a: seq<Frame>, b: seq<Frame>)
    ensures ChunkTexts(a + b) == ChunkTexts(a) + ChunkTexts(b)
    decreases |b|
  {
    if |b| > 0 {
      assert (a + b)[..|a + b| - 1] == a + b[..|b| - 1];
      ChunkTextsAppend(a, b[..|b| - 1]);
    } else {
      assert a + b == a;
    }
  }

  lemma ToolCallCountAppend(a: seq<Frame>, b: seq<Frame>)
    ensures ToolCallCount(a + b) == ToolCallCount(a) + ToolCallCount(b)
    decreases |b|
  {
    if |b| > 0 {
      assert (a + b)[..|a + b| - 1] == a + b[..|b| - 1];
      ToolCallCountAppend(a, b[..|b| - 1]);
    } else {
      assert a + b == a;
    }
  }

  /** The chunk frames carry exactly the visible texts, in order: thought text never reaches the user. */
  lemma {:induction false} ChunkFramesAreVisibleTexts(items: seq<StreamItem>, cid: string)
    ensures ChunkTexts(FramesOf(items, cid)) == VisibleTexts(items)
  {
    if |items| > 0 {
      var init := items[..|items| - 1];
      ChunkFramesAreVisibleTexts(init, cid);
      var last := items[|items| - 1];
      var tail := match last
        case ToolNotice(name) => if ToolNoticed(init) then [] else [ToolCallFrame(ToolCallMessage, name, cid)]
        case ChunkArrived(c) => if Visible(c) then [ChunkFrame(ChunkText(c), cid)] else [];
      ChunkTextsAppend(FramesOf(init, cid), tail);
      assert ChunkTexts(tail) == ChunkTexts([] + tail);
    }
  }

  lemma ToolNoticedSnoc(items: seq<StreamItem>)
    requires |items| > 0
    ensures ToolNoticed(items) == (ToolNoticed(items[..|items| - 1]) || items[|items| - 1].ToolNotice?)
  {
    var init := items[..|items| - 1];
    if ToolNoticed(init) {
      var i :| 0 <= i < |init| && init[i].ToolNotice?;
      assert items[i] == init[i];
    }
    if ToolNoticed(items) && !items[|items| - 1].ToolNotice? {
      var i :| 0 <= i < |items| && items[i].ToolNotice?;
      assert init[i] == items[i];
    }
  }

  lemma VisibleTextsSnoc(items: seq<StreamItem>, i: nat)
    requires i < |items|
    ensures VisibleTexts(items[..i + 1]) == VisibleTexts(items[..i])
      + (if items[i].ChunkArrived? && Visible(items[i].chunk) then [ChunkText(items[i].chunk)] else [])
  {
    assert items[..i + 1][..i] == items[..i] && items[..i + 1][i] == items[i];
  }

  lemma ConcatSnoc(texts: seq<string>, t: string)
    ensures Concat(texts + [t]) == Concat(texts) + t
  {
    assert (texts + [t])[..|texts|] == texts;
  }

  /** At most one tool-call frame is written, and one is written exactly when a tool was called. */
  lemma {:induction false} ToolCallFrameOnce(items: seq<StreamItem>, cid: string)
    ensures ToolCallCount(FramesOf(items, cid)) == if ToolNoticed(items) then 1 else 0
  {
    if |items| > 0 {
      var init := items[..|items| - 1];
      ToolCallFrameOnce(init, cid);
      ToolNoticedSnoc(items);
      var last := items[|items| - 1];
      var tail := match last
        case ToolNotice(name) => if ToolNoticed(init) then [] else [ToolCallFrame(ToolCallMessage, name, cid)]
        case ChunkArrived(c) => if Visible(c) then [ChunkFrame(ChunkText(c), cid)] else [];
      assert FramesOf(items, cid) == FramesOf(init, cid) + tail;
      ToolCallCountAppend(FramesOf(init, cid), tail);
      assert ToolCallCount(tail) == ToolCallCount([] + tail);
    }
  }

  /** Frames written while the prompt runs are tool calls or chunks only, so the final frame is the only `done` or `error`. */
  lemma {:induction false} RunningFramesAreChunksOrToolCalls(items: seq<StreamItem>, cid: string)
    ensures forall f :: f in FramesOf(items, cid) ==> f.ToolCallFrame? || f.ChunkFrame?
    ensures forall f :: f in FramesOf(items, cid) && f.ToolCallFrame? ==> f.message == ToolCallMessage
    ensures forall f :: f in FramesOf(items, cid) ==> f.conversationId == cid
  {
    if |items| > 0 {
      RunningFramesAreChunksOrToolCalls(items[..|items| - 1], cid);
    }
  }

  /**
   * The `for await` loop over the stream: each visible chunk is written as a
   * frame and added to the full response; the first tool notice is written
   * once and later ones are dropped.
   */
  method StreamFrames(items: seq<StreamItem>, cid: string) returns (frames: seq<Frame>, fullResponse: string)
    ensures frames == FramesOf(items, cid)
    ensures fullResponse == Concat(VisibleTexts(items))
  {
    frames := [];
    fullResponse := "";
    var toolCallMessageSent := false;
    var i := 0;
    while i < |items|
      invariant 0 <= i <= |items|
      invariant frames == FramesOf(items[..i], cid)
      invariant fullResponse == Concat(VisibleTexts(items[..i]))
      invariant toolCallMessageSent == ToolNoticed(items[..i])
    {
      var item := items[i];
      assert items[..i + 1][..i] == items[..i] && items[..i + 1][i] == item;
      ToolNoticedSnoc(items[..i + 1]);
      VisibleTextsSnoc(items, i);
      match item {
        case ToolNotice(name) =>
          assert VisibleTexts(items[..i + 1]) == VisibleTexts(items[..i]);
          if !toolCallMessageSent {
            toolCallMessageSent := true;
            frames := frames + [ToolCallFrame(ToolCallMessage, name, cid)];
          }
        case ChunkArrived(c) =>
          var chunkText := ChunkText(c);
          if chunkText != "" && Classify(c) != Thought {
            ConcatSnoc(VisibleTexts(items[..i]), chunkText);
            fullResponse := fullResponse + chunkText;
            frames := frames + [ChunkFrame(chunkText, cid)];
          } else {
            assert VisibleTexts(items[..i + 1]) == VisibleTexts(items[..i]);
          }
      }
      i := i + 1;
    }
    assert items[..i] == items;
  }

  /**
   * The `/chat` route. A missing or blank text gets 400 and nothing else
   * happens. Otherwise the tool-call callback is registered under `listener`,
   * the stream items are turned into frames, and the callback is cleared
   * again on every path. When the prompt succeeds the last frame is `done`,
   * carrying the streamed text, or the prompt's return value when nothing
   * was streamed. When it fails, the reply is a 500 JSON body if no frame
   * had been written, and otherwise one `error` frame ends the stream.
   */
  method Chat(
    registry: ToolRegistry, listener: nat, text: Option<string>, conversationId: Option<string>,
    items: seq<StreamItem>, outcome: Result<string, Thrown>, now: int)
    returns (reply: StreamReply)
    modifies registry
    ensures registry.notifications == old(registry.notifications)
    ensures MissingOrBlank(text) ==>
      reply == JsonError(400, "No text provided", "Please provide transcribed text in the request body")
      && registry.callback == old(registry.callback)
    ensures !MissingOrBlank(text) ==> registry.callback == None
    ensures !MissingOrBlank(text) && outcome.Ok? ==>
      var cid := OrDefault(conversationId, "default");
      var full := Concat(VisibleTexts(items));
      reply == EventStream(FramesOf(items, cid) + [DoneFrame(if full != "" then full else outcome.value, cid, now)])
    ensures !MissingOrBlank(text) && outcome.Fail? && FramesOf(items, OrDefault(conversationId, "default")) == [] ==>
      reply == JsonError(500, "Internal server error", MessageOr(outcome.error, "Unknown error occurred"))
    ensures !MissingOrBlank(text) && outcome.Fail? && FramesOf(items, OrDefault(conversationId, "default")) != [] ==>
      reply == EventStream(FramesOf(items, OrDefault(conversationId, "default"))
                           + [ErrorFrame(MessageOr(outcome.error, "Unknown error occurred"))])
  {
    if MissingOrBlank(text) {
      return JsonError(400, "No text provided", "Please provide transcribed text in the request body");
    }
    var cid := OrDefault(conversationId, "default");
    registry.SetToolCallCallback(listener);
    var frames, fullResponse := StreamFrames(items, cid);
    match outcome {
      case Ok(response) =>
        var finalResponse := if fullResponse != "" then fullResponse else response;
        frames := frames + [DoneFrame(finalResponse, cid, now)];
        registry.ClearToolCallCallback();
        reply := EventStream(frames);
      case Fail(error) =>
        registry.ClearToolCallCallback();
        if frames == [] {
          reply := JsonError(500, "Internal server error", MessageOr(error, "Unknown error occurred"));
        } else {
          reply := EventStream(frames + [ErrorFrame(MessageOr(error, "Unknown error occurred"))]);
        }
    }
  }
}
