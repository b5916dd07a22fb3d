/** `OllamaAdapter`: the language-model port over an Ollama server. The
    messages are flattened into one prompt of `Role: content` blocks, and
    the generation options are renamed to Ollama's. The HTTP client is
    replaced by an in-memory one that records the requests it receives and
    answers from fixed functions. */
module OllamaAdapter {
  import opened Prelude
  import opened Domain

  /** The `options` object of an Ollama request; an absent field is `None`. */
  datatype OllamaOptions = OllamaOptions(temperature: Option<real>, numPredict: Option<int>)

  /** `OllamaGenerateRequest` as the adapter builds it (`stream` is set by
      the client). */
  datatype OllamaRequest = OllamaRequest(model: string, prompt: string, options: Option<OllamaOptions>)

  /** `OllamaGenerateResponse`. */
  datatype OllamaResponse = OllamaResponse(model: string, response: string, done: bool)

  /** The label a message role gets in the prompt. */
  function RoleLabel(role: LlmRole): string
  {
    match role
    case AssistantRole => "Assistant"
    case SystemRole => "System"
    case UserRole => "User"
  }

  /** One block of the prompt. */
  function Render(m: LlmMessage): string
  {
    RoleLabel(m.role) + ": " + m.content
  }

  /** `#messagesToPrompt`: the blocks joined by a blank line, in order. */
  function MessagesToPrompt(messages: seq<LlmMessage>): string
  {
    Join(Map(messages, Render), "\n\n")
  }

  /** Reads one block back: the label picks the role, the rest after
      `": "` is the content. */
  function ParseBlock(block: string): Option<LlmMessage>
  {
    if |block| >= 11 && block[..11] == "Assistant: " then Some(LlmMessage(AssistantRole, block[11..]))
    else if |block| >= 8 && block[..8] == "System: " then Some(LlmMessage(SystemRole, block[8..]))
    else if |block| >= 6 && block[..6] == "User: " then Some(LlmMessage(UserRole, block[6..]))
    else None
  }

  /** The pieces at even positions: the lines of a prompt without the blank
      lines between blocks. */
  function EvenPieces(pieces: seq<string>): seq<string>
  {
    if |pieces| <= 1 then pieces else [pieces[0]] + EvenPieces(pieces[2..])
  }

  /** Every block read back, or nothing if one does not read. */
  function ParseBlocks(blocks: seq<string>): Option<seq<LlmMessage>>
  {
    if |blocks| == 0 then Some([])
    else
      match (ParseBlock(blocks[0]), ParseBlocks(blocks[1..]))
      case (Some(m), Some(rest)) => Some([m] + rest)
      case _ => None
  }

  /** Reads a prompt back into messages; the empty prompt is the empty
      conversation. */
  function ParsePrompt(prompt: string): Option<seq<LlmMessage>>
  {
    if prompt == "" then Some([]) else ParseBlocks(EvenPieces(SplitOn(prompt, '\n')))
  }

  /** A block determines its message: the role by its label and the
      content by what follows. */
  lemma ParseRender(m: LlmMessage)
    ensures ParseBlock(Render(m)) == Some(m)
  {
    var r := Render(m);
    var n := |RoleLabel(m.role)| + 2;
    assert r[..n] == RoleLabel(m.role) + ": " && r[n..] == m.content;
    match m.role
    case AssistantRole =>
    case SystemRole =>
      if |r| >= 11 {
        assert r[..11][0] == 'S';
      }
    case UserRole =>
      if |r| >= 11 {
        assert r[..11][0] == 'U';
      }
      if |r| >= 8 {
        assert r[..8][0] == 'U';
      }
  }

  /** Different messages render to different blocks. */
  lemma RenderInjective(a: LlmMessage, b: LlmMessage)
    ensures Render(a) == Render(b) <==> a == b
  {
    ParseRender(a);
    ParseRender(b);
  }

  /** Splitting blocks joined by a blank line at line breaks and keeping
      the even pieces gives the blocks back, when no block holds a line
      break. */
  lemma {:induction false} SplitBlocks(blocks: seq<string>)
    requires |blocks| >= 1
    requires forall i | 0 <= i < |blocks| :: '\n' !in blocks[i]
    ensures EvenPieces(SplitOn(Join(blocks, "\n\n"), '\n')) == blocks
  {
    if |blocks| == 1 {
      SplitNoSeparator(blocks[0], '\n');
    } else {
      var rest := Join(blocks[1..], "\n\n");
      assert Join(blocks, "\n\n") == blocks[0] + ['\n'] + (['\n'] + rest);
      SplitPrefix(blocks[0], ['\n'] + rest, '\n');
      SplitPrefix([], rest, '\n');
      assert [] + ['\n'] + rest == ['\n'] + rest;
      var pieces := SplitOn(Join(blocks, "\n\n"), '\n');
      assert pieces == [blocks[0], ""] + SplitOn(rest, '\n');
      assert pieces[2..] == SplitOn(rest, '\n');
      SplitBlocks(blocks[1..]);
      assert blocks == [blocks[0]] + blocks[1..];
    }
  }

  lemma {:induction false} ParseRenderAll(messages: seq<LlmMessage>)
    ensures ParseBlocks(Map(messages, Render)) == Some(messages)
  {
    if |messages| > 0 {
      ParseRender(messages[0]);
      ParseRenderAll(messages[1..]);
      assert Map(messages, Render)[1..] == Map(messages[1..], Render);
      assert messages == [messages[0]] + messages[1..];
    }
  }

  /** The prompt loses nothing: when no content holds a line break, it
      reads back into the very messages it was built from, roles and order
      included. */
  lemma PromptRoundTrip(messages: seq<LlmMessage>)
    requires forall i | 0 <= i < |messages| :: '\n' !in messages[i].content
    ensures ParsePrompt(MessagesToPrompt(messages)) == Some(messages)
  {
    var blocks := Map(messages, Render);
    ParseRenderAll(messages);
    if |messages| > 0 {
      forall i | 0 <= i < |blocks| ensures '\n' !in blocks[i] {
        assert blocks[i] == RoleLabel(messages[i].role) + ": " + messages[i].content;
      }
      SplitBlocks(blocks);
      JoinFirst(blocks, "\n\n");
      assert MessagesToPrompt(messages) != "";
    }
  }

  /** The `options` of the request: `temperature` copied, `maxTokens`
      renamed to `num_predict`, and no object at all when neither is set. */
  function RequestOptions(options: Option<GenerateOptions>): (r: Option<OllamaOptions>)
    ensures r.None? <==> options.None? || (options.value.temperature.None? && options.value.maxTokens.None?)
    ensures r.Some? ==> r.value.temperature == options.value.temperature && r.value.numPredict == options.value.maxTokens
  {
    if options.Some? && (options.value.temperature.Some? || options.value.maxTokens.Some?) then
      Some(OllamaOptions(options.value.temperature, options.value.maxTokens))
    else None
  }

  /** The conditional field assignments of `generate` / `generateStream`,
      with `Object.keys(requestOptions).length` counted as fields are set. */
  method BuildRequestOptions(options: Option<GenerateOptions>) returns (r: Option<OllamaOptions>)
    ensures r == RequestOptions(options)
  {
    var temperature: Option<real> := None;
    var numPredict: Option<int> := None;
    var keys := 0;
    if options.Some? && options.value.temperature.Some? {
      temperature := options.value.temperature;
      keys := keys + 1;
    }
    if options.Some? && options.value.maxTokens.Some? {
      numPredict := options.value.maxTokens;
      keys := keys + 1;
    }
    r := if keys > 0 then Some(OllamaOptions(temperature, numPredict)) else None;
  }

  /** The request both `generate` and `generateStream` send for the same
      messages and options. */
  function RequestFor(model: string, messages: seq<LlmMessage>, options: Option<GenerateOptions>): OllamaRequest
  {
    OllamaRequest(model, MessagesToPrompt(messages), RequestOptions(options))
  }

  /** `OllamaClient`: `reply` is the outcome of `generate` (the parsed
      response, or the error it throws) and `chunks` the outcome of
      `generateStream` (the texts it yields, or the error it throws). */
  class OllamaClient {
    var requests: seq<OllamaRequest>
    const reply: OllamaRequest -> Result<OllamaResponse>
    const chunks: OllamaRequest -> Result<seq<string>>

    constructor(reply: OllamaRequest -> Result<OllamaResponse>, chunks: OllamaRequest -> Result<seq<string>>)
      ensures requests == [] && this.reply == reply && this.chunks == chunks
    {
      requests := [];
      this.reply := reply;
      this.chunks := chunks;
    }

    method Generate(request: OllamaRequest) returns (r: Result<OllamaResponse>)
      modifies this
      ensures requests == old(requests) + [request] && r == reply(request)
    {
      requests := requests + [request];
      r := reply(request);
    }

    method GenerateStream(request: OllamaRequest) returns (r: Result<seq<string>>)
      modifies this
      ensures requests == old(requests) + [request] && r == chunks(request)
    {
      requests := requests + [request];
      r := chunks(request);
    }
  }

  class Adapter {
    const client: OllamaClient
    const model: string

    constructor(client: OllamaClient, model: string)
      ensures this.client == client && this.model == model
    {
      this.client := client;
      this.model := model;
    }

    /** `generate`: sends one request and returns the `response` field of
        the reply; a client error is passed on. */
    method Generate(messages: seq<LlmMessage>, options: Option<GenerateOptions>) returns (r: Result<string>)
      modifies client
      ensures client.requests == old(client.requests) + [RequestFor(model, messages, options)]
      ensures var reply := client.reply(RequestFor(model, messages, options));
        r == if reply.Ok? then Ok(reply.value.response) else Err(reply.message)
    {
      var prompt := MessagesToPrompt(messages);
      var requestOptions := BuildRequestOptions(options);
      var response := client.Generate(OllamaRequest(model, prompt, requestOptions));
      r := if response.Ok? then Ok(response.value.response) else Err(response.message);
    }

    /** `generateStream`: sends the same request as `generate` would and
        yields the client's chunks, or passes its error on. */
    method GenerateStream(messages: seq<LlmMessage>, options: Option<GenerateOptions>) returns (r: Result<seq<string>>)
      modifies client
      ensures client.requests == old(client.requests) + [RequestFor(model, messages, options)]
      ensures r == client.chunks(RequestFor(model, messages, options))
    {
      var prompt := MessagesToPrompt(messages);
      var requestOptions := BuildRequestOptions(options);
      r := client.GenerateStream(OllamaRequest(model, prompt, requestOptions));
    }
  }
}
