/** The two outbound ports the services call, as in-memory stand-ins. The
    database holds the universes, characters and conversation messages the
    services read and write. The language model keeps a log of every
    request it receives and answers from two fixed functions, which stand
    for the model behind the port. */
module Ports {
  import opened Prelude
  import opened Domain

  /** One call to `generate` or `generateStream`: the messages and the
      options (`undefined` is `None`). */
  datatype LlmRequest = LlmRequest(messages: seq<LlmMessage>, options: Option<GenerateOptions>)

  /** `DatabasePort`, restricted to the keys the services use:
      `["universe", id]`, `["character", id]` and the message prefix
      `["conversation", id, "messages"]`. */
  class Database {
    var universes: map<string, Universe>
    var characters: map<string, Character>
    var conversations: map<string, seq<Message>>

    constructor(universes: map<string, Universe>, characters: map<string, Character>,
                conversations: map<string, seq<Message>>)
      ensures this.universes == universes && this.characters == characters
      ensures this.conversations == conversations
    {
      this.universes := universes;
      this.characters := characters;
      this.conversations := conversations;
    }

    /** `get(["universe", id])`: the stored universe, or nothing. */
    method GetUniverse(id: string) returns (r: Option<Universe>)
      ensures r.Some? <==> id in universes
      ensures r.Some? ==> r.value == universes[id]
    {
      r := if id in universes then Some(universes[id]) else None;
    }

    /** `get(["character", id])`: the stored character, or nothing. */
    method GetCharacter(id: string) returns (r: Option<Character>)
      ensures r.Some? <==> id in characters
      ensures r.Some? ==> r.value == characters[id]
    {
      r := if id in characters then Some(characters[id]) else None;
    }

    /** `set(["universe", id], value)`: creates or replaces that universe
        and nothing else. */
    method SetUniverse(id: string, value: Universe)
      modifies this
      ensures universes == old(universes)[id := value]
      ensures characters == old(characters) && conversations == old(conversations)
    {
      universes := universes[id := value];
    }

    /** `list(["conversation", id, "messages"])`: the messages stored under
        the prefix, none when there are none. */
    method ListMessages(conversationId: string) returns (r: seq<Message>)
      ensures conversationId in conversations ==> r == conversations[conversationId]
      ensures conversationId !in conversations ==> r == []
    {
      r := if conversationId in conversations then conversations[conversationId] else [];
    }
  }

  /** `LLMPort`: each call is appended to `requests`; `complete` gives the
      outcome of `generate` (the text, or the error it throws) and `stream`
      the outcome of `generateStream` (the chunks it yields, or the error it
      throws). */
  class LanguageModel {
    var requests: seq<LlmRequest>
    const complete: LlmRequest -> Result<string>
    const stream: LlmRequest -> Result<seq<string>>

    constructor(complete: LlmRequest -> Result<string>, stream: LlmRequest -> Result<seq<string>>)
      ensures requests == [] && this.complete == complete && this.stream == stream
    {
      requests := [];
      this.complete := complete;
      this.stream := stream;
    }

    /** `generate(messages, options)`. */
    method Generate(messages: seq<LlmMessage>, options: Option<GenerateOptions>) returns (r: Result<string>)
      modifies this
      ensures requests == old(requests) + [LlmRequest(messages, options)]
      ensures r == complete(LlmRequest(messages, options))
    {
      var request := LlmRequest(messages, options);
      requests := requests + [request];
      r := complete(request);
    }

    /** `generateStream(messages, options)`, with every chunk collected, or
        the error the stream throws. */
    method GenerateStream(messages: seq<LlmMessage>, options: Option<GenerateOptions>) returns (chunks: Result<seq<string>>)
      modifies this
      ensures requests == old(requests) + [LlmRequest(messages, options)]
      ensures chunks == stream(LlmRequest(messages, options))
    {
      var request := LlmRequest(messages, options);
      requests := requests + [request];
      chunks := stream(request);
    }
  }
}
