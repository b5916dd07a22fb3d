/** `GenerateResponseService`: builds the character's system prompt from
    its ten most salient memories, appends the conversation in time order,
    and streams the model's reply. */
module GenerateResponse {
  import opened Prelude
  import opened Sorting
  import opened Domain
  import opened Ports

  /** How many memories the system prompt lists. */
  const MemoryLimit: int := 10

  /** The memory section when the character has no memory. */
  const NoMemories: string := "No significant memories yet."

  const ResponseOptions: GenerateOptions := GenerateOptions(Some(0.8), Some(500))

  /** The fixed rules that close the system prompt. */
  const CriticalRules: string :=
    "CRITICAL RULES:\n"
    + "1. Speak ONLY in first-person dialogue. No narration, no actions in *asterisks*.\n"
    + "2. Stay in character based on your description and memories.\n"
    + "3. Your responses should feel natural and conversational.\n"
    + "4. You don't have access to information beyond your memories and the conversation.\n"
    + "5. Keep responses concise and engaging (2-4 sentences typically).\n"
    + "\n"
    + "Example of CORRECT response:\n"
    + "\"I've been thinking about what you said yesterday. It really changed my perspective on things.\"\n"
    + "\n"
    + "Example of INCORRECT response (DO NOT DO THIS):\n"
    + "\"*smiles warmly* I've been thinking about what you said. *sits down* It changed my perspective.\""

  /** The comparator on `createdAt` times puts `a` strictly first: the
      earlier message first. */
  predicate EarlierMessage(a: Message, b: Message)
  {
    a.createdAt < b.createdAt
  }

  /** The conversation as the prompt sees it: the stored messages, oldest
      first, equal times in stored order. */
  lemma ConversationOrder(messages: seq<Message>, k: Message)
    ensures var sorted := SortBy(messages, EarlierMessage);
      && multiset(sorted) == multiset(messages)
      && (forall i, j | 0 <= i < j < |sorted| :: sorted[i].createdAt <= sorted[j].createdAt)
      && TiedWith(sorted, EarlierMessage, k) == TiedWith(messages, EarlierMessage, k)
  {
    var sorted := SortBy(messages, EarlierMessage);
    assert StrictWeakOrder(EarlierMessage);
    SortBySorted(messages, EarlierMessage);
    SortByStable(messages, EarlierMessage, k);
    forall i, j | 0 <= i < j < |sorted| ensures sorted[i].createdAt <= sorted[j].createdAt {
      assert !EarlierMessage(sorted[j], sorted[i]);
    }
  }

  /** The role a stored message takes in the model's input. */
  function HistoryRole(role: MessageRole): LlmRole
  {
    if role == UserMessage then UserRole else AssistantRole
  }

  function HistoryMessage(m: Message): LlmMessage
  {
    LlmMessage(HistoryRole(m.role), m.content)
  }

  /** `#buildConversationHistory`: one model message per stored message, in
      the same order and with the same text; the user's messages are the
      user's, every other message is the assistant's, and none is a system
      message. */
  function History(messages: seq<Message>): (r: seq<LlmMessage>)
    ensures |r| == |messages|
    ensures forall i | 0 <= i < |r| ::
      && r[i].content == messages[i].content
      && r[i].role != SystemRole
      && (r[i].role == UserRole <==> messages[i].role == UserMessage)
  {
    Map(messages, HistoryMessage)
  }

  /** One line of the memory section. */
  function Bullet(m: MemoryEntry): string
  {
    "- " + m.content
  }

  /** The memories the system prompt lists. */
  function PromptMemories(memories: seq<MemoryEntry>): seq<MemoryEntry>
  {
    SliceTo(SortBy(memories, MoreSalient), MemoryLimit)
  }

  /** The memory section of `#buildSystemPrompt`: the listed memories as
      bullets joined by line breaks, or the fallback when that join is the
      empty string, which happens exactly when there is no memory. */
  function MemorySection(memories: seq<MemoryEntry>): (r: string)
    ensures r == NoMemories <==> |memories| == 0
  {
    var lines := Map(PromptMemories(memories), Bullet);
    var joined := Join(lines, "\n");
    if |lines| > 0 then
      JoinFirst(lines, "\n");
      assert lines[0][0] == '-';
      assert joined[0] == '-';
      if joined != "" then joined else NoMemories
    else
      if joined != "" then joined else NoMemories
  }

  /** When no listed content holds a line break, the section splits back
      into one bullet per listed memory, at most ten, most salient first. */
  lemma MemorySectionLines(memories: seq<MemoryEntry>)
    requires |memories| > 0
    requires forall i | 0 <= i < |memories| :: '\n' !in memories[i].content
    ensures var listed := PromptMemories(memories);
      && |listed| == Min(MemoryLimit, |memories|)
      && SplitOn(MemorySection(memories), '\n') == Map(listed, Bullet)
  {
    var listed := PromptMemories(memories);
    var lines := Map(listed, Bullet);
    forall i | 0 <= i < |lines| ensures '\n' !in lines[i] {
      PrefixMultiset(SortBy(memories, MoreSalient), MemoryLimit);
      SubMultisetMember(listed, memories, listed[i]);
      assert lines[i] == "- " + listed[i].content;
    }
    SplitJoin(lines, '\n');
  }

  /** `#buildSystemPrompt`, closed by `rules` (the service passes
      `CriticalRules`): it names the character first and ends with the
      rules; `SystemPromptLines` gives it line by line. */
  function SystemPrompt(character: Character, rules: string): (r: string)
    ensures "You are " + character.name + "." + "\n" <= r
    ensures |r| >= |rules| && r[|r| - |rules|..] == rules
  {
    var greeting := "You are " + character.name + ".";
    var description := "Description: " + character.description;
    var state := "Current State: " + character.currentState;
    var memories := MemorySection(character.memories);
    var rest := "\n" + (description + "\n" + (state + "\n" + ("\n" + ("Your Memories:" + "\n" + (memories + "\n" + ("\n" + rules))))));
    Concat(greeting + "\n", rest);
    greeting + "\n" + rest
  }

  /** Read line by line, the system prompt is the greeting, a blank line,
      the description and state lines, a blank line, the memory heading,
      the lines of the memory section, a blank line and the lines of the
      rules, as long as the character's name, description and state hold
      no line break. */
  lemma SystemPromptLines(character: Character, rules: string)
    requires '\n' !in character.name && '\n' !in character.description && '\n' !in character.currentState
    ensures SplitOn(SystemPrompt(character, rules), '\n')
      == ["You are " + character.name + ".", "", "Description: " + character.description,
          "Current State: " + character.currentState, "", "Your Memories:"]
         + SplitOn(MemorySection(character.memories), '\n') + [""] + SplitOn(rules, '\n')
  {
    SystemPromptLabels();
    PromptTextLines("You are " + character.name + ".", "Description: " + character.description,
                    "Current State: " + character.currentState, "Your Memories:",
                    MemorySection(character.memories), rules);
  }

  /** The line-by-line reading of the system prompt's text, for any
      single-line greeting, description, state and heading. */
  lemma PromptTextLines(greeting: string, description: string, state: string, heading: string,
                        section: string, rules: string)
    requires '\n' !in greeting && '\n' !in description && '\n' !in state && '\n' !in heading
    ensures SplitOn(greeting + "\n" + ("\n" + (description + "\n" + (state + "\n" + ("\n" + (heading + "\n" +
              (section + "\n" + ("\n" + rules))))))), '\n')
      == [greeting, "", description, state, "", heading] + SplitOn(section, '\n') + [""] + SplitOn(rules, '\n')
  {
    var tail := "\n" + rules;
    var afterHeading := section + "\n" + tail;
    var afterBlank := heading + "\n" + afterHeading;
    var afterState := "\n" + afterBlank;
    var afterDescription := state + "\n" + afterState;
    var afterGap := description + "\n" + afterDescription;
    var afterGreeting := "\n" + afterGap;
    SplitBlank(rules, '\n');
    SplitAppend(section, tail, '\n');
    SplitPrefix(heading, afterHeading, '\n');
    SplitBlank(afterBlank, '\n');
    SplitPrefix(state, afterState, '\n');
    SplitPrefix(description, afterDescription, '\n');
    SplitBlank(afterGap, '\n');
    SplitPrefix(greeting, afterGreeting, '\n');
    Regroup6(greeting, "", description, state, "", heading, SplitOn(section, '\n'), "", SplitOn(rules, '\n'));
  }

  /** No label of the system prompt holds a line break. */
  lemma SystemPromptLabels()
    ensures '\n' !in "You are " && '\n' !in "." && '\n' !in "Description: " && '\n' !in "Current State: "
    ensures '\n' !in "Your Memories:"
  {
  }

  /** The system prompt lists, from its seventh line on, the ten most
      salient memories one bullet per line, most salient first, or the
      fallback line when the character has none; a blank line and the
      lines of the rules follow. This holds whenever no name, description,
      state or memory content holds a line break. */
  lemma SystemPromptMemories(character: Character, rules: string)
    requires '\n' !in character.name && '\n' !in character.description && '\n' !in character.currentState
    requires forall i | 0 <= i < |character.memories| :: '\n' !in character.memories[i].content
    ensures var listed := PromptMemories(character.memories);
      var lines := SplitOn(SystemPrompt(character, rules), '\n');
      var shown := Max(1, |listed|);
      && |listed| == Min(MemoryLimit, |character.memories|)
      && |lines| > 6 + shown
      && (|listed| == 0 ==> lines[6] == NoMemories)
      && (forall i | 0 <= i < |listed| :: lines[6 + i] == Bullet(listed[i]))
      && lines[6 + shown] == ""
      && lines[7 + shown..] == SplitOn(rules, '\n')
  {
    var listed := PromptMemories(character.memories);
    var lines := SplitOn(SystemPrompt(character, rules), '\n');
    var block := SplitOn(MemorySection(character.memories), '\n');
    MemorySectionBlock(character.memories);
    SystemPromptLayout(character, rules);
  }

  /** Where the memory section sits among the system prompt's lines: from
      the seventh line on, followed by a blank line and the rules. */
  lemma SystemPromptLayout(character: Character, rules: string)
    requires '\n' !in character.name && '\n' !in character.description && '\n' !in character.currentState
    ensures var lines := SplitOn(SystemPrompt(character, rules), '\n');
      var block := SplitOn(MemorySection(character.memories), '\n');
      && |lines| > 7 + |block|
      && (forall i | 0 <= i < |block| :: lines[6 + i] == block[i])
      && lines[6 + |block|] == ""
      && lines[7 + |block|..] == SplitOn(rules, '\n')
  {
    SystemPromptLines(character, rules);
    Around(["You are " + character.name + ".", "", "Description: " + character.description,
            "Current State: " + character.currentState, "", "Your Memories:"],
           SplitOn(MemorySection(character.memories), '\n'), "", SplitOn(rules, '\n'));
  }

  /** The memory section's lines: the fallback line alone when there is no
      memory, otherwise one bullet per listed memory, in order. */
  lemma MemorySectionBlock(memories: seq<MemoryEntry>)
    requires forall i | 0 <= i < |memories| :: '\n' !in memories[i].content
    ensures var listed := PromptMemories(memories);
      var block := SplitOn(MemorySection(memories), '\n');
      && |listed| == Min(MemoryLimit, |memories|)
      && |block| == Max(1, |listed|)
      && (|listed| == 0 ==> block[0] == NoMemories)
      && forall i | 0 <= i < |listed| :: block[i] == Bullet(listed[i])
  {
    if |memories| == 0 {
      assert '\n' !in NoMemories;
      SplitNoSeparator(NoMemories, '\n');
    } else {
      MemorySectionLines(memories);
    }
  }

  /** The request `generateResponse` sends: the system prompt, then the
      history of the messages in time order, with temperature 0.8 and at
      most 500 tokens. */
  function ResponseRequest(character: Character, messages: seq<Message>, rules: string): (r: LlmRequest)
    ensures |r.messages| == |messages| + 1 && r.messages[0] == LlmMessage(SystemRole, SystemPrompt(character, rules))
    ensures forall i | 1 <= i < |r.messages| :: r.messages[i].role != SystemRole
    ensures r.messages[1..] == History(SortBy(messages, EarlierMessage))
  {
    var history := History(SortBy(messages, EarlierMessage));
    var r := LlmRequest([LlmMessage(SystemRole, SystemPrompt(character, rules))] + history, Some(ResponseOptions));
    assert r.messages[1..] == history;
    r
  }

  class GenerateResponseService {
    const db: Database
    const llm: LanguageModel
    /** The rules text of the system prompt, fixed at construction. */
    const rules: string

    constructor(db: Database, llm: LanguageModel)
      ensures this.db == db && this.llm == llm && rules == CriticalRules
    {
      this.db := db;
      this.llm := llm;
      rules := CriticalRules;
    }

    /** `generateResponse`, with the chunks it yields collected. A missing
        character is an error raised before the messages are listed and
        before any request to the model; otherwise the fetched messages are
        sorted in place by time and exactly one streaming request is made,
        whose chunks are the reply, or whose error is passed on. */
    method GenerateResponse(characterId: string, conversationId: string) returns (r: Result<seq<string>>)
      modifies llm
      ensures characterId !in db.characters ==>
        r == Err("Character " + characterId + " not found") && llm.requests == old(llm.requests)
      ensures characterId in db.characters ==>
        var messages := if conversationId in db.conversations then db.conversations[conversationId] else [];
        var request := ResponseRequest(db.characters[characterId], messages, rules);
        && llm.requests == old(llm.requests) + [request]
        && r == llm.stream(request)
    {
      var found := db.GetCharacter(characterId);
      if found.None? {
        return Err("Character " + characterId + " not found");
      }
      var listed := db.ListMessages(conversationId);
      var messages := new Message[|listed|](i requires 0 <= i < |listed| => listed[i]);
      assert messages[..] == listed;
      SortInPlace(messages, EarlierMessage);
      var llmMessages := [LlmMessage(SystemRole, SystemPrompt(found.value, rules))] + History(messages[..]);
      r := llm.GenerateStream(llmMessages, Some(ResponseOptions));
    }
  }
}
