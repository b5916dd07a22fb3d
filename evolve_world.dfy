/** `EvolveWorldService`: picks the five most salient universe memories,
    writes them into a prompt, asks the language model how the world has
    moved on, and stores the answer as the universe's new state. */
module EvolveWorld {
  import opened Prelude
  import opened Sorting
  import opened Domain
  import opened Ports

  /** How many memories `evolveUniverse` puts in the prompt. */
  const SelectionLimit: int := 5

  /** The memory block when no memory is selected. */
  const NoMemories: string := "No significant memories yet."

  const WorldSimulator: string :=
    "You are a world simulator. Generate a concise description of how the world state has evolved. Focus on significant changes only. Keep it under 200 words."

  const EvolveQuestion: string :=
    "Based on the above, describe how the world has evolved since the last update. What has changed? What events have occurred?"

  const EvolveOptions: GenerateOptions := GenerateOptions(Some(0.7), Some(300))

  /** `#selectRelevantMemories`: sorts the caller's array in place, most
      salient first, and returns the first `limit` entries of it. What the
      selection is worth is stated by `Domain.TopBySalience`. */
  method SelectRelevantMemories(a: array<MemoryEntry>, limit: int) returns (selected: seq<MemoryEntry>)
    modifies a
    ensures a[..] == SortBy(old(a[..]), MoreSalient)
    ensures selected == SliceTo(a[..], limit)
  {
    SortInPlace(a, MoreSalient);
    selected := SliceTo(a[..], limit);
  }

  /** One line of the memory block; `show` is JavaScript's conversion of
      the salience to text in a template literal. */
  function MemoryLine(m: MemoryEntry, show: real -> string): string
  {
    "- " + m.content + " (importance: " + show(m.salience) + ")"
  }

  /** The memory block of the prompt. The fallback text appears exactly
      when there is no memory to show, since every memory line starts with
      a dash. */
  function MemoryContext(memories: seq<MemoryEntry>, show: real -> string): (r: string)
    ensures r == NoMemories <==> |memories| == 0
  {
    if |memories| > 0 then
      var lines := Map(memories, m => MemoryLine(m, show));
      JoinFirst(lines, "\n");
      assert lines[0][0] == '-';
      assert Join(lines, "\n")[0] == '-';
      Join(lines, "\n")
    else NoMemories
  }

  /** When no content and no rendered salience holds a line break, the
      block splits back into one line per memory, in selection order. */
  lemma MemoryContextLines(memories: seq<MemoryEntry>, show: real -> string)
    requires |memories| > 0
    requires forall i | 0 <= i < |memories| :: '\n' !in memories[i].content && '\n' !in show(memories[i].salience)
    ensures SplitOn(MemoryContext(memories, show), '\n') == Map(memories, m => MemoryLine(m, show))
  {
    var lines := Map(memories, m => MemoryLine(m, show));
    forall i | 0 <= i < |lines| ensures '\n' !in lines[i] {
      assert lines[i] == "- " + memories[i].content + " (importance: " + show(memories[i].salience) + ")";
    }
    SplitJoin(lines, '\n');
  }

  /** `#buildEvolvePrompt`, closed by `question` (the service passes
      `EvolveQuestion`): the universe's name, description and state, the
      memory block, and the closing question. */
  function EvolvePrompt(universe: Universe, context: string, question: string): (r: string)
    ensures "Universe: " + universe.name + "\n" <= r
    ensures |r| >= |question| && r[|r| - |question|..] == question
  {
    var name := "Universe: " + universe.name;
    var description := "Description: " + universe.description;
    var state := "Current State: " + universe.currentState;
    var rest := description + "\n" + (state + "\n" + ("\n" + ("Relevant Memories:" + "\n" + (context + "\n" + ("\n" + question)))));
    Concat(name + "\n", rest);
    name + "\n" + rest
  }

  /** Read line by line, the prompt is the name, description and state
      lines, a blank line, the memory heading, the lines of the memory
      block, a blank line and the lines of the closing question, as long
      as the universe's name, description and state hold no line break. */
  lemma EvolvePromptLines(universe: Universe, context: string, question: string)
    requires '\n' !in universe.name && '\n' !in universe.description && '\n' !in universe.currentState
    ensures SplitOn(EvolvePrompt(universe, context, question), '\n')
      == ["Universe: " + universe.name, "Description: " + universe.description,
          "Current State: " + universe.currentState, "", "Relevant Memories:"]
         + SplitOn(context, '\n') + [""] + SplitOn(question, '\n')
  {
    var name := "Universe: " + universe.name;
    var description := "Description: " + universe.description;
    var state := "Current State: " + universe.currentState;
    var heading := "Relevant Memories:";
    var tail := "\n" + question;
    var afterHeading := context + "\n" + tail;
    var afterBlank := heading + "\n" + afterHeading;
    var afterState := "\n" + afterBlank;
    var afterDescription := state + "\n" + afterState;
    var afterName := description + "\n" + afterDescription;
    PromptLabels();
    SplitBlank(question, '\n');
    SplitAppend(context, tail, '\n');
    SplitPrefix(heading, afterHeading, '\n');
    SplitBlank(afterBlank, '\n');
    SplitPrefix(state, afterState, '\n');
    SplitPrefix(description, afterDescription, '\n');
    SplitPrefix(name, afterName, '\n');
    Regroup5(name, description, state, "", heading, SplitOn(context, '\n'), "", SplitOn(question, '\n'));
  }

  /** No label of the prompt holds a line break. */
  lemma PromptLabels()
    ensures '\n' !in "Universe: " && '\n' !in "Description: " && '\n' !in "Current State: "
    ensures '\n' !in "Relevant Memories:"
  {
  }

  /** The request `evolveUniverse` sends for a stored universe. */
  function EvolveRequest(universe: Universe, show: real -> string, question: string): LlmRequest
  {
    var selected := SliceTo(SortBy(universe.memories, MoreSalient), SelectionLimit);
    LlmRequest([LlmMessage(SystemRole, WorldSimulator),
                LlmMessage(UserRole, EvolvePrompt(universe, MemoryContext(selected, show), question))],
               Some(EvolveOptions))
  }

  /** The user message `evolveUniverse` sends lists, from its sixth line
      on, the five most salient memories one per line, most salient first,
      or the fallback line when the universe has none; a blank line and the
      lines of the closing question follow. This holds whenever no name, description,
      state, memory content or rendered salience holds a line break. */
  lemma EvolveRequestMemories(universe: Universe, show: real -> string, question: string)
    requires '\n' !in universe.name && '\n' !in universe.description && '\n' !in universe.currentState
    requires forall i | 0 <= i < |universe.memories| ::
      '\n' !in universe.memories[i].content && '\n' !in show(universe.memories[i].salience)
    ensures var selected := SliceTo(SortBy(universe.memories, MoreSalient), SelectionLimit);
      var lines := SplitOn(EvolveRequest(universe, show, question).messages[1].content, '\n');
      var shown := Max(1, |selected|);
      && |selected| == Min(SelectionLimit, |universe.memories|)
      && |lines| > 5 + shown
      && (|selected| == 0 ==> lines[5] == NoMemories)
      && (forall i | 0 <= i < |selected| :: lines[5 + i] == MemoryLine(selected[i], show))
      && lines[5 + shown] == ""
      && lines[6 + shown..] == SplitOn(question, '\n')
  {
    var selected := SliceTo(SortBy(universe.memories, MoreSalient), SelectionLimit);
    assert EvolveRequest(universe, show, question).messages[1].content == EvolvePrompt(universe, MemoryContext(selected, show), question);
    forall i | 0 <= i < |selected|
      ensures '\n' !in selected[i].content && '\n' !in show(selected[i].salience)
    {
      PrefixMultiset(SortBy(universe.memories, MoreSalient), SelectionLimit);
      SubMultisetMember(selected, universe.memories, selected[i]);
    }
    EvolvePromptMemories(universe, selected, show, question);
  }

  /** The prompt built from any selection lists it from the sixth line on,
      one memory per line, or the fallback line for an empty selection. */
  lemma EvolvePromptMemories(universe: Universe, selected: seq<MemoryEntry>, show: real -> string, question: string)
    requires '\n' !in universe.name && '\n' !in universe.description && '\n' !in universe.currentState
    requires forall i | 0 <= i < |selected| :: '\n' !in selected[i].content && '\n' !in show(selected[i].salience)
    ensures var lines := SplitOn(EvolvePrompt(universe, MemoryContext(selected, show), question), '\n');
      var shown := Max(1, |selected|);
      && |lines| > 5 + shown
      && (|selected| == 0 ==> lines[5] == NoMemories)
      && (forall i | 0 <= i < |selected| :: lines[5 + i] == MemoryLine(selected[i], show))
      && lines[5 + shown] == ""
      && lines[6 + shown..] == SplitOn(question, '\n')
  {
    var context := MemoryContext(selected, show);
    var lines := SplitOn(EvolvePrompt(universe, context, question), '\n');
    var block := SplitOn(context, '\n');
    MemoryBlockLines(selected, show);
    PromptLayout(universe, context, question);
  }

  /** Where the memory block sits among the prompt's lines: from the sixth
      line on, followed by a blank line and the closing question. */
  lemma PromptLayout(universe: Universe, context: string, question: string)
    requires '\n' !in universe.name && '\n' !in universe.description && '\n' !in universe.currentState
    ensures var lines := SplitOn(EvolvePrompt(universe, context, question), '\n');
      var block := SplitOn(context, '\n');
      && |lines| > 6 + |block|
      && (forall i | 0 <= i < |block| :: lines[5 + i] == block[i])
      && lines[5 + |block|] == ""
      && lines[6 + |block|..] == SplitOn(question, '\n')
  {
    EvolvePromptLines(universe, context, question);
    Around(["Universe: " + universe.name, "Description: " + universe.description,
            "Current State: " + universe.currentState, "", "Relevant Memories:"],
           SplitOn(context, '\n'), "", SplitOn(question, '\n'));
  }

  /** The memory block's lines: the fallback line alone when nothing is
      selected, otherwise one line per selected memory, in order. */
  lemma MemoryBlockLines(selected: seq<MemoryEntry>, show: real -> string)
    requires forall i | 0 <= i < |selected| :: '\n' !in selected[i].content && '\n' !in show(selected[i].salience)
    ensures var block := SplitOn(MemoryContext(selected, show), '\n');
      && |block| == Max(1, |selected|)
      && (|selected| == 0 ==> block[0] == NoMemories)
      && forall i | 0 <= i < |selected| :: block[i] == MemoryLine(selected[i], show)
  {
    if |selected| == 0 {
      NoMemoriesLine();
    } else {
      MemoryContextLines(selected, show);
    }
  }

  /** The fallback memory block is a single line. */
  lemma NoMemoriesLine()
    ensures SplitOn(NoMemories, '\n') == [NoMemories]
  {
    assert '\n' !in NoMemories;
    SplitNoSeparator(NoMemories, '\n');
  }

  /** The universe `evolveUniverse` writes back: the memories in their
      sorted order (the sort happened in place on the fetched record), the
      generated state, and the evolution time. */
  function Evolved(universe: Universe, newState: string, now: int): (r: Universe)
    ensures multiset(r.memories) == multiset(universe.memories)
    ensures r.id == universe.id && r.ownerId == universe.ownerId && r.name == universe.name
    ensures r.description == universe.description && r.createdAt == universe.createdAt
    ensures r.currentState == newState && r.lastEvolvedAt == now
  {
    universe.(memories := SortBy(universe.memories, MoreSalient), currentState := newState, lastEvolvedAt := now)
  }

  class EvolveWorldService {
    const db: Database
    const llm: LanguageModel
    /** The closing question of the prompt, fixed at construction. */
    const question: string

    constructor(db: Database, llm: LanguageModel)
      ensures this.db == db && this.llm == llm && question == EvolveQuestion
    {
      this.db := db;
      this.llm := llm;
      question := EvolveQuestion;
    }

    /** `evolveUniverse`. A missing universe is an error, with no request
        to the model and no write. Otherwise exactly one request is made;
        a failure of the model is returned as is and nothing is written; a
        success stores the evolved universe and returns the new state.
        `now` is the time of `new Date()` and `show` the rendering of a
        salience. */
    method EvolveUniverse(universeId: string, now: int, show: real -> string) returns (r: Result<string>)
      modifies db, llm
      ensures db.characters == old(db.characters) && db.conversations == old(db.conversations)
      ensures universeId !in old(db.universes) ==>
        && r == Err("Universe " + universeId + " not found")
        && llm.requests == old(llm.requests)
        && db.universes == old(db.universes)
      ensures universeId in old(db.universes) ==>
        var universe := old(db.universes[universeId]);
        var request := EvolveRequest(universe, show, question);
        && llm.requests == old(llm.requests) + [request]
        && r == llm.complete(request)
        && db.universes == if r.Ok? then old(db.universes)[universeId := Evolved(universe, r.value, now)]
                           else old(db.universes)
    {
      var found := db.GetUniverse(universeId);
      if found.None? {
        return Err("Universe " + universeId + " not found");
      }
      var universe := found.value;
      var memories := new MemoryEntry[|universe.memories|](i requires 0 <= i < |universe.memories| => universe.memories[i]);
      assert memories[..] == universe.memories;
      var selected := SelectRelevantMemories(memories, SelectionLimit);
      var prompt := EvolvePrompt(universe, MemoryContext(selected, show), question);
      r := llm.Generate([LlmMessage(SystemRole, WorldSimulator), LlmMessage(UserRole, prompt)], Some(EvolveOptions));
      if r.Ok? {
        db.SetUniverse(universeId, universe.(memories := memories[..], currentState := r.value, lastEvolvedAt := now));
      }
    }
  }
}
