/** The records that the memory code reads and writes. Dates are the
    millisecond timestamps that `Date.prototype.getTime` returns, and every
    identifier is a string. */
module Domain {
  import opened Prelude
  import opened Sorting

  /** A character or universe memory entry. Both kinds have the same shape:
      an id, free text, a salience in [0, 1], tags and a creation time. */
  datatype MemoryEntry = MemoryEntry(
    id: string,
    content: string,
    salience: real,
    tags: seq<string>,
    createdAt: int)

  /** The bound the schema puts on salience. */
  predicate SalienceInRange(m: MemoryEntry)
  {
    0.0 <= m.salience <= 1.0
  }

  /** The comparator `(a, b) => b.salience - a.salience` puts `a` strictly
      first: higher salience first. */
  predicate MoreSalient(a: MemoryEntry, b: MemoryEntry)
  {
    a.salience > b.salience
  }

  lemma SalienceOrder()
    ensures StrictWeakOrder(MoreSalient)
  {
  }

  /** `memories.sort((a, b) => b.salience - a.salience).slice(0, limit)`,
      the selection both services make: as many memories as the limit
      allows, drawn from the input, highest salience first, with no left-out
      memory more salient than a kept one, and memories of equal salience
      kept in their input order. */
  lemma TopBySalience(memories: seq<MemoryEntry>, limit: int, k: MemoryEntry)
    ensures var r := SliceTo(SortBy(memories, MoreSalient), limit);
      && (0 <= limit ==> |r| == Min(limit, |memories|))
      && multiset(r) <= multiset(memories)
      && (forall i, j | 0 <= i < j < |r| :: r[i].salience >= r[j].salience)
      && (forall x, y | x in memories && y in r && x.salience > y.salience :: x in r)
      && TiedWith(r, MoreSalient, k) <= TiedWith(memories, MoreSalient, k)
  {
    var sorted := SortBy(memories, MoreSalient);
    var r := SliceTo(sorted, limit);
    SalienceOrder();
    TopSorted(memories, MoreSalient, limit);
    TopStable(memories, MoreSalient, limit, k);
    PrefixMultiset(sorted, limit);
    forall i, j | 0 <= i < j < |r| ensures r[i].salience >= r[j].salience {
      assert !MoreSalient(r[j], r[i]);
    }
    forall x, y | x in memories && y in r && x.salience > y.salience ensures x in r {
      assert MoreSalient(x, y);
    }
  }

  /** The draft of a memory: what a caller supplies before an id and a
      creation time are attached. */
  datatype CreateMemoryEntry = CreateMemoryEntry(
    content: string,
    salience: real,
    tags: seq<string>)

  datatype Universe = Universe(
    id: string,
    ownerId: string,
    name: string,
    description: string,
    currentState: string,
    memories: seq<MemoryEntry>,
    createdAt: int,
    lastEvolvedAt: int)

  datatype Availability = Available | NonAvailable

  datatype Character = Character(
    id: string,
    universeId: string,
    name: string,
    description: string,
    currentState: string,
    availability: Availability,
    availableUntil: Option<int>,
    memories: seq<MemoryEntry>,
    createdAt: int)

  /** Who wrote a stored conversation message. */
  datatype MessageRole = UserMessage | CharacterMessage

  datatype Message = Message(
    id: string,
    conversationId: string,
    role: MessageRole,
    content: string,
    createdAt: int)

  /** The roles a language-model message can carry. */
  datatype LlmRole = SystemRole | UserRole | AssistantRole

  datatype LlmMessage = LlmMessage(role: LlmRole, content: string)

  /** Generation options; an absent field is `None`. */
  datatype GenerateOptions = GenerateOptions(temperature: Option<real>, maxTokens: Option<int>)
}
