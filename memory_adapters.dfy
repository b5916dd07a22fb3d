/** The two memory ports backed by the vector store: character memories
    and universe history. Both adapters store each memory under its own id
    in the partition named after its owner, with the embedding of its
    content as the vector, and search a partition with the embedding of the
    query. They differ only in the partition prefix and in the name of the
    owner field, so one class models both. */
module MemoryAdapters {
  import opened Prelude
  import opened OrderedMap
  import opened Domain
  import opened Vectorstore

  /** The prefix of `#characterPartition`. */
  const CharacterPrefix: string := "character:"

  /** The prefix of `#universePartition`. */
  const UniversePrefix: string := "universe:"

  /** The metadata stored with each vector: `{ characterId, entry }` in
      the character adapter, `{ universeId, entry }` in the universe
      adapter. */
  datatype OwnedEntry = OwnedEntry(ownerId: string, entry: MemoryEntry)

  /** `#characterPartition(id)` / `#universePartition(id)`. */
  function PartitionName(prefix: string, ownerId: string): (name: string)
    ensures |name| == |prefix| + |ownerId| && name[..|prefix|] == prefix && name[|prefix|..] == ownerId
  {
    prefix + ownerId
  }

  /** Distinct owners get distinct partitions, and no character partition
      is a universe partition. */
  lemma PartitionNamesDistinct(prefix: string, a: string, b: string, c: string)
    ensures PartitionName(prefix, a) == PartitionName(prefix, b) <==> a == b
    ensures PartitionName(CharacterPrefix, a) != PartitionName(UniversePrefix, c)
  {
    if PartitionName(prefix, a) == PartitionName(prefix, b) {
      assert a == PartitionName(prefix, a)[|prefix|..];
    }
    assert PartitionName(CharacterPrefix, a)[0] == 'c';
    assert PartitionName(UniversePrefix, c)[0] == 'u';
  }

  /** `match.metadata.entry`. */
  function EntryOf(m: VectorMatch<OwnedEntry>): MemoryEntry
  {
    m.metadata.entry
  }

  /** The entry `addMemory` / `addEntry` builds: a new id, the draft's
      fields, and the current time. */
  function StoredEntry(entry: CreateMemoryEntry, id: string, now: int): (r: MemoryEntry)
    ensures r.id == id && r.createdAt == now
    ensures r.content == entry.content && r.salience == entry.salience && r.tags == entry.tags
  {
    MemoryEntry(id, entry.content, entry.salience, entry.tags, now)
  }

  /** Every record in partition `name` is filed under its entry's id and
      belongs to the owner the partition is named after. */
  ghost predicate Isolated(records: OMap<string, StoredRecord<OwnedEntry>>, prefix: string, name: string)
  {
    forall e | e in records :: e.0 == e.1.metadata.entry.id && PartitionName(prefix, e.1.metadata.ownerId) == name
  }

  /** A search of an isolated partition returns only entries stored for
      that owner. */
  lemma SearchIsolated(records: OMap<string, StoredRecord<OwnedEntry>>, prefix: string, ownerId: string,
                       vector: seq<real>, limit: Option<int>, sqrt: real -> real, x: VectorMatch<OwnedEntry>)
    requires Isolated(records, prefix, PartitionName(prefix, ownerId))
    requires x in QueryResult(records, vector, QueryOptions(limit, None), sqrt)
    ensures x.metadata.ownerId == ownerId
  {
    QueryMember(records, vector, QueryOptions(limit, None), sqrt, x);
    var e :| e in records && x == MatchOf(vector, Norm(vector, sqrt), e.1);
    PartitionNamesDistinct(prefix, ownerId, e.1.metadata.ownerId, "");
  }

  /** Once a memory is added, a search of its partition without a limit
      finds it, whatever its similarity, unless the query embedding is the
      zero vector. */
  lemma AddedEntryFound(records: OMap<string, StoredRecord<OwnedEntry>>, id: string, vector: seq<real>,
                        metadata: OwnedEntry, query: seq<real>, sqrt: real -> real)
    requires DistinctKeys(records) && Norm(query, sqrt) != 0.0
    ensures var added := Set(records, id, Stored(VectorRecord(id, vector, metadata), sqrt));
      metadata.entry in Map(QueryResult(added, query, QueryOptions(None, None), sqrt), EntryOf)
  {
    var stored := Stored(VectorRecord(id, vector, metadata), sqrt);
    var added := Set(records, id, stored);
    var options: QueryOptions<OwnedEntry> := QueryOptions(None, None);
    var queryNorm := Norm(query, sqrt);
    SetEntries(records, id, stored);
    CandidateComplete(added, query, queryNorm, None, (id, stored));
    QueryCount(added, query, options, sqrt);
    var r := QueryResult(added, query, options, sqrt);
    var x := MatchOf(query, queryNorm, stored);
    SubMultisetMember(Candidates(added, query, queryNorm, None), r, x);
    var i :| 0 <= i < |r| && r[i] == x;
    assert Map(r, EntryOf)[i] == metadata.entry;
  }

  /** `VectorstoreCharacterMemoryAdapter` (prefix `character:`) and
      `VectorstoreUniverseHistoryAdapter` (prefix `universe:`), each over
      the store it creates by default. */
  class MemoryAdapter {
    const prefix: string
    const store: MemoryVectorstore<OwnedEntry>

    ghost predicate Valid()
      reads this, store, store.Repr
    {
      && store.Valid()
      && forall name | name in store.partitions :: Isolated(store.partitions[name].records, prefix, name)
    }

    constructor(prefix: string, sqrt: real -> real)
      requires IsSqrt(sqrt)
      ensures Valid() && this.prefix == prefix && fresh(store) && store.sqrt == sqrt
      ensures store.partitions == map[]
    {
      this.prefix := prefix;
      store := new MemoryVectorstore(sqrt);
    }

    /** `addMemory` / `addEntry`: embed the content, then upsert the new
        entry into the owner's partition, creating it if needed. A failing
        embedding changes nothing; otherwise no other partition changes.
        `embed` is the language model's `embed`, `id` the value of
        `crypto.randomUUID()` and `now` the creation time. */
    method Add(ownerId: string, entry: CreateMemoryEntry, embed: string -> Result<seq<real>>,
               id: string, now: int) returns (r: Result<MemoryEntry>)
      requires Valid()
      modifies store, store.Repr
      ensures Valid()
      ensures embed(entry.content).Err? ==>
        && r == Err(embed(entry.content).message)
        && store.partitions == old(store.partitions)
        && forall n | n in store.partitions :: store.partitions[n].records == old(store.partitions[n].records)
      ensures embed(entry.content).Ok? ==>
        var name := PartitionName(prefix, ownerId);
        var stored := StoredEntry(entry, id, now);
        var record := VectorRecord(id, embed(entry.content).value, OwnedEntry(ownerId, stored));
        && r == Ok(stored)
        && store.partitions.Keys == old(store.partitions.Keys) + {name}
        && store.partitions[name].records
           == Set(if name in old(store.partitions) then old(store.partitions[name].records) else [], id, Stored(record, store.sqrt))
        && forall n | n in old(store.partitions) && n != name ::
             store.partitions[n] == old(store.partitions[n]) && store.partitions[n].records == old(store.partitions[n].records)
    {
      var embedding := embed(entry.content);
      if embedding.Err? {
        return Err(embedding.message);
      }
      var stored := StoredEntry(entry, id, now);
      var name := PartitionName(prefix, ownerId);
      var record := VectorRecord(id, embedding.value, OwnedEntry(ownerId, stored));
      ghost var before := if name in store.partitions then store.partitions[name].records else [];
      UpsertInto(name, record);
      SetEntries(before, id, Stored(record, store.sqrt));
      r := Ok(stored);
    }

    /** `partition(name).upsert(record)` on the store: the partition of that
        name, created if needed, files the record; no other partition
        changes. */
    method UpsertInto(name: string, record: VectorRecord<OwnedEntry>)
      requires store.Valid()
      modifies store, store.Repr
      ensures store.Valid()
      ensures store.partitions.Keys == old(store.partitions.Keys) + {name}
      ensures store.partitions[name].records
        == Set(if name in old(store.partitions) then old(store.partitions[name].records) else [], record.id, Stored(record, store.sqrt))
      ensures forall n | n in old(store.partitions) && n != name ::
        store.partitions[n] == old(store.partitions[n]) && store.partitions[n].records == old(store.partitions[n].records)
    {
      var partition := store.Partition(name);
      partition.Upsert(record);
    }

    /** `searchMemories` / `searchHistory`: embed the query, then query the
        owner's partition (created empty if needed) with the caller's limit
        and no filter, and return the entries of the matches. A failing
        embedding changes nothing; no stored record changes. */
    method Search(ownerId: string, query: string, limit: Option<int>, embed: string -> Result<seq<real>>)
      returns (r: Result<seq<MemoryEntry>>)
      requires Valid()
      modifies store
      ensures Valid()
      ensures forall n | n in old(store.partitions) ::
        n in store.partitions && store.partitions[n] == old(store.partitions[n])
        && store.partitions[n].records == old(store.partitions[n].records)
      ensures embed(query).Err? ==> r == Err(embed(query).message) && store.partitions == old(store.partitions)
      ensures embed(query).Ok? ==>
        var name := PartitionName(prefix, ownerId);
        var records := if name in old(store.partitions) then old(store.partitions[name].records) else [];
        var matches := QueryResult(records, embed(query).value, QueryOptions(limit, None), store.sqrt);
        && r == Ok(Map(matches, EntryOf))
        && store.partitions.Keys == old(store.partitions.Keys) + {name}
    {
      var embedding := embed(query);
      if embedding.Err? {
        return Err(embedding.message);
      }
      var name := PartitionName(prefix, ownerId);
      var partition := OwnerPartition(name);
      var matches := partition.Query(embedding.value, QueryOptions(limit, None));
      r := Ok(Map(matches, EntryOf));
    }

    /** `this.#store.partition(name)` on the store: the partition of that
        name, created empty if needed; no partition changes. */
    method OwnerPartition(name: string) returns (p: MemoryPartition<OwnedEntry>)
      requires Valid()
      modifies store
      ensures Valid()
      ensures name in store.partitions && p == store.partitions[name] && p.Valid() && p.sqrt == store.sqrt
      ensures p.records == if name in old(store.partitions) then old(store.partitions[name].records) else []
      ensures store.partitions.Keys == old(store.partitions.Keys) + {name}
      ensures forall n | n in old(store.partitions) ::
        n in store.partitions && store.partitions[n] == old(store.partitions[n])
        && store.partitions[n].records == old(store.partitions[n].records)
    {
      p := store.Partition(name);
    }
  }
}
