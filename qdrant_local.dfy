/**
 * `QdrantLocalClient`: the local vector store object. Its `memoriesMap`
 * (a `LinkedHashMap`) is kept as the key order plus the map; every
 * operation is proved to act on that state as the `MemoryStore` definitions
 * say. Reloading from and flushing to the JSON file are I/O and are not
 * modelled: the in-memory state is authoritative.
 */
module QdrantLocal {
  import opened Wrappers
  import opened Entities
  import opened StableSort
  import opened MemoryStore

  class QdrantLocalClient {
    var order: seq<string>
    var entries: map<string, MemoryEntry>

    function State(): Store
      reads this
    {
      Store(order, entries)
    }

    ghost predicate Valid()
      reads this
    {
      MemoryStore.Valid(State())
    }

    constructor()
      ensures Valid() && State() == Empty
    {
      order := [];
      entries := map[];
    }

    /** `upsertMemory`, with the generated UUID passed in as `newId`. */
    method UpsertMemory(newId: string, sessionId: string, pair: Option<MessagePair>,
                        embedding: seq<real>, candidate: CandidateMemory)
      requires Valid()
      modifies this
      ensures Valid()
      ensures State() == Upsert(old(State()), newId, sessionId, pair, embedding, candidate)
    {
      var e := MemoryEntry(newId, sessionId, pair, embedding, candidate);
      PutValid(State(), newId, e);
      if newId !in entries {
        order := order + [newId];
      }
      entries := entries[newId := e];
    }

    /** `updateMemory`: a present record gets the new session, embedding and fact; its turn stays. */
    method UpdateMemory(sessionId: string, memoryId: string, embedding: seq<real>, candidate: CandidateMemory)
      requires Valid()
      modifies this
      ensures Valid()
      ensures State() == Update(old(State()), sessionId, memoryId, embedding, candidate)
    {
      if memoryId in entries {
        var existing := entries[memoryId];
        var updated := MemoryEntry(memoryId, sessionId, existing.messagePair, embedding, candidate);
        PutValid(State(), memoryId, updated);
        entries := entries[memoryId := updated];
      }
    }

    /** `deleteMemory`: removes the record when present. */
    method DeleteMemory(memoryId: string)
      requires Valid()
      modifies this
      ensures Valid()
      ensures State() == Delete(old(State()), memoryId)
    {
      DeleteValid(State(), memoryId);
      if memoryId in entries {
        order := RemoveKey(order, memoryId);
        entries := entries - {memoryId};
      }
    }

    /** `getAllMemories`: the records in insertion order. */
    method GetAllMemories() returns (r: seq<MemoryEntry>)
      requires Valid()
      ensures r == Values(State())
      ensures forall e: MemoryEntry :: e in r <==> e.id in entries && entries[e.id] == e
    {
      r := ValuesOf(order, entries);
      forall e: MemoryEntry | e.id in entries && entries[e.id] == e ensures e in r {
        var i :| 0 <= i < |order| && order[i] == e.id;
        assert r[i] == e;
      }
    }

    /** `getMemoryById`: None (null) for an unknown id. */
    method GetMemoryById(memoryId: string) returns (r: Option<MemoryEntry>)
      requires Valid()
      ensures r.Some? <==> memoryId in order
      ensures r.Some? ==> r.value.id == memoryId && r.value in Values(State())
    {
      if memoryId in entries {
        r := Some(entries[memoryId]);
        var i :| 0 <= i < |order| && order[i] == memoryId;
        assert Values(State())[i] == r.value;
      } else {
        r := None;
      }
    }

    /** `getMemoryCount`. */
    method GetMemoryCount() returns (n: int)
      requires Valid()
      ensures n == |Values(State())| == |order|
    {
      n := |entries|;
    }

    /** `cosineSimilarity`: accumulates dot product and squared norms in one pass. */
    method CosineSimilarity(a: seq<real>, b: seq<real>, sqrt: real -> real) returns (r: real)
      ensures r == CosineSpec(a, b, sqrt)
      ensures |a| != |b| ==> r == 0.0
    {
      if |a| != |b| {
        return 0.0;
      }
      var dot, sq1, sq2 := 0.0, 0.0, 0.0;
      var i := 0;
      while i < |a|
        invariant 0 <= i <= |a|
        invariant dot == Dot(a, b, i) && sq1 == Dot(a, a, i) && sq2 == Dot(b, b, i)
      {
        assert Dot(a, b, i + 1) == Dot(a, b, i) + a[i] * b[i];
        assert Dot(a, a, i + 1) == Dot(a, a, i) + a[i] * a[i];
        assert Dot(b, b, i + 1) == Dot(b, b, i) + b[i] * b[i];
        dot := dot + a[i] * b[i];
        sq1 := sq1 + a[i] * a[i];
        sq2 := sq2 + b[i] * b[i];
        i := i + 1;
      }
      assert i == |a| == |b|;
      var norm1 := sqrt(sq1);
      var norm2 := sqrt(sq2);
      if norm1 == 0.0 || norm2 == 0.0 {
        return 0.0;
      }
      r := dot / (norm1 * norm2);
    }

    /** The stream filter: the records of one session, in order. */
    method FilterSession(vals: seq<MemoryEntry>, sessionId: string) returns (sess: seq<MemoryEntry>)
      ensures sess == SessionEntries(vals, sessionId)
    {
      sess := [];
      var i := 0;
      while i < |vals|
        invariant 0 <= i <= |vals|
        invariant sess == SessionEntries(vals[..i], sessionId)
      {
        assert vals[..i + 1][..i] == vals[..i];
        if vals[i].sessionId == sessionId {
          sess := sess + [vals[i]];
        }
        i := i + 1;
      }
      assert vals[..|vals|] == vals;
    }

    /** The scoring loop: one hit per record, scored against the query. */
    method ScoreAll(sess: seq<MemoryEntry>, query: seq<real>, sqrt: real -> real) returns (hits: seq<MemorySimilarity>)
      ensures hits == Scored(sess, query, sqrt)
    {
      hits := [];
      var j := 0;
      while j < |sess|
        invariant 0 <= j <= |sess|
        invariant |hits| == j
        invariant forall k :: 0 <= k < j ==> hits[k] == ToSimilarity(sess[k], query, sqrt)
      {
        var score := CosineSimilarity(query, sess[j].embedding, sqrt);
        hits := hits + [MemorySimilarity(sess[j].id, sess[j].candidateMemory, sess[j].messagePair, score)];
        j := j + 1;
      }
    }

    /** The part both searches share: filter by session, then score. */
    method ScoreSession(sessionId: string, query: seq<real>, sqrt: real -> real)
      returns (sessionCount: nat, hits: seq<MemorySimilarity>)
      requires Valid()
      ensures sessionCount == |SessionEntries(Values(State()), sessionId)|
      ensures hits == Scored(SessionEntries(Values(State()), sessionId), query, sqrt)
    {
      var sess := FilterSession(ValuesOf(order, entries), sessionId);
      sessionCount := |sess|;
      hits := ScoreAll(sess, query, sqrt);
    }

    /**
     * `searchSimilarMemories`: the session's hits sorted by descending score
     * and limited to topK; None where `Stream.limit` throws for a negative topK.
     */
    method SearchSimilarMemories(sessionId: string, query: seq<real>, topK: int, sqrt: real -> real)
      returns (r: Option<seq<MemorySimilarity>>)
      requires Valid()
      ensures r == SearchSimilar(State(), sessionId, query, topK, sqrt)
    {
      var n, hits := ScoreSession(sessionId, query, sqrt);
      if n == 0 {
        return Some([]);
      }
      if topK < 0 {
        return None;
      }
      r := Some(Take(SortDesc(hits, Score), topK));
    }

    /**
     * `searchSimilarMemoriesWithScore`: the same ranking, then a copy loop
     * over the first min(topK, size) hits.
     */
    method SearchSimilarMemoriesWithScore(sessionId: string, query: seq<real>, topK: int, sqrt: real -> real)
      returns (r: seq<MemorySimilarity>)
      requires Valid()
      ensures r == SearchWithScore(State(), sessionId, query, topK, sqrt)
    {
      var n, hits := ScoreSession(sessionId, query, sqrt);
      if n == 0 {
        return [];
      }
      var sorted := SortDesc(hits, Score);
      r := CopyFirst(sorted, topK);
    }

    /** The copy loop of `searchSimilarMemoriesWithScore`: the first min(topK, size) hits, in order. */
    static method CopyFirst(sorted: seq<MemorySimilarity>, topK: int) returns (r: seq<MemorySimilarity>)
      ensures r == Take(sorted, topK)
    {
      var bound := if topK <= 0 then 0 else if topK < |sorted| then topK else |sorted|;
      r := [];
      var i := 0;
      while i < bound
        invariant 0 <= i <= bound <= |sorted|
        invariant r == sorted[..i]
      {
        assert sorted[..i + 1] == sorted[..i] + [sorted[i]];
        r := r + [sorted[i]];
        i := i + 1;
      }
    }
  }
}
