/**
 * The vector memory store as a value: an insertion-ordered map from record id
 * to record (a `LinkedHashMap`), the four updates on it, cosine scoring and
 * the two top-K searches. `QdrantLocal.QdrantLocalClient` keeps a store of
 * this shape in its fields and is proved to follow these definitions.
 */
module MemoryStore {
  import opened Wrappers
  import opened Entities
  import opened StableSort

  /** `order` lists the keys in insertion order; `entries` maps them to records. */
  datatype Store = Store(order: seq<string>, entries: map<string, MemoryEntry>)

  const Empty := Store([], map[])

  ghost predicate Distinct(s: seq<string>)
  {
    forall i, j :: 0 <= i < j < |s| ==> s[i] != s[j]
  }

  /** Keys are distinct, the two views hold the same keys, and every record sits under its own id. */
  ghost predicate Valid(st: Store)
  {
    Distinct(st.order) &&
    (forall k :: k in st.entries ==> k in st.order) &&
    (forall i :: 0 <= i < |st.order| ==> st.order[i] in st.entries) &&
    (forall k :: k in st.entries ==> st.entries[k].id == k)
  }

  function ValuesOf(order: seq<string>, entries: map<string, MemoryEntry>): (r: seq<MemoryEntry>)
    requires forall k :: k in order ==> k in entries
    ensures |r| == |order|
    ensures forall i :: 0 <= i < |order| ==> r[i] == entries[order[i]]
  {
    if order == [] then []
    else ValuesOf(order[..|order| - 1], entries) + [entries[order[|order| - 1]]]
  }

  /** `memoriesMap.values()`: the records in insertion order. */
  function Values(st: Store): (r: seq<MemoryEntry>)
    requires Valid(st)
    ensures |r| == |st.order| == |st.entries|
    ensures forall i :: 0 <= i < |r| ==> r[i] == st.entries[st.order[i]] && r[i].id == st.order[i]
  {
    DistinctCard(st.order, st.entries.Keys);
    ValuesOf(st.order, st.entries)
  }

  lemma {:induction false} DistinctCard(order: seq<string>, keys: set<string>)
    requires Distinct(order)
    requires forall k :: k in keys <==> k in order
    ensures |keys| == |order|
  {
    if order != [] {
      var last := order[|order| - 1];
      var front := order[..|order| - 1];
      assert forall k :: k in keys - {last} <==> k in front by {
        forall k ensures k in keys - {last} <==> k in front {
          if k in front {
            var i :| 0 <= i < |front| && front[i] == k;
            assert order[i] == k;
          }
        }
      }
      DistinctCard(front, keys - {last});
    }
  }

  /** `LinkedHashMap.put`: a present key keeps its position, a new key goes last. */
  function Put(st: Store, k: string, e: MemoryEntry): Store
  {
    Store(if k in st.entries then st.order else st.order + [k], st.entries[k := e])
  }

  /** `upsertMemory`: a record under the freshly generated id `newId`. */
  function Upsert(st: Store, newId: string, sessionId: string, pair: Option<MessagePair>,
                  embedding: seq<real>, candidate: CandidateMemory): (r: Store)
    ensures newId in r.entries && r.entries[newId] == MemoryEntry(newId, sessionId, pair, embedding, candidate)
    ensures r.entries.Keys == st.entries.Keys + {newId}
    ensures forall k :: k in st.entries && k != newId ==> r.entries[k] == st.entries[k]
    ensures newId in st.entries ==> r.order == st.order
    ensures newId !in st.entries ==> r.order == st.order + [newId]
  {
    Put(st, newId, MemoryEntry(newId, sessionId, pair, embedding, candidate))
  }

  /** `updateMemory`: replaces embedding and fact of a present record, keeping its turn. */
  function Update(st: Store, sessionId: string, id: string, embedding: seq<real>,
                  candidate: CandidateMemory): (r: Store)
    ensures id !in st.entries ==> r == st
    ensures r.order == st.order && r.entries.Keys == st.entries.Keys
    ensures id in st.entries ==>
              r.entries[id] == MemoryEntry(id, sessionId, st.entries[id].messagePair, embedding, candidate)
    ensures forall k :: k in st.entries && k != id ==> r.entries[k] == st.entries[k]
  {
    if id in st.entries then
      Put(st, id, MemoryEntry(id, sessionId, st.entries[id].messagePair, embedding, candidate))
    else st
  }

  function RemoveKey(order: seq<string>, k: string): (r: seq<string>)
    ensures forall x :: x in r <==> x in order && x != k
  {
    if order == [] then []
    else RemoveKey(order[..|order| - 1], k) + (if order[|order| - 1] == k then [] else [order[|order| - 1]])
  }

  /** `deleteMemory`. */
  function Delete(st: Store, id: string): (r: Store)
    ensures r.entries.Keys == st.entries.Keys - {id}
    ensures forall k :: k in r.entries ==> r.entries[k] == st.entries[k]
    ensures id in st.entries ==> forall x :: x in r.order <==> x in st.order && x != id
  {
    if id in st.entries then Store(RemoveKey(st.order, id), st.entries - {id}) else st
  }

  /** The records other than the one with id `id`, in order. */
  function WithoutId(vals: seq<MemoryEntry>, id: string): (r: seq<MemoryEntry>)
    ensures forall e :: e in r <==> e in vals && e.id != id
  {
    if vals == [] then []
    else WithoutId(vals[..|vals| - 1], id) + (if vals[|vals| - 1].id == id then [] else [vals[|vals| - 1]])
  }

  lemma {:induction false} PutValid(st: Store, k: string, e: MemoryEntry)
    requires Valid(st) && e.id == k
    ensures Valid(Put(st, k, e))
  {
    var o := Put(st, k, e).order;
    if k !in st.entries {
      forall i, j | 0 <= i < j < |o| ensures o[i] != o[j] {
        if j == |o| - 1 {
          assert o[i] == st.order[i];
        } else {
          assert o[i] == st.order[i] && o[j] == st.order[j];
        }
      }
    }
  }

  /**
   * A fresh id adds exactly one record, at the end of insertion order, and
   * leaves all others as they were; the count grows by one.
   */
  lemma UpsertFresh(st: Store, newId: string, sessionId: string, pair: Option<MessagePair>,
                    embedding: seq<real>, candidate: CandidateMemory)
    requires Valid(st) && newId !in st.entries
    ensures Valid(Upsert(st, newId, sessionId, pair, embedding, candidate))
    ensures Values(Upsert(st, newId, sessionId, pair, embedding, candidate))
         == Values(st) + [MemoryEntry(newId, sessionId, pair, embedding, candidate)]
  {
    var e := MemoryEntry(newId, sessionId, pair, embedding, candidate);
    assert Upsert(st, newId, sessionId, pair, embedding, candidate) == Put(st, newId, e);
    PutFresh(st, newId, e);
  }

  /** `put` of a fresh key appends its entry to the listing. */
  lemma PutFresh(st: Store, k: string, e: MemoryEntry)
    requires Valid(st) && k !in st.entries && e.id == k
    ensures Valid(Put(st, k, e))
    ensures Values(Put(st, k, e)) == Values(st) + [e]
  {
    PutValid(st, k, e);
    var m := st.entries[k := e];
    assert (st.order + [k])[..|st.order|] == st.order;
    ValuesOfAgree(st.order, st.entries, m);
  }

  /** The values along `order` depend only on the entries of its keys. */
  lemma {:induction false} ValuesOfAgree(order: seq<string>, m1: map<string, MemoryEntry>, m2: map<string, MemoryEntry>)
    requires forall k :: k in order ==> k in m1 && k in m2 && m1[k] == m2[k]
    ensures ValuesOf(order, m1) == ValuesOf(order, m2)
  {
    if order != [] {
      ValuesOfAgree(order[..|order| - 1], m1, m2);
    }
  }

  /** Should the generated id collide, the record is replaced in place (the map semantics of `put`). */
  lemma UpsertCollision(st: Store, newId: string, sessionId: string, pair: Option<MessagePair>,
                        embedding: seq<real>, candidate: CandidateMemory)
    requires Valid(st) && newId in st.entries
    ensures Valid(Upsert(st, newId, sessionId, pair, embedding, candidate))
    ensures var r := Values(Upsert(st, newId, sessionId, pair, embedding, candidate));
            |r| == |Values(st)| &&
            forall i :: 0 <= i < |r| ==>
              r[i] == if Values(st)[i].id == newId then MemoryEntry(newId, sessionId, pair, embedding, candidate) else Values(st)[i]
  {
    PutValid(st, newId, MemoryEntry(newId, sessionId, pair, embedding, candidate));
  }

  /**
   * Updating a present id rewrites only that record, at its position: id and
   * turn are kept, session, embedding and fact are the new ones.
   */
  lemma UpdatePresent(st: Store, sessionId: string, id: string, embedding: seq<real>, candidate: CandidateMemory)
    requires Valid(st) && id in st.entries
    ensures Valid(Update(st, sessionId, id, embedding, candidate))
    ensures var r := Values(Update(st, sessionId, id, embedding, candidate));
            |r| == |Values(st)| &&
            forall i :: 0 <= i < |r| ==>
              r[i] == if Values(st)[i].id == id
                      then Values(st)[i].(sessionId := sessionId, embedding := embedding, candidateMemory := candidate)
                      else Values(st)[i]
  {
    PutValid(st, id, MemoryEntry(id, sessionId, st.entries[id].messagePair, embedding, candidate));
  }

  /** Updating an absent id changes nothing. */
  lemma UpdateAbsent(st: Store, sessionId: string, id: string, embedding: seq<real>, candidate: CandidateMemory)
    requires id !in st.entries
    ensures Update(st, sessionId, id, embedding, candidate) == st
  {
  }

  lemma ValuesOfSnoc(order: seq<string>, k: string, entries: map<string, MemoryEntry>)
    requires forall x :: x in order ==> x in entries
    requires k in entries
    ensures ValuesOf(order + [k], entries) == ValuesOf(order, entries) + [entries[k]]
  {
    assert (order + [k])[..|order|] == order;
  }

  lemma WithoutIdSnoc(vals: seq<MemoryEntry>, e: MemoryEntry, id: string)
    ensures WithoutId(vals + [e], id) == WithoutId(vals, id) + (if e.id == id then [] else [e])
  {
    assert (vals + [e])[..|vals|] == vals;
  }

  lemma RemoveKeySnoc(order: seq<string>, k: string, id: string)
    ensures RemoveKey(order + [k], id) == RemoveKey(order, id) + (if k == id then [] else [k])
  {
    assert (order + [k])[..|order|] == order;
  }

  lemma RemoveKeyValues(order: seq<string>, entries: map<string, MemoryEntry>, id: string)
    requires forall k :: k in order ==> k in entries && entries[k].id == k
    ensures ValuesOf(RemoveKey(order, id), entries - {id}) == WithoutId(ValuesOf(order, entries), id)
  {
    var kept := RemoveKey(order, id);
    var a := ValuesOf(kept, entries - {id});
    var b := ValuesOf(kept, entries);
    assert a == b;
    FilterValues(order, entries, id);
  }

  /** Removing a key from the order removes its record from the values, in the same entries. */
  lemma {:induction false} FilterValues(order: seq<string>, entries: map<string, MemoryEntry>, id: string)
    requires forall k :: k in order ==> k in entries && entries[k].id == k
    ensures ValuesOf(RemoveKey(order, id), entries) == WithoutId(ValuesOf(order, entries), id)
  {
    if order != [] {
      var front := order[..|order| - 1];
      var last := order[|order| - 1];
      assert order == front + [last];
      FilterValues(front, entries, id);
      FilterValuesStep(front, last, entries, id);
    }
  }

  lemma FilterValuesStep(front: seq<string>, last: string, entries: map<string, MemoryEntry>, id: string)
    requires forall k :: k in front + [last] ==> k in entries && entries[k].id == k
    requires ValuesOf(RemoveKey(front, id), entries) == WithoutId(ValuesOf(front, entries), id)
    ensures ValuesOf(RemoveKey(front + [last], id), entries) == WithoutId(ValuesOf(front + [last], entries), id)
  {
    var e := entries[last];
    var tail := if last == id then [] else [e];
    assert WithoutId(ValuesOf(front + [last], entries), id) == WithoutId(ValuesOf(front, entries), id) + tail by {
      ValuesOfSnoc(front, last, entries);
      WithoutIdSnoc(ValuesOf(front, entries), e, id);
    }
    assert ValuesOf(RemoveKey(front + [last], id), entries) == ValuesOf(RemoveKey(front, id), entries) + tail by {
      RemoveKeySnoc(front, last, id);
      if last != id {
        ValuesOfSnoc(RemoveKey(front, id), last, entries);
      } else {
        assert RemoveKey(front + [last], id) == RemoveKey(front, id) + [];
      }
    }
  }

  lemma {:induction false} RemoveKeyDistinct(order: seq<string>, id: string)
    requires Distinct(order)
    ensures Distinct(RemoveKey(order, id))
  {
    if order != [] {
      var front := order[..|order| - 1];
      RemoveKeyDistinct(front, id);
      var r := RemoveKey(order, id);
      var rf := RemoveKey(front, id);
      if order[|order| - 1] != id {
        forall i | 0 <= i < |rf| ensures rf[i] != order[|order| - 1] {
          assert rf[i] in front;
        }
        assert r == rf + [order[|order| - 1]];
        forall i, j | 0 <= i < j < |r| ensures r[i] != r[j] {
          if j < |rf| {
            assert r[i] == rf[i] && r[j] == rf[j];
          } else {
            assert r[i] == rf[i];
          }
        }
      } else {
        assert r == rf;
      }
    }
  }

  lemma DeleteValid(st: Store, id: string)
    requires Valid(st)
    ensures Valid(Delete(st, id))
  {
    if id in st.entries {
      RemoveKeyDistinct(st.order, id);
      var d := Delete(st, id);
      forall i | 0 <= i < |d.order| ensures d.order[i] in d.entries {
        assert d.order[i] in d.order;
      }
      forall k | k in d.entries ensures k in d.order {
        assert k in st.order;
      }
    }
  }

  /**
   * Deleting a present id removes exactly that record (the count drops by
   * one) and keeps the order of the others.
   */
  lemma DeletePresent(st: Store, id: string)
    requires Valid(st) && id in st.entries
    ensures Valid(Delete(st, id))
    ensures Values(Delete(st, id)) == WithoutId(Values(st), id)
    ensures |Values(Delete(st, id))| == |Values(st)| - 1
  {
    var d := Delete(st, id);
    assert d == Store(RemoveKey(st.order, id), st.entries - {id});
    DeleteValid(st, id);
    RemoveKeyValues(st.order, st.entries, id);
    assert Values(d) == ValuesOf(d.order, d.entries);
    assert Values(st) == ValuesOf(st.order, st.entries);
    DeleteShrinks(st, id);
  }

  lemma DeleteShrinks(st: Store, id: string)
    requires Valid(st) && id in st.entries
    ensures |Delete(st, id).entries| == |st.entries| - 1
  {
  }

  /** The records left after a delete are the others, each exactly once as before. */
  lemma DeleteKeepsOthers(st: Store, id: string)
    requires Valid(st) && id in st.entries
    ensures Valid(Delete(st, id))
    ensures forall e :: e in Values(Delete(st, id)) <==> e in Values(st) && e.id != id
  {
    DeletePresent(st, id);
  }

  /** Deleting an absent id changes nothing. */
  lemma DeleteAbsent(st: Store, id: string)
    requires id !in st.entries
    ensures Delete(st, id) == st
  {
  }

  // ---------------------------------------------------------------------------
  // Cosine similarity

  /** The dot product of the first `n` coordinates. */
  function Dot(a: seq<real>, b: seq<real>, n: nat): real
    requires n <= |a| && n <= |b|
  {
    if n == 0 then 0.0 else Dot(a, b, n - 1) + a[n - 1] * b[n - 1]
  }

  /**
   * `cosineSimilarity`: 0 for vectors of different length or with a zero
   * norm, else dot / (|a| * |b|). The square root is the platform's.
   */
  function CosineSpec(a: seq<real>, b: seq<real>, sqrt: real -> real): (r: real)
    ensures |a| != |b| ==> r == 0.0
    ensures |a| == |b| && (sqrt(Dot(a, a, |a|)) == 0.0 || sqrt(Dot(b, b, |b|)) == 0.0) ==> r == 0.0
    ensures |a| == |b| && sqrt(Dot(a, a, |a|)) != 0.0 && sqrt(Dot(b, b, |b|)) != 0.0 ==>
              r * (sqrt(Dot(a, a, |a|)) * sqrt(Dot(b, b, |b|))) == Dot(a, b, |a|)
  {
    if |a| != |b| then 0.0
    else
      var n1 := sqrt(Dot(a, a, |a|));
      var n2 := sqrt(Dot(b, b, |b|));
      if n1 == 0.0 || n2 == 0.0 then 0.0 else Dot(a, b, |a|) / (n1 * n2)
  }

  lemma {:induction false} DotOfZero(a: seq<real>, b: seq<real>, n: nat)
    requires n <= |a| && n <= |b|
    requires forall i :: 0 <= i < |a| ==> a[i] == 0.0
    ensures Dot(a, b, n) == 0.0
  {
    if n > 0 {
      DotOfZero(a, b, n - 1);
    }
  }

  /** A zero vector scores 0 against anything, whenever the square root of 0 is 0. */
  lemma ZeroVectorScoresZero(a: seq<real>, b: seq<real>, sqrt: real -> real)
    requires sqrt(0.0) == 0.0
    requires forall i :: 0 <= i < |a| ==> a[i] == 0.0
    ensures CosineSpec(a, b, sqrt) == 0.0 && CosineSpec(b, a, sqrt) == 0.0
  {
    DotOfZero(a, a, |a|);
  }

  // ---------------------------------------------------------------------------
  // Search

  /** The records of one session, in insertion order. */
  function SessionEntries(vals: seq<MemoryEntry>, sessionId: string): (r: seq<MemoryEntry>)
    ensures forall e :: e in r <==> e in vals && e.sessionId == sessionId
  {
    if vals == [] then []
    else SessionEntries(vals[..|vals| - 1], sessionId)
         + (if vals[|vals| - 1].sessionId == sessionId then [vals[|vals| - 1]] else [])
  }

  function ToSimilarity(e: MemoryEntry, query: seq<real>, sqrt: real -> real): MemorySimilarity
  {
    MemorySimilarity(e.id, e.candidateMemory, e.messagePair, CosineSpec(query, e.embedding, sqrt))
  }

  /** One hit per record, in the same order. */
  function Scored(es: seq<MemoryEntry>, query: seq<real>, sqrt: real -> real): (r: seq<MemorySimilarity>)
    ensures |r| == |es|
    ensures forall i :: 0 <= i < |es| ==> r[i] == ToSimilarity(es[i], query, sqrt)
  {
    seq(|es|, i requires 0 <= i < |es| => ToSimilarity(es[i], query, sqrt))
  }

  function Score(m: MemorySimilarity): real { m.similarityScore }

  /** The session's hits ranked by descending score, ties in insertion order. */
  function Ranked(st: Store, sessionId: string, query: seq<real>, sqrt: real -> real): seq<MemorySimilarity>
    requires Valid(st)
  {
    SortDesc(Scored(SessionEntries(Values(st), sessionId), query, sqrt), Score)
  }

  /**
   * `searchSimilarMemories`: empty for a session without records, else the
   * first topK ranked hits; `Stream.limit` throws (None) for a negative topK.
   */
  function SearchSimilar(st: Store, sessionId: string, query: seq<real>, topK: int, sqrt: real -> real)
    : (r: Option<seq<MemorySimilarity>>)
    requires Valid(st)
    ensures r.None? <==> SessionEntries(Values(st), sessionId) != [] && topK < 0
    ensures r.Some? ==> |r.value| <= |SessionEntries(Values(st), sessionId)| && (topK >= 0 ==> |r.value| <= topK)
  {
    if SessionEntries(Values(st), sessionId) == [] then Some([])
    else if topK < 0 then None
    else Some(Take(Ranked(st, sessionId, query, sqrt), topK))
  }

  /** `searchSimilarMemoriesWithScore`: as above, but a negative topK yields nothing. */
  function SearchWithScore(st: Store, sessionId: string, query: seq<real>, topK: int, sqrt: real -> real)
    : (r: seq<MemorySimilarity>)
    requires Valid(st)
    ensures topK <= 0 ==> r == []
    ensures |r| <= |SessionEntries(Values(st), sessionId)| && (topK >= 0 ==> |r| <= topK)
  {
    if SessionEntries(Values(st), sessionId) == [] then []
    else Take(Ranked(st, sessionId, query, sqrt), topK)
  }

  /**
   * Every hit names a record of the queried session and carries that
   * record's fact and turn.
   */
  lemma SearchStaysInSession(st: Store, sessionId: string, query: seq<real>, topK: int, sqrt: real -> real)
    requires Valid(st)
    ensures forall m :: m in SearchWithScore(st, sessionId, query, topK, sqrt) ==>
      m.memoryId in st.entries && st.entries[m.memoryId].sessionId == sessionId &&
      st.entries[m.memoryId].candidateMemory == m.candidateMemory &&
      st.entries[m.memoryId].messagePair == m.messagePair
  {
    var ses := SessionEntries(Values(st), sessionId);
    var sc := Scored(ses, query, sqrt);
    var r := SearchWithScore(st, sessionId, query, topK, sqrt);
    forall m | m in r
      ensures m.memoryId in st.entries && st.entries[m.memoryId].sessionId == sessionId
      ensures st.entries[m.memoryId].candidateMemory == m.candidateMemory
      ensures st.entries[m.memoryId].messagePair == m.messagePair
    {
      var rk := Ranked(st, sessionId, query, sqrt);
      assert m in rk;
      assert m in multiset(rk);
      assert m in sc;
      var i :| 0 <= i < |sc| && sc[i] == m;
      assert ses[i] in Values(st);
      var j :| 0 <= j < |Values(st)| && Values(st)[j] == ses[i];
    }
  }

  /** For topK >= 0 there are min(topK, #session records) hits, by non-increasing score. */
  lemma SearchSizeAndOrder(st: Store, sessionId: string, query: seq<real>, topK: int, sqrt: real -> real)
    requires Valid(st) && topK >= 0
    ensures var r := SearchWithScore(st, sessionId, query, topK, sqrt);
            var n := |SessionEntries(Values(st), sessionId)|;
            |r| == (if topK < n then topK else n) && SortedDesc(r, Score)
  {
    SortDescIsSorted(Scored(SessionEntries(Values(st), sessionId), query, sqrt), Score);
  }

  /** Hits with equal scores come in insertion order (the sorts are stable). */
  lemma SearchTiesInInsertionOrder(st: Store, sessionId: string, query: seq<real>, sqrt: real -> real, v: real)
    requires Valid(st)
    ensures WithKey(Ranked(st, sessionId, query, sqrt), Score, v)
         == WithKey(Scored(SessionEntries(Values(st), sessionId), query, sqrt), Score, v)
  {
    SortDescIsStable(Scored(SessionEntries(Values(st), sessionId), query, sqrt), Score, v);
  }

  /**
   * The two searches agree for topK >= 0; for a negative topK on a
   * non-empty session the stream search throws and the other returns nothing.
   */
  lemma SearchesAgree(st: Store, sessionId: string, query: seq<real>, topK: int, sqrt: real -> real)
    requires Valid(st)
    ensures topK >= 0 ==> SearchSimilar(st, sessionId, query, topK, sqrt) == Some(SearchWithScore(st, sessionId, query, topK, sqrt))
    ensures topK < 0 ==> SearchWithScore(st, sessionId, query, topK, sqrt) == []
    ensures topK < 0 ==>
      (SearchSimilar(st, sessionId, query, topK, sqrt).None? <==> SessionEntries(Values(st), sessionId) != [])
  {
  }

  /** A session without records gets no hits from either search. */
  lemma SearchEmptySession(st: Store, sessionId: string, query: seq<real>, topK: int, sqrt: real -> real)
    requires Valid(st)
    requires forall k :: k in st.entries ==> st.entries[k].sessionId != sessionId
    ensures SearchSimilar(st, sessionId, query, topK, sqrt) == Some([])
    ensures SearchWithScore(st, sessionId, query, topK, sqrt) == []
  {
    SessionEntriesNone(Values(st), sessionId);
  }

  lemma {:induction false} SessionEntriesNone(vals: seq<MemoryEntry>, sessionId: string)
    requires forall i :: 0 <= i < |vals| ==> vals[i].sessionId != sessionId
    ensures SessionEntries(vals, sessionId) == []
  {
    if vals != [] {
      SessionEntriesNone(vals[..|vals| - 1], sessionId);
    }
  }
}
