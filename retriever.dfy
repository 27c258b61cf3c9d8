/**
 * `MemoryRetrieverServiceImpl`: similarity search through the embedder and
 * the vector store, and the "recent messages" text read straight from a
 * message log file. The embedder is a parameter (None when it throws; its
 * input is None for a null text).
 */
module Retriever {
  import opened Wrappers
  import opened Text
  import opened Json
  import opened Entities
  import opened StableSort
  import opened MemoryStore
  import opened QdrantLocal
  import opened FileRepository
  import Properties

  // ---------------------------------------------------------------------------
  // retrieveSimilarMemories

  /**
   * `retrieveSimilarMemories`: the store's search for the embedded text;
   * any exception, of the embedder or of the search, gives no hits.
   */
  function Similar(st: Store, sessionId: string, text: Option<string>, topK: int,
                   embed: Option<string> -> Option<seq<real>>, sqrt: real -> real): (r: seq<MemorySimilarity>)
    requires MemoryStore.Valid(st)
    ensures embed(text).None? ==> r == []
    ensures embed(text).Some? ==> r == SearchWithScore(st, sessionId, embed(text).value, topK, sqrt)
  {
    match embed(text)
    case None => []
    case Some(query) =>
      SearchesAgree(st, sessionId, query, topK, sqrt);
      match SearchSimilar(st, sessionId, query, topK, sqrt)
      case None => []
      case Some(hits) => hits
  }

  /** The hits of a retrieval belong to the session and come ranked, at most topK of them. */
  lemma SimilarInSessionAndRanked(st: Store, sessionId: string, text: Option<string>, topK: int,
                                  embed: Option<string> -> Option<seq<real>>, sqrt: real -> real)
    requires MemoryStore.Valid(st)
    ensures var r := Similar(st, sessionId, text, topK, embed, sqrt);
            |r| <= (if topK < 0 then 0 else topK) && SortedDesc(r, Score) &&
            forall m :: m in r ==> m.memoryId in st.entries && st.entries[m.memoryId].sessionId == sessionId
  {
    if embed(text).Some? {
      var q := embed(text).value;
      SearchStaysInSession(st, sessionId, q, topK, sqrt);
      if topK >= 0 {
        SearchSizeAndOrder(st, sessionId, q, topK, sqrt);
      }
    }
  }

  /** `retrieveSimilarMemories(sessionId, userMessage, topK)` against the store object. */
  method RetrieveSimilarMemories(client: QdrantLocalClient, sessionId: string, userMessage: Option<string>, topK: int,
                                 embed: Option<string> -> Option<seq<real>>, sqrt: real -> real)
    returns (r: seq<MemorySimilarity>)
    requires client.Valid()
    ensures r == Similar(client.State(), sessionId, userMessage, topK, embed, sqrt)
  {
    var query := embed(userMessage);
    if query.None? {
      return [];
    }
    var found := client.SearchSimilarMemories(sessionId, query.value, topK, sqrt);
    if found.None? {
      return [];
    }
    r := found.value;
  }

  /** The `ParsedMessage` overload: the search for the parsed content. */
  method RetrieveSimilarForParsed(client: QdrantLocalClient, sessionId: string, parsed: ParsedMessage, topK: int,
                                  embed: Option<string> -> Option<seq<real>>, sqrt: real -> real)
    returns (r: seq<MemorySimilarity>)
    requires client.Valid()
    ensures r == Similar(client.State(), sessionId, parsed.content, topK, embed, sqrt)
  {
    r := RetrieveSimilarMemories(client, sessionId, parsed.content, topK, embed, sqrt);
  }

  // ---------------------------------------------------------------------------
  // getRecentMemories

  /** A message pair as Gson reads it into a list, null texts kept. */
  datatype StoredPair = StoredPair(sessionId: string, userMessage: Option<string>, aiResponse: Option<string>,
                                   timestamp: Long)

  /**
   * One element of the `List<MessagePair>`, read by Gson and then checked by
   * the session filter: None where either throws (a null element, a
   * non-object, a field Gson cannot convert, a null session id).
   */
  function ReadElement(e: Json): (r: Option<StoredPair>)
    ensures e.JNull? ==> r == None
    ensures r.Some? ==> e.JObj? && StringField(e.fields, "sessionId") == Some(Some(r.value.sessionId))
  {
    match e
    case JObj(fields) =>
      (match (StringField(fields, "sessionId"), StringField(fields, "userMessage"),
              StringField(fields, "aiResponse"), LongField(fields, "timestamp", StreamReader))
       case (Some(Some(sid)), Some(user), Some(ai), Some(ts)) => Some(StoredPair(sid, user, ai, ts))
       case _ => None)
    case _ => None
  }

  /** A pair the repository saved is read back whole. */
  lemma SavedPairIsRead(p: MessagePair)
    ensures ReadElement(EncodePair(p)) == Some(StoredPair(p.sessionId, Some(p.userMessage), Some(p.aiResponse), p.timestamp))
  {
    assert (p.timestamp as real).Floor == p.timestamp;
  }

  /** The whole list: every element read, or the exception of the first bad one. */
  function ReadAll(elems: seq<Json>): (r: Option<seq<StoredPair>>)
    ensures r.Some? <==> forall i :: 0 <= i < |elems| ==> ReadElement(elems[i]).Some?
    ensures r.Some? ==> |r.value| == |elems| &&
                        forall i :: 0 <= i < |elems| ==> r.value[i] == ReadElement(elems[i]).value
  {
    if elems == [] then Some([])
    else
      var init := elems[..|elems| - 1];
      assert forall i :: 0 <= i < |init| ==> init[i] == elems[i];
      match (ReadAll(init), ReadElement(elems[|elems| - 1]))
      case (Some(ps), Some(p)) => Some(ps + [p])
      case _ => None
  }

  /** The stream filter on the session id, in list order. */
  function SessionPairs(ps: seq<StoredPair>, sessionId: string): (r: seq<StoredPair>)
    ensures forall p :: p in r <==> p in ps && p.sessionId == sessionId
    ensures |r| <= |ps|
  {
    if ps == [] then []
    else SessionPairs(ps[..|ps| - 1], sessionId)
         + (if ps[|ps| - 1].sessionId == sessionId then [ps[|ps| - 1]] else [])
  }

  function Timestamp(p: StoredPair): real { p.timestamp as real }

  /** The pairs shown: the session's, newest first (a stable sort), at most `limit`. */
  function SelectRecent(ps: seq<StoredPair>, sessionId: string, limit: int): (r: seq<StoredPair>)
    ensures var n := |SessionPairs(ps, sessionId)|;
            |r| == (if limit <= 0 then 0 else if limit < n then limit else n)
    ensures forall p :: p in r ==> p in ps && p.sessionId == sessionId
  {
    var sp := SessionPairs(ps, sessionId);
    var sorted := SortDesc(sp, Timestamp);
    var r := Take(sorted, limit);
    assert forall p :: p in r ==> p in multiset(sorted);
    assert forall p :: p in multiset(sorted) ==> p in sp;
    r
  }

  /**
   * What is shown is min(limit, #session pairs) of the session's pairs, by
   * non-increasing time stamp.
   */
  lemma SelectRecentProps(ps: seq<StoredPair>, sessionId: string, limit: int)
    ensures var r := SelectRecent(ps, sessionId, limit);
            var n := |SessionPairs(ps, sessionId)|;
            |r| == (if limit <= 0 then 0 else if limit < n then limit else n) &&
            SortedDesc(r, Timestamp) &&
            forall p :: p in r ==> p in ps && p.sessionId == sessionId
  {
    var sp := SessionPairs(ps, sessionId);
    var sorted := SortDesc(sp, Timestamp);
    SortDescIsSorted(sp, Timestamp);
    TakeSorted(sorted, limit, Timestamp);
  }

  /** Pairs with the same time stamp keep their order in the file. */
  lemma SameTimestampKeepsFileOrder(ps: seq<StoredPair>, sessionId: string, v: real)
    ensures WithKey(SortDesc(SessionPairs(ps, sessionId), Timestamp), Timestamp, v)
         == WithKey(SessionPairs(ps, sessionId), Timestamp, v)
  {
    SortDescIsStable(SessionPairs(ps, sessionId), Timestamp, v);
  }

  /** `StringBuilder.append` of a String: null is written as "null". */
  function JavaText(s: Option<string>): string
  {
    if s.Some? then s.value else "null"
  }

  /** One numbered message of `getRecentMemories`. */
  function Block(number: int, p: StoredPair): (r: string)
    ensures r != ""
  {
    "【消息 " + IntToString(number) + "】\n" +
    "用户: " + JavaText(p.userMessage) + "\n" +
    "AI: " + JavaText(p.aiResponse) + "\n" +
    "时间: " + IntToString(p.timestamp) + "\n" +
    "\n"
  }

  /** The blocks of a list, numbered from 1. */
  function Blocks(ps: seq<StoredPair>): (r: string)
    ensures r == "" <==> ps == []
  {
    if ps == [] then "" else Blocks(ps[..|ps| - 1]) + Block(|ps|, ps[|ps| - 1])
  }

  lemma BlocksSnoc(ps: seq<StoredPair>, i: nat)
    requires i < |ps|
    ensures Blocks(ps[..i + 1]) == Blocks(ps[..i]) + Block(i + 1, ps[i])
  {
    assert ps[..i + 1][..i] == ps[..i];
  }

  /** Every pair shown appears as its numbered block. */
  lemma {:induction false} BlocksShowEach(ps: seq<StoredPair>, i: int)
    requires 0 <= i < |ps|
    ensures Contains(Blocks(ps), Block(i + 1, ps[i]))
  {
    var init := ps[..|ps| - 1];
    if i == |ps| - 1 {
      ContainsMiddle(Blocks(init), Block(|ps|, ps[i]), "");
      assert Blocks(init) + Block(|ps|, ps[i]) + "" == Blocks(ps);
    } else {
      BlocksShowEach(init, i);
      assert init[i] == ps[i];
      ContainsAppend(Blocks(init), Block(|ps|, ps[|ps| - 1]), Block(i + 1, ps[i]));
    }
  }

  /**
   * `getRecentMemories(sessionId, fileName, limit)`: nothing for a missing
   * or empty file; the shown pairs' blocks; the exception of a file Gson
   * cannot read as a list of pairs or of a pair the filter cannot test
   * (only an `IOException` would be caught, and none of these is one).
   */
  function RecentMemories(files: map<string, Option<Json>>, sessionId: string, fileName: string, limit: int)
    : (r: Result<string, Exception>)
    ensures fileName !in files ==> r == Success("")
    ensures fileName in files && files[fileName] == Some(JNull) ==> r == Success("")
    ensures fileName in files && (files[fileName].None? ||
              (files[fileName].Some? && !files[fileName].value.JNull? && !files[fileName].value.JArr?)) ==>
              r == Failure(OtherRuntimeException)
    ensures fileName in files && files[fileName].Some? && files[fileName].value.JArr? ==>
              var elems := files[fileName].value.elems;
              (r.Failure? <==> exists i :: 0 <= i < |elems| && ReadElement(elems[i]).None?)
  {
    if fileName !in files then Success("")
    else match files[fileName]
      case None => Failure(OtherRuntimeException)
      case Some(JNull) => Success("")
      case Some(JArr(elems)) =>
        (match ReadAll(elems)
         case None => Failure(OtherRuntimeException)
         case Some(ps) => Success(Blocks(SelectRecent(ps, sessionId, limit))))
      case Some(_) => Failure(OtherRuntimeException)
  }

  /** A readable log with a readable element appended reads as the log's pairs and that element's. */
  lemma AppendReadable(older: seq<Json>, e: Json)
    requires forall i :: 0 <= i < |older| ==> ReadElement(older[i]).Some?
    requires ReadElement(e).Some?
    ensures ReadAll(older + [e]) == Some(ReadAll(older).value + [ReadElement(e).value])
  {
    var log := older + [e];
    assert log[..|log| - 1] == older;
  }

  /** With a limit that admits the whole list, every pair of the session is shown. */
  lemma WholeSessionShown(ps: seq<StoredPair>, q: StoredPair, limit: int)
    requires q in ps && limit >= |ps|
    ensures exists k :: 1 <= k <= limit && Contains(Blocks(SelectRecent(ps, q.sessionId, limit)), Block(k, q))
  {
    var sp := SessionPairs(ps, q.sessionId);
    var sorted := SortDesc(sp, Timestamp);
    var shown := SelectRecent(ps, q.sessionId, limit);
    assert shown == sorted;
    assert q in sp;
    assert q in multiset(sorted);
    var j :| 0 <= j < |shown| && shown[j] == q;
    BlocksShowEach(shown, j);
    assert 1 <= j + 1 <= limit;
  }

  /** A file holding a readable array shows the blocks of the pairs selected from it. */
  lemma RecentOfReadable(files: map<string, Option<Json>>, sessionId: string, fileName: string, limit: int,
                         log: seq<Json>)
    requires ArrayIn(files, fileName) == Some(log) && ReadAll(log).Some?
    ensures RecentMemories(files, sessionId, fileName, limit) == Success(Blocks(SelectRecent(ReadAll(log).value, sessionId, limit)))
  {
  }

  /** A readable element appended to a readable log is shown, when the limit admits every pair of the log. */
  lemma AppendedIsShown(files: map<string, Option<Json>>, fileName: string, e: Json, limit: int)
    requires ArrayIn(files, fileName).Some? ==>
               forall i :: 0 <= i < |ArrayIn(files, fileName).value| ==> ReadElement(ArrayIn(files, fileName).value[i]).Some?
    requires ReadElement(e).Some?
    requires limit >= |(if ArrayIn(files, fileName).Some? then ArrayIn(files, fileName).value else [])| + 1
    ensures var q := ReadElement(e).value;
            var r := RecentMemories(Saved(files, fileName, e), q.sessionId, fileName, limit);
            r.Success? && exists k :: 1 <= k <= limit && Contains(r.value, Block(k, q))
  {
    var q := ReadElement(e).value;
    var older := if ArrayIn(files, fileName).Some? then ArrayIn(files, fileName).value else [];
    var log := older + [e];
    var files' := Saved(files, fileName, e);
    assert ArrayIn(files', fileName) == Some(log);
    AppendReadable(older, e);
    var ps := ReadAll(log).value;
    assert ps[|older|] == q;
    RecentOfReadable(files', q.sessionId, fileName, limit, log);
    WholeSessionShown(ps, q, limit);
  }

  /** A pair just saved to the log is among those shown, when the limit admits every pair of the log. */
  lemma SavedPairIsShown(files: map<string, Option<Json>>, fileName: string, p: MessagePair, limit: int)
    requires ArrayIn(files, fileName).Some? ==>
               forall i :: 0 <= i < |ArrayIn(files, fileName).value| ==> ReadElement(ArrayIn(files, fileName).value[i]).Some?
    requires limit >= |(if ArrayIn(files, fileName).Some? then ArrayIn(files, fileName).value else [])| + 1
    ensures var r := RecentMemories(Saved(files, fileName, EncodePair(p)), p.sessionId, fileName, limit);
            var q := StoredPair(p.sessionId, Some(p.userMessage), Some(p.aiResponse), p.timestamp);
            r.Success? && exists k :: 1 <= k <= limit && Contains(r.value, Block(k, q))
  {
    SavedPairIsRead(p);
    AppendedIsShown(files, fileName, EncodePair(p), limit);
  }

  /**
   * `getRecentMemories(sessionId, fileName, limit)`: the file is read as a
   * list, filtered and sorted, and the loop writes one block per pair.
   */
  method GetRecentMemories(disk: Disk, sessionId: string, fileName: string, limit: int)
    returns (r: Result<string, Exception>)
    ensures r == RecentMemories(disk.files, sessionId, fileName, limit)
  {
    if fileName !in disk.files {
      return Success("");
    }
    var root := disk.files[fileName];
    if root.None? {
      return Failure(OtherRuntimeException);
    }
    if root.value.JNull? {
      return Success("");
    }
    if !root.value.JArr? {
      return Failure(OtherRuntimeException);
    }
    var messages := ReadAll(root.value.elems);
    if messages.None? {
      return Failure(OtherRuntimeException);
    }
    if messages.value == [] {
      return Success("");
    }
    var sorted := SortDesc(SessionPairs(messages.value, sessionId), Timestamp);
    var result := RenderBlocks(sorted, limit);
    r := Success(result);
  }

  /** The loop of `getRecentMemories`: one numbered block for each of the first `limit` pairs. */
  method RenderBlocks(sorted: seq<StoredPair>, limit: int) returns (result: string)
    ensures result == Blocks(Take(sorted, limit))
  {
    var count := if limit <= 0 then 0 else if limit < |sorted| then limit else |sorted|;
    result := "";
    var i := 0;
    while i < count
      invariant 0 <= i <= count <= |sorted|
      invariant result == Blocks(sorted[..i])
    {
      BlocksSnoc(sorted, i);
      result := result + Block(i + 1, sorted[i]);
      i := i + 1;
    }
    assert Take(sorted, limit) == sorted[..count];
  }

  /** `getRecentMemories(sessionId, fileName)`: the limit is the configured `conversationSearchTopK`. */
  method GetRecentMemoriesDefault(disk: Disk, config: Properties.MemorySystemProperties, sessionId: string, fileName: string)
    returns (r: Result<string, Exception>)
    ensures r == RecentMemories(disk.files, sessionId, fileName, config.conversationSearchTopK)
    ensures config == Properties.Defaults() ==> r == RecentMemories(disk.files, sessionId, fileName, 3)
  {
    r := GetRecentMemories(disk, sessionId, fileName, config.conversationSearchTopK);
  }
}
