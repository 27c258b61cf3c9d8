/**
 * `MessageUpdateStage`: resolves each candidate fact against the vector
 * store. A candidate is embedded, its nearest records of the session are
 * searched, an LLM (or, when the call fails, a fixed heuristic) picks one of
 * ADD / UPDATE / DELETE / NOOP, and the pick is applied to the store.
 *
 * The embedder, the square root, Gson's text parser, the LLM's replies, the
 * generated UUIDs and the clock are inputs: `Env` carries the first three,
 * one `Oracle` per candidate the rest.
 */
module MessageUpdate {
  import opened Wrappers
  import opened Text
  import opened Json
  import opened Entities
  import opened StableSort
  import opened MemoryStore
  import opened QdrantLocal

  /** The collaborators: embedding (None when it throws), square root, JSON parsing. */
  datatype Env = Env(embed: string -> Option<seq<real>>, sqrt: real -> real, parse: JsonParser)

  /** What the outside world supplies for one candidate: the LLM's answer (None when the call throws), a fresh id and the time. */
  datatype Oracle = Oracle(reply: Option<LLMResponse>, newId: string, now: Long)

  predicate IsLabel(s: string)
  {
    s == "ADD" || s == "UPDATE" || s == "DELETE" || s == "NOOP"
  }

  // ---------------------------------------------------------------------------
  // Decision

  /**
   * `makeDecisionByFallback`: no neighbour adds; a top score above 0.85
   * updates; otherwise a confidence above 0.9, or a top score and a
   * confidence both above 0.7, add; else "NONE".
   */
  function Fallback(c: CandidateMemory, sims: seq<MemorySimilarity>): (r: string)
    ensures r == "ADD" || r == "UPDATE" || r == "NONE"
    ensures r == "UPDATE" <==> sims != [] && sims[0].similarityScore > 0.85
    ensures r == "ADD" <==> sims == [] || (sims[0].similarityScore <= 0.85 && (c.confidence > 0.9 || (sims[0].similarityScore > 0.7 && c.confidence > 0.7)))
  {
    if sims == [] then "ADD"
    else
      var maxSimilarity := sims[0].similarityScore;
      if maxSimilarity > 0.85 then "UPDATE"
      else if c.confidence > 0.9 then "ADD"
      else if maxSimilarity > 0.7 && c.confidence > 0.7 then "ADD"
      else "NONE"
  }

  /**
   * The label of an upper-cased `event` value, if it names one: ADD before
   * UPDATE before DELETE, and NOOP for a value holding NOOP or NONE but none
   * of the three.
   */
  function EventLabel(upper: string): (r: Option<string>)
    ensures r.Some? ==> IsLabel(r.value)
    ensures Contains(upper, "ADD") ==> r == Some("ADD")
    ensures !Contains(upper, "ADD") && Contains(upper, "UPDATE") ==> r == Some("UPDATE")
    ensures !Contains(upper, "ADD") && !Contains(upper, "UPDATE") && Contains(upper, "DELETE") ==> r == Some("DELETE")
    ensures !Contains(upper, "ADD") && !Contains(upper, "UPDATE") && !Contains(upper, "DELETE") ==>
              r == if Contains(upper, "NOOP") || Contains(upper, "NONE") then Some("NOOP") else None
  {
    if Contains(upper, "ADD") then Some("ADD")
    else if Contains(upper, "UPDATE") then Some("UPDATE")
    else if Contains(upper, "DELETE") then Some("DELETE")
    else if Contains(upper, "NOOP") || Contains(upper, "NONE") then Some("NOOP")
    else None
  }

  /**
   * `extractJsonPart`: from the first '{' through the last '}' when the
   * last comes after the first, else the whole text.
   */
  function ExtractJsonPart(response: string): (r: string)
    ensures var first := IndexOf(response, "{");
            var last := LastIndexOf(response, '}');
            if first != -1 && last > first
            then |r| >= 2 && r[0] == '{' && r[|r| - 1] == '}' && r == response[first..last + 1]
            else r == response
  {
    var first := IndexOf(response, "{");
    var last := LastIndexOf(response, '}');
    if first != -1 && last != -1 && last > first then
      assert response[first..first + 1] == "{";
      response[first..last + 1]
    else response
  }

  /**
   * The fields of the first element of the "memory" array, when the reply
   * mentions "memory" and '[' and its JSON part parses to an object whose
   * "memory" is a non-empty array starting with an object. None when any
   * of these fails: absent, or a cast that throws.
   */
  function FirstMemory(response: string, parse: JsonParser): (r: Option<map<string, Json>>)
    ensures r.Some? <==>
              Contains(response, "\"memory\"") && Contains(response, "[") &&
              var v := parse(ExtractJsonPart(response));
              v.Some? && v.value.JObj? && "memory" in v.value.fields && v.value.fields["memory"].JArr? &&
              |v.value.fields["memory"].elems| > 0 && v.value.fields["memory"].elems[0].JObj?
    ensures r.Some? ==> r.value == parse(ExtractJsonPart(response)).value.fields["memory"].elems[0].fields
  {
    if !(Contains(response, "\"memory\"") && Contains(response, "[")) then None
    else match parse(ExtractJsonPart(response))
      case Some(JObj(fields)) =>
        if "memory" in fields && fields["memory"].JArr? && |fields["memory"].elems| > 0
           && fields["memory"].elems[0].JObj? then
          Some(fields["memory"].elems[0].fields)
        else None
      case _ => None
  }

  /**
   * The list-format reading: the first element of the "memory" array names
   * the action in its "event" field (a missing field reads as ""). None
   * whenever this reading does not apply, throws or names no label, and
   * parsing moves on.
   */
  function ListDecision(response: string, parse: JsonParser): (r: Option<string>)
    ensures r.Some? ==> IsLabel(r.value)
    ensures FirstMemory(response, parse).None? ==> r.None?
    ensures FirstMemory(response, parse).Some? ==>
              var first := FirstMemory(response, parse).value;
              r == if "event" !in first then None
                   else if GsonString(first["event"]).None? then None
                   else EventLabel(ToUpper(GsonString(first["event"]).value))
  {
    match FirstMemory(response, parse)
    case None => None
    case Some(first) =>
      var event := if "event" in first then GsonString(first["event"]) else Some("");
      if event.Some? then EventLabel(ToUpper(event.value)) else None
  }

  /** The plain keyword scan, with precedence ADD > UPDATE > DELETE > NOOP and NOOP by default. */
  function KeywordScan(upper: string): (r: string)
    ensures IsLabel(r)
    ensures Contains(upper, "ADD") ==> r == "ADD"
    ensures !Contains(upper, "ADD") && Contains(upper, "UPDATE") ==> r == "UPDATE"
    ensures !Contains(upper, "ADD") && !Contains(upper, "UPDATE") && Contains(upper, "DELETE") ==> r == "DELETE"
    ensures !Contains(upper, "ADD") && !Contains(upper, "UPDATE") && !Contains(upper, "DELETE") ==> r == "NOOP"
  {
    if Contains(upper, "ADD") then "ADD"
    else if Contains(upper, "UPDATE") then "UPDATE"
    else if Contains(upper, "DELETE") then "DELETE"
    else "NOOP"
  }

  /** The text reading: the "ACTION" branch first, then the keyword scan. */
  function TextDecision(upper: string): (r: string)
    ensures IsLabel(r)
  {
    if Contains(upper, "\"ACTION\"") || Contains(upper, "ACTION") then
      if Contains(upper, "ADD") then "ADD"
      else if Contains(upper, "UPDATE") then "UPDATE"
      else if Contains(upper, "DELETE") then "DELETE"
      else if Contains(upper, "NOOP") then "NOOP"
      else KeywordScan(upper)
    else KeywordScan(upper)
  }

  /**
   * `parseLLMDecision`: the list reading when it yields a label, else the
   * text reading of the upper-cased reply; a null reply (which throws
   * inside) gives NOOP.
   */
  function ParseLLMDecision(response: Option<string>, parse: JsonParser): (r: string)
    ensures IsLabel(r)
    ensures response.None? ==> r == "NOOP"
    ensures response.Some? && ListDecision(response.value, parse).Some? ==> r == ListDecision(response.value, parse).value
    ensures response.Some? && ListDecision(response.value, parse).None? ==> r == TextDecision(ToUpper(response.value))
  {
    if response.None? then "NOOP"
    else
      var listed := ListDecision(response.value, parse);
      if listed.Some? then listed.value
      else TextDecision(ToUpper(response.value))
  }

  /** The "ACTION" branch always yields what the plain keyword scan yields. */
  lemma ActionBranchIsKeywordScan(upper: string)
    ensures TextDecision(upper) == KeywordScan(upper)
  {
  }

  /** Text that names no action, in neither reading, is read as NOOP. */
  lemma UnrecognisedIsNoop(response: string, parse: JsonParser)
    requires ListDecision(response, parse).None?
    requires var u := ToUpper(response); !Contains(u, "ADD") && !Contains(u, "UPDATE") && !Contains(u, "DELETE")
    ensures ParseLLMDecision(Some(response), parse) == "NOOP"
  {
  }

  /**
   * The action and the token usage of one decision: the LLM's when its
   * call and the usage read succeed, else the fallback's with zero usage.
   */
  function Decide(reply: Option<LLMResponse>, c: CandidateMemory, sims: seq<MemorySimilarity>, parse: JsonParser)
    : (r: (string, TokenUsage))
    ensures IsLabel(r.0) || r.0 == "NONE"
    ensures reply.None? ==> r == (Fallback(c, sims), ZeroUsage)
    ensures reply.Some? && reply.value.tokenUsage.None? ==> r == (Fallback(c, sims), ZeroUsage)
    ensures reply.Some? && reply.value.tokenUsage.Some? ==>
              r == (ParseLLMDecision(reply.value.content, parse), reply.value.tokenUsage.value)
  {
    if reply.None? || reply.value.tokenUsage.None? then (Fallback(c, sims), ZeroUsage)
    else (ParseLLMDecision(reply.value.content, parse), reply.value.tokenUsage.value)
  }

  // ---------------------------------------------------------------------------
  // Actions on the store

  /** The turn recorded with an automatically added fact. */
  function AutoPair(sessionId: string, c: CandidateMemory, now: Long): (r: MessagePair)
    ensures r.sessionId == sessionId && r.timestamp == now && r.aiResponse == "Added to memory"
    ensures StartsWith(r.userMessage, "Auto: ") && EndsWith(r.userMessage, c.fact)
    ensures |r.userMessage| == |c.fact| + 6
  {
    ConcatAffixes("Auto: ", c.fact);
    MessagePair(sessionId, "Auto: " + c.fact, "Added to memory", now)
  }

  /**
   * `executeAction`: ADD upserts; UPDATE rewrites the first neighbour with a
   * re-embedding of fact and category (ADD when there is no neighbour, no
   * change when the embedding throws); DELETE removes the first neighbour;
   * anything else, "NOOP" and the fallback's "NONE" among them, changes nothing.
   */
  function ApplyAction(st: Store, sessionId: string, action: string, c: CandidateMemory, embedding: seq<real>,
                       sims: seq<MemorySimilarity>, o: Oracle, env: Env): (r: Store)
    requires Valid(st)
    ensures Valid(r)
    ensures action == "ADD" || (action == "UPDATE" && sims == []) ==>
              r == Upsert(st, o.newId, sessionId, Some(AutoPair(sessionId, c, o.now)), embedding, c)
    ensures action == "UPDATE" && sims != [] && env.embed(c.fact + " " + c.category).None? ==> r == st
    ensures action == "UPDATE" && sims != [] && env.embed(c.fact + " " + c.category).Some? ==>
              r == Update(st, sessionId, sims[0].memoryId, env.embed(c.fact + " " + c.category).value, c)
    ensures action == "DELETE" && sims == [] ==> r == st
    ensures action == "DELETE" && sims != [] ==> r == Delete(st, sims[0].memoryId)
    ensures action != "ADD" && action != "UPDATE" && action != "DELETE" ==> r == st
  {
    var add := Upsert(st, o.newId, sessionId, Some(AutoPair(sessionId, c, o.now)), embedding, c);
    PutValid(st, o.newId, MemoryEntry(o.newId, sessionId, Some(AutoPair(sessionId, c, o.now)), embedding, c));
    if action == "ADD" then add
    else if action == "UPDATE" then
      if sims == [] then add
      else match env.embed(c.fact + " " + c.category)
        case None => st
        case Some(e) =>
          if sims[0].memoryId in st.entries then
            PutValid(st, sims[0].memoryId, MemoryEntry(sims[0].memoryId, sessionId, st.entries[sims[0].memoryId].messagePair, e, c));
            Update(st, sessionId, sims[0].memoryId, e, c)
          else Update(st, sessionId, sims[0].memoryId, e, c)
    else if action == "DELETE" then
      if sims == [] then st else DeleteValid(st, sims[0].memoryId); Delete(st, sims[0].memoryId)
    else st
  }

  /** Building the decision prompt reads every neighbour's turn, and throws on a null one. */
  predicate PromptThrows(sims: seq<MemorySimilarity>)
    ensures PromptThrows(sims) <==> exists i :: 0 <= i < |sims| && sims[i].messagePair.None?
    ensures sims == [] ==> !PromptThrows(sims)
  {
    exists m :: m in sims && m.messagePair.None?
  }

  /** The store after one candidate and the usage returned; None when `processCandidate` throws. */
  datatype Processed = Processed(store: Store, usage: Option<TokenUsage>)

  /** `processCandidate` on a store value. */
  function ProcessSpec(st: Store, sessionId: string, c: CandidateMemory, o: Oracle, env: Env, topK: int): (r: Processed)
    requires Valid(st)
    ensures Valid(r.store)
    ensures r.usage.None? ==> r.store == st
  {
    match env.embed(c.fact)
    case None => Processed(st, None)
    case Some(q) =>
      var sims := SearchWithScore(st, sessionId, q, topK, env.sqrt);
      if PromptThrows(sims) then Processed(st, None)
      else
        var d := Decide(o.reply, c, sims, env.parse);
        Processed(ApplyAction(st, sessionId, d.0, c, q, sims, o, env), Some(d.1))
  }

  /** `makeDecisionAndAction` on a store value: the candidates in list order, each failure swallowed. */
  function ResolveAll(st: Store, sessionId: string, cs: seq<CandidateMemory>, os: seq<Oracle>, env: Env, topK: int)
    : (r: Store)
    requires Valid(st) && |cs| == |os|
    ensures Valid(r)
  {
    if cs == [] then st
    else
      var prev := ResolveAll(st, sessionId, cs[..|cs| - 1], os[..|os| - 1], env, topK);
      ProcessSpec(prev, sessionId, cs[|cs| - 1], os[|os| - 1], env, topK).store
  }

  // ---------------------------------------------------------------------------
  // Properties

  /** The fallback's "NONE" matches no action and leaves the store as it was. */
  lemma NoneChangesNothing(st: Store, sessionId: string, c: CandidateMemory, embedding: seq<real>,
                           sims: seq<MemorySimilarity>, o: Oracle, env: Env)
    requires Valid(st)
    ensures ApplyAction(st, sessionId, "NONE", c, embedding, sims, o, env) == st
    ensures ApplyAction(st, sessionId, "NOOP", c, embedding, sims, o, env) == st
  {
  }

  /** A candidate whose embedding throws is skipped: the store is as before. */
  lemma EmbedFailureSkipsCandidate(st: Store, sessionId: string, c: CandidateMemory, o: Oracle, env: Env, topK: int)
    requires Valid(st) && env.embed(c.fact).None?
    ensures ProcessSpec(st, sessionId, c, o, env, topK) == Processed(st, None)
  {
  }

  /** A neighbour without a turn makes the prompt throw: the candidate is skipped and the store is as before. */
  lemma NullTurnSkipsCandidate(st: Store, sessionId: string, c: CandidateMemory, o: Oracle, env: Env, topK: int)
    requires Valid(st) && env.embed(c.fact).Some?
    requires PromptThrows(SearchWithScore(st, sessionId, env.embed(c.fact).value, topK, env.sqrt))
    ensures ProcessSpec(st, sessionId, c, o, env, topK) == Processed(st, None)
  {
  }

  lemma SplitLast<T>(a: seq<T>, b: seq<T>)
    requires b != []
    ensures a + b == (a + b[..|b| - 1]) + [b[|b| - 1]]
    ensures b == b[..|b| - 1] + [b[|b| - 1]]
  {
  }

  /** Resolving one more candidate is one more step from the store the others left. */
  lemma ResolveAllSnoc(st: Store, sessionId: string, cs: seq<CandidateMemory>, os: seq<Oracle>,
                       c: CandidateMemory, o: Oracle, env: Env, topK: int)
    requires Valid(st) && |cs| == |os|
    ensures ResolveAll(st, sessionId, cs + [c], os + [o], env, topK)
         == ProcessSpec(ResolveAll(st, sessionId, cs, os, env, topK), sessionId, c, o, env, topK).store
  {
    assert (cs + [c])[..|cs|] == cs && (os + [o])[..|os|] == os;
  }

  /**
   * Batches compose: resolving a list is resolving its first part, then
   * the rest from the store that part left behind.
   */
  lemma {:induction false} ResolveAllAppend(st: Store, sessionId: string, cs1: seq<CandidateMemory>, os1: seq<Oracle>,
                                            cs2: seq<CandidateMemory>, os2: seq<Oracle>, env: Env, topK: int)
    requires Valid(st) && |cs1| == |os1| && |cs2| == |os2|
    ensures ResolveAll(st, sessionId, cs1 + cs2, os1 + os2, env, topK)
         == ResolveAll(ResolveAll(st, sessionId, cs1, os1, env, topK), sessionId, cs2, os2, env, topK)
  {
    if cs2 == [] {
      assert cs1 + cs2 == cs1 && os1 + os2 == os1;
    } else {
      var n := |cs2|;
      var cs, os, c, o := cs2[..n - 1], os2[..n - 1], cs2[n - 1], os2[n - 1];
      var mid := ResolveAll(st, sessionId, cs1, os1, env, topK);
      ResolveAllAppend(st, sessionId, cs1, os1, cs, os, env, topK);
      SplitLast(cs1, cs2);
      SplitLast(os1, os2);
      ResolveAllSnoc(st, sessionId, cs1 + cs, os1 + os, c, o, env, topK);
      ResolveAllSnoc(mid, sessionId, cs, os, c, o, env, topK);
    }
  }

  /** A candidate that fails in the middle of a batch does not stop the ones after it. */
  lemma FailureIsIsolated(st: Store, sessionId: string, cs1: seq<CandidateMemory>, os1: seq<Oracle>,
                          c: CandidateMemory, o: Oracle, cs2: seq<CandidateMemory>, os2: seq<Oracle>, env: Env, topK: int)
    requires Valid(st) && |cs1| == |os1| && |cs2| == |os2|
    requires env.embed(c.fact).None?
    ensures ResolveAll(st, sessionId, cs1 + [c] + cs2, os1 + [o] + os2, env, topK)
         == ResolveAll(st, sessionId, cs1 + cs2, os1 + os2, env, topK)
  {
    ResolveAllAppend(st, sessionId, cs1 + [c], os1 + [o], cs2, os2, env, topK);
    ResolveAllAppend(st, sessionId, cs1, os1, cs2, os2, env, topK);
    var mid := ResolveAll(st, sessionId, cs1, os1, env, topK);
    assert (cs1 + [c])[..|cs1|] == cs1 && (os1 + [o])[..|os1|] == os1;
    assert ResolveAll(st, sessionId, cs1 + [c], os1 + [o], env, topK) == ProcessSpec(mid, sessionId, c, o, env, topK).store;
  }

  /**
   * UPDATE and DELETE act on the first neighbour, which has the highest
   * score of all the neighbours the search returned.
   */
  lemma FirstNeighbourIsBest(st: Store, sessionId: string, query: seq<real>, topK: int, sqrt: real -> real)
    requires Valid(st) && topK >= 0
    ensures var sims := SearchWithScore(st, sessionId, query, topK, sqrt);
            forall i :: 0 <= i < |sims| ==> sims[i].similarityScore <= sims[0].similarityScore
  {
    SearchSizeAndOrder(st, sessionId, query, topK, sqrt);
  }

  /**
   * When the LLM call throws for a candidate of a session with no records,
   * the fallback adds it: exactly one record, appended, holding the fact,
   * the embedding and the automatic turn.
   */
  lemma FirstFactOfSessionIsAdded(st: Store, sessionId: string, c: CandidateMemory, o: Oracle, env: Env, topK: int)
    requires Valid(st) && o.newId !in st.entries
    requires forall k :: k in st.entries ==> st.entries[k].sessionId != sessionId
    requires env.embed(c.fact).Some? && o.reply.None?
    ensures var r := ProcessSpec(st, sessionId, c, o, env, topK);
            r.usage == Some(ZeroUsage) &&
            Values(r.store) == Values(st) + [MemoryEntry(o.newId, sessionId, Some(AutoPair(sessionId, c, o.now)), env.embed(c.fact).value, c)]
  {
    var q := env.embed(c.fact).value;
    var pair := Some(AutoPair(sessionId, c, o.now));
    assert ProcessSpec(st, sessionId, c, o, env, topK) == Processed(Upsert(st, o.newId, sessionId, pair, q, c), Some(ZeroUsage)) by {
      SearchEmptySession(st, sessionId, q, topK, env.sqrt);
      assert !PromptThrows([]);
      assert Decide(o.reply, c, [], env.parse) == ("ADD", ZeroUsage);
    }
    UpsertFresh(st, o.newId, sessionId, pair, q, c);
  }

  /**
   * An UPDATE rewrites the first neighbour in place: same id, same position,
   * same original turn, with the new fact and re-embedding; every other
   * record is unchanged.
   */
  lemma UpdateRewritesFirstNeighbour(st: Store, sessionId: string, c: CandidateMemory, query: seq<real>,
                                     o: Oracle, env: Env, topK: int)
    requires Valid(st)
    requires var sims := SearchWithScore(st, sessionId, query, topK, env.sqrt);
             sims != [] && env.embed(c.fact + " " + c.category).Some?
    ensures var sims := SearchWithScore(st, sessionId, query, topK, env.sqrt);
            var e := env.embed(c.fact + " " + c.category).value;
            var r := Values(ApplyAction(st, sessionId, "UPDATE", c, query, sims, o, env));
            |r| == |Values(st)| &&
            forall i :: 0 <= i < |r| ==>
              r[i] == if Values(st)[i].id == sims[0].memoryId
                      then Values(st)[i].(sessionId := sessionId, embedding := e, candidateMemory := c)
                      else Values(st)[i]
  {
    var sims := SearchWithScore(st, sessionId, query, topK, env.sqrt);
    var e := env.embed(c.fact + " " + c.category).value;
    assert sims[0].memoryId in st.entries by {
      SearchStaysInSession(st, sessionId, query, topK, env.sqrt);
      assert sims[0] in sims;
    }
    assert ApplyAction(st, sessionId, "UPDATE", c, query, sims, o, env) == Update(st, sessionId, sims[0].memoryId, e, c);
    UpdatePresent(st, sessionId, sims[0].memoryId, e, c);
  }

  /**
   * A DELETE removes exactly the first neighbour's record and keeps the
   * order of all the others; the store shrinks by one.
   */
  lemma DeleteRemovesFirstNeighbour(st: Store, sessionId: string, c: CandidateMemory, query: seq<real>,
                                    o: Oracle, env: Env, topK: int)
    requires Valid(st)
    requires SearchWithScore(st, sessionId, query, topK, env.sqrt) != []
    ensures var sims := SearchWithScore(st, sessionId, query, topK, env.sqrt);
            var r := Values(ApplyAction(st, sessionId, "DELETE", c, query, sims, o, env));
            r == WithoutId(Values(st), sims[0].memoryId) && |r| == |Values(st)| - 1
  {
    var sims := SearchWithScore(st, sessionId, query, topK, env.sqrt);
    assert sims[0].memoryId in st.entries by {
      SearchStaysInSession(st, sessionId, query, topK, env.sqrt);
      assert sims[0] in sims;
    }
    assert ApplyAction(st, sessionId, "DELETE", c, query, sims, o, env) == Delete(st, sims[0].memoryId);
    DeletePresent(st, sims[0].memoryId);
  }

  /** A DELETE with no neighbour to act on leaves the store as it was. */
  lemma DeleteWithoutNeighboursIsNoop(st: Store, sessionId: string, c: CandidateMemory, query: seq<real>,
                                      o: Oracle, env: Env, topK: int)
    requires Valid(st)
    requires SearchWithScore(st, sessionId, query, topK, env.sqrt) == []
    ensures ApplyAction(st, sessionId, "DELETE", c, query, [], o, env) == st
  {
  }

  /**
   * An UPDATE with no neighbour falls back to an ADD: under a fresh id the
   * fact is appended with its automatic turn, everything else unchanged.
   */
  lemma UpdateWithoutNeighboursIsAdd(st: Store, sessionId: string, c: CandidateMemory, query: seq<real>,
                                     o: Oracle, env: Env)
    requires Valid(st) && o.newId !in st.entries
    ensures ApplyAction(st, sessionId, "UPDATE", c, query, [], o, env)
         == ApplyAction(st, sessionId, "ADD", c, query, [], o, env)
    ensures Values(ApplyAction(st, sessionId, "UPDATE", c, query, [], o, env))
         == Values(st) + [MemoryEntry(o.newId, sessionId, Some(AutoPair(sessionId, c, o.now)), query, c)]
  {
    UpsertFresh(st, o.newId, sessionId, Some(AutoPair(sessionId, c, o.now)), query, c);
  }

  // ---------------------------------------------------------------------------
  // The stage object

  class MessageUpdateStage {
    const vectorDb: QdrantLocalClient
    const updateSearchTopK: int

    constructor(db: QdrantLocalClient, topK: int)
      ensures vectorDb == db && updateSearchTopK == topK
    {
      vectorDb := db;
      updateSearchTopK := topK;
    }

    /** `handleAdd`: one new record with the automatic turn. */
    method HandleAdd(sessionId: string, c: CandidateMemory, embedding: seq<real>, o: Oracle)
      requires vectorDb.Valid()
      modifies vectorDb
      ensures vectorDb.Valid()
      ensures vectorDb.State() == Upsert(old(vectorDb.State()), o.newId, sessionId, Some(AutoPair(sessionId, c, o.now)), embedding, c)
    {
      var pair := MessagePair(sessionId, "Auto: " + c.fact, "Added to memory", o.now);
      vectorDb.UpsertMemory(o.newId, sessionId, Some(pair), embedding, c);
    }

    /** `executeAction` with the three `handle*` methods it dispatches to. */
    method ExecuteAction(sessionId: string, action: string, c: CandidateMemory, embedding: seq<real>,
                         sims: seq<MemorySimilarity>, o: Oracle, env: Env)
      requires vectorDb.Valid()
      modifies vectorDb
      ensures vectorDb.Valid()
      ensures vectorDb.State() == ApplyAction(old(vectorDb.State()), sessionId, action, c, embedding, sims, o, env)
    {
      if action == "ADD" {
        HandleAdd(sessionId, c, embedding, o);
      } else if action == "UPDATE" {
        if sims == [] {
          HandleAdd(sessionId, c, embedding, o);
        } else {
          var newEmbedding := env.embed(c.fact + " " + c.category);
          if newEmbedding.Some? {
            vectorDb.UpdateMemory(sessionId, sims[0].memoryId, newEmbedding.value, c);
          }
        }
      } else if action == "DELETE" {
        if sims != [] {
          vectorDb.DeleteMemory(sims[0].memoryId);
        }
      }
    }

    /** `processCandidate`: returns the decision's token usage, or None where it throws. */
    method ProcessCandidate(sessionId: string, c: CandidateMemory, o: Oracle, env: Env) returns (usage: Option<TokenUsage>)
      requires vectorDb.Valid()
      modifies vectorDb
      ensures vectorDb.Valid()
      ensures Processed(vectorDb.State(), usage)
           == ProcessSpec(old(vectorDb.State()), sessionId, c, o, env, updateSearchTopK)
    {
      var candidateEmbedding := env.embed(c.fact);
      if candidateEmbedding.None? {
        return None;
      }
      var sims := vectorDb.SearchSimilarMemoriesWithScore(sessionId, candidateEmbedding.value, updateSearchTopK, env.sqrt);
      if PromptThrows(sims) {
        return None;
      }
      var decision := Decide(o.reply, c, sims, env.parse);
      ExecuteAction(sessionId, decision.0, c, candidateEmbedding.value, sims, o, env);
      usage := Some(decision.1);
    }

    /**
     * `makeDecisionAndAction`: every candidate in order, a throwing one
     * skipped; a null or empty list does nothing.
     */
    method MakeDecisionAndAction(sessionId: string, candidates: Option<seq<CandidateMemory>>, oracles: seq<Oracle>, env: Env)
      requires vectorDb.Valid()
      requires candidates.Some? ==> |candidates.value| == |oracles|
      modifies vectorDb
      ensures vectorDb.Valid()
      ensures candidates.None? ==> vectorDb.State() == old(vectorDb.State())
      ensures candidates.Some? ==>
        vectorDb.State() == ResolveAll(old(vectorDb.State()), sessionId, candidates.value, oracles, env, updateSearchTopK)
    {
      if candidates.None? || candidates.value == [] {
        return;
      }
      var cs := candidates.value;
      ghost var st0 := vectorDb.State();
      var idx := 0;
      while idx < |cs|
        invariant 0 <= idx <= |cs|
        invariant vectorDb.Valid()
        invariant vectorDb.State() == ResolveAll(st0, sessionId, cs[..idx], oracles[..idx], env, updateSearchTopK)
      {
        ghost var before := vectorDb.State();
        var _ := ProcessCandidate(sessionId, cs[idx], oracles[idx], env);
        assert cs[..idx + 1][..idx] == cs[..idx];
        assert oracles[..idx + 1][..idx] == oracles[..idx];
        assert ResolveAll(st0, sessionId, cs[..idx + 1], oracles[..idx + 1], env, updateSearchTopK)
            == ProcessSpec(before, sessionId, cs[idx], oracles[idx], env, updateSearchTopK).store;
        idx := idx + 1;
      }
      assert cs[..|cs|] == cs && oracles[..|cs|] == oracles;
    }
  }
}
