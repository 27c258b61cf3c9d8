# Memory system core, in Dafny

This project models the bookkeeping at the heart of the Java "memory system"
(a Spring Boot starter that gives an LLM chat a long-term memory). The
network calls around it are not part of the model. The model covers:

- **The vector memory store** (`QdrantLocalClient`). The state is an
  insertion-ordered map from id to memory entry. The model has upsert,
  update, delete, the three lookups and the two session-scoped similarity
  searches, which filter, score, stably sort by descending score and cut to
  top-K.
- **Candidate resolution** (`MessageUpdateStage`). Each extracted fact is
  embedded and searched. An LLM picks ADD, UPDATE, DELETE or NOOP, or a fixed
  heuristic decides when the call fails. The pick is then applied to the
  store. A batch handles candidates in order and swallows each candidate's
  failure.
- **The fact-extraction reply reader** (`LLMClient`). It strips a Markdown
  fence, then runs a chain of four parse attempts. It normalises each
  memory object and recovers truncated replies with a brace-counting
  scanner.
- **The short-term window** (`ShortTermMemoryServiceImpl`). Each session
  keeps a bounded first-in first-out list of its latest turns. The list is
  filled lazily from the message log and rendered as prompt context.
- **The append-only JSON logs** (`CommonFileRepository`) and their readers:
  the global summary service (`GlobalSummaryServiceImpl`) and the
  recent-turns retriever (`MemoryRetrieverServiceImpl`).
- **The small helpers**: message cleaning and language guessing
  (`MessageProcessServiceImpl`); prompt-section assembly
  (`ConversationEnhancerServiceImpl` and the helpers of
  `ConversationServiceImpl`); the token-usage accumulator
  (`TokenUsageSummaryVO`); the configuration defaults and paths
  (`MemorySystemProperties`).

The model follows the code's own form. Classes whose fields the Java code
updates in place are classes here:

- the store client;
- the resolution stage;
- a session's window and the short-term service;
- the global summary service;
- the token summary;
- the disk that holds the log files.

Their methods are proved against specification functions on values. The
pure helpers are functions, and the Java loops are `while` loops with
invariants.

Collaborators whose behaviour lies outside the core are parameters:

- the JSON text parsers of Gson and org.json (`string -> Option<Json>`);
- the embedder (None when it throws);
- the square root;
- the LLM replies (None when the call throws);
- generated UUIDs and clock readings;
- the `%.2f` formatter;
- the answer-prompt template.

A file on the `Disk` is absent (missing), None (text that does not parse) or
a JSON value (`JNull` for an empty file).

Where the code and its comments disagree, the model follows the code:

- `makeDecisionByFallback` is documented with a 0.8 update threshold, but
  compares against 0.85, and 0.85 is modelled.
- The fallback's "NONE" label has no case in `executeAction`, so it changes
  nothing, as the code does.

## Model

| member | source | states |
|---|---|---|
| QdrantLocal.QdrantLocalClient.constructor | memory-system-spring-boot-starter/src/main/java/com/memosystem/adapter/storage/QdrantLocalClient.java:34 | The client starts with an empty store whose insertion order and map agree. |
| QdrantLocal.QdrantLocalClient.UpsertMemory | memory-system-spring-boot-starter/src/main/java/com/memosystem/adapter/storage/QdrantLocalClient.java:72-85 | The new store is `Upsert` of the old one: `put` under the new id. A fresh id goes to the end of the insertion order; a colliding id is replaced in place. See `MemoryStore.UpsertFresh` and `MemoryStore.UpsertCollision`. |
| QdrantLocal.QdrantLocalClient.UpdateMemory | memory-system-spring-boot-starter/src/main/java/com/memosystem/adapter/storage/QdrantLocalClient.java:90-109 | The new store is `Update` of the old one. A present id gets the new session, embedding and candidate and keeps its turn and position. An absent id changes nothing. |
| QdrantLocal.QdrantLocalClient.DeleteMemory | memory-system-spring-boot-starter/src/main/java/com/memosystem/adapter/storage/QdrantLocalClient.java:119-125 | The new store is `Delete` of the old one: the id leaves both the map and the insertion order. |
| QdrantLocal.QdrantLocalClient.GetAllMemories | memory-system-spring-boot-starter/src/main/java/com/memosystem/adapter/storage/QdrantLocalClient.java:135-142 | The stored entries in insertion order. An entry is returned exactly when it is stored under its own id. |
| QdrantLocal.QdrantLocalClient.GetMemoryById | memory-system-spring-boot-starter/src/main/java/com/memosystem/adapter/storage/QdrantLocalClient.java:148-155 | Present exactly when the id is stored. The entry returned carries that id and is one of the stored entries. |
| QdrantLocal.QdrantLocalClient.GetMemoryCount | memory-system-spring-boot-starter/src/main/java/com/memosystem/adapter/storage/QdrantLocalClient.java:302-309 | The number of stored entries, which equals the length of the listing. |
| QdrantLocal.QdrantLocalClient.CosineSimilarity | memory-system-spring-boot-starter/src/main/java/com/memosystem/adapter/storage/QdrantLocalClient.java:245-270 | The loop computes `MemoryStore.CosineSpec`: 0 for vectors of different lengths or a zero norm, else the dot product over the product of the norms. |
| QdrantLocal.QdrantLocalClient.FilterSession | memory-system-spring-boot-starter/src/main/java/com/memosystem/adapter/storage/QdrantLocalClient.java:167-169 | The session's entries in insertion order (`MemoryStore.SessionEntries`). |
| QdrantLocal.QdrantLocalClient.ScoreAll | memory-system-spring-boot-starter/src/main/java/com/memosystem/adapter/storage/QdrantLocalClient.java:176-184 | One similarity per entry, in the same order, scored against the query. |
| QdrantLocal.QdrantLocalClient.ScoreSession | memory-system-spring-boot-starter/src/main/java/com/memosystem/adapter/storage/QdrantLocalClient.java:167-184 | The number of the session's entries and their scored similarities, in insertion order. |
| QdrantLocal.QdrantLocalClient.SearchSimilarMemories | memory-system-spring-boot-starter/src/main/java/com/memosystem/adapter/storage/QdrantLocalClient.java:162-195 | Equals `MemoryStore.SearchSimilar`. An empty session gives []. A negative top-K on a non-empty session throws (`limit`), shown as None. |
| QdrantLocal.QdrantLocalClient.SearchSimilarMemoriesWithScore | memory-system-spring-boot-starter/src/main/java/com/memosystem/adapter/storage/QdrantLocalClient.java:201-240 | Equals `MemoryStore.SearchWithScore`: the session's hits, stably sorted by descending score, cut to `min(topK, size)`. |
| QdrantLocal.QdrantLocalClient.CopyFirst | memory-system-spring-boot-starter/src/main/java/com/memosystem/adapter/storage/QdrantLocalClient.java:229-233 | The copy loop yields the first `min(topK, size)` sorted hits in order, and nothing for `topK <= 0`. |
| MemoryStore.Values | memory-system-spring-boot-starter/src/main/java/com/memosystem/adapter/storage/QdrantLocalClient.java:135-142 | The listing has one entry per stored id, in insertion order, and each entry carries its own id. |
| MemoryStore.Upsert | memory-system-spring-boot-starter/src/main/java/com/memosystem/adapter/storage/QdrantLocalClient.java:72-85 | `put`: the new id maps to the new entry, the keys grow by that id only, every other entry is unchanged, and the old insertion order is a prefix of the new one. |
| MemoryStore.UpsertFresh | memory-system-spring-boot-starter/src/main/java/com/memosystem/adapter/storage/QdrantLocalClient.java:72-85 | Upserting a fresh id keeps the store valid. The listing becomes the old listing plus the new entry at the end, so the count grows by one and nothing else changes. |
| MemoryStore.UpsertCollision | memory-system-spring-boot-starter/src/main/java/com/memosystem/adapter/storage/QdrantLocalClient.java:72-85 | Upserting an id that is already stored keeps the store valid and the length unchanged. Only that id's entry is replaced, and it stays in place. |
| MemoryStore.Update | memory-system-spring-boot-starter/src/main/java/com/memosystem/adapter/storage/QdrantLocalClient.java:90-109 | An absent id leaves the store unchanged. A present id gets the new session, embedding and candidate and keeps its turn; keys, order and every other entry are unchanged. |
| MemoryStore.UpdatePresent | memory-system-spring-boot-starter/src/main/java/com/memosystem/adapter/storage/QdrantLocalClient.java:94-106 | Updating a stored id keeps the store valid and the length unchanged. Only that entry changes: it gets the new session, embedding and candidate, and keeps its id, turn and position. |
| MemoryStore.UpdateAbsent | memory-system-spring-boot-starter/src/main/java/com/memosystem/adapter/storage/QdrantLocalClient.java:107-109 | Updating an id that is not stored leaves the store unchanged. |
| MemoryStore.Delete | memory-system-spring-boot-starter/src/main/java/com/memosystem/adapter/storage/QdrantLocalClient.java:119-125 | The id leaves the keys, every other entry is unchanged, and a present id leaves the insertion order while every other id stays in it. |
| MemoryStore.DeleteValid | memory-system-spring-boot-starter/src/main/java/com/memosystem/adapter/storage/QdrantLocalClient.java:119-125 | Deleting any id keeps the insertion order and the map in agreement. |
| MemoryStore.DeletePresent | memory-system-spring-boot-starter/src/main/java/com/memosystem/adapter/storage/QdrantLocalClient.java:119-125 | Deleting a stored id drops exactly that entry from the listing, keeps the others in order, and shortens the listing by one. |
| MemoryStore.DeleteShrinks | memory-system-spring-boot-starter/src/main/java/com/memosystem/adapter/storage/QdrantLocalClient.java:119-125 | Deleting a stored id shrinks the map by exactly one. |
| MemoryStore.DeleteKeepsOthers | memory-system-spring-boot-starter/src/main/java/com/memosystem/adapter/storage/QdrantLocalClient.java:119-125 | After a delete, an entry is listed exactly when it was listed before and has a different id. |
| MemoryStore.DeleteAbsent | memory-system-spring-boot-starter/src/main/java/com/memosystem/adapter/storage/QdrantLocalClient.java:119-125 | Deleting an id that is not stored changes nothing. |
| MemoryStore.CosineSpec | memory-system-spring-boot-starter/src/main/java/com/memosystem/adapter/storage/QdrantLocalClient.java:245-270 | 0 for vectors of different lengths or when either norm is 0; otherwise the score times the product of the norms is the dot product. |
| MemoryStore.ZeroVectorScoresZero | memory-system-spring-boot-starter/src/main/java/com/memosystem/adapter/storage/QdrantLocalClient.java:262-267 | A zero vector scores 0 against any vector, on either side, given only that the square root of 0 is 0. |
| MemoryStore.SessionEntries | memory-system-spring-boot-starter/src/main/java/com/memosystem/adapter/storage/QdrantLocalClient.java:167-169 | An entry is kept exactly when it is in the input and belongs to the session. |
| MemoryStore.Scored | memory-system-spring-boot-starter/src/main/java/com/memosystem/adapter/storage/QdrantLocalClient.java:176-184 | One similarity per entry, in order, each built from that entry and its cosine score. |
| MemoryStore.SearchSimilar | memory-system-spring-boot-starter/src/main/java/com/memosystem/adapter/storage/QdrantLocalClient.java:162-195 | `limit` throws (no result) exactly when the session has entries and top-K is negative; otherwise at most #session entries hits, and at most top-K for top-K >= 0. |
| MemoryStore.SearchWithScore | memory-system-spring-boot-starter/src/main/java/com/memosystem/adapter/storage/QdrantLocalClient.java:201-240 | No hits for top-K <= 0; never more hits than the session has entries, nor than top-K. |
| MemoryStore.SearchStaysInSession | memory-system-spring-boot-starter/src/main/java/com/memosystem/adapter/storage/QdrantLocalClient.java:167-184 | Every hit names a stored id of the queried session and carries that entry's candidate and turn. |
| MemoryStore.SearchSizeAndOrder | memory-system-spring-boot-starter/src/main/java/com/memosystem/adapter/storage/QdrantLocalClient.java:187-190 | A search with `topK >= 0` returns `min(topK, #session entries)` hits, sorted by non-increasing score. |
| MemoryStore.SearchTiesInInsertionOrder | memory-system-spring-boot-starter/src/main/java/com/memosystem/adapter/storage/QdrantLocalClient.java:187-188 | Hits with equal scores keep their insertion order, because the sort is stable. |
| MemoryStore.SearchesAgree | memory-system-spring-boot-starter/src/main/java/com/memosystem/adapter/storage/QdrantLocalClient.java:162-240 | For `topK >= 0` both searches return the same hits. For `topK < 0` the copy loop returns [], while the stream form throws exactly when the session has entries. |
| MemoryStore.SearchEmptySession | memory-system-spring-boot-starter/src/main/java/com/memosystem/adapter/storage/QdrantLocalClient.java:171-173 | A session with no stored entries gives [] from both searches. |
| StableSort.SortDesc | memory-system-spring-boot-starter/src/main/java/com/memosystem/adapter/storage/QdrantLocalClient.java:187-188 | A sort by key, descending, whose result is a permutation of its input. |
| StableSort.SortDescIsSorted | memory-system-spring-boot-starter/src/main/java/com/memosystem/adapter/storage/QdrantLocalClient.java:187-188 | The sorted sequence has non-increasing keys. |
| StableSort.SortDescIsStable | memory-system-spring-boot-starter/src/main/java/com/memosystem/adapter/storage/QdrantLocalClient.java:187-188 | For every key value, the elements with that key keep their input order. |
| StableSort.Take | memory-system-spring-boot-starter/src/main/java/com/memosystem/adapter/storage/QdrantLocalClient.java:189 | `limit(k)`: the first `min(k, size)` elements, and none for `k <= 0`. |
| StableSort.TakeSorted | memory-system-spring-boot-starter/src/main/java/com/memosystem/adapter/storage/QdrantLocalClient.java:187-190 | A prefix of a sorted sequence is sorted. |
| MessageUpdate.Fallback | memory-system-spring-boot-starter/src/main/java/com/memosystem/service/impl/MessageUpdateStage.java:403-433 | The checks run in order. No neighbours gives ADD. A first score above 0.85 gives UPDATE. Confidence above 0.9, or a score above 0.7 with confidence above 0.7, gives ADD. Anything else gives NONE. Both directions are stated for UPDATE and for ADD. |
| MessageUpdate.EventLabel | memory-system-spring-boot-starter/src/main/java/com/memosystem/service/impl/MessageUpdateStage.java:200-216 | An upper-cased "event" value gives ADD when it contains ADD. Otherwise it gives UPDATE when it contains UPDATE, otherwise DELETE when it contains DELETE, otherwise NOOP when it contains NOOP or NONE, and otherwise nothing. |
| MessageUpdate.FirstMemory | memory-system-spring-boot-starter/src/main/java/com/memosystem/service/impl/MessageUpdateStage.java:185-196 | The first element of "memory" is found exactly when the reply contains "memory" and '[', its JSON part parses to an object, and that object's "memory" is a non-empty array whose first element is an object. The result is that element's fields. In every other case the reading throws or stops, and nothing is found. |
| MessageUpdate.ExtractJsonPart | memory-system-spring-boot-starter/src/main/java/com/memosystem/service/impl/MessageUpdateStage.java:276-286 | When a '{' comes before the last '}', the result is the span from the first '{' to the last '}', both included. Otherwise the input comes back unchanged. |
| MessageUpdate.ListDecision | memory-system-spring-boot-starter/src/main/java/com/memosystem/service/impl/MessageUpdateStage.java:185-221 | Without a first element of "memory", the list reading gives nothing. With one, it gives `EventLabel` of the upper-cased "event" value. An "event" that is missing, or that Gson cannot read as a string, gives nothing. |
| MessageUpdate.KeywordScan | memory-system-spring-boot-starter/src/main/java/com/memosystem/service/impl/MessageUpdateStage.java:247-266 | ADD when the text contains ADD. Otherwise UPDATE when it contains UPDATE, otherwise DELETE when it contains DELETE, and otherwise NOOP. |
| MessageUpdate.TextDecision | memory-system-spring-boot-starter/src/main/java/com/memosystem/service/impl/MessageUpdateStage.java:224-266 | Always one of the four labels. |
| MessageUpdate.ParseLLMDecision | memory-system-spring-boot-starter/src/main/java/com/memosystem/service/impl/MessageUpdateStage.java:182-271 | A null reply gives NOOP. When the list reading yields a label, that label wins, even if the text names another. Otherwise the text reading of the upper-cased reply decides. The result is always one of ADD, UPDATE, DELETE or NOOP. |
| MessageUpdate.ActionBranchIsKeywordScan | memory-system-spring-boot-starter/src/main/java/com/memosystem/service/impl/MessageUpdateStage.java:226-266 | The "ACTION" branch gives the same label as the plain keyword scan. So the text reading has the keyword scan's precedence: ADD, then UPDATE, then DELETE, then NOOP. |
| MessageUpdate.UnrecognisedIsNoop | memory-system-spring-boot-starter/src/main/java/com/memosystem/service/impl/MessageUpdateStage.java:182-271 | A reply with no list decision and none of the three keywords is NOOP. |
| MessageUpdate.Decide | memory-system-spring-boot-starter/src/main/java/com/memosystem/service/impl/MessageUpdateStage.java:117-133 | No reply (the LLM call threw) gives the fallback label and zero usage. A reply without token usage gives the same, because logging its usage throws and the catch falls back. A reply with usage gives `ParseLLMDecision` of its content together with that usage. |
| MessageUpdate.AutoPair | memory-system-spring-boot-starter/src/main/java/com/memosystem/service/impl/MessageUpdateStage.java:320-327 | The automatic turn carries the session, the given clock reading and "Added to memory"; its user message is "Auto: " followed by the fact. |
| MessageUpdate.ApplyAction | memory-system-spring-boot-starter/src/main/java/com/memosystem/service/impl/MessageUpdateStage.java:291-393 | ADD upserts the fact under the fresh id with the automatic turn, and so does UPDATE when there is no neighbour. UPDATE with a neighbour rewrites the first neighbour with the re-embedding of fact and category, and leaves the store unchanged when that embedding throws. DELETE removes the first neighbour, and does nothing when there is none. Any other label (NOOP and the fallback's NONE among them) changes nothing. Every case keeps the store valid. |
| MessageUpdate.PromptThrows | memory-system-spring-boot-starter/src/main/java/com/memosystem/service/impl/MessageUpdateStage.java:145-174 | The prompt throws exactly when some neighbour has no turn, since line 165 reads every neighbour's user message; with no neighbours it never throws. |
| MessageUpdate.ProcessSpec | memory-system-spring-boot-starter/src/main/java/com/memosystem/service/impl/MessageUpdateStage.java:97-138 | Processing one candidate keeps the store valid. When the candidate fails (no embedding, or the prompt throws), the store is unchanged. |
| MessageUpdate.ResolveAll | memory-system-spring-boot-starter/src/main/java/com/memosystem/service/impl/MessageUpdateStage.java:42-61 | Resolving candidates one after another keeps the store valid. |
| MessageUpdate.NoneChangesNothing | memory-system-spring-boot-starter/src/main/java/com/memosystem/service/impl/MessageUpdateStage.java:299-314 | The fallback's NONE, and NOOP, leave the store unchanged: `executeAction` has no case for NONE. |
| MessageUpdate.EmbedFailureSkipsCandidate | memory-system-spring-boot-starter/src/main/java/com/memosystem/service/impl/MessageUpdateStage.java:97-108 | When embedding the fact throws, the candidate changes nothing and reports no usage. |
| MessageUpdate.NullTurnSkipsCandidate | memory-system-spring-boot-starter/src/main/java/com/memosystem/service/impl/MessageUpdateStage.java:97-113 | When the prompt throws, the candidate is skipped: no usage, and the store is as before. |
| MessageUpdate.ResolveAllSnoc | memory-system-spring-boot-starter/src/main/java/com/memosystem/service/impl/MessageUpdateStage.java:50-58 | The batch handles candidates in list order: the last one is processed on the store the earlier ones left. |
| MessageUpdate.ResolveAllAppend | memory-system-spring-boot-starter/src/main/java/com/memosystem/service/impl/MessageUpdateStage.java:50-58 | Resolving two lists in a row equals resolving their concatenation. |
| MessageUpdate.FailureIsIsolated | memory-system-spring-boot-starter/src/main/java/com/memosystem/service/impl/MessageUpdateStage.java:52-57 | A candidate whose embedding throws drops out of the batch, and the others are processed as if it were absent. |
| MessageUpdate.FirstNeighbourIsBest | memory-system-spring-boot-starter/src/main/java/com/memosystem/service/impl/MessageUpdateStage.java:355-386 | The first neighbour, which UPDATE and DELETE act on, has the highest score of the search. |
| MessageUpdate.FirstFactOfSessionIsAdded | memory-system-spring-boot-starter/src/main/java/com/memosystem/service/impl/MessageUpdateStage.java:320-335 | With a failed LLM call and a session with no memories, the candidate is appended under the new id. Its turn is ("Auto: " + fact, "Added to memory"), and the usage is zero. |
| MessageUpdate.UpdateRewritesFirstNeighbour | memory-system-spring-boot-starter/src/main/java/com/memosystem/service/impl/MessageUpdateStage.java:341-367 | UPDATE with at least one neighbour re-embeds fact + " " + category and rewrites only the first neighbour's entry, in place. |
| MessageUpdate.DeleteRemovesFirstNeighbour | memory-system-spring-boot-starter/src/main/java/com/memosystem/service/impl/MessageUpdateStage.java:372-386 | DELETE with neighbours removes exactly the first neighbour's entry from the listing, keeps the others in order, and shortens the listing by one. |
| MessageUpdate.DeleteWithoutNeighboursIsNoop | memory-system-spring-boot-starter/src/main/java/com/memosystem/service/impl/MessageUpdateStage.java:374-377 | DELETE with no neighbours leaves the store unchanged. |
| MessageUpdate.UpdateWithoutNeighboursIsAdd | memory-system-spring-boot-starter/src/main/java/com/memosystem/service/impl/MessageUpdateStage.java:348-352 | UPDATE with no neighbours is exactly the ADD upsert: the automatic turn is appended under the new id and nothing else changes. |
| MessageUpdate.MessageUpdateStage.constructor | memory-system-spring-boot-starter/src/main/java/com/memosystem/service/impl/MessageUpdateStage.java:21-32 | The stage holds the store client and the configured update top-K. |
| MessageUpdate.MessageUpdateStage.HandleAdd | memory-system-spring-boot-starter/src/main/java/com/memosystem/service/impl/MessageUpdateStage.java:320-335 | Upserts one entry under the new id, with the automatic turn stamped at the given clock reading. |
| MessageUpdate.MessageUpdateStage.ExecuteAction | memory-system-spring-boot-starter/src/main/java/com/memosystem/service/impl/MessageUpdateStage.java:291-315 | The new store is `ApplyAction` of the old one, so every per-action promise of `ApplyAction` and its lemmas holds of the stage. |
| MessageUpdate.MessageUpdateStage.ProcessCandidate | memory-system-spring-boot-starter/src/main/java/com/memosystem/service/impl/MessageUpdateStage.java:97-138 | The new store and the usage are those of `ProcessSpec`. |
| MessageUpdate.MessageUpdateStage.MakeDecisionAndAction | memory-system-spring-boot-starter/src/main/java/com/memosystem/service/impl/MessageUpdateStage.java:42-61 | A null list leaves the store unchanged. Otherwise the new store is `ResolveAll` over the candidates, in order. |
| LLMClient.StripMarkdownCodeBlock | memory-system-spring-boot-starter/src/main/java/com/memosystem/adapter/llm/LLMClient.java:291-316 | The result is trimmed. Text that neither starts nor ends with a fence comes back just trimmed. The fenced forms are stated by the four lemmas below. |
| LLMClient.StripFencedBlock | memory-system-spring-boot-starter/src/main/java/com/memosystem/adapter/llm/LLMClient.java:291-316 | A fenced block with a language tag on its first line gives back its trimmed body. |
| LLMClient.StripOneLineFence | memory-system-spring-boot-starter/src/main/java/com/memosystem/adapter/llm/LLMClient.java:298-315 | An opening fence with no newline after it loses its three backticks only, so "```" + body + "```" on one line gives the trimmed body. |
| LLMClient.StripClosingFenceOnly | memory-system-spring-boot-starter/src/main/java/com/memosystem/adapter/llm/LLMClient.java:310-315 | Text with only a closing fence loses the fence and is trimmed. |
| LLMClient.StripOpeningFenceOnly | memory-system-spring-boot-starter/src/main/java/com/memosystem/adapter/llm/LLMClient.java:298-315 | An opening fence line with no closing fence loses that line, and the rest is trimmed. |
| LLMClient.Clamp | memory-system-spring-boot-starter/src/main/java/com/memosystem/adapter/llm/LLMClient.java:274-278 | Below 0 gives 0, above 1 gives 1, and a value inside [0, 1] is kept. |
| LLMClient.Category | memory-system-spring-boot-starter/src/main/java/com/memosystem/adapter/llm/LLMClient.java:269-272 | A blank (or missing, or null) category gives "other"; any other category gives its trimmed text. |
| LLMClient.ParseMemoryObject | memory-system-spring-boot-starter/src/main/java/com/memosystem/adapter/llm/LLMClient.java:257-285 | A candidate exists exactly when "fact" is a non-blank string. Its fact is the trimmed text; its category is `Category` of the object (trimmed, or "other" when blank or absent); its confidence is `Clamp` of the "confidence" value, 0.8 when absent. |
| LLMClient.StringFact | memory-system-spring-boot-starter/src/main/java/com/memosystem/adapter/llm/LLMClient.java:233-236 | A non-blank string becomes (trimmed, "other", 0.7), and a blank one becomes nothing. |
| LLMClient.ExtractElem | memory-system-spring-boot-starter/src/main/java/com/memosystem/adapter/llm/LLMClient.java:225-244 | Every candidate taken from one element is valid. |
| LLMClient.Extract | memory-system-spring-boot-starter/src/main/java/com/memosystem/adapter/llm/LLMClient.java:216-252 | Every candidate taken from an array is valid. |
| LLMClient.ExtractSnoc | memory-system-spring-boot-starter/src/main/java/com/memosystem/adapter/llm/LLMClient.java:223-245 | Extraction is element by element: one more element appends its candidates at the end. |
| LLMClient.ExtractAppend | memory-system-spring-boot-starter/src/main/java/com/memosystem/adapter/llm/LLMClient.java:216-252 | Extraction keeps element order: the candidates of a concatenation are the candidates of each part, concatenated. |
| LLMClient.ExtractSingle | memory-system-spring-boot-starter/src/main/java/com/memosystem/adapter/llm/LLMClient.java:225-244 | For one element: a non-blank string gives (trimmed, "other", 0.7); a nested array is flattened; null, numbers, booleans and blank strings give nothing. |
| LLMClient.ExtractMemoriesFromArray | memory-system-spring-boot-starter/src/main/java/com/memosystem/adapter/llm/LLMClient.java:216-252 | The loop returns `Extract` of the array. |
| LLMClient.ObjectElement | memory-system-spring-boot-starter/src/main/java/com/memosystem/adapter/llm/LLMClient.java:227-232 | An object element contributes its parsed candidate, if there is one. |
| LLMClient.ObjectMemories | memory-system-spring-boot-starter/src/main/java/com/memosystem/adapter/llm/LLMClient.java:227-232 | An object element yields exactly what `ExtractElem` gives for it: its parsed candidate, or nothing. |
| LLMClient.StringMemories | memory-system-spring-boot-starter/src/main/java/com/memosystem/adapter/llm/LLMClient.java:233-237 | A string element yields `StringFact` of it: (trimmed, "other", 0.7) when non-blank, else nothing. |
| LLMClient.ExtractMemoriesFromElement | memory-system-spring-boot-starter/src/main/java/com/memosystem/adapter/llm/LLMClient.java:225-244 | The loop body returns `ExtractElem` of the element. |
| LLMClient.Recovered | memory-system-spring-boot-starter/src/main/java/com/memosystem/adapter/llm/LLMClient.java:408-418 | When the object text parses to an object whose fields give a candidate, that one candidate is recovered. Otherwise nothing is, because the parse threw or the object was rejected. |
| LLMClient.ScanChar | memory-system-spring-boot-starter/src/main/java/com/memosystem/adapter/llm/LLMClient.java:396-423 | '{' deepens the nesting, and at depth 0 it starts a fresh object. '}' appends itself and goes one level up. When it closes a depth-1 object it appends that object's candidate to the found list, and every other character leaves the found list alone. Other characters are collected only inside an object. |
| LLMClient.ScanAll | memory-system-spring-boot-starter/src/main/java/com/memosystem/adapter/llm/LLMClient.java:395-424 | Everything the scan finds is valid. |
| LLMClient.ScanAllStep | memory-system-spring-boot-starter/src/main/java/com/memosystem/adapter/llm/LLMClient.java:395-424 | The scan of a text one character longer is one more `ScanChar` step. |
| LLMClient.ScanAllAppend | memory-system-spring-boot-starter/src/main/java/com/memosystem/adapter/llm/LLMClient.java:395-424 | Scanning a text in two pieces is scanning the second piece from where the first left the scanner. |
| LLMClient.ScanOnAppend | memory-system-spring-boot-starter/src/main/java/com/memosystem/adapter/llm/LLMClient.java:395-424 | Scanning from a state composes over concatenation. |
| LLMClient.IdleOutside | memory-system-spring-boot-starter/src/main/java/com/memosystem/adapter/llm/LLMClient.java:395-424 | Outside any object, text without braces changes nothing. |
| LLMClient.CollectInside | memory-system-spring-boot-starter/src/main/java/com/memosystem/adapter/llm/LLMClient.java:396-421 | Inside an object, text without braces is collected as it is. |
| LLMClient.ClosedObjectRecovered | memory-system-spring-boot-starter/src/main/java/com/memosystem/adapter/llm/LLMClient.java:395-424 | After any scanned prefix that ends outside an object, a separator and then an object without nested braces append exactly that object's candidate (if it has one) to the earlier ones. The scanner ends outside an object again, so the candidates of a list of objects come out one per object, in text order. |
| LLMClient.TryParseIncompleteJsonSpec | memory-system-spring-boot-starter/src/main/java/com/memosystem/adapter/llm/LLMClient.java:377-432 | Every recovered candidate is valid. `ClosedObjectRecovered` gives one candidate per closed object in order, and `RecoveryNeedsFacts` and `NoArrayAfterFacts` cover the cases where nothing is scanned. |
| LLMClient.ScanStep | memory-system-spring-boot-starter/src/main/java/com/memosystem/adapter/llm/LLMClient.java:396-421 | One pass of the loop body: the new brace count, collected object and list are exactly the `ScanChar` step of the old ones. |
| LLMClient.ScanFrom | memory-system-spring-boot-starter/src/main/java/com/memosystem/adapter/llm/LLMClient.java:391-424 | The character loop, started at the given index, returns exactly the candidates `ScanAll` finds in the rest of the text. |
| LLMClient.ScanFoundGrows | memory-system-spring-boot-starter/src/main/java/com/memosystem/adapter/llm/LLMClient.java:395-424 | Scanning further only appends to the found list, so candidates come out in text order. |
| LLMClient.UnclosedTailIgnored | memory-system-spring-boot-starter/src/main/java/com/memosystem/adapter/llm/LLMClient.java:395-424 | A tail without '}' adds nothing: a trailing unclosed object is ignored. |
| LLMClient.TryParseIncompleteJson | memory-system-spring-boot-starter/src/main/java/com/memosystem/adapter/llm/LLMClient.java:377-432 | The loop returns `TryParseIncompleteJsonSpec`, whose lemmas describe what it finds: nothing without "facts" or a '[' after it, otherwise one candidate per object the scan closes at depth 0, in order. |
| LLMClient.RecoveryNeedsFacts | memory-system-spring-boot-starter/src/main/java/com/memosystem/adapter/llm/LLMClient.java:381-384 | A text without the "facts" key recovers nothing. |
| LLMClient.NoArrayAfterFacts | memory-system-spring-boot-starter/src/main/java/com/memosystem/adapter/llm/LLMClient.java:386-389 | When no '[' follows the first "facts", nothing is recovered. |
| LLMClient.ArrayAttempt | memory-system-spring-boot-starter/src/main/java/com/memosystem/adapter/llm/LLMClient.java:141-148 | Parsing as an array yields only valid candidates. |
| LLMClient.ReadFacts | memory-system-spring-boot-starter/src/main/java/com/memosystem/adapter/llm/LLMClient.java:151-161 | Reading an object's "facts" yields only valid candidates. |
| LLMClient.Span | memory-system-spring-boot-starter/src/main/java/com/memosystem/adapter/llm/LLMClient.java:164-165 | A span is found exactly when the first opening character comes before the last closing one. It is the text from the one through the other. |
| LLMClient.BracketAttempt | memory-system-spring-boot-starter/src/main/java/com/memosystem/adapter/llm/LLMClient.java:164-178 | The third attempt yields only valid candidates, and it yields something only when the '['..']' span exists. |
| LLMClient.BraceAttempt | memory-system-spring-boot-starter/src/main/java/com/memosystem/adapter/llm/LLMClient.java:181-207 | The fourth attempt, recovery included, yields only valid candidates, and it yields something only when the '{'..'}' span exists. |
| LLMClient.ParseText | memory-system-spring-boot-starter/src/main/java/com/memosystem/adapter/llm/LLMClient.java:140-210 | Attempts 1 and 2 are taken whenever they apply. If neither applies, attempt 3 wins when it yields something, and otherwise attempt 4 does. The chain throws IllegalArgumentException exactly when all four yield nothing, and never another error. Every success holds only valid candidates. |
| LLMClient.ParseMemoriesFromContent | memory-system-spring-boot-starter/src/main/java/com/memosystem/adapter/llm/LLMClient.java:128-211 | JsonParseException exactly when the content is null or blank. Otherwise the result is the attempt chain on the trimmed, unfenced content, and every candidate returned is valid. |
| LLMClient.BareArrayWins | memory-system-spring-boot-starter/src/main/java/com/memosystem/adapter/llm/LLMClient.java:141-148 | A bare array reply is taken as it is, even when it yields nothing. |
| LLMClient.FactsObjectWins | memory-system-spring-boot-starter/src/main/java/com/memosystem/adapter/llm/LLMClient.java:151-161 | An object reply with a "facts" array is taken as it is, even when it yields nothing. |
| LLMClient.BracketSpanWins | memory-system-spring-boot-starter/src/main/java/com/memosystem/adapter/llm/LLMClient.java:163-178 | When the text is neither an array nor a "facts" object, an array between the first '[' and the last ']' that yields candidates is the result. |
| LLMClient.BraceSpanWins | memory-system-spring-boot-starter/src/main/java/com/memosystem/adapter/llm/LLMClient.java:180-196 | When the first three attempts yield nothing, an object between the first '{' and the last '}' whose "facts" array yields candidates is the result. |
| LLMClient.TruncatedSpanRecovered | memory-system-spring-boot-starter/src/main/java/com/memosystem/adapter/llm/LLMClient.java:197-207 | When the first three attempts yield nothing and the '{'..'}' span does not parse, the recovery scan of that span decides. Its candidates are the result if there are any; otherwise the chain throws IllegalArgumentException. |
| LLMClient.FactlessSpanFails | memory-system-spring-boot-starter/src/main/java/com/memosystem/adapter/llm/LLMClient.java:186-210 | A '{'..'}' span that parses to an object without "facts" gets no recovery, and the chain throws IllegalArgumentException. |
| ShortTerm.LastNOfLastN | memory-system-spring-boot-starter/src/main/java/com/memosystem/service/impl/ShortTermMemoryServiceImpl.java:56-58 | Cutting to the last a, then to the last b, is cutting to the last min(a, b). |
| ShortTerm.NewestKept | memory-system-spring-boot-starter/src/main/java/com/memosystem/service/impl/ShortTermMemoryServiceImpl.java:49-62 | With a capacity of at least 1, the message just added is the newest one in the window, and the window holds at most capacity messages. |
| ShortTerm.SessionMemory.constructor | memory-system-spring-boot-starter/src/main/java/com/memosystem/service/impl/ShortTermMemoryServiceImpl.java:45-47 | A new window is empty and has the given capacity. |
| ShortTerm.SessionMemory.AddMessage | memory-system-spring-boot-starter/src/main/java/com/memosystem/service/impl/ShortTermMemoryServiceImpl.java:49-62 | The window becomes the last `maxSize` messages of old window + [m]. It throws exactly when `maxSize < 0`. |
| ShortTerm.SessionMemory.GetRecentMessages | memory-system-spring-boot-starter/src/main/java/com/memosystem/service/impl/ShortTermMemoryServiceImpl.java:64-74 | For `count >= 0`, the last `min(count, size)` messages, oldest first, with the window unchanged. A negative count throws IllegalArgumentException. |
| ShortTerm.SessionMemory.GetAllMessages | memory-system-spring-boot-starter/src/main/java/com/memosystem/service/impl/ShortTermMemoryServiceImpl.java:76-84 | A copy of the whole window. |
| ShortTerm.SessionMemory.Clear | memory-system-spring-boot-starter/src/main/java/com/memosystem/service/impl/ShortTermMemoryServiceImpl.java:86-93 | The window becomes empty. |
| ShortTerm.SessionMemory.Size | memory-system-spring-boot-starter/src/main/java/com/memosystem/service/impl/ShortTermMemoryServiceImpl.java:95-102 | The number of messages in the window. |
| ShortTerm.SessionView | memory-system-spring-boot-starter/src/main/java/com/memosystem/service/impl/ShortTermMemoryServiceImpl.java:136-170 | A cached session is seen as cached. An unknown session is loaded from the message log: at most capacity messages, and nothing when the load is empty or capacity is at most 0. |
| ShortTerm.Hydrate | memory-system-spring-boot-starter/src/main/java/com/memosystem/service/impl/ShortTermMemoryServiceImpl.java:136-143 | A load is cached exactly when it found something. No other session changes. |
| ShortTerm.HydrateIdempotent | memory-system-spring-boot-starter/src/main/java/com/memosystem/service/impl/ShortTermMemoryServiceImpl.java:136-143 | Hydrating twice is hydrating once. |
| ShortTerm.Truncate | memory-system-spring-boot-starter/src/main/java/com/memosystem/service/impl/ShortTermMemoryServiceImpl.java:210-218 | Text no longer than the maximum is unchanged. Longer text becomes its first `max` characters plus "...". |
| ShortTerm.Turn | memory-system-spring-boot-starter/src/main/java/com/memosystem/service/impl/ShortTermMemoryServiceImpl.java:184-186 | A numbered turn starts with its number, contains the user message and the AI response each cut to 200 characters, and ends with a newline. |
| ShortTerm.Turns | memory-system-spring-boot-starter/src/main/java/com/memosystem/service/impl/ShortTermMemoryServiceImpl.java:181-187 | Empty exactly for no pairs; otherwise it ends with the last pair's turn, numbered by the list's length. |
| ShortTerm.TurnsSnoc | memory-system-spring-boot-starter/src/main/java/com/memosystem/service/impl/ShortTermMemoryServiceImpl.java:182-187 | The rendering of one more message appends that message's numbered block. |
| ShortTerm.ShortTermContext | memory-system-spring-boot-starter/src/main/java/com/memosystem/service/impl/ShortTermMemoryServiceImpl.java:173-190 | "" exactly for an empty window; otherwise it starts with the header. |
| ShortTerm.ContextHasEveryTurn | memory-system-spring-boot-starter/src/main/java/com/memosystem/service/impl/ShortTermMemoryServiceImpl.java:182-187 | Every message of the window appears as its numbered block, both texts cut to 200. |
| ShortTerm.RenderContext | memory-system-spring-boot-starter/src/main/java/com/memosystem/service/impl/ShortTermMemoryServiceImpl.java:173-190 | The loop builds `ShortTermContext` of the window. |
| ShortTerm.ShortTermMemoryService.constructor | memory-system-spring-boot-starter/src/main/java/com/memosystem/service/impl/ShortTermMemoryServiceImpl.java:31-34 | The service starts with no sessions and the configured capacity. |
| ShortTerm.ShortTermMemoryService.AddMessage | memory-system-spring-boot-starter/src/main/java/com/memosystem/service/impl/ShortTermMemoryServiceImpl.java:106-112 | An unknown session gets a new empty window without reading the log. The session's window becomes its last `capacity` messages with m added. It throws exactly when capacity is negative. |
| ShortTerm.ShortTermMemoryService.GetOrLoadSession | memory-system-spring-boot-starter/src/main/java/com/memosystem/service/impl/ShortTermMemoryServiceImpl.java:136-143 | No window exactly when the session's view is None. The cache becomes `Hydrate` of the old cache. |
| ShortTerm.ShortTermMemoryService.GetRecentMessages | memory-system-spring-boot-starter/src/main/java/com/memosystem/service/impl/ShortTermMemoryServiceImpl.java:115-121 | [] for a session with nothing cached or logged. Otherwise the last `min(count, size)` messages, or IllegalArgumentException for a negative count. The session is hydrated on the way. |
| ShortTerm.ShortTermMemoryService.GetAllMessages | memory-system-spring-boot-starter/src/main/java/com/memosystem/service/impl/ShortTermMemoryServiceImpl.java:124-130 | The session's whole window, or [] when there is none, after hydration. |
| ShortTerm.ShortTermMemoryService.BuildShortTermContext | memory-system-spring-boot-starter/src/main/java/com/memosystem/service/impl/ShortTermMemoryServiceImpl.java:173-190 | The rendering of the session's window after hydration, and "" when there is none. |
| ShortTerm.ShortTermMemoryService.ClearSession | memory-system-spring-boot-starter/src/main/java/com/memosystem/service/impl/ShortTermMemoryServiceImpl.java:193-199 | Only the session's in-memory window is removed. |
| ShortTerm.ShortTermMemoryService.GetMessageCount | memory-system-spring-boot-starter/src/main/java/com/memosystem/service/impl/ShortTermMemoryServiceImpl.java:202-205 | The cached window's size, or 0 for a session not in memory (no hydration). The count never exceeds the capacity. |
| FileRepository.Disk.constructor | memory-system-core/src/main/java/com/memosystem/common/model/CommonFileRepository.java:29-62 | The disk holds the given files. |
| FileRepository.LastN | memory-system-core/src/main/java/com/memosystem/common/model/CommonFileRepository.java:141-156 | The last `min(k, size)` elements, oldest first, and none for `k <= 0`. |
| FileRepository.LastNSnoc | memory-system-core/src/main/java/com/memosystem/common/model/CommonFileRepository.java:141-156 | The newest element always survives the cut, followed by the rest cut to one fewer. |
| FileRepository.Reverse | memory-system-core/src/main/java/com/memosystem/common/model/CommonFileRepository.java:156 | Element i of the result is element size-1-i of the input. |
| FileRepository.ReverseSnoc | memory-system-core/src/main/java/com/memosystem/common/model/CommonFileRepository.java:156 | Reversing with one more element at the end puts it at the front. |
| FileRepository.Saved | memory-system-core/src/main/java/com/memosystem/common/model/CommonFileRepository.java:29-62 | A readable array gets the content appended, with earlier elements untouched. A missing, unreadable or non-array file becomes [content]. Other files are unchanged. |
| FileRepository.Save | memory-system-core/src/main/java/com/memosystem/common/model/CommonFileRepository.java:29-62 | The disk becomes `Saved` of the old files. |
| FileRepository.SessionMatch | memory-system-core/src/main/java/com/memosystem/common/model/CommonFileRepository.java:106-109 | No "sessionId" field means no match. A string field matches exactly when it equals the session. Other kinds make `getAsString` throw. |
| FileRepository.LastMatch | memory-system-core/src/main/java/com/memosystem/common/model/CommonFileRepository.java:83-97 | The reverse scan fails only with a runtime exception, and a value it returns is the decoding of a matching element of the log. |
| FileRepository.LoadLast | memory-system-core/src/main/java/com/memosystem/common/model/CommonFileRepository.java:67-104 | A missing, unparseable or non-array file gives empty. The only failure is a runtime exception, and a returned value is the decoding of a matching element of the file's array. |
| FileRepository.Matches | memory-system-core/src/main/java/com/memosystem/common/model/CommonFileRepository.java:106-109 | An element matches exactly when it is an object with a "sessionId" whose `getAsString` equals the session. |
| FileRepository.Throws | memory-system-core/src/main/java/com/memosystem/common/model/CommonFileRepository.java:106-109 | The scan throws on an object whose "sessionId" is present but has no string reading (null, object, array of other than one element); such an element never matches. |
| FileRepository.LoadLastContent | memory-system-core/src/main/java/com/memosystem/common/model/CommonFileRepository.java:67-104 | The loop returns `LoadLast` of the file. |
| FileRepository.LastMatchSkips | memory-system-core/src/main/java/com/memosystem/common/model/CommonFileRepository.java:86-94 | A newest element that is not an object of the session is skipped. |
| FileRepository.LastMatchTakesNewest | memory-system-core/src/main/java/com/memosystem/common/model/CommonFileRepository.java:83-96 | The newest matching element is the one returned. |
| FileRepository.LastMatchNone | memory-system-core/src/main/java/com/memosystem/common/model/CommonFileRepository.java:83-103 | A log with no match gives empty. |
| FileRepository.SaveThenLoadSummary | memory-system-core/src/main/java/com/memosystem/common/model/CommonFileRepository.java:29-104 | Right after an entry is saved, the reverse scan returns its text. |
| FileRepository.RecentScan | memory-system-core/src/main/java/com/memosystem/common/model/CommonFileRepository.java:141-153 | The scan collects at most `count` elements. |
| FileRepository.LoadRecent | memory-system-core/src/main/java/com/memosystem/common/model/CommonFileRepository.java:121-164 | At most `count` results, and the only failure is a runtime exception. |
| FileRepository.RecentScanStep | memory-system-core/src/main/java/com/memosystem/common/model/CommonFileRepository.java:141-153 | One more element is skipped, rejected or collected, exactly as the loop body does. |
| FileRepository.ScanReachesSavedPair | memory-system-core/src/main/java/com/memosystem/common/model/CommonFileRepository.java:141-153 | Scanning a log that ends with a just saved pair collects that pair first, then scans the older elements for one fewer. |
| FileRepository.LoadRecentMessages | memory-system-core/src/main/java/com/memosystem/common/model/CommonFileRepository.java:121-164 | The loop with its reversal returns `LoadRecent` of the file. |
| FileRepository.RecentScanIsLastMatches | memory-system-core/src/main/java/com/memosystem/common/model/CommonFileRepository.java:121-164 | On a log where no element throws, the result is the last `min(count, #matches)` matching elements, oldest first. |
| FileRepository.SaveThenLoadRecentPair | memory-system-core/src/main/java/com/memosystem/common/model/CommonFileRepository.java:29-164 | Right after a pair is saved, loading recent messages of its session ends with that pair. |
| Entities.EncodePair | memory-system-core/src/main/java/com/memosystem/common/model/CommonFileRepository.java:51 | The encoded pair is an object whose "sessionId" is the pair's session. |
| Entities.EncodeSummary | memory-system-core/src/main/java/com/memosystem/common/model/CommonFileRepository.java:51 | The encoded entry is an object whose "sessionId" is the entry's session. |
| Entities.StringField | memory-system-core/src/main/java/com/memosystem/common/model/CommonFileRepository.java:96 | Gson's reading of a String field: missing or null gives null, a string gives its text, a number or boolean gives some text, and an array or object throws. |
| Entities.LongField | memory-system-core/src/main/java/com/memosystem/common/model/CommonFileRepository.java:96 | Gson's reading of a long field: missing or null gives 0, a string goes through `Long.parseLong`, a number from a tree is cut toward zero and narrowed to 64 bits, a streamed number must be whole and in range, and a boolean, array or object throws. |
| Entities.ParseLong | memory-system-core/src/main/java/com/memosystem/common/model/CommonFileRepository.java:96 | `Long.parseLong`: defined only for non-empty text, and text starting with a digit must be all digits. |
| Entities.ParseLongOfString | memory-system-core/src/main/java/com/memosystem/common/model/CommonFileRepository.java:96 | The decimal text of any long parses back to that long. |
| Entities.TreeReaderReadsQuotedAndFractional | memory-system-core/src/main/java/com/memosystem/common/model/CommonFileRepository.java:96 | From a tree, a quoted timestamp reads as its value and a timestamp with a fraction is cut toward zero. |
| Entities.DecodePair | memory-system-core/src/main/java/com/memosystem/common/model/CommonFileRepository.java:96 | A pair is read exactly when its three text fields and its timestamp can be read. It carries the field texts and the timestamp Gson reads; a missing or null user message reads as "". |
| Entities.DecodeSummaryText | memory-system-spring-boot-starter/src/main/java/com/memosystem/service/impl/GlobalSummaryServiceImpl.java:161-163 | An entry whose session cannot be read, or whose summary is missing or null, gives no text; a string summary gives its text. |
| Entities.PairRoundTrip | memory-system-core/src/main/java/com/memosystem/common/model/CommonFileRepository.java:51-96 | A saved message pair is read back unchanged. |
| Entities.LongReadsBack | memory-system-core/src/main/java/com/memosystem/common/model/CommonFileRepository.java:96 | A long written as a JSON number is read back by the tree reader as itself. |
| Entities.SummaryRoundTrip | memory-system-core/src/main/java/com/memosystem/common/model/CommonFileRepository.java:51-96 | A saved summary entry's text, null included, is read back unchanged. |
| Json.GsonString | memory-system-spring-boot-starter/src/main/java/com/memosystem/service/impl/MemoryRetrieverServiceImpl.java:121-122 | `getAsString` on a string gives its text, and null or an object gives nothing. |
| GlobalSummary.CurrentSummary | memory-system-spring-boot-starter/src/main/java/com/memosystem/service/impl/GlobalSummaryServiceImpl.java:160-164 | Fails exactly when the log scan fails. Otherwise the newest entry's text, or the placeholder. |
| GlobalSummary.SavedEntryIsCurrent | memory-system-spring-boot-starter/src/main/java/com/memosystem/service/impl/GlobalSummaryServiceImpl.java:160-164 | After an entry is saved, it is the session's current summary, and the placeholder stands in for a null text. |
| GlobalSummary.TurnBlock | memory-system-spring-boot-starter/src/main/java/com/memosystem/service/impl/GlobalSummaryServiceImpl.java:95-97 | The block starts with the turn number `count + 1`, contains the user message and the AI response each cut to 100 characters, and ends with a newline. |
| GlobalSummary.AppendedSummary | memory-system-spring-boot-starter/src/main/java/com/memosystem/service/impl/GlobalSummaryServiceImpl.java:88-104 | The text always contains "【交互历史】". The marker is added only when absent, followed by a "--- 消息 n+1 ---" block with both texts cut to 100 characters. |
| GlobalSummary.MarkerWrittenOnce | memory-system-spring-boot-starter/src/main/java/com/memosystem/service/impl/GlobalSummaryServiceImpl.java:88-104 | Appending to an appended summary adds only the next turn block. |
| GlobalSummary.GlobalSummaryService.constructor | memory-system-spring-boot-starter/src/main/java/com/memosystem/service/impl/GlobalSummaryServiceImpl.java:30-31 | No summary and a message count of 0. |
| GlobalSummary.GlobalSummaryService.GetCurrentSummary | memory-system-spring-boot-starter/src/main/java/com/memosystem/service/impl/GlobalSummaryServiceImpl.java:160-164 | Equals `CurrentSummary` of the log. |
| GlobalSummary.GlobalSummaryService.AppendToSummary | memory-system-spring-boot-starter/src/main/java/com/memosystem/service/impl/GlobalSummaryServiceImpl.java:88-104 | The service-wide summary becomes the appended text. The count goes up by one, and one entry for the session is appended to the log. |
| GlobalSummary.GlobalSummaryService.UpdateGlobalSummaryWithUsage | memory-system-spring-boot-starter/src/main/java/com/memosystem/service/impl/GlobalSummaryServiceImpl.java:43-83 | An empty turn writes nothing, keeps the count and returns zero usage. A failing read of the summary passes its exception through and changes nothing. A reply with usage becomes the summary and its usage is returned. Otherwise the fallback appends and zero usage is returned. The count goes up by one and one entry is appended on both paths. |
| Retriever.Similar | memory-system-spring-boot-starter/src/main/java/com/memosystem/service/impl/MemoryRetrieverServiceImpl.java:50-66 | A failed embedding (any exception) gives []. Otherwise the store's scored search. |
| Retriever.SimilarInSessionAndRanked | memory-system-spring-boot-starter/src/main/java/com/memosystem/service/impl/MemoryRetrieverServiceImpl.java:50-66 | At most top-K hits, sorted by descending score, all from the session. |
| Retriever.RetrieveSimilarMemories | memory-system-spring-boot-starter/src/main/java/com/memosystem/service/impl/MemoryRetrieverServiceImpl.java:50-66 | Equals `Similar`. |
| Retriever.RetrieveSimilarForParsed | memory-system-spring-boot-starter/src/main/java/com/memosystem/service/impl/MemoryRetrieverServiceImpl.java:77-80 | Equals `Similar` on the parsed message's content. |
| Retriever.ReadElement | memory-system-spring-boot-starter/src/main/java/com/memosystem/service/impl/MemoryRetrieverServiceImpl.java:111-122 | A null element cannot be read. A read pair carries the element's "sessionId" text. |
| Retriever.SelectRecent | memory-system-spring-boot-starter/src/main/java/com/memosystem/service/impl/MemoryRetrieverServiceImpl.java:120-130 | `min(limit, #session pairs)` pairs, none for `limit <= 0`, every one a pair of the file from the session. |
| Retriever.SavedPairIsRead | memory-system-spring-boot-starter/src/main/java/com/memosystem/service/impl/MemoryRetrieverServiceImpl.java:111-122 | A saved pair reads back with the same fields. |
| Retriever.ReadAll | memory-system-spring-boot-starter/src/main/java/com/memosystem/service/impl/MemoryRetrieverServiceImpl.java:111-115 | The list reads exactly when every element reads, element by element. |
| Retriever.SessionPairs | memory-system-spring-boot-starter/src/main/java/com/memosystem/service/impl/MemoryRetrieverServiceImpl.java:121-122 | A pair is kept exactly when it is in the input and belongs to the session. |
| Retriever.SelectRecentProps | memory-system-spring-boot-starter/src/main/java/com/memosystem/service/impl/MemoryRetrieverServiceImpl.java:121-136 | `min(limit, #matching)` pairs, or none for `limit <= 0`. They are sorted by descending timestamp and all come from the session. |
| Retriever.SameTimestampKeepsFileOrder | memory-system-spring-boot-starter/src/main/java/com/memosystem/service/impl/MemoryRetrieverServiceImpl.java:124 | Pairs with equal timestamps keep their file order. |
| Retriever.Block | memory-system-spring-boot-starter/src/main/java/com/memosystem/service/impl/MemoryRetrieverServiceImpl.java:128-135 | A block is never empty. |
| Retriever.Blocks | memory-system-spring-boot-starter/src/main/java/com/memosystem/service/impl/MemoryRetrieverServiceImpl.java:127-136 | "" exactly when there is nothing to render. |
| Retriever.BlocksSnoc | memory-system-spring-boot-starter/src/main/java/com/memosystem/service/impl/MemoryRetrieverServiceImpl.java:127-136 | One more pair appends its numbered block. |
| Retriever.BlocksShowEach | memory-system-spring-boot-starter/src/main/java/com/memosystem/service/impl/MemoryRetrieverServiceImpl.java:127-136 | Every selected pair appears as block number i + 1. |
| Retriever.RecentMemories | memory-system-spring-boot-starter/src/main/java/com/memosystem/service/impl/MemoryRetrieverServiceImpl.java:103-144 | A missing or empty file gives "". Unreadable text or a non-array throws. An array fails exactly when some element cannot be read. |
| Retriever.AppendReadable | memory-system-spring-boot-starter/src/main/java/com/memosystem/service/impl/MemoryRetrieverServiceImpl.java:111-115 | A readable element appended to a readable log is read after the others. |
| Retriever.WholeSessionShown | memory-system-spring-boot-starter/src/main/java/com/memosystem/service/impl/MemoryRetrieverServiceImpl.java:121-136 | When the limit covers the whole log, every pair of the session is shown. |
| Retriever.RecentOfReadable | memory-system-spring-boot-starter/src/main/java/com/memosystem/service/impl/MemoryRetrieverServiceImpl.java:103-144 | A readable log renders the selected pairs. |
| Retriever.AppendedIsShown | memory-system-core/src/main/java/com/memosystem/common/model/CommonFileRepository.java:29-62 | An element just appended to a readable log is shown when the limit covers the log. |
| Retriever.SavedPairIsShown | memory-system-core/src/main/java/com/memosystem/common/model/CommonFileRepository.java:29-62 | A pair just saved is shown among its session's recent memories when the limit covers the log. |
| Retriever.GetRecentMemories | memory-system-spring-boot-starter/src/main/java/com/memosystem/service/impl/MemoryRetrieverServiceImpl.java:103-144 | Equals `RecentMemories`. |
| Retriever.RenderBlocks | memory-system-spring-boot-starter/src/main/java/com/memosystem/service/impl/MemoryRetrieverServiceImpl.java:127-136 | The loop renders the first `min(limit, size)` sorted pairs. |
| Retriever.GetRecentMemoriesDefault | memory-system-spring-boot-starter/src/main/java/com/memosystem/service/impl/MemoryRetrieverServiceImpl.java:90-92 | Uses the configured `conversationSearchTopK`, which is 3 by default. |
| MessageProcess.RegexSpacesAreTrimmable | memory-system-spring-boot-starter/src/main/java/com/memosystem/service/impl/MessageProcessServiceImpl.java:45-46 | Every `\s` character is also removed by `trim`. |
| MessageProcess.IsEmptyMessage | memory-system-spring-boot-starter/src/main/java/com/memosystem/service/impl/MessageProcessServiceImpl.java:34-37 | A message is empty exactly when it is null or every character is at or below U+0020; the empty string is empty. |
| MessageProcess.NonSpaceAppend | memory-system-spring-boot-starter/src/main/java/com/memosystem/service/impl/MessageProcessServiceImpl.java:46 | The non-whitespace characters of a concatenation are those of each part, in order. |
| MessageProcess.DropSpaces | memory-system-spring-boot-starter/src/main/java/com/memosystem/service/impl/MessageProcessServiceImpl.java:46 | A run of whitespace is dropped from the front. |
| MessageProcess.DropSpacesKeepsNonSpace | memory-system-spring-boot-starter/src/main/java/com/memosystem/service/impl/MessageProcessServiceImpl.java:46 | Dropping a leading run of whitespace keeps every other character. |
| MessageProcess.CollapseSpaces | memory-system-spring-boot-starter/src/main/java/com/memosystem/service/impl/MessageProcessServiceImpl.java:46 | No longer than its input. Every whitespace character left is a plain space, and a space leads exactly where the input led with whitespace. The non-whitespace characters are exactly the input's, in order. |
| MessageProcess.CollapseLeavesNoDoubleSpace | memory-system-spring-boot-starter/src/main/java/com/memosystem/service/impl/MessageProcessServiceImpl.java:46 | After collapsing, no two spaces are adjacent. |
| MessageProcess.CollapseRun | memory-system-spring-boot-starter/src/main/java/com/memosystem/service/impl/MessageProcessServiceImpl.java:46 | A maximal run of whitespace becomes exactly one space, and the text on either side is collapsed on its own. |
| MessageProcess.DropSpacesRun | memory-system-spring-boot-starter/src/main/java/com/memosystem/service/impl/MessageProcessServiceImpl.java:46 | A whitespace run before text that starts with non-whitespace is dropped entirely. |
| MessageProcess.LoneSpacesKept | memory-system-spring-boot-starter/src/main/java/com/memosystem/service/impl/MessageProcessServiceImpl.java:46 | Single spaces between non-whitespace characters are left as they are. |
| MessageProcess.DoubleSpaceCollapsed | memory-system-spring-boot-starter/src/main/java/com/memosystem/service/impl/MessageProcessServiceImpl.java:46 | Two spaces in a row between non-whitespace characters become one. |
| MessageProcess.RemoveOther | memory-system-spring-boot-starter/src/main/java/com/memosystem/service/impl/MessageProcessServiceImpl.java:47 | No longer than its input. |
| MessageProcess.RemoveOtherAppend | memory-system-spring-boot-starter/src/main/java/com/memosystem/service/impl/MessageProcessServiceImpl.java:47 | Removal of `\p{C}` works character by character: removing from a concatenation is removing from each part, so the order of what is kept is the input's. |
| MessageProcess.RemoveOtherKeepsPlain | memory-system-spring-boot-starter/src/main/java/com/memosystem/service/impl/MessageProcessServiceImpl.java:47 | Text with no `\p{C}` character is kept as it is. |
| MessageProcess.FiltersCommute | memory-system-spring-boot-starter/src/main/java/com/memosystem/service/impl/MessageProcessServiceImpl.java:46-47 | Removing `\p{C}` and dropping whitespace give the same text in either order. |
| MessageProcess.TrimmableHasNoContent | memory-system-spring-boot-starter/src/main/java/com/memosystem/service/impl/MessageProcessServiceImpl.java:45-47 | Characters at or below U+0020 are whitespace or `\p{C}`, so they carry no content. |
| MessageProcess.TrimKeepsContent | memory-system-spring-boot-starter/src/main/java/com/memosystem/service/impl/MessageProcessServiceImpl.java:45 | Trimming loses no content: the non-whitespace, non-`\p{C}` characters are the same before and after. |
| MessageProcess.CleaningKeepsContent | memory-system-spring-boot-starter/src/main/java/com/memosystem/service/impl/MessageProcessServiceImpl.java:45-47 | Trimming and collapsing whitespace before removing `\p{C}` lose no content: the non-whitespace, non-`\p{C}` characters of the message survive in order. |
| MessageProcess.RemoveOtherChars | memory-system-spring-boot-starter/src/main/java/com/memosystem/service/impl/MessageProcessServiceImpl.java:47 | A character is kept exactly when it is in the input and is not in `\p{C}`. |
| MessageProcess.CleanMessage | memory-system-spring-boot-starter/src/main/java/com/memosystem/service/impl/MessageProcessServiceImpl.java:40-48 | Null gives "". Otherwise the result is no longer than the trimmed input and holds no `\p{C}` character. Its only whitespace is plain spaces, every character comes from the input or is a space, and its non-whitespace characters are exactly the message's characters outside `\s` and `\p{C}`, in order. |
| MessageProcess.CleanJoinsWordsWithOneSpace | memory-system-spring-boot-starter/src/main/java/com/memosystem/service/impl/MessageProcessServiceImpl.java:40-48 | Two words (no whitespace, no `\p{C}`) separated by any run of whitespace clean to the two words joined by one space. |
| MessageProcess.CollapsedChars | memory-system-spring-boot-starter/src/main/java/com/memosystem/service/impl/MessageProcessServiceImpl.java:46 | Collapsing adds no character except spaces. |
| MessageProcess.CleaningIsNotIdempotent | memory-system-spring-boot-starter/src/main/java/com/memosystem/service/impl/MessageProcessServiceImpl.java:45-47 | Cleaning "a ␁ b" gives "a  b", and cleaning that again gives "a b". Removing `\p{C}` after collapsing can join spaces. |
| MessageProcess.NonEmptyCanCleanToNothing | memory-system-spring-boot-starter/src/main/java/com/memosystem/service/impl/MessageProcessServiceImpl.java:35-47 | A message that is not empty (U+0085) can still clean to "". |
| MessageProcess.CountChinese | memory-system-spring-boot-starter/src/main/java/com/memosystem/service/impl/MessageProcessServiceImpl.java:62-64 | The count never exceeds the length. |
| MessageProcess.CountEnglish | memory-system-spring-boot-starter/src/main/java/com/memosystem/service/impl/MessageProcessServiceImpl.java:65-67 | The count never exceeds the length. |
| MessageProcess.Verdict | memory-system-spring-boot-starter/src/main/java/com/memosystem/service/impl/MessageProcessServiceImpl.java:70-76 | "zh-CN" exactly when Chinese > 2·English, and "en-US" exactly when English > 2·Chinese. Otherwise "mixed". |
| MessageProcess.Language | memory-system-spring-boot-starter/src/main/java/com/memosystem/service/impl/MessageProcessServiceImpl.java:54-77 | "unknown" exactly for a null or empty message. |
| MessageProcess.OnlyChineseIsChinese | memory-system-spring-boot-starter/src/main/java/com/memosystem/service/impl/MessageProcessServiceImpl.java:54-77 | A non-empty text of ideographs only is "zh-CN". |
| MessageProcess.OnlyEnglishIsEnglish | memory-system-spring-boot-starter/src/main/java/com/memosystem/service/impl/MessageProcessServiceImpl.java:54-77 | A non-empty text of ASCII letters only is "en-US". |
| MessageProcess.DetectLanguage | memory-system-spring-boot-starter/src/main/java/com/memosystem/service/impl/MessageProcessServiceImpl.java:54-77 | The counting loop returns `Language`. |
| MessageProcess.ParseMessage | memory-system-spring-boot-starter/src/main/java/com/memosystem/service/impl/MessageProcessServiceImpl.java:16-31 | Marked empty exactly when `isEmptyMessage`. An empty message keeps its text and gets "unknown". Any other gets the cleaned text and the language of the original text, one of "zh-CN", "en-US" and "mixed". |
| Enhancer.Section | memory-system-spring-boot-starter/src/main/java/com/memosystem/service/impl/ConversationEnhancerServiceImpl.java:52-55 | Empty for a null or empty text. Otherwise it starts with the header, holds the text and ends with a blank line. |
| Enhancer.MemorySection | memory-system-spring-boot-starter/src/main/java/com/memosystem/service/impl/ConversationEnhancerServiceImpl.java:58-63 | Always present. It uses the fixed "暂无相关历史记忆。" line when the memory context is null or empty. |
| Enhancer.Question | memory-system-spring-boot-starter/src/main/java/com/memosystem/service/impl/ConversationEnhancerServiceImpl.java:66-68 | Starts with the question header, holds the message and ends with the closing line. |
| Enhancer.SystemInstruction | memory-system-spring-boot-starter/src/main/java/com/memosystem/service/impl/ConversationEnhancerServiceImpl.java:92-116 | The global section, then the short-term section, then the memory section, each section left out when its context is empty or null. |
| Enhancer.EnhancedPrompt | memory-system-spring-boot-starter/src/main/java/com/memosystem/service/impl/ConversationEnhancerServiceImpl.java:39-70 | A null user message throws (`length()`). Otherwise the prompt starts with the answer prompt and ends with the closing line. |
| Enhancer.EnhancedIsInstructionAndQuestion | memory-system-spring-boot-starter/src/main/java/com/memosystem/service/impl/ConversationEnhancerServiceImpl.java:39-70 | The prompt is the answer prompt, then the global and memory sections, then the question. |
| Enhancer.EnhancedIgnoresShortTerm | memory-system-spring-boot-starter/src/main/java/com/memosystem/service/impl/ConversationEnhancerServiceImpl.java:39-70 | The prompt does not depend on the short-term context. |
| Enhancer.SystemInstructionFor | memory-system-spring-boot-starter/src/main/java/com/memosystem/service/impl/ConversationEnhancerServiceImpl.java:82-89 | The parsed-message overload is `buildEnhancedPrompt` on the parsed content. |
| Conversation.TempEntry | memory-system-spring-boot-starter/src/main/java/com/memosystem/service/impl/ConversationServiceImpl.java:313-317 | The entry holds both texts, each cut to 200 characters plus "..." when longer. |
| Conversation.MemoryFacts | memory-system-spring-boot-starter/src/main/java/com/memosystem/service/impl/ConversationServiceImpl.java:340-343 | A memory's lines start with its number and percentage score, contain its fact and category, and end with its confidence line. |
| Conversation.Separated | memory-system-spring-boot-starter/src/main/java/com/memosystem/service/impl/ConversationServiceImpl.java:306-310 | Starts with the global summary and contains the marker. |
| Conversation.TemporarySummary | memory-system-spring-boot-starter/src/main/java/com/memosystem/service/impl/ConversationServiceImpl.java:303-317 | Starts with the global summary and ends with the turn entry. "\n\n【最近交互】\n" is added only when the marker is absent, and "\n" otherwise. |
| Conversation.MarkerAddedOnce | memory-system-spring-boot-starter/src/main/java/com/memosystem/service/impl/ConversationServiceImpl.java:306-310 | A second temporary summary over the first adds only a line break and the new turn. |
| Conversation.CreateAndSaveTemporarySummary | memory-system-spring-boot-starter/src/main/java/com/memosystem/service/impl/ConversationServiceImpl.java:301-323 | Exactly one entry for the session, holding the temporary summary, is appended to the summary log. |
| Conversation.TemporarySummaryIsCurrent | memory-system-spring-boot-starter/src/main/java/com/memosystem/service/impl/ConversationServiceImpl.java:319-320 | Right after it is saved, the temporary summary is the session's current summary. |
| Conversation.MemoryBlock | memory-system-spring-boot-starter/src/main/java/com/memosystem/service/impl/ConversationServiceImpl.java:336-347 | Starts with the numbered fact lines and ends with a line break. The "相关问题" line is present when the pair is not null, and absent when it is null. |
| Conversation.MemoryBlocks | memory-system-spring-boot-starter/src/main/java/com/memosystem/service/impl/ConversationServiceImpl.java:335-348 | Empty exactly for no memories; otherwise it ends with the last memory's block, numbered by the list's length. |
| Conversation.MemoryBlocksShowEach | memory-system-spring-boot-starter/src/main/java/com/memosystem/service/impl/ConversationServiceImpl.java:335-348 | Every similarity appears as its numbered block. |
| Conversation.MemoryContext | memory-system-spring-boot-starter/src/main/java/com/memosystem/service/impl/ConversationServiceImpl.java:328-349 | Exactly for an empty list, the "no memories" line. |
| Conversation.MemoryContextShowsEach | memory-system-spring-boot-starter/src/main/java/com/memosystem/service/impl/ConversationServiceImpl.java:328-349 | A non-empty context starts with the header and holds every similarity's numbered block. It shows a similarity's question line whenever its pair is not null. |
| Conversation.BuildMemoryContext | memory-system-spring-boot-starter/src/main/java/com/memosystem/service/impl/ConversationServiceImpl.java:328-349 | The loop returns `MemoryContext`. |
| Conversation.CountAdded | memory-system-spring-boot-starter/src/main/java/com/memosystem/service/impl/ConversationServiceImpl.java:379-381 | Exactly min(n, 3) for n extracted memories: n when n <= 3, and 3 when n >= 3. |
| Conversation.CountUpdated | memory-system-spring-boot-starter/src/main/java/com/memosystem/service/impl/ConversationServiceImpl.java:386-388 | 0 exactly when n <= 3, and n - 3 when n > 3. |
| Conversation.CountsPartition | memory-system-spring-boot-starter/src/main/java/com/memosystem/service/impl/ConversationServiceImpl.java:379-388 | Added plus updated is n. |
| Conversation.ContextUpdateResult | memory-system-spring-boot-starter/src/main/java/com/memosystem/service/impl/ConversationServiceImpl.java:282-290 | Code 0 exactly on success, 1001 exactly for IllegalArgumentException, 3000 exactly for any other exception. Data is present only on success, and a failure's message ends with the exception's message. |
| TokenUsageSummary.Wrap32 | memory-system-spring-boot-starter/src/main/java/com/memosystem/vo/TokenUsageSummaryVO.java:16-22 | The value lies in the 32-bit range, is unchanged inside it, and is congruent to the input modulo 2^32. |
| TokenUsageSummary.WrapAdd | memory-system-spring-boot-starter/src/main/java/com/memosystem/vo/TokenUsageSummaryVO.java:31-34 | Adding to a wrapped total is adding to the exact total, then wrapping. |
| TokenUsageSummary.TokenUsageSummaryVO.constructor | memory-system-spring-boot-starter/src/main/java/com/memosystem/vo/TokenUsageSummaryVO.java:16-24 | All counters are 0 and there are no details. |
| TokenUsageSummary.TokenUsageSummaryVO.AddUsage | memory-system-spring-boot-starter/src/main/java/com/memosystem/vo/TokenUsageSummaryVO.java:29-37 | Null changes nothing. Otherwise each field is added to its total (32-bit), the call count goes up by one, and (stage, usage) is appended. Each total stays the wrapped sum of its field over the details, and the call count stays the wrapped number of details. |
| TokenUsageSummary.TokenUsageSummaryVO.GetTotalPromptTokens | memory-system-spring-boot-starter/src/main/java/com/memosystem/vo/TokenUsageSummaryVO.java:42-44 | The wrapped sum of the prompt tokens over the details, and the exact sum while it fits. |
| TokenUsageSummary.TokenUsageSummaryVO.GetTotalCompletionTokens | memory-system-spring-boot-starter/src/main/java/com/memosystem/vo/TokenUsageSummaryVO.java:49-51 | The wrapped sum of the completion tokens, and the exact sum while it fits. |
| TokenUsageSummary.TokenUsageSummaryVO.GetTotalTokens | memory-system-spring-boot-starter/src/main/java/com/memosystem/vo/TokenUsageSummaryVO.java:56-58 | The wrapped sum of the total tokens, and the exact sum while it fits. |
| TokenUsageSummary.TokenUsageSummaryVO.GetCallCount | memory-system-spring-boot-starter/src/main/java/com/memosystem/vo/TokenUsageSummaryVO.java:63-65 | The number of recorded calls, while it is below 2^31. |
| Properties.Defaults | memory-system-spring-boot-starter/src/main/java/com/memosystem/config/MemorySystemProperties.java:17-102 | Defaults: top-K 3 and 5, capacity 10, "./qdrant", "collections", "memories", "/api/conversation", and thread pool (5, 10, 60, 100). |
| Properties.CollectionsPath | memory-system-spring-boot-starter/src/main/java/com/memosystem/config/MemorySystemProperties.java:57-59 | Starts with dbPath + "/", ends with collectionsDir, and has exactly their lengths plus one. |
| Properties.MemoriesFilePath | memory-system-spring-boot-starter/src/main/java/com/memosystem/config/MemorySystemProperties.java:64-66 | Starts with the collections path + "/" and ends with collectionName + ".json". |
| Properties.MemoriesFileInCollections | memory-system-spring-boot-starter/src/main/java/com/memosystem/config/MemorySystemProperties.java:64-66 | With no '/' in the collection name, the file sits directly in the collections directory and is named after the collection. |
| Properties.DefaultMemoriesFile | memory-system-spring-boot-starter/src/main/java/com/memosystem/config/MemorySystemProperties.java:32-42 | With the defaults, the memories file is "./qdrant/collections/memories.json". |
| Text.Trim | memory-system-spring-boot-starter/src/main/java/com/memosystem/service/impl/MessageProcessServiceImpl.java:36 | `String.trim`: the result is one slice of the input, everything before and after it is at or below U+0020, and the result neither starts nor ends with such a character. |
| Text.UnpaddedIffTrimmed | memory-system-spring-boot-starter/src/main/java/com/memosystem/service/impl/MessageProcessServiceImpl.java:36 | A string is its own trim exactly when it neither starts nor ends with a character at or below U+0020. |
| Text.TrimIdempotent | memory-system-spring-boot-starter/src/main/java/com/memosystem/service/impl/MessageProcessServiceImpl.java:45 | Trimming twice is trimming once. |
| Text.BlankIffAllTrimmable | memory-system-spring-boot-starter/src/main/java/com/memosystem/service/impl/MessageProcessServiceImpl.java:36 | A text is blank exactly when every character is at or below U+0020. |
| Text.IndexOf | memory-system-spring-boot-starter/src/main/java/com/memosystem/service/impl/MessageUpdateStage.java:278 | `indexOf`: -1, or the first position where the pattern occurs, with no earlier occurrence. |
| Text.LastIndexOf | memory-system-spring-boot-starter/src/main/java/com/memosystem/service/impl/MessageUpdateStage.java:279 | `lastIndexOf`: -1 or a position holding the character, with no later one. |
| Text.ToUpper | memory-system-spring-boot-starter/src/main/java/com/memosystem/service/impl/MessageUpdateStage.java:224 | Same length; each ASCII lower-case letter becomes upper-case and every other character is kept. |
| Text.Prefix | memory-system-spring-boot-starter/src/main/java/com/memosystem/service/impl/GlobalSummaryServiceImpl.java:96-97 | The first `min(n, length)` characters. |
| Text.IntToString | memory-system-spring-boot-starter/src/main/java/com/memosystem/service/impl/GlobalSummaryServiceImpl.java:95 | A decimal numeral whose value is the number: its digits read back as `n`, with a minus sign exactly for negative numbers and no leading zero except for 0. |

## Left out

- File I/O. The store's reload before and flush after every operation
  (`loadMemoriesFromFile`, `saveMemoriesToFile`, `initializeDatabase`) is
  left out, and the in-memory map is taken as authoritative. Readers and
  writers are modelled only through the `Disk` map. A failing write
  (`UncheckedIOException`) and an `IOException` while reading are not
  modelled.
- JSON text parsing by Gson and org.json is a parameter. Gson's
  field-by-field reading of a record is modelled for the fields the code
  uses. `optString` and `optDouble` coerce other kinds of value through the
  `render` parameter.
- Concurrency is left out: the `ReadWriteLock`, the `ConcurrentHashMap`,
  `synchronized`, the `Atomic*` counters (their 32-bit wrap-around is
  modelled), the thread pool, the parallel steps of `updateSystemContext`
  and the reload-then-overwrite race of the store.
- Floating point: scores, confidences and vectors are reals.
  - The Java `float` rounding of a similarity is not modelled.
  - `Double.compare`'s ordering of NaN and -0.0 is not modelled.
  - The square root is a parameter, so `cosineSimilarity` is proved only
    for its zero-returning guards and its loop.
- LLM and embedding calls (`chat`, `chatWithUsage`, `getAIResponse`, the
  embedding service) are parameters. Neither the prompt text
  `buildDecisionPrompt` builds nor `buildGlobalSummaryUpdatePrompt` is
  modelled. Only the prompt's throw on a neighbour without a message pair
  is kept (`PromptThrows`).
- `MEMORY_ANSWER_PROMPT` and the `%.2f` formatting are parameters.
- `processSingleCandidate`, `processSingleCandidateWithUsage` and
  `buildConversationResult` are thin wrappers. `processSingleCandidateWithUsage`
  re-throws what `processCandidate` throws, which `ProcessSpec` shows as no
  usage. These wrappers are not modelled separately.
- `updateSystemContext`: only the mapping of its outcome onto a `Result`
  code is modelled. The timestamp of `Result` is left out, and so are the
  steps it runs.
- Java `int` overflow of `messageCount` and of the language counters is not
  modelled: these are unbounded integers. The token totals do wrap.
- Null user or AI texts, which throw `NullPointerException` in
  `createAndSaveTemporarySummary` and `updateGlobalSummaryWithUsage`, are
  not modelled: those texts are strings here.
- `lastAccessTime` of a session window is not modelled.
- `Entities.DecodePair` reads a null text field as "". Its only reader
  renders null and "" alike through `truncate`.
- `ShortTerm.Truncate`: the null argument is not modelled, because message
  texts are never null in the model. `truncate(null)` is "", the same as
  for "".
- `ShortTerm.Truncate` (and `Conversation.TempEntry`, which reuses it)
  counts characters as code points. Java's `length()` and `substring` count
  UTF-16 units. For text with characters outside the Basic Multilingual
  Plane (an emoji, say), the `> 200` test and the cut point differ.
  - Java can cut a surrogate pair in half. A Dafny `char` cannot hold a
    lone surrogate, so that result is not representable.
- `Text.Prefix` (the 100-character cut of `appendToSummary`) counts code
  points for the same reason, while Java counts UTF-16 units.
- `ShortTerm.SessionMemory.GetRecentMessages` and
  `ShortTerm.ShortTermMemoryService.GetRecentMessages`: Java's `size - count`
  is 32-bit. It wraps for `count <= Integer.MIN_VALUE + size`, and Java
  then returns the whole window. The model computes without wrap-around,
  so for such a count it throws `IllegalArgumentException` as for any other
  negative count.
- `Entities.LongField` leaves out three corners of Gson's reading of a
  time stamp:
  - `Long.parseLong`'s acceptance of non-ASCII decimal digits;
  - the streaming reader's fallback to `Double.parseDouble` for quoted
    text that is not an integer ("5.0");
  - `double` rounding of numbers beyond 2^53.
- `MessageProcess.CleanMessage`: `\p{C}` is modelled as the Cc, Cf and Co
  categories of Unicode 15. Unassigned code points (Cn) are not removed in
  the model. `\s` is the six ASCII whitespace characters, as in Java's
  default regex mode.
- `Text.ToUpper`: upper-casing is modelled for ASCII letters only. Java's
  `toUpperCase` also maps a few non-ASCII letters to ASCII ones (U+0131 to
  'I', U+017F to 'S'), and then a keyword can match in Java that does not
  match here.
- `LLMClient.Clamp`: a NaN confidence is not modelled. Java passes NaN
  through both comparisons.
- The configuration binding of Spring (`@ConfigurationProperties`) is left
  out. `Properties.Defaults` holds the field initialisers.
