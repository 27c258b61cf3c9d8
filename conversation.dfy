/**
 * `ConversationServiceImpl`: the helpers of the conversation service — the
 * temporary summary written before the LLM refreshes the global summary, the
 * memory context shown to the LLM, the added/updated counts, and the mapping
 * of `updateSystemContext`'s outcome onto a `Result` code. The `%.2f`
 * formatter is a parameter.
 */
module Conversation {
  import opened Wrappers
  import opened Text
  import opened Json
  import opened Entities
  import opened FileRepository
  import opened GlobalSummary
  import opened ShortTerm

  const TempMarker := "【最近交互】"
  const TempEntryHeader := "--- 临时消息对 ---\n"
  const TempTextLimit := 200

  /** The latest turn, each text cut to 200 characters plus "..." when longer. */
  function TempEntry(userMessage: string, aiResponse: string): (r: string)
    ensures Contains(r, Truncate(userMessage, TempTextLimit)) && Contains(r, Truncate(aiResponse, TempTextLimit))
  {
    var u := Truncate(userMessage, TempTextLimit);
    var a := Truncate(aiResponse, TempTextLimit);
    ContainsBoth(TempEntryHeader + "用户：", u, "\nAI：", a, "\n");
    TempEntryHeader + "用户：" + u + "\nAI：" + a + "\n"
  }

  /** The global summary followed by the marker, or by a line break when the marker is already there. */
  function Separated(globalSummary: string): (r: string)
    ensures StartsWith(r, globalSummary) && Contains(r, TempMarker)
  {
    if Contains(globalSummary, TempMarker) then
      ContainsAppend(globalSummary, "\n", TempMarker);
      ConcatAffixes(globalSummary, "\n");
      globalSummary + "\n"
    else
      ContainsMiddle(globalSummary + "\n\n", TempMarker, "\n");
      ConcatAffixes(globalSummary, "\n\n");
      StartsWithAppend(globalSummary + "\n\n", TempMarker + "\n", globalSummary);
      assert globalSummary + "\n\n" + (TempMarker + "\n") == globalSummary + "\n\n" + TempMarker + "\n";
      globalSummary + "\n\n" + TempMarker + "\n"
  }

  /**
   * `createAndSaveTemporarySummary`'s text: the current global summary, the
   * "recent interactions" marker unless it is already there (else one line
   * break), then the latest turn.
   */
  function TemporarySummary(globalSummary: string, userMessage: string, aiResponse: string): (r: string)
    ensures StartsWith(r, globalSummary) && EndsWith(r, TempEntry(userMessage, aiResponse))
    ensures Contains(r, TempMarker)
    ensures Contains(globalSummary, TempMarker) ==> r == globalSummary + "\n" + TempEntry(userMessage, aiResponse)
    ensures !Contains(globalSummary, TempMarker) ==>
              r == globalSummary + "\n\n" + TempMarker + "\n" + TempEntry(userMessage, aiResponse)
  {
    var entry := TempEntry(userMessage, aiResponse);
    var separated := Separated(globalSummary);
    StartsWithAppend(separated, entry, globalSummary);
    ConcatAffixes(separated, entry);
    ContainsAppend(separated, entry, TempMarker);
    separated + entry
  }

  /** A second temporary summary over the first adds only a line break and the new turn. */
  lemma MarkerAddedOnce(globalSummary: string, u1: string, a1: string, u2: string, a2: string)
    ensures var once := TemporarySummary(globalSummary, u1, a1);
            TemporarySummary(once, u2, a2) == once + "\n" + TempEntry(u2, a2)
  {
  }

  /** `createAndSaveTemporarySummary`: one more entry for the session in the summary log. */
  method CreateAndSaveTemporarySummary(disk: Disk, sessionId: string, userMessage: string, aiResponse: string,
                                       globalSummary: string)
    modifies disk
    ensures disk.files == Saved(old(disk.files), SummaryFile,
                                EncodeSummary(GlobalSummaryEntry(sessionId, Some(TemporarySummary(globalSummary, userMessage, aiResponse)))))
  {
    var temp := TemporarySummary(globalSummary, userMessage, aiResponse);
    Save(disk, SummaryFile, EncodeSummary(GlobalSummaryEntry(sessionId, Some(temp))));
  }

  /** Right after it is saved, the temporary summary is what `getCurrentSummary` reads for the session. */
  lemma TemporarySummaryIsCurrent(files: map<string, Option<Json>>, sessionId: string, globalSummary: string,
                                  userMessage: string, aiResponse: string)
    ensures var temp := TemporarySummary(globalSummary, userMessage, aiResponse);
            CurrentSummary(Saved(files, SummaryFile, EncodeSummary(GlobalSummaryEntry(sessionId, Some(temp)))), sessionId)
            == Success(temp)
  {
    var temp := TemporarySummary(globalSummary, userMessage, aiResponse);
    SavedEntryIsCurrent(files, GlobalSummaryEntry(sessionId, Some(temp)));
  }

  const NoMemories := "【记忆库】当前无相关历史记忆\n"
  const MemoriesHeader := "【相关历史记忆】\n"
  const QuestionLabel := "  相关问题: "

  /** The lines shown for every memory: number, score in percent, fact, category and confidence. */
  function MemoryFacts(number: int, ms: MemorySimilarity, format: real -> string): (r: string)
    ensures StartsWith(r, "记忆 " + IntToString(number) + "（相关度: " + format(ms.similarityScore * 100.0) + "%）\n  事实: ")
    ensures Contains(r, ms.candidateMemory.fact) && Contains(r, ms.candidateMemory.category)
    ensures EndsWith(r, "\n  置信度: " + format(ms.candidateMemory.confidence) + "\n")
  {
    var head := "记忆 " + IntToString(number) + "（相关度: " + format(ms.similarityScore * 100.0) + "%）\n  事实: ";
    var tail := "\n  置信度: " + format(ms.candidateMemory.confidence) + "\n";
    ContainsBoth(head, ms.candidateMemory.fact, "\n  分类: ", ms.candidateMemory.category, tail);
    head + ms.candidateMemory.fact + "\n  分类: " + ms.candidateMemory.category + tail
  }

  /** One numbered memory; the question line only when the memory has its message pair. */
  function MemoryBlock(number: int, ms: MemorySimilarity, format: real -> string): (r: string)
    ensures StartsWith(r, MemoryFacts(number, ms, format)) && EndsWith(r, "\n")
    ensures ms.messagePair.Some? ==> Contains(r, QuestionLabel + ms.messagePair.value.userMessage + "\n")
    ensures ms.messagePair.None? ==> r == MemoryFacts(number, ms, format) + "\n"
  {
    var facts := MemoryFacts(number, ms, format);
    if ms.messagePair.Some? then
      var q := QuestionLabel + ms.messagePair.value.userMessage + "\n";
      ContainsMiddle(facts, q, "\n");
      ConcatAffixes(facts, q);
      StartsWithAppend(facts + q, "\n", facts);
      ConcatAffixes(facts + q, "\n");
      facts + q + "\n"
    else
      ConcatAffixes(facts, "\n");
      facts + "\n"
  }

  /** The blocks of the first memories, numbered from 1. */
  function MemoryBlocks(sims: seq<MemorySimilarity>, format: real -> string): (r: string)
    ensures r == "" <==> sims == []
    ensures sims != [] ==> EndsWith(r, MemoryBlock(|sims|, sims[|sims| - 1], format))
  {
    if sims == [] then ""
    else
      var last := MemoryBlock(|sims|, sims[|sims| - 1], format);
      ConcatAffixes(MemoryBlocks(sims[..|sims| - 1], format), last);
      MemoryBlocks(sims[..|sims| - 1], format) + last
  }

  lemma MemoryBlocksSnoc(sims: seq<MemorySimilarity>, i: nat, format: real -> string)
    requires i < |sims|
    ensures MemoryBlocks(sims[..i + 1], format) == MemoryBlocks(sims[..i], format) + MemoryBlock(i + 1, sims[i], format)
  {
    assert sims[..i + 1][..i] == sims[..i];
  }

  /** Every memory appears as its numbered block. */
  lemma {:induction false} MemoryBlocksShowEach(sims: seq<MemorySimilarity>, i: int, format: real -> string)
    requires 0 <= i < |sims|
    ensures Contains(MemoryBlocks(sims, format), MemoryBlock(i + 1, sims[i], format))
  {
    var init := sims[..|sims| - 1];
    if i == |sims| - 1 {
      ContainsMiddle(MemoryBlocks(init, format), MemoryBlock(|sims|, sims[i], format), "");
      assert MemoryBlocks(init, format) + MemoryBlock(|sims|, sims[i], format) + "" == MemoryBlocks(sims, format);
    } else {
      MemoryBlocksShowEach(init, i, format);
      assert init[i] == sims[i];
      ContainsAppend(MemoryBlocks(init, format), MemoryBlock(|sims|, sims[|sims| - 1], format), MemoryBlock(i + 1, sims[i], format));
    }
  }

  /** `buildMemoryContext`'s text: the fixed "no memories" line, or the header and one block per memory. */
  function MemoryContext(sims: seq<MemorySimilarity>, format: real -> string): (r: string)
    ensures r == NoMemories <==> sims == []
  {
    if sims == [] then NoMemories
    else
      HeaderIsNotNoMemories(MemoryBlocks(sims, format));
      MemoriesHeader + MemoryBlocks(sims, format)
  }

  /** Whatever follows the header, the text differs from the "no memories" line. */
  lemma HeaderIsNotNoMemories(blocks: string)
    ensures MemoriesHeader + blocks != NoMemories
  {
    assert (MemoriesHeader + blocks)[1] == MemoriesHeader[1] != NoMemories[1];
  }

  /**
   * A non-empty context starts with the header and shows every memory,
   * numbered by its rank, with its question line when its turn is known.
   */
  lemma MemoryContextShowsEach(sims: seq<MemorySimilarity>, format: real -> string, i: int)
    requires 0 <= i < |sims|
    ensures StartsWith(MemoryContext(sims, format), MemoriesHeader)
    ensures Contains(MemoryContext(sims, format), MemoryBlock(i + 1, sims[i], format))
    ensures sims[i].messagePair.Some? ==>
              Contains(MemoryContext(sims, format), QuestionLabel + sims[i].messagePair.value.userMessage + "\n")
  {
    var blocks := MemoryBlocks(sims, format);
    ConcatAffixes(MemoriesHeader, blocks);
    MemoryBlocksShowEach(sims, i, format);
    var b := MemoryBlock(i + 1, sims[i], format);
    ContainsPrepend(MemoriesHeader, blocks, b);
    if sims[i].messagePair.Some? {
      ContainsTransitive(MemoriesHeader + blocks, b, QuestionLabel + sims[i].messagePair.value.userMessage + "\n");
    }
  }

  /** `buildMemoryContext`. */
  method BuildMemoryContext(sims: seq<MemorySimilarity>, format: real -> string) returns (r: string)
    ensures r == MemoryContext(sims, format)
    ensures sims == [] <==> r == NoMemories
  {
    if |sims| == 0 {
      return NoMemories;
    }
    var blocks := "";
    var i := 0;
    while i < |sims|
      invariant 0 <= i <= |sims|
      invariant blocks == MemoryBlocks(sims[..i], format)
    {
      MemoryBlocksSnoc(sims, i, format);
      blocks := blocks + MemoryBlock(i + 1, sims[i], format);
      i := i + 1;
    }
    assert sims[..i] == sims;
    r := MemoriesHeader + blocks;
  }

  /** `countAddedMemories`: at most three of the extracted memories count as new. */
  function CountAdded(extracted: seq<CandidateMemory>): (r: int)
    ensures 0 <= r <= 3 && r <= |extracted|
    ensures |extracted| <= 3 ==> r == |extracted|
    ensures |extracted| >= 3 ==> r == 3
  {
    if |extracted| < 3 then |extracted| else 3
  }

  /** `countUpdatedMemories`: the extracted memories beyond the first three. */
  function CountUpdated(extracted: seq<CandidateMemory>): (r: int)
    ensures 0 <= r
    ensures r == 0 <==> |extracted| <= 3
    ensures |extracted| > 3 ==> r == |extracted| - 3
  {
    if |extracted| > 3 then |extracted| - 3 else 0
  }

  /** Every extracted memory is counted exactly once, as added or as updated. */
  lemma CountsPartition(extracted: seq<CandidateMemory>)
    ensures CountAdded(extracted) + CountUpdated(extracted) == |extracted|
  {
  }

  const SuccessCode := 0
  const BadRequestCode := 1001
  const BusinessErrorCode := 3000

  /** `common.model.Result` without its time stamp. */
  datatype ApiResult = ApiResult(code: int, message: string, data: Option<string>)

  /**
   * `updateSystemContext`'s answer: success with code 0, an
   * `IllegalArgumentException` as a bad request (1001), anything else as a
   * business error (3000); `detail` is the exception's message.
   */
  function ContextUpdateResult(outcome: Result<(), Exception>, detail: string): (r: ApiResult)
    ensures r.code == SuccessCode <==> outcome.Success?
    ensures r.code == BadRequestCode <==> outcome == Failure(IllegalArgumentException)
    ensures r.code == BusinessErrorCode <==> outcome == Failure(OtherRuntimeException)
    ensures r.data.Some? <==> outcome.Success?
    ensures outcome.Failure? ==> EndsWith(r.message, detail)
  {
    match outcome
    case Success(_) => ApiResult(SuccessCode, "成功", Some("系统上下文已成功更新"))
    case Failure(IllegalArgumentException) =>
      ConcatAffixes("参数错误: ", detail);
      ApiResult(BadRequestCode, "参数错误: " + detail, None)
    case Failure(OtherRuntimeException) =>
      ConcatAffixes("更新系统上下文失败: ", detail);
      ApiResult(BusinessErrorCode, "更新系统上下文失败: " + detail, None)
  }
}
