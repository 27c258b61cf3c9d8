/**
 * `GlobalSummaryServiceImpl`: the per-session summary log
 * ("global_summary.json") and the service object's own `currentSummary` and
 * `messageCount` fields. The LLM call is a parameter: its reply, or None
 * when it throws. The prompt text it is sent is not modelled.
 */
module GlobalSummary {
  import opened Wrappers
  import opened Text
  import opened Json
  import opened Entities
  import opened FileRepository

  const SummaryFile := "global_summary.json"
  const NoSummary := "暂无全局摘要内容。"
  const HistoryMarker := "【交互历史】"

  /**
   * `getCurrentSummary`: the text of the session's newest summary entry, or
   * the placeholder when there is none or its text is null or unreadable.
   * The log scan's exception passes through.
   */
  function CurrentSummary(files: map<string, Option<Json>>, sessionId: string): (r: Result<string, Exception>)
    ensures LoadLast(files, SummaryFile, sessionId, DecodeSummaryText).Failure? <==> r.Failure?
  {
    match LoadLast(files, SummaryFile, sessionId, DecodeSummaryText)
    case Success(Some(text)) => Success(text)
    case Success(None) => Success(NoSummary)
    case Failure(e) => Failure(e)
  }

  /** After an entry is saved, it is the session's current summary. */
  lemma SavedEntryIsCurrent(files: map<string, Option<Json>>, e: GlobalSummaryEntry)
    ensures CurrentSummary(Saved(files, SummaryFile, EncodeSummary(e)), e.sessionId)
            == Success(if e.globalSummary.Some? then e.globalSummary.value else NoSummary)
  {
    SaveThenLoadSummary(files, SummaryFile, e);
  }

  /** The block `appendToSummary` adds for one turn, numbered `count + 1`, texts cut to 100 characters. */
  function TurnBlock(count: int, userMessage: string, aiResponse: string): (r: string)
    ensures StartsWith(r, "\n--- 消息 " + IntToString(count + 1) + " ---\n用户: ") && EndsWith(r, "\n")
    ensures Contains(r, Prefix(userMessage, 100)) && Contains(r, Prefix(aiResponse, 100))
  {
    var head := "\n--- 消息 " + IntToString(count + 1) + " ---\n用户: ";
    var u, a := Prefix(userMessage, 100), Prefix(aiResponse, 100);
    ContainsBoth(head, u, "\nAI: ", a, "\n");
    head + u + "\nAI: " + a + "\n"
  }

  /**
   * `appendToSummary`'s new text: the service-wide summary (null read as
   * ""), the history marker when it is not there yet, then the turn block.
   */
  function AppendedSummary(current: Option<string>, count: int, userMessage: string, aiResponse: string): (r: string)
    ensures Contains(r, HistoryMarker)
    ensures var base := if current.Some? then current.value else "";
            if Contains(base, HistoryMarker) then r == base + TurnBlock(count, userMessage, aiResponse)
            else r == base + "\n" + HistoryMarker + "\n" + TurnBlock(count, userMessage, aiResponse)
  {
    var base := if current.Some? then current.value else "";
    if Contains(base, HistoryMarker) then
      ContainsAppend(base, TurnBlock(count, userMessage, aiResponse), HistoryMarker);
      base + TurnBlock(count, userMessage, aiResponse)
    else
      var withMarker := base + "\n" + HistoryMarker + "\n";
      ContainsMiddle(base + "\n", HistoryMarker, "\n");
      ContainsAppend(withMarker, TurnBlock(count, userMessage, aiResponse), HistoryMarker);
      withMarker + TurnBlock(count, userMessage, aiResponse)
  }

  /** The marker is written at most once: appending to an appended summary adds only the turn block. */
  lemma MarkerWrittenOnce(current: Option<string>, count: int, u1: string, a1: string, u2: string, a2: string)
    ensures var once := AppendedSummary(current, count, u1, a1);
            AppendedSummary(Some(once), count + 1, u2, a2) == once + TurnBlock(count + 1, u2, a2)
  {
  }

  class GlobalSummaryService {
    var currentSummary: Option<string>
    var messageCount: int
    const disk: Disk

    constructor(disk: Disk)
      ensures currentSummary == None && messageCount == 0 && this.disk == disk
    {
      currentSummary := None;
      messageCount := 0;
      this.disk := disk;
    }

    /**
     * `getCurrentSummary`: the reverse scan of the summary log.
     */
    method GetCurrentSummary(sessionId: string) returns (r: Result<string, Exception>)
      ensures r == CurrentSummary(disk.files, sessionId)
    {
      var found := LoadLastContent(disk, sessionId, SummaryFile, DecodeSummaryText);
      match found
      case Success(Some(text)) => r := Success(text);
      case Success(None) => r := Success(NoSummary);
      case Failure(e) => r := Failure(e);
    }

    /** `appendToSummary`: the fallback that writes the turn itself. */
    method AppendToSummary(sessionId: string, userMessage: string, aiResponse: string)
      modifies this, disk
      ensures currentSummary == Some(AppendedSummary(old(currentSummary), old(messageCount), userMessage, aiResponse))
      ensures messageCount == old(messageCount) + 1
      ensures disk.files == Saved(old(disk.files), SummaryFile, EncodeSummary(GlobalSummaryEntry(sessionId, currentSummary)))
    {
      var summary := AppendedSummary(currentSummary, messageCount, userMessage, aiResponse);
      currentSummary := Some(summary);
      messageCount := messageCount + 1;
      Save(disk, SummaryFile, EncodeSummary(GlobalSummaryEntry(sessionId, currentSummary)));
    }

    /**
     * `updateGlobalSummaryWithUsage`: nothing to do for an empty turn; else
     * the session's summary is read (its exception escapes), and the LLM's
     * reply, when it comes with token counts, becomes the summary; otherwise
     * the fallback appends the turn and the usage is zero.
     */
    method UpdateGlobalSummaryWithUsage(sessionId: string, userMessage: string, aiResponse: string,
                                        reply: Option<LLMResponse>)
      returns (r: Result<TokenUsage, Exception>)
      modifies this, disk
      ensures userMessage == "" && aiResponse == "" ==>
                r == Success(ZeroUsage) && disk.files == old(disk.files) &&
                currentSummary == old(currentSummary) && messageCount == old(messageCount)
      ensures !(userMessage == "" && aiResponse == "") && CurrentSummary(old(disk.files), sessionId).Failure? ==>
                r == Failure(CurrentSummary(old(disk.files), sessionId).error) && disk.files == old(disk.files) &&
                currentSummary == old(currentSummary) && messageCount == old(messageCount)
      ensures !(userMessage == "" && aiResponse == "") && CurrentSummary(old(disk.files), sessionId).Success? ==>
                messageCount == old(messageCount) + 1 &&
                disk.files == Saved(old(disk.files), SummaryFile, EncodeSummary(GlobalSummaryEntry(sessionId, currentSummary)))
      ensures !(userMessage == "" && aiResponse == "") && CurrentSummary(old(disk.files), sessionId).Success? &&
              reply.Some? && reply.value.tokenUsage.Some? ==>
                r == Success(reply.value.tokenUsage.value) && currentSummary == reply.value.content
      ensures !(userMessage == "" && aiResponse == "") && CurrentSummary(old(disk.files), sessionId).Success? &&
              !(reply.Some? && reply.value.tokenUsage.Some?) ==>
                r == Success(ZeroUsage) &&
                currentSummary == Some(AppendedSummary(old(currentSummary), old(messageCount), userMessage, aiResponse))
    {
      if userMessage == "" && aiResponse == "" {
        return Success(ZeroUsage);
      }
      var previous := GetCurrentSummary(sessionId);
      if previous.Failure? {
        return Failure(previous.error);
      }
      if reply.Some? && reply.value.tokenUsage.Some? {
        currentSummary := reply.value.content;
        messageCount := messageCount + 1;
        Save(disk, SummaryFile, EncodeSummary(GlobalSummaryEntry(sessionId, currentSummary)));
        r := Success(reply.value.tokenUsage.value);
      } else {
        AppendToSummary(sessionId, userMessage, aiResponse);
        r := Success(ZeroUsage);
      }
    }
  }
}
