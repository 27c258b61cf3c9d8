/**
 * `ConversationEnhancerServiceImpl`: the assembly of the answer prompt and
 * of the system instruction from optional context sections. The answer
 * prompt template is a parameter (its text is not modelled); a null text is
 * None.
 */
module Enhancer {
  import opened Wrappers
  import opened Text
  import opened Entities

  const GlobalHeader := "【全局上下文】\n"
  const ShortHeader := "【近期对话历史】\n"
  const MemoryHeader := "【相关记忆】\n"
  const NoMemory := "暂无相关历史记忆。\n\n"
  const QuestionHeader := "【用户问题】\n"
  const ClosingLine := "请基于以上内容，提供详细且有帮助的回答。\n"

  predicate Present(text: Option<string>) { text.Some? && text.value != [] }

  /** A section written only for a non-null, non-empty text. */
  function Section(header: string, text: Option<string>): (r: string)
    ensures !Present(text) ==> r == ""
    ensures Present(text) ==> StartsWith(r, header) && EndsWith(r, "\n\n") && Contains(r, text.value)
  {
    if Present(text) then
      ContainsMiddle(header, text.value, "\n\n");
      ConcatAffixes(header, text.value + "\n\n");
      ConcatAffixes(header + text.value, "\n\n");
      assert header + (text.value + "\n\n") == header + text.value + "\n\n";
      header + text.value + "\n\n"
    else ""
  }

  /** The memory section, always written: the memories, or the fixed "none" text. */
  function MemorySection(memoryContext: Option<string>): (r: string)
    ensures StartsWith(r, MemoryHeader) && EndsWith(r, "\n\n")
    ensures !Present(memoryContext) ==> r == MemoryHeader + NoMemory
    ensures Present(memoryContext) ==> r == Section(MemoryHeader, memoryContext)
  {
    if Present(memoryContext) then Section(MemoryHeader, memoryContext) else MemoryHeader + NoMemory
  }

  /** The question and closing line that end the answer prompt. */
  function Question(userMessage: string): (r: string)
    ensures StartsWith(r, QuestionHeader) && EndsWith(r, ClosingLine) && Contains(r, userMessage)
  {
    ContainsMiddle(QuestionHeader, userMessage, "\n" + ClosingLine);
    assert QuestionHeader + userMessage + ("\n" + ClosingLine) == QuestionHeader + userMessage + "\n" + ClosingLine;
    ConcatAffixes(QuestionHeader, userMessage + "\n" + ClosingLine);
    assert QuestionHeader + (userMessage + "\n" + ClosingLine) == QuestionHeader + userMessage + "\n" + ClosingLine;
    ConcatAffixes(QuestionHeader + userMessage + "\n", ClosingLine);
    QuestionHeader + userMessage + "\n" + ClosingLine
  }

  /**
   * `buildSystemInstruction(memoryContext, globalContext, shortMemoryContext)`:
   * the global, short-term and memory sections, in that order; only the
   * memory section is always there.
   */
  function SystemInstruction(memoryContext: Option<string>, globalContext: Option<string>,
                             shortMemoryContext: Option<string>): (r: string)
    ensures StartsWith(r, Section(GlobalHeader, globalContext))
    ensures EndsWith(r, MemorySection(memoryContext))
    ensures !Present(globalContext) && !Present(shortMemoryContext) ==> r == MemorySection(memoryContext)
    ensures !Present(globalContext) ==> r == Section(ShortHeader, shortMemoryContext) + MemorySection(memoryContext)
    ensures r == Section(GlobalHeader, globalContext) + Section(ShortHeader, shortMemoryContext) + MemorySection(memoryContext)
  {
    var g := Section(GlobalHeader, globalContext);
    var s := Section(ShortHeader, shortMemoryContext);
    var m := MemorySection(memoryContext);
    ConcatAffixes(g, s);
    StartsWithAppend(g + s, m, g);
    ConcatAffixes(g + s, m);
    g + s + m
  }

  /**
   * `buildEnhancedPrompt`: the answer prompt, the global section, the memory
   * section, then the question; the short-term context is not used. A null
   * user message throws (its length is logged first).
   */
  function EnhancedPrompt(answerPrompt: string, userMessage: Option<string>, memoryContext: Option<string>,
                          globalContext: Option<string>, shortMemoryContext: Option<string>): (r: Option<string>)
    ensures r.None? <==> userMessage.None?
    ensures r.Some? ==> StartsWith(r.value, answerPrompt + "\n") && EndsWith(r.value, ClosingLine)
  {
    if userMessage.None? then None
    else
      var head := answerPrompt + "\n" + Section(GlobalHeader, globalContext) + MemorySection(memoryContext);
      var q := Question(userMessage.value);
      var all := head + q;
      StartsWithAppend(answerPrompt + "\n" + Section(GlobalHeader, globalContext), MemorySection(memoryContext), answerPrompt + "\n");
      StartsWithAppend(answerPrompt + "\n", Section(GlobalHeader, globalContext), answerPrompt + "\n");
      ConcatAffixes(answerPrompt + "\n", []);
      assert answerPrompt + "\n" + [] == answerPrompt + "\n";
      StartsWithAppend(head, q, answerPrompt + "\n");
      EndsWithPrepend(head, q, ClosingLine);
      Some(all)
  }

  /**
   * The answer prompt is the answer template, the system instruction without
   * a short-term section, and the question.
   */
  lemma EnhancedIsInstructionAndQuestion(answerPrompt: string, userMessage: string, memoryContext: Option<string>,
                                         globalContext: Option<string>, shortMemoryContext: Option<string>)
    ensures EnhancedPrompt(answerPrompt, Some(userMessage), memoryContext, globalContext, shortMemoryContext)
         == Some(answerPrompt + "\n" + SystemInstruction(memoryContext, globalContext, None) + Question(userMessage))
  {
    var g := Section(GlobalHeader, globalContext);
    var m := MemorySection(memoryContext);
    assert SystemInstruction(memoryContext, globalContext, None) == g + "" + m;
    Regroup(answerPrompt + "\n", g, m, Question(userMessage));
  }

  lemma Regroup(a: string, b: string, c: string, d: string)
    ensures a + b + c + d == a + (b + "" + c) + d
  {
  }

  /** The short-term context has no effect on the answer prompt. */
  lemma EnhancedIgnoresShortTerm(answerPrompt: string, userMessage: Option<string>, memoryContext: Option<string>,
                                 globalContext: Option<string>, s1: Option<string>, s2: Option<string>)
    ensures EnhancedPrompt(answerPrompt, userMessage, memoryContext, globalContext, s1)
         == EnhancedPrompt(answerPrompt, userMessage, memoryContext, globalContext, s2)
  {
  }

  /** `buildSystemInstruction(parsedMessage, ...)`: the answer prompt for the parsed content. */
  function SystemInstructionFor(answerPrompt: string, parsed: ParsedMessage, memoryContext: Option<string>,
                                globalContext: Option<string>, shortMemoryContext: Option<string>): (r: Option<string>)
    ensures r == EnhancedPrompt(answerPrompt, parsed.content, memoryContext, globalContext, shortMemoryContext)
    ensures parsed.content.Some? ==>
              r == Some(answerPrompt + "\n" + SystemInstruction(memoryContext, globalContext, None) + Question(parsed.content.value))
  {
    if parsed.content.Some? then
      EnhancedIsInstructionAndQuestion(answerPrompt, parsed.content.value, memoryContext, globalContext, shortMemoryContext);
      EnhancedPrompt(answerPrompt, parsed.content, memoryContext, globalContext, shortMemoryContext)
    else
      EnhancedPrompt(answerPrompt, parsed.content, memoryContext, globalContext, shortMemoryContext)
  }
}
