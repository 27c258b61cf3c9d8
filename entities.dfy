/**
 * The records of the memory system (core.memory, core.conversation,
 * core.summary, common.model.ParsedMessage, vo.TokenUsageVO) and the way Gson
 * writes them into, and reads them back from, the JSON log files.
 */
module Entities {
  import opened Wrappers
  import opened Text
  import opened Json

  const LongMin := -0x8000_0000_0000_0000
  const LongMax := 0x7FFF_FFFF_FFFF_FFFF

  /** Java's `long`. */
  type Long = x: int | LongMin <= x <= LongMax

  /** One user turn and the AI's answer to it. */
  datatype MessagePair = MessagePair(sessionId: string, userMessage: string, aiResponse: string, timestamp: Long)

  /** A fact extracted from a conversation; confidence is meant to lie in [0, 1]. */
  datatype CandidateMemory = CandidateMemory(fact: string, category: string, confidence: real)

  /** A record of the vector store. The message pair is null for records Gson read without one. */
  datatype MemoryEntry = MemoryEntry(
    id: string,
    sessionId: string,
    messagePair: Option<MessagePair>,
    embedding: seq<real>,
    candidateMemory: CandidateMemory)

  /** One search hit: the record's id, fact and turn, and its cosine score. */
  datatype MemorySimilarity = MemorySimilarity(
    memoryId: string,
    candidateMemory: CandidateMemory,
    messagePair: Option<MessagePair>,
    similarityScore: real)

  /** One version of a session's global summary; the text is null when the LLM replied without content. */
  datatype GlobalSummaryEntry = GlobalSummaryEntry(sessionId: string, globalSummary: Option<string>)

  /** A user message after cleaning; content stays null when the message was null. */
  datatype ParsedMessage = ParsedMessage(content: Option<string>, language: string, timestamp: Long, isEmpty: bool)

  /** Token counts reported for one LLM call. */
  datatype TokenUsage = TokenUsage(promptTokens: int, completionTokens: int, totalTokens: int)

  const ZeroUsage := TokenUsage(0, 0, 0)

  /** What an LLM call hands back: the reply text and the token counts, either of which may be null. */
  datatype LLMResponse = LLMResponse(content: Option<string>, tokenUsage: Option<TokenUsage>)

  /** How Gson writes a whole number: its value and its decimal lexeme. */
  function LongToJson(n: int): Json
  {
    JNum(n as real, IntToString(n))
  }

  /** `GSON.toJsonTree(pair)`. */
  function EncodePair(p: MessagePair): (j: Json)
    ensures j.JObj? && "sessionId" in j.fields && j.fields["sessionId"] == JStr(p.sessionId)
  {
    JObj(map[
      "sessionId" := JStr(p.sessionId),
      "userMessage" := JStr(p.userMessage),
      "aiResponse" := JStr(p.aiResponse),
      "timestamp" := LongToJson(p.timestamp)])
  }

  /** `GSON.toJsonTree(entry)`: Gson leaves a null field out. */
  function EncodeSummary(e: GlobalSummaryEntry): (j: Json)
    ensures j.JObj? && "sessionId" in j.fields && j.fields["sessionId"] == JStr(e.sessionId)
  {
    match e.globalSummary
    case Some(text) => JObj(map["sessionId" := JStr(e.sessionId), "globalSummary" := JStr(text)])
    case None => JObj(map["sessionId" := JStr(e.sessionId)])
  }

  /**
   * Gson's reading of a String field: None when Gson throws (an array or an
   * object), Some(None) for null or a missing field, else the text.
   */
  function StringField(fields: map<string, Json>, key: string): (r: Option<Option<string>>)
    ensures key !in fields || fields[key].JNull? ==> r == Some(None)
    ensures key in fields && fields[key].JStr? ==> r == Some(Some(fields[key].s))
    ensures key in fields && (fields[key].JNum? || fields[key].JBool?) ==> r.Some? && r.value.Some?
    ensures key in fields && (fields[key].JArr? || fields[key].JObj?) ==> r == None
  {
    if key !in fields then Some(None)
    else match fields[key]
      case JNull => Some(None)
      case JStr(s) => Some(Some(s))
      case JNum(_, lexeme) => Some(Some(lexeme))
      case JBool(b) => Some(Some(if b then "true" else "false"))
      case _ => None
  }

  /** The low 64 bits of an integer read as a signed long, as `BigDecimal.longValue` narrows. */
  function WrapLong(n: int): (r: Long)
    ensures LongMin <= n <= LongMax ==> r == n
    ensures (r - n) % 0x1_0000_0000_0000_0000 == 0
  {
    (n - LongMin) % 0x1_0000_0000_0000_0000 + LongMin
  }

  /** A number with its fraction cut off, toward zero. */
  function TruncateTowardZero(v: real): (r: int)
    ensures v >= 0.0 ==> r as real <= v < r as real + 1.0
    ensures v < 0.0 ==> r as real - 1.0 < v <= r as real
  {
    if v >= 0.0 then v.Floor else -((-v).Floor)
  }

  predicate AllDigits(s: string)
  {
    forall i :: 0 <= i < |s| ==> IsDigit(s[i])
  }

  /**
   * `Long.parseLong`: an optional '+' or '-' and then one or more decimal
   * digits, denoting a value in the range of a long; else it throws (None).
   */
  function ParseLong(s: string): (r: Option<Long>)
    ensures r.Some? ==> |s| > 0
    ensures r.Some? && IsDigit(s[0]) ==> AllDigits(s)
  {
    var signed := |s| > 0 && (s[0] == '-' || s[0] == '+');
    var digits := if signed then s[1..] else s;
    if digits == [] || !AllDigits(digits) then None
    else
      var v := if signed && s[0] == '-' then -DecimalValue(digits) else DecimalValue(digits);
      if LongMin <= v <= LongMax then Some(v) else None
  }

  /** The two ways Gson reads an object: from a parsed `JsonElement` tree, or streaming from the text. */
  datatype GsonReader = TreeReader | StreamReader

  /**
   * Gson's reading of a `long` field; None when Gson throws. A missing or
   * null value leaves 0. A string goes through `Long.parseLong`. A number
   * read from a tree is cut toward zero and narrowed to 64 bits
   * (`LazilyParsedNumber.longValue`); a streamed number must be whole and
   * within the range of a long (`JsonReader.nextLong`). Anything else throws.
   */
  function LongField(fields: map<string, Json>, key: string, reader: GsonReader): (r: Option<Long>)
    ensures key !in fields ==> r == Some(0)
    ensures key in fields && fields[key].JStr? ==> r == ParseLong(fields[key].s)
    ensures key in fields && fields[key].JNum? && reader.TreeReader? ==>
              r == Some(WrapLong(TruncateTowardZero(fields[key].value)))
    ensures key in fields && fields[key].JNum? && reader.StreamReader? ==>
              (r.Some? <==> fields[key].value.Floor as real == fields[key].value &&
                            LongMin <= fields[key].value.Floor <= LongMax) &&
              (r.Some? ==> r.value as real == fields[key].value)
    ensures key in fields && (fields[key].JBool? || fields[key].JArr? || fields[key].JObj?) ==> r == None
  {
    if key !in fields then Some(0)
    else match fields[key]
      case JNull => Some(0)
      case JStr(s) => ParseLong(s)
      case JNum(v, _) =>
        if reader.TreeReader? then Some(WrapLong(TruncateTowardZero(v)))
        else if v.Floor as real == v && LongMin <= v.Floor <= LongMax then Some(v.Floor)
        else None
      case _ => None
  }

  /**
   * `GSON.fromJson(object, MessagePair.class)`: None when Gson throws. A null
   * text field is read as "" (its only consumer, the short-term window's
   * rendering, prints null and "" alike).
   */
  function DecodePair(fields: map<string, Json>): (r: Option<MessagePair>)
    ensures r.Some? <==> StringField(fields, "sessionId").Some? && StringField(fields, "userMessage").Some? &&
                         StringField(fields, "aiResponse").Some? && LongField(fields, "timestamp", TreeReader).Some?
    ensures r.Some? ==> r.value.timestamp == LongField(fields, "timestamp", TreeReader).value
    ensures r.Some? && "sessionId" in fields && fields["sessionId"].JStr? ==> r.value.sessionId == fields["sessionId"].s
    ensures r.Some? && "userMessage" in fields && fields["userMessage"].JStr? ==> r.value.userMessage == fields["userMessage"].s
    ensures r.Some? && "aiResponse" in fields && fields["aiResponse"].JStr? ==> r.value.aiResponse == fields["aiResponse"].s
    ensures r.Some? && ("userMessage" !in fields || fields["userMessage"].JNull?) ==> r.value.userMessage == ""
  {
    match (StringField(fields, "sessionId"), StringField(fields, "userMessage"),
           StringField(fields, "aiResponse"), LongField(fields, "timestamp", TreeReader))
    case (Some(sid), Some(user), Some(ai), Some(ts)) =>
      Some(MessagePair(OrEmpty(sid), OrEmpty(user), OrEmpty(ai), ts))
    case _ => None
  }

  function OrEmpty(s: Option<string>): string
  {
    if s.Some? then s.value else ""
  }

  /**
   * `GSON.fromJson(object, GlobalSummaryEntry.class).getGlobalSummary()`:
   * None when Gson throws or when the summary is null.
   */
  function DecodeSummaryText(fields: map<string, Json>): (r: Option<string>)
    ensures StringField(fields, "sessionId").None? ==> r == None
    ensures "globalSummary" !in fields || fields["globalSummary"].JNull? ==> r == None
    ensures StringField(fields, "sessionId").Some? && "globalSummary" in fields && fields["globalSummary"].JStr? ==>
              r == Some(fields["globalSummary"].s)
  {
    match (StringField(fields, "sessionId"), StringField(fields, "globalSummary"))
    case (Some(_), Some(Some(text))) => Some(text)
    case _ => None
  }

  /** What Gson writes for a message pair it reads back unchanged. */
  lemma PairRoundTrip(p: MessagePair)
    ensures DecodePair(EncodePair(p).fields) == Some(p)
  {
    var fields := EncodePair(p).fields;
    LongReadsBack(p.timestamp);
    assert LongField(fields, "timestamp", TreeReader) == Some(p.timestamp);
    assert StringField(fields, "sessionId") == Some(Some(p.sessionId));
    assert StringField(fields, "userMessage") == Some(Some(p.userMessage));
    assert StringField(fields, "aiResponse") == Some(Some(p.aiResponse));
  }

  /** A long written as a number is read back by the tree reader as itself. */
  lemma LongReadsBack(n: Long)
    ensures WrapLong(TruncateTowardZero(n as real)) == n
  {
    assert (n as real).Floor == n;
  }

  /** The decimal text of a long reads back as that long. */
  lemma ParseLongOfString(n: Long)
    ensures ParseLong(IntToString(n)) == Some(n)
  {
    if n < 0 {
      var digits := NatToString(-(n as int));
      assert IntToString(n) == "-" + digits;
      assert ("-" + digits)[1..] == digits;
      assert AllDigits(digits);
      assert -DecimalValue(digits) == n;
    } else {
      var digits := NatToString(n);
      assert IntToString(n) == digits;
      assert AllDigits(digits);
      assert IsDigit(digits[0]);
    }
  }

  /**
   * A timestamp written as a quoted number, or as a number with a fraction,
   * is read by the tree reader all the same: the first as its value, the
   * second cut toward zero.
   */
  lemma TreeReaderReadsQuotedAndFractional(n: Long, f: real)
    requires 0.0 <= f < 1.0 && n >= 0
    ensures LongField(map["timestamp" := JStr(IntToString(n))], "timestamp", TreeReader) == Some(n)
    ensures LongField(map["timestamp" := JNum(n as real + f, "")], "timestamp", TreeReader) == Some(n)
  {
    ParseLongOfString(n);
    assert TruncateTowardZero(n as real + f) == n;
  }

  /** What Gson writes for a summary entry it reads back unchanged. */
  lemma SummaryRoundTrip(e: GlobalSummaryEntry)
    ensures DecodeSummaryText(EncodeSummary(e).fields) == e.globalSummary
  {
  }
}
