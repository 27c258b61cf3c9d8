/**
 * `TokenUsageSummaryVO`: the running token totals of one conversation
 * request. The four counters are Java `AtomicInteger`s, so every total is
 * kept modulo 2^32 in the signed 32-bit range; the `synchronized` lock is
 * not modelled.
 */
module TokenUsageSummary {
  import opened Wrappers
  import opened Entities

  const TwoTo31: int := 0x8000_0000
  const TwoTo32: int := 0x1_0000_0000

  /** Java's two's-complement `int` arithmetic: the value of `x` wrapped into [-2^31, 2^31). */
  function Wrap32(x: int): (r: int)
    ensures -TwoTo31 <= r < TwoTo31
    ensures -TwoTo31 <= x < TwoTo31 ==> r == x
    ensures (x - r) % TwoTo32 == 0
  {
    (x + TwoTo31) % TwoTo32 - TwoTo31
  }

  lemma ModShift(x: int, q: int)
    ensures (x + q * TwoTo32) % TwoTo32 == x % TwoTo32
  {
  }

  /** Adding to a wrapped total is adding to the exact total, then wrapping. */
  lemma WrapAdd(a: int, b: int)
    ensures Wrap32(Wrap32(a) + b) == Wrap32(a + b)
  {
    var q := (a + TwoTo31) / TwoTo32;
    assert a + TwoTo31 == q * TwoTo32 + (a + TwoTo31) % TwoTo32;
    ModShift((a + TwoTo31) % TwoTo32 + b, q);
    assert (Wrap32(a) + b + TwoTo31) + q * TwoTo32 == a + b + TwoTo31;
  }

  /** `TokenUsageDetailVO`: the stage that made an LLM call and the tokens it used. */
  datatype UsageDetail = UsageDetail(stage: string, usage: TokenUsage)

  /** The exact sums of the three token fields over the details, and the call count. */
  function PromptSum(details: seq<UsageDetail>): int
  {
    if details == [] then 0 else PromptSum(details[..|details| - 1]) + details[|details| - 1].usage.promptTokens
  }

  function CompletionSum(details: seq<UsageDetail>): int
  {
    if details == [] then 0 else CompletionSum(details[..|details| - 1]) + details[|details| - 1].usage.completionTokens
  }

  function TotalSum(details: seq<UsageDetail>): int
  {
    if details == [] then 0 else TotalSum(details[..|details| - 1]) + details[|details| - 1].usage.totalTokens
  }

  class TokenUsageSummaryVO {
    var totalPromptTokens: int
    var totalCompletionTokens: int
    var totalTokens: int
    var callCount: int
    var details: seq<UsageDetail>

    /** Each counter is its exact sum over the recorded details, wrapped to 32 bits. */
    ghost predicate Valid()
      reads this
    {
      callCount == Wrap32(|details|) &&
      totalPromptTokens == Wrap32(PromptSum(details)) &&
      totalCompletionTokens == Wrap32(CompletionSum(details)) &&
      totalTokens == Wrap32(TotalSum(details))
    }

    constructor()
      ensures Valid() && details == []
      ensures totalPromptTokens == 0 && totalCompletionTokens == 0 && totalTokens == 0 && callCount == 0
    {
      totalPromptTokens := 0;
      totalCompletionTokens := 0;
      totalTokens := 0;
      callCount := 0;
      details := [];
    }

    /**
     * `addUsage`: a null usage is ignored; otherwise each field is added to
     * its total, the call is counted, and the detail is appended.
     */
    method AddUsage(stage: string, usage: Option<TokenUsage>)
      requires Valid()
      modifies this
      ensures Valid()
      ensures usage.None? ==>
                details == old(details) && totalPromptTokens == old(totalPromptTokens) &&
                totalCompletionTokens == old(totalCompletionTokens) && totalTokens == old(totalTokens) &&
                callCount == old(callCount)
      ensures usage.Some? ==>
                details == old(details) + [UsageDetail(stage, usage.value)] &&
                totalPromptTokens == Wrap32(old(totalPromptTokens) + usage.value.promptTokens) &&
                totalCompletionTokens == Wrap32(old(totalCompletionTokens) + usage.value.completionTokens) &&
                totalTokens == Wrap32(old(totalTokens) + usage.value.totalTokens) &&
                callCount == Wrap32(old(callCount) + 1)
    {
      if usage.Some? {
        var u := usage.value;
        var before := details;
        WrapAdd(PromptSum(before), u.promptTokens);
        WrapAdd(CompletionSum(before), u.completionTokens);
        WrapAdd(TotalSum(before), u.totalTokens);
        WrapAdd(|before|, 1);
        totalPromptTokens := Wrap32(totalPromptTokens + u.promptTokens);
        totalCompletionTokens := Wrap32(totalCompletionTokens + u.completionTokens);
        totalTokens := Wrap32(totalTokens + u.totalTokens);
        callCount := Wrap32(callCount + 1);
        details := details + [UsageDetail(stage, u)];
        assert details[..|details| - 1] == before;
      }
    }

    /** `getTotalPromptTokens`. */
    function GetTotalPromptTokens(): (r: int)
      reads this
      requires Valid()
      ensures r == Wrap32(PromptSum(details))
      ensures 0 <= PromptSum(details) < TwoTo31 ==> r == PromptSum(details)
    {
      totalPromptTokens
    }

    /** `getTotalCompletionTokens`. */
    function GetTotalCompletionTokens(): (r: int)
      reads this
      requires Valid()
      ensures r == Wrap32(CompletionSum(details))
      ensures 0 <= CompletionSum(details) < TwoTo31 ==> r == CompletionSum(details)
    {
      totalCompletionTokens
    }

    /** `getTotalTokens`. */
    function GetTotalTokens(): (r: int)
      reads this
      requires Valid()
      ensures r == Wrap32(TotalSum(details))
      ensures 0 <= TotalSum(details) < TwoTo31 ==> r == TotalSum(details)
    {
      totalTokens
    }

    /** `getCallCount`: the number of recorded calls, while fewer than 2^31. */
    function GetCallCount(): (r: int)
      reads this
      requires Valid()
      ensures r == Wrap32(|details|)
      ensures |details| < TwoTo31 ==> r == |details|
    {
      callCount
    }
  }
}
