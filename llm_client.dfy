/**
 * The part of `LLMClient` that turns the text of a fact-extraction reply
 * into candidate memories: fence stripping, a fixed chain of parsing
 * attempts, the per-element normalisation and a brace-counting recovery
 * scanner for truncated replies. The org.json library is a parameter: its
 * text parser and its `toString` of a non-string value.
 */
module LLMClient {
  import opened Wrappers
  import opened Text
  import opened Json
  import opened Entities

  /** org.json: parsing text (None when it throws) and rendering a value as text. */
  datatype OrgJson = OrgJson(parse: JsonParser, render: Json -> string)

  /** The two exceptions `parseMemoriesFromContent` can throw. */
  datatype ParseError = JsonParseError | IllegalArgument

  /** What every produced candidate satisfies: fact and category non-empty and their own trim (`UnpaddedIffTrimmed`), confidence in [0, 1]. */
  predicate ValidCandidate(c: CandidateMemory)
  {
    c.fact != "" && Unpadded(c.fact) &&
    c.category != "" && Unpadded(c.category) &&
    0.0 <= c.confidence <= 1.0
  }

  // ---------------------------------------------------------------------------
  // Fence stripping

  /**
   * `stripMarkdownCodeBlock`: trims, drops a leading "```" line (or just the
   * three backticks when there is no newline), drops a trailing "```", trims.
   */
  function StripMarkdownCodeBlock(content: string): (r: string)
    ensures Trim(r) == r
    ensures !StartsWith(Trim(content), "```") && !EndsWith(Trim(content), "```") ==> r == Trim(content)
  {
    var trimmed := Trim(content);
    var afterOpen :=
      if StartsWith(trimmed, "```") then
        var firstNewline := IndexOf(trimmed, "\n");
        if firstNewline > 0 then trimmed[firstNewline + 1..] else trimmed[3..]
      else trimmed;
    var afterClose := if EndsWith(afterOpen, "```") then afterOpen[..|afterOpen| - 3] else afterOpen;
    TrimIdempotent(afterClose);
    TrimIdempotent(content);
    Trim(afterClose)
  }

  /** The first line break after an opening fence is the one after its tag. */
  lemma FirstNewlineAfterTag(tag: string, rest: string)
    requires forall i :: 0 <= i < |tag| ==> tag[i] != '\n'
    ensures IndexOf("```" + tag + "\n" + rest, "\n") == 3 + |tag|
  {
    var s := "```" + tag + "\n" + rest;
    var nl := 3 + |tag|;
    assert OccursAt(s, "\n", nl);
    forall j | 0 <= j < nl ensures !OccursAt(s, "\n", j) {
      assert s[j..j + 1] == [s[j]];
      if j >= 3 {
        assert s[j] == tag[j - 3];
      } else {
        assert s[j] == '`';
      }
    }
  }

  /** The parts of a fenced block: the opening fence, and the body with the closing fence. */
  lemma FenceParts(tag: string, body: string)
    ensures var s := "```" + tag + "\n" + body + "```";
            StartsWith(s, "```") && s[|tag| + 4..] == body + "```"
  {
  }

  /** Dropping the closing fence leaves the body. */
  lemma ClosingFence(body: string)
    ensures EndsWith(body + "```", "```") && (body + "```")[..|body|] == body
  {
  }

  /** A fenced block with a one-line tag strips to its trimmed body. */
  lemma StripFencedBlock(tag: string, body: string)
    requires forall i :: 0 <= i < |tag| ==> tag[i] != '\n'
    ensures StripMarkdownCodeBlock("```" + tag + "\n" + body + "```") == Trim(body)
  {
    var s := "```" + tag + "\n" + body + "```";
    UnpaddedIsTrimmed(s);
    FenceParts(tag, body);
    assert s == "```" + tag + "\n" + (body + "```");
    FirstNewlineAfterTag(tag, body + "```");
    ClosingFence(body);
  }

  /**
   * An opening fence without a closing one: the line holding the fence and
   * its tag is dropped, and the rest is trimmed.
   */
  lemma StripOpeningFenceOnly(tag: string, body: string)
    requires forall i :: 0 <= i < |tag| ==> tag[i] != '\n'
    requires body != [] && !IsTrimmable(body[|body| - 1]) && !EndsWith(body, "```")
    ensures StripMarkdownCodeBlock("```" + tag + "\n" + body) == Trim(body)
  {
    var s := "```" + tag + "\n" + body;
    UnpaddedIsTrimmed(s);
    FirstNewlineAfterTag(tag, body);
    assert StartsWith(s, "```") && s[|tag| + 4..] == body;
  }

  /** Text with no line break does not contain one. */
  lemma NoNewline(s: string)
    requires forall i :: 0 <= i < |s| ==> s[i] != '\n'
    ensures IndexOf(s, "\n") == -1
  {
    forall j | 0 <= j && j + 1 <= |s| ensures !OccursAt(s, "\n", j) {
      assert s[j..j + 1] == [s[j]];
    }
  }

  /**
   * A one-line fenced block has no line break after its opening fence, so
   * only the three backticks are dropped there: any tag stays in the result.
   */
  lemma StripOneLineFence(body: string)
    requires forall i :: 0 <= i < |body| ==> body[i] != '\n'
    ensures StripMarkdownCodeBlock("```" + body + "```") == Trim(body)
  {
    var s := "```" + body + "```";
    UnpaddedIsTrimmed(s);
    assert forall i :: 0 <= i < |s| ==> s[i] != '\n' by {
      forall i | 0 <= i < |s| ensures s[i] != '\n' {
        if 3 <= i < 3 + |body| {
          assert s[i] == body[i - 3];
        }
      }
    }
    NoNewline(s);
    assert StartsWith(s, "```");
    assert s[3..] == body + "```";
    ClosingFence(body);
  }

  /** A closing fence without an opening one is dropped on its own. */
  lemma StripClosingFenceOnly(body: string)
    requires body != [] && !IsTrimmable(body[0])
    requires !StartsWith(body + "```", "```")
    ensures StripMarkdownCodeBlock(body + "```") == Trim(body)
  {
    UnpaddedIsTrimmed(body + "```");
    ClosingFence(body);
  }

  // ---------------------------------------------------------------------------
  // One object, one array

  function Clamp(x: real): (r: real)
    ensures 0.0 <= r <= 1.0
    ensures 0.0 <= x <= 1.0 ==> r == x
    ensures x < 0.0 ==> r == 0.0
    ensures x > 1.0 ==> r == 1.0
  {
    if x < 0.0 then 0.0 else if x > 1.0 then 1.0 else x
  }

  /** `optDouble(key, dflt)`: a number, or a string holding one; else the default. */
  function OptDouble(fields: map<string, Json>, key: string, dflt: real, o: OrgJson): real
  {
    if key !in fields then dflt
    else match fields[key]
      case JNum(v, _) => v
      case JStr(s) => (match o.parse(s) case Some(JNum(v, _)) => v case _ => dflt)
      case _ => dflt
  }

  /** `optString(key, dflt)`: the default for a missing or null value, else the value's text. */
  function OptString(fields: map<string, Json>, key: string, dflt: string, o: OrgJson): string
  {
    if key !in fields || fields[key].JNull? then dflt
    else if fields[key].JStr? then fields[key].s
    else o.render(fields[key])
  }

  lemma OtherIsTrimmed()
    ensures Trim("other") == "other"
  {
    assert TrimStart("other") == "other";
    assert TrimEnd("other") == "other";
  }

  /** The category as stored: the text of "category" (default "other"), "other" when blank, trimmed. */
  function Category(fields: map<string, Json>, o: OrgJson): (r: string)
    ensures r != "" && Unpadded(r)
    ensures "category" !in fields || fields["category"].JNull? ==> r == "other"
    ensures IsBlank(OptString(fields, "category", "other", o)) ==> r == "other"
    ensures !IsBlank(OptString(fields, "category", "other", o)) ==> r == Trim(OptString(fields, "category", "other", o))
  {
    var category := OptString(fields, "category", "other", o);
    if IsBlank(category) then
      OtherIsTrimmed();
      "other"
    else
      TrimOfNonBlank(category);
      Trim(category)
  }

  /**
   * `parseMemoryObject`: None when "fact" is missing, not a string (getString
   * throws) or blank; else fact and category trimmed, a blank category made
   * "other", the confidence (default 0.8) clamped into [0, 1].
   */
  function ParseMemoryObject(fields: map<string, Json>, o: OrgJson): (r: Option<CandidateMemory>)
    ensures r.Some? <==> "fact" in fields && fields["fact"].JStr? && !IsBlank(fields["fact"].s)
    ensures r.Some? ==> ValidCandidate(r.value) && r.value.fact == Trim(fields["fact"].s)
    ensures r.Some? && ("category" !in fields || fields["category"].JNull?) ==> r.value.category == "other"
    ensures r.Some? && "confidence" !in fields ==> r.value.confidence == 0.8
    ensures r.Some? ==> r.value.category == Category(fields, o)
    ensures r.Some? ==> r.value.confidence == Clamp(OptDouble(fields, "confidence", 0.8, o))
  {
    if "fact" !in fields || !fields["fact"].JStr? then None
    else
      var fact := fields["fact"].s;
      if IsBlank(fact) then None
      else
        TrimOfNonBlank(fact);
        Some(CandidateMemory(Trim(fact), Category(fields, o), Clamp(OptDouble(fields, "confidence", 0.8, o))))
  }

  /** A bare string element: a non-blank one becomes a fact of category "other" and confidence 0.7. */
  function StringFact(s: string): (r: seq<CandidateMemory>)
    ensures forall c :: c in r ==> ValidCandidate(c)
    ensures !IsBlank(s) <==> r == [CandidateMemory(Trim(s), "other", 0.7)]
    ensures IsBlank(s) <==> r == []
  {
    if IsBlank(s) then []
    else
      TrimOfNonBlank(s);
      OtherIsTrimmed();
      [CandidateMemory(Trim(s), "other", 0.7)]
  }

  /** One array element: an object is parsed, a non-blank string becomes an "other" fact, an array is flattened. */
  function ExtractElem(e: Json, o: OrgJson): (r: seq<CandidateMemory>)
    ensures forall c :: c in r ==> ValidCandidate(c)
    decreases e, 2, 0
  {
    match e
    case JObj(fields) =>
      (match ParseMemoryObject(fields, o) case Some(c) => [c] case None => [])
    case JStr(s) => StringFact(s)
    case JArr(ys) => Extract(ys, o)
    case _ => []
  }

  function ExtractPrefix(xs: seq<Json>, n: nat, o: OrgJson): (r: seq<CandidateMemory>)
    requires n <= |xs|
    ensures forall c :: c in r ==> ValidCandidate(c)
    decreases JArr(xs), 0, n
  {
    if n == 0 then [] else ExtractPrefix(xs, n - 1, o) + ExtractElem(xs[n - 1], o)
  }

  /** `extractMemoriesFromArray` as a value: the elements' candidates, in element order. */
  function Extract(xs: seq<Json>, o: OrgJson): (r: seq<CandidateMemory>)
    ensures forall c :: c in r ==> ValidCandidate(c)
    decreases JArr(xs), 1, 0
  {
    ExtractPrefix(xs, |xs|, o)
  }

  lemma ExtractPrefixStep(xs: seq<Json>, i: nat, o: OrgJson)
    requires i < |xs|
    ensures ExtractPrefix(xs, i + 1, o) == ExtractPrefix(xs, i, o) + ExtractElem(xs[i], o)
  {
  }

  lemma {:induction false} ExtractPrefixSame(xs: seq<Json>, zs: seq<Json>, n: nat, o: OrgJson)
    requires n <= |xs| && n <= |zs| && xs[..n] == zs[..n]
    ensures ExtractPrefix(xs, n, o) == ExtractPrefix(zs, n, o)
  {
    if n > 0 {
      assert xs[..n - 1] == xs[..n][..n - 1] && zs[..n - 1] == zs[..n][..n - 1];
      assert xs[n - 1] == xs[..n][n - 1] && zs[n - 1] == zs[..n][n - 1];
      ExtractPrefixSame(xs, zs, n - 1, o);
    }
  }

  /** One more element adds its own candidates at the end. */
  lemma ExtractSnoc(zs: seq<Json>, y: Json, o: OrgJson)
    ensures Extract(zs + [y], o) == Extract(zs, o) + ExtractElem(y, o)
  {
    var ws := zs + [y];
    assert Extract(ws, o) == ExtractPrefix(ws, |zs|, o) + ExtractElem(y, o) by {
      assert |ws| == |zs| + 1 && ws[|zs|] == y;
      ExtractPrefixStep(ws, |zs|, o);
    }
    assert ExtractPrefix(ws, |zs|, o) == Extract(zs, o) by {
      assert ws[..|zs|] == zs[..|zs|];
      ExtractPrefixSame(zs, ws, |zs|, o);
    }
  }

  /** Extraction preserves element order: it distributes over concatenation. */
  lemma {:induction false} ExtractAppend(xs: seq<Json>, ys: seq<Json>, o: OrgJson)
    ensures Extract(xs + ys, o) == Extract(xs, o) + Extract(ys, o)
  {
    if ys == [] {
      assert xs + ys == xs;
      assert Extract(xs, o) + [] == Extract(xs, o);
    } else {
      var front, y := ys[..|ys| - 1], ys[|ys| - 1];
      ExtractAppend(xs, front, o);
      assert xs + ys == (xs + front) + [y];
      assert ys == front + [y];
      ExtractSnoc(xs + front, y, o);
      ExtractSnoc(front, y, o);
      ConcatAssoc(Extract(xs, o), Extract(front, o), ExtractElem(y, o));
    }
  }

  /** The element rules, one element at a time. */
  lemma ExtractSingle(e: Json, o: OrgJson)
    ensures Extract([e], o) == ExtractElem(e, o)
    ensures e.JStr? && !IsBlank(e.s) ==> Extract([e], o) == [CandidateMemory(Trim(e.s), "other", 0.7)]
    ensures e.JArr? ==> Extract([e], o) == Extract(e.elems, o)
    ensures e.JNull? || e.JNum? || e.JBool? || (e.JStr? && IsBlank(e.s)) ==> Extract([e], o) == []
  {
    assert ExtractPrefix([e], 0, o) == [];
  }

  /**
   * `extractMemoriesFromArray`: the loop over the elements, recursing into
   * nested arrays.
   */
  method ExtractMemoriesFromArray(arr: seq<Json>, o: OrgJson) returns (list: seq<CandidateMemory>)
    ensures list == Extract(arr, o)
    decreases JArr(arr), 0
  {
    list := [];
    var i := 0;
    while i < |arr|
      invariant 0 <= i <= |arr|
      invariant list == ExtractPrefix(arr, i, o)
    {
      var got := ExtractMemoriesFromElement(arr[i], o);
      ExtractPrefixStep(arr, i, o);
      list := list + got;
      i := i + 1;
    }
  }

  lemma ObjectElement(fields: map<string, Json>, o: OrgJson)
    ensures var mem := ParseMemoryObject(fields, o);
            ExtractElem(JObj(fields), o) == if mem.Some? then [mem.value] else []
  {
  }

  /** An object element: its parsed memory, if `parseMemoryObject` yields one. */
  method ObjectMemories(fields: map<string, Json>, o: OrgJson) returns (got: seq<CandidateMemory>)
    ensures got == ExtractElem(JObj(fields), o)
  {
    got := [];
    var mem := ParseMemoryObject(fields, o);
    if mem.Some? {
      got := [mem.value];
    }
    ObjectElement(fields, o);
  }

  /** A string element: a non-blank one becomes a trimmed fact of category "other", confidence 0.7. */
  method StringMemories(fact: string) returns (got: seq<CandidateMemory>)
    ensures got == StringFact(fact)
  {
    got := [];
    if !IsBlank(fact) {
      got := [CandidateMemory(Trim(fact), "other", 0.7)];
    }
  }

  /** One pass of the loop: an object, a string, or a nested array; anything else adds nothing. */
  method ExtractMemoriesFromElement(elem: Json, o: OrgJson) returns (got: seq<CandidateMemory>)
    ensures got == ExtractElem(elem, o)
    decreases elem, 1
  {
    got := [];
    match elem {
      case JObj(fields) =>
        got := ObjectMemories(fields, o);
      case JStr(fact) =>
        got := StringMemories(fact);
      case JArr(nested) =>
        got := ExtractMemoriesFromArray(nested, o);
      case JNull =>
      case JBool(_) =>
      case JNum(_, _) =>
    }
  }

  // ---------------------------------------------------------------------------
  // Recovery of truncated replies

  /** The scanner's state: brace depth, the object being collected, the candidates so far. */
  datatype Scan = Scan(depth: int, cur: string, found: seq<CandidateMemory>)

  /** The candidate in one recovered object text, if it parses to an object with a usable fact. */
  function Recovered(text: string, o: OrgJson): (r: seq<CandidateMemory>)
    ensures |r| <= 1 && forall c :: c in r ==> ValidCandidate(c)
    ensures var v := o.parse(text);
            r == if v.Some? && v.value.JObj? && ParseMemoryObject(v.value.fields, o).Some?
                 then [ParseMemoryObject(v.value.fields, o).value] else []
  {
    match o.parse(text)
    case Some(JObj(fields)) => (match ParseMemoryObject(fields, o) case Some(c) => [c] case None => [])
    case _ => []
  }

  /**
   * One character: '{' opens (starting a fresh object at depth 0), '}'
   * closes and, back at depth 0, hands the object to the parser; other
   * characters are kept only inside an object.
   */
  function ScanChar(st: Scan, ch: char, o: OrgJson): (r: Scan)
    ensures ch == '{' ==> r == Scan(st.depth + 1, (if st.depth == 0 then "" else st.cur) + "{", st.found)
    ensures ch == '}' && st.depth == 1 ==> r == Scan(0, st.cur + "}", st.found + Recovered(st.cur + "}", o))
    ensures ch == '}' && st.depth != 1 ==> r == Scan(st.depth - 1, st.cur + "}", st.found)
    ensures ch != '{' && ch != '}' ==> r == if st.depth > 0 then st.(cur := st.cur + [ch]) else st
  {
    if ch == '{' then
      Scan(st.depth + 1, (if st.depth == 0 then "" else st.cur) + ['{'], st.found)
    else if ch == '}' then
      var cur := st.cur + ['}'];
      if st.depth - 1 == 0 then Scan(0, cur, st.found + Recovered(cur, o))
      else Scan(st.depth - 1, cur, st.found)
    else if st.depth > 0 then Scan(st.depth, st.cur + [ch], st.found)
    else st
  }

  /** The scanner after reading all of `s`. */
  function ScanAll(s: string, o: OrgJson): (r: Scan)
    ensures forall c :: c in r.found ==> ValidCandidate(c)
  {
    if s == [] then Scan(0, "", [])
    else ScanChar(ScanAll(s[..|s| - 1], o), s[|s| - 1], o)
  }

  lemma ScanAllStep(s: string, i: nat, o: OrgJson)
    requires i < |s|
    ensures ScanAll(s[..i + 1], o) == ScanChar(ScanAll(s[..i], o), s[i], o)
  {
    assert s[..i + 1][..i] == s[..i];
  }

  /** `tryParseIncompleteJson`: scan from just after the first '[' that follows "facts". */
  function TryParseIncompleteJsonSpec(text: string, o: OrgJson): (r: seq<CandidateMemory>)
    ensures forall c :: c in r ==> ValidCandidate(c)
  {
    var factsStart := IndexOf(text, "\"facts\"");
    if factsStart < 0 then []
    else
      var arrayStart := IndexOfFrom(text, "[", factsStart);
      if arrayStart < 0 then [] else ScanAll(text[arrayStart + 1..], o).found
  }

  /** The scanner only adds candidates; earlier ones are never changed. */
  lemma {:induction false} ScanFoundGrows(s: string, t: string, o: OrgJson)
    ensures ScanAll(s, o).found <= ScanAll(s + t, o).found
  {
    if t != [] {
      ScanFoundGrows(s, t[..|t| - 1], o);
      assert (s + t)[..|s + t| - 1] == s + t[..|t| - 1];
    } else {
      assert s + t == s;
    }
  }

  /** Text without a closing brace emits nothing: a trailing unclosed object is ignored. */
  lemma {:induction false} UnclosedTailIgnored(s: string, t: string, o: OrgJson)
    requires forall i :: 0 <= i < |t| ==> t[i] != '}'
    ensures ScanAll(s + t, o).found == ScanAll(s, o).found
  {
    if t != [] {
      UnclosedTailIgnored(s, t[..|t| - 1], o);
      assert (s + t)[..|s + t| - 1] == s + t[..|t| - 1];
      assert (s + t)[|s + t| - 1] == t[|t| - 1] != '}';
    } else {
      assert s + t == s;
    }
  }

  /** The scanner after reading `t`, starting from the state `st`. */
  function ScanOn(st: Scan, t: string, o: OrgJson): Scan
  {
    if t == [] then st else ScanChar(ScanOn(st, t[..|t| - 1], o), t[|t| - 1], o)
  }

  /** Scanning `s + t` is scanning `t` from where `s` left the scanner. */
  lemma {:induction false} ScanAllAppend(s: string, t: string, o: OrgJson)
    ensures ScanAll(s + t, o) == ScanOn(ScanAll(s, o), t, o)
  {
    if t == [] {
      assert s + t == s;
    } else {
      ScanAllAppend(s, t[..|t| - 1], o);
      assert (s + t)[..|s + t| - 1] == s + t[..|t| - 1];
      assert (s + t)[|s + t| - 1] == t[|t| - 1];
    }
  }

  lemma {:induction false} ScanOnAppend(st: Scan, a: string, b: string, o: OrgJson)
    ensures ScanOn(st, a + b, o) == ScanOn(ScanOn(st, a, o), b, o)
  {
    if b == [] {
      assert a + b == a;
    } else {
      ScanOnAppend(st, a, b[..|b| - 1], o);
      assert (a + b)[..|a + b| - 1] == a + b[..|b| - 1];
      assert (a + b)[|a + b| - 1] == b[|b| - 1];
    }
  }

  predicate NoBraces(t: string)
  {
    forall i :: 0 <= i < |t| ==> t[i] != '{' && t[i] != '}'
  }

  /** Outside any object, text without braces leaves the scanner as it was. */
  lemma {:induction false} IdleOutside(st: Scan, sep: string, o: OrgJson)
    requires st.depth == 0 && NoBraces(sep)
    ensures ScanOn(st, sep, o) == st
  {
    if sep != [] {
      IdleOutside(st, sep[..|sep| - 1], o);
    }
  }

  /** Inside an object, text without braces is collected as it is. */
  lemma {:induction false} CollectInside(st: Scan, body: string, o: OrgJson)
    requires st.depth > 0 && NoBraces(body)
    ensures ScanOn(st, body, o) == st.(cur := st.cur + body)
  {
    if body != [] {
      CollectInside(st, body[..|body| - 1], o);
      assert st.cur + body[..|body| - 1] + [body[|body| - 1]] == st.cur + body;
    } else {
      assert st.cur + body == st.cur;
    }
  }

  /**
   * Between objects, a separator and then an object without nested braces
   * yield that object's candidate after all the earlier ones, and leave the
   * scanner outside any object again: one candidate per closed object, in
   * the order of the text.
   */
  lemma ClosedObjectRecovered(s: string, sep: string, body: string, o: OrgJson)
    requires ScanAll(s, o).depth == 0 && NoBraces(sep) && NoBraces(body)
    ensures var obj := "{" + body + "}";
            ScanAll(s + sep + obj, o) == Scan(0, obj, ScanAll(s, o).found + Recovered(obj, o))
  {
    var st := ScanAll(s, o);
    var obj := "{" + body + "}";
    assert s + sep + obj == s + (sep + ("{" + (body + "}")));
    ScanAllAppend(s, sep + ("{" + (body + "}")), o);
    ScanOnAppend(st, sep, "{" + (body + "}"), o);
    IdleOutside(st, sep, o);
    ScanOnAppend(st, "{", body + "}", o);
    var open := ScanOn(st, "{", o);
    assert open == Scan(1, "{", st.found) by {
      assert "{"[..0] == [];
    }
    ScanOnAppend(open, body, "}", o);
    CollectInside(open, body, o);
    assert ("{" + body) + "}" == obj;
  }

  lemma OneCharOccurs(s: string, c: char, j: int)
    requires OccursAt(s, [c], j)
    ensures s[j] == c
  {
    assert s[j..j + 1][0] == s[j];
  }

  /** When no '[' follows the first "facts", there is nothing to scan. */
  lemma NoArrayAfterFacts(text: string, o: OrgJson)
    requires var f := IndexOf(text, "\"facts\"");
             f >= 0 && forall j :: f <= j < |text| ==> text[j] != '['
    ensures TryParseIncompleteJsonSpec(text, o) == []
  {
    var f := IndexOf(text, "\"facts\"");
    var a := IndexOfFrom(text, "[", f);
    if a >= 0 {
      OneCharOccurs(text, '[', a);
      assert false;
    }
  }

  /** One character of `tryParseIncompleteJson`'s loop. */
  method ScanStep(braceCount: int, currentObj: string, list: seq<CandidateMemory>, ch: char, o: OrgJson)
    returns (braceCount': int, currentObj': string, list': seq<CandidateMemory>)
    ensures Scan(braceCount', currentObj', list') == ScanChar(Scan(braceCount, currentObj, list), ch, o)
  {
    braceCount', currentObj', list' := braceCount, currentObj, list;
    if ch == '{' {
      if braceCount' == 0 {
        currentObj' := "";
      }
      braceCount' := braceCount' + 1;
      currentObj' := currentObj' + [ch];
    } else if ch == '}' {
      currentObj' := currentObj' + [ch];
      braceCount' := braceCount' - 1;
      if braceCount' == 0 {
        var mem := Recovered(currentObj', o);
        list' := list' + mem;
      }
    } else if braceCount' > 0 {
      currentObj' := currentObj' + [ch];
    }
  }

  /** `tryParseIncompleteJson`: find the first '[' after "facts", then scan the rest. */
  method TryParseIncompleteJson(text: string, o: OrgJson) returns (list: seq<CandidateMemory>)
    ensures list == TryParseIncompleteJsonSpec(text, o)
  {
    var factsStart := IndexOf(text, "\"facts\"");
    if factsStart < 0 {
      return [];
    }
    var arrayStart := IndexOfFrom(text, "[", factsStart);
    if arrayStart < 0 {
      return [];
    }
    list := ScanFrom(text, arrayStart + 1, o);
  }

  /** The scanning loop of `tryParseIncompleteJson`, over `text` from index `start` to the end. */
  method ScanFrom(text: string, start: nat, o: OrgJson) returns (list: seq<CandidateMemory>)
    requires start <= |text|
    ensures list == ScanAll(text[start..], o).found
  {
    ghost var rest := text[start..];
    var pos := start;
    var braceCount := 0;
    var currentObj := "";
    list := [];
    while pos < |text|
      invariant start <= pos <= |text|
      invariant Scan(braceCount, currentObj, list) == ScanAll(rest[..pos - start], o)
    {
      ScanAllStep(rest, pos - start, o);
      assert rest[pos - start] == text[pos];
      braceCount, currentObj, list := ScanStep(braceCount, currentObj, list, text[pos], o);
      pos := pos + 1;
    }
    assert rest[..pos - start] == rest;
  }

  // ---------------------------------------------------------------------------
  // The attempt chain

  /** `new JSONArray(text)` then extraction; None when the text is not an array. */
  function ArrayAttempt(text: string, o: OrgJson): (r: Option<seq<CandidateMemory>>)
    ensures r.Some? ==> forall c :: c in r.value ==> ValidCandidate(c)
  {
    match o.parse(text)
    case Some(JArr(xs)) => Some(Extract(xs, o))
    case _ => None
  }

  /** Reading `{ "facts": [...] }`: it throws, has no "facts", or yields the array's candidates. */
  datatype FactsRead = Threw | NoFacts | Facts(list: seq<CandidateMemory>)

  function ReadFacts(text: string, o: OrgJson): (r: FactsRead)
    ensures r.Facts? ==> forall c :: c in r.list ==> ValidCandidate(c)
  {
    match o.parse(text)
    case Some(JObj(fields)) =>
      if "facts" !in fields then NoFacts
      else if fields["facts"].JArr? then Facts(Extract(fields["facts"].elems, o))
      else Threw
    case _ => Threw
  }

  /**
   * Attempts (1) and (2) do not return: the text is not an array starting
   * with '[', nor an object starting with '{' whose "facts" is an array.
   */
  predicate DirectAttemptsFail(text: string, o: OrgJson)
  {
    !(StartsWith(text, "[") && ArrayAttempt(text, o).Some?) &&
    !(StartsWith(text, "{") && ReadFacts(text, o).Facts?)
  }

  /** The text from the first `open` through the last `close`, when the last comes after the first. */
  function Span(text: string, open: char, close: char): (r: Option<string>)
    ensures r.Some? <==> 0 <= IndexOf(text, [open]) < LastIndexOf(text, close)
    ensures r.Some? ==> r.value == text[IndexOf(text, [open])..LastIndexOf(text, close) + 1]
  {
    var first := IndexOf(text, [open]);
    var last := LastIndexOf(text, close);
    if first >= 0 && last > first then Some(text[first..last + 1]) else None
  }

  /**
   * Attempt (3): the '['..']' span read as an array; nothing when there is
   * no such span or it is not an array.
   */
  function BracketAttempt(text: string, o: OrgJson): (r: seq<CandidateMemory>)
    ensures forall c :: c in r ==> ValidCandidate(c)
    ensures r != [] ==> Span(text, '[', ']').Some?
  {
    match Span(text, '[', ']')
    case Some(jsonStr) => (match ArrayAttempt(jsonStr, o) case Some(list) => list case None => [])
    case None => []
  }

  /**
   * Attempt (4): the '{'..'}' span read as an object with "facts"; when
   * reading it throws, the recovery scanner over the same span. Nothing
   * when there is no such span or the object has no "facts".
   */
  function BraceAttempt(text: string, o: OrgJson): (r: seq<CandidateMemory>)
    ensures forall c :: c in r ==> ValidCandidate(c)
    ensures r != [] ==> Span(text, '{', '}').Some?
  {
    match Span(text, '{', '}')
    case Some(jsonStr) =>
      (match ReadFacts(jsonStr, o)
       case Facts(list) => list
       case NoFacts => []
       case Threw => TryParseIncompleteJsonSpec(jsonStr, o))
    case None => []
  }

  /**
   * The attempt chain on the trimmed, unfenced text: (1) a bare array when
   * the text starts with '[', (2) an object with "facts" when it starts
   * with '{' (both taken even when they yield nothing), then (3) and (4),
   * each taken only when it yields something. IllegalArgumentException
   * exactly when none of the four returns.
   */
  function ParseText(text: string, o: OrgJson): (r: Result<seq<CandidateMemory>, ParseError>)
    ensures r.Failure? ==> r.error == IllegalArgument
    ensures r.Success? ==> forall c :: c in r.value ==> ValidCandidate(c)
    ensures r.Success? && !StartsWith(text, "[") && !StartsWith(text, "{") ==> r.value != []
    ensures r.Failure? <==> DirectAttemptsFail(text, o) && BracketAttempt(text, o) == [] && BraceAttempt(text, o) == []
    ensures DirectAttemptsFail(text, o) && BracketAttempt(text, o) != [] ==> r == Success(BracketAttempt(text, o))
    ensures DirectAttemptsFail(text, o) && BracketAttempt(text, o) == [] && BraceAttempt(text, o) != [] ==>
              r == Success(BraceAttempt(text, o))
  {
    var first := if StartsWith(text, "[") then ArrayAttempt(text, o) else None;
    if first.Some? then Success(first.value)
    else
      var second := if StartsWith(text, "{") then ReadFacts(text, o) else NoFacts;
      if second.Facts? then Success(second.list)
      else
        var third := BracketAttempt(text, o);
        if third != [] then Success(third)
        else
          var fourth := BraceAttempt(text, o);
          if fourth != [] then Success(fourth) else Failure(IllegalArgument)
  }

  /**
   * `parseMemoriesFromContent`: null or blank content throws
   * JsonParseException; otherwise the attempt chain runs on the trimmed
   * text with any Markdown fence removed.
   */
  function ParseMemoriesFromContent(content: Option<string>, o: OrgJson): (r: Result<seq<CandidateMemory>, ParseError>)
    ensures r == Failure(JsonParseError) <==> content.None? || IsBlank(content.value)
    ensures r.Success? ==> forall c :: c in r.value ==> ValidCandidate(c)
    ensures content.Some? && !IsBlank(content.value) ==> r == ParseText(StripMarkdownCodeBlock(Trim(content.value)), o)
  {
    if content.None? || IsBlank(content.value) then Failure(JsonParseError)
    else
      var r := ParseText(StripMarkdownCodeBlock(Trim(content.value)), o);
      assert r.Failure? ==> r.error == IllegalArgument;
      r
  }

  /** A reply that is a bare JSON array is taken as it is, even when it yields nothing. */
  lemma BareArrayWins(text: string, xs: seq<Json>, o: OrgJson)
    requires StartsWith(text, "[") && o.parse(text) == Some(JArr(xs))
    ensures ParseText(text, o) == Success(Extract(xs, o))
  {
  }

  /** An object reply with a "facts" array is taken as it is, even when it yields nothing. */
  lemma FactsObjectWins(text: string, fields: map<string, Json>, o: OrgJson)
    requires StartsWith(text, "{") && o.parse(text) == Some(JObj(fields))
    requires "facts" in fields && fields["facts"].JArr?
    ensures ParseText(text, o) == Success(Extract(fields["facts"].elems, o))
  {
    assert !StartsWith(text, "[") by {
      assert text[0] == text[..1][0] == '{';
    }
  }

  /**
   * When the text itself is neither array nor "facts" object, an array
   * between the first '[' and the last ']' that yields candidates is taken.
   */
  lemma BracketSpanWins(text: string, span: string, xs: seq<Json>, o: OrgJson)
    requires DirectAttemptsFail(text, o) && Span(text, '[', ']') == Some(span)
    requires o.parse(span) == Some(JArr(xs)) && Extract(xs, o) != []
    ensures ParseText(text, o) == Success(Extract(xs, o))
  {
    assert BracketAttempt(text, o) == Extract(xs, o);
  }

  /**
   * When the first three attempts yield nothing, an object between the
   * first '{' and the last '}' whose "facts" array yields candidates is taken.
   */
  lemma BraceSpanWins(text: string, span: string, fields: map<string, Json>, o: OrgJson)
    requires DirectAttemptsFail(text, o) && BracketAttempt(text, o) == []
    requires Span(text, '{', '}') == Some(span) && o.parse(span) == Some(JObj(fields))
    requires "facts" in fields && fields["facts"].JArr? && Extract(fields["facts"].elems, o) != []
    ensures ParseText(text, o) == Success(Extract(fields["facts"].elems, o))
  {
    assert BraceAttempt(text, o) == Extract(fields["facts"].elems, o);
  }

  /**
   * When the first three attempts yield nothing and the '{'..'}' span does
   * not parse (a truncated reply), the recovery scanner over that span
   * decides: its candidates if it finds any, else IllegalArgumentException.
   */
  lemma TruncatedSpanRecovered(text: string, span: string, o: OrgJson)
    requires DirectAttemptsFail(text, o) && BracketAttempt(text, o) == []
    requires Span(text, '{', '}') == Some(span) && o.parse(span).None?
    ensures var found := TryParseIncompleteJsonSpec(span, o);
            ParseText(text, o) == if found != [] then Success(found) else Failure(IllegalArgument)
  {
    assert BraceAttempt(text, o) == TryParseIncompleteJsonSpec(span, o);
  }

  /**
   * A '{'..'}' span that parses to an object without "facts" ends the chain:
   * no recovery is tried, and the chain throws IllegalArgumentException.
   */
  lemma FactlessSpanFails(text: string, span: string, fields: map<string, Json>, o: OrgJson)
    requires DirectAttemptsFail(text, o) && BracketAttempt(text, o) == []
    requires Span(text, '{', '}') == Some(span) && o.parse(span) == Some(JObj(fields)) && "facts" !in fields
    ensures ParseText(text, o) == Failure(IllegalArgument)
  {
    assert BraceAttempt(text, o) == [];
  }

  /** Without "facts" in the text, recovery finds nothing. */
  lemma RecoveryNeedsFacts(text: string, o: OrgJson)
    requires !Contains(text, "\"facts\"")
    ensures TryParseIncompleteJsonSpec(text, o) == []
  {
  }
}
