/**
 * `MessageProcessServiceImpl`: the emptiness test, the cleaning of a user
 * message, the character-count language guess and the `ParsedMessage` they
 * make up. The clock reading is a parameter.
 */
module MessageProcess {
  import opened Wrappers
  import opened Text
  import opened Entities

  // ---------------------------------------------------------------------------
  // isEmptyMessage

  /** `isEmptyMessage`: null, or nothing left after `trim`. */
  predicate IsEmptyMessage(message: Option<string>)
    ensures IsEmptyMessage(message) <==> message.None? || AllTrimmable(message.value)
    ensures message.Some? && message.value == [] ==> IsEmptyMessage(message)
  {
    if message.None? then true
    else BlankIffAllTrimmable(message.value); IsBlank(message.value)
  }

  // ---------------------------------------------------------------------------
  // cleanMessage

  /** The characters of the regex class `\s`: space, tab, line feed, vertical tab, form feed, carriage return. */
  predicate IsRegexSpace(c: char)
  {
    c == ' ' || c == '\t' || c == '\n' || c == '\U{0B}' || c == '\U{0C}' || c == '\r'
  }

  /** General category Cc. */
  predicate IsControl(c: char)
  {
    c <= '\U{1F}' || ('\U{7F}' <= c <= '\U{9F}')
  }

  /** General category Cf, as Unicode 15 assigns it. */
  predicate IsFormat(c: char)
  {
    c == '\U{AD}' || ('\U{600}' <= c <= '\U{605}') || c == '\U{61C}' || c == '\U{6DD}' || c == '\U{70F}' ||
    ('\U{890}' <= c <= '\U{891}') || c == '\U{8E2}' || c == '\U{180E}' ||
    ('\U{200B}' <= c <= '\U{200F}') || ('\U{202A}' <= c <= '\U{202E}') ||
    ('\U{2060}' <= c <= '\U{2064}') || ('\U{2066}' <= c <= '\U{206F}') || c == '\U{FEFF}' ||
    ('\U{FFF9}' <= c <= '\U{FFFB}') || c == '\U{110BD}' || c == '\U{110CD}' ||
    ('\U{13430}' <= c <= '\U{1343F}') || ('\U{1BCA0}' <= c <= '\U{1BCA3}') ||
    ('\U{1D173}' <= c <= '\U{1D17A}') || c == '\U{E0001}' || ('\U{E0020}' <= c <= '\U{E007F}')
  }

  /** General category Co. */
  predicate IsPrivateUse(c: char)
  {
    ('\U{E000}' <= c <= '\U{F8FF}') || ('\U{F0000}' <= c <= '\U{FFFFD}') || ('\U{100000}' <= c <= '\U{10FFFD}')
  }

  /** The regex class `\p{C}` on characters (code points): Cc, Cf and Co. */
  predicate IsOtherChar(c: char)
  {
    IsControl(c) || IsFormat(c) || IsPrivateUse(c)
  }

  lemma RegexSpacesAreTrimmable(c: char)
    ensures IsRegexSpace(c) ==> IsTrimmable(c)
  {
  }

  /** The characters of `s` outside `\s`, in order: what whitespace handling must keep. */
  function NonSpace(s: string): string
  {
    if s == [] then [] else (if IsRegexSpace(s[0]) then [] else [s[0]]) + NonSpace(s[1..])
  }

  lemma {:induction false} NonSpaceAppend(a: string, b: string)
    ensures NonSpace(a + b) == NonSpace(a) + NonSpace(b)
    decreases |a|
  {
    if a != [] {
      var h := if IsRegexSpace(a[0]) then [] else [a[0]];
      NonSpaceAppend(a[1..], b);
      assert (a + b)[1..] == a[1..] + b;
      assert NonSpace(a + b) == h + (NonSpace(a[1..]) + NonSpace(b));
      ConcatAssoc(h, NonSpace(a[1..]), NonSpace(b));
    } else {
      assert a + b == b;
    }
  }

  /** The text after a leading run of `\s` characters. */
  function DropSpaces(s: string): (r: string)
    ensures |r| <= |s| && r == s[|s| - |r|..]
    ensures r == [] || !IsRegexSpace(r[0])
  {
    if s != [] && IsRegexSpace(s[0]) then DropSpaces(s[1..]) else s
  }

  /** Dropping leading whitespace loses nothing else. */
  lemma {:induction false} DropSpacesKeepsNonSpace(s: string)
    ensures NonSpace(DropSpaces(s)) == NonSpace(s)
    decreases |s|
  {
    if s != [] && IsRegexSpace(s[0]) {
      DropSpacesKeepsNonSpace(s[1..]);
    }
  }

  /** `replaceAll("\\s+", " ")`: every maximal run of `\s` becomes one space. */
  function CollapseSpaces(s: string): (r: string)
    ensures |r| <= |s|
    ensures r != [] ==> s != [] && (r[0] == ' ' <==> IsRegexSpace(s[0]))
    ensures forall i :: 0 <= i < |r| ==> !IsRegexSpace(r[i]) || r[i] == ' '
    ensures NonSpace(r) == NonSpace(s)
    decreases |s|
  {
    if s == [] then []
    else if IsRegexSpace(s[0]) then
      var rest := CollapseSpaces(DropSpaces(s[1..]));
      DropSpacesKeepsNonSpace(s[1..]);
      assert (" " + rest)[1..] == rest;
      " " + rest
    else
      var rest := CollapseSpaces(s[1..]);
      assert ([s[0]] + rest)[1..] == rest;
      [s[0]] + rest
  }

  /** No two spaces side by side. */
  predicate NoDoubleSpace(r: string)
  {
    forall i :: 0 <= i < |r| - 1 ==> !(r[i] == ' ' && r[i + 1] == ' ')
  }

  lemma ConsNoDoubleSpace(h: char, c: string)
    requires NoDoubleSpace(c)
    requires h != ' ' || c == [] || c[0] != ' '
    ensures NoDoubleSpace([h] + c)
  {
    var r := [h] + c;
    forall i | 0 <= i < |r| - 1 ensures !(r[i] == ' ' && r[i + 1] == ' ') {
      if i > 0 {
        assert r[i] == c[i - 1] && r[i + 1] == c[i];
      }
    }
  }

  /** After collapsing, no two spaces are adjacent. */
  lemma {:induction false} CollapseLeavesNoDoubleSpace(s: string)
    ensures NoDoubleSpace(CollapseSpaces(s))
    decreases |s|
  {
    if s != [] {
      if IsRegexSpace(s[0]) {
        var t := DropSpaces(s[1..]);
        CollapseLeavesNoDoubleSpace(t);
        ConsNoDoubleSpace(' ', CollapseSpaces(t));
        assert CollapseSpaces(s) == [' '] + CollapseSpaces(t);
      } else {
        CollapseLeavesNoDoubleSpace(s[1..]);
        ConsNoDoubleSpace(s[0], CollapseSpaces(s[1..]));
      }
    }
  }

  /** Every character of `s` is in `\s`. */
  predicate AllRegexSpace(s: string)
  {
    forall i :: 0 <= i < |s| ==> IsRegexSpace(s[i])
  }

  /** A run of whitespace before text that starts outside `\s` is dropped entirely. */
  lemma {:induction false} DropSpacesRun(ws: string, y: string)
    requires AllRegexSpace(ws) && (y == [] || !IsRegexSpace(y[0]))
    ensures DropSpaces(ws + y) == y
    decreases |ws|
  {
    if ws == [] {
      assert ws + y == y;
    } else {
      assert (ws + y)[0] == ws[0] && (ws + y)[1..] == ws[1..] + y;
      DropSpacesRun(ws[1..], y);
    }
  }

  /** Leading whitespace of text that ends outside `\s` stops inside it. */
  lemma {:induction false} DropSpacesStops(a: string, t: string)
    requires a != [] && !IsRegexSpace(a[|a| - 1])
    ensures DropSpaces(a + t) == DropSpaces(a) + t
    ensures DropSpaces(a) != [] && DropSpaces(a)[|DropSpaces(a)| - 1] == a[|a| - 1]
    decreases |a|
  {
    if IsRegexSpace(a[0]) {
      assert (a + t)[0] == a[0] && (a + t)[1..] == a[1..] + t;
      DropSpacesStops(a[1..], t);
    }
  }

  /** Text without `\s` is left as it is. */
  lemma {:induction false} CollapseKeepsWords(x: string)
    requires forall i :: 0 <= i < |x| ==> !IsRegexSpace(x[i])
    ensures CollapseSpaces(x) == x
    decreases |x|
  {
    if x != [] {
      CollapseKeepsWords(x[1..]);
      assert x == [x[0]] + x[1..];
    }
  }

  /**
   * A maximal run of whitespace (the text before it ends, and the text
   * after it starts, outside `\s`) becomes exactly one space, and the two
   * sides are collapsed on their own.
   */
  lemma {:induction false} CollapseRun(x: string, ws: string, y: string)
    requires ws != [] && AllRegexSpace(ws)
    requires x == [] || !IsRegexSpace(x[|x| - 1])
    requires y == [] || !IsRegexSpace(y[0])
    ensures CollapseSpaces(x + ws + y) == CollapseSpaces(x) + " " + CollapseSpaces(y)
    decreases |x|, 1
  {
    if x == [] {
      LeadingRun(ws, y);
      EmptyJoin(x, ws, y);
      assert CollapseSpaces(x) == [];
      EmptyJoin(CollapseSpaces(x), " ", CollapseSpaces(y));
    } else if IsRegexSpace(x[0]) {
      CollapseRunAfterSpace(x, ws, y);
    } else {
      CollapseRunAfterWord(x, ws, y);
    }
  }

  lemma {:induction false} CollapseRunAfterSpace(x: string, ws: string, y: string)
    requires ws != [] && AllRegexSpace(ws)
    requires x != [] && IsRegexSpace(x[0]) && !IsRegexSpace(x[|x| - 1])
    requires y == [] || !IsRegexSpace(y[0])
    ensures CollapseSpaces(x + ws + y) == CollapseSpaces(x) + " " + CollapseSpaces(y)
    decreases |x|, 0
  {
    var x' := DropSpaces(x[1..]);
    SkipLeadingRun(x, ws + y);
    ConcatAssoc(x, ws, y);
    ConcatAssoc(x', ws, y);
    CollapseRun(x', ws, y);
    Regroup(" ", CollapseSpaces(x'), " ", CollapseSpaces(y));
  }

  /**
   * A text that starts with whitespace and ends outside it collapses its
   * leading run to one space and carries on from the first character after
   * the run, whatever follows the text.
   */
  lemma SkipLeadingRun(x: string, t: string)
    requires x != [] && IsRegexSpace(x[0]) && !IsRegexSpace(x[|x| - 1])
    ensures var x' := DropSpaces(x[1..]);
            x' != [] && |x'| < |x| && !IsRegexSpace(x'[|x'| - 1]) &&
            CollapseSpaces(x + t) == " " + CollapseSpaces(x' + t) &&
            CollapseSpaces(x) == " " + CollapseSpaces(x')
  {
    SpaceLed(x, t);
    DropSpacesStops(x[1..], t);
  }

  lemma {:induction false} CollapseRunAfterWord(x: string, ws: string, y: string)
    requires ws != [] && AllRegexSpace(ws)
    requires x != [] && !IsRegexSpace(x[0]) && !IsRegexSpace(x[|x| - 1])
    requires y == [] || !IsRegexSpace(y[0])
    ensures CollapseSpaces(x + ws + y) == CollapseSpaces(x) + " " + CollapseSpaces(y)
    decreases |x|, 0
  {
    var t := ws + y;
    CollapseRun(x[1..], ws, y);
    ConcatAssoc(x, ws, y);
    ConcatAssoc(x[1..], ws, y);
    HeadTail(x, t);
    WordLed(x[0], x[1..] + t);
    WordLed(x[0], x[1..]);
    Regroup([x[0]], CollapseSpaces(x[1..]), " ", CollapseSpaces(y));
  }

  lemma Regroup<T>(a: seq<T>, b: seq<T>, c: seq<T>, d: seq<T>)
    ensures a + (b + c + d) == a + b + c + d
  {
  }

  lemma HeadTail<T>(x: seq<T>, t: seq<T>)
    requires x != []
    ensures x == [x[0]] + x[1..] && x + t == [x[0]] + (x[1..] + t)
  {
  }

  lemma EmptyJoin<T>(e: seq<T>, a: seq<T>, b: seq<T>)
    requires e == []
    ensures e + a + b == a + b
  {
  }

  /** A text that starts with whitespace collapses it to one space and goes on after the run. */
  lemma SpaceLed(x: string, t: string)
    requires x != [] && IsRegexSpace(x[0])
    ensures CollapseSpaces(x + t) == " " + CollapseSpaces(DropSpaces(x[1..] + t))
  {
    assert (x + t)[0] == x[0] && (x + t)[1..] == x[1..] + t;
  }

  /** A text that starts outside `\s` keeps its first character. */
  lemma WordLed(c: char, t: string)
    requires !IsRegexSpace(c)
    ensures CollapseSpaces([c] + t) == [c] + CollapseSpaces(t)
  {
    assert ([c] + t)[0] == c && ([c] + t)[1..] == t;
  }

  /** A leading run becomes one space. */
  lemma LeadingRun(ws: string, y: string)
    requires ws != [] && AllRegexSpace(ws)
    requires y == [] || !IsRegexSpace(y[0])
    ensures CollapseSpaces(ws + y) == " " + CollapseSpaces(y)
  {
    SpaceLed(ws, y);
    DropSpacesRun(ws[1..], y);
  }

  /** `replaceAll("[\\p{C}]", "")`. */
  function RemoveOther(s: string): (r: string)
    ensures |r| <= |s|
  {
    if s == [] then []
    else (if IsOtherChar(s[0]) then [] else [s[0]]) + RemoveOther(s[1..])
  }

  /** Removal works character by character, so the kept characters stay in their order. */
  lemma {:induction false} RemoveOtherAppend(a: string, b: string)
    ensures RemoveOther(a + b) == RemoveOther(a) + RemoveOther(b)
    decreases |a|
  {
    if a != [] {
      var h := if IsOtherChar(a[0]) then [] else [a[0]];
      RemoveOtherAppend(a[1..], b);
      assert (a + b)[1..] == a[1..] + b;
      assert RemoveOther(a + b) == h + (RemoveOther(a[1..]) + RemoveOther(b));
      ConcatAssoc(h, RemoveOther(a[1..]), RemoveOther(b));
    } else {
      assert a + b == b;
    }
  }

  /** Text with no `\p{C}` character is left as it is. */
  lemma {:induction false} RemoveOtherKeepsPlain(s: string)
    requires forall i :: 0 <= i < |s| ==> !IsOtherChar(s[i])
    ensures RemoveOther(s) == s
    decreases |s|
  {
    if s != [] {
      RemoveOtherKeepsPlain(s[1..]);
      assert s == [s[0]] + s[1..];
    }
  }

  /** Removing `\p{C}` and dropping whitespace can be done in either order. */
  lemma {:induction false} FiltersCommute(s: string)
    ensures NonSpace(RemoveOther(s)) == RemoveOther(NonSpace(s))
    decreases |s|
  {
    if s != [] {
      FiltersCommute(s[1..]);
      var h := if IsOtherChar(s[0]) then [] else [s[0]];
      var k := if IsRegexSpace(s[0]) then [] else [s[0]];
      NonSpaceAppend(h, RemoveOther(s[1..]));
      RemoveOtherAppend(k, NonSpace(s[1..]));
      if h != [] {
        assert NonSpace(h) == k by { assert h[1..] == []; }
      }
      if k != [] {
        assert RemoveOther(k) == h by { assert k[1..] == []; }
      }
    }
  }

  /** Characters `trim` removes are whitespace or `\p{C}`: they carry no content. */
  lemma {:induction false} TrimmableHasNoContent(s: string)
    requires AllTrimmable(s)
    ensures NonSpace(RemoveOther(s)) == []
    decreases |s|
  {
    if s != [] {
      assert IsTrimmable(s[0]);
      assert AllTrimmable(s[1..]) by {
        forall i | 0 <= i < |s[1..]| ensures IsTrimmable(s[1..][i]) {
          assert s[1..][i] == s[i + 1];
        }
      }
      TrimmableHasNoContent(s[1..]);
      var h := if IsOtherChar(s[0]) then [] else [s[0]];
      NonSpaceAppend(h, RemoveOther(s[1..]));
      if h != [] {
        assert NonSpace(h) == [] by { assert h[1..] == []; }
      }
    }
  }

  /** Trimmable padding on either side of a text adds no content to it. */
  lemma PaddingHasNoContent(pre: string, t: string, post: string)
    requires AllTrimmable(pre) && AllTrimmable(post)
    ensures NonSpace(RemoveOther(pre + t + post)) == NonSpace(RemoveOther(t))
  {
    var rp, rt, rq := RemoveOther(pre), RemoveOther(t), RemoveOther(post);
    RemoveOtherAppend(pre + t, post);
    RemoveOtherAppend(pre, t);
    NonSpaceAppend(rp + rt, rq);
    NonSpaceAppend(rp, rt);
    TrimmableHasNoContent(pre);
    TrimmableHasNoContent(post);
  }

  /** Trimming loses no content. */
  lemma TrimKeepsContent(m: string)
    ensures NonSpace(RemoveOther(Trim(m))) == NonSpace(RemoveOther(m))
  {
    var t := Trim(m);
    var k := |m| - |TrimStart(m)|;
    SplitThree(m, k, k + |t|);
    PaddingHasNoContent(m[..k], t, m[k + |t|..]);
  }

  /**
   * The content of a message, its characters outside `\s` and `\p{C}` in
   * order, is the same before and after trimming, collapsing whitespace
   * and removing `\p{C}`.
   */
  lemma CleaningKeepsContent(m: string)
    ensures NonSpace(RemoveOther(CollapseSpaces(Trim(m)))) == NonSpace(RemoveOther(m))
  {
    var t := Trim(m);
    TrimKeepsContent(m);
    var c := CollapseSpaces(t);
    FiltersCommute(c);
    FiltersCommute(t);
  }

  /** The characters kept are exactly those of the text outside `\p{C}`. */
  lemma {:induction false} RemoveOtherChars(s: string)
    ensures forall c :: c in RemoveOther(s) <==> c in s && !IsOtherChar(c)
  {
    if s != [] {
      RemoveOtherChars(s[1..]);
      assert s == [s[0]] + s[1..];
    }
  }

  /** `cleanMessage`: "" for null; else trimmed, whitespace runs collapsed, `\p{C}` removed. */
  function CleanMessage(message: Option<string>): (r: string)
    ensures message.None? ==> r == ""
    ensures message.Some? ==> |r| <= |Trim(message.value)| <= |message.value|
    ensures forall c :: c in r ==> !IsOtherChar(c) && (IsRegexSpace(c) ==> c == ' ')
    ensures forall c :: c in r ==> message.Some? && (c in message.value || c == ' ')
    ensures message.Some? ==> NonSpace(r) == NonSpace(RemoveOther(message.value))
  {
    if message.None? then ""
    else
      var collapsed := CollapseSpaces(Trim(message.value));
      CleaningKeepsContent(message.value);
      CollapsedChars(Trim(message.value));
      RemoveOtherChars(collapsed);
      RemoveOther(collapsed)
  }

  /** Text without `\s` and `\p{C}` characters: ordinary words. */
  predicate IsWord(x: string)
  {
    x != [] && forall i :: 0 <= i < |x| ==> !IsRegexSpace(x[i]) && !IsOtherChar(x[i])
  }

  /** Two words with any run of whitespace between them clean to the words joined by one space. */
  lemma CleanJoinsWordsWithOneSpace(x: string, ws: string, y: string)
    requires IsWord(x) && IsWord(y) && ws != [] && AllRegexSpace(ws)
    ensures CleanMessage(Some(x + ws + y)) == x + " " + y
  {
    var m := x + ws + y;
    assert m[0] == x[0] && m[|m| - 1] == y[|y| - 1];
    UnpaddedIsTrimmed(m);
    CollapseRun(x, ws, y);
    CollapseKeepsWords(x);
    CollapseKeepsWords(y);
    RemoveOtherKeepsJoin(x, y);
  }

  lemma RemoveOtherKeepsJoin(x: string, y: string)
    requires IsWord(x) && IsWord(y)
    ensures RemoveOther(x + " " + y) == x + " " + y
  {
    RemoveOtherAppend(x + " ", y);
    RemoveOtherAppend(x, " ");
    RemoveOtherKeepsPlain(x);
    RemoveOtherKeepsPlain(y);
    assert RemoveOther(" ") == " " by {
      assert " "[1..] == [];
    }
  }

  /** Collapsing keeps the characters of the text and adds only spaces. */
  lemma {:induction false} CollapsedChars(s: string)
    ensures forall c :: c in CollapseSpaces(s) ==> c in s || c == ' '
    decreases |s|
  {
    if s != [] {
      if IsRegexSpace(s[0]) {
        var t := DropSpaces(s[1..]);
        CollapsedChars(t);
        assert forall c :: c in t ==> c in s;
      } else {
        CollapsedChars(s[1..]);
        assert forall c :: c in s[1..] ==> c in s;
      }
    }
  }

  /** Single spaces between characters outside `\s` stay as they are. */
  lemma LoneSpacesKept(a: char, c: char, b: char)
    requires !IsRegexSpace(a) && !IsRegexSpace(c) && !IsRegexSpace(b)
    ensures CollapseSpaces([a, ' ', c, ' ', b]) == [a, ' ', c, ' ', b]
  {
    var y := [c, ' ', b];
    assert [c] + [' '] + [b] == y;
    assert [a] + [' '] + y == [a, ' ', c, ' ', b];
    CollapseKeepsWords([a]);
    CollapseKeepsWords([c]);
    CollapseKeepsWords([b]);
    CollapseRun([c], [' '], [b]);
    CollapseRun([a], [' '], y);
  }

  lemma CollapseKeepsLoneSpaces()
    ensures CollapseSpaces(['a', ' ', '\U{01}', ' ', 'b']) == ['a', ' ', '\U{01}', ' ', 'b']
  {
    LoneSpacesKept('a', '\U{01}', 'b');
  }

  lemma RemoveOtherCons(c: char, t: string)
    ensures RemoveOther([c] + t) == (if IsOtherChar(c) then [] else [c]) + RemoveOther(t)
  {
    assert ([c] + t)[1..] == t;
  }

  lemma RemovalJoinsSpaces()
    ensures RemoveOther(['a', ' ', '\U{01}', ' ', 'b']) == ['a', ' ', ' ', 'b']
  {
    RemoveOtherCons('b', []);
    RemoveOtherCons(' ', ['b']);
    RemoveOtherCons('\U{01}', [' ', 'b']);
    RemoveOtherCons(' ', ['\U{01}', ' ', 'b']);
    RemoveOtherCons('a', [' ', '\U{01}', ' ', 'b']);
  }

  /** Two spaces in a row become one. */
  lemma DoubleSpaceCollapsed(a: char, b: char)
    requires !IsRegexSpace(a) && !IsRegexSpace(b)
    ensures CollapseSpaces([a, ' ', ' ', b]) == [a, ' ', b]
  {
    assert [a] + [' ', ' '] + [b] == [a, ' ', ' ', b];
    CollapseKeepsWords([a]);
    CollapseKeepsWords([b]);
    CollapseRun([a], [' ', ' '], [b]);
  }

  lemma CollapseJoinsSpaces()
    ensures CollapseSpaces(['a', ' ', ' ', 'b']) == ['a', ' ', 'b']
  {
    DoubleSpaceCollapsed('a', 'b');
  }

  /**
   * Removing `\p{C}` after collapsing can leave two spaces side by side, so
   * cleaning twice is not cleaning once.
   */
  lemma CleaningIsNotIdempotent()
    ensures var once := CleanMessage(Some(['a', ' ', '\U{01}', ' ', 'b']));
            once == ['a', ' ', ' ', 'b'] && CleanMessage(Some(once)) == ['a', ' ', 'b'] != once
  {
    FirstCleaning();
    SecondCleaning();
  }

  lemma FirstCleaning()
    ensures CleanMessage(Some(['a', ' ', '\U{01}', ' ', 'b'])) == ['a', ' ', ' ', 'b']
  {
    UnpaddedIsTrimmed(['a', ' ', '\U{01}', ' ', 'b']);
    CollapseKeepsLoneSpaces();
    RemovalJoinsSpaces();
  }

  lemma SecondCleaning()
    ensures CleanMessage(Some(['a', ' ', ' ', 'b'])) == ['a', ' ', 'b']
  {
    UnpaddedIsTrimmed(['a', ' ', ' ', 'b']);
    CollapseJoinsSpaces();
    RemovalKeepsPlainText();
  }

  lemma RemovalKeepsPlainText()
    ensures RemoveOther(['a', ' ', 'b']) == ['a', ' ', 'b']
  {
    RemoveOtherCons('b', []);
    RemoveOtherCons(' ', ['b']);
    RemoveOtherCons('a', [' ', 'b']);
  }

  /** A message that is not empty can still clean to nothing: `trim` keeps U+0085, `\p{C}` removes it. */
  lemma NonEmptyCanCleanToNothing()
    ensures !IsEmptyMessage(Some("\U{85}")) && CleanMessage(Some("\U{85}")) == ""
  {
    UnpaddedIsTrimmed("\U{85}");
    assert CleanMessage(Some("\U{85}")) == RemoveOther(CollapseSpaces(Trim("\U{85}")));
    assert CollapseSpaces("\U{85}") == "\U{85}" by {
      assert "\U{85}"[1..] == [];
    }
    assert RemoveOther("\U{85}") == "" by {
      assert "\U{85}"[1..] == [];
    }
  }

  // ---------------------------------------------------------------------------
  // detectLanguage

  /** The CJK unified ideographs U+4E00..U+9FA5. */
  predicate IsChinese(c: char) { '\U{4E00}' <= c <= '\U{9FA5}' }

  /** The ASCII letters. */
  predicate IsEnglish(c: char) { ('a' <= c <= 'z') || ('A' <= c <= 'Z') }

  function CountChinese(s: string): (n: nat)
    ensures n <= |s|
  {
    if s == [] then 0 else CountChinese(s[..|s| - 1]) + (if IsChinese(s[|s| - 1]) then 1 else 0)
  }

  function CountEnglish(s: string): (n: nat)
    ensures n <= |s|
  {
    if s == [] then 0 else CountEnglish(s[..|s| - 1]) + (if IsEnglish(s[|s| - 1]) then 1 else 0)
  }

  /** The verdict on the two counts: a side wins when it has more than twice the other's count. */
  function Verdict(chinese: nat, english: nat): (r: string)
    ensures r == "zh-CN" || r == "en-US" || r == "mixed"
    ensures r == "zh-CN" <==> chinese > 2 * english
    ensures r == "en-US" <==> english > 2 * chinese
  {
    if chinese > english * 2 then "zh-CN"
    else if english > chinese * 2 then "en-US"
    else "mixed"
  }

  /** `detectLanguage`: "unknown" for null or empty, else the verdict on the text's counts. */
  function Language(message: Option<string>): (r: string)
    ensures r == "unknown" <==> message.None? || message.value == []
  {
    if message.None? || message.value == [] then "unknown"
    else Verdict(CountChinese(message.value), CountEnglish(message.value))
  }

  /** Text made of ideographs only is Chinese. */
  lemma {:induction false} AllChineseCounts(s: string)
    requires forall i :: 0 <= i < |s| ==> IsChinese(s[i])
    ensures CountChinese(s) == |s| && CountEnglish(s) == 0
  {
    if s != [] {
      AllChineseCounts(s[..|s| - 1]);
    }
  }

  lemma OnlyChineseIsChinese(s: string)
    requires s != [] && forall i :: 0 <= i < |s| ==> IsChinese(s[i])
    ensures Language(Some(s)) == "zh-CN"
  {
    AllChineseCounts(s);
  }

  /** Text made of ASCII letters only is English. */
  lemma {:induction false} AllEnglishCounts(s: string)
    requires forall i :: 0 <= i < |s| ==> IsEnglish(s[i])
    ensures CountEnglish(s) == |s| && CountChinese(s) == 0
  {
    if s != [] {
      AllEnglishCounts(s[..|s| - 1]);
    }
  }

  lemma OnlyEnglishIsEnglish(s: string)
    requires s != [] && forall i :: 0 <= i < |s| ==> IsEnglish(s[i])
    ensures Language(Some(s)) == "en-US"
  {
    AllEnglishCounts(s);
  }

  /** `detectLanguage`: one pass counting both kinds of character. */
  method DetectLanguage(message: Option<string>) returns (r: string)
    ensures r == Language(message)
  {
    if message.None? || message.value == [] {
      return "unknown";
    }
    var s := message.value;
    var chineseCount, englishCount := 0, 0;
    var i := 0;
    while i < |s|
      invariant 0 <= i <= |s|
      invariant chineseCount == CountChinese(s[..i]) && englishCount == CountEnglish(s[..i])
    {
      assert s[..i + 1][..i] == s[..i];
      if IsChinese(s[i]) {
        chineseCount := chineseCount + 1;
      } else if IsEnglish(s[i]) {
        englishCount := englishCount + 1;
      }
      i := i + 1;
    }
    assert s[..|s|] == s;
    r := Verdict(chineseCount, englishCount);
  }

  // ---------------------------------------------------------------------------
  // parseMessage

  /**
   * `parseMessage` at clock reading `now`: an empty message is kept as it is,
   * language "unknown", marked empty; any other is cleaned and its language
   * guessed from the original text.
   */
  method ParseMessage(userMessage: Option<string>, now: Long) returns (r: ParsedMessage)
    ensures r.isEmpty <==> IsEmptyMessage(userMessage)
    ensures r.timestamp == now
    ensures r.isEmpty ==> r.content == userMessage && r.language == "unknown"
    ensures !r.isEmpty ==> r.content == Some(CleanMessage(userMessage)) && r.language == Language(userMessage)
    ensures !r.isEmpty ==> r.language in {"zh-CN", "en-US", "mixed"}
  {
    if IsEmptyMessage(userMessage) {
      return ParsedMessage(userMessage, "unknown", now, true);
    }
    var cleanedMessage := CleanMessage(userMessage);
    var language := DetectLanguage(userMessage);
    r := ParsedMessage(Some(cleanedMessage), language, now, false);
  }
}
