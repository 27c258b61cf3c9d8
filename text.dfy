/**
 * The java.lang.String operations the memory system relies on, stated over
 * `seq<char>`: trim, blank tests, searching, prefix and suffix tests, ASCII
 * upper-casing and the decimal rendering of integers.
 */
module Text {

  /** `String.trim` removes every character at or below U+0020 from both ends. */
  predicate IsTrimmable(c: char) { c <= ' ' }

  /** Every character of `s` is trimmable. */
  predicate AllTrimmable(s: string)
  {
    forall i :: 0 <= i < |s| ==> IsTrimmable(s[i])
  }

  function TrimStart(s: string): (r: string)
    ensures |r| <= |s| && r == s[|s| - |r|..]
    ensures r == [] || !IsTrimmable(r[0])
    ensures forall i :: 0 <= i < |s| - |r| ==> IsTrimmable(s[i])
  {
    if |s| > 0 && IsTrimmable(s[0]) then TrimStart(s[1..]) else s
  }

  function TrimEnd(s: string): (r: string)
    ensures |r| <= |s| && r == s[..|r|]
    ensures r == [] || !IsTrimmable(r[|r| - 1])
    ensures forall i :: |r| <= i < |s| ==> IsTrimmable(s[i])
  {
    if |s| > 0 && IsTrimmable(s[|s| - 1]) then TrimEnd(s[..|s| - 1]) else s
  }

  /** Java's `s.trim()`. */
  function Trim(s: string): (r: string)
    ensures |r| <= |s|
    ensures Unpadded(r)
    ensures var k := |s| - |TrimStart(s)|;
            k + |r| <= |s| && r == s[k..k + |r|] && AllTrimmable(s[..k]) && AllTrimmable(s[k + |r|..])
  {
    TrimmedCore(s);
    TrimEnd(TrimStart(s))
  }

  /** Trimming both ends keeps one slice of `s`, and only trimmable characters lie outside it. */
  lemma TrimmedCore(s: string)
    ensures var t := TrimStart(s);
            var r := TrimEnd(t);
            var k := |s| - |t|;
            k + |r| <= |s| && r == s[k..k + |r|] && AllTrimmable(s[..k]) && AllTrimmable(s[k + |r|..])
  {
    var t := TrimStart(s);
    var r := TrimEnd(t);
    var k := |s| - |t|;
    TrimStartSkipsTrimmable(s);
    TrimEndSkipsTrimmable(t);
    SliceOfSuffix(s, k, |r|);
  }

  /** Slicing a suffix is slicing the whole. */
  lemma SliceOfSuffix<T>(s: seq<T>, k: nat, n: nat)
    requires k + n <= |s|
    ensures s[k..][..n] == s[k..k + n] && s[k..][n..] == s[k + n..]
  {
  }

  /** What `TrimStart` drops is trimmable. */
  lemma TrimStartSkipsTrimmable(s: string)
    ensures AllTrimmable(s[..|s| - |TrimStart(s)|])
  {
    var k := |s| - |TrimStart(s)|;
    TrimmableSlice(s, 0, k);
    assert s[0..k] == s[..k];
  }

  /** What `TrimEnd` drops is trimmable. */
  lemma TrimEndSkipsTrimmable(t: string)
    ensures AllTrimmable(t[|TrimEnd(t)|..])
  {
    var n := |TrimEnd(t)|;
    TrimmableSlice(t, n, |t|);
    assert t[n..|t|] == t[n..];
  }

  /** A range of trimmable characters is an all-trimmable slice. */
  lemma TrimmableSlice(s: string, lo: nat, hi: nat)
    requires lo <= hi <= |s|
    requires forall i :: lo <= i < hi ==> IsTrimmable(s[i])
    ensures AllTrimmable(s[lo..hi])
  {
    forall i | 0 <= i < hi - lo ensures IsTrimmable(s[lo..hi][i]) {
      assert s[lo..hi][i] == s[lo + i];
    }
  }

  /** No trimmable character at either end. */
  predicate Unpadded(s: string)
  {
    s == [] || (!IsTrimmable(s[0]) && !IsTrimmable(s[|s| - 1]))
  }

  /** Exactly the unpadded strings are their own trim. */
  lemma UnpaddedIffTrimmed(s: string)
    ensures Unpadded(s) <==> Trim(s) == s
  {
    if Unpadded(s) && s != [] {
      UnpaddedIsTrimmed(s);
    }
  }

  /** Text with no trimmable character at either end is its own trim. */
  lemma UnpaddedIsTrimmed(s: string)
    requires |s| > 0 && !IsTrimmable(s[0]) && !IsTrimmable(s[|s| - 1])
    ensures Trim(s) == s
  {
    assert TrimStart(s) == s;
    assert TrimEnd(s) == s;
  }

  /** Java's `s.trim().isEmpty()`. */
  predicate IsBlank(s: string) { Trim(s) == "" }

  /** A string is blank exactly when every character is trimmable. */
  lemma BlankIffAllTrimmable(s: string)
    ensures IsBlank(s) <==> forall i :: 0 <= i < |s| ==> IsTrimmable(s[i])
  {
    var t := TrimStart(s);
    if IsBlank(s) {
      assert t == [];
    }
  }

  /** Trimming twice is trimming once. */
  lemma TrimIdempotent(s: string)
    ensures Trim(Trim(s)) == Trim(s)
  {
    var r := Trim(s);
    assert TrimStart(r) == r;
    assert TrimEnd(r) == r;
  }

  /** A non-blank string trims to a non-empty, already trimmed string. */
  lemma TrimOfNonBlank(s: string)
    requires !IsBlank(s)
    ensures Trim(s) != "" && Trim(Trim(s)) == Trim(s) && !IsBlank(Trim(s))
  {
    TrimIdempotent(s);
  }

  /** `p` occurs in `s` starting at index `j`. */
  predicate OccursAt(s: string, p: string, j: int)
  {
    0 <= j && j + |p| <= |s| && s[j..j + |p|] == p
  }

  /** Java's `s.indexOf(p)`: the first occurrence of `p`, or -1. */
  function IndexOf(s: string, p: string): (r: int)
    ensures r == -1 || OccursAt(s, p, r)
    ensures forall j :: 0 <= j && (r == -1 || j < r) ==> !OccursAt(s, p, j)
    decreases |s|
  {
    if |p| <= |s| && s[..|p|] == p then 0
    else if s == [] then -1
    else
      var r := IndexOf(s[1..], p);
      assert forall j :: 1 <= j ==> (OccursAt(s, p, j) <==> OccursAt(s[1..], p, j - 1));
      if r < 0 then -1 else r + 1
  }

  /** Java's `s.indexOf(p, from)` for an index `from` inside the string. */
  function IndexOfFrom(s: string, p: string, from: nat): (r: int)
    requires from <= |s|
    ensures r == -1 || (from <= r && OccursAt(s, p, r))
    ensures forall j :: from <= j && (r == -1 || j < r) ==> !OccursAt(s, p, j)
  {
    var k := IndexOf(s[from..], p);
    assert forall j :: from <= j ==> (OccursAt(s, p, j) <==> OccursAt(s[from..], p, j - from));
    if k < 0 then -1 else k + from
  }

  /** Java's `s.contains(p)`. */
  predicate Contains(s: string, p: string)
  {
    IndexOf(s, p) >= 0
  }

  lemma ContainsIffOccurs(s: string, p: string)
    ensures Contains(s, p) <==> exists j :: OccursAt(s, p, j)
  {
  }

  /** Cutting a sequence at two points and joining the three pieces gives it back. */
  lemma SplitThree<T>(s: seq<T>, i: nat, j: nat)
    requires i <= j <= |s|
    ensures s == s[..i] + s[i..j] + s[j..]
  {
  }

  /** Concatenation regrouped, stated for any element type so that no concrete text is unfolded. */
  lemma ConcatAssoc<T>(a: seq<T>, b: seq<T>, c: seq<T>)
    ensures (a + b) + c == a + (b + c)
  {
  }

  /** Text that contains `p` still does with more appended. */
  lemma ContainsAppend(s: string, t: string, p: string)
    requires Contains(s, p)
    ensures Contains(s + t, p)
  {
    ContainsIffOccurs(s, p);
    var j :| OccursAt(s, p, j);
    assert (s + t)[j..j + |p|] == s[j..j + |p|];
    assert OccursAt(s + t, p, j);
    ContainsIffOccurs(s + t, p);
  }

  /** Text built around `p` contains it. */
  lemma ContainsMiddle(s: string, p: string, t: string)
    ensures Contains(s + p + t, p)
  {
    assert (s + p + t)[|s|..|s| + |p|] == p;
    assert OccursAt(s + p + t, p, |s|);
    ContainsIffOccurs(s + p + t, p);
  }

  /** Text that contains `p` still does with more prepended. */
  lemma ContainsPrepend(s: string, t: string, p: string)
    requires Contains(t, p)
    ensures Contains(s + t, p)
  {
    ContainsIffOccurs(t, p);
    var j :| OccursAt(t, p, j);
    assert (s + t)[|s| + j..|s| + j + |p|] == t[j..j + |p|];
    assert OccursAt(s + t, p, |s| + j);
    ContainsIffOccurs(s + t, p);
  }

  /** Text built around two parts contains both, and starts and ends with its outer parts. */
  lemma ContainsBoth(a: string, p: string, b: string, q: string, c: string)
    ensures Contains(a + p + b + q + c, p) && Contains(a + p + b + q + c, q)
    ensures StartsWith(a + p + b + q + c, a) && EndsWith(a + p + b + q + c, c)
  {
    ContainsMiddle(a, p, b + q + c);
    assert a + p + (b + q + c) == a + p + b + q + c;
    ContainsMiddle(a + p + b, q, c);
    ConcatAffixes(a, p);
    StartsWithAppend(a + p, b, a);
    StartsWithAppend(a + p + b, q, a);
    StartsWithAppend(a + p + b + q, c, a);
    ConcatAffixes(a + p + b + q, c);
  }

  /** Containment is transitive. */
  lemma ContainsTransitive(s: string, q: string, p: string)
    requires Contains(s, q) && Contains(q, p)
    ensures Contains(s, p)
  {
    ContainsIffOccurs(s, q);
    ContainsIffOccurs(q, p);
    var i :| OccursAt(s, q, i);
    var j :| OccursAt(q, p, j);
    forall k | 0 <= k < |p|
      ensures s[i + j + k] == p[k]
    {
      assert s[i..i + |q|][j + k] == s[i + j + k];
      assert q[j..j + |p|][k] == q[j + k];
    }
    assert s[i + j..i + j + |p|] == p;
    assert OccursAt(s, p, i + j);
    ContainsIffOccurs(s, p);
  }

  /** Java's `s.lastIndexOf(c)`: the last occurrence of `c`, or -1. */
  function LastIndexOf(s: string, c: char): (r: int)
    ensures -1 <= r < |s|
    ensures r >= 0 ==> s[r] == c
    ensures forall j :: r < j < |s| ==> s[j] != c
  {
    if s == [] then -1
    else if s[|s| - 1] == c then |s| - 1
    else LastIndexOf(s[..|s| - 1], c)
  }

  predicate StartsWith(s: string, p: string)
  {
    |p| <= |s| && s[..|p|] == p
  }

  predicate EndsWith(s: string, p: string)
  {
    |p| <= |s| && s[|s| - |p|..] == p
  }

  /** A concatenation starts with its left part and ends with its right part. */
  lemma ConcatAffixes(a: string, b: string)
    ensures StartsWith(a + b, a) && EndsWith(a + b, b)
  {
    assert (a + b)[..|a|] == a;
    assert (a + b)[|a + b| - |b|..] == b;
  }

  /** A prefix of the left part is a prefix of the whole. */
  lemma StartsWithAppend(s: string, t: string, p: string)
    requires StartsWith(s, p)
    ensures StartsWith(s + t, p)
  {
    assert (s + t)[..|p|] == s[..|p|];
  }

  /** A suffix of the right part is a suffix of the whole. */
  lemma EndsWithPrepend(s: string, t: string, p: string)
    requires EndsWith(t, p)
    ensures EndsWith(s + t, p)
  {
    assert (s + t)[|s + t| - |p|..] == t[|t| - |p|..];
  }

  /** Upper-casing of one character, for the ASCII letters. */
  function UpperChar(c: char): (r: char)
    ensures 'a' <= c <= 'z' ==> 'A' <= r <= 'Z'
    ensures !('a' <= c <= 'z') ==> r == c
  {
    if 'a' <= c <= 'z' then (c as int - 32) as char else c
  }

  /** Java's `s.toUpperCase()`, restricted to the ASCII letters. */
  function ToUpper(s: string): (r: string)
    ensures |r| == |s|
    ensures forall i :: 0 <= i < |s| ==> r[i] == UpperChar(s[i])
  {
    seq(|s|, i requires 0 <= i < |s| => UpperChar(s[i]))
  }

  /** Java's `s.substring(0, Math.min(n, s.length()))`. */
  function Prefix(s: string, n: nat): (r: string)
    ensures |r| == if n < |s| then n else |s|
    ensures r == s[..|r|]
  {
    if n < |s| then s[..n] else s
  }

  predicate IsDigit(c: char) { '0' <= c <= '9' }

  function DigitChar(d: nat): (c: char)
    requires d < 10
    ensures IsDigit(c)
  {
    ('0' as int + d) as char
  }

  /** The number a string of decimal digits denotes, most significant digit first. */
  function DecimalValue(s: string): int
  {
    if s == [] then 0 else DecimalValue(s[..|s| - 1]) * 10 + (s[|s| - 1] as int - '0' as int)
  }

  /**
   * The decimal rendering of a natural number, as `Integer.toString` writes
   * it: digits denoting `n`, with no leading zero unless `n` is 0.
   */
  function NatToString(n: nat): (r: string)
    ensures r != []
    ensures forall i :: 0 <= i < |r| ==> IsDigit(r[i])
    ensures DecimalValue(r) == n
    ensures r[0] == '0' ==> n == 0
  {
    if n < 10 then [DigitChar(n)]
    else
      var front := NatToString(n / 10);
      assert (front + [DigitChar(n % 10)])[..|front|] == front;
      front + [DigitChar(n % 10)]
  }

  /** The decimal rendering of an integer, with a leading '-' when negative. */
  function IntToString(n: int): (r: string)
    ensures r != []
    ensures n >= 0 ==> r == NatToString(n)
    ensures n < 0 ==> r == "-" + NatToString(-n)
    ensures n >= 0 ==> DecimalValue(r) == n
    ensures n < 0 ==> r[0] == '-' && DecimalValue(r[1..]) == -n
  {
    if n < 0 then "-" + NatToString(-n) else NatToString(n)
  }
}
