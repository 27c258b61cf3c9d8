/**
 * `CommonFileRepository`: the append-only JSON log files ("messages.json",
 * "global_summary.json") and the two newest-first scans over them. The file
 * system is the `Disk` object: a map from file name to what Gson's parser
 * makes of the file's text. Reading and writing bytes is not modelled; a
 * write always succeeds.
 */
module FileRepository {
  import opened Wrappers
  import opened Json
  import opened Entities

  /**
   * The files by name. A name that is absent is a missing file; None is a
   * file whose text does not parse; Some(JNull) is an empty file.
   */
  class Disk {
    var files: map<string, Option<Json>>

    constructor(initial: map<string, Option<Json>>)
      ensures files == initial
    {
      files := initial;
    }
  }

  // ---------------------------------------------------------------------------
  // Sequence helpers

  /** The last `min(k, |s|)` elements of `s`; none for `k <= 0`. */
  function LastN<T>(s: seq<T>, k: int): (r: seq<T>)
    ensures |r| == if k <= 0 then 0 else if k < |s| then k else |s|
    ensures r == s[|s| - |r|..]
  {
    if k <= 0 then [] else if k < |s| then s[|s| - k..] else s
  }

  /** Taking the last k of a sequence grown by one element. */
  lemma LastNSnoc<T>(s: seq<T>, v: T, k: int)
    requires k >= 1
    ensures LastN(s + [v], k) == LastN(s, k - 1) + [v]
  {
    var r := LastN(s + [v], k);
    var q := LastN(s, k - 1);
    assert |r| == |q| + 1;
    forall i | 0 <= i < |r| ensures r[i] == (q + [v])[i] {
    }
  }

  /** `Collections.reverse`, as a value. */
  function Reverse<T>(s: seq<T>): (r: seq<T>)
    ensures |r| == |s|
    ensures forall i :: 0 <= i < |s| ==> r[i] == s[|s| - 1 - i]
  {
    if s == [] then [] else [s[|s| - 1]] + Reverse(s[..|s| - 1])
  }

  lemma ReverseSnoc<T>(s: seq<T>, v: T)
    ensures Reverse(s + [v]) == [v] + Reverse(s)
  {
    assert (s + [v])[..|s|] == s;
  }

  // ---------------------------------------------------------------------------
  // save

  /** The elements of a file that holds a JSON array; None when missing, unparseable or not an array. */
  function ArrayIn(files: map<string, Option<Json>>, name: string): Option<seq<Json>>
  {
    if name in files && files[name].Some? && files[name].value.JArr? then Some(files[name].value.elems) else None
  }

  /**
   * `save`: the file's array with `content` appended, or a new one-element
   * array when the file is missing, unparseable or not an array. Other files
   * are untouched.
   */
  function Saved(files: map<string, Option<Json>>, name: string, content: Json): (r: map<string, Option<Json>>)
    ensures ArrayIn(files, name).Some? ==> ArrayIn(r, name) == Some(ArrayIn(files, name).value + [content])
    ensures ArrayIn(files, name).None? ==> ArrayIn(r, name) == Some([content])
    ensures forall n :: n != name ==> ArrayIn(r, n) == ArrayIn(files, n)
    ensures r.Keys == files.Keys + {name}
  {
    var prior := if ArrayIn(files, name).Some? then ArrayIn(files, name).value else [];
    assert [] + [content] == [content];
    var r := files[name := Some(JArr(prior + [content]))];
    assert forall n :: n != name ==> ArrayIn(r, n) == ArrayIn(files, n) by {
      forall n | n != name ensures ArrayIn(r, n) == ArrayIn(files, n) {
        assert n in r <==> n in files;
        if n in files {
          assert r[n] == files[n];
        }
      }
    }
    r
  }

  /** `save`. */
  method Save(disk: Disk, fileName: string, content: Json)
    modifies disk
    ensures disk.files == Saved(old(disk.files), fileName, content)
  {
    var list: seq<Json> := [];
    if fileName in disk.files {
      var root := disk.files[fileName];
      if root.Some? && root.value.JArr? {
        list := root.value.elems;
      }
    }
    list := list + [content];
    disk.files := disk.files[fileName := Some(JArr(list))];
  }

  // ---------------------------------------------------------------------------
  // isSessionMatch

  /**
   * `isSessionMatch`: whether the object has a "sessionId" whose text is the
   * given id; None when `getAsString` throws (a null, object or array id).
   */
  function SessionMatch(fields: map<string, Json>, sessionId: string): (r: Option<bool>)
    ensures "sessionId" !in fields ==> r == Some(false)
    ensures "sessionId" in fields && fields["sessionId"].JStr? ==> r == Some(fields["sessionId"].s == sessionId)
  {
    if "sessionId" !in fields then Some(false)
    else match GsonString(fields["sessionId"])
      case Some(s) => Some(s == sessionId)
      case None => None
  }

  /** An element the scans take: an object of the session. */
  predicate Matches(e: Json, sessionId: string)
    ensures Matches(e, sessionId) <==>
              e.JObj? && "sessionId" in e.fields && GsonString(e.fields["sessionId"]) == Some(sessionId)
  {
    e.JObj? && SessionMatch(e.fields, sessionId) == Some(true)
  }

  /** An element on which the scans throw. */
  predicate Throws(e: Json, sessionId: string)
    ensures Throws(e, sessionId) <==>
              e.JObj? && "sessionId" in e.fields && GsonString(e.fields["sessionId"]).None?
    ensures Throws(e, sessionId) ==> !Matches(e, sessionId)
  {
    e.JObj? && SessionMatch(e.fields, sessionId).None?
  }

  // ---------------------------------------------------------------------------
  // loadLastContent

  /**
   * The newest-first scan of `loadLastContent`: the decoding of the newest
   * matching object (None when Gson cannot read it, which the source
   * catches), None when nothing matches, an exception when an id on the way
   * cannot be read as text.
   */
  function LastMatch<T>(log: seq<Json>, sessionId: string, decode: map<string, Json> -> Option<T>): (r: Result<Option<T>, Exception>)
    ensures r.Failure? ==> r.error == OtherRuntimeException
    ensures r.Success? && r.value.Some? ==>
              exists i :: 0 <= i < |log| && Matches(log[i], sessionId) && decode(log[i].fields) == r.value
  {
    if log == [] then Success(None)
    else
      var e := log[|log| - 1];
      if !e.JObj? then LastMatch(log[..|log| - 1], sessionId, decode)
      else match SessionMatch(e.fields, sessionId)
        case None => Failure(OtherRuntimeException)
        case Some(false) => LastMatch(log[..|log| - 1], sessionId, decode)
        case Some(true) => Success(decode(e.fields))
  }

  /** `loadLastContent` on the file system: nothing for a missing, unparseable or non-array file. */
  function LoadLast<T>(files: map<string, Option<Json>>, fileName: string, sessionId: string,
                       decode: map<string, Json> -> Option<T>): (r: Result<Option<T>, Exception>)
    ensures ArrayIn(files, fileName).None? ==> r == Success(None)
    ensures r.Failure? ==> r.error == OtherRuntimeException
    ensures r.Success? && r.value.Some? ==>
              var log := ArrayIn(files, fileName).value;
              exists i :: 0 <= i < |log| && Matches(log[i], sessionId) && decode(log[i].fields) == r.value
  {
    match ArrayIn(files, fileName)
    case None => Success(None)
    case Some(log) => LastMatch(log, sessionId, decode)
  }

  /** `loadLastContent`: the reverse index loop. */
  method LoadLastContent<T>(disk: Disk, sessionId: string, fileName: string, decode: map<string, Json> -> Option<T>)
    returns (r: Result<Option<T>, Exception>)
    ensures r == LoadLast(disk.files, fileName, sessionId, decode)
  {
    if fileName !in disk.files {
      return Success(None);
    }
    var root := disk.files[fileName];
    if !(root.Some? && root.value.JArr?) {
      return Success(None);
    }
    var items := root.value.elems;
    var i := |items| - 1;
    assert items[..i + 1] == items;
    while i >= 0
      invariant -1 <= i < |items|
      invariant LastMatch(items[..i + 1], sessionId, decode) == LastMatch(items, sessionId, decode)
    {
      var element := items[i];
      assert items[..i + 1][..i] == items[..i];
      if element.JObj? {
        var isMatch := SessionMatch(element.fields, sessionId);
        if isMatch.None? {
          return Failure(OtherRuntimeException);
        }
        if isMatch.value {
          return Success(decode(element.fields));
        }
      }
      i := i - 1;
    }
    return Success(None);
  }

  /** An appended element that is not a match, and does not throw, changes nothing. */
  lemma LastMatchSkips<T>(log: seq<Json>, x: Json, sessionId: string, decode: map<string, Json> -> Option<T>)
    requires !Matches(x, sessionId) && !Throws(x, sessionId)
    ensures LastMatch(log + [x], sessionId, decode) == LastMatch(log, sessionId, decode)
  {
    assert (log + [x])[..|log|] == log;
  }

  /** The newest match wins. */
  lemma LastMatchTakesNewest<T>(log: seq<Json>, x: Json, sessionId: string, decode: map<string, Json> -> Option<T>)
    requires Matches(x, sessionId)
    ensures LastMatch(log + [x], sessionId, decode) == Success(decode(x.fields))
  {
  }

  /** Without a match, and without an unreadable id, the scan finds nothing. */
  lemma {:induction false} LastMatchNone<T>(log: seq<Json>, sessionId: string, decode: map<string, Json> -> Option<T>)
    requires forall i :: 0 <= i < |log| ==> !Matches(log[i], sessionId) && !Throws(log[i], sessionId)
    ensures LastMatch(log, sessionId, decode) == Success(None)
  {
    if log != [] {
      var older := log[..|log| - 1];
      assert forall i :: 0 <= i < |older| ==> older[i] == log[i];
      LastMatchNone(older, sessionId, decode);
    }
  }

  /** A summary entry just saved is the one read back for its session. */
  lemma SaveThenLoadSummary(files: map<string, Option<Json>>, fileName: string, e: GlobalSummaryEntry)
    ensures LoadLast(Saved(files, fileName, EncodeSummary(e)), fileName, e.sessionId, DecodeSummaryText)
            == Success(e.globalSummary)
  {
    var log := ArrayIn(Saved(files, fileName, EncodeSummary(e)), fileName).value;
    assert log == log[..|log| - 1] + [EncodeSummary(e)];
    LastMatchTakesNewest(log[..|log| - 1], EncodeSummary(e), e.sessionId, DecodeSummaryText);
    SummaryRoundTrip(e);
  }

  // ---------------------------------------------------------------------------
  // loadRecentMessages

  /** Why the scan of `loadRecentMessages` stopped early. */
  datatype Stop = Threw | Unparsable

  /**
   * The newest-first scan of `loadRecentMessages`, oldest-first: up to
   * `count` decoded matches. It stops with Unparsable when Gson cannot read
   * a match, and with Threw when an id on the way cannot be read as text.
   */
  function RecentScan<T>(log: seq<Json>, sessionId: string, count: int, decode: map<string, Json> -> Option<T>)
    : (r: Result<seq<T>, Stop>)
    ensures r.Success? ==> |r.value| <= if count <= 0 then 0 else count
  {
    if log == [] || count <= 0 then Success([])
    else
      var e := log[|log| - 1];
      var older := log[..|log| - 1];
      if !e.JObj? then RecentScan(older, sessionId, count, decode)
      else match SessionMatch(e.fields, sessionId)
        case None => Failure(Threw)
        case Some(false) => RecentScan(older, sessionId, count, decode)
        case Some(true) =>
          match decode(e.fields)
          case None => Failure(Unparsable)
          case Some(v) => Then(RecentScan(older, sessionId, count - 1, decode), [v])
  }

  /** A scan result with `tail` appended to its list. */
  function Then<T>(r: Result<seq<T>, Stop>, tail: seq<T>): Result<seq<T>, Stop>
  {
    match r
    case Success(m) => Success(m + tail)
    case Failure(f) => Failure(f)
  }

  lemma ThenNothing<T>(r: Result<seq<T>, Stop>)
    ensures Then(r, []) == r
  {
    if r.Success? {
      assert r.value + [] == r.value;
    }
  }

  lemma ThenThen<T>(r: Result<seq<T>, Stop>, a: seq<T>, b: seq<T>)
    ensures Then(Then(r, a), b) == Then(r, a + b)
  {
    if r.Success? {
      assert (r.value + a) + b == r.value + (a + b);
    }
  }

  /**
   * `loadRecentMessages` on the file system: the scan's list, empty when the
   * file is missing, unparseable or not an array, or when Gson could not read
   * a match; an exception when an id could not be read as text.
   */
  function LoadRecent<T>(files: map<string, Option<Json>>, fileName: string, sessionId: string, count: int,
                         decode: map<string, Json> -> Option<T>): (r: Result<seq<T>, Exception>)
    ensures r.Success? ==> |r.value| <= if count <= 0 then 0 else count
    ensures r.Failure? ==> r.error == OtherRuntimeException
  {
    match ArrayIn(files, fileName)
    case None => Success([])
    case Some(log) =>
      match RecentScan(log, sessionId, count, decode)
      case Success(m) => Success(m)
      case Failure(Threw) => Failure(OtherRuntimeException)
      case Failure(Unparsable) => Success([])
  }

  /** One element of the reverse loop, as the scan sees it. */
  lemma RecentScanStep<T>(log: seq<Json>, i: nat, sessionId: string, c: int, decode: map<string, Json> -> Option<T>)
    requires i < |log| && c > 0
    ensures var e := log[i];
            RecentScan(log[..i + 1], sessionId, c, decode) ==
              if !e.JObj? then RecentScan(log[..i], sessionId, c, decode)
              else match SessionMatch(e.fields, sessionId)
                case None => Failure(Threw)
                case Some(false) => RecentScan(log[..i], sessionId, c, decode)
                case Some(true) =>
                  match decode(e.fields)
                  case None => Failure(Unparsable)
                  case Some(v) => Then(RecentScan(log[..i], sessionId, c - 1, decode), [v])
  {
    assert log[..i + 1][..i] == log[..i];
  }

  /** `loadRecentMessages`: the reverse loop collecting matches, then the reversal. */
  method LoadRecentMessages<T>(disk: Disk, sessionId: string, fileName: string, count: int,
                               decode: map<string, Json> -> Option<T>)
    returns (r: Result<seq<T>, Exception>)
    ensures r == LoadRecent(disk.files, fileName, sessionId, count, decode)
  {
    if fileName !in disk.files {
      return Success([]);
    }
    var root := disk.files[fileName];
    if !(root.Some? && root.value.JArr?) {
      return Success([]);
    }
    var items := root.value.elems;
    var matched: seq<T> := [];
    var i := |items| - 1;
    assert items[..i + 1] == items;
    assert Reverse(matched) == [];
    ThenNothing(RecentScan(items, sessionId, count, decode));
    while i >= 0 && |matched| < count
      invariant -1 <= i < |items|
      invariant Then(RecentScan(items[..i + 1], sessionId, count - |matched|, decode), Reverse(matched))
                == RecentScan(items, sessionId, count, decode)
    {
      var element := items[i];
      RecentScanStep(items, i, sessionId, count - |matched|, decode);
      if element.JObj? {
        var isMatch := SessionMatch(element.fields, sessionId);
        if isMatch.None? {
          return Failure(OtherRuntimeException);
        }
        if isMatch.value {
          var item := decode(element.fields);
          if item.None? {
            return Success([]);
          }
          ThenThen(RecentScan(items[..i], sessionId, count - |matched| - 1, decode), [item.value], Reverse(matched));
          ReverseSnoc(matched, item.value);
          matched := matched + [item.value];
        }
      }
      i := i - 1;
    }
    assert Reverse(matched) == [] + Reverse(matched);
    return Success(Reverse(matched));
  }

  /** No element throws, and every match can be read. */
  ghost predicate Clean<T>(log: seq<Json>, sessionId: string, decode: map<string, Json> -> Option<T>)
  {
    forall i :: 0 <= i < |log| ==>
      !Throws(log[i], sessionId) && (Matches(log[i], sessionId) ==> decode(log[i].fields).Some?)
  }

  /** The decoded matches of a log, oldest first. */
  function Matching<T>(log: seq<Json>, sessionId: string, decode: map<string, Json> -> Option<T>): seq<T>
  {
    if log == [] then []
    else
      var e := log[|log| - 1];
      Matching(log[..|log| - 1], sessionId, decode) +
        (if Matches(e, sessionId) && decode(e.fields).Some? then [decode(e.fields).value] else [])
  }

  /** On a clean log the scan returns the newest `count` matches, oldest first. */
  lemma {:induction false} RecentScanIsLastMatches<T>(log: seq<Json>, sessionId: string, count: int,
                                                      decode: map<string, Json> -> Option<T>)
    requires Clean(log, sessionId, decode)
    ensures RecentScan(log, sessionId, count, decode) == Success(LastN(Matching(log, sessionId, decode), count))
  {
    if log != [] && count > 0 {
      var e := log[|log| - 1];
      var older := log[..|log| - 1];
      assert forall i :: 0 <= i < |older| ==> older[i] == log[i];
      assert !Throws(e, sessionId);
      if Matches(e, sessionId) {
        RecentScanIsLastMatches(older, sessionId, count - 1, decode);
        LastNSnoc(Matching(older, sessionId, decode), decode(e.fields).value, count);
      } else {
        RecentScanIsLastMatches(older, sessionId, count, decode);
        assert Matching(log, sessionId, decode) == Matching(older, sessionId, decode) + [];
        assert Matching(log, sessionId, decode) == Matching(older, sessionId, decode);
      }
    }
  }

  /** A message pair just saved ends what the scan reads back for its session. */
  lemma SaveThenLoadRecentPair(files: map<string, Option<Json>>, fileName: string, p: MessagePair, count: int)
    requires count >= 1
    requires ArrayIn(files, fileName).Some? ==> Clean(ArrayIn(files, fileName).value, p.sessionId, DecodePair)
    ensures var r := LoadRecent(Saved(files, fileName, EncodePair(p)), fileName, p.sessionId, count, DecodePair);
            r.Success? && r.value != [] && r.value[|r.value| - 1] == p
  {
    var older := if ArrayIn(files, fileName).Some? then ArrayIn(files, fileName).value else [];
    assert ArrayIn(Saved(files, fileName, EncodePair(p)), fileName) == Some(older + [EncodePair(p)]);
    ScanReachesSavedPair(older, p, count);
    if count - 1 > 0 {
      RecentScanIsLastMatches(older, p.sessionId, count - 1, DecodePair);
    }
  }

  /** The scan meets the newest element first: a just saved pair is collected, then the older ones. */
  lemma ScanReachesSavedPair(older: seq<Json>, p: MessagePair, count: int)
    requires count >= 1
    ensures RecentScan(older + [EncodePair(p)], p.sessionId, count, DecodePair)
         == Then(RecentScan(older, p.sessionId, count - 1, DecodePair), [p])
  {
    var log := older + [EncodePair(p)];
    PairRoundTrip(p);
    assert Matches(EncodePair(p), p.sessionId);
    assert log[..|log| - 1] == older;
  }
}
