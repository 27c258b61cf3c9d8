/**
 * `ShortTermMemoryServiceImpl`: a per-session window of the latest message
 * pairs, kept in memory and filled lazily from "messages.json". Each
 * `SessionMemory` is an object whose list the service mutates in place; the
 * service's map from session id to that object is a `map` field, and
 * `Cached()` is the view of every cached list at once. Locks and the access
 * time stamp are not modelled.
 */
module ShortTerm {
  import opened Wrappers
  import opened Text
  import opened Entities
  import opened FileRepository

  const MessagesFile := "messages.json"
  const ContextHeader := "【最近对话历史】\n"

  // ---------------------------------------------------------------------------
  // The window

  /** Taking the last b of the last a is taking the last min(a, b). */
  lemma LastNOfLastN<T>(s: seq<T>, a: int, b: int)
    ensures LastN(LastN(s, a), b) == LastN(s, if a < b then a else b)
  {
    var inner := LastN(s, a);
    var lhs := LastN(inner, b);
    var rhs := LastN(s, if a < b then a else b);
    assert |lhs| == |rhs|;
    forall i | 0 <= i < |lhs| ensures lhs[i] == rhs[i] {
      assert lhs[i] == inner[|inner| - |lhs| + i];
    }
  }

  /** With room for at least one pair, the pair just added is the newest one kept. */
  lemma NewestKept<T>(s: seq<T>, m: T, capacity: int)
    requires capacity >= 1
    ensures var w := LastN(s + [m], capacity);
            w != [] && w[|w| - 1] == m && |w| <= capacity
  {
  }

  /** A window of the last `capacity` pairs, one per `SessionMemory`. */
  class SessionMemory {
    var messages: seq<MessagePair>
    const maxSize: int
    /** The session this window is cached under, a proof device only. */
    ghost const key: string

    constructor(maxSize: int, ghost key: string)
      ensures messages == [] && this.maxSize == maxSize && this.key == key
    {
      messages := [];
      this.maxSize := maxSize;
      this.key := key;
    }

    /**
     * `addMessage`: append, then evict from the front while over `maxSize`.
     * For a negative `maxSize` the list runs empty and `remove(0)` throws.
     */
    method AddMessage(m: MessagePair) returns (threw: bool)
      modifies this
      ensures messages == LastN(old(messages) + [m], maxSize)
      ensures threw <==> maxSize < 0
    {
      ghost var all := messages + [m];
      messages := messages + [m];
      threw := false;
      while |messages| > maxSize
        invariant messages == all[|all| - |messages|..]
        invariant |messages| < |all| ==> |messages| >= maxSize
        decreases |messages|
      {
        if messages == [] {
          threw := true;
          return;
        }
        messages := messages[1..];
      }
    }

    /**
     * `getRecentMessages`: `subList(max(0, size - count), size)`, which
     * throws for a negative count because the start passes the end.
     */
    method GetRecentMessages(count: int) returns (r: Result<seq<MessagePair>, Exception>)
      ensures count < 0 ==> r == Failure(IllegalArgumentException)
      ensures count >= 0 ==> r == Success(LastN(messages, count))
    {
      var size := |messages|;
      var start := if size - count > 0 then size - count else 0;
      if start > size {
        return Failure(IllegalArgumentException);
      }
      if count < size {
        assert messages[start..size] == messages[size - count..];
      } else {
        assert messages[start..size] == messages;
      }
      r := Success(messages[start..size]);
    }

    /** `getAllMessages`: a copy of the list. */
    method GetAllMessages() returns (r: seq<MessagePair>)
      ensures r == messages
    {
      r := messages;
    }

    /** `clear`. */
    method Clear()
      modifies this
      ensures messages == []
    {
      messages := [];
    }

    /** `size`. */
    method Size() returns (n: int)
      ensures n == |messages|
    {
      n := |messages|;
    }
  }

  // ---------------------------------------------------------------------------
  // Lazy loading

  /**
   * What `getOrLoadSession` yields for a session: its cached list; else the
   * pairs `loadRecentMessages` reads for it from "messages.json", when it
   * reads some without throwing; else nothing (null).
   */
  function SessionView(cached: map<string, seq<MessagePair>>, files: map<string, Option<Json.Json>>,
                       sessionId: string, capacity: int): (r: Option<seq<MessagePair>>)
    ensures sessionId in cached ==> r == Some(cached[sessionId])
    ensures sessionId !in cached && r.Some? ==> r.value != [] && |r.value| <= capacity
    ensures sessionId !in cached && capacity <= 0 ==> r == None
  {
    if sessionId in cached then Some(cached[sessionId])
    else match LoadRecent(files, MessagesFile, sessionId, capacity, DecodePair)
      case Success(ms) => if ms == [] then None else Some(ms)
      case Failure(_) => None
  }

  /** The cache after `getOrLoadSession`: a loaded list is stored under its session. */
  function Hydrate(cached: map<string, seq<MessagePair>>, files: map<string, Option<Json.Json>>,
                   sessionId: string, capacity: int): (r: map<string, seq<MessagePair>>)
    ensures SessionView(cached, files, sessionId, capacity).Some? <==> sessionId in r
    ensures forall k :: k != sessionId ==> (k in r <==> k in cached) && (k in r ==> r[k] == cached[k])
    ensures sessionId in r ==> r[sessionId] == SessionView(cached, files, sessionId, capacity).value
  {
    var v := SessionView(cached, files, sessionId, capacity);
    if v.Some? then cached[sessionId := v.value] else cached
  }

  /** Once a session is cached, reading it again does not touch the file. */
  lemma HydrateIdempotent(cached: map<string, seq<MessagePair>>, files: map<string, Option<Json.Json>>,
                          sessionId: string, capacity: int)
    ensures var once := Hydrate(cached, files, sessionId, capacity);
            Hydrate(once, files, sessionId, capacity) == once
  {
  }

  // ---------------------------------------------------------------------------
  // Context text

  /** `truncate`: text longer than `maxLength` is cut and marked with "...". */
  function Truncate(text: string, maxLength: nat): (r: string)
    ensures |text| <= maxLength ==> r == text
    ensures |text| > maxLength ==> |r| == maxLength + 3 && StartsWith(text, r[..maxLength]) && EndsWith(r, "...")
  {
    if |text| <= maxLength then text else text[..maxLength] + "..."
  }

  /** One numbered turn of `buildShortTermContext`. */
  function Turn(number: int, m: MessagePair): (r: string)
    ensures StartsWith(r, "对话 " + IntToString(number) + ":\n  用户: ") && EndsWith(r, "\n")
    ensures Contains(r, Truncate(m.userMessage, 200)) && Contains(r, Truncate(m.aiResponse, 200))
  {
    var head := "对话 " + IntToString(number) + ":\n  用户: ";
    var u, a := Truncate(m.userMessage, 200), Truncate(m.aiResponse, 200);
    ContainsBoth(head, u, "\n  AI: ", a, "\n");
    head + u + "\n  AI: " + a + "\n"
  }

  /** The turns of a list, numbered from 1. */
  function Turns(ms: seq<MessagePair>): (r: string)
    ensures r == "" <==> ms == []
    ensures ms != [] ==> EndsWith(r, Turn(|ms|, ms[|ms| - 1]))
  {
    if ms == [] then ""
    else
      var last := Turn(|ms|, ms[|ms| - 1]);
      ConcatAffixes(Turns(ms[..|ms| - 1]), last);
      Turns(ms[..|ms| - 1]) + last
  }

  lemma TurnsSnoc(ms: seq<MessagePair>, i: nat)
    requires i < |ms|
    ensures Turns(ms[..i + 1]) == Turns(ms[..i]) + Turn(i + 1, ms[i])
  {
    assert ms[..i + 1][..i] == ms[..i];
  }

  /** `buildShortTermContext` on the session's list: empty for no pairs. */
  function ShortTermContext(ms: seq<MessagePair>): (r: string)
    ensures r == "" <==> ms == []
    ensures ms != [] ==> StartsWith(r, ContextHeader)
  {
    if ms == [] then "" else ContextHeader + Turns(ms)
  }

  /** Every pair of the session appears in the context as its numbered turn. */
  lemma {:induction false} ContextHasEveryTurn(ms: seq<MessagePair>, i: int)
    requires 0 <= i < |ms|
    ensures Contains(ShortTermContext(ms), Turn(i + 1, ms[i]))
  {
    var init := ms[..|ms| - 1];
    var last := Turn(|ms|, ms[|ms| - 1]);
    var before := ContextHeader + Turns(init);
    assert ShortTermContext(ms) == before + last by {
      ConcatAssoc(ContextHeader, Turns(init), last);
    }
    if i == |ms| - 1 {
      ContainsMiddle(before, last, "");
      assert before + last + "" == before + last;
    } else {
      ContextHasEveryTurn(init, i);
      assert init[i] == ms[i];
      ContainsAppend(before, last, Turn(i + 1, ms[i]));
    }
  }

  /** The string building of `buildShortTermContext`, over the session's list. */
  method RenderContext(messages: seq<MessagePair>) returns (context: string)
    ensures context == ShortTermContext(messages)
  {
    if messages == [] {
      return "";
    }
    context := ContextHeader;
    var i := 0;
    assert messages[..0] == [];
    assert context == ContextHeader + Turns(messages[..0]);
    while i < |messages|
      invariant 0 <= i <= |messages|
      invariant context == ContextHeader + Turns(messages[..i])
    {
      TurnsSnoc(messages, i);
      ConcatAssoc(ContextHeader, Turns(messages[..i]), Turn(i + 1, messages[i]));
      context := context + Turn(i + 1, messages[i]);
      i := i + 1;
    }
    assert messages[..|messages|] == messages;
  }

  // ---------------------------------------------------------------------------
  // The service

  class ShortTermMemoryService {
    var sessions: map<string, SessionMemory>
    /** `shortTermMemorySize`, read from the configuration. */
    const capacity: int
    const disk: Disk
    /** The cached list of every session: the windows' contents, as one value. */
    ghost var cached: map<string, seq<MessagePair>>

    /**
     * `cached` is what the windows hold; every window has the configured size
     * bound, holds at most that many pairs, and is cached under its own
     * session only, so no two sessions share a window object.
     */
    ghost predicate Valid()
      reads this, sessions.Values
    {
      sessions.Keys == cached.Keys &&
      forall k :: k in sessions ==>
        sessions[k].key == k && sessions[k].maxSize == capacity && sessions[k].messages == cached[k] &&
        |cached[k]| <= if capacity < 0 then 0 else capacity
    }

    constructor(capacity: int, disk: Disk)
      ensures Valid() && cached == map[]
      ensures this.capacity == capacity && this.disk == disk
    {
      sessions := map[];
      this.capacity := capacity;
      this.disk := disk;
      cached := map[];
    }

    /**
     * `addMessage`: the session's window, created empty when absent (the file
     * is not consulted), gets the pair; for a negative capacity the window
     * stays empty and the call throws.
     */
    method AddMessage(sessionId: string, m: MessagePair) returns (threw: bool)
      requires Valid()
      modifies this, sessions.Values
      ensures Valid()
      ensures threw <==> capacity < 0
      ensures cached == old(cached)[sessionId :=
                LastN((if sessionId in old(cached) then old(cached)[sessionId] else []) + [m], capacity)]
    {
      ghost var prev := if sessionId in cached then cached[sessionId] else [];
      var memory: SessionMemory;
      if sessionId in sessions {
        memory := sessions[sessionId];
      } else {
        memory := new SessionMemory(capacity, sessionId);
        sessions := sessions[sessionId := memory];
      }
      assert memory.messages == prev && memory.key == sessionId;
      threw := memory.AddMessage(m);
      assert memory.messages == LastN(prev + [m], capacity);
      cached := cached[sessionId := memory.messages];
      forall k | k in sessions
        ensures sessions[k].key == k && sessions[k].maxSize == capacity && sessions[k].messages == cached[k]
      {
        if k != sessionId {
          assert sessions[k] != memory;
        }
      }
    }

    /**
     * `getOrLoadSession` with `loadFromPersistence`: the cached window, or a
     * new one filled from the file and cached; null when nothing was read or
     * the read threw.
     */
    method GetOrLoadSession(sessionId: string) returns (memory: SessionMemory?)
      requires Valid()
      modifies this
      ensures Valid()
      ensures memory == null <==> SessionView(old(cached), disk.files, sessionId, capacity).None?
      ensures memory != null ==> sessionId in sessions && memory == sessions[sessionId]
      ensures cached == Hydrate(old(cached), disk.files, sessionId, capacity)
    {
      if sessionId in sessions {
        return sessions[sessionId];
      }
      var loaded := LoadRecentMessages(disk, sessionId, MessagesFile, capacity, DecodePair);
      if loaded.Failure? || loaded.value == [] {
        return null;
      }
      var ms := loaded.value;
      memory := new SessionMemory(capacity, sessionId);
      var i := 0;
      while i < |ms|
        invariant 0 <= i <= |ms|
        invariant memory.messages == ms[..i]
        invariant sessions == old(sessions) && cached == old(cached)
      {
        var threw := memory.AddMessage(ms[i]);
        assert ms[..i] + [ms[i]] == ms[..i + 1];
        i := i + 1;
      }
      assert ms[..|ms|] == ms;
      sessions := sessions[sessionId := memory];
      cached := cached[sessionId := ms];
    }

    /** The pairs `getAllMessages` returns, as a value. */
    function AllOf(view: Option<seq<MessagePair>>): seq<MessagePair>
    {
      if view.None? then [] else view.value
    }

    /**
     * `getRecentMessages`: no pairs for an unknown session; else the newest
     * `count` of its window, or the exception of a negative count.
     */
    method GetRecentMessages(sessionId: string, count: int) returns (r: Result<seq<MessagePair>, Exception>)
      requires Valid()
      modifies this
      ensures Valid()
      ensures cached == Hydrate(old(cached), disk.files, sessionId, capacity)
      ensures var v := SessionView(old(cached), disk.files, sessionId, capacity);
              r == if v.None? then Success([])
                   else if count < 0 then Failure(IllegalArgumentException)
                   else Success(LastN(v.value, count))
    {
      var memory := GetOrLoadSession(sessionId);
      if memory == null {
        return Success([]);
      }
      r := memory.GetRecentMessages(count);
    }

    /** `getAllMessages`: the whole window, or none for an unknown session. */
    method GetAllMessages(sessionId: string) returns (r: seq<MessagePair>)
      requires Valid()
      modifies this
      ensures Valid()
      ensures cached == Hydrate(old(cached), disk.files, sessionId, capacity)
      ensures r == AllOf(SessionView(old(cached), disk.files, sessionId, capacity))
    {
      var memory := GetOrLoadSession(sessionId);
      if memory == null {
        return [];
      }
      r := memory.GetAllMessages();
    }

    /** `buildShortTermContext`: the header, then one numbered turn per pair. */
    method BuildShortTermContext(sessionId: string) returns (context: string)
      requires Valid()
      modifies this
      ensures Valid()
      ensures cached == Hydrate(old(cached), disk.files, sessionId, capacity)
      ensures context == ShortTermContext(AllOf(SessionView(old(cached), disk.files, sessionId, capacity)))
    {
      var messages := GetAllMessages(sessionId);
      context := RenderContext(messages);
    }

    /** `clearSession`: the window is emptied and dropped from the cache. */
    method ClearSession(sessionId: string)
      requires Valid()
      modifies this, sessions.Values
      ensures Valid()
      ensures cached == old(cached) - {sessionId}
    {
      if sessionId in sessions {
        var memory := sessions[sessionId];
        sessions := map k | k in sessions && k != sessionId :: sessions[k];
        cached := cached - {sessionId};
        memory.Clear();
      } else {
        assert cached - {sessionId} == cached;
      }
    }

    /** `getMessageCount`: the cached window's size; the file is not consulted. */
    method GetMessageCount(sessionId: string) returns (n: int)
      requires Valid()
      ensures n == if sessionId in cached then |cached[sessionId]| else 0
      ensures 0 <= n && (capacity <= 0 ==> n == 0) && (capacity > 0 ==> n <= capacity)
    {
      if sessionId in sessions {
        n := sessions[sessionId].Size();
      } else {
        n := 0;
      }
    }
  }
}
