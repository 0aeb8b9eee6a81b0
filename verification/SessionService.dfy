/**
 * The in-memory conversation store (`SessionService`).
 *
 * The two JavaScript `Map`s are fields of type `map`; because a `Map`
 * iterates in insertion order, the order in which conversation ids were
 * inserted is kept beside it in `order`. Identifiers that the source draws
 * from uuid and instants it reads from the clock are parameters.
 */
module Sessions {
  import opened Js
  import opened ServerTypes

  /** Idle conversations older than this are swept. */
  const OneDayMs: int := 24 * 60 * 60 * 1000
  /** `getRecentMessages` without a limit. */
  const DefaultRecentLimit: int := 10
  const DefaultVoice: string := "en-US-Neural2-F"

  predicate NoDuplicates(s: seq<string>) {
    forall i, j :: 0 <= i < j < |s| ==> s[i] != s[j]
  }

  /** `s` without any occurrence of `x`. */
  function Without(s: seq<string>, x: string): (r: seq<string>)
    ensures forall y :: y in r <==> y in s && y != x
  {
    if |s| == 0 then [] else (if s[0] == x then [] else [s[0]]) + Without(s[1..], x)
  }

  lemma {:induction false} WithoutAbsent(s: seq<string>, x: string)
    requires x !in s
    ensures Without(s, x) == s
  {
    if |s| > 0 {
      WithoutAbsent(s[1..], x);
    }
  }

  lemma {:induction false} WithoutConcat(a: seq<string>, b: seq<string>, x: string)
    ensures Without(a + b, x) == Without(a, x) + Without(b, x)
  {
    if |a| > 0 {
      assert (a + b)[1..] == a[1..] + b;
      WithoutConcat(a[1..], b, x);
    } else {
      assert a + b == b;
    }
  }

  lemma ConsNoDuplicates(a: string, t: seq<string>)
    requires NoDuplicates(t) && a !in t
    ensures NoDuplicates([a] + t)
  {
    forall i, j | 0 <= i < j < |[a] + t| ensures ([a] + t)[i] != ([a] + t)[j] {
      if i > 0 {
        assert ([a] + t)[i] == t[i - 1] && ([a] + t)[j] == t[j - 1];
      } else {
        assert ([a] + t)[j] == t[j - 1];
      }
    }
  }

  lemma {:induction false} WithoutNoDuplicates(s: seq<string>, x: string)
    requires NoDuplicates(s)
    ensures NoDuplicates(Without(s, x))
  {
    if |s| > 0 {
      var t := Without(s[1..], x);
      assert NoDuplicates(s[1..]) by {
        forall i, j | 0 <= i < j < |s[1..]| ensures s[1..][i] != s[1..][j] {
          assert s[1..][i] == s[i + 1] && s[1..][j] == s[j + 1];
        }
      }
      WithoutNoDuplicates(s[1..], x);
      if s[0] != x {
        assert s[0] !in s[1..] by {
          forall i | 0 <= i < |s[1..]| ensures s[1..][i] != s[0] { assert s[1..][i] == s[i + 1]; }
        }
        ConsNoDuplicates(s[0], t);
      } else {
        assert Without(s, x) == t;
      }
    }
  }

  /** A conversation the hourly sweep removes. */
  predicate Expired(c: Conversation, now: int) {
    now - c.updatedAt > OneDayMs
  }

  /** The ids of `keys`, in their order, whose conversation survives a sweep at `now`. */
  function SurvivingKeys(keys: seq<string>, m: map<string, Conversation>, now: int): (r: seq<string>)
    ensures forall k :: k in r <==> k in keys && k in m && !Expired(m[k], now)
    ensures NoDuplicates(keys) ==> NoDuplicates(r)
  {
    if |keys| == 0 then []
    else
      var k := keys[|keys| - 1];
      SurvivingKeys(keys[..|keys| - 1], m, now) + (if k in m && !Expired(m[k], now) then [k] else [])
  }

  /** The conversations that survive a sweep at `now`, unchanged. */
  function Surviving(m: map<string, Conversation>, now: int): (r: map<string, Conversation>)
    ensures forall k :: k in r <==> k in m && !Expired(m[k], now)
    ensures forall k :: k in r ==> r[k] == m[k]
  {
    map k | k in m && !Expired(m[k], now) :: m[k]
  }

  /** Sum of the message counts of the conversations listed in `keys`. */
  function MessageCount(keys: seq<string>, m: map<string, Conversation>): nat {
    if |keys| == 0 then 0
    else
      var k := keys[|keys| - 1];
      MessageCount(keys[..|keys| - 1], m) + (if k in m then |m[k].messages| else 0)
  }

  lemma {:induction false} MessageCountUnaffected(keys: seq<string>, m: map<string, Conversation>, id: string, c: Conversation)
    requires id !in keys
    ensures MessageCount(keys, m[id := c]) == MessageCount(keys, m)
  {
    if |keys| > 0 {
      MessageCountUnaffected(keys[..|keys| - 1], m, id, c);
    }
  }

  /** Appending one message to one listed conversation adds exactly one to the total. */
  lemma {:induction false} MessageCountAfterAppend(
    keys: seq<string>, m: map<string, Conversation>, id: string, c: Conversation)
    requires NoDuplicates(keys) && id in keys && id in m
    requires |c.messages| == |m[id].messages| + 1
    ensures MessageCount(keys, m[id := c]) == MessageCount(keys, m) + 1
  {
    var n := |keys|;
    var init := keys[..n - 1];
    if keys[n - 1] == id {
      assert id !in init;
      MessageCountUnaffected(init, m, id, c);
    } else {
      assert id in init;
      MessageCountAfterAppend(init, m, id, c);
    }
  }

  predicate UpdatedDescending(s: seq<Conversation>) {
    forall i, j :: 0 <= i < j < |s| ==> s[i].updatedAt >= s[j].updatedAt
  }

  /** Inserts `c` ahead of the first conversation updated no later than it. */
  function InsertByUpdated(c: Conversation, s: seq<Conversation>): seq<Conversation> {
    if |s| == 0 || c.updatedAt >= s[0].updatedAt then [c] + s
    else [s[0]] + InsertByUpdated(c, s[1..])
  }

  lemma {:induction false} InsertByUpdatedPermutes(c: Conversation, s: seq<Conversation>)
    ensures multiset(InsertByUpdated(c, s)) == multiset(s) + multiset{c}
  {
    if |s| > 0 && c.updatedAt < s[0].updatedAt {
      InsertByUpdatedPermutes(c, s[1..]);
      assert s == [s[0]] + s[1..];
    }
  }

  lemma {:induction false} InsertByUpdatedSorted(c: Conversation, s: seq<Conversation>)
    requires UpdatedDescending(s)
    ensures UpdatedDescending(InsertByUpdated(c, s))
  {
    if |s| > 0 && c.updatedAt < s[0].updatedAt {
      var rest := InsertByUpdated(c, s[1..]);
      InsertByUpdatedSorted(c, s[1..]);
      assert rest[0] == c || rest[0] == s[1..][0];
      var r := [s[0]] + rest;
      assert s[0].updatedAt >= rest[0].updatedAt;
      forall i, j | 0 <= i < j < |r| ensures r[i].updatedAt >= r[j].updatedAt {
        if i > 0 {
          assert r[i] == rest[i - 1] && r[j] == rest[j - 1];
        } else {
          assert r[j] == rest[j - 1];
          assert rest[0].updatedAt >= rest[j - 1].updatedAt;
        }
      }
    } else if |s| > 0 {
      var r := [c] + s;
      forall i, j | 0 <= i < j < |r| ensures r[i].updatedAt >= r[j].updatedAt {
        if i > 0 {
          assert r[i] == s[i - 1] && r[j] == s[j - 1];
        } else {
          assert r[j] == s[j - 1];
        }
      }
    }
  }

  /** The sort `(a, b) => updatedAt(b) - updatedAt(a)`: most recently updated first. */
  function SortByUpdatedDesc(s: seq<Conversation>): (r: seq<Conversation>)
    ensures multiset(r) == multiset(s)
    ensures UpdatedDescending(r)
  {
    if |s| == 0 then []
    else
      var sorted := SortByUpdatedDesc(s[1..]);
      InsertByUpdatedPermutes(s[0], sorted);
      InsertByUpdatedSorted(s[0], sorted);
      assert s == [s[0]] + s[1..];
      InsertByUpdated(s[0], sorted)
  }

  /** The conversations listed in `keys` whose userId is `userId`, in the order of `keys`. */
  function OwnedBy(keys: seq<string>, m: map<string, Conversation>, userId: string): (r: seq<Conversation>)
    ensures forall c :: c in r ==> c.userId == Some(userId) && exists k :: k in keys && k in m && m[k] == c
    ensures forall k :: k in keys && k in m && m[k].userId == Some(userId) ==> m[k] in r
  {
    if |keys| == 0 then []
    else
      var k := keys[0];
      (if k in m && m[k].userId == Some(userId) then [m[k]] else []) + OwnedBy(keys[1..], m, userId)
  }

  /** `messages.slice(-limit)` */
  function SliceLast(s: seq<ChatMessage>, limit: int): (r: seq<ChatMessage>)
    ensures limit >= 1 ==> |r| == (if limit < |s| then limit else |s|) && r == s[|s| - |r|..]
    ensures limit == 0 ==> r == s
    ensures limit < 0 ==> r == s[(if -limit < |s| then -limit else |s|)..]
  {
    if limit > 0 then s[(if limit < |s| then |s| - limit else 0)..]
    else s[(if -limit < |s| then -limit else |s|)..]
  }

  /** `m` after the sweep has visited the ids in `visited`. */
  function SweptPrefix(m: map<string, Conversation>, visited: seq<string>, now: int): map<string, Conversation> {
    map k | k in m && !(k in visited && Expired(m[k], now)) :: m[k]
  }

  /** Visiting one more id extends the surviving ids by it exactly when it survives. */
  lemma SurvivingKeysStep(keys: seq<string>, i: nat, m: map<string, Conversation>, now: int)
    requires i < |keys|
    ensures SurvivingKeys(keys[..i + 1], m, now)
      == SurvivingKeys(keys[..i], m, now) + (if keys[i] in m && !Expired(m[keys[i]], now) then [keys[i]] else [])
  {
    assert keys[..i + 1][..i] == keys[..i];
  }

  /** Visiting one more id removes it exactly when it has expired. */
  lemma SweptPrefixStep(m: map<string, Conversation>, visited: seq<string>, k: string, now: int)
    ensures SweptPrefix(m, visited + [k], now)
      == if k in m && Expired(m[k], now) then SweptPrefix(m, visited, now) - {k} else SweptPrefix(m, visited, now)
  {
  }

  /** An id listed once is absent from both sides of its position. */
  lemma NotElsewhere(keys: seq<string>, i: nat)
    requires NoDuplicates(keys) && i < |keys|
    ensures keys[i] !in keys[..i] && keys[i] !in keys[i + 1..]
    ensures keys[i..] == [keys[i]] + keys[i + 1..]
  {
    forall j | 0 <= j < i ensures keys[..i][j] != keys[i] { assert keys[..i][j] == keys[j]; }
    forall j | i + 1 <= j < |keys| ensures keys[j] != keys[i] { }
  }

  /** One step of the sweep: visiting `keys[i]` removes it from the map and from the kept ids exactly when it expired. */
  lemma SweepStep(keys: seq<string>, i: nat, m: map<string, Conversation>, now: int)
    requires ConversationsIndexed(m, keys) && i < |keys|
    ensures keys[i] in SweptPrefix(m, keys[..i], now) && SweptPrefix(m, keys[..i], now)[keys[i]] == m[keys[i]]
    ensures Expired(m[keys[i]], now) ==>
      && SurvivingKeys(keys[..i + 1], m, now) == SurvivingKeys(keys[..i], m, now)
      && SweptPrefix(m, keys[..i + 1], now) == SweptPrefix(m, keys[..i], now) - {keys[i]}
    ensures !Expired(m[keys[i]], now) ==>
      && SurvivingKeys(keys[..i + 1], m, now) == SurvivingKeys(keys[..i], m, now) + [keys[i]]
      && SweptPrefix(m, keys[..i + 1], now) == SweptPrefix(m, keys[..i], now)
  {
    var k := keys[i];
    NotElsewhere(keys, i);
    SurvivingKeysStep(keys, i, m, now);
    assert keys[..i + 1] == keys[..i] + [k];
    SweptPrefixStep(m, keys[..i], k, now);
  }

  /** Each conversation is stored under its own id, and `order` lists every id once. */
  ghost predicate ConversationsIndexed(m: map<string, Conversation>, order: seq<string>) {
    && (forall k :: k in m ==> m[k].id == k)
    && (forall k :: k in m <==> k in order)
    && NoDuplicates(order)
  }

  /** Having visited every id, the sweep has removed exactly the expired conversations. */
  lemma SweepComplete(keys: seq<string>, m: map<string, Conversation>, now: int)
    requires ConversationsIndexed(m, keys)
    ensures SweptPrefix(m, keys, now) == Surviving(m, now)
    ensures ConversationsIndexed(Surviving(m, now), SurvivingKeys(keys, m, now))
  {
  }

  class SessionService {
    var conversations: map<string, Conversation>
    /** The ids of `conversations` in insertion order, as the `Map` iterates them. */
    var order: seq<string>
    var users: map<string, User>

    ghost predicate Valid()
      reads this
    {
      ConversationsIndexed(conversations, order) && (forall k :: k in users ==> users[k].id == k)
    }

    /** The store starts with one conversation owned by the user id 'default'. */
    constructor (defaultId: string, now: int)
      ensures Valid()
      ensures conversations == map[defaultId := Conversation(defaultId, Some("default"), [], now, now, VoiceOnly)]
      ensures order == [defaultId] && users == map[]
    {
      conversations := map[defaultId := Conversation(defaultId, Some("default"), [], now, now, VoiceOnly)];
      order := [defaultId];
      users := map[];
    }

    method CreateConversation(userId: Option<string>, frontendType: FrontendType, freshId: string, now: int)
      returns (c: Conversation)
      requires Valid() && freshId !in conversations
      modifies this
      ensures Valid()
      ensures c == Conversation(freshId, userId, [], now, now, frontendType)
      ensures conversations == old(conversations)[freshId := c]
      ensures order == old(order) + [freshId] && users == old(users)
    {
      c := Conversation(freshId, userId, [], now, now, frontendType);
      conversations := conversations[freshId := c];
      order := order + [freshId];
    }

    function GetConversation(id: string): (r: Option<Conversation>)
      reads this
      ensures r.Some? <==> id in conversations
      ensures r.Some? ==> r.value == conversations[id]
    {
      if id in conversations then Some(conversations[id]) else None
    }

    /**
     * A known, non-empty id returns its conversation and changes nothing;
     * anything else creates a conversation under the fresh id, never under
     * the caller's.
     */
    method GetOrCreateConversation(
      id: Option<string>, userId: Option<string>, frontendType: FrontendType, freshId: string, now: int)
      returns (c: Conversation)
      requires Valid() && freshId !in conversations
      modifies this
      ensures Valid() && users == old(users)
      ensures c.id in conversations && conversations[c.id] == c
      ensures Truthy(id) && id.value in old(conversations) ==>
        c == old(conversations)[id.value] && conversations == old(conversations) && order == old(order)
      ensures !(Truthy(id) && id.value in old(conversations)) ==>
        c == Conversation(freshId, userId, [], now, now, frontendType)
        && conversations == old(conversations)[freshId := c]
        && order == old(order) + [freshId]
    {
      if Truthy(id) && id.value in conversations {
        c := conversations[id.value];
        return;
      }
      c := CreateConversation(userId, frontendType, freshId, now);
    }

    /**
     * Appends `message` to the end of a known conversation and refreshes its
     * `updatedAt`; an unknown id fails and changes nothing.
     */
    method AddMessage(id: string, message: ChatMessage, now: int) returns (r: Result<(), string>)
      requires Valid()
      modifies this
      ensures Valid() && order == old(order) && users == old(users)
      ensures id !in old(conversations) ==>
        r == Fail("Conversation " + id + " not found") && conversations == old(conversations)
      ensures id in old(conversations) ==>
        r.Ok? && conversations == old(conversations)[id :=
          old(conversations)[id].(messages := old(conversations)[id].messages + [message], updatedAt := now)]
    {
      if id !in conversations {
        return Fail("Conversation " + id + " not found");
      }
      var c := conversations[id];
      conversations := conversations[id := c.(messages := c.messages + [message], updatedAt := now)];
      r := Ok(());
    }

    /** The messages of a conversation; none for an unknown id. */
    function GetMessages(id: string): (r: seq<ChatMessage>)
      reads this
      ensures id in conversations ==> r == conversations[id].messages
      ensures id !in conversations ==> r == []
    {
      if id in conversations then conversations[id].messages else []
    }

    /**
     * `getMessages(id).slice(-limit)`, the limit defaulting to 10: the last
     * `limit` messages for a positive limit, all of them for 0, all but the
     * first `-limit` for a negative one.
     */
    function GetRecentMessages(id: string, limit: Option<int>): (r: seq<ChatMessage>)
      reads this
      ensures var n := limit.GetOr(DefaultRecentLimit);
        && (n >= 1 ==>
              |r| == (if n < |GetMessages(id)| then n else |GetMessages(id)|)
              && r == GetMessages(id)[|GetMessages(id)| - |r|..])
        && (n == 0 ==> r == GetMessages(id))
        && (n < 0 ==> r == GetMessages(id)[(if -n < |GetMessages(id)| then -n else |GetMessages(id)|)..])
      ensures limit.None? ==> |r| == (if |GetMessages(id)| < 10 then |GetMessages(id)| else 10)
    {
      SliceLast(GetMessages(id), limit.GetOr(DefaultRecentLimit))
    }

    /** Empties the messages of a known conversation and keeps its identity; an unknown id is ignored. */
    method ClearConversation(id: string, now: int)
      requires Valid()
      modifies this
      ensures Valid() && order == old(order) && users == old(users)
      ensures id !in old(conversations) ==> conversations == old(conversations)
      ensures id in old(conversations) ==>
        conversations == old(conversations)[id := old(conversations)[id].(messages := [], updatedAt := now)]
    {
      if id in conversations {
        var c := conversations[id];
        conversations := conversations[id := c.(messages := [], updatedAt := now)];
      }
    }

    /** Removes a conversation and reports whether it was there. */
    method DeleteConversation(id: string) returns (present: bool)
      requires Valid()
      modifies this
      ensures Valid() && users == old(users)
      ensures present <==> id in old(conversations)
      ensures conversations == old(conversations) - {id}
      ensures order == Without(old(order), id)
    {
      present := id in conversations;
      WithoutNoDuplicates(order, id);
      conversations := conversations - {id};
      order := Without(order, id);
    }

    /** The conversations of one user, most recently updated first. */
    function GetUserConversations(userId: string): (r: seq<Conversation>)
      reads this
      requires Valid()
      ensures forall c :: c in r ==> c.userId == Some(userId) && c.id in conversations && conversations[c.id] == c
      ensures forall k :: k in conversations && conversations[k].userId == Some(userId) ==> conversations[k] in r
      ensures UpdatedDescending(r)
      ensures multiset(r) == multiset(OwnedBy(order, conversations, userId))
    {
      var owned := OwnedBy(order, conversations, userId);
      var r := SortByUpdatedDesc(owned);
      assert forall c :: c in r ==> c in owned by {
        forall c | c in r ensures c in owned { assert c in multiset(r); }
      }
      assert forall c :: c in owned ==> c in r by {
        forall c | c in owned ensures c in r { assert c in multiset(owned); }
      }
      r
    }

    /** Registers a user with the default preferences under a fresh id. */
    method CreateUser(name: string, email: Option<string>, freshId: string) returns (u: User)
      requires Valid() && freshId !in users
      modifies this
      ensures Valid() && conversations == old(conversations) && order == old(order)
      ensures u == User(freshId, name, email, Preferences(DefaultVoice, 1.0, Web))
      ensures users == old(users)[freshId := u]
    {
      u := User(freshId, name, email, Preferences(DefaultVoice, 1.0, Web));
      users := users[freshId := u];
    }

    function GetUser(id: string): (r: Option<User>)
      reads this
      ensures r.Some? <==> id in users
      ensures r.Some? ==> r.value == users[id]
    {
      if id in users then Some(users[id]) else None
    }

    /** `{...preferences, ...patch}` for a known user; an unknown user is ignored. */
    method UpdateUserPreferences(userId: string, patch: PreferencesPatch)
      requires Valid()
      modifies this
      ensures Valid() && conversations == old(conversations) && order == old(order)
      ensures userId !in old(users) ==> users == old(users)
      ensures userId in old(users) ==>
        var p := old(users)[userId].preferences;
        users == old(users)[userId := old(users)[userId].(preferences := Preferences(
          patch.defaultVoice.GetOr(p.defaultVoice),
          patch.defaultSpeed.GetOr(p.defaultSpeed),
          patch.frontendType.GetOr(p.frontendType)))]
    {
      if userId in users {
        var u := users[userId];
        var p := u.preferences;
        var merged := Preferences(
          patch.defaultVoice.GetOr(p.defaultVoice),
          patch.defaultSpeed.GetOr(p.defaultSpeed),
          patch.frontendType.GetOr(p.frontendType));
        users := users[userId := u.(preferences := merged)];
      }
    }

    /**
     * The hourly sweep: walks the conversations in insertion order and
     * deletes, in place, every one idle for more than a day.
     */
    method CleanupOldConversations(now: int)
      requires Valid()
      modifies this
      ensures Valid() && users == old(users)
      ensures conversations == Surviving(old(conversations), now)
      ensures order == SurvivingKeys(old(order), old(conversations), now)
    {
      var keys := order;
      ghost var m0 := conversations;
      var kept := [];
      var i := 0;
      while i < |keys|
        invariant 0 <= i <= |keys|
        invariant ConversationsIndexed(m0, keys)
        invariant users == old(users) && order == keys
        invariant kept == SurvivingKeys(keys[..i], m0, now)
        invariant conversations == SweptPrefix(m0, keys[..i], now)
      {
        var k := keys[i];
        SweepStep(keys, i, m0, now);
        if Expired(conversations[k], now) {
          conversations := conversations - {k};
        } else {
          kept := kept + [k];
        }
        i := i + 1;
      }
      assert keys[..i] == keys;
      SweepComplete(keys, m0, now);
      order := kept;
    }

    /** Totals over the store: conversations, messages summed over every conversation, users. */
    method GetStats() returns (s: Stats)
      requires Valid()
      ensures s.totalConversations == |conversations| && s.totalUsers == |users|
      ensures s.totalMessages == MessageCount(order, conversations)
    {
      var total := 0;
      var i := 0;
      while i < |order|
        invariant 0 <= i <= |order|
        invariant total == MessageCount(order[..i], conversations)
      {
        assert order[..i + 1][..i] == order[..i];
        total := total + |conversations[order[i]].messages|;
        i := i + 1;
      }
      assert order[..i] == order;
      s := Stats(|conversations|, total, |users|);
    }
  }

  /** After a successful append, the message total reported by the statistics grows by one. */
  lemma StatsCountAppendedMessage(
    order: seq<string>, m: map<string, Conversation>, id: string, message: ChatMessage, now: int)
    requires NoDuplicates(order) && (forall k :: k in m <==> k in order) && id in m
    ensures MessageCount(order, m[id := m[id].(messages := m[id].messages + [message], updatedAt := now)])
         == MessageCount(order, m) + 1
  {
    MessageCountAfterAppend(order, m, id, m[id].(messages := m[id].messages + [message], updatedAt := now));
  }
}
