/** The browser side: a cache of conversations keyed by id, kept in key
    insertion order, the id of the conversation on screen, and the read
    loops that reconcile the cache with the server's event streams. The
    cache is a class whose methods change it in place; what a read loop
    does over a whole stream is specified by folds over the payloads it
    acts on. */
module Client {
  import opened Text
  import opened Protocol
  import opened Wire

  // ---------------------------------------------------------------------
  // Ids and messages
  // ---------------------------------------------------------------------

  function DigitChar(d: nat): (c: char)
    requires d < 10
    ensures '0' <= c <= '9'
  {
    "0123456789"[d]
  }

  /** The decimal text of a clock reading, as string concatenation writes
      a number. */
  function Decimal(n: nat): (r: string)
    ensures |r| >= 1
    ensures forall i :: 0 <= i < |r| ==> '0' <= r[i] <= '9'
    ensures n >= 10 ==> |r| >= 2
  {
    if n < 10 then [DigitChar(n)] else Decimal(n / 10) + [DigitChar(n % 10)]
  }

  /** `'conv_' + Date.now()`. */
  function ConversationKey(now: nat): (id: string)
    ensures StartsWith(id, "conv_") && |id| > 5
  {
    "conv_" + Decimal(now)
  }

  /** `messages.push(m)` followed by `updatedAt = now`. */
  function Push(c: Conversation, m: Message, now: int): (d: Conversation)
    ensures d.messages == c.messages + [m] && d.updatedAt == now
    ensures d.id == c.id && d.title == c.title && d.createdAt == c.createdAt
  {
    Append(c, m).(updatedAt := now)
  }

  /** The title request a push triggers: the first message's text when the
      conversation has just reached two messages and still has the default
      title, nothing otherwise. */
  function TitleSeeds(c: Conversation): (seeds: seq<string>)
    ensures |seeds| <= 1
    ensures seeds != [] <==> |c.messages| == 2 && c.title == DefaultTitle
    ensures seeds != [] ==> seeds[0] == c.messages[0].content
  {
    if |c.messages| == 2 && c.title == DefaultTitle then [c.messages[0].content] else []
  }

  // ---------------------------------------------------------------------
  // The chat read loop, as a fold over payloads
  // ---------------------------------------------------------------------

  /** What the chat read loop carries from one payload to the next: the
      text on screen, the current conversation, and the title requests
      made so far. */
  datatype Reading = Reading(fullResponse: string, conversation: Conversation, titleSeeds: seq<string>)

  /** One payload of the chat stream. An error is shown and changes
      nothing stored; `done` replaces the text with the server's and
      stores it as the assistant message; content only extends the text. */
  function Step(r: Reading, p: Payload, now: int): (r': Reading)
    ensures p.error != "" ==> r' == r
    ensures p.error == "" && p.done ==>
      && r'.fullResponse == p.fullResponse
      && r'.conversation == Push(r.conversation, Message(Assistant, p.fullResponse), now)
      && r'.titleSeeds == r.titleSeeds + TitleSeeds(r'.conversation)
    ensures p.error == "" && !p.done ==>
      && r'.conversation == r.conversation && r'.titleSeeds == r.titleSeeds
      && r'.fullResponse == r.fullResponse + p.content
  {
    if p.error != "" then r
    else if p.done then
      var c := Push(r.conversation, Message(Assistant, p.fullResponse), now);
      Reading(p.fullResponse, c, r.titleSeeds + TitleSeeds(c))
    else if p.content != "" then r.(fullResponse := r.fullResponse + p.content)
    else r
  }

  /** The loop over every payload, in order. */
  function Replay(r: Reading, ps: seq<Payload>, now: int): Reading
  {
    if ps == [] then r else Step(Replay(r, ps[..|ps| - 1], now), ps[|ps| - 1], now)
  }

  lemma ReplayOne(r: Reading, p: Payload, now: int)
    ensures Replay(r, [p], now) == Step(r, p, now)
  {
    assert [p][..0] == [];
  }

  /** Replaying two pieces of a stream one after the other is replaying
      the whole. */
  lemma {:induction false} ReplayAppend(r: Reading, a: seq<Payload>, b: seq<Payload>, now: int)
    ensures Replay(r, a + b, now) == Replay(Replay(r, a, now), b, now)
    decreases |b|
  {
    if b == [] {
      assert a + b == a;
    } else {
      assert (a + b)[..|a + b| - 1] == a + b[..|b| - 1];
      ReplayAppend(r, a, b[..|b| - 1], now);
    }
  }

  /** The payloads that store an answer: those without an error that are
      `done`. */
  predicate IsAnswer(p: Payload)
  {
    p.error == "" && p.done
  }

  /** The assistant messages the stored answers make, in order. */
  function Answers(ps: seq<Payload>): seq<Message>
  {
    if ps == [] then []
    else
      var p := ps[|ps| - 1];
      Answers(ps[..|ps| - 1]) + (if IsAnswer(p) then [Message(Assistant, p.fullResponse)] else [])
  }

  /** The loop touches nothing but the current conversation's messages and
      `updatedAt`: it appends exactly one assistant message per answer, in
      order, with the server's text, and keeps everything before. */
  lemma {:induction false} ReplayAppendsAnswers(r: Reading, ps: seq<Payload>, now: int)
    ensures var c := Replay(r, ps, now).conversation;
      && c.messages == r.conversation.messages + Answers(ps)
      && c.id == r.conversation.id && c.title == r.conversation.title
      && c.createdAt == r.conversation.createdAt
  {
    if ps != [] {
      ReplayAppendsAnswers(r, ps[..|ps| - 1], now);
    }
  }

  /** Without an answer in the stream, the stored conversation and the
      title requests are exactly as before. */
  lemma {:induction false} ReplayWithoutAnswer(r: Reading, ps: seq<Payload>, now: int)
    requires forall i :: 0 <= i < |ps| ==> !IsAnswer(ps[i])
    ensures Replay(r, ps, now).conversation == r.conversation
    ensures Replay(r, ps, now).titleSeeds == r.titleSeeds
  {
    if ps != [] {
      ReplayWithoutAnswer(r, ps[..|ps| - 1], now);
    }
  }

  /** Over the loop the title is requested at most once: exactly when the
      conversation goes from fewer than two messages to at least two with
      the default title, and then with the first message. */
  lemma {:induction false} ReplayTitleSeeds(r: Reading, ps: seq<Payload>, now: int)
    ensures var r' := Replay(r, ps, now);
      && r'.conversation.title == r.conversation.title
      && |r.conversation.messages| <= |r'.conversation.messages|
      && r'.conversation.messages[..|r.conversation.messages|] == r.conversation.messages
      && r'.titleSeeds == r.titleSeeds +
           (if |r.conversation.messages| < 2 <= |r'.conversation.messages|
               && r.conversation.title == DefaultTitle
            then [r'.conversation.messages[0].content] else [])
  {
    if ps != [] {
      var q := Replay(r, ps[..|ps| - 1], now);
      ReplayTitleSeeds(r, ps[..|ps| - 1], now);
      var r' := Step(q, ps[|ps| - 1], now);
      var n := |r.conversation.messages|;
      assert r'.conversation.messages[..|q.conversation.messages|] == q.conversation.messages;
      assert r'.conversation.messages[..n] == q.conversation.messages[..n];
      if n < 2 <= |q.conversation.messages| {
        assert r'.conversation.messages[0] == q.conversation.messages[0];
      }
    }
  }

  /** What sending `message` does to the current conversation `c` when the
      server's stream yields the payloads `ps`: the user message is pushed
      first, with its own title check, then the stream is replayed. */
  function Sent(c: Conversation, message: string, ps: seq<Payload>, now: int): Reading
  {
    var withUser := Push(c, Message(User, message), now);
    Replay(Reading("", withUser, TitleSeeds(withUser)), ps, now)
  }

  /** A send appends the user message and then one assistant message per
      answer the stream carried; with no answer, the user message is the
      only stored change. */
  lemma SentAppends(c: Conversation, message: string, ps: seq<Payload>, now: int)
    ensures var d := Sent(c, message, ps, now).conversation;
      && d.messages == c.messages + [Message(User, message)] + Answers(ps)
      && d.id == c.id && d.title == c.title && d.createdAt == c.createdAt
    ensures (forall i :: 0 <= i < |ps| ==> !IsAnswer(ps[i])) ==>
      Sent(c, message, ps, now).conversation == Push(c, Message(User, message), now)
  {
    var withUser := Push(c, Message(User, message), now);
    ReplayAppendsAnswers(Reading("", withUser, TitleSeeds(withUser)), ps, now);
    if forall i :: 0 <= i < |ps| ==> !IsAnswer(ps[i]) {
      ReplayWithoutAnswer(Reading("", withUser, TitleSeeds(withUser)), ps, now);
    }
  }

  /** Over a whole send the title is requested at most once, with the
      conversation's first message, and only when it had fewer than two
      messages before and at least two after, under the default title. */
  lemma SentTitleOnce(c: Conversation, message: string, ps: seq<Payload>, now: int)
    ensures var r := Sent(c, message, ps, now);
      r.titleSeeds ==
        (if |c.messages| < 2 <= |r.conversation.messages| && c.title == DefaultTitle
         then [r.conversation.messages[0].content] else [])
  {
    var withUser := Push(c, Message(User, message), now);
    var r0 := Reading("", withUser, TitleSeeds(withUser));
    ReplayTitleSeeds(r0, ps, now);
    var r := Replay(r0, ps, now);
    if |withUser.messages| == 2 {
      assert r.conversation.messages[0] == withUser.messages[..2][0];
    }
  }

  // ---------------------------------------------------------------------
  // The title read loop
  // ---------------------------------------------------------------------

  /** A payload of the title stream that carries a title: `done` with a
      non-empty `title`. */
  predicate SetsTitle(p: Payload)
  {
    p.done && p.title != ""
  }

  /** One payload of the title stream: a payload that carries a title
      replaces the title; anything else is ignored. */
  function TitleStep(title: string, p: Payload): (t: string)
    ensures t == title || (SetsTitle(p) && t == p.title)
  {
    if SetsTitle(p) then p.title else title
  }

  function TitleReplay(title: string, ps: seq<Payload>): string
  {
    if ps == [] then title else TitleStep(TitleReplay(title, ps[..|ps| - 1]), ps[|ps| - 1])
  }

  lemma {:induction false} TitleReplayAppend(title: string, a: seq<Payload>, b: seq<Payload>)
    ensures TitleReplay(title, a + b) == TitleReplay(TitleReplay(title, a), b)
    decreases |b|
  {
    if b == [] {
      assert a + b == a;
    } else {
      assert (a + b)[..|a + b| - 1] == a + b[..|b| - 1];
      TitleReplayAppend(title, a, b[..|b| - 1]);
    }
  }

  lemma TitleReplayOne(title: string, p: Payload)
    ensures TitleReplay(title, [p]) == TitleStep(title, p)
  {
    assert [p][..0] == [];
  }

  /** The title after the loop is the last title the stream carries, or
      the old one if it carries none. */
  lemma {:induction false} TitleReplayLast(title: string, ps: seq<Payload>)
    ensures var t := TitleReplay(title, ps);
      || (t == title && forall i :: 0 <= i < |ps| ==> !SetsTitle(ps[i]))
      || (exists i :: 0 <= i < |ps| && SetsTitle(ps[i]) && t == ps[i].title
            && forall j :: i < j < |ps| ==> !SetsTitle(ps[j]))
  {
    if ps != [] {
      var n := |ps| - 1;
      var pre := ps[..n];
      TitleReplayLast(title, pre);
      var t := TitleReplay(title, pre);
      assert TitleReplay(title, ps) == TitleStep(t, ps[n]);
      assert forall i :: 0 <= i < n ==> pre[i] == ps[i];
      if SetsTitle(ps[n]) {
        assert TitleReplay(title, ps) == ps[n].title;
      } else if t == title && forall i :: 0 <= i < n ==> !SetsTitle(pre[i]) {
        assert TitleReplay(title, ps) == title;
        assert forall i :: 0 <= i < |ps| ==> !SetsTitle(ps[i]);
      } else {
        var i :| 0 <= i < n && SetsTitle(pre[i]) && t == pre[i].title
          && forall j :: i < j < n ==> !SetsTitle(pre[j]);
        assert TitleReplay(title, ps) == ps[i].title;
        assert forall j :: i < j < |ps| ==> !SetsTitle(ps[j]);
      }
    }
  }

  // ---------------------------------------------------------------------
  // Start-up and rendering helpers
  // ---------------------------------------------------------------------

  /** One `"key": {…}` member of the saved JSON object, in text order. */
  datatype Entry = Entry(key: string, conversation: Conversation)

  predicate Distinct(keys: seq<string>)
  {
    forall i, j :: 0 <= i < j < |keys| ==> keys[i] != keys[j]
  }

  /** The object `JSON.parse` builds from the saved members: a repeated key
      keeps its first position and its last value. */
  datatype Parsed = Parsed(keys: seq<string>, conversations: map<string, Conversation>)

  function FromEntries(entries: seq<Entry>): (p: Parsed)
    ensures Distinct(p.keys)
    ensures forall k :: k in p.conversations <==> k in p.keys
    ensures forall k :: k in p.conversations <==> exists i :: 0 <= i < |entries| && entries[i].key == k
    ensures entries != [] ==> p.keys != [] && p.keys[0] == entries[0].key
  {
    if entries == [] then Parsed([], map[])
    else
      var e := entries[|entries| - 1];
      var prior := FromEntries(entries[..|entries| - 1]);
      assert forall i :: 0 <= i < |entries| - 1 ==> entries[..|entries| - 1][i] == entries[i];
      var keys := if e.key in prior.conversations then prior.keys else prior.keys + [e.key];
      assert keys[0] == entries[0].key by {
        if |entries| > 1 {
          assert prior.keys != [] && keys[0] == prior.keys[0];
        }
      }
      Parsed(keys, prior.conversations[e.key := e.conversation])
  }

  /** The position of the first `k` in `s`. */
  function IndexOf(s: seq<string>, k: string): (i: nat)
    requires k in s
    ensures i < |s| && s[i] == k && forall j :: 0 <= j < i ==> s[j] != k
  {
    if s[0] == k then 0 else 1 + IndexOf(s[1..], k)
  }

  lemma IndexOfExtend(s: seq<string>, t: seq<string>, k: string)
    requires k in s
    ensures IndexOf(s + t, k) == IndexOf(s, k)
  {
    var i := IndexOf(s, k);
    assert (s + t)[i] == k;
    var j := IndexOf(s + t, k);
    assert j <= i;
  }

  /** A key takes the value of its LAST member: no later member names it. */
  lemma {:induction false} FromEntriesLastValue(entries: seq<Entry>, i: nat)
    requires i < |entries|
    requires forall m :: i < m < |entries| ==> entries[m].key != entries[i].key
    ensures entries[i].key in FromEntries(entries).conversations
    ensures FromEntries(entries).conversations[entries[i].key] == entries[i].conversation
  {
    var n := |entries| - 1;
    if i < n {
      var pre := entries[..n];
      assert forall m :: 0 <= m < n ==> pre[m] == entries[m];
      FromEntriesLastValue(pre, i);
      assert entries[n].key != entries[i].key;
    }
  }

  /** Keys are listed in the order of their FIRST member: a key named
      anywhere before the first member naming another key is listed before
      it. */
  lemma {:induction false} FromEntriesFirstSeen(entries: seq<Entry>, i: nat, j: nat)
    requires i < j < |entries|
    requires forall m :: 0 <= m < j ==> entries[m].key != entries[j].key
    ensures var p := FromEntries(entries);
      && entries[i].key in p.keys && entries[j].key in p.keys
      && IndexOf(p.keys, entries[i].key) < IndexOf(p.keys, entries[j].key)
  {
    var n := |entries| - 1;
    var pre := entries[..n];
    var prior := FromEntries(pre);
    var e := entries[n];
    assert forall m :: 0 <= m < n ==> pre[m] == entries[m];
    var p := FromEntries(entries);
    assert p.keys == if e.key in prior.conversations then prior.keys else prior.keys + [e.key];
    var a, b := entries[i].key, entries[j].key;
    assert a in prior.keys by {
      assert pre[i].key == a;
    }
    if j < n {
      FromEntriesFirstSeen(pre, i, j);
      assert b in prior.keys;
      if e.key !in prior.conversations {
        IndexOfExtend(prior.keys, [e.key], a);
        IndexOfExtend(prior.keys, [e.key], b);
      }
    } else {
      assert e.key == b;
      assert b !in prior.conversations by {
        forall m | 0 <= m < n ensures pre[m].key != b {
          assert pre[m] == entries[m];
        }
      }
      IndexOfExtend(prior.keys, [b], a);
      assert p.keys[|prior.keys|] == b;
    }
  }

  /** `keys` without `id`, order kept. */
  function Without(keys: seq<string>, id: string): seq<string>
  {
    if keys == [] then []
    else if keys[0] == id then Without(keys[1..], id)
    else [keys[0]] + Without(keys[1..], id)
  }

  /** Deleting a key leaves exactly the other keys, still distinct, and
      leaves a list without that key as it was. */
  lemma {:induction false} WithoutMembers(keys: seq<string>, id: string)
    ensures forall k :: k in Without(keys, id) <==> k in keys && k != id
    ensures Distinct(keys) ==> Distinct(Without(keys, id))
    ensures id !in keys ==> Without(keys, id) == keys
  {
    if keys != [] {
      WithoutMembers(keys[1..], id);
      assert keys == [keys[0]] + keys[1..];
      assert Distinct(keys) ==> keys[0] !in keys[1..];
    }
  }

  /** Deleting distributes over the pieces of a key list. */
  lemma {:induction false} WithoutAppend(a: seq<string>, b: seq<string>, id: string)
    ensures Without(a + b, id) == Without(a, id) + Without(b, id)
  {
    if a == [] {
      assert a + b == b;
    } else {
      var ab := a + b;
      assert ab[0] == a[0] && ab[1..] == a[1..] + b;
      WithoutAppend(a[1..], b, id);
      if a[0] == id {
        assert Without(ab, id) == Without(ab[1..], id);
        assert Without(a, id) == Without(a[1..], id);
      } else {
        assert Without(ab, id) == [a[0]] + Without(ab[1..], id);
        assert Without(a, id) == [a[0]] + Without(a[1..], id);
      }
    }
  }

  lemma {:induction false} WithoutAbsent(keys: seq<string>, id: string)
    requires id !in keys
    ensures Without(keys, id) == keys
  {
    if keys != [] {
      WithoutAbsent(keys[1..], id);
      assert keys == [keys[0]] + keys[1..];
    }
  }

  /** Deleting a key that occurs once leaves what was before it, then what
      was after it. */
  lemma WithoutOnce(before: seq<string>, id: string, after: seq<string>)
    requires id !in before && id !in after
    ensures Without(before + [id] + after, id) == before + after
  {
    WithoutAbsent(before, id);
    WithoutAbsent(after, id);
    assert Without([id] + after, id) == Without(after, id) by {
      assert ([id] + after)[0] == id && ([id] + after)[1..] == after;
    }
    WithoutAppend(before, [id] + after, id);
    assert before + [id] + after == before + ([id] + after);
  }

  /** Deleting the key at position `i` of a list of distinct keys leaves the
      keys before it, then the keys after it. */
  lemma WithoutAt(keys: seq<string>, i: nat)
    requires Distinct(keys) && i < |keys|
    ensures Without(keys, keys[i]) == keys[..i] + keys[i + 1..]
  {
    var id := keys[i];
    var before, after := keys[..i], keys[i + 1..];
    forall j | 0 <= j < |before| ensures before[j] != id {
      assert before[j] == keys[j] && keys[j] != keys[i];
    }
    forall j | 0 <= j < |after| ensures after[j] != id {
      assert after[j] == keys[i + 1 + j] && keys[i] != keys[i + 1 + j];
    }
    assert keys == before + [id] + after;
    WithoutOnce(before, id, after);
  }

  /** `Object.values`: the conversations in key order. */
  function ValuesInOrder(keys: seq<string>, m: map<string, Conversation>): (vs: seq<Conversation>)
    requires forall k :: k in keys ==> k in m
    ensures |vs| == |keys| && forall i :: 0 <= i < |keys| ==> vs[i] == m[keys[i]]
  {
    if keys == [] then [] else [m[keys[0]]] + ValuesInOrder(keys[1..], m)
  }

  /** Newest first: no conversation is listed after an older one. */
  predicate NewestFirstOrdered(cs: seq<Conversation>)
  {
    forall i, j :: 0 <= i < j < |cs| ==> cs[i].updatedAt >= cs[j].updatedAt
  }

  /** Put `x` before the first conversation not newer than it. */
  function InsertByDate(x: Conversation, cs: seq<Conversation>): (r: seq<Conversation>)
    ensures multiset(r) == multiset(cs) + multiset{x}
    ensures |r| == |cs| + 1 && (r[0] == x || (cs != [] && r[0] == cs[0]))
    ensures NewestFirstOrdered(cs) ==> NewestFirstOrdered(r)
  {
    if cs == [] then [x]
    else if cs[0].updatedAt <= x.updatedAt then [x] + cs
    else
      var rest := InsertByDate(x, cs[1..]);
      assert cs == [cs[0]] + cs[1..];
      [cs[0]] + rest
  }

  /** `Array.prototype.sort` with the newest-first comparator; ties keep
      their earlier order, as the sort is stable. */
  function NewestFirst(cs: seq<Conversation>): (r: seq<Conversation>)
    ensures multiset(r) == multiset(cs)
    ensures NewestFirstOrdered(r)
  {
    if cs == [] then []
    else
      assert cs == [cs[0]] + cs[1..];
      InsertByDate(cs[0], NewestFirst(cs[1..]))
  }

  /** `renderConversationsList`'s order: every conversation of the cache
      listed once, newest first. */
  function RenderOrder(keys: seq<string>, m: map<string, Conversation>): (listed: seq<Conversation>)
    requires Distinct(keys) && forall k :: k in m <==> k in keys
    ensures |listed| == |keys|
    ensures multiset(listed) == multiset(ValuesInOrder(keys, m))
    ensures forall k :: k in m ==> m[k] in listed
    ensures NewestFirstOrdered(listed)
  {
    var values := ValuesInOrder(keys, m);
    var listed := NewestFirst(values);
    assert |listed| == |multiset(listed)| == |multiset(values)| == |keys|;
    assert forall k :: k in m ==> m[k] in listed by {
      forall k | k in m ensures m[k] in listed {
        var i :| 0 <= i < |keys| && keys[i] == k;
        assert values[i] == m[k];
        assert m[k] in multiset(values);
      }
    }
    listed
  }

  lemma UpdateTwice<K, V>(m: map<K, V>, k: K, a: V, b: V)
    ensures m[k := a][k := b] == m[k := b]
  {
  }

  // ---------------------------------------------------------------------
  // The cache
  // ---------------------------------------------------------------------

  /** The globals `conversations` and `currentConversationId`, with the
      object's key order kept beside the map. */
  class ClientCache {
    var conversations: map<string, Conversation>
    var keys: seq<string>
    var current: Option<string>

    /** The key sequence lists each key of the map once. */
    ghost predicate Indexed()
      reads this
    {
      Distinct(keys) && forall k :: k in conversations <==> k in keys
    }

    /** …and the current id, when set, names a conversation. */
    ghost predicate Valid()
      reads this
    {
      Indexed() && (current.Some? ==> current.value in conversations)
    }

    /** `currentConversationId` is truthy: set, and not the empty key. */
    predicate Selected()
      reads this
    {
      current.Some? && current.value != ""
    }

    constructor ()
      ensures Valid() && conversations == map[] && keys == [] && current == None
    {
      conversations, keys, current := map[], [], None;
    }

    /** `loadConversation`: make `id` current, whether or not it names a
        conversation (the rest only renders, and stops early on an unknown
        id); the cache stays valid exactly when it does. */
    method LoadConversation(id: string)
      requires Indexed()
      modifies this
      ensures Indexed() && (Valid() <==> id in conversations)
      ensures conversations == old(conversations) && keys == old(keys) && current == Some(id)
    {
      current := Some(id);
    }

    /** `createNewConversation`: add an empty conversation under a key made
        from the clock and make it current. A key already present (two
        creations within the same millisecond) is overwritten in place. */
    method CreateNewConversation(now: nat)
      requires Indexed()
      modifies this
      ensures Valid()
      ensures var id := ConversationKey(now);
        && conversations == old(conversations)[id := NewConversation(id, DefaultTitle, now)]
        && keys == (if id in old(conversations) then old(keys) else old(keys) + [id])
        && current == Some(id)
    {
      var id := ConversationKey(now);
      if id !in conversations {
        keys := keys + [id];
      }
      conversations := conversations[id := NewConversation(id, DefaultTitle, now)];
      LoadConversation(id);
    }

    /** `loadConversations` at start-up: restore the saved object if there
        is one, then select the saved last id if it names a conversation,
        else the first key, else a new conversation. */
    method LoadConversations(saved: Option<seq<Entry>>, lastId: Option<string>, now: nat)
      requires Indexed()
      modifies this
      ensures Valid()
      ensures saved.None? ==> var id := ConversationKey(now);
        && conversations == old(conversations)[id := NewConversation(id, DefaultTitle, now)]
        && keys == (if id in old(conversations) then old(keys) else old(keys) + [id])
        && current == Some(id)
      ensures saved.Some? ==> var p := FromEntries(saved.value);
        && (lastId.Some? && lastId.value != "" && lastId.value in p.conversations ==>
              conversations == p.conversations && keys == p.keys && current == lastId)
        && (!(lastId.Some? && lastId.value != "" && lastId.value in p.conversations) && p.keys != [] ==>
              conversations == p.conversations && keys == p.keys && current == Some(p.keys[0]))
        && (p.keys == [] ==> var id := ConversationKey(now);
              && conversations == map[id := NewConversation(id, DefaultTitle, now)]
              && keys == [id] && current == Some(id))
    {
      if saved.Some? {
        var parsed := FromEntries(saved.value);
        conversations, keys := parsed.conversations, parsed.keys;
        if lastId.Some? && lastId.value != "" && lastId.value in conversations {
          LoadConversation(lastId.value);
        } else if |keys| > 0 {
          LoadConversation(keys[0]);
        } else {
          CreateNewConversation(now);
        }
      } else {
        CreateNewConversation(now);
      }
    }

    /** `deleteConversation`: after confirmation, drop `id`; if it was
        current, select the first remaining key or create a new
        conversation. */
    method DeleteConversation(id: string, confirmed: bool, now: nat)
      requires Valid()
      modifies this
      ensures Valid()
      ensures !confirmed ==>
        conversations == old(conversations) && keys == old(keys) && current == old(current)
      ensures confirmed && old(current) != Some(id) ==>
        && conversations == old(conversations) - {id}
        && keys == Without(old(keys), id) && current == old(current)
      ensures confirmed && old(current) == Some(id) && Without(old(keys), id) != [] ==>
        && conversations == old(conversations) - {id}
        && keys == Without(old(keys), id) && current == Some(keys[0])
      ensures confirmed && old(current) == Some(id) && Without(old(keys), id) == [] ==>
        var created := ConversationKey(now);
        && conversations == map[created := NewConversation(created, DefaultTitle, now)]
        && keys == [created] && current == Some(created)
    {
      if confirmed {
        WithoutMembers(keys, id);
        conversations := conversations - {id};
        keys := Without(keys, id);
        if current == Some(id) {
          if |keys| > 0 {
            LoadConversation(keys[0]);
          } else {
            assert conversations == map[];
            CreateNewConversation(now);
          }
        }
      }
    }

    /** `renameConversation`: `answer` is what the prompt returned (`None`
        when cancelled); only a non-blank answer renames, to its trim. */
    method RenameConversation(answer: Option<string>, now: int)
      requires Valid()
      modifies this
      ensures Valid() && keys == old(keys) && current == old(current)
      ensures Selected() && answer.Some? && Trim(answer.value) != "" ==>
        conversations == old(conversations)[current.value :=
          old(conversations)[current.value].(title := Trim(answer.value), updatedAt := now)]
      ensures !(Selected() && answer.Some? && Trim(answer.value) != "") ==>
        conversations == old(conversations)
    {
      if !Selected() {
        return;
      }
      if answer.Some? && Trim(answer.value) != "" {
        var id := current.value;
        var newTitle := Trim(answer.value);
        conversations := conversations[id := conversations[id].(title := newTitle, updatedAt := now)];
      }
    }

    /** `addMessage`: with `saveToConv` and a current conversation, push the
        message (role user iff `isUser`) and report the title request the
        push triggers; otherwise only render. */
    method AddMessage(content: string, isUser: bool, saveToConv: bool, now: int)
      returns (titleSeeds: seq<string>)
      requires Valid()
      modifies this
      ensures Valid() && keys == old(keys) && current == old(current)
      ensures saveToConv && Selected() ==>
        var c := Push(old(conversations)[current.value],
                      Message(if isUser then User else Assistant, content), now);
        conversations == old(conversations)[current.value := c] && titleSeeds == TitleSeeds(c)
      ensures !(saveToConv && Selected()) ==> conversations == old(conversations) && titleSeeds == []
    {
      titleSeeds := [];
      if saveToConv && Selected() {
        var id := current.value;
        var c := Push(conversations[id], Message(if isUser then User else Assistant, content), now);
        conversations := conversations[id := c];
        titleSeeds := TitleSeeds(c);
      }
    }

    /** `generateTitle`'s read loop: every `data:` line of every chunk read
        is parsed; a `done` payload with a title renames the current
        conversation, without touching `updatedAt`. */
    method GenerateTitle(chunks: seq<string>, parse: string -> Option<Payload>)
      requires Valid()
      modifies this
      ensures Valid() && keys == old(keys) && current == old(current)
      ensures !Selected() ==> conversations == old(conversations)
      ensures Selected() ==> var id := current.value;
        conversations == old(conversations)[id := old(conversations)[id].(title :=
          TitleReplay(old(conversations)[id].title, StreamPayloads(chunks, parse)))]
    {
      if !Selected() {
        return;
      }
      ghost var id := current.value;
      ghost var c0 := conversations[id];
      var i := 0;
      while i < |chunks|
        invariant 0 <= i <= |chunks|
        invariant Valid() && keys == old(keys) && current == old(current)
        invariant conversations == old(conversations)[id := c0.(title :=
          TitleReplay(c0.title, StreamPayloads(chunks[..i], parse)))]
      {
        ReadTitleChunk(chunks[i], parse);
        StreamPayloadsPrefix(chunks, i, parse);
        TitleReplayAppend(c0.title, StreamPayloads(chunks[..i], parse), ChunkPayloads(chunks[i], parse));
        i := i + 1;
      }
      assert chunks[..i] == chunks;
    }

    /** One chunk of `generateTitle`'s read loop. */
    method ReadTitleChunk(chunk: string, parse: string -> Option<Payload>)
      requires Valid() && current.Some?
      modifies this
      ensures Valid() && keys == old(keys) && current == old(current)
      ensures var id := current.value;
        conversations == old(conversations)[id := old(conversations)[id].(title :=
          TitleReplay(old(conversations)[id].title, ChunkPayloads(chunk, parse)))]
    {
      var lines := SplitLines(chunk);
      var id := current.value;
      var base := conversations;
      var title := base[id].title;
      var j := 0;
      while j < |lines|
        invariant 0 <= j <= |lines|
        invariant keys == old(keys) && current == old(current)
        invariant title == TitleReplay(base[id].title, Decoded(DataFields(lines[..j]), parse))
        invariant conversations == base[id := base[id].(title := title)]
      {
        var line := lines[j];
        ghost var seen := Decoded(DataFields(lines[..j]), parse);
        ghost var title0 := title;
        LinePayloads(lines, j, parse);
        TitleReplayAppend(base[id].title, seen, LinePayload(line, parse));
        if IsDataLine(line) {
          var data := parse(line[|DataPrefix|..]);
          if data.Some? {
            TitleReplayOne(title, data.value);
            if SetsTitle(data.value) && id in conversations {
              title := data.value.title;
              conversations := base[id := base[id].(title := title)];
            }
          }
        }
        assert title == TitleReplay(title0, LinePayload(line, parse));
        j := j + 1;
      }
      assert lines[..j] == lines;
      assert conversations.Keys == base.Keys;
    }

    /** `sendMessage`: send the trimmed input, if any, on the current
        conversation; push it as a user message; then run the read loop
        over every payload of every chunk read back. Returns the text left
        on screen and the title requests made. */
    method SendMessage(input: string, chunks: seq<string>, parse: string -> Option<Payload>, now: int)
      returns (fullResponse: string, titleSeeds: seq<string>)
      requires Valid()
      modifies this
      ensures Valid() && keys == old(keys) && current == old(current)
      ensures Trim(input) == "" || !Selected() ==>
        conversations == old(conversations) && fullResponse == "" && titleSeeds == []
      ensures Trim(input) != "" && Selected() ==>
        var r := Sent(old(conversations)[current.value], Trim(input), StreamPayloads(chunks, parse), now);
        && conversations == old(conversations)[current.value := r.conversation]
        && fullResponse == r.fullResponse && titleSeeds == r.titleSeeds
    {
      var message := Trim(input);
      fullResponse, titleSeeds := "", [];
      if message == "" || !Selected() {
        return;
      }
      var id := current.value;
      ghost var start := conversations;
      titleSeeds := AddMessage(message, true, true, now);
      ghost var withUser := Push(start[id], Message(User, message), now);
      ghost var r0 := Reading("", withUser, TitleSeeds(withUser));
      ghost var r := r0;

      var i := 0;
      while i < |chunks|
        invariant 0 <= i <= |chunks|
        invariant Valid() && keys == old(keys) && current == Some(id)
        invariant r == Replay(r0, StreamPayloads(chunks[..i], parse), now)
        invariant conversations == start[id := r.conversation]
        invariant fullResponse == r.fullResponse && titleSeeds == r.titleSeeds
      {
        fullResponse, titleSeeds := ReadChatChunk(chunks[i], parse, now, fullResponse, titleSeeds);
        ghost var r' := Replay(r, ChunkPayloads(chunks[i], parse), now);
        UpdateTwice(start, id, r.conversation, r'.conversation);
        StreamPayloadsPrefix(chunks, i, parse);
        ReplayAppend(r0, StreamPayloads(chunks[..i], parse), ChunkPayloads(chunks[i], parse), now);
        r := r';
        i := i + 1;
      }
      assert chunks[..i] == chunks;
    }

    /** One chunk of `sendMessage`'s read loop: each `data:` line whose
        field parses is handled in order. */
    method ReadChatChunk(chunk: string, parse: string -> Option<Payload>, now: int, text: string, seeds: seq<string>)
      returns (text': string, seeds': seq<string>)
      requires Valid() && current.Some?
      modifies this
      ensures Valid() && keys == old(keys) && current == old(current)
      ensures var r := Replay(Reading(text, old(conversations)[current.value], seeds), ChunkPayloads(chunk, parse), now);
        && conversations == old(conversations)[current.value := r.conversation]
        && text' == r.fullResponse && seeds' == r.titleSeeds
    {
      var lines := SplitLines(chunk);
      var id := current.value;
      var base := conversations;
      var conversation := base[id];
      ghost var r0 := Reading(text, conversation, seeds);
      text', seeds' := text, seeds;
      var j := 0;
      while j < |lines|
        invariant 0 <= j <= |lines|
        invariant keys == old(keys) && current == old(current)
        invariant conversations == base[id := conversation]
        invariant Reading(text', conversation, seeds') == Replay(r0, Decoded(DataFields(lines[..j]), parse), now)
      {
        var line := lines[j];
        ghost var seen := Decoded(DataFields(lines[..j]), parse);
        ghost var before := Reading(text', conversation, seeds');
        LinePayloads(lines, j, parse);
        ReplayAppend(r0, seen, LinePayload(line, parse), now);
        if IsDataLine(line) {
          var data := parse(line[|DataPrefix|..]);
          if data.Some? {
            var p := data.value;
            ReplayOne(before, p, now);
            if p.error != "" {
              // shown in place of the answer; nothing is stored
            } else if p.done {
              text' := p.fullResponse;
              conversation := Push(conversation, Message(Assistant, text'), now);
              conversations := base[id := conversation];
              seeds' := seeds' + TitleSeeds(conversation);
            } else if p.content != "" {
              text' := text' + p.content;
            }
          }
        }
        assert Reading(text', conversation, seeds') == Replay(before, LinePayload(line, parse), now);
        j := j + 1;
      }
      assert lines[..j] == lines;
      assert conversations.Keys == base.Keys;
    }
  }
}
