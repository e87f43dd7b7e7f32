/** The two sides together: what the server writes on an event stream is
    what the client's read loops act on, however whole frames are grouped
    into reads, and both sides then store the same messages. JSON
    serialisation is a pair of parameters, `encode` for the server and
    `parse` for the client, required to agree. */
module Sync {
  import opened Text
  import opened Protocol
  import opened Sanitize
  import opened Server
  import opened Wire
  import opened Client

  /** The objects the client gets back for a list of events. */
  function ToPayloads(es: seq<Event>): (ps: seq<Payload>)
    ensures |ps| == |es| && forall i :: 0 <= i < |es| ==> ps[i] == ToPayload(es[i])
  {
    if es == [] then [] else ToPayloads(es[..|es| - 1]) + [ToPayload(es[|es| - 1])]
  }

  lemma {:induction false} ToPayloadsAppend(a: seq<Event>, b: seq<Event>)
    ensures ToPayloads(a + b) == ToPayloads(a) + ToPayloads(b)
  {
    assert ToPayloads(a + b) == ToPayloads(a) + ToPayloads(b) by {
      forall i | 0 <= i < |a| + |b|
        ensures ToPayloads(a + b)[i] == (ToPayloads(a) + ToPayloads(b))[i]
      {
        if i < |a| { assert (a + b)[i] == a[i]; } else { assert (a + b)[i] == b[i - |a|]; }
      }
    }
  }

  /** `JSON.stringify` and `JSON.parse` agree on events, and the text of an
      event holds no raw line feed (a line feed inside a string is written
      as `\n`). */
  ghost predicate Agree(encode: Event -> string, parse: string -> Option<Payload>)
  {
    forall e :: parse(encode(e)) == Some(ToPayload(e)) && '\n' !in encode(e)
  }

  function Encoded(es: seq<Event>, encode: Event -> string): (js: seq<string>)
    ensures |js| == |es| && forall i :: 0 <= i < |es| ==> js[i] == encode(es[i])
  {
    if es == [] then [] else Encoded(es[..|es| - 1], encode) + [encode(es[|es| - 1])]
  }

  /** Several whole frames written one after the other. */
  function FramesText(jsons: seq<string>): string
  {
    if jsons == [] then "" else FramesText(jsons[..|jsons| - 1]) + Frame(jsons[|jsons| - 1])
  }

  lemma {:induction false} FramesEndWithNewline(jsons: seq<string>)
    requires jsons != []
    ensures FramesText(jsons) != [] && FramesText(jsons)[|FramesText(jsons)| - 1] == '\n'
  {
    var n := |jsons| - 1;
    var f := Frame(jsons[n]);
    assert f[|f| - 1] == '\n';
  }

  /** A final empty line contributes no field. */
  lemma DataFieldsDropEmptyLast(lines: seq<string>)
    requires lines != [] && lines[|lines| - 1] == ""
    ensures DataFields(lines[..|lines| - 1]) == DataFields(lines)
  {
    assert !IsDataLine("");
  }

  /** One more frame after text ending in a line feed adds exactly its
      field. */
  lemma FieldsOfOneMoreFrame(prior: string, json: string)
    requires prior != [] && prior[|prior| - 1] == '\n' && '\n' !in json
    ensures DataFields(SplitLines(prior + Frame(json))) == DataFields(SplitLines(prior)) + [json]
  {
    var f := Frame(json);
    var lp := SplitLines(prior);
    var k := |lp| - 1;
    SplitLinesAfterNewline(prior, f);
    DataFieldsDropEmptyLast(lp);
    DataFieldsAppend(lp[..k], SplitLines(f));
    FrameFields(json);
  }

  /** Frames written back to back are read back field by field, in order. */
  lemma {:induction false} FramesFields(jsons: seq<string>)
    requires forall i :: 0 <= i < |jsons| ==> '\n' !in jsons[i]
    ensures DataFields(SplitLines(FramesText(jsons))) == jsons
  {
    if jsons != [] {
      var n := |jsons| - 1;
      if n == 0 {
        FrameFields(jsons[0]);
        assert FramesText(jsons) == "" + Frame(jsons[0]) == Frame(jsons[0]);
      } else {
        FramesFields(jsons[..n]);
        FramesEndWithNewline(jsons[..n]);
        FieldsOfOneMoreFrame(FramesText(jsons[..n]), jsons[n]);
        assert jsons == jsons[..n] + [jsons[n]];
      }
    }
  }

  /** The reads the client makes: each read holds one or more whole frames,
      the events of `groups[i]` for read `i`. */
  function Reads(groups: seq<seq<Event>>, encode: Event -> string): seq<string>
  {
    if groups == [] then []
    else Reads(groups[..|groups| - 1], encode) + [FramesText(Encoded(groups[|groups| - 1], encode))]
  }

  function Flatten(groups: seq<seq<Event>>): seq<Event>
  {
    if groups == [] then [] else Flatten(groups[..|groups| - 1]) + groups[|groups| - 1]
  }

  /** One read of whole frames yields exactly their events' payloads. */
  lemma ReadOfFrames(es: seq<Event>, encode: Event -> string, parse: string -> Option<Payload>)
    requires Agree(encode, parse)
    ensures ChunkPayloads(FramesText(Encoded(es, encode)), parse) == ToPayloads(es)
  {
    var js := Encoded(es, encode);
    FramesFields(js);
    DecodedEncoded(es, encode, parse);
  }

  lemma {:induction false} DecodedEncoded(es: seq<Event>, encode: Event -> string, parse: string -> Option<Payload>)
    requires Agree(encode, parse)
    ensures Decoded(Encoded(es, encode), parse) == ToPayloads(es)
  {
    if es != [] {
      var n := |es| - 1;
      DecodedEncoded(es[..n], encode, parse);
      var js := Encoded(es, encode);
      assert js[..n] == Encoded(es[..n], encode);
      assert parse(js[n]) == Some(ToPayload(es[n]));
    }
  }

  /** The wire round trip: however the server's frames are grouped into
      reads, the client acts on exactly the events the server wrote, in
      order. */
  lemma {:induction false} WireRoundTrip(groups: seq<seq<Event>>, encode: Event -> string, parse: string -> Option<Payload>)
    requires Agree(encode, parse)
    ensures StreamPayloads(Reads(groups, encode), parse) == ToPayloads(Flatten(groups))
  {
    if groups != [] {
      var n := |groups| - 1;
      WireRoundTrip(groups[..n], encode, parse);
      var rs := Reads(groups, encode);
      assert rs[..|rs| - 1] == Reads(groups[..n], encode);
      ReadOfFrames(groups[n], encode, parse);
      ToPayloadsAppend(Flatten(groups[..n]), groups[n]);
    }
  }

  // ---------------------------------------------------------------------
  // The chat stream, read by the client
  // ---------------------------------------------------------------------

  /** Content events only extend the text on screen, by the raw fragments. */
  lemma {:induction false} ReplayContents(r: Reading, fragments: seq<string>, now: int)
    ensures Replay(r, ToPayloads(ContentEvents(fragments)), now)
         == r.(fullResponse := r.fullResponse + Concat(fragments))
  {
    if fragments != [] {
      var n := |fragments| - 1;
      ReplayContents(r, fragments[..n], now);
      var es := ContentEvents(fragments);
      assert es == ContentEvents(fragments[..n]) + [Content(fragments[n])];
      var ps := ToPayloads(es);
      assert ps[..n] == ToPayloads(ContentEvents(fragments[..n]));
      var q := Replay(r, ps[..n], now);
      assert q.fullResponse + Concat(fragments[..n]) + fragments[n] == q.fullResponse + Concat(fragments);
      assert r.fullResponse + Concat(fragments[..n]) + fragments[n] == r.fullResponse + Concat(fragments);
    }
  }

  /** The client's read loop over a whole chat stream: the raw fragments
      are shown as they come; when the stream ends normally, the cleaned
      answer replaces them and is stored as one assistant message; when it
      fails, nothing is stored. */
  lemma ReplayChatEvents(r: Reading, s: ModelStream, now: int)
    ensures var r' := Replay(r, ToPayloads(ChatEvents(s)), now);
      var answer := CleanResponse(Concat(s.fragments));
      && r'.conversation == (if s.fails then r.conversation
                             else Push(r.conversation, Message(Assistant, answer), now))
      && r'.fullResponse == (if s.fails then r.fullResponse + Concat(s.fragments) else answer)
  {
    var terminal := if s.fails then Failure(ChatFailureText) else ChatDone(CleanResponse(Concat(s.fragments)));
    ToPayloadsAppend(ContentEvents(s.fragments), [terminal]);
    ReplayAppend(r, ToPayloads(ContentEvents(s.fragments)), ToPayloads([terminal]), now);
    ReplayContents(r, s.fragments, now);
    assert ChatFailureText[0] == 'E';
    assert ToPayloads([terminal])[..0] == [];
  }

  /** The messages one chat exchange adds: the user message, then the
      cleaned answer unless the stream failed. */
  function ChatTail(message: string, s: ModelStream): seq<Message>
  {
    [Message(User, message)]
      + (if s.fails then [] else [Message(Assistant, CleanResponse(Concat(s.fragments)))])
  }

  /** A send whose stream adds `extra` after the user message adds the user
      message, then `extra`. */
  lemma SentAdds(client: Conversation, message: string, ps: seq<Payload>, now: int, extra: seq<Message>)
    requires var withUser := Push(client, Message(User, message), now);
      Replay(Reading("", withUser, TitleSeeds(withUser)), ps, now).conversation.messages
        == withUser.messages + extra
    ensures Sent(client, message, ps, now).conversation.messages
         == client.messages + ([Message(User, message)] + extra)
  {
    var user := [Message(User, message)];
    assert client.messages + user + extra == client.messages + (user + extra);
  }

  /** The client side of an exchange adds exactly that tail. */
  lemma ClientAddsChatTail(client: Conversation, message: string, s: ModelStream, now: int)
    ensures Sent(client, message, ToPayloads(ChatEvents(s)), now).conversation.messages
         == client.messages + ChatTail(message, s)
  {
    var withUser := Push(client, Message(User, message), now);
    var r0 := Reading("", withUser, TitleSeeds(withUser));
    ReplayChatEvents(r0, s, now);
    var extra := if s.fails then [] else [Message(Assistant, CleanResponse(Concat(s.fragments)))];
    assert Replay(r0, ToPayloads(ChatEvents(s)), now).conversation.messages == withUser.messages + extra;
    SentAdds(client, message, ToPayloads(ChatEvents(s)), now, extra);
  }

  /** The server side of an exchange adds exactly that tail too. */
  lemma ServerAddsChatTail(table: Table, id: string, message: string, backend: Backend, now: int)
    requires id != ""
    ensures var before := if id in table then table[id] else NewConversation(id, DefaultTitle, now);
      var s := backend(ChatRequest(before.messages + [Message(User, message)]));
      && ChatOutcome(table, message, id, backend, now).table[id].messages == before.messages + ChatTail(message, s)
      && ChatOutcome(table, message, id, backend, now).reply == EventStream(ChatEvents(s))
  {
    var before := if id in table then table[id] else NewConversation(id, DefaultTitle, now);
    var s := backend(ChatRequest(before.messages + [Message(User, message)]));
    var user := [Message(User, message)];
    var extra := if s.fails then [] else [Message(Assistant, CleanResponse(Concat(s.fragments)))];
    var t := Upserted(table, id, "", now);
    assert t[id] == before;
    var withUser := Append(before, Message(User, message));
    assert withUser.messages == before.messages + user;
    var x := ChatExchange(before, message, backend, now);
    assert x.conversation == Answered(withUser, s, now);
    assert x.conversation.messages == withUser.messages + extra;
    assert ChatOutcome(table, message, id, backend, now) == Outcome(t[id := x.conversation], EventStream(x.events));
    assert ChatTail(message, s) == user + extra;
    assert before.messages + user + extra == before.messages + (user + extra);
  }

  /** The chat exchange seen from both sides: whatever the server's history
      of the conversation, the client appends exactly the messages the
      server appends; so when both held the same messages before, they
      hold the same messages after. */
  lemma ChatSync(table: Table, id: string, client: Conversation, message: string, backend: Backend,
                 now: int, clientNow: int, groups: seq<seq<Event>>,
                 encode: Event -> string, parse: string -> Option<Payload>)
    requires id != "" && Agree(encode, parse)
    requires ChatOutcome(table, message, id, backend, now).reply == EventStream(Flatten(groups))
    ensures var before := if id in table then table[id] else NewConversation(id, DefaultTitle, now);
      var served := ChatOutcome(table, message, id, backend, now).table[id];
      var sent := Sent(client, message, StreamPayloads(Reads(groups, encode), parse), clientNow).conversation;
      && |client.messages| <= |sent.messages| && |before.messages| <= |served.messages|
      && sent.messages[|client.messages|..] == served.messages[|before.messages|..]
      && (client.messages == before.messages ==> sent.messages == served.messages)
  {
    var before := if id in table then table[id] else NewConversation(id, DefaultTitle, now);
    var s := backend(ChatRequest(before.messages + [Message(User, message)]));
    ServerAddsChatTail(table, id, message, backend, now);
    WireRoundTrip(groups, encode, parse);
    ClientAddsChatTail(client, message, s, clientNow);
    var tail := ChatTail(message, s);
    var served := ChatOutcome(table, message, id, backend, now).table[id].messages;
    var sent := Sent(client, message, StreamPayloads(Reads(groups, encode), parse), clientNow).conversation.messages;
    assert sent[|client.messages|..] == tail;
    assert served[|before.messages|..] == tail;
  }

  // ---------------------------------------------------------------------
  // The title stream, read by the client
  // ---------------------------------------------------------------------

  lemma {:induction false} TitleReplayContents(title: string, fragments: seq<string>)
    ensures TitleReplay(title, ToPayloads(ContentEvents(fragments))) == title
  {
    if fragments != [] {
      var n := |fragments| - 1;
      TitleReplayContents(title, fragments[..n]);
      var ps := ToPayloads(ContentEvents(fragments));
      assert ps[..n] == ToPayloads(ContentEvents(fragments[..n]));
    }
  }

  /** The title exchange seen from both sides: the client's title becomes
      the server's cleaned title when the generation ends normally with a
      non-empty title, and stays as it was otherwise. */
  lemma TitleSync(table: Table, title: string, seed: string, backend: Backend, groups: seq<seq<Event>>,
                  encode: Event -> string, parse: string -> Option<Payload>)
    requires Agree(encode, parse)
    requires TitleOutcome(table, seed, backend).reply == EventStream(Flatten(groups))
    ensures var s := backend(TitleRequest(seed));
      var cleaned := CleanTitle(Concat(s.fragments));
      TitleReplay(title, StreamPayloads(Reads(groups, encode), parse))
        == (if s.fails || cleaned == "" then title else cleaned)
  {
    var s := backend(TitleRequest(seed));
    WireRoundTrip(groups, encode, parse);
    var terminal := if s.fails then Failure(TitleFailureText) else TitleDone(CleanTitle(Concat(s.fragments)));
    ToPayloadsAppend(ContentEvents(s.fragments), [terminal]);
    TitleReplayAppend(title, ToPayloads(ContentEvents(s.fragments)), ToPayloads([terminal]));
    TitleReplayContents(title, s.fragments);
    assert ToPayloads([terminal])[..0] == [];
  }
}
