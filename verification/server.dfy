/** The server: an in-memory table of conversations keyed by id, the route
    handlers that read and change it, and the relay that forwards the model
    backend's fragments to the client as server-sent events. Each handler
    is a method of `ConversationStore`, proved against a function that says
    what the table and the reply become; the lemmas state what the
    handlers promise in terms of those functions. */
module Server {
  import opened Text
  import opened Protocol
  import opened Sanitize

  const ModelName: string := "kai"
  const ChatFailureText: string := "Erreur lors de la communication avec Ollama"
  const TitleFailureText: string := "Erreur génération titre"

  /** The request `/api/chat` sends: the whole conversation, including the
      new user message, with the chat sampling options. */
  function ChatRequest(context: seq<Message>): ModelRequest
  {
    ModelRequest(ModelName, context, 0.8, 4000)
  }

  /** The one-shot prompt `/api/generate-title` builds around the seed:
      the seed in double quotes, between an instruction and the rules the
      answer must follow. */
  const TitlePromptHead: string :=
    "Génère un titre court et descriptif (3-5 mots maximum) pour une conversation qui commence par : \""
  const TitlePromptTail: string :=
    "\". Réponds UNIQUEMENT avec le titre, sans guillemets, sans ponctuation finale, sans explication."

  function TitlePrompt(message: string): string
  {
    TitlePromptHead + message + TitlePromptTail
  }

  /** The request `/api/generate-title` sends: only the synthesized prompt,
      with the title sampling options. */
  function TitleRequest(message: string): ModelRequest
  {
    ModelRequest(ModelName, [Message(User, TitlePrompt(message))], 0.7, 50)
  }

  /** What a handler answers. */
  datatype Reply =
    | Json(conversation: Conversation)      // 200, the conversation object
    | Deleted                               // 200, {success: true}
    | NotFound                              // 404, {error: 'Conversation non trouvée'}
    | BadRequest                            // 400, {error: 'conversationId requis'}
    | EventStream(events: seq<Event>)       // text/event-stream, one frame per event

  type Table = map<string, Conversation>

  /** Every entry is stored under its own id. */
  ghost predicate WellKeyed(table: Table)
  {
    forall id :: id in table ==> table[id].id == id
  }

  // ---------------------------------------------------------------------
  // The relay
  // ---------------------------------------------------------------------

  /** One `{content}` event per fragment, carrying the raw fragment. */
  function ContentEvents(fragments: seq<string>): seq<Event>
  {
    seq(|fragments|, i requires 0 <= i < |fragments| => Content(fragments[i]))
  }

  /** A relay session: the content events, then one terminal event. */
  function RelayEvents(fragments: seq<string>, terminal: Event): seq<Event>
  {
    ContentEvents(fragments) + [terminal]
  }

  /** The `for await` loop both streaming handlers run: it writes a
      `{content}` event per fragment as it arrives and accumulates the raw
      text. */
  method Forward(fragments: seq<string>) returns (events: seq<Event>, fullResponse: string)
    ensures events == ContentEvents(fragments)
    ensures fullResponse == Concat(fragments)
  {
    events, fullResponse := [], "";
    var i := 0;
    while i < |fragments|
      invariant 0 <= i <= |fragments|
      invariant events == ContentEvents(fragments[..i])
      invariant fullResponse == Concat(fragments[..i])
    {
      var content := fragments[i];
      assert fragments[..i + 1][..i] == fragments[..i];
      fullResponse := fullResponse + content;
      events := events + [Content(content)];
      i := i + 1;
    }
    assert fragments[..i] == fragments;
  }

  /** A relay session emits one content event per fragment, in order, then
      exactly one terminal event, and nothing after it. */
  lemma {:induction false} RelayEventsShape(fragments: seq<string>, terminal: Event)
    requires IsTerminal(terminal)
    ensures var es := RelayEvents(fragments, terminal);
      && |es| == |fragments| + 1
      && (forall i :: 0 <= i < |fragments| ==> es[i] == Content(fragments[i]))
      && es[|es| - 1] == terminal
      && (forall i :: 0 <= i < |es| ==> (IsTerminal(es[i]) <==> i == |es| - 1))
  {
    var es := RelayEvents(fragments, terminal);
    forall i | 0 <= i < |es| ensures IsTerminal(es[i]) <==> i == |es| - 1 {
      if i < |fragments| {
        assert es[i] == ContentEvents(fragments)[i] == Content(fragments[i]);
      }
    }
  }

  /** What `/api/chat` writes on the stream: the terminal event is the
      cleaned answer, or the generic failure when the backend throws. */
  function ChatEvents(s: ModelStream): seq<Event>
  {
    RelayEvents(s.fragments,
      if s.fails then Failure(ChatFailureText) else ChatDone(CleanResponse(Concat(s.fragments))))
  }

  /** What `/api/generate-title` writes on the stream. */
  function TitleEvents(s: ModelStream): seq<Event>
  {
    RelayEvents(s.fragments,
      if s.fails then Failure(TitleFailureText) else TitleDone(CleanTitle(Concat(s.fragments))))
  }

  // ---------------------------------------------------------------------
  // What each handler does to the table, as functions
  // ---------------------------------------------------------------------

  /** The lazy upsert: an existing entry is kept as is; a missing one is
      created with `title || 'Nouvelle conversation'`. */
  function Upserted(table: Table, id: string, title: string, now: int): Table
  {
    if id in table then table
    else table[id := NewConversation(id, if title == "" then DefaultTitle else title, now)]
  }

  /** One chat exchange on conversation `c`: the user message is stored
      before the model is called; the cleaned answer is stored, and
      `updatedAt` refreshed, only when the stream ends normally. */
  datatype Exchange = Exchange(conversation: Conversation, request: ModelRequest, events: seq<Event>)

  function ChatExchange(c: Conversation, message: string, backend: Backend, now: int): Exchange
  {
    var withUser := Append(c, Message(User, message));
    var request := ChatRequest(withUser.messages);
    var s := backend(request);
    Exchange(Answered(withUser, s, now), request, ChatEvents(s))
  }

  /** The conversation once the stream is over: the cleaned answer is
      appended and `updatedAt` refreshed only when it ended normally. */
  function Answered(withUser: Conversation, s: ModelStream, now: int): Conversation
  {
    if s.fails then withUser
    else Append(withUser, Message(Assistant, CleanResponse(Concat(s.fragments)))).(updatedAt := now)
  }

  /** The body of `/api/chat` after the user message is stored: call the
      model with the stored history, relay it, and work out what to store. */
  method RelayChat(withUser: Conversation, backend: Backend, now: int)
    returns (answered: Conversation, events: seq<Event>, failed: bool)
    ensures var s := backend(ChatRequest(withUser.messages));
      && answered == Answered(withUser, s, now)
      && events == ChatEvents(s)
      && failed == s.fails
    ensures failed ==> answered == withUser
  {
    var stream := backend(ChatRequest(withUser.messages));
    var fullResponse;
    events, fullResponse := Forward(stream.fragments);
    failed := stream.fails;
    if failed {
      answered := withUser;
      events := events + [Failure(ChatFailureText)];
    } else {
      var cleanedResponse := CleanResponse(fullResponse);
      answered := Append(withUser, Message(Assistant, cleanedResponse)).(updatedAt := now);
      events := events + [ChatDone(cleanedResponse)];
    }
  }

  /** The table and reply after a handler has run. */
  datatype Outcome = Outcome(table: Table, reply: Reply)

  /** `POST /api/conversation`. */
  function UpsertOutcome(table: Table, id: string, title: string, now: int): Outcome
  {
    var t := Upserted(table, id, title, now);
    Outcome(t, Json(t[id]))
  }

  /** `POST /api/chat`: a falsy id is rejected before anything happens. */
  function ChatOutcome(table: Table, message: string, id: string, backend: Backend, now: int): Outcome
  {
    if id == "" then Outcome(table, BadRequest)
    else
      var t := Upserted(table, id, "", now);
      var x := ChatExchange(t[id], message, backend, now);
      Outcome(t[id := x.conversation], EventStream(x.events))
  }

  /** `PATCH /api/conversation/:id`. */
  function RenameOutcome(table: Table, id: string, title: string, now: int): Outcome
  {
    if id in table then
      var c := table[id].(title := title, updatedAt := now);
      Outcome(table[id := c], Json(c))
    else Outcome(table, NotFound)
  }

  /** `DELETE /api/conversation/:id`. */
  function DeleteOutcome(table: Table, id: string): Outcome
  {
    if id in table then Outcome(table - {id}, Deleted) else Outcome(table, NotFound)
  }

  /** `POST /api/generate-title` does not touch the table. */
  function TitleOutcome(table: Table, message: string, backend: Backend): Outcome
  {
    Outcome(table, EventStream(TitleEvents(backend(TitleRequest(message)))))
  }

  /** A request to one of the routes. */
  datatype Request =
    | PostConversation(conversationId: string, title: string)
    | PostChat(message: string, chatId: string)
    | PatchConversation(patchId: string, newTitle: string)
    | DeleteConversation(deleteId: string)
    | PostGenerateTitle(seed: string)

  function Handle(table: Table, req: Request, backend: Backend, now: int): Outcome
  {
    match req
    case PostConversation(id, title) => UpsertOutcome(table, id, title, now)
    case PostChat(message, id) => ChatOutcome(table, message, id, backend, now)
    case PatchConversation(id, title) => RenameOutcome(table, id, title, now)
    case DeleteConversation(id) => DeleteOutcome(table, id)
    case PostGenerateTitle(message) => TitleOutcome(table, message, backend)
  }

  // ---------------------------------------------------------------------
  // The store
  // ---------------------------------------------------------------------

  /** The server's `conversations` Map, lost when the process ends. */
  class ConversationStore {
    var conversations: Table

    ghost predicate Valid()
      reads this
    {
      WellKeyed(conversations)
    }

    constructor ()
      ensures Valid() && conversations == map[]
    {
      conversations := map[];
    }

    /** `POST /api/conversation`: create or fetch. */
    method Upsert(conversationId: string, title: string, now: int) returns (reply: Reply)
      requires Valid()
      modifies this
      ensures Valid()
      ensures Outcome(conversations, reply) == UpsertOutcome(old(conversations), conversationId, title, now)
    {
      if conversationId !in conversations {
        var t := if title == "" then DefaultTitle else title;
        conversations := conversations[conversationId := NewConversation(conversationId, t, now)];
      }
      reply := Json(conversations[conversationId]);
    }

    /** `POST /api/chat`: store the user message, relay the model's answer,
        store the cleaned answer if the stream ended normally. */
    method Chat(message: string, conversationId: string, backend: Backend, now: int)
      returns (reply: Reply)
      requires Valid()
      modifies this
      ensures Valid()
      ensures Outcome(conversations, reply) == ChatOutcome(old(conversations), message, conversationId, backend, now)
    {
      if conversationId == "" {
        return BadRequest;
      }
      if conversationId !in conversations {
        conversations := conversations[conversationId := NewConversation(conversationId, DefaultTitle, now)];
      }
      var upserted := conversations;
      var conversation := Append(upserted[conversationId], Message(User, message));
      conversations := upserted[conversationId := conversation];

      var answered, events, failed := RelayChat(conversation, backend, now);
      if !failed {
        conversations := upserted[conversationId := answered];
      }
      reply := EventStream(events);
    }

    /** `PATCH /api/conversation/:id`. */
    method Rename(id: string, title: string, now: int) returns (reply: Reply)
      requires Valid()
      modifies this
      ensures Valid()
      ensures Outcome(conversations, reply) == RenameOutcome(old(conversations), id, title, now)
    {
      if id in conversations {
        var conversation := conversations[id].(title := title, updatedAt := now);
        conversations := conversations[id := conversation];
        reply := Json(conversation);
      } else {
        reply := NotFound;
      }
    }

    /** `DELETE /api/conversation/:id`. */
    method Delete(id: string) returns (reply: Reply)
      requires Valid()
      modifies this
      ensures Valid()
      ensures Outcome(conversations, reply) == DeleteOutcome(old(conversations), id)
    {
      if id in conversations {
        conversations := conversations - {id};
        reply := Deleted;
      } else {
        reply := NotFound;
      }
    }
  }

  /** `POST /api/generate-title`: relay a one-shot title generation and end
      with the cleaned title. */
  method GenerateTitle(message: string, backend: Backend) returns (reply: Reply)
    ensures reply == EventStream(TitleEvents(backend(TitleRequest(message))))
  {
    var stream := backend(TitleRequest(message));
    var events, fullResponse := Forward(stream.fragments);
    if stream.fails {
      reply := EventStream(events + [Failure(TitleFailureText)]);
    } else {
      var cleanedTitle := CleanTitle(fullResponse);
      reply := EventStream(events + [TitleDone(cleanedTitle)]);
    }
  }

  // ---------------------------------------------------------------------
  // What the handlers promise
  // ---------------------------------------------------------------------

  /** Upsert on a known id changes nothing; on a new id it adds one empty
      conversation with the given title or the default, and nothing else. */
  lemma UpsertKeepsExisting(table: Table, id: string, title: string, now: int)
    ensures var o := UpsertOutcome(table, id, title, now);
      && id in o.table
      && (id in table ==> o.table == table && o.reply == Json(table[id]))
      && (id !in table ==>
            && o.table.Keys == table.Keys + {id}
            && o.table[id] == NewConversation(id, if title == "" then DefaultTitle else title, now)
            && (forall k :: k in table ==> o.table[k] == table[k]))
  {
  }

  /** Upserting twice is upserting once, whatever the second title. */
  lemma UpsertIdempotent(table: Table, id: string, t1: string, t2: string, n1: int, n2: int)
    ensures var once := UpsertOutcome(table, id, t1, n1).table;
      UpsertOutcome(once, id, t2, n2) == UpsertOutcome(table, id, t1, n1)
  {
  }

  /** A chat request without an id is a 400 before any change or event. */
  lemma ChatWithoutIdRejected(table: Table, message: string, backend: Backend, now: int)
    ensures ChatOutcome(table, message, "", backend, now) == Outcome(table, BadRequest)
  {
  }

  /** A chat on conversation `id` sends the stored history plus the new user
      message to the model; afterwards the conversation holds exactly one
      more user message and, when the stream ended normally, exactly one
      more assistant message with the cleaned concatenated fragments. An
      unknown id is first created with the default title. No other entry
      changes, and the title stays. */
  lemma ChatAppendsExchange(table: Table, message: string, id: string, backend: Backend, now: int)
    requires id != ""
    ensures var before := if id in table then table[id] else NewConversation(id, DefaultTitle, now);
      var s := backend(ChatRequest(before.messages + [Message(User, message)]));
      var o := ChatOutcome(table, message, id, backend, now);
      && o.table.Keys == table.Keys + {id}
      && (forall k :: k in table && k != id ==> o.table[k] == table[k])
      && o.table[id].messages == before.messages + [Message(User, message)]
           + (if s.fails then [] else [Message(Assistant, CleanResponse(Concat(s.fragments)))])
      && o.table[id].title == before.title
      && o.table[id].updatedAt == (if s.fails then before.updatedAt else now)
      && o.reply == EventStream(ChatEvents(s))
  {
  }

  /** When the backend fails, the stream ends with exactly one generic
      error event and no assistant message is stored; the user message
      stays. */
  lemma ChatFailureCommitsNoAnswer(table: Table, message: string, id: string, backend: Backend, now: int)
    requires id != ""
    requires var before := if id in table then table[id] else NewConversation(id, DefaultTitle, now);
      backend(ChatRequest(before.messages + [Message(User, message)])).fails
    ensures var before := if id in table then table[id] else NewConversation(id, DefaultTitle, now);
      var o := ChatOutcome(table, message, id, backend, now);
      && o.table[id] == Append(before, Message(User, message))
      && o.reply.EventStream?
      && o.reply.events[|o.reply.events| - 1] == Failure(ChatFailureText)
      && (forall i :: 0 <= i < |o.reply.events| - 1 ==> o.reply.events[i].Content?)
  {
    var before := if id in table then table[id] else NewConversation(id, DefaultTitle, now);
    var s := backend(ChatRequest(before.messages + [Message(User, message)]));
    RelayEventsShape(s.fragments, Failure(ChatFailureText));
  }

  /** `/api/chat` answers with one raw content event per fragment, in
      arrival order, then exactly one terminal event: the cleaned
      concatenation when the backend ended normally, the generic error when
      it threw. */
  lemma ChatEventsShape(s: ModelStream)
    ensures var es := ChatEvents(s);
      && |es| == |s.fragments| + 1
      && (forall i :: 0 <= i < |s.fragments| ==> es[i] == Content(s.fragments[i]))
      && (forall i :: 0 <= i < |es| ==> (IsTerminal(es[i]) <==> i == |es| - 1))
      && es[|es| - 1] == (if s.fails then Failure(ChatFailureText)
                          else ChatDone(CleanResponse(Concat(s.fragments))))
  {
    RelayEventsShape(s.fragments,
      if s.fails then Failure(ChatFailureText) else ChatDone(CleanResponse(Concat(s.fragments))));
  }

  /** `/api/generate-title` streams the same way and ends with the cleaned
      title or its own generic error. */
  lemma TitleEventsShape(s: ModelStream)
    ensures var es := TitleEvents(s);
      && |es| == |s.fragments| + 1
      && (forall i :: 0 <= i < |s.fragments| ==> es[i] == Content(s.fragments[i]))
      && (forall i :: 0 <= i < |es| ==> (IsTerminal(es[i]) <==> i == |es| - 1))
      && es[|es| - 1] == (if s.fails then Failure(TitleFailureText)
                          else TitleDone(CleanTitle(Concat(s.fragments))))
  {
    RelayEventsShape(s.fragments,
      if s.fails then Failure(TitleFailureText) else TitleDone(CleanTitle(Concat(s.fragments))));
  }

  /** Rename and delete answer 404 exactly when the id is absent, and then
      leave the table as it was. */
  lemma NotFoundChangesNothing(table: Table, id: string, title: string, now: int)
    ensures var r := RenameOutcome(table, id, title, now);
      (r.reply == NotFound <==> id !in table) && (r.reply == NotFound ==> r.table == table)
    ensures var d := DeleteOutcome(table, id);
      (d.reply == NotFound <==> id !in table) && (d.reply == NotFound ==> d.table == table)
  {
  }

  /** Rename on a known id changes only that entry's title and `updatedAt`;
      delete removes only that key. */
  lemma RenameAndDeleteFrames(table: Table, id: string, title: string, now: int)
    requires id in table
    ensures var t := RenameOutcome(table, id, title, now).table;
      && t.Keys == table.Keys
      && t[id].title == title && t[id].updatedAt == now
      && t[id].messages == table[id].messages && t[id].id == table[id].id
      && t[id].createdAt == table[id].createdAt
      && (forall k :: k in table && k != id ==> t[k] == table[k])
    ensures var t := DeleteOutcome(table, id).table;
      t.Keys == table.Keys - {id} && (forall k :: k in t ==> t[k] == table[k])
  {
  }

  /** Messages are append-only: whatever the request, a conversation that
      survives it keeps its earlier messages as a prefix. */
  lemma MessagesAppendOnly(table: Table, req: Request, backend: Backend, now: int, id: string)
    requires id in table && id in Handle(table, req, backend, now).table
    ensures var after := Handle(table, req, backend, now).table[id].messages;
      |table[id].messages| <= |after| && after[..|table[id].messages|] == table[id].messages
  {
    var after := Handle(table, req, backend, now).table[id].messages;
    var m := table[id].messages;
    match req {
      case PostChat(message, cid) =>
        if cid == id && cid != "" {
          ChatAppendsExchange(table, message, cid, backend, now);
          assert after[..|m|] == m;
        }
      case _ =>
    }
  }

  /** Every handler keeps each entry under its own id. */
  lemma HandleKeepsKeys(table: Table, req: Request, backend: Backend, now: int)
    requires WellKeyed(table)
    ensures WellKeyed(Handle(table, req, backend, now).table)
  {
  }
}
