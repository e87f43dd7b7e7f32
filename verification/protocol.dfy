/** The entities both sides share: conversations and their messages, the
    events the server writes on an event stream, the JSON objects the client
    reads back from it, and the model backend's interface. */
module Protocol {

  datatype Option<+T> = None | Some(value: T)

  datatype Role = User | Assistant

  /** `{role, content}`; the content of an assistant message is sanitized
      text, that of a user message is raw. */
  datatype Message = Message(role: Role, content: string)

  /** `{id, title, messages, createdAt, updatedAt}`; timestamps are readings
      of an integer clock instead of ISO strings. */
  datatype Conversation = Conversation(
    id: string,
    title: string,
    messages: seq<Message>,
    createdAt: int,
    updatedAt: int)

  /** The title every new conversation starts with. */
  const DefaultTitle: string := "Nouvelle conversation"

  /** A conversation with no messages, created and updated at `now`. */
  function NewConversation(id: string, title: string, now: int): (c: Conversation)
    ensures c.id == id && c.title == title && c.messages == []
    ensures c.createdAt == now && c.updatedAt == now
  {
    Conversation(id, title, [], now, now)
  }

  /** The conversation with one more message, its earlier messages intact. */
  function Append(c: Conversation, m: Message): (d: Conversation)
    ensures d.messages == c.messages + [m]
    ensures d.id == c.id && d.title == c.title
    ensures d.createdAt == c.createdAt && d.updatedAt == c.updatedAt
  {
    c.(messages := c.messages + [m])
  }

  /** The JSON payload of one server-sent event, as the server writes it:
      `{content}`, `{done: true, fullResponse}`, `{done: true, title}` or
      `{error}`. */
  datatype Event =
    | Content(content: string)
    | ChatDone(fullResponse: string)
    | TitleDone(title: string)
    | Failure(error: string)

  /** Events that end a session. */
  predicate IsTerminal(e: Event)
  {
    !e.Content?
  }

  /** A parsed JSON object as the client inspects it: each field the client
      reads, with an absent text field read as `''` (falsy) and an absent
      `done` as false. */
  datatype Payload = Payload(
    error: string,
    done: bool,
    fullResponse: string,
    title: string,
    content: string)

  /** The object the client gets back when it parses what the server wrote
      for `e`. */
  function ToPayload(e: Event): (p: Payload)
    ensures e.Content? ==>
      !p.done && p.error == "" && p.content == e.content && p.fullResponse == "" && p.title == ""
    ensures e.ChatDone? ==>
      p.done && p.error == "" && p.fullResponse == e.fullResponse && p.title == "" && p.content == ""
    ensures e.TitleDone? ==>
      p.done && p.error == "" && p.title == e.title && p.fullResponse == "" && p.content == ""
    ensures e.Failure? ==>
      !p.done && p.error == e.error && p.content == "" && p.fullResponse == "" && p.title == ""
  {
    match e
    case Content(c) => Payload("", false, "", "", c)
    case ChatDone(t) => Payload("", true, t, "", "")
    case TitleDone(t) => Payload("", true, "", t, "")
    case Failure(m) => Payload(m, false, "", "", "")
  }

  /** The server-sent events framing of one payload: a `data: ` field line
      followed by a blank line (HTML Living Standard, section 9.2). */
  function Frame(json: string): string
  {
    "data: " + json + "\n\n"
  }

  /** One call to the model backend: the model name, the conversation sent
      as context, and the sampling options. */
  datatype ModelRequest = ModelRequest(
    model: string,
    messages: seq<Message>,
    temperature: real,
    numPredict: nat)

  /** What the backend does with a request: it yields `fragments` in order,
      then either ends normally or throws (`fails`). A throw at the initial
      call is a failing stream with no fragments. */
  datatype ModelStream = ModelStream(fragments: seq<string>, fails: bool)

  /** The model backend, opaque: each request yields some stream. */
  type Backend = ModelRequest -> ModelStream
}
