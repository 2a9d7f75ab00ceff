/**
 The `POST /api/chat` handler (app/api/chat/route.ts) with its network and
 JSON parsing abstracted: the request body arrives already decoded (or as
 undecodable), and the language-model server is a function from the
 outbound request to one of the outcomes the handler distinguishes.
 */
module ChatRoute {
  import opened Turns
  import opened Normalizer

  const NoMessagesText: string := "No messages provided."
  const ParseErrorText: string := "Error parsing LLM response"
  const GenerateErrorText: string := "Error generating response."

  /** The model id named in every outbound request. */
  const ModelId: string := "ai/gemma3"

  /** The body the route posts to the inference server. */
  datatype CompletionRequest = CompletionRequest(model: string, messages: seq<ChatMessage>, stream: bool)

  /** `{ content }` of a completion choice; None when the field is absent or not a string. */
  datatype CompletionMessage = CompletionMessage(content: Option<string>)

  /** `{ message }` of a completion choice; None when the field is absent or null. */
  datatype Choice = Choice(message: Option<CompletionMessage>)

  /**
   A decoded completion body. `NullBody` is the JSON literal `null`, on which
   reading `.choices` throws; any other value is `Completion`, with `choices`
   None when it is absent. A string, or another value whose `0` entry has no
   `message`, behaves the same; an object whose `0` entry is a choice is not
   represented.
   */
  datatype Completion = NullBody | Completion(choices: Option<seq<Choice>>)

  /**
   What one call to the inference server yields: the call or the read of its
   body threw, the body text was not JSON, or it decoded to a value.
   */
  datatype Upstream = Threw | NotJson | Parsed(data: Completion)

  /**
   The incoming request. `Unreadable` is a body whose JSON could not be read,
   and also one that decodes to `null`, on which destructuring `messages`
   throws; both end in the catch. Otherwise `messages` is absent (or `null`)
   or a list of turns.
   */
  datatype RequestBody = Unreadable | RequestBody(messages: Option<seq<Turn>>)

  /** The completion the handler substitutes when the server's body is not JSON. */
  const ParseFallback: Completion :=
    Completion(Some([Choice(Some(CompletionMessage(Some(ParseErrorText))))]))

  function OutboundRequest(chat: seq<ChatMessage>): CompletionRequest
  {
    CompletionRequest(ModelId, chat, false)
  }

  /**
   `data.choices?.[0]?.message?.content` on a non-null body: a string
   exactly when the first choice carries a message with string content, and
   then that content.
   */
  function Content(choices: Option<seq<Choice>>): (r: Option<string>)
    ensures r.Some? <==> HasContent(Completion(choices))
    ensures r.Some? ==> r == choices.value[0].message.value.content
  {
    if choices.None? || |choices.value| == 0 then None
    else if choices.value[0].message.None? then None
    else choices.value[0].message.value.content
  }

  /** True when the body's first choice carries a message with string content. */
  predicate HasContent(data: Completion)
  {
    && data.Completion?
    && data.choices.Some?
    && |data.choices.value| > 0
    && data.choices.value[0].message.Some?
    && data.choices.value[0].message.value.content.Some?
  }

  /**
   The text placed in the reply for one upstream outcome; None when the
   reply's `text` field ends up absent.
   */
  function ReplyText(up: Upstream): (text: Option<string>)
    ensures up.Threw? ==> text == Some(GenerateErrorText)
    ensures up.NotJson? ==> text == Some(ParseErrorText)
    ensures up.Parsed? && up.data.NullBody? ==> text == Some(GenerateErrorText)
    ensures up.Parsed? && up.data.Completion? ==>
      (text.Some? <==> HasContent(up.data))
    ensures up.Parsed? && HasContent(up.data) ==>
      text == up.data.choices.value[0].message.value.content
  {
    match up
    case Threw => Some(GenerateErrorText)
    case NotJson => Content(ParseFallback.choices)
    case Parsed(data) =>
      if data.NullBody? then Some(GenerateErrorText) else Content(data.choices)
  }

  /** The assistant turn the route answers with. */
  function ReplyTurn(now: string, text: Option<string>): Turn
  {
    TextTurn(now, Assistant, text)
  }

  /**
   The whole handler. It always answers with exactly one assistant turn.
   With no messages it answers "No messages provided." and the reply does
   not depend on the inference server; an unreadable request answers
   "Error generating response."; otherwise the normalised list is posted and
   the reply text is chosen from the server's outcome.
   */
  function Handle(req: RequestBody, upstream: CompletionRequest -> Upstream, now: string): (reply: Turn)
    ensures reply.id == now && reply.role == Assistant && |reply.parts| == 1
    ensures req.Unreadable? ==> reply.parts[0].text == Some(GenerateErrorText)
    ensures req.RequestBody? && (req.messages.None? || |req.messages.value| == 0) ==>
      reply.parts[0].text == Some(NoMessagesText)
    ensures req.RequestBody? && req.messages.Some? && |req.messages.value| > 0 ==>
      reply.parts[0].text ==
        ReplyText(upstream(CompletionRequest(ModelId, [SystemPrompt] + Collapse(req.messages.value, System), false)))
  {
    match req
    case Unreadable => ReplyTurn(now, Some(GenerateErrorText))
    case RequestBody(messages) =>
      match Normalize(messages)
      case NoMessages => ReplyTurn(now, Some(NoMessagesText))
      case Forward(chat) => ReplyTurn(now, ReplyText(upstream(OutboundRequest(chat))))
  }

  /**
   With an empty or missing message list no outbound call is made: any two
   inference servers yield the same reply.
   */
  lemma NoMessagesNoOutboundCall(messages: Option<seq<Turn>>, f: CompletionRequest -> Upstream,
                                 g: CompletionRequest -> Upstream, now: string)
    requires messages.None? || |messages.value| == 0
    ensures Handle(RequestBody(messages), f, now) == Handle(RequestBody(messages), g, now)
    ensures Handle(RequestBody(messages), f, now) == TextTurn(now, Assistant, Some(NoMessagesText))
  {
  }

  /**
   With a non-empty message list the server is consulted exactly on the
   normalised list: two servers that agree on that one request yield the
   same reply.
   */
  lemma ReplyDependsOnlyOnForwardedList(messages: seq<Turn>, f: CompletionRequest -> Upstream,
                                        g: CompletionRequest -> Upstream, now: string)
    requires |messages| > 0
    requires f(OutboundRequest(Normalize(Some(messages)).messages)) == g(OutboundRequest(Normalize(Some(messages)).messages))
    ensures Handle(RequestBody(Some(messages)), f, now) == Handle(RequestBody(Some(messages)), g, now)
  {
  }
}
