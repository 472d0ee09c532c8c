/** The `/api/ocean-chat` route: a POST handler that checks the module-level
    Groq client, validates the JSON body, maps the history to chat-completion
    messages behind a fixed system prompt and relays the provider's stream of
    text deltas as the response body. The provider is a parameter: what the
    streaming call yields (or that it throws) is given as an `Upstream`. */
module ChatRelay {
  import opened Wrappers
  import Seqs

  /** A value produced by `req.json()`, or read from one. JSON has no NaN and
      no `undefined`; `JsUndefined` is the result of reading a missing property. */
  datatype JsValue =
    | JsUndefined
    | JsNull
    | JsBool(b: bool)
    | JsNumber(n: real)
    | JsString(s: string)
    | JsArray(elements: seq<JsValue>)
    | JsObject(properties: map<string, JsValue>)

  /** JavaScript truthiness, as used by `!x` and `x || y`. */
  predicate Truthy(v: JsValue)
  {
    match v
    case JsUndefined => false
    case JsNull => false
    case JsBool(b) => b
    case JsNumber(n) => n != 0.0
    case JsString(s) => s != ""
    case JsArray(_) => true
    case JsObject(_) => true
  }

  /** Reading a property of `null` or `undefined` throws a TypeError. */
  predicate Nullish(v: JsValue) { v.JsUndefined? || v.JsNull? }

  /** `v.key` for a value that is not nullish (primitives have none of the
      properties read here). */
  function Property(v: JsValue, key: string): JsValue
    requires !Nullish(v)
  {
    if v.JsObject? && key in v.properties then v.properties[key] else JsUndefined
  }

  /** `a || b`. */
  function Or(a: JsValue, b: JsValue): (r: JsValue)
    ensures r == a || r == b
    ensures Truthy(a) ==> r == a
  {
    if Truthy(a) then a else b
  }

  datatype ParamRole = SystemRole | UserRole | AssistantRole

  /** One message of the chat-completion request. */
  datatype ChatParam = ChatParam(role: ParamRole, content: JsValue)

  const SystemPrompt := "You are OceanFront AI, an oceanographic assistant specialized in Indian Ocean data."

  const SystemMessage := ChatParam(SystemRole, JsString(SystemPrompt))

  /** `{ role: m.role === "user" ? "user" : "assistant", content: m.content || m.text || "" }`. */
  function MapMessage(m: JsValue): (r: ChatParam)
    requires !Nullish(m)
    ensures r.role == UserRole <==> Property(m, "role") == JsString("user")
    ensures r.role != SystemRole
    ensures Truthy(Property(m, "content")) ==> r.content == Property(m, "content")
    ensures !Truthy(Property(m, "content")) && Truthy(Property(m, "text")) ==>
              r.content == Property(m, "text")
    ensures !Truthy(Property(m, "content")) && !Truthy(Property(m, "text")) ==>
              r.content == JsString("")
  {
    ChatParam(if Property(m, "role") == JsString("user") then UserRole else AssistantRole,
              Or(Property(m, "content"), Or(Property(m, "text"), JsString(""))))
  }

  /** `messages.map(...)`: fails (a TypeError) when some element is null. */
  function MapHistory(ms: seq<JsValue>): (r: Option<seq<ChatParam>>)
    ensures r.Some? <==> forall i :: 0 <= i < |ms| ==> !Nullish(ms[i])
    ensures r.Some? ==> |r.value| == |ms|
                        && forall i :: 0 <= i < |ms| ==> r.value[i] == MapMessage(ms[i])
  {
    if ms == [] then Some([])
    else if Nullish(ms[0]) then None
    else match MapHistory(ms[1..])
      case None => None
      case Some(rest) => Some([MapMessage(ms[0])] + rest)
  }

  /** The replies the handler can return. A JSON reply stands for
      `NextResponse.json({ parts: [{ type: "text", text }] }, { status })`. */
  datatype Reply =
    | JsonReply(status: nat, text: string)
    | StreamReply(status: nat, contentType: string, chunks: seq<string>, closed: bool)

  const NotConfiguredReply := JsonReply(500, "Error: AI client not configured. Check server logs for API key errors.")
  const BadRequestReply := JsonReply(400, "Bad Request: Invalid message format.")
  const FailureReply := JsonReply(500, "Error: Failed to fetch AI response.")
  const PlainText := "text/plain; charset=utf-8"

  /** Steps 2 and 3 of the handler and the message list of step 4: from the
      parsed body (`None` when `req.json()` rejects) to the messages sent
      upstream, or to the reply the `catch` block or the validation returns. */
  function Prepare(body: Option<JsValue>): Result<seq<ChatParam>, Reply>
  {
    if body.None? || Nullish(body.value) then Failure(FailureReply)
    else
      var messages := Property(body.value, "messages");
      if !Truthy(messages) || !messages.JsArray? then Failure(BadRequestReply)
      else match MapHistory(messages.elements)
        case None => Failure(FailureReply)
        case Some(history) => Success([SystemMessage] + history)
  }

  /** 400 exactly when the body parses to an object-like value whose
      `messages` is not an array (missing, falsy or of another type). */
  lemma BadRequestIff(body: Option<JsValue>)
    ensures Prepare(body) == Failure(BadRequestReply) <==>
              body.Some? && !Nullish(body.value) && !Property(body.value, "messages").JsArray?
  {
  }

  /** An empty history is accepted: only the system message goes upstream. */
  lemma EmptyHistoryAccepted(body: JsValue)
    requires !Nullish(body) && Property(body, "messages") == JsArray([])
    ensures Prepare(Some(body)) == Success([SystemMessage])
  {
    assert MapHistory([]) == Some([]);
    assert [SystemMessage] + [] == [SystemMessage];
  }

  /** The upstream list is the system message followed by the history mapped
      element by element: one longer than the history, in the same order. */
  lemma PrepareShape(body: Option<JsValue>)
    requires Prepare(body).Success?
    ensures body.Some? && !Nullish(body.value) && Property(body.value, "messages").JsArray?
    ensures var ms := Property(body.value, "messages").elements;
            var sent := Prepare(body).value;
            |sent| == |ms| + 1 && sent[0] == SystemMessage
            && forall i :: 0 <= i < |ms| ==> !Nullish(ms[i]) && sent[i + 1] == MapMessage(ms[i])
  {
  }

  /** What the provider's streaming call does: it throws, or it yields chunks
      whose `choices[0]?.delta?.content` is given (`None` when absent), and the
      iteration then ends or throws. */
  datatype Upstream = CallFailed | Deltas(deltas: seq<Option<string>>, endsWithError: bool)

  /** `chunk.choices[0]?.delta?.content || ""`. */
  function DeltaText(d: Option<string>): string
  {
    if d.Some? then d.value else ""
  }

  /** One relayed chunk per delta, in order. */
  function DeltaTexts(ds: seq<Option<string>>): (r: seq<string>)
    ensures |r| == |ds| && forall i :: 0 <= i < |ds| ==> r[i] == DeltaText(ds[i])
  {
    if ds == [] then [] else [DeltaText(ds[0])] + DeltaTexts(ds[1..])
  }

  /** The text the provider produced: the deltas that are present, in order. */
  function PresentDeltas(ds: seq<Option<string>>): seq<string>
  {
    if ds == [] then []
    else if ds[0].Some? then [ds[0].value] + PresentDeltas(ds[1..])
    else PresentDeltas(ds[1..])
  }

  /** No text is lost, duplicated or reordered: the relayed chunks concatenate
      to the concatenation of the provider's deltas. */
  lemma {:induction false} RelayPreservesText(ds: seq<Option<string>>)
    ensures Seqs.Concat(DeltaTexts(ds)) == Seqs.Concat(PresentDeltas(ds))
  {
    if ds != [] {
      RelayPreservesText(ds[1..]);
      assert DeltaTexts(ds)[1..] == DeltaTexts(ds[1..]);
      if ds[0].Some? {
        assert ([ds[0].value] + PresentDeltas(ds[1..]))[1..] == PresentDeltas(ds[1..]);
      }
    }
  }

  /** The `ReadableStream` controller: the chunks enqueued so far and whether
      the stream was closed. */
  class StreamController {
    var chunks: seq<string>
    var closed: bool

    constructor ()
      ensures chunks == [] && !closed
    {
      chunks, closed := [], false;
    }

    method Enqueue(chunk: string)
      requires !closed
      modifies this
      ensures chunks == old(chunks) + [chunk] && !closed
    {
      chunks := chunks + [chunk];
    }

    method Close()
      requires !closed
      modifies this
      ensures closed && chunks == old(chunks)
    {
      closed := true;
    }
  }

  /** The stream's `start`: enqueue the text of every delta, then close; an
      iteration that throws leaves the stream errored (never closed). */
  method Pump(controller: StreamController, deltas: seq<Option<string>>, endsWithError: bool)
    requires controller.chunks == [] && !controller.closed
    modifies controller
    ensures controller.chunks == DeltaTexts(deltas)
    ensures controller.closed == !endsWithError
  {
    var i := 0;
    while i < |deltas|
      invariant 0 <= i <= |deltas|
      invariant !controller.closed
      invariant controller.chunks == DeltaTexts(deltas[..i])
    {
      assert DeltaTexts(deltas[..i + 1]) == DeltaTexts(deltas[..i]) + [DeltaText(deltas[i])];
      controller.Enqueue(DeltaText(deltas[i]));
      i := i + 1;
    }
    assert deltas[..i] == deltas;
    if !endsWithError {
      controller.Close();
    }
  }

  /** The Groq client, holding the API key it was built with. */
  datatype GroqClient = GroqClient(apiKey: string)

  /** The route module: its `client` is set once, when the module loads, from
      the `GROQ_API_KEY` environment value, and never afterwards. */
  class ChatRoute {
    var client: Option<GroqClient>

    /** Module initialisation: a missing or empty key leaves the client unset. */
    constructor (apiKey: Option<string>)
      ensures client == if apiKey.Some? && apiKey.value != "" then Some(GroqClient(apiKey.value)) else None
    {
      if apiKey.Some? && apiKey.value != "" {
        client := Some(GroqClient(apiKey.value));
      } else {
        client := None;
      }
    }

    /** `POST`: the client check comes first and does not look at the body;
        then validation and mapping; then the upstream call with the system
        prompt in front; then the relayed stream with status 200. `sent` is the
        message list passed to the provider, when the call is made. */
    method Post(body: Option<JsValue>, upstream: Upstream) returns (reply: Reply, sent: Option<seq<ChatParam>>)
      ensures client.None? ==> reply == NotConfiguredReply && sent == None
      ensures client.Some? && Prepare(body).Failure? ==> reply == Prepare(body).error && sent == None
      ensures client.Some? && Prepare(body).Success? ==> sent == Some(Prepare(body).value)
      ensures client.Some? && Prepare(body).Success? && upstream.CallFailed? ==> reply == FailureReply
      ensures client.Some? && Prepare(body).Success? && upstream.Deltas? ==>
                reply == StreamReply(200, PlainText, DeltaTexts(upstream.deltas), !upstream.endsWithError)
    {
      if client.None? {
        return NotConfiguredReply, None;
      }
      match Prepare(body) {
        case Failure(r) =>
          return r, None;
        case Success(messages) =>
          sent := Some(messages);
          match upstream {
            case CallFailed =>
              reply := FailureReply;
            case Deltas(deltas, endsWithError) =>
              var controller := new StreamController();
              Pump(controller, deltas, endsWithError);
              reply := StreamReply(200, PlainText, controller.chunks, controller.closed);
          }
      }
    }
  }
}
