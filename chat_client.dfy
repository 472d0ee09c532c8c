/** The chat page of the OceanFront AI agent: the message list, the pending
    input and the idle / in-progress status, updated by the submit handler and
    by the streaming read of the relay's reply. The network and the clock are
    parameters: the reply arrives as a `FetchResult` (chunks already decoded
    to text) and message ids are supplied by the caller. */
module ChatClient {
  import opened Wrappers
  import Seqs

  datatype Role = User | Assistant

  /** One entry of the conversation shown on the page. */
  datatype Message = Message(id: string, role: Role, content: string)

  datatype Status = Idle | InProgress

  /** One element of the request body: a message without its id. */
  datatype BodyMessage = BodyMessage(role: Role, content: string)

  /** What `fetch` and the body reader produce for one request: either the
      fetch itself rejects, or a response arrives with an HTTP status, with or
      without a body; the body yields `chunks` in order and then either signals
      completion (`readFailure == None`) or makes the next read fail. */
  datatype FetchResult =
    | Rejected(reason: string)
    | Received(status: nat, hasBody: bool, chunks: seq<string>, readFailure: Option<string>)

  /** `response.ok`: the status is in the range 200 to 299. */
  predicate IsOk(status: nat) { 200 <= status <= 299 }

  /** The response passes the `!response.ok || !response.body` check. */
  predicate Accepted(response: FetchResult)
  {
    response.Received? && IsOk(response.status) && response.hasBody
  }

  // ---------------------------------------------------------------- trim

  /** The characters `String.prototype.trim` removes: WhiteSpace and
      LineTerminator of ECMAScript (section 12.2 and 12.3 of ECMA-262). */
  predicate IsJsWhitespace(c: char)
  {
    c == '\t' || c == '\n' || c == '\U{000B}' || c == '\U{000C}' || c == '\r' || c == ' '
    || c == '\U{00A0}' || c == '\U{1680}' || ('\U{2000}' <= c <= '\U{200A}')
    || c == '\U{2028}' || c == '\U{2029}' || c == '\U{202F}' || c == '\U{205F}'
    || c == '\U{3000}' || c == '\U{FEFF}'
  }

  predicate AllWhitespace(s: string)
  {
    forall i :: 0 <= i < |s| ==> IsJsWhitespace(s[i])
  }

  /** The first index at or after `k` that does not hold whitespace. */
  function SkipLeading(s: string, k: nat): (e: nat)
    requires k <= |s|
    ensures k <= e <= |s|
    ensures forall j :: k <= j < e ==> IsJsWhitespace(s[j])
    ensures e < |s| ==> !IsJsWhitespace(s[e])
    decreases |s| - k
  {
    if k < |s| && IsJsWhitespace(s[k]) then SkipLeading(s, k + 1) else k
  }

  /** The end of `s[lo..e]` once its trailing whitespace is dropped. */
  function SkipTrailing(s: string, lo: nat, e: nat): (b: nat)
    requires lo <= e <= |s|
    ensures lo <= b <= e
    ensures forall j :: b <= j < e ==> IsJsWhitespace(s[j])
    ensures b > lo ==> !IsJsWhitespace(s[b - 1])
    decreases e - lo
  {
    if e > lo && IsJsWhitespace(s[e - 1]) then SkipTrailing(s, lo, e - 1) else e
  }

  /** `input.trim()`: a contiguous slice of the input with only whitespace
      outside it and no whitespace at either end. */
  function Trim(s: string): (r: string)
    ensures exists a, b :: 0 <= a <= b <= |s| && r == s[a..b]
              && (forall j :: 0 <= j < a ==> IsJsWhitespace(s[j]))
              && (forall j :: b <= j < |s| ==> IsJsWhitespace(s[j]))
    ensures r != [] ==> !IsJsWhitespace(r[0]) && !IsJsWhitespace(r[|r| - 1])
  {
    var a := SkipLeading(s, 0);
    s[a..SkipTrailing(s, a, |s|)]
  }

  /** The submit guard `!text` holds exactly for empty or all-whitespace input. */
  lemma TrimEmptyIff(s: string)
    ensures Trim(s) == "" <==> AllWhitespace(s)
  {
  }

  // ------------------------------------------------------- message updates

  /** `history.map(m => ({ role: m.role, content: m.content }))`. */
  function RequestBody(history: seq<Message>): (r: seq<BodyMessage>)
    ensures |r| == |history|
    ensures forall i :: 0 <= i < |r| ==>
              r[i].role == history[i].role && r[i].content == history[i].content
  {
    if history == [] then []
    else [BodyMessage(history[0].role, history[0].content)] + RequestBody(history[1..])
  }

  /** The ids of the messages, in order. */
  function Ids(history: seq<Message>): (r: seq<string>)
    ensures |r| == |history| && forall i :: 0 <= i < |r| ==> r[i] == history[i].id
  {
    seq(|history|, i requires 0 <= i < |history| => history[i].id)
  }

  /** Puts ids back onto body messages. */
  function WithIds(body: seq<BodyMessage>, ids: seq<string>): seq<Message>
    requires |body| == |ids|
  {
    if body == [] then []
    else [Message(ids[0], body[0].role, body[0].content)] + WithIds(body[1..], ids[1..])
  }

  /** Stripping the ids loses nothing else: the request body and the ids
      together give the history back. */
  lemma {:induction false} RequestBodyKeepsAllButIds(history: seq<Message>)
    ensures WithIds(RequestBody(history), Ids(history)) == history
  {
    if history != [] {
      assert RequestBody(history)[1..] == RequestBody(history[1..]);
      assert Ids(history)[1..] == Ids(history[1..]);
      RequestBodyKeepsAllButIds(history[1..]);
    }
  }

  /** `prev.map(m => m.id === id ? { ...m, content } : m)`. */
  function ReplaceContent(msgs: seq<Message>, id: string, content: string): (r: seq<Message>)
    ensures |r| == |msgs|
    ensures forall i :: 0 <= i < |msgs| && msgs[i].id != id ==> r[i] == msgs[i]
    ensures forall i :: 0 <= i < |msgs| && msgs[i].id == id ==>
              r[i] == Message(id, msgs[i].role, content)
  {
    if msgs == [] then []
    else
      [if msgs[0].id == id then msgs[0].(content := content) else msgs[0]]
      + ReplaceContent(msgs[1..], id, content)
  }

  /** No message of `msgs` carries `id`. */
  predicate FreshId(msgs: seq<Message>, id: string)
  {
    forall i :: 0 <= i < |msgs| ==> msgs[i].id != id
  }

  /** A later replacement overrides an earlier one. */
  lemma ReplaceTwice(msgs: seq<Message>, id: string, a: string, b: string)
    ensures ReplaceContent(ReplaceContent(msgs, id, a), id, b) == ReplaceContent(msgs, id, b)
  {
  }

  /** With a fresh id, replacing only touches the last message, the one with that id. */
  lemma ReplaceFreshLast(prev: seq<Message>, m: Message, content: string)
    requires FreshId(prev, m.id)
    ensures ReplaceContent(prev + [m], m.id, content) == prev + [m.(content := content)]
  {
    var r := ReplaceContent(prev + [m], m.id, content);
    assert forall i :: 0 <= i < |prev| ==> (prev + [m])[i] == prev[i];
  }

  const ErrorPrefix := "Error: Failed to fetch AI response. Please check server logs. ("

  /** The assistant message appended by the `catch` block. */
  function ErrorMessage(id: string, reason: string): Message
  {
    Message(id, Assistant, ErrorPrefix + reason + ")")
  }

  predicate AllDecimal(s: string)
  {
    forall i :: 0 <= i < |s| ==> '0' <= s[i] <= '9'
  }

  /** The number a string of decimal digits denotes. */
  function DigitsValue(s: string): nat
    requires AllDecimal(s)
  {
    if s == [] then 0 else 10 * DigitsValue(s[..|s| - 1]) + (s[|s| - 1] as int - '0' as int)
  }

  /** Decimal digits of a number (template-literal `${n}` for a status code):
      the digits denote `n`, and there is no leading zero. */
  function DecimalDigits(n: nat): (r: string)
    ensures |r| >= 1 && AllDecimal(r)
    ensures DigitsValue(r) == n
    ensures |r| > 1 ==> r[0] != '0'
  {
    var last := ('0' as int + n % 10) as char;
    if n < 10 then
      assert [last][..0] == [];
      [last]
    else
      var init := DecimalDigits(n / 10);
      var r := init + [last];
      assert r[..|r| - 1] == init;
      assert init[0] != '0' by {
        if |init| == 1 {
          assert init[..0] == [];
        }
      }
      r
  }

  /** The message of the error thrown for a response that is not ok or has no body. */
  function StatusReason(status: nat): string
  {
    "API returned status " + DecimalDigits(status)
  }

  /** The list after the placeholder `placed` has received the chunks `read`.
      Before the first chunk the placeholder is untouched. */
  function AfterReads(placed: seq<Message>, id: string, read: seq<string>): seq<Message>
  {
    if read == [] then placed else ReplaceContent(placed, id, Seqs.Concat(read))
  }

  /** The message list at the end of `streamChatResponse`, from the list `prev`
      it started with. */
  function StreamOutcome(prev: seq<Message>, assistantId: string, errorId: string,
                         response: FetchResult): seq<Message>
  {
    match response
    case Rejected(reason) => prev + [ErrorMessage(errorId, reason)]
    case Received(status, hasBody, chunks, readFailure) =>
      if !IsOk(status) || !hasBody then prev + [ErrorMessage(errorId, StatusReason(status))]
      else
        var filled := AfterReads(prev + [Message(assistantId, Assistant, "")], assistantId, chunks);
        match readFailure
        case None => filled
        case Some(reason) => filled + [ErrorMessage(errorId, reason)]
  }

  /** A response that fails the ok/body check adds no placeholder: exactly one
      message is appended, the assistant error text. */
  lemma RejectedAddsOnlyError(prev: seq<Message>, assistantId: string, errorId: string,
                              response: FetchResult)
    requires !Accepted(response)
    ensures var out := StreamOutcome(prev, assistantId, errorId, response);
            var reason := if response.Rejected? then response.reason else StatusReason(response.status);
            |out| == |prev| + 1 && out[..|prev|] == prev
            && out[|prev|] == Message(errorId, Assistant,
                 "Error: Failed to fetch AI response. Please check server logs. (" + reason + ")")
  {
    var out := StreamOutcome(prev, assistantId, errorId, response);
    assert out[..|prev|] == prev;
  }

  /** An accepted response with a fresh assistant id: the earlier messages are
      untouched, exactly one assistant message follows them holding all chunks
      concatenated, and a failed read appends one error message after it. */
  lemma {:induction false} AcceptedFillsPlaceholder(prev: seq<Message>, assistantId: string,
                                                    errorId: string, response: FetchResult)
    requires Accepted(response) && FreshId(prev, assistantId)
    ensures var out := StreamOutcome(prev, assistantId, errorId, response);
            |out| == |prev| + 1 + (if response.readFailure.Some? then 1 else 0)
            && out[..|prev|] == prev
            && out[|prev|] == Message(assistantId, Assistant, Seqs.Concat(response.chunks))
            && (response.readFailure.Some? ==>
                  out[|prev| + 1] == ErrorMessage(errorId, response.readFailure.value))
  {
    var placeholder := Message(assistantId, Assistant, "");
    var filled := AfterReads(prev + [placeholder], assistantId, response.chunks);
    if response.chunks != [] {
      ReplaceFreshLast(prev, placeholder, Seqs.Concat(response.chunks));
    }
    assert filled == prev + [placeholder.(content := Seqs.Concat(response.chunks))];
    var out := StreamOutcome(prev, assistantId, errorId, response);
    assert out[..|prev|] == prev;
  }

  /** After j and then k >= j chunks, the list keeps its length, every other
      message is the same and the assistant content has only grown. */
  lemma {:induction false} AssistantContentGrows(prev: seq<Message>, assistantId: string,
                                                 chunks: seq<string>, j: nat, k: nat)
    requires FreshId(prev, assistantId) && j <= k <= |chunks|
    ensures var placed := prev + [Message(assistantId, Assistant, "")];
            var early := AfterReads(placed, assistantId, chunks[..j]);
            var late := AfterReads(placed, assistantId, chunks[..k]);
            |early| == |late| == |prev| + 1 && early[..|prev|] == late[..|prev|] == prev
            && early[|prev|].content == Seqs.Concat(chunks[..j])
            && late[|prev|].content == Seqs.Concat(chunks[..k])
            && early[|prev|].content <= late[|prev|].content
  {
    var placeholder := Message(assistantId, Assistant, "");
    var placed := prev + [placeholder];
    if j > 0 { ReplaceFreshLast(prev, placeholder, Seqs.Concat(chunks[..j])); }
    if k > 0 { ReplaceFreshLast(prev, placeholder, Seqs.Concat(chunks[..k])); }
    assert chunks[..0] == [];
    Seqs.ConcatPrefixGrows(chunks, j, k);
    assert AfterReads(placed, assistantId, chunks[..j])[..|prev|] == prev;
    assert AfterReads(placed, assistantId, chunks[..k])[..|prev|] == prev;
  }

  /** With a fresh assistant id the stream never changes the messages that
      were there before it began, and always adds at least one. */
  lemma StreamKeepsHistory(prev: seq<Message>, assistantId: string, errorId: string,
                           response: FetchResult)
    requires FreshId(prev, assistantId)
    ensures var out := StreamOutcome(prev, assistantId, errorId, response);
            |out| > |prev| && out[..|prev|] == prev
  {
    if Accepted(response) {
      AcceptedFillsPlaceholder(prev, assistantId, errorId, response);
    } else {
      RejectedAddsOnlyError(prev, assistantId, errorId, response);
    }
  }

  // ------------------------------------------------------------ the page

  /** The component state of the chat page. */
  class ChatPage {
    var input: string
    var messages: seq<Message>
    var status: Status

    /** `useState("")`, `useState<Message[]>([])`, `useState('idle')`. */
    constructor ()
      ensures input == "" && messages == [] && status == Idle
    {
      input, messages, status := "", [], Idle;
    }

    /** The input field's `onChange` (and a suggested question's `onClick`). */
    method ChangeInput(text: string)
      modifies this
      ensures input == text && messages == old(messages) && status == old(status)
    {
      input := text;
    }

    /** `streamChatResponse(history)`: returns the request body it sends and
        leaves the list as `StreamOutcome` says. It has no guard of its own;
        the status is in progress during the read loop and idle afterwards on
        every path. */
    method StreamChatResponse(history: seq<Message>, assistantId: string, errorId: string,
                              response: FetchResult) returns (body: seq<BodyMessage>)
      modifies this
      ensures body == RequestBody(history)
      ensures messages == StreamOutcome(old(messages), assistantId, errorId, response)
      ensures status == Idle && input == old(input)
    {
      ghost var prev := messages;
      status := InProgress;
      body := RequestBody(history);
      match response {
        case Rejected(reason) =>
          messages := messages + [ErrorMessage(errorId, reason)];
        case Received(code, hasBody, chunks, readFailure) =>
          if !IsOk(code) || !hasBody {
            var reason := StatusReason(code);
            messages := messages + [ErrorMessage(errorId, reason)];
          } else {
            messages := messages + [Message(assistantId, Assistant, "")];
            var aiResponse := ReadChunks(assistantId, chunks);
            assert messages == AfterReads(prev + [Message(assistantId, Assistant, "")], assistantId, chunks);
            if readFailure.Some? {
              messages := messages + [ErrorMessage(errorId, readFailure.value)];
            }
          }
      }
      status := Idle;
    }

    /** The `while (true)` read loop: each chunk is appended to `aiResponse`
        and the placeholder `assistantId` is given the text so far. The reply is
        in progress for the whole loop. */
    method ReadChunks(assistantId: string, chunks: seq<string>) returns (aiResponse: string)
      requires status == InProgress
      modifies this
      ensures aiResponse == Seqs.Concat(chunks)
      ensures messages == AfterReads(old(messages), assistantId, chunks)
      ensures status == old(status) && input == old(input)
    {
      aiResponse := "";
      ghost var placed := messages;
      var i := 0;
      while i < |chunks|
        invariant 0 <= i <= |chunks|
        invariant status == old(status) && input == old(input)
        invariant aiResponse == Seqs.Concat(chunks[..i])
        invariant messages == AfterReads(placed, assistantId, chunks[..i])
      {
        assert chunks[..i + 1] == chunks[..i] + [chunks[i]];
        Seqs.ConcatSnoc(chunks[..i], chunks[i]);
        aiResponse := aiResponse + chunks[i];
        if i > 0 { ReplaceTwice(placed, assistantId, Seqs.Concat(chunks[..i]), aiResponse); }
        messages := ReplaceContent(messages, assistantId, aiResponse);
        i := i + 1;
      }
      assert chunks[..i] == chunks;
    }

    /** `handleSubmit`: ignores empty or whitespace-only input and any submit
        while a reply is in progress; otherwise appends the user message with
        the trimmed text, streams the reply and clears the input. */
    method HandleSubmit(userId: string, assistantId: string, errorId: string,
                        response: FetchResult) returns (sent: Option<seq<BodyMessage>>)
      modifies this
      ensures var text := Trim(old(input));
              if text == "" || old(status) == InProgress then
                sent == None && messages == old(messages) && input == old(input)
                && status == old(status)
              else
                var history := old(messages) + [Message(userId, User, text)];
                sent == Some(RequestBody(history)) && input == "" && status == Idle
                && messages == StreamOutcome(history, assistantId, errorId, response)
    {
      var text := Trim(input);
      if text == "" || status == InProgress {
        return None;
      }
      var userMessage := Message(userId, User, text);
      messages := messages + [userMessage];
      var body := StreamChatResponse(messages, assistantId, errorId, response);
      input := "";
      sent := Some(body);
    }
  }
}
