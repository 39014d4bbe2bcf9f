/**
 Provider-independent chat messages. A JSON value is represented by its
 serialised text.
 */
module Messages {
  import opened Text

  datatype Role = System | User | Assistant | Tool

  datatype ToolCall = ToolCall(callId: string, fnName: string, fnArguments: string,
                               thoughtSignatures: Option<seq<string>>)

  datatype ToolResponse = ToolResponse(callId: string, fnName: Option<string>, content: string)

  datatype Part =
    | TextPart(text: string)
    | CallPart(call: ToolCall)
    | ResponsePart(response: ToolResponse)
    | ThoughtSignature(signature: string)
    | ReasoningContent(reasoning: string)
    | Custom(json: string)
    | Binary(payload: string)

  datatype Message = Message(role: Role, parts: seq<Part>)

  /** The tool calls of a content, in part order. */
  function ToolCalls(parts: seq<Part>): seq<ToolCall> {
    if parts == [] then []
    else (if parts[0].CallPart? then [parts[0].call] else []) + ToolCalls(parts[1..])
  }

  function CallIds(calls: seq<ToolCall>): seq<string> {
    seq(|calls|, i requires 0 <= i < |calls| => calls[i].callId)
  }

  /** The tool responses of a content, in part order. */
  function ToolResponses(parts: seq<Part>): seq<ToolResponse> {
    if parts == [] then []
    else (if parts[0].ResponsePart? then [parts[0].response] else []) + ToolResponses(parts[1..])
  }

  function ResponseIds(responses: seq<ToolResponse>): seq<string> {
    seq(|responses|, i requires 0 <= i < |responses| => responses[i].callId)
  }

  predicate HasProtocol(parts: seq<Part>) {
    exists p :: p in parts && (p.CallPart? || p.ResponsePart?)
  }

  /** All parts of a run of messages, in order. */
  function AllParts(messages: seq<Message>): seq<Part> {
    if messages == [] then [] else messages[0].parts + AllParts(messages[1..])
  }

  lemma {:induction false} CallInToolCalls(parts: seq<Part>, call: ToolCall)
    ensures CallPart(call) in parts <==> call in ToolCalls(parts)
  {
    if parts != [] {
      CallInToolCalls(parts[1..], call);
      assert parts == [parts[0]] + parts[1..];
    }
  }

  /** An assistant message that opens a tool exchange. */
  predicate Opens(m: Message) {
    m.role == Assistant && ToolCalls(m.parts) != []
  }

  /** The text parts of a content, joined; None when it has no text part. */
  function JoinedTexts(parts: seq<Part>, separator: string): Option<string> {
    if parts == [] then None
    else
      var rest := JoinedTexts(parts[1..], separator);
      if !parts[0].TextPart? then rest
      else if rest.None? then Some(parts[0].text)
      else Some(parts[0].text + separator + rest.value)
  }

  function TextsOf(parts: seq<Part>): seq<string> {
    if parts == [] then []
    else (if parts[0].TextPart? then [parts[0].text] else []) + TextsOf(parts[1..])
  }

  /** Joining shows every text, in order. */
  lemma {:induction false} JoinedShowsTexts(parts: seq<Part>, separator: string)
    ensures var joined := JoinedTexts(parts, separator);
            && (joined.None? <==> TextsOf(parts) == [])
            && (joined.Some? ==> AppearInOrder(TextsOf(parts), joined.value))
            && (|TextsOf(parts)| == 1 ==> joined == Some(TextsOf(parts)[0]))
  {
    if parts != [] {
      hide AppearInOrder;
      JoinedShowsTexts(parts[1..], separator);
      var rest, texts := JoinedTexts(parts[1..], separator), TextsOf(parts[1..]);
      if !parts[0].TextPart? {
        assert TextsOf(parts) == texts;
      } else if rest.None? {
        FirstAppears(parts[0].text, [], "", "");
        assert parts[0].text + "" + "" == parts[0].text;
      } else {
        FirstAppears(parts[0].text, texts, separator, rest.value);
      }
    }
  }

  lemma {:induction false} FirstAppears(first: string, texts: seq<string>, separator: string, rest: string)
    requires texts == [] || AppearInOrder(texts, rest)
    ensures AppearInOrder([first] + texts, first + separator + rest)
  {
    var s := first + separator + rest;
    assert ([first] + texts)[1..] == texts && s[0..] == s && s[|first|..] == separator + rest;
    AppearAfter(texts, separator, rest);
    assert first <= s[0..];
  }

  lemma {:induction false} AppearAfter(texts: seq<string>, before: string, s: string)
    requires AppearInOrder(texts, s)
    ensures AppearInOrder(texts, before + s)
  {
    if texts != [] {
      var i :| 0 <= i <= |s| && texts[0] <= s[i..] && AppearInOrder(texts[1..], s[i..][|texts[0]|..]);
      assert (before + s)[|before| + i..] == s[i..];
    }
  }

  lemma {:induction false} ContainedInRest(s: string, n: nat, t: string)
    requires n <= |s| && Contains(s[n..], t)
    ensures Contains(s, t)
  {
    var j :| 0 <= j <= |s[n..]| && t <= s[n..][j..];
    assert s[n + j..] == s[n..][j..];
  }

  lemma {:induction false} FirstPlace(texts: seq<string>, s: string) returns (i: nat)
    requires texts != [] && AppearInOrder(texts, s)
    ensures i + |texts[0]| <= |s| && Contains(s, texts[0]) && AppearInOrder(texts[1..], s[i + |texts[0]|..])
  {
    i :| 0 <= i <= |s| && texts[0] <= s[i..] && AppearInOrder(texts[1..], s[i..][|texts[0]|..]);
    hide AppearInOrder;
    assert s[i..][|texts[0]|..] == s[i + |texts[0]|..];
  }

  lemma {:induction false} AppearsIsContained(texts: seq<string>, s: string, t: string)
    requires AppearInOrder(texts, s) && t in texts
    ensures Contains(s, t)
  {
    hide AppearInOrder, Contains;
    var i := FirstPlace(texts, s);
    if t != texts[0] {
      assert texts == [texts[0]] + texts[1..];
      AppearsIsContained(texts[1..], s[i + |texts[0]|..], t);
      ContainedInRest(s, i + |texts[0]|, t);
    }
  }

  lemma {:induction false} TextIsAmong(parts: seq<Part>, p: Part)
    requires p in parts && p.TextPart?
    ensures p.text in TextsOf(parts)
  {
    if p != parts[0] {
      TextIsAmong(parts[1..], p);
    }
  }
}
