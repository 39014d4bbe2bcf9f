/**
 The tool loop: request, tools, append the pair, renormalise, persist the last
 two messages. The model, the tools and the store are arbitrary functions of the
 step (and, for the model, of the request it is sent).
 */
module AgentLoop {
  import opened Text
  import opened Messages
  import opened History
  import opened Renames
  import opened NormalForm
  import opened HistoryContent

  datatype Reply =
    | Failed
    | Reply(content: seq<Part>, reasoning: Option<string>,
            promptTokens: Option<int>, completionTokens: Option<int>)

  /** What executing one tool call reports back. */
  datatype ToolRun = ToolRun(content: string, sent: bool)

  datatype World = World(
    llm: (nat, seq<Message>) -> Reply,
    tool: (nat, nat, ToolCall) -> ToolRun,
    stored: nat -> bool,
    allowed: bool)

  function Ask(world: World, step: nat, request: seq<Message>): Reply {
    world.llm(step, request)
  }

  /** What the call at each place of a step's batch reports. */
  function ToolsAt(world: World, step: nat): (nat, ToolCall) -> ToolRun {
    (place: nat, call: ToolCall) => world.tool(step, place, call)
  }

  function Commits(world: World, step: nat): bool {
    world.stored(step)
  }

  datatype Context = Context(messages: seq<Message>, personality: string, persists: bool, separator: string)

  datatype Outcome =
    | FinalText(text: string)
    | Silent
    | LlmError
    | PermissionDenied
    | StorageError
    | MaxToolIterationsExceeded

  // ---------- appending one exchange ----------

  /** The responses to the calls from place `k` of the batch on. */
  function Responses(calls: seq<ToolCall>, tool: (nat, ToolCall) -> ToolRun, k: nat): seq<Part>
    requires k <= |calls|
    decreases |calls| - k
  {
    if k == |calls| then []
    else [ResponsePart(ToolResponse(calls[k].callId, Some(calls[k].fnName), tool(k, calls[k]).content))]
         + Responses(calls, tool, k + 1)
  }

  /** The assistant message and the tool message of one round. */
  function Pair(reply: Reply, tool: (nat, ToolCall) -> ToolRun): (pair: seq<Message>)
    requires reply.Reply?
    ensures |pair| == 2
  {
    var reasoning := if reply.reasoning.Some? then [ReasoningContent(reply.reasoning.value)] else [];
    [Message(Assistant, reply.content + reasoning), Message(Tool, Responses(ToolCalls(reply.content), tool, 0))]
  }

  /** What the pair becomes when it is appended to messages already in normal form. */
  function Exchange(working: seq<Message>, pair: seq<Message>): (r: seq<Message>)
    requires UnitRow(pair)
    ensures |r| == |pair|
  {
    Treat(pair, |working|, Elements(AllCallIds(working)))
  }

  lemma {:induction false} ToolCallsConcat(a: seq<Part>, b: seq<Part>)
    ensures ToolCalls(a + b) == ToolCalls(a) + ToolCalls(b)
  {
    if a == [] {
      assert a + b == b;
    } else {
      ConcatHead(a, b);
      ToolCallsConcat(a[1..], b);
      ConcatAssociates(if a[0].CallPart? then [a[0].call] else [], ToolCalls(a[1..]), ToolCalls(b));
    }
  }

  lemma {:induction false} PairOpens(reply: Reply, tool: (nat, ToolCall) -> ToolRun)
    requires reply.Reply? && ToolCalls(reply.content) != []
    ensures var pair := Pair(reply, tool);
            UnitRow(pair) && Opens(pair[0]) && ToolCalls(pair[0].parts) == ToolCalls(reply.content)
  {
    var reasoning := if reply.reasoning.Some? then [ReasoningContent(reply.reasoning.value)] else [];
    ToolCallsConcat(reply.content, reasoning);
    assert ToolCalls(reasoning) == [];
  }

  lemma {:induction false} ResponsesAnswerInOrder(calls: seq<ToolCall>, tool: (nat, ToolCall) -> ToolRun, k: nat)
    requires k <= |calls|
    ensures var parts := Responses(calls, tool, k);
            && (forall p :: p in parts ==> p.ResponsePart?)
            && ResponseIds(ToolResponses(parts)) == CallIds(calls)[k..]
    decreases |calls| - k
  {
    if k < |calls| {
      var parts := Responses(calls, tool, k);
      ResponsesAnswerInOrder(calls, tool, k + 1);
      assert parts[1..] == Responses(calls, tool, k + 1);
      assert CallIds(calls)[k..] == [calls[k].callId] + CallIds(calls)[k + 1..];
      assert ResponseIds(ToolResponses(parts)) == [calls[k].callId] + ResponseIds(ToolResponses(parts[1..]));
    }
  }

  /** A round stays structured exactly when its ids are usable and the reply holds no output. */
  lemma {:induction false} RoundIsValidWhen(reply: Reply, tool: (nat, ToolCall) -> ToolRun)
    requires reply.Reply? && ToolCalls(reply.content) != []
    ensures ValidExchange(Pair(reply, tool))
       <==> && Distinct(CallIds(ToolCalls(reply.content)))
            && "" !in CallIds(ToolCalls(reply.content))
            && forall p :: p in reply.content ==> !p.ResponsePart?
  {
    var pair := Pair(reply, tool);
    var calls := ToolCalls(reply.content);
    PairOpens(reply, tool);
    ResponsesAnswerInOrder(calls, tool, 0);
    assert CallIds(calls)[0..] == CallIds(calls);
    assert AllParts(pair[1..]) == Responses(calls, tool, 0) by {
      assert pair[1..] == [pair[1]];
      assert AllParts(pair[1..]) == pair[1].parts + [];
    }
    assert forall p :: p in reply.content ==> p in pair[0].parts;
    assert forall p :: p in pair[0].parts && p.ResponsePart? ==> p in reply.content;
  }

  lemma {:induction false} NothingLeft(ms: seq<Message>, seen: set<string>)
    ensures UnitMessages(UnitsFrom(ms, |ms|, seen)) == []
  {
  }

  /**
   Renormalising after appending a unit leaves every earlier message alone and
   touches only the new ones.
   */
  lemma {:induction false} RenormaliseTouchesOnlyTheEnd(working: seq<Message>, row: seq<Message>)
    requires IsNormal(working) && UnitRow(row) && row[0].role != Tool
    ensures NormalizeHistory(working + row) == working + Exchange(working, row)
    ensures IsNormal(working + Exchange(working, row))
  {
    hide IsNormal, Treat, SeenAfter, AllCallIds, UnitsFrom, UnitMessages;
    var all := working + row;
    var n := |working|;
    var seen := Elements(AllCallIds(working));
    assert all[0..n] == working && all[n..|all|] == row;
    ScanNormal(all, 0, n, {});
    assert {} + seen == seen;
    UnitEndInWindow(all, n, |all|);
    if Opens(row[0]) {
      RunEndOfUnit(row, 1);
    }
    UnfoldScan(all, n, seen);
    NothingLeft(all, SeenAfter(row, n, seen));
    NormalizeIsNormal(all);
  }

  // ---------- the loop ----------

  /** Messages of the first request. */
  function Initial(ctx: Context): seq<Message> {
    (if ctx.personality == "" then [] else [Message(System, [TextPart(ctx.personality)])])
    + NormalizeHistory(ctx.messages)
  }

  lemma {:induction false} InitialIsNormal(ctx: Context)
    ensures IsNormal(Initial(ctx))
  {
    var history := NormalizeHistory(ctx.messages);
    NormalizeIsNormal(ctx.messages);
    if ctx.personality == "" {
      assert Initial(ctx) == history;
    } else {
      var system := [Message(System, [TextPart(ctx.personality)])];
      assert !HasProtocol(system[0].parts);
      PlainNormal(system);
      if history != [] {
        NormalFormHead(history);
      }
      NormalFormConcat(system, history);
    }
  }

  predicate HasCalls(reply: Reply) {
    reply.Reply? && ToolCalls(reply.content) != []
  }

  /** The round is carried out and recorded, so the loop goes on. */
  predicate Continues(ctx: Context, world: World, step: nat, reply: Reply) {
    HasCalls(reply) && world.allowed && (ctx.persists ==> Commits(world, step))
  }

  /** The request of each step, without any renormalising of earlier messages. */
  function Request(ctx: Context, world: World, step: nat): seq<Message> {
    if step == 0 then Initial(ctx)
    else
      var before := Request(ctx, world, step - 1);
      before + NewPair(before, world, step - 1)
  }

  function ReplyAt(ctx: Context, world: World, step: nat): Reply {
    Ask(world, step, Request(ctx, world, step))
  }

  /** The first `steps` replies all led to a recorded round. */
  predicate RoundsComplete(ctx: Context, world: World, steps: nat) {
    steps > 0 ==>
      RoundsComplete(ctx, world, steps - 1) && Continues(ctx, world, steps - 1, ReplyAt(ctx, world, steps - 1))
  }

  /** The two messages a step appends to the request it was sent. */
  function NewPair(request: seq<Message>, world: World, step: nat): (pair: seq<Message>)
    ensures HasCalls(Ask(world, step, request)) ==> |pair| == 2
  {
    var reply := Ask(world, step, request);
    if HasCalls(reply) then
      PairOpens(reply, ToolsAt(world, step));
      Exchange(request, Pair(reply, ToolsAt(world, step)))
    else []
  }

  /** The pairs of steps `0..steps`, in order. */
  function Pairs(ctx: Context, world: World, steps: nat): seq<Message> {
    if steps == 0 then []
    else Pairs(ctx, world, steps - 1) + NewPair(Request(ctx, world, steps - 1), world, steps - 1)
  }

  /** The pair of a round is a unit, and what is appended is what becomes of it. */
  lemma {:induction false} NewPairOfRound(request: seq<Message>, world: World, step: nat)
    requires HasCalls(Ask(world, step, request))
    ensures var pair := Pair(Ask(world, step, request), ToolsAt(world, step));
            UnitRow(pair) && pair[0].role == Assistant && NewPair(request, world, step) == Exchange(request, pair)
  {
    hide Exchange, Ask, ToolsAt, UnitRow, Responses;
    PairOpens(Ask(world, step, request), ToolsAt(world, step));
  }

  lemma {:induction false} NewPairKeepsNormal(request: seq<Message>, world: World, step: nat)
    requires IsNormal(request)
    ensures IsNormal(request + NewPair(request, world, step))
  {
    hide IsNormal, Exchange, Pair, UnitRow, Ask, ToolsAt;
    if HasCalls(Ask(world, step, request)) {
      NewPairOfRound(request, world, step);
      hide NewPair;
      RenormaliseTouchesOnlyTheEnd(request, Pair(Ask(world, step, request), ToolsAt(world, step)));
    } else {
      assert request + [] == request;
    }
  }

  /** Every request is in normal form, whatever the model and the tools reply. */
  lemma {:induction false} RequestIsNormal(ctx: Context, world: World, step: nat)
    ensures IsNormal(Request(ctx, world, step))
  {
    hide IsNormal, NewPair, Initial;
    if step == 0 {
      InitialIsNormal(ctx);
    } else {
      RequestIsNormal(ctx, world, step - 1);
      NewPairKeepsNormal(Request(ctx, world, step - 1), world, step - 1);
    }
  }

  /** Each request is the first one followed by the pairs so far. */
  lemma {:induction false} RequestIsInitialPlusPairs(ctx: Context, world: World, step: nat)
    ensures Request(ctx, world, step) == Initial(ctx) + Pairs(ctx, world, step)
  {
    hide NewPair, NormalizeHistory;
    if step > 0 {
      RequestIsInitialPlusPairs(ctx, world, step - 1);
    }
  }

  // ---------- what a round leaves ----------

  /** The reply with its reasoning, which is put last. */
  function ReplyParts(reply: Reply): seq<Part>
    requires reply.Reply?
  {
    reply.content + if reply.reasoning.Some? then [ReasoningContent(reply.reasoning.value)] else []
  }

  /** Ids that can be matched, and no output of the model's own. */
  predicate UsableIds(reply: Reply)
    requires reply.Reply?
  {
    && Distinct(CallIds(ToolCalls(reply.content))) && "" !in CallIds(ToolCalls(reply.content))
    && forall p :: p in reply.content ==> !p.ResponsePart?
  }

  /** The outcome of the j-th call of the reply, as a response. */
  function Report(reply: Reply, tool: (nat, ToolCall) -> ToolRun, j: nat, id: string): Part
    requires reply.Reply? && j < |ToolCalls(reply.content)|
  {
    var call := ToolCalls(reply.content)[j];
    ResponsePart(ToolResponse(id, Some(call.fnName), tool(j, call).content))
  }

  /**
   The two messages a round leaves. With usable ids, the batch is the reply and its
   reasoning up to ids, and the j-th part of the second message is the content the
   j-th tool reported, under the id the batch gives that call. Otherwise both are
   text that tells the reply and those contents, in order.
   */
  predicate RecordsRound(reply: Reply, tool: (nat, ToolCall) -> ToolRun, batch: Message, outputs: Message)
    requires reply.Reply?
  {
    var n := |ToolCalls(reply.content)|;
    && batch.role == Assistant && |outputs.parts| == n
    && if UsableIds(reply) then
         && outputs.role == Tool && |batch.parts| == |ReplyParts(reply)| && |ToolCalls(batch.parts)| == n
         && (forall j :: 0 <= j < |batch.parts| ==> SameButIds(ReplyParts(reply)[j], batch.parts[j]))
         && forall j :: 0 <= j < n ==>
              outputs.parts[j] == Report(reply, tool, j, ToolCalls(batch.parts)[j].callId)
       else
         && outputs.role == User && ToldInOrder(ReplyParts(reply), "; incomplete or invalid exchange", batch.parts)
         && forall j :: 0 <= j < n ==>
              Tells(Report(reply, tool, j, ToolCalls(reply.content)[j].callId), outputs.parts[j])
  }

  lemma {:induction false} ResponsesAt(calls: seq<ToolCall>, tool: (nat, ToolCall) -> ToolRun, k: nat)
    requires k <= |calls|
    ensures var parts := Responses(calls, tool, k);
            && |parts| == |calls| - k
            && forall j :: k <= j < |calls| ==>
                 parts[j - k] == ResponsePart(ToolResponse(calls[j].callId, Some(calls[j].fnName),
                                                           tool(j, calls[j]).content))
    decreases |calls| - k
  {
    if k < |calls| {
      ResponsesAt(calls, tool, k + 1);
    }
  }

  lemma {:induction false} ResponseIdAt(parts: seq<Part>, j: nat)
    requires (forall p :: p in parts ==> p.ResponsePart?) && j < |parts|
    ensures |ResponseIds(ToolResponses(parts))| == |parts|
    ensures ResponseIds(ToolResponses(parts))[j] == parts[j].response.callId
  {
    assert parts[0] in parts;
    if |parts| > 1 {
      ResponseIdAt(parts[1..], if j > 0 then j - 1 else 0);
    }
  }

  lemma {:induction false} SecondOnly(a: Message, b: Message)
    ensures [a, b][1..] == [b] && AllParts([a, b][1..]) == b.parts
  {
    assert AllParts([b]) == b.parts + AllParts([]);
  }

  /** With usable ids the pair is renamed consistently: the outputs carry the batch's ids in call order. */
  lemma {:induction false} OutputsCarryBatchIds(reply: Reply, tool: (nat, ToolCall) -> ToolRun, renamed: Renaming)
    requires HasCalls(reply)
    ensures var after := Rewrite(Pair(reply, tool), renamed);
            OutputIds(after) == BatchIds(after) && |BatchIds(after)| == |ToolCalls(reply.content)|
  {
    hide Rewrite, NewIds, Responses, CallIds;
    var pair := Pair(reply, tool);
    var calls := ToolCalls(reply.content);
    PairOpens(reply, tool);
    SecondOnly(pair[0], pair[1]);
    ResponsesAnswerInOrder(calls, tool, 0);
    assert CallIds(calls)[0..] == CallIds(calls);
    RewrittenIds(pair, renamed);
    IdsOfCalls(calls);
  }

  lemma {:induction false} IdsOfCalls(calls: seq<ToolCall>)
    ensures |CallIds(calls)| == |calls|
  {
  }

  /** A rewritten response keeps its content and names its call. */
  lemma {:induction false} RewrittenResponse(calls: seq<ToolCall>, start: nat, seen: set<string>, j: nat,
                                             content: string)
    requires j < |calls| && Distinct(CallIds(calls))
    ensures var p := RewritePart(ResponsePart(ToolResponse(calls[j].callId, Some(calls[j].fnName), content)),
                                 Renamed(calls, start, 0, seen));
            p.ResponsePart? && p.response == ToolResponse(p.response.callId, Some(calls[j].fnName), content)
  {
    RenamedAgrees(calls, start, 0, seen, j);
    hide Renamed, ClaimedIds;
  }

  lemma {:induction false} StructuredRound(reply: Reply, tool: (nat, ToolCall) -> ToolRun, start: nat,
                                           seen: set<string>)
    requires HasCalls(reply) && UsableIds(reply) && UnitRow(Pair(reply, tool))
    ensures var after := Treat(Pair(reply, tool), start, seen);
            RecordsRound(reply, tool, after[0], after[1])
  {
    hide Renamed, Responses, OutputIds, ValidExchange, Distinct, SameButIds;
    var pair := Pair(reply, tool);
    var calls := ToolCalls(reply.content);
    PairOpens(reply, tool);
    RoundIsValidWhen(reply, tool);
    var renamed := Renamed(calls, start, 0, seen);
    var after := Treat(pair, start, seen);
    assert after == Rewrite(pair, renamed);
    RenamingKeepsContent(pair, start, seen, 0);
    OutputsCarryBatchIds(reply, tool, renamed);
    ResponsesAt(calls, tool, 0);
    forall j | 0 <= j < |calls| ensures after[1].parts[j].ResponsePart? {
      RewrittenResponse(calls, start, seen, j, tool(j, calls[j]).content);
    }
    forall j | 0 <= j < |calls|
      ensures after[1].parts[j] == Report(reply, tool, j, ToolCalls(after[0].parts)[j].callId)
    {
      RewrittenResponse(calls, start, seen, j, tool(j, calls[j]).content);
      OutputIdAt(after, calls, j);
    }
  }

  lemma {:induction false} OutputIdAt(after: seq<Message>, calls: seq<ToolCall>, j: nat)
    requires |after| == 2 && OutputIds(after) == BatchIds(after) && j < |calls|
    requires |BatchIds(after)| == |calls| == |after[1].parts|
    requires forall i :: 0 <= i < |after[1].parts| ==> after[1].parts[i].ResponsePart?
    ensures |ToolCalls(after[0].parts)| == |calls|
    ensures after[1].parts[j].response.callId == ToolCalls(after[0].parts)[j].callId
  {
    SecondOnly(after[0], after[1]);
    assert after == [after[0], after[1]];
    ResponseIdAt(after[1].parts, j);
    assert BatchIds(after)[j] == ToolCalls(after[0].parts)[j].callId;
  }

  lemma {:induction false} ToldPointwise(parts: seq<Part>, note: string, rendered: seq<Part>)
    requires ToldInOrder(parts, note, rendered) && forall p :: p in parts ==> !p.ThoughtSignature?
    ensures |rendered| == |parts| && forall j :: 0 <= j < |parts| ==> Tells(parts[j], rendered[j])
  {
    hide Tells, Notes;
    if parts != [] {
      assert parts[0] in parts;
      ToldPointwise(parts[1..], note, rendered[1..]);
    }
  }

  lemma {:induction false} TextOutputs(reply: Reply, tool: (nat, ToolCall) -> ToolRun)
    requires HasCalls(reply)
    ensures var calls := ToolCalls(reply.content);
            var after := HistoricalText(Message(Tool, Responses(calls, tool, 0)));
            && after.role == User && |after.parts| == |calls|
            && forall j :: 0 <= j < |calls| ==> Tells(Report(reply, tool, j, calls[j].callId), after.parts[j])
  {
    hide Responses, ToldInOrder, Tells, HistoricalText;
    var calls := ToolCalls(reply.content);
    var outputs := Message(Tool, Responses(calls, tool, 0));
    TextTells(outputs);
    ResponsesAt(calls, tool, 0);
    ResponsesAnswerInOrder(calls, tool, 0);
    assert outputs.parts[0] in outputs.parts;
    ToldPointwise(outputs.parts, "; incomplete or invalid exchange", HistoricalText(outputs).parts);
  }

  lemma {:induction false} PairIsText(reply: Reply, tool: (nat, ToolCall) -> ToolRun, start: nat, seen: set<string>)
    requires HasCalls(reply) && !UsableIds(reply) && UnitRow(Pair(reply, tool))
    ensures Treat(Pair(reply, tool), start, seen) == HistoricalTexts(Pair(reply, tool))
  {
    hide ValidExchange, Responses, HistoricalTexts;
    PairOpens(reply, tool);
    RoundIsValidWhen(reply, tool);
  }

  lemma {:induction false} TextRound(reply: Reply, tool: (nat, ToolCall) -> ToolRun, start: nat, seen: set<string>)
    requires HasCalls(reply) && !UsableIds(reply) && UnitRow(Pair(reply, tool))
    ensures var after := Treat(Pair(reply, tool), start, seen);
            RecordsRound(reply, tool, after[0], after[1])
  {
    hide Responses, UnitRow, Treat, ToldInOrder, Tells, HistoricalText, ToolCalls;
    PairIsText(reply, tool, start, seen);
    TextTells(Pair(reply, tool)[0]);
    TextOutputs(reply, tool);
  }

  lemma {:induction false} NewPairRecords(request: seq<Message>, world: World, step: nat)
    requires HasCalls(Ask(world, step, request))
    ensures var pair := NewPair(request, world, step);
            |pair| == 2 && RecordsRound(Ask(world, step, request), ToolsAt(world, step), pair[0], pair[1])
  {
    hide Treat, RecordsRound, UsableIds, Ask, ToolsAt, AllCallIds, UnitRow, Pair;
    var reply := Ask(world, step, request);
    NewPairOfRound(request, world, step);
    if UsableIds(reply) {
      StructuredRound(reply, ToolsAt(world, step), |request|, Elements(AllCallIds(request)));
    } else {
      TextRound(reply, ToolsAt(world, step), |request|, Elements(AllCallIds(request)));
    }
  }

  /** Each step's request is the one before and, if its reply has calls, two messages that record the round. */
  lemma {:induction false} NextRequestRecords(ctx: Context, world: World, step: nat)
    requires HasCalls(ReplyAt(ctx, world, step))
    ensures var before, after := Request(ctx, world, step), Request(ctx, world, step + 1);
            && |after| == |before| + 2 && after[..|before|] == before
            && RecordsRound(ReplyAt(ctx, world, step), ToolsAt(world, step), after[|before|], after[|before| + 1])
  {
    hide RecordsRound, NewPair;
    NewPairRecords(Request(ctx, world, step), world, step);
  }

  /** The rows two by two record the rounds of the first steps. */
  predicate RowsRecord(ctx: Context, world: World, rows: seq<Message>, rounds: nat) {
    |rows| == 2 * rounds && forall k :: 0 <= k < rounds ==> RecordedAt(ctx, world, rows, k)
  }

  predicate RecordedAt(ctx: Context, world: World, rows: seq<Message>, k: nat)
    requires 2 * k + 1 < |rows|
  {
    && HasCalls(ReplyAt(ctx, world, k))
    && RecordsRound(ReplyAt(ctx, world, k), ToolsAt(world, k), rows[2 * k], rows[2 * k + 1])
  }

  lemma {:induction false} OneMoreRecord(ctx: Context, world: World, rows: seq<Message>, pair: seq<Message>, k: nat)
    requires RowsRecord(ctx, world, rows, k) && |pair| == 2 && HasCalls(ReplyAt(ctx, world, k))
    requires RecordsRound(ReplyAt(ctx, world, k), ToolsAt(world, k), pair[0], pair[1])
    ensures RowsRecord(ctx, world, rows + pair, k + 1)
  {
    hide RecordsRound, HasCalls, ReplyAt, ToolsAt;
    forall i | 0 <= i < k + 1 ensures RecordedAt(ctx, world, rows + pair, i) {
      if i < k {
        assert RecordedAt(ctx, world, rows, i);
        assert 2 * i + 1 < |rows|;
      }
    }
  }

  lemma {:induction false} PairsRecord(ctx: Context, world: World, rounds: nat)
    requires RoundsComplete(ctx, world, rounds)
    ensures RowsRecord(ctx, world, Pairs(ctx, world, rounds), rounds)
  {
    if rounds > 0 {
      hide RecordsRound, NewPair, HasCalls, Request, Ask, ToolsAt, RoundsComplete, RecordedAt, RowsRecord;
      RoundHasCalls(ctx, world, rounds);
      PairsRecord(ctx, world, rounds - 1);
      NewPairRecords(Request(ctx, world, rounds - 1), world, rounds - 1);
      OneMoreRecord(ctx, world, Pairs(ctx, world, rounds - 1),
                    NewPair(Request(ctx, world, rounds - 1), world, rounds - 1), rounds - 1);
    } else {
      NoRecords(ctx, world);
    }
  }

  lemma {:induction false} NoRecords(ctx: Context, world: World)
    ensures RowsRecord(ctx, world, Pairs(ctx, world, 0), 0)
  {
  }

  lemma {:induction false} RoundHasCalls(ctx: Context, world: World, steps: nat)
    requires steps > 0 && RoundsComplete(ctx, world, steps)
    ensures RoundsComplete(ctx, world, steps - 1) && HasCalls(Ask(world, steps - 1, Request(ctx, world, steps - 1)))
  {
    hide Request, HasCalls, Ask;
  }

  /**
   The first request: the personality, when there is one, and then the whole history,
   each message as normalising leaves it.
   */
  lemma {:induction false} InitialTells(ctx: Context)
    ensures ctx.personality == "" ==> HistoryBecomes(ctx.messages, Initial(ctx))
    ensures ctx.personality != "" ==>
              && Initial(ctx) != [] && Initial(ctx)[0] == Message(System, [TextPart(ctx.personality)])
              && HistoryBecomes(ctx.messages, Initial(ctx)[1..])
  {
    hide HistoryBecomes, NormalizeHistory;
    NormalizeTellsAll(ctx.messages);
    assert [] + NormalizeHistory(ctx.messages) == NormalizeHistory(ctx.messages);
  }

  function Tokens(count: Option<int>): nat {
    if count.Some? && count.value > 0 then count.value else 0
  }

  /** Tokens reported by the first `steps` replies. */
  function TokensUsed(ctx: Context, world: World, steps: nat): nat {
    if steps == 0 then 0
    else
      var reply := ReplyAt(ctx, world, steps - 1);
      TokensUsed(ctx, world, steps - 1)
      + if reply.Reply? then Tokens(reply.promptTokens) + Tokens(reply.completionTokens) else 0
  }

  /** A reply adds what it reports; counts that are missing or negative add nothing. */
  lemma {:induction false} TokensAddUp(ctx: Context, world: World, step: nat, prompt: int, completion: int)
    requires ReplyAt(ctx, world, step).Reply?
    requires ReplyAt(ctx, world, step).promptTokens == Some(prompt)
    requires ReplyAt(ctx, world, step).completionTokens == Some(completion)
    ensures var before, after := TokensUsed(ctx, world, step), TokensUsed(ctx, world, step + 1);
            && (prompt >= 0 && completion >= 0 ==> after == before + prompt + completion)
            && (prompt < 0 && completion < 0 ==> after == before)
  {
    hide Request, Ask;
  }

  predicate Sends(call: ToolCall, run: ToolRun) {
    call.fnName == "send_user_message" && run.sent
  }

  /** One of the first `n` calls sent the user a message. */
  predicate AnySends(calls: seq<ToolCall>, tool: (nat, ToolCall) -> ToolRun, n: nat)
    requires n <= |calls|
  {
    exists i :: 0 <= i < n && Sends(calls[i], tool(i, calls[i]))
  }

  /** Some call of the first `steps` replies sent the user a message. */
  predicate SentUserMessage(ctx: Context, world: World, steps: nat) {
    steps > 0 && (SentUserMessage(ctx, world, steps - 1) || SentAt(ReplyAt(ctx, world, steps - 1), world, steps - 1))
  }

  predicate SentAt(reply: Reply, world: World, step: nat) {
    reply.Reply? && AnySends(ToolCalls(reply.content), ToolsAt(world, step), |ToolCalls(reply.content)|)
  }

  /** The stored rows of a session; the two rows of an exchange are committed together. */
  class MessageStore {
    var rows: seq<Message>

    constructor ()
      ensures rows == []
    {
      rows := [];
    }

    method CreateMessage(m: Message, commits: bool) returns (ok: bool)
      modifies this
      ensures ok == commits
      ensures rows == if commits then old(rows) + [m] else old(rows)
    {
      ok := commits;
      if commits {
        rows := rows + [m];
      }
    }

    method CreateToolExchange(assistant: Message, results: Message, commits: bool) returns (ok: bool)
      modifies this
      ensures ok == commits
      ensures rows == if commits then old(rows) + [assistant, results] else old(rows)
    {
      ok := commits;
      if commits {
        rows := rows + [assistant, results];
      }
    }
  }

  /** The outcome the reply of the last step calls for. */
  predicate CalledFor(outcome: Outcome, ctx: Context, world: World, step: nat, reply: Reply) {
    match outcome
    case FinalText(text) =>
      reply.Reply? && !HasCalls(reply) && text != "" && JoinedTexts(reply.content, ctx.separator) == Some(text)
    case Silent =>
      reply.Reply? && !HasCalls(reply) && JoinedTexts(reply.content, ctx.separator) in {None, Some("")}
    case LlmError => reply.Failed?
    case PermissionDenied => HasCalls(reply) && !world.allowed
    case StorageError => HasCalls(reply) && world.allowed && ctx.persists && !Commits(world, step)
    case MaxToolIterationsExceeded => Continues(ctx, world, step, reply)
  }

  /** The rows persisted by `rounds` completed rounds. */
  function Persisted(ctx: Context, world: World, rounds: nat): seq<Message> {
    if ctx.persists then Pairs(ctx, world, rounds) else []
  }

  lemma {:induction false} BeforeFirstRound(ctx: Context, world: World)
    ensures Request(ctx, world, 0) == Initial(ctx) && Persisted(ctx, world, 0) == []
  {
  }

  lemma {:induction false} NoCallsSendNothing(reply: Reply, world: World, step: nat)
    requires reply.Reply? && ToolCalls(reply.content) == []
    ensures !SentAt(reply, world, step)
  {
  }

  /**
   One turn. The model is called at most `maxIterations` times; all replies but
   the last lead to a completed round; the rows persisted are exactly the pairs of
   the completed rounds; and the outcome is the one the last reply calls for.
   */
  method RunAgent(ctx: Context, world: World, maxIterations: nat, store: MessageStore)
    returns (outcome: Outcome, calls: nat, tokens: nat, sentUserMessage: bool)
    modifies store
    ensures calls <= maxIterations
    ensures calls > 0 ==> RoundsComplete(ctx, world, calls - 1)
    ensures calls == 0 ==> maxIterations == 0 && outcome == MaxToolIterationsExceeded
    ensures calls > 0 ==> CalledFor(outcome, ctx, world, calls - 1, ReplyAt(ctx, world, calls - 1))
    ensures outcome == MaxToolIterationsExceeded ==> calls == maxIterations
    ensures var rounds := if outcome == MaxToolIterationsExceeded then calls else calls - 1;
            && store.rows == old(store.rows) + Persisted(ctx, world, rounds)
            && var appended := store.rows[|old(store.rows)|..];
               if ctx.persists then RowsRecord(ctx, world, appended, rounds) else appended == []
    ensures tokens == TokensUsed(ctx, world, calls)
    ensures (outcome.FinalText? || outcome.Silent? || outcome.MaxToolIterationsExceeded?)
            ==> sentUserMessage == SentUserMessage(ctx, world, calls)
  {
    hide Exchange, NormalizeHistory, NewPair, JoinedTexts, Request, Persisted, AnySends, RowsRecord;
    var working := NormalizeHistory(ctx.messages);
    if ctx.personality != "" {
      working := [Message(System, [TextPart(ctx.personality)])] + working;
    }
    tokens, calls, sentUserMessage := 0, 0, false;
    BeforeFirstRound(ctx, world);
    for step := 0 to maxIterations
      invariant calls == step
      invariant working == Request(ctx, world, step)
      invariant RoundsComplete(ctx, world, step)
      invariant store.rows == old(store.rows) + Persisted(ctx, world, step)
      invariant tokens == TokensUsed(ctx, world, step)
      invariant sentUserMessage == SentUserMessage(ctx, world, step)
    {
      PersistedRecords(ctx, world, old(store.rows), step);
      var reply := Ask(world, step, working);
      assert reply == ReplyAt(ctx, world, step);
      calls := step + 1;
      if reply.Failed? {
        return LlmError, calls, tokens, sentUserMessage;
      }
      tokens := tokens + Tokens(reply.promptTokens) + Tokens(reply.completionTokens);
      if ToolCalls(reply.content) == [] {
        NoCallsSendNothing(reply, world, step);
        var text := JoinedTexts(reply.content, ctx.separator);
        outcome := if text.Some? && text.value != "" then FinalText(text.value) else Silent;
        return;
      }
      if !world.allowed {
        return PermissionDenied, calls, tokens, sentUserMessage;
      }
      var sent, ok;
      working, sent, ok := CompleteRound(ctx, world, step, working, reply, store);
      sentUserMessage := sentUserMessage || sent;
      if !ok {
        return StorageError, calls, tokens, sentUserMessage;
      }
      PersistedStep(ctx, world, step, old(store.rows));
    }
    PersistedRecords(ctx, world, old(store.rows), maxIterations);
    outcome := MaxToolIterationsExceeded;
  }

  lemma {:induction false} PersistedRecords(ctx: Context, world: World, rows: seq<Message>, rounds: nat)
    requires RoundsComplete(ctx, world, rounds)
    ensures var appended := (rows + Persisted(ctx, world, rounds))[|rows|..];
            if ctx.persists then RowsRecord(ctx, world, appended, rounds) else appended == []
  {
    hide RowsRecord, RoundsComplete, Pairs;
    PairsRecord(ctx, world, rounds);
    assert (rows + Persisted(ctx, world, rounds))[|rows|..] == Persisted(ctx, world, rounds);
  }

  lemma {:induction false} PersistedStep(ctx: Context, world: World, step: nat, rows: seq<Message>)
    ensures rows + Persisted(ctx, world, step + 1)
         == rows + Persisted(ctx, world, step)
            + if ctx.persists then NewPair(Request(ctx, world, step), world, step) else []
  {
    if ctx.persists {
      ConcatAssociates(rows, Pairs(ctx, world, step), NewPair(Request(ctx, world, step), world, step));
    }
  }

  /** Execute the calls, append the pair, renormalise, and persist the last two messages. */
  method CompleteRound(ctx: Context, world: World, step: nat, working: seq<Message>, reply: Reply, store: MessageStore)
    returns (next: seq<Message>, sent: bool, ok: bool)
    requires working == Request(ctx, world, step) && reply == ReplyAt(ctx, world, step) && HasCalls(reply)
    modifies store
    ensures next == Request(ctx, world, step + 1)
    ensures sent == SentAt(reply, world, step)
    ensures ok == (ctx.persists ==> Commits(world, step))
    ensures store.rows == old(store.rows) + if ctx.persists && ok then NewPair(working, world, step) else []
  {
    hide NormalizeHistory, Exchange, Request, NewPair;
    var responses;
    responses, sent := ExecuteAll(ToolCalls(reply.content), ToolsAt(world, step));
    var reasoning := if reply.reasoning.Some? then [ReasoningContent(reply.reasoning.value)] else [];
    next := working + [Message(Assistant, reply.content + reasoning), Message(Tool, responses)];
    assert next == working + Pair(reply, ToolsAt(world, step));
    RoundAppended(ctx, world, step);
    next := NormalizeHistory(next);
    ok := true;
    if ctx.persists {
      var end := |next|;
      assert [next[end - 2], next[end - 1]] == NewPair(working, world, step);
      ok := store.CreateToolExchange(next[end - 2], next[end - 1], Commits(world, step));
    }
  }

  /** Renormalising the appended pair gives the next request. */
  lemma {:induction false} RoundAppended(ctx: Context, world: World, step: nat)
    requires HasCalls(ReplyAt(ctx, world, step))
    ensures var before := Request(ctx, world, step);
            var pair := Pair(ReplyAt(ctx, world, step), ToolsAt(world, step));
            && NormalizeHistory(before + pair) == Request(ctx, world, step + 1)
            && Request(ctx, world, step + 1) == before + NewPair(before, world, step)
  {
    var before := Request(ctx, world, step);
    var reply := ReplyAt(ctx, world, step);
    RequestIsNormal(ctx, world, step);
    PairOpens(reply, ToolsAt(world, step));
    RenormaliseTouchesOnlyTheEnd(before, Pair(reply, ToolsAt(world, step)));
  }

  lemma {:induction false} SendsStep(calls: seq<ToolCall>, tool: (nat, ToolCall) -> ToolRun, i: nat)
    requires i < |calls|
    ensures AnySends(calls, tool, i + 1) <==> AnySends(calls, tool, i) || Sends(calls[i], tool(i, calls[i]))
  {
    hide Sends;
  }

  /** Run the calls in order, collecting one response for each. */
  method ExecuteAll(calls: seq<ToolCall>, tool: (nat, ToolCall) -> ToolRun) returns (responses: seq<Part>, sent: bool)
    ensures responses == Responses(calls, tool, 0)
    ensures sent <==> AnySends(calls, tool, |calls|)
  {
    responses := [];
    sent := false;
    for i := 0 to |calls|
      invariant responses + Responses(calls, tool, i) == Responses(calls, tool, 0)
      invariant sent <==> AnySends(calls, tool, i)
    {
      var run := tool(i, calls[i]);
      SendsStep(calls, tool, i);
      hide AnySends, Sends;
      sent := sent || Sends(calls[i], run);
      var response := ResponsePart(ToolResponse(calls[i].callId, Some(calls[i].fnName), run.content));
      ConcatAssociates(responses, [response], Responses(calls, tool, i + 1));
      responses := responses + [response];
    }
    assert responses + [] == responses;
  }
}
