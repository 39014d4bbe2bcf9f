/**
 Tool-history units: the specification of `history_units` as a left-to-right
 scan over rows, and the loop that computes it.
 */
module History {
  import opened Text
  import opened Messages
  import opened Json

  /** A chronological history unit: the rows `start..end` and what replaces them. */
  datatype Unit = Unit(start: nat, end: nat, messages: seq<Message>)

  // ---------- exchanges ----------

  /** First index at or after `i` that does not hold a tool message. */
  function RunEnd(ms: seq<Message>, i: nat): (e: nat)
    requires i <= |ms|
    ensures i <= e <= |ms|
    ensures forall k :: i <= k < e ==> ms[k].role == Tool
    ensures e < |ms| ==> ms[e].role != Tool
    decreases |ms| - i
  {
    if i < |ms| && ms[i].role == Tool then RunEnd(ms, i + 1) else i
  }

  /** Where the unit starting at `i` ends. */
  function UnitEnd(ms: seq<Message>, i: nat): (e: nat)
    requires i < |ms|
    ensures i < e <= |ms|
  {
    if Opens(ms[i]) then RunEnd(ms, i + 1) else i + 1
  }

  function OutputIds(row: seq<Message>): seq<string>
    requires row != []
  {
    ResponseIds(ToolResponses(AllParts(row[1..])))
  }

  function BatchIds(row: seq<Message>): seq<string>
    requires row != []
  {
    CallIds(ToolCalls(row[0].parts))
  }

  /**
   A complete exchange: the calls have distinct nonempty ids, the assistant
   message holds no output, and the output messages hold nothing but outputs,
   exactly one for each call.
   */
  predicate ValidExchange(row: seq<Message>)
    requires row != []
  {
    && Distinct(BatchIds(row))
    && "" !in BatchIds(row)
    && (forall p :: p in row[0].parts ==> !p.ResponsePart?)
    && (forall p :: p in AllParts(row[1..]) ==> p.ResponsePart?)
    && multiset(OutputIds(row)) == multiset(BatchIds(row))
  }

  // ---------- fresh ids ----------

  function Candidate(start: nat, ordinal: nat, suffix: nat): string {
    "nerdbot_history_" + Decimal(start) + "_" + Decimal(ordinal)
    + if suffix == 0 then "" else "_" + Decimal(suffix)
  }

  lemma {:induction false} CandidatesDiffer(start: nat, ordinal: nat, a: nat, b: nat)
    requires a != b
    ensures Candidate(start, ordinal, a) != Candidate(start, ordinal, b)
  {
    var stem := "nerdbot_history_" + Decimal(start) + "_" + Decimal(ordinal);
    var ca, cb := Candidate(start, ordinal, a), Candidate(start, ordinal, b);
    if a == 0 || b == 0 {
      assert |ca| != |cb|;
    } else if ca == cb {
      assert ca == stem + ("_" + Decimal(a)) && cb == stem + ("_" + Decimal(b));
      assert Decimal(a) == ca[|stem| + 1..] == Decimal(b);
      DecimalInjective(a, b);
    }
  }

  /** Suffixes already found taken are few: they name distinct members of `seen`. */
  lemma {:induction false} TakenSuffixesBounded(start: nat, ordinal: nat, n: nat, seen: set<string>)
    requires forall j :: 0 <= j < n ==> Candidate(start, ordinal, j) in seen
    ensures n <= |seen|
  {
    hide Candidate;
    var taken := set j | 0 <= j < n :: Candidate(start, ordinal, j);
    TakenSize(start, ordinal, n);
    assert taken <= seen;
    SubsetSize(taken, seen);
  }

  lemma {:induction false} TakenSize(start: nat, ordinal: nat, n: nat)
    ensures |set j | 0 <= j < n :: Candidate(start, ordinal, j)| == n
  {
    hide Candidate;
    var taken := set j | 0 <= j < n :: Candidate(start, ordinal, j);
    if n > 0 {
      var fewer := set j | 0 <= j < n - 1 :: Candidate(start, ordinal, j);
      var last := Candidate(start, ordinal, n - 1);
      TakenSize(start, ordinal, n - 1);
      forall j | 0 <= j < n - 1 ensures Candidate(start, ordinal, j) != last {
        CandidatesDiffer(start, ordinal, j, n - 1);
      }
      assert taken == fewer + {last};
    }
  }

  lemma {:induction false} SubsetSize<T>(a: set<T>, b: set<T>)
    requires a <= b
    ensures |a| <= |b|
  {
    if a != {} {
      var x :| x in a;
      SubsetSize(a - {x}, b - {x});
    }
  }

  /** The first generated name, from `suffix` on, that no id has used so far. */
  function FreshId(start: nat, ordinal: nat, suffix: nat, seen: set<string>): (id: string)
    requires forall j :: 0 <= j < suffix ==> Candidate(start, ordinal, j) in seen
    ensures id !in seen
    ensures exists k :: k >= suffix && id == Candidate(start, ordinal, k)
                        && forall j :: 0 <= j < k ==> Candidate(start, ordinal, j) in seen
    decreases |seen| + 1 - suffix
  {
    TakenSuffixesBounded(start, ordinal, suffix, seen);
    var c := Candidate(start, ordinal, suffix);
    if c in seen then
      TakenSuffixesBounded(start, ordinal, suffix + 1, seen);
      FreshId(start, ordinal, suffix + 1, seen)
    else c
  }

  /** The id a call of a complete exchange ends up with. */
  function ClaimId(id: string, start: nat, ordinal: nat, seen: set<string>): (claimed: string)
    ensures claimed !in seen
    ensures id !in seen ==> claimed == id
  {
    if id in seen then FreshId(start, ordinal, 0, seen) else id
  }

  /** Ids claimed by the calls from `k` on, each added to the seen ids in turn. */
  function ClaimedIds(calls: seq<ToolCall>, start: nat, k: nat, seen: set<string>): (ids: seq<string>)
    requires k <= |calls|
    ensures |ids| == |calls| - k
    decreases |calls| - k
  {
    if k == |calls| then []
    else
      var id := ClaimId(calls[k].callId, start, k, seen);
      [id] + ClaimedIds(calls, start, k + 1, seen + {id})
  }

  type Renaming = map<string, (string, string)>

  /** Reused ids, each with its new id and the name of the call that carries it. */
  function Renamed(calls: seq<ToolCall>, start: nat, k: nat, seen: set<string>): Renaming
    requires k <= |calls|
    decreases |calls| - k
  {
    if k == |calls| then map[]
    else
      var id := ClaimId(calls[k].callId, start, k, seen);
      (if id == calls[k].callId then map[] else map[calls[k].callId := (id, calls[k].fnName)])
      + Renamed(calls, start, k + 1, seen + {id})
  }

  function RewritePart(p: Part, renamed: Renaming): Part {
    match p
    case CallPart(call) =>
      if call.callId in renamed then CallPart(call.(callId := renamed[call.callId].0)) else p
    case ResponsePart(r) =>
      if r.callId in renamed
      then ResponsePart(r.(callId := renamed[r.callId].0, fnName := Some(renamed[r.callId].1)))
      else p
    case _ => p
  }

  function RewriteParts(parts: seq<Part>, renamed: Renaming): (r: seq<Part>)
    ensures |r| == |parts|
  {
    seq(|parts|, i requires 0 <= i < |parts| => RewritePart(parts[i], renamed))
  }

  function Rewrite(row: seq<Message>, renamed: Renaming): (r: seq<Message>)
    ensures |r| == |row|
  {
    seq(|row|, i requires 0 <= i < |row| =>
      Message(row[i].role, RewriteParts(row[i].parts, renamed)))
  }

  // ---------- historical text ----------

  /** One part as ordinary text; `note` distinguishes malformed replay from summaries. */
  function RenderPart(p: Part, note: string): Part {
    match p
    case CallPart(c) =>
      TextPart("[Historical tool call: " + c.fnName + " (id: " + c.callId + ")" + note
               + "]\nArguments: " + c.fnArguments)
    case ResponsePart(r) =>
      TextPart("[Historical tool output (id: " + r.callId + ")" + note + "]\n" + r.content)
    case ReasoningContent(t) =>
      TextPart("[Historical assistant metadata: {\"ReasoningContent\":" + JsonString(t) + "}]")
    case Custom(json) =>
      TextPart("[Historical assistant metadata: {\"Custom\":" + json + "}]")
    case _ => p
  }

  function RenderParts(parts: seq<Part>, note: string): (r: seq<Part>)
    ensures forall p :: p in r ==> p.TextPart? || p.Binary?
  {
    if parts == [] then []
    else
      (if parts[0].ThoughtSignature? then [] else [RenderPart(parts[0], note)])
      + RenderParts(parts[1..], note)
  }

  function RenderHistoricalText(m: Message, note: string): (r: Message)
    ensures r.role != Tool
    ensures forall p :: p in r.parts ==> p.TextPart? || p.Binary?
  {
    var parts := RenderParts(m.parts, note);
    if m.role == Tool then
      Message(User,
              if exists p :: p in m.parts && p.ResponsePart? then parts
              else [TextPart("[Historical tool message]")] + parts)
    else Message(m.role, parts)
  }

  /** A rendered part from which a reader still learns what the original said. */
  predicate Tells(p: Part, q: Part) {
    match p
    case CallPart(c) =>
      q.TextPart? && Contains(q.text, c.fnName) && Contains(q.text, c.callId) && Contains(q.text, c.fnArguments)
    case ResponsePart(o) => q.TextPart? && Contains(q.text, o.callId) && Contains(q.text, o.content)
    case Custom(json) => q.TextPart? && Contains(q.text, json)
    case ReasoningContent(t) => q.TextPart? && Contains(q.text, JsonString(t))
    case ThoughtSignature(_) => false
    case _ => q == p
  }

  /** Protocol is told with the note. */
  predicate Notes(p: Part, note: string, q: Part) {
    p.CallPart? || p.ResponsePart? ==> q.TextPart? && Contains(q.text, note)
  }

  /** Part by part, in order, nothing else between: all but signatures is told. */
  predicate ToldInOrder(parts: seq<Part>, note: string, rendered: seq<Part>) {
    if parts == [] then rendered == []
    else if parts[0].ThoughtSignature? then ToldInOrder(parts[1..], note, rendered)
    else
      && rendered != [] && Tells(parts[0], rendered[0]) && Notes(parts[0], note, rendered[0])
      && ToldInOrder(parts[1..], note, rendered[1..])
  }

  /** Something in the rendered message tells the part. */
  predicate StillTold(p: Part, rendered: seq<Part>) {
    p.ThoughtSignature? || exists q :: q in rendered && Tells(p, q)
  }

  lemma {:induction false} ToldIsStillTold(parts: seq<Part>, note: string, rendered: seq<Part>, p: Part)
    requires ToldInOrder(parts, note, rendered) && p in parts
    ensures StillTold(p, rendered)
  {
    hide Tells, Notes;
    if p.ThoughtSignature? {
    } else if parts[0].ThoughtSignature? {
      ToldIsStillTold(parts[1..], note, rendered, p);
    } else if p == parts[0] {
      assert rendered[0] in rendered;
    } else {
      ToldIsStillTold(parts[1..], note, rendered[1..], p);
    }
  }

  lemma {:induction false} RenderedPart(parts: seq<Part>, note: string, p: Part)
    requires p in parts && !p.ThoughtSignature?
    ensures RenderPart(p, note) in RenderParts(parts, note)
  {
    if p != parts[0] {
      assert parts == [parts[0]] + parts[1..];
      RenderedPart(parts[1..], note, p);
    }
  }

  lemma {:induction false} RenderedInOrder(parts: seq<Part>, note: string)
    ensures ToldInOrder(parts, note, RenderParts(parts, note))
  {
    if parts != [] {
      hide Tells, Notes, RenderPart;
      RenderedInOrder(parts[1..], note);
      if !parts[0].ThoughtSignature? {
        RenderPartTells(parts[0], note);
        ConcatHead([RenderPart(parts[0], note)], RenderParts(parts[1..], note));
        assert [RenderPart(parts[0], note)][1..] == [];
      } else {
        assert RenderParts(parts, note) == RenderParts(parts[1..], note);
      }
    }
  }

  /** The parts told of a message; a tool message without outputs is first marked as one. */
  function TellingParts(m: Message, rendered: Message): seq<Part> {
    if m.role == Tool && (forall p :: p in m.parts ==> !p.ResponsePart?) && rendered.parts != []
    then rendered.parts[1..] else rendered.parts
  }

  /** Turning protocol into text keeps every call, argument, outcome, reasoning, text and attachment, in order. */
  lemma {:induction false} RenderingTellsAll(m: Message, note: string)
    ensures ToldInOrder(m.parts, note, TellingParts(m, RenderHistoricalText(m, note)))
  {
    RenderedInOrder(m.parts, note);
    hide ToldInOrder;
    var rendered := RenderHistoricalText(m, note);
    if m.role == Tool && forall p :: p in m.parts ==> !p.ResponsePart? {
      assert rendered.parts[1..] == RenderParts(m.parts, note);
    }
  }

  /** A call is never shown as an output. */
  lemma {:induction false} RenderingsDiffer(c: ToolCall, o: ToolResponse, note: string, other: string)
    ensures RenderPart(CallPart(c), note) != RenderPart(ResponsePart(o), other)
  {
    var call, output := RenderPart(CallPart(c), note).text, RenderPart(ResponsePart(o), other).text;
    assert call[17] == 'c' && output[17] == 'o';
  }

  lemma {:induction false} CallTells(c: ToolCall, note: string)
    ensures var t := RenderPart(CallPart(c), note).text;
            Contains(t, c.fnName) && Contains(t, c.callId) && Contains(t, c.fnArguments) && Contains(t, note)
  {
    hide Contains;
    var named := "[Historical tool call: " + c.fnName;
    var started := named + " (id: ";
    var identified := started + c.callId;
    var noted := identified + ")" + note;
    var headed := noted + "]\nArguments: ";
    ContainsLonger("[Historical tool call: ", c.fnName, "");
    ContainsLonger(named, c.fnName, " (id: ");
    ContainsLonger(started, c.fnName, c.callId);
    ContainsLonger(started, c.callId, "");
    ContainsLonger(identified + ")", note, "");
    forall sub | sub in {c.fnName, c.callId, note} ensures Contains(headed + c.fnArguments, sub) {
      ContainsLonger(identified, sub, ")");
      ContainsLonger(identified + ")", sub, note);
      ContainsLonger(noted, sub, "]\nArguments: ");
      ContainsLonger(headed, sub, c.fnArguments);
    }
    ContainsLonger(headed, c.fnArguments, "");
  }

  lemma {:induction false} ResponseTells(o: ToolResponse, note: string)
    ensures var t := RenderPart(ResponsePart(o), note).text;
            Contains(t, o.callId) && Contains(t, o.content) && Contains(t, note)
  {
    hide Contains;
    var identified := "[Historical tool output (id: " + o.callId;
    var noted := identified + ")" + note;
    var headed := noted + "]\n";
    ContainsLonger("[Historical tool output (id: ", o.callId, "");
    ContainsLonger(identified + ")", note, "");
    forall sub | sub in {o.callId, note} ensures Contains(headed + o.content, sub) {
      ContainsLonger(identified, sub, ")");
      ContainsLonger(identified + ")", sub, note);
      ContainsLonger(noted, sub, "]\n");
      ContainsLonger(headed, sub, o.content);
    }
    ContainsLonger(headed, o.content, "");
  }

  lemma {:induction false} RenderPartTells(p: Part, note: string)
    requires !p.ThoughtSignature?
    ensures Tells(p, RenderPart(p, note)) && Notes(p, note, RenderPart(p, note))
  {
    hide Contains, JsonString;
    match p
    case CallPart(c) => CallTells(c, note);
    case ResponsePart(o) => ResponseTells(o, note);
    case Custom(json) =>
      ContainsMiddle("[Historical assistant metadata: {\"Custom\":", json, "}]");
    case ReasoningContent(t) =>
      ContainsMiddle("[Historical assistant metadata: {\"ReasoningContent\":", JsonString(t), "}]");
    case _ =>
  }

  function HistoricalText(m: Message): Message {
    RenderHistoricalText(m, "; incomplete or invalid exchange")
  }

  function HistoricalTexts(row: seq<Message>): (r: seq<Message>)
    ensures |r| == |row|
  {
    seq(|row|, i requires 0 <= i < |row| => HistoricalText(row[i]))
  }

  // ---------- units ----------

  /** What one unit's rows become, given the ids used before it. */
  function Treat(row: seq<Message>, start: nat, seen: set<string>): (r: seq<Message>)
    requires row != [] && (!Opens(row[0]) ==> |row| == 1)
    ensures |r| == |row|
  {
    if Opens(row[0]) then
      if ValidExchange(row) then Rewrite(row, Renamed(ToolCalls(row[0].parts), start, 0, seen))
      else HistoricalTexts(row)
    else if row[0].role == Tool || HasProtocol(row[0].parts) then [HistoricalText(row[0])]
    else row
  }

  /** The ids used once the unit has been treated. */
  function SeenAfter(row: seq<Message>, start: nat, seen: set<string>): (after: set<string>)
    requires row != []
    ensures seen <= after
  {
    if Opens(row[0]) && ValidExchange(row)
    then seen + Elements(ClaimedIds(ToolCalls(row[0].parts), start, 0, seen))
    else seen
  }

  /** The units of the rows from `i` on, given the ids used before `i`. */
  function UnitsFrom(ms: seq<Message>, i: nat, seen: set<string>): (units: seq<Unit>)
    requires i <= |ms|
    ensures i == |ms| <==> units == []
    decreases |ms| - i
  {
    if i == |ms| then []
    else
      var e := UnitEnd(ms, i);
      var row := ms[i..e];
      [Unit(i, e, Treat(row, i, seen))] + UnitsFrom(ms, e, SeenAfter(row, i, seen))
  }

  function HistoryUnits(ms: seq<Message>): seq<Unit> {
    UnitsFrom(ms, 0, {})
  }

  /** The messages of a list of units, in order. */
  function UnitMessages(units: seq<Unit>): seq<Message> {
    if units == [] then [] else units[0].messages + UnitMessages(units[1..])
  }

  function NormalizeHistory(ms: seq<Message>): seq<Message> {
    UnitMessages(HistoryUnits(ms))
  }

  lemma {:induction false} UnitMessagesCons(unit: Unit, rest: seq<Unit>)
    ensures UnitMessages([unit] + rest) == unit.messages + UnitMessages(rest)
  {
    assert ([unit] + rest)[1..] == rest;
  }

  /** One step of the scan. */
  lemma {:induction false} UnfoldScan(ms: seq<Message>, i: nat, seen: set<string>)
    requires i < |ms|
    ensures var e := UnitEnd(ms, i);
            UnitMessages(UnitsFrom(ms, i, seen))
            == Treat(ms[i..e], i, seen) + UnitMessages(UnitsFrom(ms, e, SeenAfter(ms[i..e], i, seen)))
  {
    var e := UnitEnd(ms, i);
    UnitMessagesCons(Unit(i, e, Treat(ms[i..e], i, seen)), UnitsFrom(ms, e, SeenAfter(ms[i..e], i, seen)));
  }

  lemma {:induction false} UnitMessagesConcat(a: seq<Unit>, b: seq<Unit>)
    ensures UnitMessages(a + b) == UnitMessages(a) + UnitMessages(b)
  {
    if a == [] {
      assert a + b == b;
    } else {
      assert (a + b)[1..] == a[1..] + b;
      UnitMessagesConcat(a[1..], b);
    }
  }
}
