/**
 Assembling a request within the input budget: fixed messages first, then the
 newest whole units that fit, then the current prompt.
 */
module ContextBudget {
  import opened Text
  import opened Messages
  import opened History
  import opened NormalForm
  import opened UnitCuts
  import opened HistoryContent
  import opened Storage

  datatype Budget = Budget(window: nat, reservedOutput: nat, reservedToolLoop: nat)

  function Usable(budget: Budget): int {
    budget.window - budget.reservedOutput - budget.reservedToolLoop
  }

  function SignatureBytes(signatures: seq<string>): nat {
    if signatures == [] then 0 else ByteLen(signatures[0]) + SignatureBytes(signatures[1..])
  }

  /** Characters a part is charged for; binary payloads are free. */
  function PartBytes(p: Part): nat {
    match p
    case TextPart(t) => ByteLen(t)
    case CallPart(c) =>
      ByteLen(c.callId) + ByteLen(c.fnName) + ByteLen(c.fnArguments)
      + if c.thoughtSignatures.Some? then SignatureBytes(c.thoughtSignatures.value) else 0
    case ResponsePart(r) => ByteLen(r.callId) + ByteLen(r.content)
    case Binary(_) => 0
    case ThoughtSignature(t) => ByteLen(t)
    case ReasoningContent(t) => ByteLen(t)
    case Custom(json) => ByteLen(json)
  }

  function PartsBytes(parts: seq<Part>): nat {
    if parts == [] then 0 else PartBytes(parts[0]) + PartsBytes(parts[1..])
  }

  function EstimateTokens(m: Message): (tokens: nat)
    ensures tokens >= 1
  {
    var quarter := PartsBytes(m.parts) / 4;
    if quarter >= 1 then quarter else 1
  }

  function TotalTokens(ms: seq<Message>): nat {
    if ms == [] then 0 else EstimateTokens(ms[0]) + TotalTokens(ms[1..])
  }

  lemma {:induction false} TotalTokensConcat(a: seq<Message>, b: seq<Message>)
    ensures TotalTokens(a + b) == TotalTokens(a) + TotalTokens(b)
  {
    if a == [] {
      assert a + b == b;
    } else {
      assert (a + b)[1..] == a[1..] + b;
      TotalTokensConcat(a[1..], b);
    }
  }

  lemma {:induction false} TotalTokensAppend(ms: seq<Message>, m: Message)
    ensures TotalTokens(ms + [m]) == TotalTokens(ms) + EstimateTokens(m)
  {
    TotalTokensConcat(ms, [m]);
    assert TotalTokens([m]) == EstimateTokens(m);
  }

  function Concat(texts: seq<string>): string {
    if texts == [] then "" else texts[0] + Concat(texts[1..])
  }

  /** All a part says, put together; an attachment says nothing. */
  function Said(p: Part): string {
    match p
    case TextPart(t) => t
    case CallPart(c) =>
      c.callId + c.fnName + c.fnArguments + if c.thoughtSignatures.Some? then Concat(c.thoughtSignatures.value) else ""
    case ResponsePart(r) => r.callId + r.content
    case Binary(_) => ""
    case ThoughtSignature(t) => t
    case ReasoningContent(t) => t
    case Custom(json) => json
  }

  function SaidIn(parts: seq<Part>): string {
    if parts == [] then "" else Said(parts[0]) + SaidIn(parts[1..])
  }

  function SaidByAll(ms: seq<Message>): string {
    if ms == [] then "" else SaidIn(ms[0].parts) + SaidByAll(ms[1..])
  }

  lemma {:induction false} SignatureBytesSaid(signatures: seq<string>)
    ensures SignatureBytes(signatures) == ByteLen(Concat(signatures))
  {
    if signatures != [] {
      SignatureBytesSaid(signatures[1..]);
      ByteLenConcat(signatures[0], Concat(signatures[1..]));
    }
  }

  lemma {:induction false} PartBytesSaid(p: Part)
    ensures PartBytes(p) == ByteLen(Said(p))
  {
    match p
    case CallPart(c) =>
      var signatures := if c.thoughtSignatures.Some? then c.thoughtSignatures.value else [];
      SignatureBytesSaid(signatures);
      ByteLenConcat(c.callId + c.fnName + c.fnArguments, Concat(signatures));
      ByteLenConcat(c.callId + c.fnName, c.fnArguments);
      ByteLenConcat(c.callId, c.fnName);
    case ResponsePart(r) => ByteLenConcat(r.callId, r.content);
    case _ =>
  }

  lemma {:induction false} PartsBytesSaid(parts: seq<Part>)
    ensures PartsBytes(parts) == ByteLen(SaidIn(parts))
  {
    if parts != [] {
      PartBytesSaid(parts[0]);
      PartsBytesSaid(parts[1..]);
      ByteLenConcat(Said(parts[0]), SaidIn(parts[1..]));
    }
  }

  /** An estimate is a quarter of the bytes said, give or take one token for each message. */
  lemma {:induction false} TokensMeasureBytes(ms: seq<Message>)
    ensures ByteLen(SaidByAll(ms)) <= 4 * TotalTokens(ms) + 3 * |ms|
    ensures 4 * TotalTokens(ms) <= ByteLen(SaidByAll(ms)) + 4 * |ms|
  {
    if ms != [] {
      PartsBytesSaid(ms[0].parts);
      TokensMeasureBytes(ms[1..]);
      ByteLenConcat(SaidIn(ms[0].parts), SaidByAll(ms[1..]));
    }
  }

  // ---------- unit costs ----------

  function StoredEstimate(row: StoredMessage): nat {
    if row.tokenEstimate.Some? && row.tokenEstimate.value >= 0 then row.tokenEstimate.value else 0
  }

  /** Cost of messages paired with the rows they came from; extra items of either list are dropped. */
  function PairedCost(ms: seq<Message>, rows: seq<StoredMessage>): nat {
    if ms == [] || rows == [] then 0
    else
      var stored, estimated := StoredEstimate(rows[0]), EstimateTokens(ms[0]);
      (if stored >= estimated then stored else estimated) + PairedCost(ms[1..], rows[1..])
  }

  function StoredTotal(rows: seq<StoredMessage>): nat {
    if rows == [] then 0 else StoredEstimate(rows[0]) + StoredTotal(rows[1..])
  }

  /** A unit is charged at least what its rows were stored with and what it estimates to, and never more than both. */
  lemma {:induction false} PairedCostBounds(ms: seq<Message>, rows: seq<StoredMessage>)
    requires |ms| == |rows|
    ensures StoredTotal(rows) <= PairedCost(ms, rows) <= StoredTotal(rows) + TotalTokens(ms)
    ensures TotalTokens(ms) <= PairedCost(ms, rows)
  {
    if ms != [] {
      PairedCostBounds(ms[1..], rows[1..]);
    }
  }

  function UnitCost(unit: Unit, rows: seq<StoredMessage>): nat {
    if unit.start <= unit.end <= |rows| then PairedCost(unit.messages, rows[unit.start..unit.end]) else 0
  }

  function UnitCosts(units: seq<Unit>, rows: seq<StoredMessage>): (costs: seq<nat>)
    ensures |costs| == |units|
  {
    seq(|units|, i requires 0 <= i < |units| => UnitCost(units[i], rows))
  }

  // ---------- greedy selection ----------

  /** Newest first: take a unit whenever it still fits, skip it otherwise. */
  function Greedy(costs: seq<nat>, budget: nat): (keep: seq<bool>)
    ensures |keep| == |costs|
  {
    if costs == [] then []
    else if costs[0] <= budget then [true] + Greedy(costs[1..], budget - costs[0])
    else [false] + Greedy(costs[1..], budget)
  }

  function KeptCost(costs: seq<nat>, keep: seq<bool>): nat
    requires |costs| == |keep|
  {
    if costs == [] then 0 else (if keep[0] then costs[0] else 0) + KeptCost(costs[1..], keep[1..])
  }

  predicate LexAtMost(a: seq<bool>, b: seq<bool>)
    requires |a| == |b|
  {
    a == [] || (!a[0] && b[0]) || (a[0] == b[0] && LexAtMost(a[1..], b[1..]))
  }

  /** The greedy choice fits, and no choice that fits prefers newer units. */
  lemma {:induction false} GreedyIsOptimal(costs: seq<nat>, budget: nat, other: seq<bool>)
    requires |other| == |costs|
    ensures KeptCost(costs, Greedy(costs, budget)) <= budget
    ensures KeptCost(costs, other) <= budget ==> LexAtMost(other, Greedy(costs, budget))
  {
    if costs != [] {
      var left := if costs[0] <= budget then budget - costs[0] else budget;
      GreedyIsOptimal(costs[1..], left, other[1..]);
    }
  }

  /** The units whose flag is set, in order. */
  function Chosen(units: seq<Unit>, keep: seq<bool>): seq<Unit>
    requires |units| == |keep|
  {
    if units == [] then []
    else (if keep[0] then [units[0]] else []) + Chosen(units[1..], keep[1..])
  }

  /** Dropping whole units leaves a normal form. */
  lemma {:induction false} ChosenNormal(ms: seq<Message>, i: nat, seen: set<string>, keep: seq<bool>)
    requires i <= |ms| && |keep| == |UnitsFrom(ms, i, seen)|
    ensures var r := UnitMessages(Chosen(UnitsFrom(ms, i, seen), keep));
            IsNormal(r) && Elements(AllCallIds(r)) !! seen
    decreases |ms| - i
  {
    hide Treat, SeenAfter, WellPlaced;
    if i < |ms| {
      var e := UnitEnd(ms, i);
      var row := ms[i..e];
      var head := Treat(row, i, seen);
      var after := SeenAfter(row, i, seen);
      var restUnits := UnitsFrom(ms, e, after);
      var rest := UnitMessages(Chosen(restUnits, keep[1..]));
      UnitRowAt(ms, i);
      TreatNormal(row, i, seen);
      ChosenNormal(ms, e, after, keep[1..]);
      var units := UnitsFrom(ms, i, seen);
      assert units[1..] == restUnits;
      if keep[0] {
        if rest != [] {
          NormalFormHead(rest);
        }
        NormalFormConcat(head, rest);
        AllCallIdsConcat(head, rest);
        ElementsConcat(AllCallIds(head), AllCallIds(rest));
        UnitMessagesCons(units[0], Chosen(restUnits, keep[1..]));
      } else {
        assert Chosen(units, keep) == Chosen(restUnits, keep[1..]);
      }
    }
  }

  /** The messages kept cost at most what their units were charged. */
  lemma {:induction false} ChosenWithinCost(units: seq<Unit>, i: nat, rows: seq<StoredMessage>, keep: seq<bool>)
    requires Covers(units, i, |rows|) && |keep| == |units|
    ensures TotalTokens(UnitMessages(Chosen(units, keep))) <= KeptCost(UnitCosts(units, rows), keep)
  {
    if units != [] {
      hide PairedCost, TotalTokens, StoredTotal;
      CoversLength(units, i, |rows|);
      CoversLength(units[1..], units[0].end, |rows|);
      ChosenWithinCost(units[1..], units[0].end, rows, keep[1..]);
      assert UnitCosts(units, rows)[1..] == UnitCosts(units[1..], rows);
      var rest := Chosen(units[1..], keep[1..]);
      if keep[0] {
        UnitMessagesCons(units[0], rest);
        TotalTokensConcat(units[0].messages, UnitMessages(rest));
        PairedCostBounds(units[0].messages, rows[units[0].start..units[0].end]);
      } else {
        assert Chosen(units, keep) == rest;
      }
    }
  }

  lemma {:induction false} KeptCostConcat(a: seq<nat>, ka: seq<bool>, b: seq<nat>, kb: seq<bool>)
    requires |a| == |ka| && |b| == |kb|
    ensures KeptCost(a + b, ka + kb) == KeptCost(a, ka) + KeptCost(b, kb)
  {
    if a == [] {
      assert a + b == b && ka + kb == kb;
    } else {
      assert (a + b)[1..] == a[1..] + b && (ka + kb)[1..] == ka[1..] + kb;
      KeptCostConcat(a[1..], ka[1..], b, kb);
    }
  }

  lemma {:induction false} KeptCostReversed(costs: seq<nat>, keep: seq<bool>)
    requires |costs| == |keep|
    ensures KeptCost(Reverse(costs), Reverse(keep)) == KeptCost(costs, keep)
  {
    if costs != [] {
      KeptCostReversed(costs[1..], keep[1..]);
      assert Reverse(costs) == Reverse(costs[1..]) + [costs[0]];
      assert Reverse(keep) == Reverse(keep[1..]) + [keep[0]];
      KeptCostConcat(Reverse(costs[1..]), Reverse(keep[1..]), [costs[0]], [keep[0]]);
    }
  }

  /** Inclusion flags of the units in chronological order: greedy from the newest. */
  function KeepFlags(units: seq<Unit>, rows: seq<StoredMessage>, budget: nat): (keep: seq<bool>)
    ensures |keep| == |units|
  {
    Reverse(Greedy(Reverse(UnitCosts(units, rows)), budget))
  }

  function SelectedHistory(rows: seq<StoredMessage>, ms: seq<Message>, budget: nat): seq<Message> {
    var units := HistoryUnits(ms);
    UnitMessages(Chosen(units, KeepFlags(units, rows, budget)))
  }

  /** The loop of `bound_messages`, over rows listed newest first. */
  method BoundMessages(listed: seq<StoredMessage>, budget: nat) returns (retained: Option<seq<Message>>)
    ensures retained.None? <==> DecodeAll(Reverse(listed)).None?
    ensures retained.Some? ==>
              retained.value == SelectedHistory(Reverse(listed), DecodeAll(Reverse(listed)).value, budget)
  {
    var chronological := Reverse(listed);
    var decoded := DecodeAll(chronological);
    if decoded.None? {
      return None;
    }
    var units := HistoryUnits(decoded.value);
    var kept := SelectUnits(units, chronological, budget);
    retained := Some(kept);
  }

  method SelectUnits(units: seq<Unit>, rows: seq<StoredMessage>, budget: nat) returns (kept: seq<Message>)
    ensures kept == UnitMessages(Chosen(units, KeepFlags(units, rows, budget)))
  {
    hide UnitCost, Chosen, UnitMessages, Greedy;
    var n := |units|;
    ghost var costs := Reverse(UnitCosts(units, rows));
    ghost var keep := Greedy(costs, budget);
    kept := [];
    var tokens := 0;
    assert units[n..] == [] && keep[..0] == [] && costs[0..] == costs && keep[0..] == keep;
    NothingChosen();
    for k := 0 to n
      invariant tokens <= budget
      invariant Greedy(costs[k..], budget - tokens) == keep[k..]
      invariant kept == UnitMessages(Chosen(units[n - k..], Reverse(keep[..k])))
    {
      var unit := units[n - 1 - k];
      var cost := UnitCost(unit, rows);
      GreedyStep(costs, keep, k, budget - tokens);
      ChosenStep(units, keep, k);
      if tokens + cost <= budget {
        tokens := tokens + cost;
        kept := unit.messages + kept;
      }
    }
    assert units[n - n..] == units && keep[..n] == keep;
  }

  lemma {:induction false} NothingChosen()
    ensures UnitMessages(Chosen([], [])) == []
  {
  }

  lemma {:induction false} GreedyStep(costs: seq<nat>, keep: seq<bool>, k: nat, left: nat)
    requires k < |costs| == |keep| && Greedy(costs[k..], left) == keep[k..]
    ensures keep[k] <==> costs[k] <= left
    ensures Greedy(costs[k + 1..], if keep[k] then left - costs[k] else left) == keep[k + 1..]
  {
    assert costs[k..][1..] == costs[k + 1..] && keep[k..][1..] == keep[k + 1..];
  }

  /** One more unit, seen from the newest end. */
  lemma {:induction false} ChosenStep(units: seq<Unit>, keep: seq<bool>, k: nat)
    requires k < |units| == |keep|
    ensures var n := |units|;
            UnitMessages(Chosen(units[n - 1 - k..], Reverse(keep[..k + 1])))
            == (if keep[k] then units[n - 1 - k].messages else [])
               + UnitMessages(Chosen(units[n - k..], Reverse(keep[..k])))
  {
    var n := |units|;
    var unit := units[n - 1 - k];
    var rest := Chosen(units[n - k..], Reverse(keep[..k]));
    assert units[n - 1 - k..] == [unit] + units[n - k..];
    assert Reverse(keep[..k + 1]) == [keep[k]] + Reverse(keep[..k]);
    ChosenCons(unit, units[n - k..], keep[k], Reverse(keep[..k]));
    UnitMessagesCons(unit, rest);
  }

  lemma {:induction false} ChosenCons(unit: Unit, units: seq<Unit>, first: bool, keep: seq<bool>)
    requires |units| == |keep|
    ensures Chosen([unit] + units, [first] + keep)
         == if first then [unit] + Chosen(units, keep) else Chosen(units, keep)
  {
    assert ([unit] + units)[1..] == units && ([first] + keep)[1..] == keep;
  }

  /** What selection promises: whole units in order, within budget, in normal form. */
  lemma {:induction false} SelectionFits(rows: seq<StoredMessage>, ms: seq<Message>, budget: nat)
    requires |ms| == |rows|
    ensures var units := HistoryUnits(ms);
            var r := UnitMessages(Chosen(units, KeepFlags(units, rows, budget)));
            IsNormal(r) && TotalTokens(r) <= budget
  {
    var units := HistoryUnits(ms);
    var keep := KeepFlags(units, rows, budget);
    var costs := UnitCosts(units, rows);
    UnitsCover(ms, 0, {});
    ChosenNormal(ms, 0, {}, keep);
    ChosenWithinCost(units, 0, rows, keep);
    GreedyIsOptimal(Reverse(costs), budget, Greedy(Reverse(costs), budget));
    KeptCostReversed(costs, keep);
    ReverseTwice(Greedy(Reverse(costs), budget));
  }

  /** Among all choices of units within budget, the one made is the greatest when compared from the newest unit on. */
  lemma {:induction false} SelectionPrefersNewest(units: seq<Unit>, rows: seq<StoredMessage>, budget: nat,
                                                  other: seq<bool>)
    requires |other| == |units| && KeptCost(UnitCosts(units, rows), other) <= budget
    ensures KeptCost(UnitCosts(units, rows), KeepFlags(units, rows, budget)) <= budget
    ensures LexAtMost(Reverse(other), Reverse(KeepFlags(units, rows, budget)))
  {
    hide UnitCosts, Greedy, LexAtMost, KeptCost;
    var costs := UnitCosts(units, rows);
    var greedy := Greedy(Reverse(costs), budget);
    KeptCostReversed(costs, other);
    KeptCostReversed(costs, Reverse(greedy));
    ReverseTwice(greedy);
    GreedyIsOptimal(Reverse(costs), budget, Reverse(other));
  }

  // ---------- which rows are kept ----------

  function Range(from: nat, end: nat): (r: seq<nat>)
    requires from <= end
    ensures |r| == end - from
  {
    seq(end - from, i requires 0 <= i < end - from => from + i)
  }

  /** The rows of the units whose flag is set. */
  function KeptRows(units: seq<Unit>, keep: seq<bool>): seq<nat>
    requires |units| == |keep|
  {
    if units == [] then []
    else
      (if keep[0] && units[0].start <= units[0].end then Range(units[0].start, units[0].end) else [])
      + KeptRows(units[1..], keep[1..])
  }

  predicate Increasing(kept: seq<nat>) {
    forall i, j :: 0 <= i < j < |kept| ==> kept[i] < kept[j]
  }

  /** Rows in order, and of each unit all or none. */
  predicate WholeUnits(ms: seq<Message>, kept: seq<nat>) {
    && Increasing(kept) && (forall i :: 0 <= i < |kept| ==> kept[i] < |ms|)
    && forall k :: 0 < k < |ms| && !IsCut(ms, k) ==> (k in kept <==> k - 1 in kept)
  }

  lemma {:induction false} KeptInOrder(units: seq<Unit>, i: nat, n: nat, keep: seq<bool>)
    requires Covers(units, i, n) && |keep| == |units|
    ensures Increasing(KeptRows(units, keep))
    ensures forall k :: k in KeptRows(units, keep) ==> i <= k < n
  {
    if units != [] {
      CoversLength(units[1..], units[0].end, n);
      KeptInOrder(units[1..], units[0].end, n, keep[1..]);
      var rest := KeptRows(units[1..], keep[1..]);
      IncreasingConcat(if keep[0] then Range(i, units[0].end) else [], rest, units[0].end);
    }
  }

  lemma {:induction false} IncreasingConcat(a: seq<nat>, b: seq<nat>, e: nat)
    requires Increasing(a) && Increasing(b) && (forall k :: k in a ==> k < e) && (forall k :: k in b ==> e <= k)
    ensures Increasing(a + b)
  {
    forall i, j | 0 <= i < j < |a + b| ensures (a + b)[i] < (a + b)[j] {
      if i < |a| <= j {
        assert a[i] in a && b[j - |a|] in b;
      }
    }
  }

  lemma {:induction false} KeptMessages(units: seq<Unit>, i: nat, n: nat, keep: seq<bool>)
    requires Covers(units, i, n) && |keep| == |units|
    ensures TakenAt(UnitMessages(units), KeptRows(units, keep), UnitMessages(Chosen(units, keep)), i, n)
  {
    if units != [] {
      var e := units[0].end;
      CoversLength(units, i, n);
      CoversLength(units[1..], e, n);
      KeptMessages(units[1..], e, n, keep[1..]);
      hide Covers, Chosen, KeptRows, UnitMessages, Range;
      KeptStep(units, keep);
      KeptMore(units[0].messages, UnitMessages(units[1..]), KeptRows(units[1..], keep[1..]),
               UnitMessages(Chosen(units[1..], keep[1..])), keep[0], i, e, n);
    }
  }

  /** The messages `some` of `all` are those at the places `kept`, counted from `i`. */
  predicate TakenAt(all: seq<Message>, kept: seq<nat>, some: seq<Message>, i: nat, n: nat) {
    && i <= n && |all| == n - i && |kept| == |some|
    && forall j :: 0 <= j < |kept| ==> i <= kept[j] < n && some[j] == all[kept[j] - i]
  }

  lemma {:induction false} KeptMore(head: seq<Message>, all: seq<Message>, kept: seq<nat>, some: seq<Message>,
                                    taken: bool, i: nat, e: nat, n: nat)
    requires i <= e && |head| == e - i && TakenAt(all, kept, some, e, n)
    ensures TakenAt(head + all, (if taken then Range(i, e) else []) + kept, (if taken then head else []) + some, i, n)
  {
    var more, longer := (if taken then Range(i, e) else []) + kept, (if taken then head else []) + some;
    var before := if taken then e - i else 0;
    forall j | 0 <= j < |more| ensures i <= more[j] < n && longer[j] == (head + all)[more[j] - i] {
      if j >= before {
        assert more[j] == kept[j - before] && longer[j] == some[j - before];
      }
    }
  }

  lemma {:induction false} KeptStep(units: seq<Unit>, keep: seq<bool>)
    requires units != [] && |keep| == |units| && units[0].start <= units[0].end
    ensures KeptRows(units, keep)
         == (if keep[0] then Range(units[0].start, units[0].end) else []) + KeptRows(units[1..], keep[1..])
    ensures UnitMessages(Chosen(units, keep))
         == (if keep[0] then units[0].messages else []) + UnitMessages(Chosen(units[1..], keep[1..]))
    ensures UnitMessages(units) == units[0].messages + UnitMessages(units[1..])
  {
    assert units == [units[0]] + units[1..] && keep == [keep[0]] + keep[1..];
    ChosenCons(units[0], units[1..], keep[0], keep[1..]);
    UnitMessagesCons(units[0], Chosen(units[1..], keep[1..]));
    hide Chosen, UnitMessages;
  }

  lemma {:induction false} KeptTogether(units: seq<Unit>, i: nat, n: nat, keep: seq<bool>, k: nat)
    requires Covers(units, i, n) && |keep| == |units| && i < k < n && !EndsAt(units, k)
    ensures k in KeptRows(units, keep) <==> k - 1 in KeptRows(units, keep)
  {
    var e := units[0].end;
    var rest := KeptRows(units[1..], keep[1..]);
    CoversLength(units[1..], e, n);
    KeptInOrder(units[1..], e, n, keep[1..]);
    assert units[0].end != k;
    if k > e {
      forall u | 0 <= u < |units[1..]| ensures units[1..][u].end != k {
        assert units[u + 1].end != k;
      }
      KeptTogether(units[1..], e, n, keep[1..], k);
      assert k !in Range(i, e) && k - 1 !in Range(i, e);
    } else {
      assert Range(i, e)[k - i] == k && Range(i, e)[k - 1 - i] == k - 1;
      assert k !in rest && k - 1 !in rest;
    }
  }

  /** No choice of units within the budget is greater, when compared from the newest unit on. */
  predicate NoBetterChoice(costs: seq<nat>, budget: nat, keep: seq<bool>, other: seq<bool>)
    requires |costs| == |keep|
  {
    |other| == |costs| && KeptCost(costs, other) <= budget ==> LexAtMost(Reverse(other), Reverse(keep))
  }

  ghost predicate BestChoice(costs: seq<nat>, budget: nat, keep: seq<bool>)
    requires |costs| == |keep|
  {
    KeptCost(costs, keep) <= budget && forall other :: NoBetterChoice(costs, budget, keep, other)
  }

  lemma {:induction false} SelectionIsBest(units: seq<Unit>, rows: seq<StoredMessage>, budget: nat)
    ensures BestChoice(UnitCosts(units, rows), budget, KeepFlags(units, rows, budget))
  {
    hide UnitCosts, KeepFlags, LexAtMost, KeptCost;
    var costs, keep := UnitCosts(units, rows), KeepFlags(units, rows, budget);
    forall other ensures NoBetterChoice(costs, budget, keep, other) {
      if |other| == |costs| && KeptCost(costs, other) <= budget {
        SelectionPrefersNewest(units, rows, budget, other);
      }
    }
    SelectionWithinBudget(units, rows, budget);
  }

  lemma {:induction false} SelectionWithinBudget(units: seq<Unit>, rows: seq<StoredMessage>, budget: nat)
    ensures KeptCost(UnitCosts(units, rows), KeepFlags(units, rows, budget)) <= budget
  {
    hide UnitCosts, KeptCost, Greedy;
    var costs := UnitCosts(units, rows);
    var greedy := Greedy(Reverse(costs), budget);
    GreedyIsOptimal(Reverse(costs), budget, greedy);
    KeptCostReversed(costs, Reverse(greedy));
    ReverseTwice(greedy);
  }

  /** The history is some of the normalised messages, in order and unit by unit, for the best choice of units. */
  ghost predicate Selects(rows: seq<StoredMessage>, ms: seq<Message>, budget: nat, keep: seq<bool>,
                          history: seq<Message>)
    requires |keep| == |HistoryUnits(ms)|
  {
    var units := HistoryUnits(ms);
    var kept := KeptRows(units, keep);
    && BestChoice(UnitCosts(units, rows), budget, keep)
    && WholeUnits(ms, kept) && |history| == |kept|
    && forall j :: 0 <= j < |kept| ==> kept[j] < |ms| && Becomes(ms, kept[j], history[j])
  }

  lemma {:induction false} SelectionIsWholeUnits(rows: seq<StoredMessage>, ms: seq<Message>, budget: nat)
    ensures Selects(rows, ms, budget, KeepFlags(HistoryUnits(ms), rows, budget), SelectedHistory(rows, ms, budget))
  {
    hide Chosen, UnitMessages, KeptRows, UnitsFrom, Becomes, EndsAt, KeepFlags, BestChoice, UnitCosts;
    var units := HistoryUnits(ms);
    var keep := KeepFlags(units, rows, budget);
    var kept := KeptRows(units, keep);
    UnitsCover(ms, 0, {});
    SelectionIsBest(units, rows, budget);
    KeptInOrder(units, 0, |ms|, keep);
    KeptMessages(units, 0, |ms|, keep);
    forall k | 0 < k < |ms| && !IsCut(ms, k) ensures k in kept <==> k - 1 in kept {
      CutsAreUnitEnds(ms, 0, {}, k);
      KeptTogether(units, 0, |ms|, keep, k);
    }
    forall j | 0 <= j < |kept| ensures kept[j] < |ms| && Becomes(ms, kept[j], SelectedHistory(rows, ms, budget)[j]) {
      assert kept[j] in kept;
      NormalizeTells(ms, kept[j]);
    }
  }

  // ---------- assembly ----------

  datatype Assembly = Assembled(messages: seq<Message>) | OverBudget | Undecodable

  function FixedMessages(personality: string, summary: Option<StoredSummary>): seq<Message> {
    (if personality == "" then [] else [Message(System, [TextPart(personality)])])
    + (if summary.None? then []
       else [Message(System, [TextPart("Conversation Working Summary (covers older context):\n"
                                       + summary.value.text)])])
  }

  lemma {:induction false} FixedMessagesPlain(personality: string, summary: Option<StoredSummary>)
    ensures var fixed := FixedMessages(personality, summary);
            IsNormal(fixed) && AllCallIds(fixed) == []
  {
    var fixed := FixedMessages(personality, summary);
    assert forall i :: 0 <= i < |fixed| ==> fixed[i].role == System && !HasProtocol(fixed[i].parts);
    PlainNormal(fixed);
  }

  /**
   The personality first, then the summary as a system message, then of the rows the
   best choice of whole units, each message as normalising leaves it, and last the
   current one.
   */
  ghost predicate Assembles(messages: seq<Message>, personality: string, summary: Option<StoredSummary>,
                            rows: seq<StoredMessage>, ms: seq<Message>, remaining: nat, current: Message)
  {
    exists keep: seq<bool> ::
      && |keep| == |HistoryUnits(ms)|
      && AssembledFrom(messages, personality, summary, rows, ms, remaining, keep, current)
  }

  ghost predicate AssembledFrom(messages: seq<Message>, personality: string, summary: Option<StoredSummary>,
                                rows: seq<StoredMessage>, ms: seq<Message>, remaining: nat, keep: seq<bool>,
                                current: Message)
    requires |keep| == |HistoryUnits(ms)|
  {
    var first := if personality == "" then 0 else 1;
    var from := if summary.None? then first else first + 1;
    && |messages| > from
    && (first == 1 ==> messages[0] == Message(System, [TextPart(personality)]))
    && (summary.Some? ==> Says(messages[first], System, summary.value.text))
    && Selects(rows, ms, remaining, keep, messages[from..|messages| - 1])
    && messages[|messages| - 1] == current
  }

  predicate Says(m: Message, role: Role, text: string) {
    m.role == role && |m.parts| == 1 && m.parts[0].TextPart? && Contains(m.parts[0].text, text)
  }

  lemma {:induction false} FixedMessagesSay(personality: string, summary: Option<StoredSummary>)
    ensures var fixed := FixedMessages(personality, summary);
            var first := if personality == "" then 0 else 1;
            && |fixed| == (if summary.None? then first else first + 1)
            && (first == 1 ==> fixed[0] == Message(System, [TextPart(personality)]))
            && (summary.Some? ==> Says(fixed[first], System, summary.value.text))
  {
    if summary.Some? {
      ContainsLonger("Conversation Working Summary (covers older context):\n", summary.value.text, "");
      hide Contains;
    }
  }

  lemma {:induction false} AssemblyHolds(personality: string, summary: Option<StoredSummary>,
                                         rows: seq<StoredMessage>, ms: seq<Message>, remaining: nat, current: Message)
    ensures Assembles(FixedMessages(personality, summary) + SelectedHistory(rows, ms, remaining) + [current],
                      personality, summary, rows, ms, remaining, current)
  {
    hide Selects, SelectedHistory, FixedMessages, Says, UnitsFrom, KeepFlags;
    var fixed, history := FixedMessages(personality, summary), SelectedHistory(rows, ms, remaining);
    var keep := KeepFlags(HistoryUnits(ms), rows, remaining);
    SelectionIsWholeUnits(rows, ms, remaining);
    FixedMessagesSay(personality, summary);
    ThreeParts(fixed, history, current);
    assert AssembledFrom(fixed + history + [current], personality, summary, rows, ms, remaining, keep, current);
  }

  lemma {:induction false} ThreeParts<T>(a: seq<T>, b: seq<T>, last: T)
    ensures var all := a + b + [last];
            && |all| == |a| + |b| + 1 && all[|all| - 1] == last
            && all[|a|..|all| - 1] == b
            && forall i :: 0 <= i < |a| ==> all[i] == a[i]
  {
  }

  /**
   A successful assembly is the fixed messages, a selection of whole units in
   order, and the current message; together they fit the usable budget, and
   normalising them, as the agent loop does, changes nothing.
   */
  method AssembleMessages(listed: seq<StoredMessage>, summary: Option<StoredSummary>, personality: string,
                          current: Message, budget: Budget)
    returns (assembly: Assembly)
    requires budget.reservedOutput + budget.reservedToolLoop <= budget.window
    ensures assembly.OverBudget?
       <==> TotalTokens(FixedMessages(personality, summary) + [current]) > Usable(budget)
    ensures assembly.Undecodable?
       <==> !assembly.OverBudget? && DecodeAll(Reverse(AfterBoundary(listed, summary))).None?
    ensures assembly.Assembled? ==>
              var rows := Reverse(AfterBoundary(listed, summary));
              var fixed := FixedMessages(personality, summary);
              var remaining := Usable(budget) - TotalTokens(fixed + [current]);
              && remaining >= 0
              && assembly.messages == fixed + SelectedHistory(rows, DecodeAll(rows).value, remaining) + [current]
    ensures assembly.Assembled? ==>
              var rows := Reverse(AfterBoundary(listed, summary));
              var remaining := Usable(budget) - TotalTokens(FixedMessages(personality, summary) + [current]);
              && DecodeAll(rows).Some? && remaining >= 0
              && Assembles(assembly.messages, personality, summary, rows, DecodeAll(rows).value, remaining, current)
    ensures assembly.Assembled? ==>
              && TotalTokens(assembly.messages) + budget.reservedOutput + budget.reservedToolLoop <= budget.window
              && ByteLen(SaidByAll(assembly.messages)) <= 4 * Usable(budget) + 3 * |assembly.messages|
    ensures assembly.Assembled? && current.role != Tool && !HasProtocol(current.parts) ==>
              NormalizeHistory(assembly.messages) == assembly.messages
  {
    hide FixedMessages, AfterBoundary, DecodeAll, NormalizeHistory, EstimateTokens, TotalTokens, SelectedHistory,
      Assembles, SaidByAll;
    var fixed := FixedMessages(personality, summary);
    var fixedTokens := TotalTokens(fixed) + EstimateTokens(current);
    TotalTokensAppend(fixed, current);
    if fixedTokens > Usable(budget) {
      return OverBudget;
    }
    var remaining := Usable(budget) - fixedTokens;
    var recent := AfterBoundary(listed, summary);
    var retained := BoundMessages(recent, remaining);
    if retained.None? {
      return Undecodable;
    }
    var messages := fixed + retained.value;
    messages := messages + [current];
    assembly := Assembled(messages);
    FixedMessagesPlain(personality, summary);
    AssemblyFits(fixed, Reverse(recent), DecodeAll(Reverse(recent)).value, remaining, current);
    AssemblyHolds(personality, summary, Reverse(recent), DecodeAll(Reverse(recent)).value, remaining, current);
    TokensMeasureBytes(messages);
  }

  lemma {:induction false} AssemblyFits(fixed: seq<Message>, rows: seq<StoredMessage>, ms: seq<Message>,
                                        remaining: nat, current: Message)
    requires IsNormal(fixed) && AllCallIds(fixed) == [] && |ms| == |rows|
    ensures var all := fixed + SelectedHistory(rows, ms, remaining) + [current];
            && TotalTokens(all) <= TotalTokens(fixed + [current]) + remaining
            && (current.role != Tool && !HasProtocol(current.parts) ==> NormalizeHistory(all) == all)
  {
    hide IsNormal, AllCallIds, NormalizeHistory, UnitMessages, Chosen, KeepFlags;
    var retained := SelectedHistory(rows, ms, remaining);
    SelectionFits(rows, ms, remaining);
    TotalTokensConcat(fixed + retained, [current]);
    TotalTokensConcat(fixed, retained);
    TotalTokensConcat(fixed, [current]);
    if current.role != Tool && !HasProtocol(current.parts) {
      AroundHistoryNormal(fixed, retained, current);
      NormalFormIsFixedPoint(fixed + retained + [current]);
    }
  }

  lemma {:induction false} AroundHistoryNormal(fixed: seq<Message>, retained: seq<Message>, current: Message)
    requires IsNormal(fixed) && AllCallIds(fixed) == []
    requires IsNormal(retained) && current.role != Tool && !HasProtocol(current.parts)
    ensures IsNormal(fixed + retained + [current])
  {
    PlainNormal([current]);
    if retained != [] {
      NormalFormHead(retained);
    }
    NormalFormConcat(fixed, retained);
    NormalFormConcat(fixed + retained, [current]);
  }
}
