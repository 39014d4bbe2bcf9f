/**
 The normal form of replayed history, stated without the scan, and the proof
 that normalising produces it and changes nothing that already has it.
 */
module NormalForm {
  import opened Text
  import opened Messages
  import opened History
  import opened Renames

  function AllCallIds(ms: seq<Message>): seq<string> {
    if ms == [] then [] else CallIds(ToolCalls(ms[0].parts)) + AllCallIds(ms[1..])
  }

  /**
   A tool message directly follows its batch; a batch is answered exactly by the
   tool messages after it; every other message is free of tool protocol.
   */
  predicate WellPlaced(ms: seq<Message>, i: nat)
    requires i < |ms|
  {
    if ms[i].role == Tool then i > 0 && (ms[i - 1].role == Tool || Opens(ms[i - 1]))
    else if Opens(ms[i]) then ValidExchange(ms[i..RunEnd(ms, i + 1)])
    else !HasProtocol(ms[i].parts)
  }

  predicate AllPlaced(ms: seq<Message>) {
    forall i :: 0 <= i < |ms| ==> WellPlaced(ms, i)
  }

  ghost predicate IsNormal(ms: seq<Message>) {
    AllPlaced(ms) && Distinct(AllCallIds(ms))
  }

  // ---------- concatenation ----------

  lemma {:induction false} RunEndLeft(a: seq<Message>, b: seq<Message>, i: nat)
    requires i <= |a| && (b == [] || b[0].role != Tool)
    ensures RunEnd(a + b, i) == RunEnd(a, i)
    decreases |a| - i
  {
    if i < |a| && a[i].role == Tool {
      RunEndLeft(a, b, i + 1);
    }
  }

  lemma {:induction false} RunEndRight(a: seq<Message>, b: seq<Message>, i: nat)
    requires i <= |b|
    ensures RunEnd(a + b, |a| + i) == |a| + RunEnd(b, i)
    decreases |b| - i
  {
    if i < |b| && b[i].role == Tool {
      RunEndRight(a, b, i + 1);
    }
  }

  lemma {:induction false} WellPlacedLeft(a: seq<Message>, b: seq<Message>, i: nat)
    requires i < |a| && (b == [] || b[0].role != Tool)
    ensures WellPlaced(a + b, i) <==> WellPlaced(a, i)
  {
    hide ValidExchange, HasProtocol, ToolCalls;
    RunEndLeft(a, b, i + 1);
    assert (a + b)[i..RunEnd(a, i + 1)] == a[i..RunEnd(a, i + 1)];
  }

  lemma {:induction false} WellPlacedRight(a: seq<Message>, b: seq<Message>, i: nat)
    requires i < |b| && b[0].role != Tool
    ensures WellPlaced(a + b, |a| + i) <==> WellPlaced(b, i)
  {
    hide ValidExchange, HasProtocol, ToolCalls;
    RunEndRight(a, b, i + 1);
    assert (a + b)[|a| + i..|a| + RunEnd(b, i + 1)] == b[i..RunEnd(b, i + 1)];
  }

  lemma {:induction false} AllCallIdsConcat(a: seq<Message>, b: seq<Message>)
    ensures AllCallIds(a + b) == AllCallIds(a) + AllCallIds(b)
  {
    if a == [] {
      assert a + b == b;
    } else {
      ConcatHead(a, b);
      AllCallIdsConcat(a[1..], b);
      ConcatAssociates(CallIds(ToolCalls(a[0].parts)), AllCallIds(a[1..]), AllCallIds(b));
    }
  }

  lemma {:induction false} AllPlacedConcat(a: seq<Message>, b: seq<Message>)
    requires b == [] || b[0].role != Tool
    ensures AllPlaced(a + b) <==> AllPlaced(a) && AllPlaced(b)
  {
    hide WellPlaced;
    if AllPlaced(a + b) {
      forall i | 0 <= i < |a| ensures WellPlaced(a, i) {
        WellPlacedLeft(a, b, i);
      }
      forall i | 0 <= i < |b| ensures WellPlaced(b, i) {
        WellPlacedRight(a, b, i);
        assert WellPlaced(a + b, |a| + i);
      }
    }
    if AllPlaced(a) && AllPlaced(b) {
      forall i | 0 <= i < |a + b| ensures WellPlaced(a + b, i) {
        if i < |a| {
          WellPlacedLeft(a, b, i);
        } else {
          WellPlacedRight(a, b, i - |a|);
        }
      }
    }
  }

  /** Cut anywhere but before a tool message: both halves, and no shared ids. */
  lemma {:induction false} NormalFormConcat(a: seq<Message>, b: seq<Message>)
    requires b == [] || b[0].role != Tool
    ensures IsNormal(a + b)
       <==> IsNormal(a) && IsNormal(b) && Elements(AllCallIds(a)) !! Elements(AllCallIds(b))
  {
    hide AllPlaced, Distinct, Elements, AllCallIds;
    AllPlacedConcat(a, b);
    AllCallIdsConcat(a, b);
    DistinctConcat(AllCallIds(a), AllCallIds(b));
  }

  lemma {:induction false} NormalFormHead(ms: seq<Message>)
    requires IsNormal(ms) && ms != []
    ensures ms[0].role != Tool
  {
    assert WellPlaced(ms, 0);
  }

  // ---------- one unit ----------

  lemma {:induction false} PlainCallIds(ms: seq<Message>)
    requires forall i :: 0 <= i < |ms| ==> !HasProtocol(ms[i].parts)
    ensures AllCallIds(ms) == []
  {
    if ms != [] {
      NoCalls(ms[0].parts);
      PlainCallIds(ms[1..]);
    }
  }

  lemma {:induction false} NoCalls(parts: seq<Part>)
    requires !HasProtocol(parts)
    ensures ToolCalls(parts) == []
  {
    if parts != [] {
      assert parts[0] in parts;
      assert forall p :: p in parts[1..] ==> p in parts;
      NoCalls(parts[1..]);
    }
  }

  /** Ordinary messages without protocol are in normal form. */
  lemma {:induction false} PlainNormal(ms: seq<Message>)
    requires forall i :: 0 <= i < |ms| ==> ms[i].role != Tool && !HasProtocol(ms[i].parts)
    ensures IsNormal(ms) && AllCallIds(ms) == []
  {
    PlainCallIds(ms);
    forall i | 0 <= i < |ms| ensures WellPlaced(ms, i) {
      NoCalls(ms[i].parts);
    }
  }

  /** A row of messages whose tool messages all follow the first one. */
  predicate UnitRow(row: seq<Message>) {
    && row != []
    && (!Opens(row[0]) ==> |row| == 1)
    && forall k :: 1 <= k < |row| ==> row[k].role == Tool
  }

  lemma {:induction false} ToolRunHasOnlyOutputs(outputs: seq<Message>)
    requires forall p :: p in AllParts(outputs) ==> p.ResponsePart?
    ensures AllCallIds(outputs) == []
  {
    if outputs != [] {
      var parts := outputs[0].parts;
      assert forall p :: p in parts ==> p in AllParts(outputs);
      OnlyOutputsNoCalls(parts);
      assert forall p :: p in AllParts(outputs[1..]) ==> p in AllParts(outputs);
      ToolRunHasOnlyOutputs(outputs[1..]);
    }
  }

  lemma {:induction false} OnlyOutputsNoCalls(parts: seq<Part>)
    requires forall p :: p in parts ==> p.ResponsePart?
    ensures ToolCalls(parts) == []
  {
    if parts != [] {
      assert parts[0] in parts;
      OnlyOutputsNoCalls(parts[1..]);
    }
  }

  lemma {:induction false} RunEndOfUnit(row: seq<Message>, i: nat)
    requires UnitRow(row) && 1 <= i <= |row|
    ensures RunEnd(row, i) == |row|
  {
    assert RunEnd(row, i) >= 1;
  }

  /** A complete exchange standing alone is in normal form. */
  lemma {:induction false} ExchangeNormal(row: seq<Message>)
    requires UnitRow(row) && Opens(row[0]) && ValidExchange(row)
    ensures IsNormal(row) && AllCallIds(row) == BatchIds(row)
  {
    ToolRunHasOnlyOutputs(row[1..]);
    assert AllCallIds(row) == BatchIds(row);
    forall i | 0 <= i < |row| ensures WellPlaced(row, i) {
      if i == 0 {
        RunEndOfUnit(row, 1);
        assert row[0..|row|] == row;
      } else {
        assert row[i].role == Tool;
      }
    }
  }

  /** Whatever a unit was, what replaces it is in normal form with fresh ids. */
  lemma {:induction false} TreatNormal(row: seq<Message>, start: nat, seen: set<string>)
    requires UnitRow(row)
    ensures var r := Treat(row, start, seen);
            && IsNormal(r)
            && Elements(AllCallIds(r)) !! seen
            && SeenAfter(row, start, seen) == seen + Elements(AllCallIds(r))
  {
    if Opens(row[0]) && ValidExchange(row) {
      KeptExchangeNormal(row, start, seen);
    } else {
      TextIsPlain(row, start, seen);
      PlainNormal(Treat(row, start, seen));
    }
  }

  lemma {:induction false} KeptExchangeNormal(row: seq<Message>, start: nat, seen: set<string>)
    requires UnitRow(row) && Opens(row[0]) && ValidExchange(row)
    ensures var r := Treat(row, start, seen);
            && IsNormal(r)
            && Elements(AllCallIds(r)) !! seen
            && SeenAfter(row, start, seen) == seen + Elements(AllCallIds(r))
  {
    hide ValidExchange, IsNormal, ClaimedIds, Renamed, AllCallIds;
    var r := Treat(row, start, seen);
    RewriteKeepsExchange(row, start, seen);
    ExchangeNormal(r);
    NoEmptyId(row);
    ClaimedIdsAreFresh(ToolCalls(row[0].parts), start, 0, seen);
  }

  lemma {:induction false} NoEmptyId(row: seq<Message>)
    requires row != [] && ValidExchange(row)
    ensures "" !in CallIds(ToolCalls(row[0].parts))
  {
  }

  lemma {:induction false} TextIsPlain(row: seq<Message>, start: nat, seen: set<string>)
    requires UnitRow(row) && !(Opens(row[0]) && ValidExchange(row))
    ensures var r := Treat(row, start, seen);
            forall i :: 0 <= i < |r| ==> r[i].role != Tool && !HasProtocol(r[i].parts)
  {
    hide ValidExchange;
    var r := Treat(row, start, seen);
    forall i | 0 <= i < |r| ensures r[i].role != Tool && !HasProtocol(r[i].parts) {
      assert r[i] == row[i] || r[i] == HistoricalText(row[i]);
    }
  }

  lemma {:induction false} UnitRowAt(ms: seq<Message>, i: nat)
    requires i < |ms|
    ensures UnitRow(ms[i..UnitEnd(ms, i)])
  {
  }

  // ---------- the theorems ----------

  lemma {:induction false} UnitsNormal(ms: seq<Message>, i: nat, seen: set<string>)
    requires i <= |ms|
    ensures var r := UnitMessages(UnitsFrom(ms, i, seen));
            IsNormal(r) && Elements(AllCallIds(r)) !! seen
    decreases |ms| - i
  {
    hide Treat, SeenAfter, WellPlaced;
    if i < |ms| {
      var e := UnitEnd(ms, i);
      var row := ms[i..e];
      var head := Treat(row, i, seen);
      var after := SeenAfter(row, i, seen);
      var rest := UnitMessages(UnitsFrom(ms, e, after));
      UnitRowAt(ms, i);
      TreatNormal(row, i, seen);
      UnitsNormal(ms, e, after);
      if rest != [] {
        NormalFormHead(rest);
      }
      NormalFormConcat(head, rest);
      AllCallIdsConcat(head, rest);
      ElementsConcat(AllCallIds(head), AllCallIds(rest));
      UnfoldScan(ms, i, seen);
    }
  }

  /** Normalising any message list yields the normal form. */
  lemma {:induction false} NormalizeIsNormal(ms: seq<Message>)
    ensures IsNormal(NormalizeHistory(ms))
  {
    UnitsNormal(ms, 0, {});
  }

  /** Unused ids are kept, so nothing is renamed. */
  lemma {:induction false} UnusedIdsKept(calls: seq<ToolCall>, start: nat, k: nat, seen: set<string>)
    requires k <= |calls| && Distinct(CallIds(calls))
    requires forall j :: k <= j < |calls| ==> calls[j].callId !in seen
    ensures Renamed(calls, start, k, seen) == map[]
    ensures ClaimedIds(calls, start, k, seen) == CallIds(calls)[k..]
    decreases |calls| - k
  {
    if k < |calls| {
      var ids := CallIds(calls);
      forall j | k + 1 <= j < |calls| ensures calls[j].callId !in seen + {calls[k].callId} {
        assert ids[k] != ids[j];
      }
      UnusedIdsKept(calls, start, k + 1, seen + {calls[k].callId});
    }
  }

  lemma {:induction false} RewriteWithNothing(row: seq<Message>)
    ensures Rewrite(row, map[]) == row
  {
    forall i | 0 <= i < |row| ensures Rewrite(row, map[])[i] == row[i] {
      assert RewriteParts(row[i].parts, map[]) == row[i].parts;
    }
  }

  lemma {:induction false} ExchangeFixed(row: seq<Message>, start: nat, seen: set<string>)
    requires row != [] && Opens(row[0]) && ValidExchange(row) && Elements(BatchIds(row)) !! seen
    ensures Treat(row, start, seen) == row
    ensures SeenAfter(row, start, seen) == seen + Elements(BatchIds(row))
  {
    var calls := ToolCalls(row[0].parts);
    forall j | 0 <= j < |calls| ensures calls[j].callId !in seen {
      assert BatchIds(row)[j] in Elements(BatchIds(row));
    }
    UnusedIdsKept(calls, start, 0, seen);
    hide ValidExchange, Renamed, ClaimedIds, Rewrite, Elements, ToolCalls;
    assert CallIds(calls)[0..] == BatchIds(row);
    RewriteWithNothing(row);
  }

  /** A normal unit that opens an exchange is a complete one. */
  lemma {:induction false} NormalOpening(row: seq<Message>)
    requires UnitRow(row) && IsNormal(row) && Opens(row[0])
    ensures ValidExchange(row)
  {
    hide ValidExchange, AllCallIds, Distinct;
    assert WellPlaced(row, 0);
    RunEndOfUnit(row, 1);
    assert row[0..|row|] == row;
  }

  /** A unit already in normal form, with unused ids, is returned as it is. */
  lemma {:induction false} TreatFixed(row: seq<Message>, start: nat, seen: set<string>)
    requires UnitRow(row) && IsNormal(row) && Elements(AllCallIds(row)) !! seen
    ensures Treat(row, start, seen) == row
    ensures SeenAfter(row, start, seen) == seen + Elements(AllCallIds(row))
  {
    NormalFormHead(row);
    if Opens(row[0]) {
      NormalOpening(row);
      hide IsNormal, ValidExchange, Treat, SeenAfter;
      ExchangeNormal(row);
      ExchangeFixed(row, start, seen);
    } else {
      assert WellPlaced(row, 0);
      PlainNormal(row);
      hide ValidExchange, HasProtocol, IsNormal;
    }
  }

  /** A nonempty normal form splits into its first unit and a shorter normal form. */
  lemma {:induction false} SplitFirstUnit(ms: seq<Message>) returns (row: seq<Message>, rest: seq<Message>)
    requires IsNormal(ms) && ms != []
    ensures ms == row + rest && UnitRow(row) && |row| == UnitEnd(ms, 0)
    ensures IsNormal(row) && IsNormal(rest) && (rest == [] || rest[0].role != Tool)
    ensures Elements(AllCallIds(row)) !! Elements(AllCallIds(rest))
    ensures Elements(AllCallIds(ms)) == Elements(AllCallIds(row)) + Elements(AllCallIds(rest))
  {
    var n := UnitEnd(ms, 0);
    row, rest := ms[..n], ms[n..];
    UnitRowAt(ms, 0);
    assert ms == row + rest && row == ms[0..n];
    if rest != [] {
      RestAfterUnit(ms);
    }
    NormalFormConcat(row, rest);
    AllCallIdsConcat(row, rest);
    ElementsConcat(AllCallIds(row), AllCallIds(rest));
  }

  lemma {:induction false} UnitEndInWindow(ms: seq<Message>, i: nat, j: nat)
    requires i < j <= |ms| && (j == |ms| || ms[j].role != Tool)
    ensures UnitEnd(ms, i) == i + UnitEnd(ms[i..j], 0)
  {
    var front, window, back := ms[..i], ms[i..j], ms[j..];
    assert ms == front + (window + back);
    RunEndRight(front, window + back, 1);
    RunEndLeft(window, back, 1);
  }

  /** The scan passes over rows in normal form with unused ids, leaving them as they are. */
  lemma {:induction false} ScanNormal(ms: seq<Message>, i: nat, j: nat, seen: set<string>)
    requires i <= j <= |ms| && (j == |ms| || ms[j].role != Tool)
    requires IsNormal(ms[i..j]) && Elements(AllCallIds(ms[i..j])) !! seen
    ensures UnitMessages(UnitsFrom(ms, i, seen))
         == ms[i..j] + UnitMessages(UnitsFrom(ms, j, seen + Elements(AllCallIds(ms[i..j]))))
    decreases j - i
  {
    hide Treat, SeenAfter, UnitsFrom, UnitMessages, IsNormal;
    if i == j {
      assert seen + Elements(AllCallIds(ms[i..j])) == seen;
    } else {
      var e := SplitWindow(ms, i, j);
      var row, rest := ms[i..e], ms[e..j];
      var after := SeenAfter(row, i, seen);
      TreatFixed(row, i, seen);
      ScanNormal(ms, e, j, after);
      UnfoldScan(ms, i, seen);
      var tail := UnitMessages(UnitsFrom(ms, j, seen + Elements(AllCallIds(ms[i..j]))));
      assert after + Elements(AllCallIds(rest)) == seen + Elements(AllCallIds(ms[i..j]));
      ConcatAssociates(row, rest, tail);
    }
  }

  lemma {:induction false} SplitWindow(ms: seq<Message>, i: nat, j: nat) returns (e: nat)
    requires i < j <= |ms| && (j == |ms| || ms[j].role != Tool)
    requires IsNormal(ms[i..j])
    ensures i < e <= j && e == UnitEnd(ms, i) && ms[i..j] == ms[i..e] + ms[e..j]
    ensures UnitRow(ms[i..e]) && IsNormal(ms[i..e]) && IsNormal(ms[e..j])
    ensures Elements(AllCallIds(ms[i..e])) !! Elements(AllCallIds(ms[e..j]))
    ensures Elements(AllCallIds(ms[i..j])) == Elements(AllCallIds(ms[i..e])) + Elements(AllCallIds(ms[e..j]))
  {
    var row, rest := SplitFirstUnit(ms[i..j]);
    e := i + |row|;
    UnitEndInWindow(ms, i, j);
    assert row == ms[i..j][..|row|] == ms[i..e];
    assert rest == ms[i..j][|row|..] == ms[e..j];
  }

  /** In normal form, the message after a unit is not a tool message. */
  lemma {:induction false} RestAfterUnit(ms: seq<Message>)
    requires IsNormal(ms) && ms != [] && UnitEnd(ms, 0) < |ms|
    ensures ms[UnitEnd(ms, 0)].role != Tool
  {
    NormalFormHead(ms);
    assert WellPlaced(ms, UnitEnd(ms, 0));
  }

  /** The normal form is exactly what normalising leaves unchanged. */
  lemma {:induction false} NormalFormIsFixedPoint(ms: seq<Message>)
    ensures IsNormal(ms) <==> NormalizeHistory(ms) == ms
  {
    NormalizeIsNormal(ms);
    if IsNormal(ms) {
      assert ms[0..|ms|] == ms;
      ScanNormal(ms, 0, |ms|, {});
      assert ms + [] == ms;
    }
  }

  lemma {:induction false} NormalizeIdempotent(ms: seq<Message>)
    ensures NormalizeHistory(NormalizeHistory(ms)) == NormalizeHistory(ms)
  {
    NormalizeIsNormal(ms);
    NormalFormIsFixedPoint(NormalizeHistory(ms));
  }
}
