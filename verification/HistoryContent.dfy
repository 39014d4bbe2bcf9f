/**
 What the normal form keeps: every message of the history is kept as it is, kept up
 to its protocol ids, or turned into text that still tells everything.
 */
module HistoryContent {
  import opened Text
  import opened Messages
  import opened History
  import opened Renames
  import opened NormalForm
  import opened UnitCuts

  /** Message `k` belongs to a complete exchange: the batch at `b`, or an output in the run after it. */
  predicate InExchange(ms: seq<Message>, k: nat)
    requires k < |ms|
  {
    exists b :: 0 <= b <= k && Opens(ms[b]) && k < UnitEnd(ms, b) && ValidExchange(ms[b..UnitEnd(ms, b)])
  }

  /** Up to ids the same message: every part is at its own place. */
  predicate KeptUpToIds(before: Message, after: Message) {
    && after.role == before.role && |after.parts| == |before.parts|
    && forall j :: 0 <= j < |before.parts| ==> SameButIds(before.parts[j], after.parts[j])
  }

  /** Ordinary text, spoken by the user where a tool spoke, that tells every part in order. */
  predicate TurnedIntoText(before: Message, after: Message) {
    && after.role == (if before.role == Tool then User else before.role)
    && (forall p :: p in after.parts ==> p.TextPart? || p.Binary?)
    && ToldInOrder(before.parts, "; incomplete or invalid exchange", TellingParts(before, after))
  }

  /** What becomes of message `k`. */
  predicate Becomes(ms: seq<Message>, k: nat, after: Message)
    requires k < |ms|
  {
    if InExchange(ms, k) then KeptUpToIds(ms[k], after)
    else if ms[k].role == Tool || HasProtocol(ms[k].parts) then TurnedIntoText(ms[k], after)
    else after == ms[k]
  }

  lemma {:induction false} TextTells(m: Message)
    ensures TurnedIntoText(m, HistoricalText(m))
  {
    hide ToldInOrder;
    RenderingTellsAll(m, "; incomplete or invalid exchange");
  }

  /** In a complete exchange every message is kept up to ids. */
  lemma {:induction false} ExchangeIsKept(row: seq<Message>, start: nat, seen: set<string>, m: nat)
    requires row != [] && Opens(row[0]) && ValidExchange(row) && m < |row|
    ensures KeptUpToIds(row[m], Treat(row, start, seen)[m])
  {
    RenamingKeepsContent(row, start, seen, m);
  }

  /** From a cut on, the unit that starts there decides whether a message is in a complete exchange. */
  lemma {:induction false} UnitDecides(ms: seq<Message>, i: nat, k: nat)
    requires i < |ms| && IsCut(ms, i) && i <= k < UnitEnd(ms, i)
    ensures InExchange(ms, k) <==> Opens(ms[i]) && ValidExchange(ms[i..UnitEnd(ms, i)])
  {
    hide ValidExchange;
    if InExchange(ms, k) {
      var b :| 0 <= b <= k && Opens(ms[b]) && k < UnitEnd(ms, b) && ValidExchange(ms[b..UnitEnd(ms, b)]);
      if b < i {
        RunIsSwallowed(ms, b, i);
      }
      assert b == i;
    }
  }

  lemma {:induction false} UnitBecomes(ms: seq<Message>, i: nat, seen: set<string>, k: nat)
    requires i < |ms| && IsCut(ms, i) && i <= k < UnitEnd(ms, i)
    ensures Becomes(ms, k, Treat(ms[i..UnitEnd(ms, i)], i, seen)[k - i])
  {
    hide ValidExchange, InExchange, TurnedIntoText, KeptUpToIds, Rewrite, HistoricalText;
    var row := ms[i..UnitEnd(ms, i)];
    UnitDecides(ms, i, k);
    assert row[k - i] == ms[k];
    if Opens(row[0]) && ValidExchange(row) {
      ExchangeIsKept(row, i, seen, k - i);
    } else {
      TextTells(ms[k]);
      if Opens(ms[i]) && k == i {
        OpensHasProtocol(ms[i]);
      }
    }
  }

  lemma {:induction false} OpensHasProtocol(m: Message)
    requires Opens(m)
    ensures HasProtocol(m.parts)
  {
    if !HasProtocol(m.parts) {
      NoCalls(m.parts);
    }
  }

  lemma {:induction false} ScanBecomes(ms: seq<Message>, i: nat, seen: set<string>, k: nat)
    requires i <= k < |ms| && IsCut(ms, i)
    ensures var r := UnitMessages(UnitsFrom(ms, i, seen));
            |r| == |ms| - i && Becomes(ms, k, r[k - i])
    decreases |ms| - i
  {
    hide Treat, SeenAfter, Becomes, UnitMessages, IsCut;
    var e := UnitEnd(ms, i);
    var row := ms[i..e];
    var after := SeenAfter(row, i, seen);
    UnitsCover(ms, i, seen);
    CoversLength(UnitsFrom(ms, i, seen), i, |ms|);
    UnfoldScan(ms, i, seen);
    if k < e {
      UnitBecomes(ms, i, seen, k);
    } else {
      UnitEndIsNextCut(ms, i);
      ScanBecomes(ms, e, after, k);
    }
  }

  /**
   For every history and every message of it: in a complete exchange it keeps role and
   parts up to ids; other tool messages and protocol become text that tells every part
   in order, marked as incomplete; everything else is unchanged.
   */
  lemma {:induction false} NormalizeTells(ms: seq<Message>, k: nat)
    requires k < |ms|
    ensures |NormalizeHistory(ms)| == |ms| && Becomes(ms, k, NormalizeHistory(ms)[k])
  {
    ScanBecomes(ms, 0, {}, k);
  }

  predicate HistoryBecomes(ms: seq<Message>, after: seq<Message>) {
    |after| == |ms| && forall k :: 0 <= k < |ms| ==> Becomes(ms, k, after[k])
  }

  lemma {:induction false} NormalizeTellsAll(ms: seq<Message>)
    ensures HistoryBecomes(ms, NormalizeHistory(ms))
  {
    hide Becomes, NormalizeHistory;
    NormalizeKeepsLength(ms);
    forall k | 0 <= k < |ms| ensures Becomes(ms, k, NormalizeHistory(ms)[k]) {
      NormalizeTells(ms, k);
    }
  }

  /** So no part of any history is lost: it is at its own place, or its message still tells it. */
  lemma {:induction false} NoPartIsLost(ms: seq<Message>, k: nat, j: nat)
    requires k < |ms| && j < |ms[k].parts|
    ensures |NormalizeHistory(ms)| == |ms|
    ensures var p, after := ms[k].parts[j], NormalizeHistory(ms)[k];
            || (after.role == ms[k].role && |after.parts| == |ms[k].parts| && SameButIds(p, after.parts[j]))
            || StillTold(p, after.parts)
  {
    hide InExchange, ToldInOrder, SameButIds;
    NormalizeTells(ms, k);
    var after := NormalizeHistory(ms)[k];
    if !InExchange(ms, k) {
      if ms[k].role == Tool || HasProtocol(ms[k].parts) {
        ToldIsStillTold(ms[k].parts, "; incomplete or invalid exchange", TellingParts(ms[k], after), ms[k].parts[j]);
        StillToldMore(ms[k].parts[j], TellingParts(ms[k], after), after.parts);
      } else {
        SameIsSameButIds(ms[k].parts[j]);
      }
    }
  }

  lemma {:induction false} SameIsSameButIds(p: Part)
    ensures SameButIds(p, p)
  {
  }

  lemma {:induction false} StillToldMore(p: Part, some: seq<Part>, all: seq<Part>)
    requires StillTold(p, some) && forall q :: q in some ==> q in all
    ensures StillTold(p, all)
  {
    hide Tells;
  }
}
