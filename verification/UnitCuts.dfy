/**
 Where history may be cut: unit boundaries are a local property of the rows, so
 cutting at one changes neither the units before it nor the shape of those after.
 */
module UnitCuts {
  import opened Text
  import opened Messages
  import opened History

  /** Row `b` is an output of a batch that starts before it. */
  predicate Swallowed(ms: seq<Message>, b: nat) {
    0 < b < |ms| && ms[b].role == Tool && (Opens(ms[b - 1]) || Swallowed(ms, b - 1))
  }

  /** A place where no exchange is split. */
  predicate IsCut(ms: seq<Message>, b: nat) {
    b <= |ms| && !Swallowed(ms, b)
  }

  lemma {:induction false} RunIsSwallowed(ms: seq<Message>, i: nat, k: nat)
    requires i < k < |ms| && Opens(ms[i])
    requires forall j :: i < j <= k ==> ms[j].role == Tool
    ensures Swallowed(ms, k)
    decreases k
  {
    if k > i + 1 {
      RunIsSwallowed(ms, i, k - 1);
    }
  }

  /** From a cut, the next cut is where the unit ends. */
  lemma {:induction false} UnitEndIsNextCut(ms: seq<Message>, i: nat)
    requires IsCut(ms, i) && i < |ms|
    ensures IsCut(ms, UnitEnd(ms, i))
    ensures forall k :: i < k < UnitEnd(ms, i) ==> !IsCut(ms, k)
  {
    forall k | i < k < UnitEnd(ms, i) ensures !IsCut(ms, k) {
      RunIsSwallowed(ms, i, k);
    }
  }

  // ---------- partition ----------

  /** Units cover the rows from `i` to the end, contiguously, one message per row. */
  predicate Covers(units: seq<Unit>, i: nat, n: nat) {
    if units == [] then i == n
    else
      && units[0].start == i < units[0].end
      && |units[0].messages| == units[0].end - i
      && Covers(units[1..], units[0].end, n)
  }

  lemma {:induction false} UnitsCover(ms: seq<Message>, i: nat, seen: set<string>)
    requires i <= |ms|
    ensures Covers(UnitsFrom(ms, i, seen), i, |ms|)
    decreases |ms| - i
  {
    if i < |ms| {
      var e := UnitEnd(ms, i);
      UnitsCover(ms, e, SeenAfter(ms[i..e], i, seen));
    }
  }

  /** Every unit has as many messages as source rows, hence so has the whole. */
  lemma {:induction false} CoversLength(units: seq<Unit>, i: nat, n: nat)
    requires Covers(units, i, n)
    ensures i <= n && |UnitMessages(units)| == n - i
  {
    if units != [] {
      CoversLength(units[1..], units[0].end, n);
    }
  }

  lemma {:induction false} NormalizeKeepsLength(ms: seq<Message>)
    ensures |NormalizeHistory(ms)| == |ms|
  {
    UnitsCover(ms, 0, {});
    CoversLength(HistoryUnits(ms), 0, |ms|);
  }

  predicate EndsAt(units: seq<Unit>, b: nat) {
    exists k :: 0 <= k < |units| && units[k].end == b
  }

  /** The cuts after `i` are exactly the ends of the units from `i` on. */
  lemma {:induction false} CutsAreUnitEnds(ms: seq<Message>, i: nat, seen: set<string>, b: nat)
    requires IsCut(ms, i)
    ensures i < b && IsCut(ms, b) <==> EndsAt(UnitsFrom(ms, i, seen), b)
    decreases |ms| - i
  {
    hide Treat, SeenAfter;
    var units := UnitsFrom(ms, i, seen);
    if i < |ms| {
      var e := UnitEnd(ms, i);
      var rest := UnitsFrom(ms, e, SeenAfter(ms[i..e], i, seen));
      UnitEndIsNextCut(ms, i);
      CutsAreUnitEnds(ms, e, SeenAfter(ms[i..e], i, seen), b);
      assert units[0].end == e;
      assert forall k :: 0 <= k < |rest| ==> units[k + 1] == rest[k];
      if EndsAt(rest, b) {
        var k :| 0 <= k < |rest| && rest[k].end == b;
        assert units[k + 1].end == b;
      }
      if EndsAt(units, b) && b != e {
        var k :| 0 <= k < |units| && units[k].end == b;
        assert rest[k - 1].end == b;
      }
    }
  }

  // ---------- prefixes ----------

  lemma {:induction false} SwallowedInPrefix(ms: seq<Message>, n: nat, b: nat)
    requires n <= |ms| && b < n
    ensures Swallowed(ms[..n], b) <==> Swallowed(ms, b)
    decreases b
  {
    if b > 0 {
      SwallowedInPrefix(ms, n, b - 1);
    }
  }

  /** A cut stays a cut, and a non-cut a non-cut, whatever is appended after its row. */
  lemma {:induction false} CutsSurviveAppends(ms: seq<Message>, more: seq<Message>, b: nat)
    requires b < |ms| || (b == |ms| && (more == [] || more[0].role != Tool))
    ensures IsCut(ms + more, b) <==> IsCut(ms, b)
  {
    assert (ms + more)[..|ms|] == ms;
    if b < |ms| {
      SwallowedInPrefix(ms + more, |ms|, b);
    }
  }

  lemma {:induction false} UnitEndInPrefix(ms: seq<Message>, b: nat, i: nat)
    requires IsCut(ms, b) && IsCut(ms, i) && i < b
    ensures UnitEnd(ms[..b], i) == UnitEnd(ms, i) <= b
  {
    UnitEndIsNextCut(ms, i);
    if Opens(ms[i]) {
      RunEndInPrefix(ms, b, i + 1);
    }
  }

  lemma {:induction false} RunEndInPrefix(ms: seq<Message>, b: nat, i: nat)
    requires i <= b <= |ms|
    ensures RunEnd(ms, i) <= b ==> RunEnd(ms[..b], i) == RunEnd(ms, i)
    decreases b - i
  {
    if i < b && ms[i].role == Tool {
      RunEndInPrefix(ms, b, i + 1);
    }
  }

  /** Work on a prefix that ends at a cut does not depend on what follows. */
  lemma {:induction false} UnitsOfPrefix(ms: seq<Message>, b: nat, i: nat, seen: set<string>)
    requires IsCut(ms, b) && IsCut(ms, i) && i <= b
    ensures UnitsFrom(ms[..b], i, seen) <= UnitsFrom(ms, i, seen)
    decreases b - i
  {
    hide Treat, SeenAfter;
    if i < b {
      UnitEndInPrefix(ms, b, i);
      UnitEndIsNextCut(ms, i);
      var e := UnitEnd(ms, i);
      assert ms[..b][i..e] == ms[i..e];
      UnitsOfPrefix(ms, b, e, SeenAfter(ms[i..e], i, seen));
    }
  }

  lemma {:induction false} UnitMessagesPrefix(a: seq<Unit>, b: seq<Unit>)
    requires a <= b
    ensures UnitMessages(a) <= UnitMessages(b)
  {
    assert b == a + b[|a|..];
    UnitMessagesConcat(a, b[|a|..]);
  }

  /** Normalising a unit-aligned prefix is the prefix of normalising the whole. */
  lemma {:induction false} NormalizePrefix(ms: seq<Message>, b: nat)
    requires IsCut(ms, b)
    ensures HistoryUnits(ms[..b]) <= HistoryUnits(ms)
    ensures b <= |NormalizeHistory(ms)| && NormalizeHistory(ms[..b]) == NormalizeHistory(ms)[..b]
  {
    UnitsOfPrefix(ms, b, 0, {});
    UnitMessagesPrefix(HistoryUnits(ms[..b]), HistoryUnits(ms));
    NormalizeKeepsLength(ms);
    NormalizeKeepsLength(ms[..b]);
  }

  // ---------- suffixes ----------

  datatype Kind = Exchange | Malformed | Ordinary | Stray

  function KindOf(row: seq<Message>): Kind
    requires row != []
  {
    if Opens(row[0]) then if ValidExchange(row) then Exchange else Malformed
    else if row[0].role == Tool || HasProtocol(row[0].parts) then Stray
    else Ordinary
  }

  /** What the scan decides about a unit, apart from the names it gives. */
  datatype Shape = Shape(start: nat, end: nat, kind: Kind)

  function ShapesFrom(ms: seq<Message>, i: nat): seq<Shape>
    requires i <= |ms|
    decreases |ms| - i
  {
    if i == |ms| then []
    else
      var e := UnitEnd(ms, i);
      [Shape(i, e, KindOf(ms[i..e]))] + ShapesFrom(ms, e)
  }

  function Shifted(shapes: seq<Shape>, offset: nat): (r: seq<Shape>)
    ensures |r| == |shapes|
  {
    seq(|shapes|, k requires 0 <= k < |shapes| =>
      Shape(shapes[k].start + offset, shapes[k].end + offset, shapes[k].kind))
  }

  /** Shapes are the ranges of the units; kept exchanges are the units that still open one. */
  lemma {:induction false} ShapesOfUnits(ms: seq<Message>, i: nat, seen: set<string>, k: nat)
    requires i <= |ms| && k < |UnitsFrom(ms, i, seen)|
    ensures |ShapesFrom(ms, i)| == |UnitsFrom(ms, i, seen)|
    ensures var unit, shape := UnitsFrom(ms, i, seen)[k], ShapesFrom(ms, i)[k];
            && unit.start == shape.start && unit.end == shape.end
            && unit.messages != [] && (shape.kind == Exchange <==> Opens(unit.messages[0]))
    decreases |ms| - i
  {
    hide Treat, SeenAfter, KindOf;
    var e := UnitEnd(ms, i);
    var row := ms[i..e];
    var after := SeenAfter(row, i, seen);
    if k == 0 {
      TreatOpens(row, i, seen);
      if e < |ms| {
        ShapesOfUnits(ms, e, after, 0);
      }
    } else {
      ShapesOfUnits(ms, e, after, k - 1);
    }
  }

  lemma {:induction false} TextHasNoCalls(parts: seq<Part>)
    requires forall p :: p in parts ==> p.TextPart? || p.Binary?
    ensures ToolCalls(parts) == []
  {
    if parts != [] {
      assert parts[0] in parts;
      TextHasNoCalls(parts[1..]);
    }
  }

  lemma {:induction false} TreatOpens(row: seq<Message>, start: nat, seen: set<string>)
    requires row != [] && (!Opens(row[0]) ==> |row| == 1)
    ensures Opens(Treat(row, start, seen)[0]) <==> KindOf(row) == Exchange
  {
    TextHasNoCalls(HistoricalText(row[0]).parts);
    if KindOf(row) == Exchange {
      var renamed := Renamed(ToolCalls(row[0].parts), start, 0, seen);
      CallsSurviveRewriting(row[0].parts, renamed);
    }
  }

  lemma {:induction false} CallsSurviveRewriting(parts: seq<Part>, renamed: Renaming)
    ensures |ToolCalls(RewriteParts(parts, renamed))| == |ToolCalls(parts)|
  {
    if parts != [] {
      assert RewriteParts(parts, renamed)[1..] == RewriteParts(parts[1..], renamed);
      CallsSurviveRewriting(parts[1..], renamed);
    }
  }

  lemma {:induction false} ShiftedCons(first: Shape, rest: seq<Shape>, offset: nat)
    ensures Shifted([first] + rest, offset)
         == [Shape(first.start + offset, first.end + offset, first.kind)] + Shifted(rest, offset)
  {
  }

  lemma {:induction false} RunEndInSuffix(ms: seq<Message>, b: nat, i: nat)
    requires b <= i <= |ms|
    ensures RunEnd(ms[b..], i - b) == RunEnd(ms, i) - b
    decreases |ms| - i
  {
    if i < |ms| && ms[i].role == Tool {
      RunEndInSuffix(ms, b, i + 1);
    }
  }

  lemma {:induction false} UnitEndInSuffix(ms: seq<Message>, b: nat, i: nat)
    requires b <= i < |ms|
    ensures UnitEnd(ms[b..], i - b) == UnitEnd(ms, i) - b
  {
    RunEndInSuffix(ms, b, i + 1);
  }

  lemma {:induction false} ShapesOfSuffixFrom(ms: seq<Message>, b: nat, i: nat)
    requires b <= i <= |ms|
    ensures ShapesFrom(ms, i) == Shifted(ShapesFrom(ms[b..], i - b), b)
    decreases |ms| - i
  {
    hide KindOf, Shifted, UnitEnd;
    if i == |ms| {
      assert Shifted([], b) == [];
    } else {
      var e := UnitEnd(ms, i);
      UnitEndInSuffix(ms, b, i);
      assert ms[b..][i - b..e - b] == ms[i..e];
      ShapesOfSuffixFrom(ms, b, e);
      ShiftedCons(Shape(i - b, e - b, KindOf(ms[i..e])), ShapesFrom(ms[b..], e - b), b);
    }
  }

  lemma {:induction false} ShapesOfPrefixFrom(ms: seq<Message>, b: nat, i: nat)
    requires IsCut(ms, b) && IsCut(ms, i) && i <= b
    ensures ShapesFrom(ms, i) == ShapesFrom(ms[..b], i) + ShapesFrom(ms, b)
    decreases b - i
  {
    hide KindOf, UnitEnd, Swallowed;
    if i < b {
      UnitEndInPrefix(ms, b, i);
      UnitEndIsNextCut(ms, i);
      var e := UnitEnd(ms, i);
      assert ms[..b][i..e] == ms[i..e];
      ShapesOfPrefixFrom(ms, b, e);
      ConcatAssociates([Shape(i, e, KindOf(ms[i..e]))], ShapesFrom(ms[..b], e), ShapesFrom(ms, b));
    }
  }

  /** Cutting at a unit boundary and analysing both halves gives the same ranges and verdicts. */
  lemma {:induction false} CutIsHarmless(ms: seq<Message>, b: nat)
    requires IsCut(ms, b)
    ensures ShapesFrom(ms, 0) == ShapesFrom(ms[..b], 0) + Shifted(ShapesFrom(ms[b..], 0), b)
  {
    ShapesOfPrefixFrom(ms, b, 0);
    ShapesOfSuffixFrom(ms, b, b);
  }

  // ---------- windows ----------

  /** The leading units that end within the cutoff. */
  function TakeWithin(units: seq<Unit>, cutoff: nat): (r: seq<Unit>)
    ensures r <= units
  {
    if units == [] || units[0].end > cutoff then [] else [units[0]] + TakeWithin(units[1..], cutoff)
  }

  function CompactionPrefixLen(ms: seq<Message>, preserve: nat): nat {
    var cutoff := if preserve <= |ms| then |ms| - preserve else 0;
    var taken := TakeWithin(HistoryUnits(ms), cutoff);
    if taken == [] then 0 else taken[|taken| - 1].end
  }

  lemma {:induction false} TakeWithinIsGreatest(units: seq<Unit>, i: nat, n: nat, cutoff: nat, b: nat)
    requires Covers(units, i, n) && EndsAt(units, b) && b <= cutoff
    ensures var taken := TakeWithin(units, cutoff);
            taken != [] && b <= taken[|taken| - 1].end <= cutoff
  {
    EndsAfterStart(units, i, n, b);
    if units[0].end != b {
      var k :| 0 <= k < |units| && units[k].end == b;
      assert units[1..][k - 1].end == b;
      TakeWithinIsGreatest(units[1..], units[0].end, n, cutoff, b);
    } else if TakeWithin(units[1..], cutoff) != [] {
      TakeWithinBounds(units[1..], units[0].end, n, cutoff);
    }
  }

  lemma {:induction false} EndsAfterStart(units: seq<Unit>, i: nat, n: nat, b: nat)
    requires Covers(units, i, n) && EndsAt(units, b)
    ensures units != [] && units[0].end <= b
  {
    if units[0].end != b {
      var k :| 0 <= k < |units| && units[k].end == b;
      assert units[1..][k - 1].end == b;
      EndsAfterStart(units[1..], units[0].end, n, b);
    }
  }

  lemma {:induction false} TakeWithinBounds(units: seq<Unit>, i: nat, n: nat, cutoff: nat)
    requires Covers(units, i, n) && TakeWithin(units, cutoff) != []
    ensures var taken := TakeWithin(units, cutoff);
            i < taken[|taken| - 1].end <= cutoff && EndsAt(units, taken[|taken| - 1].end)
  {
    var taken := TakeWithin(units, cutoff);
    var rest := TakeWithin(units[1..], cutoff);
    if rest != [] {
      TakeWithinBounds(units[1..], units[0].end, n, cutoff);
      assert taken[|taken| - 1] == rest[|rest| - 1];
    }
    assert units[|taken| - 1] == taken[|taken| - 1];
  }

  /** The compaction prefix is the greatest cut that leaves the preserved rows alone. */
  lemma {:induction false} CompactionPrefixIsGreatestCut(ms: seq<Message>, preserve: nat)
    ensures var r := CompactionPrefixLen(ms, preserve);
            && IsCut(ms, r)
            && (r == 0 || r + preserve <= |ms|)
            && forall b: nat :: IsCut(ms, b) && b + preserve <= |ms| ==> b <= r
  {
    var cutoff := if preserve <= |ms| then |ms| - preserve else 0;
    var units := HistoryUnits(ms);
    var taken := TakeWithin(units, cutoff);
    var r := CompactionPrefixLen(ms, preserve);
    UnitsCover(ms, 0, {});
    if taken != [] {
      TakeWithinBounds(units, 0, |ms|, cutoff);
      CutsAreUnitEnds(ms, 0, {}, r);
    }
    forall b: nat | IsCut(ms, b) && b + preserve <= |ms| ensures b <= r {
      if b > 0 {
        CutsAreUnitEnds(ms, 0, {}, b);
        TakeWithinIsGreatest(units, 0, |ms|, cutoff, b);
      }
    }
  }

  /** Going back from unit `k`, the first from which the messages to the end cover the rows; 0 when none do. */
  function RecentFrom(units: seq<Unit>, rows: nat, k: nat): (r: nat)
    requires k <= |units|
    ensures r <= k
  {
    if k == 0 || rows <= |UnitMessages(units[k..])| then k else RecentFrom(units, rows, k - 1)
  }

  /** The trailing units kept cover the rows, or are all; any fewer would not cover them. */
  lemma {:induction false} RecentIsFewest(units: seq<Unit>, rows: nat, k: nat)
    requires k <= |units|
    ensures var r := RecentFrom(units, rows, k);
            && (r == 0 || rows <= |UnitMessages(units[r..])|)
            && forall j :: r < j <= k ==> |UnitMessages(units[j..])| < rows
    decreases k
  {
    hide UnitMessages;
    if k > 0 && |UnitMessages(units[k..])| < rows {
      RecentIsFewest(units, rows, k - 1);
    }
  }

  /** The loop of `recent_history`. */
  method RecentHistory(ms: seq<Message>, rows: nat) returns (recent: seq<Message>)
    ensures var units := HistoryUnits(ms);
            recent == UnitMessages(units[RecentFrom(units, rows, |units|)..])
  {
    hide UnitsFrom;
    var units := HistoryUnits(ms);
    recent := [];
    assert units[|units|..] == [];
    if rows == 0 {
      return;
    }
    var index := |units|;
    var count := 0;
    UnitsCover(ms, 0, {});
    while index > 0 && count < rows
      invariant 0 <= index <= |units|
      invariant recent == UnitMessages(units[index..]) && count == |recent|
      invariant RecentFrom(units, rows, index) == RecentFrom(units, rows, |units|)
    {
      index := index - 1;
      CoversAt(units, 0, |ms|, index);
      count := count + (units[index].end - units[index].start);
      recent := units[index].messages + recent;
      assert units[index..][1..] == units[index + 1..];
    }
  }

  lemma {:induction false} CoversAt(units: seq<Unit>, i: nat, n: nat, k: nat)
    requires Covers(units, i, n) && k < |units|
    ensures units[k].start < units[k].end && |units[k].messages| == units[k].end - units[k].start
  {
    if k > 0 {
      CoversAt(units[1..], units[0].end, n, k - 1);
    }
  }
}
