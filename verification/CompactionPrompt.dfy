/**
 Choosing and rendering the rows of one compaction. The wording of the fixed
 instructions is a parameter.
 */
module CompactionPrompt {
  import opened Text
  import opened Messages
  import opened History
  import opened UnitCuts
  import opened Storage

  datatype Wording = Wording(preamble: string, summaryHeading: string, noSummary: string,
                             rowsHeading: string, closing: string, separator: string)

  const MESSAGE_LIMIT := 2000

  // ---------- truncation ----------

  /** How many characters start before byte `max`. */
  function CharsStartingBefore(s: string, max: nat): (k: nat)
    ensures k <= |s|
    ensures s != [] && max > 0 ==> k > 0
  {
    if s == [] || max == 0 then 0
    else if CharBytes(s[0]) >= max then 1
    else 1 + CharsStartingBefore(s[1..], max - CharBytes(s[0]))
  }

  /** Cut before the last character that starts within the limit. */
  function TruncateStr(s: string, max: nat): string {
    if ByteLen(s) <= max then s
    else
      var k := CharsStartingBefore(s, max);
      if k == 0 then "" else s[..k - 1]
  }

  /** The longest prefix that fits the limit has `n` characters, or one more when the limit is at a boundary. */
  predicate CutsAt(s: string, max: nat, n: nat) {
    && n < |s|
    && ByteLen(s[..n]) < max
    && ByteLen(s[..n + 1]) >= max
    && (ByteLen(s[..n + 1]) == max <==> IsCharBoundary(s, max))
    && forall k :: n + 2 <= k <= |s| ==> ByteLen(s[..k]) > max
  }

  /** A text that is too long is cut at most one whole character short of the longest prefix that fits. */
  lemma {:induction false} TruncateBounds(s: string, max: nat)
    requires 0 < max < ByteLen(s)
    ensures CutsAt(s, max, |TruncateStr(s, max)|)
    ensures TruncateStr(s, max) == s[..|TruncateStr(s, max)|]
  {
    var b := CharBytes(s[0]);
    FirstBytes(s);
    if b < max {
      TruncateBounds(s[1..], max - b);
      TruncateTail(s, max);
    } else {
      assert s[..1] == [s[0]];
      forall k | 2 <= k <= |s| ensures ByteLen(s[..k]) > max {
        ByteLenPrefix(s, k);
        LongerThanNothing(s[1..][..k - 1]);
      }
    }
  }

  lemma {:induction false} FirstBytes(s: string)
    requires s != ""
    ensures ByteLen([s[0]]) == CharBytes(s[0])
  {
    assert [s[0]][1..] == "";
  }

  lemma {:induction false} LongerThanNothing(s: string)
    requires s != ""
    ensures ByteLen(s) > 0
  {
  }

  lemma {:induction false} ByteLenPrefix(s: string, k: nat)
    requires 0 < k <= |s|
    ensures ByteLen(s[..k]) == CharBytes(s[0]) + ByteLen(s[1..][..k - 1])
  {
    assert s[..k][1..] == s[1..][..k - 1];
  }

  lemma {:induction false} TruncateTail(s: string, max: nat)
    requires s != "" && CharBytes(s[0]) < max < ByteLen(s)
    requires CutsAt(s[1..], max - CharBytes(s[0]), |TruncateStr(s[1..], max - CharBytes(s[0]))|)
    ensures CutsAt(s, max, |TruncateStr(s, max)|) && TruncateStr(s, max) <= s
  {
    assert |TruncateStr(s, max)| == 1 + |TruncateStr(s[1..], max - CharBytes(s[0]))|;
    CutsAtTail(s, max, |TruncateStr(s[1..], max - CharBytes(s[0]))|);
    hide CutsAt;
  }

  lemma {:induction false} CutsAtTail(s: string, max: nat, m: nat)
    requires s != "" && CharBytes(s[0]) < max && CutsAt(s[1..], max - CharBytes(s[0]), m)
    ensures CutsAt(s, max, m + 1)
  {
    assert IsCharBoundary(s, max) <==> IsCharBoundary(s[1..], max - CharBytes(s[0]));
    hide ByteLen, CharBytes, IsCharBoundary;
    ByteLenPrefix(s, m + 1);
    ByteLenPrefix(s, m + 2);
    forall k | m + 3 <= k <= |s| ensures ByteLen(s[..k]) > max {
      ByteLenPrefix(s, k);
      assert ByteLen(s[1..][..k - 1]) > max - CharBytes(s[0]);
    }
  }

  /** A prefix that fits, and the longest such. */
  predicate LongestFitting(t: string, s: string, max: nat) {
    && t <= s && ByteLen(t) <= max
    && forall k :: |t| < k <= |s| ==> ByteLen(s[..k]) > max
  }

  /** Text that is too long keeps all that fits exactly when the limit falls inside a character. */
  lemma {:induction false} TruncateKeepsAllThatFitsWhen(s: string, max: nat)
    ensures LongestFitting(TruncateStr(s, max), s, max)
       <==> ByteLen(s) <= max || max == 0 || !IsCharBoundary(s, max)
  {
    var t := TruncateStr(s, max);
    if ByteLen(s) <= max {
    } else if max == 0 {
      forall k | 0 < k <= |s| ensures ByteLen(s[..k]) > 0 {
        LongerThanNothing(s[..k]);
      }
    } else {
      TruncateBounds(s, max);
      forall k | |t| < k <= |s| && !IsCharBoundary(s, max) ensures ByteLen(s[..k]) > max {
      }
    }
  }

  lemma {:induction false} AsciiBytes(s: string)
    requires Ascii(s)
    ensures ByteLen(s) == |s|
  {
    if s != "" {
      AsciiBytes(s[1..]);
    }
  }

  /** ASCII text longer than the limit always loses a character that would have fitted. */
  lemma {:induction false} AsciiLosesOne(s: string, max: nat)
    requires Ascii(s) && 0 < max < |s|
    ensures |TruncateStr(s, max)| == max - 1
  {
    AsciiBytes(s);
    TruncateBounds(s, max);
    var n := |TruncateStr(s, max)|;
    AsciiBytes(s[..n]);
    AsciiBytes(s[..n + 1]);
    if n + 2 <= |s| {
      AsciiBytes(s[..n + 2]);
    }
  }

  // ---------- rendering ----------

  function RoleLabel(role: Role): string {
    match role
    case System => "[SYSTEM]"
    case User => "[USER]"
    case Assistant => "[ASSISTANT]"
    case Tool => "[TOOL RESULT]"
  }

  function SummaryText(m: Message, separator: string): string {
    var text := JoinedTexts(RenderHistoricalText(m, "").parts, separator);
    if text.None? then "" else text.value
  }

  function Line(m: Message, separator: string): string {
    var content := SummaryText(m, separator);
    var shown := if ByteLen(content) > MESSAGE_LIMIT then TruncateStr(content, MESSAGE_LIMIT) + "..." else content;
    RoleLabel(m.role) + ": " + shown + "\n\n"
  }

  function Lines(ms: seq<Message>, separator: string): string {
    if ms == [] then "" else Line(ms[0], separator) + Lines(ms[1..], separator)
  }

  function Opening(w: Wording, summary: Option<StoredSummary>): string {
    w.preamble
    + (if summary.Some? then w.summaryHeading + summary.value.text + "\n\n" else w.noSummary)
    + w.rowsHeading
  }

  /** The rows that decode; the prompt builder skips the others. */
  function Decodable(rows: seq<StoredMessage>): seq<Message> {
    if rows == [] then []
    else (if rows[0].decoded.Some? then [rows[0].decoded.value] else []) + Decodable(rows[1..])
  }

  function Prompt(w: Wording, summary: Option<StoredSummary>, rows: seq<StoredMessage>): string {
    Opening(w, summary) + Lines(NormalizeHistory(Decodable(rows)), w.separator) + w.closing
  }

  method BuildCompactionPrompt(w: Wording, summary: Option<StoredSummary>, rows: seq<StoredMessage>)
    returns (prompt: string)
    ensures prompt == Prompt(w, summary, rows)
  {
    hide NormalizeHistory, Line, Decodable;
    var opening := Opening(w, summary);
    var ms := NormalizeHistory(Decodable(rows));
    prompt := opening;
    assert ms[0..] == ms;
    for i := 0 to |ms|
      invariant prompt + Lines(ms[i..], w.separator) == opening + Lines(ms, w.separator)
    {
      assert ms[i..][0] == ms[i] && ms[i..][1..] == ms[i + 1..];
      ConcatAssociates(prompt, Line(ms[i], w.separator), Lines(ms[i + 1..], w.separator));
      prompt := prompt + Line(ms[i], w.separator);
    }
    assert ms[|ms|..] == [];
    assert prompt + "" == prompt;
    prompt := prompt + w.closing;
  }

  lemma {:induction false} DecodableIsDecoded(rows: seq<StoredMessage>)
    ensures DecodeAll(rows).Some? ==> Decodable(rows) == DecodeAll(rows).value
  {
    if rows != [] {
      DecodableIsDecoded(rows[1..]);
    }
  }

  lemma {:induction false} DecodedPrefix(rows: seq<StoredMessage>, n: nat)
    requires n <= |rows| && DecodeAll(rows).Some?
    ensures DecodeAll(rows[..n]) == Some(DecodeAll(rows).value[..n])
  {
    hide DecodeAll;
    var ms, part := DecodeAll(rows).value, DecodeAll(rows[..n]);
    assert forall i :: 0 <= i < n ==> rows[..n][i].decoded == Some(ms[i]);
    assert part.Some? && part.value == ms[..n];
  }

  lemma {:induction false} LinesConcat(a: seq<Message>, b: seq<Message>, separator: string)
    ensures Lines(a + b, separator) == Lines(a, separator) + Lines(b, separator)
  {
    if a == [] {
      assert a + b == b;
    } else {
      hide Line;
      assert (a + b)[1..] == a[1..] + b;
      LinesConcat(a[1..], b, separator);
      ConcatAssociates(Line(a[0], separator), Lines(a[1..], separator), Lines(b, separator));
    }
  }

  // ---------- the largest prefix that fits ----------

  /** `usable` is the usable input budget in tokens. */
  predicate Fits(prompt: string, usable: nat) {
    var quarter := ByteLen(prompt) / 4;
    (if quarter >= 1 then quarter else 1) <= usable
  }

  /** A prompt fits when its bytes stay below four times one more than the usable tokens, of which it needs one. */
  lemma {:induction false} FitsMeansBytes(prompt: string, usable: nat)
    ensures Fits(prompt, usable) <==> usable > 0 && ByteLen(prompt) < 4 * (usable + 1)
  {
    var n := ByteLen(prompt);
    assert n == 4 * (n / 4) + n % 4;
    hide ByteLen;
  }

  /** End of the k-th unit of the candidate rows. */
  function EndOfUnits(units: seq<Unit>, k: nat): nat
    requires k <= |units|
  {
    if k == 0 then 0 else units[k - 1].end
  }

  function UnitsOf(rows: seq<StoredMessage>): seq<Unit>
    requires DecodeAll(rows).Some?
  {
    HistoryUnits(DecodeAll(rows).value)
  }

  lemma {:induction false} EndOfUnitsIsCut(rows: seq<StoredMessage>, k: nat)
    requires DecodeAll(rows).Some? && k <= |UnitsOf(rows)|
    ensures EndOfUnits(UnitsOf(rows), k) <= |rows| && IsCut(DecodeAll(rows).value, EndOfUnits(UnitsOf(rows), k))
    ensures k > 0 ==> EndOfUnits(UnitsOf(rows), k) > 0
  {
    var ms := DecodeAll(rows).value;
    if k > 0 {
      UnitsCover(ms, 0, {});
      CoversAt(UnitsOf(rows), 0, |ms|, k - 1);
      CutsAreUnitEnds(ms, 0, {}, UnitsOf(rows)[k - 1].end);
      assert EndsAt(UnitsOf(rows), UnitsOf(rows)[k - 1].end);
    }
  }

  lemma {:induction false} EndsIncrease(units: seq<Unit>, i: nat, n: nat, j: nat, k: nat)
    requires Covers(units, i, n) && j <= k < |units|
    ensures units[j].end <= units[k].end <= n
  {
    if j > 0 {
      EndsIncrease(units[1..], units[0].end, n, j - 1, k - 1);
    } else if k > 0 {
      EndsIncrease(units[1..], units[0].end, n, 0, k - 1);
      CoversAt(units, i, n, 1);
    } else {
      CoversLength(units[1..], units[0].end, n);
    }
  }

  function FirstUnitsPrompt(w: Wording, summary: Option<StoredSummary>, rows: seq<StoredMessage>, k: nat): string
    requires DecodeAll(rows).Some? && k <= |UnitsOf(rows)|
  {
    EndOfUnitsIsCut(rows, k);
    Prompt(w, summary, rows[..EndOfUnits(UnitsOf(rows), k)])
  }

  /** The prompt of the first units is the opening, a prefix of all the lines, and the closing. */
  lemma {:induction false} PromptOfUnits(w: Wording, summary: Option<StoredSummary>, rows: seq<StoredMessage>, k: nat)
    requires DecodeAll(rows).Some? && k <= |UnitsOf(rows)|
    ensures var ms := DecodeAll(rows).value;
            var end := EndOfUnits(UnitsOf(rows), k);
            && end <= |NormalizeHistory(ms)|
            && FirstUnitsPrompt(w, summary, rows, k)
               == Opening(w, summary) + Lines(NormalizeHistory(ms)[..end], w.separator) + w.closing
  {
    hide NormalizeHistory, IsCut, EndOfUnits, DecodeAll, UnitsOf;
    var ms := DecodeAll(rows).value;
    var end := EndOfUnits(UnitsOf(rows), k);
    EndOfUnitsIsCut(rows, k);
    DecodedPrefix(rows, end);
    DecodableIsDecoded(rows[..end]);
    NormalizePrefix(ms, end);
  }

  /** Adding units never shortens the prompt. */
  lemma {:induction false} PromptGrows(w: Wording, summary: Option<StoredSummary>, rows: seq<StoredMessage>, j: nat,
                                       k: nat)
    requires DecodeAll(rows).Some? && j <= k <= |UnitsOf(rows)|
    ensures ByteLen(FirstUnitsPrompt(w, summary, rows, j)) <= ByteLen(FirstUnitsPrompt(w, summary, rows, k))
  {
    hide NormalizeHistory, Line, Lines, DecodeAll, FirstUnitsPrompt, Opening;
    var ms := DecodeAll(rows).value;
    var units := UnitsOf(rows);
    var a, b := EndOfUnits(units, j), EndOfUnits(units, k);
    PromptOfUnits(w, summary, rows, j);
    PromptOfUnits(w, summary, rows, k);
    UnitsCover(ms, 0, {});
    if j > 0 {
      EndsIncrease(units, 0, |ms|, j - 1, k - 1);
    }
    var normal := NormalizeHistory(ms);
    assert normal[..b] == normal[..a] + normal[a..b];
    LinesConcat(normal[..a], normal[a..b], w.separator);
    ByteLenConcat(Lines(normal[..a], w.separator), Lines(normal[a..b], w.separator));
    PromptByteLen(Opening(w, summary), Lines(normal[..a], w.separator), w.closing);
    PromptByteLen(Opening(w, summary), Lines(normal[..b], w.separator), w.closing);
  }

  lemma {:induction false} PromptByteLen(a: string, b: string, c: string)
    ensures ByteLen(a + b + c) == ByteLen(a) + ByteLen(b) + ByteLen(c)
  {
    ByteLenConcat(a + b, c);
    ByteLenConcat(a, b);
  }

  predicate UnitsFit(w: Wording, summary: Option<StoredSummary>, rows: seq<StoredMessage>, usable: nat, k: nat)
    requires DecodeAll(rows).Some? && k <= |UnitsOf(rows)|
  {
    Fits(FirstUnitsPrompt(w, summary, rows, k), usable)
  }

  /** The plain specification: try every unit count, largest first. */
  function LargestFit(w: Wording, summary: Option<StoredSummary>, rows: seq<StoredMessage>, usable: nat,
                      k: nat): (r: nat)
    requires DecodeAll(rows).Some? && k <= |UnitsOf(rows)|
    ensures r <= k
  {
    if k == 0 || UnitsFit(w, summary, rows, usable, k) then k
    else LargestFit(w, summary, rows, usable, k - 1)
  }

  /** The largest fit is the one count that fits while no larger one does. */
  lemma {:induction false} LargestFitIsLargest(w: Wording, summary: Option<StoredSummary>, rows: seq<StoredMessage>,
                                               usable: nat, k: nat, n: nat)
    requires DecodeAll(rows).Some? && n <= k <= |UnitsOf(rows)|
    ensures n == LargestFit(w, summary, rows, usable, k)
       <==> && (n == 0 || UnitsFit(w, summary, rows, usable, n))
            && forall j :: n < j <= k ==> !UnitsFit(w, summary, rows, usable, j)
    decreases k
  {
    hide UnitsFit, UnitsOf, DecodeAll;
    if k > n {
      LargestFitIsLargest(w, summary, rows, usable, k - 1, n);
    }
  }

  lemma {:induction false} FitsIsDownwardClosed(w: Wording, summary: Option<StoredSummary>, rows: seq<StoredMessage>,
                                                usable: nat, j: nat, k: nat)
    requires DecodeAll(rows).Some? && j <= k <= |UnitsOf(rows)| && UnitsFit(w, summary, rows, usable, k)
    ensures UnitsFit(w, summary, rows, usable, j)
  {
    hide FirstUnitsPrompt;
    PromptGrows(w, summary, rows, j, k);
    var small := FirstUnitsPrompt(w, summary, rows, j);
    var large := FirstUnitsPrompt(w, summary, rows, k);
    assert ByteLen(small) / 4 <= ByteLen(large) / 4;
  }

  datatype Bounded = TooLarge | Undecodable | Bounded(prompt: string, count: nat)

  /** The binary search finds what trying every unit count would find. */
  method BoundCompactionPrompt(w: Wording, summary: Option<StoredSummary>, rows: seq<StoredMessage>, usable: nat)
    returns (r: Bounded)
    ensures r.TooLarge? <==> !Fits(Prompt(w, summary, []), usable)
    ensures r.Undecodable? <==> !r.TooLarge? && DecodeAll(rows).None?
    ensures r.Bounded? ==>
              var k := LargestFit(w, summary, rows, usable, |UnitsOf(rows)|);
              && r.count == EndOfUnits(UnitsOf(rows), k)
              && r.prompt == FirstUnitsPrompt(w, summary, rows, k) && Fits(r.prompt, usable)
  {
    var base := BuildCompactionPrompt(w, summary, []);
    if !Fits(base, usable) {
      return TooLarge;
    }
    var decoded := DecodeAll(rows);
    if decoded.None? {
      return Undecodable;
    }
    r := SearchUnits(w, summary, rows, usable);
  }

  method SearchUnits(w: Wording, summary: Option<StoredSummary>, rows: seq<StoredMessage>, usable: nat)
    returns (r: Bounded)
    requires DecodeAll(rows).Some? && Fits(Prompt(w, summary, []), usable)
    ensures r.Bounded?
    ensures var k := LargestFit(w, summary, rows, usable, |UnitsOf(rows)|);
            && r.count == EndOfUnits(UnitsOf(rows), k)
            && r.prompt == FirstUnitsPrompt(w, summary, rows, k) && Fits(r.prompt, usable)
  {
    hide Prompt, Fits, DecodeAll, UnitsOf, LargestFit;
    var units := UnitsOf(rows);
    var low, high := 0, |units|;
    assert rows[..EndOfUnits(units, 0)] == [];
    assert UnitsFit(w, summary, rows, usable, 0);
    while low < high
      invariant 0 <= low <= high <= |units|
      invariant UnitsFit(w, summary, rows, usable, low)
      invariant forall j :: high < j <= |units| ==> !UnitsFit(w, summary, rows, usable, j)
    {
      var middle := (low + high + 1) / 2;
      EndOfUnitsIsCut(rows, middle);
      var end := units[middle - 1].end;
      var prompt := BuildCompactionPrompt(w, summary, rows[..end]);
      if Fits(prompt, usable) {
        low := middle;
      } else {
        forall j | middle <= j <= |units| ensures !UnitsFit(w, summary, rows, usable, j) {
          if UnitsFit(w, summary, rows, usable, j) {
            FitsIsDownwardClosed(w, summary, rows, usable, middle, j);
          }
        }
        high := middle - 1;
      }
    }
    LargestFitIsLargest(w, summary, rows, usable, |units|, low);
    var count := if low == 0 then 0 else units[low - 1].end;
    EndOfUnitsIsCut(rows, low);
    var prompt := BuildCompactionPrompt(w, summary, rows[..count]);
    r := Bounded(prompt, count);
  }

  // ---------- one plan ----------

  /** The chronological rows eligible for compaction; None when a row cannot be read. */
  function SelectCompactable(listed: seq<StoredMessage>, summary: Option<StoredSummary>, preserve: nat)
    : (r: Option<seq<StoredMessage>>)
  {
    var chronological := Reverse(AfterBoundary(listed, summary));
    var decoded := DecodeAll(chronological);
    if decoded.None? then None
    else
      CompactionPrefixIsGreatestCut(decoded.value, preserve);
      Some(chronological[..CompactionPrefixLen(decoded.value, preserve)])
  }

  /** The largest run of whole units that fits; nothing when not even the instructions do. */
  function FittingRows(w: Wording, summary: Option<StoredSummary>, rows: seq<StoredMessage>, usable: nat)
    : seq<StoredMessage>
    requires DecodeAll(rows).Some?
  {
    if !Fits(Prompt(w, summary, []), usable) then []
    else
      var k := LargestFit(w, summary, rows, usable, |UnitsOf(rows)|);
      EndOfUnitsIsCut(rows, k);
      rows[..EndOfUnits(UnitsOf(rows), k)]
  }

  lemma {:induction false} FittingRowsAreWholeUnits(w: Wording, summary: Option<StoredSummary>,
                                                    rows: seq<StoredMessage>, usable: nat)
    requires DecodeAll(rows).Some?
    ensures var r := FittingRows(w, summary, rows, usable);
            && r <= rows && IsCut(DecodeAll(rows).value, |r|)
            && (r != [] ==> Fits(Prompt(w, summary, r), usable))
  {
    hide DecodeAll, UnitsOf, Fits, Prompt;
    var k := LargestFit(w, summary, rows, usable, |UnitsOf(rows)|);
    EndOfUnitsIsCut(rows, k);
    LargestFitIsLargest(w, summary, rows, usable, |UnitsOf(rows)|, k);
  }

  /** The rows one compaction feeds to the model: none, or a nonempty run of whole units. */
  function PlannedRows(w: Wording, listed: seq<StoredMessage>, summary: Option<StoredSummary>, preserve: nat,
                       usable: nat)
    : seq<StoredMessage>
  {
    var selected := SelectCompactable(listed, summary, preserve);
    if selected.None? || DecodeAll(selected.value).None? then []
    else FittingRows(w, summary, selected.value, usable)
  }

  /**
   A plan is a prefix of the rows after the boundary, ends at a cut of those rows,
   and leaves the preserved recent rows alone.
   */
  lemma {:induction false} PlanIsWholeUnits(w: Wording, listed: seq<StoredMessage>, summary: Option<StoredSummary>,
                                            preserve: nat, usable: nat)
    ensures var chronological := Reverse(AfterBoundary(listed, summary));
            var plan := PlannedRows(w, listed, summary, preserve, usable);
            && plan <= chronological
            && (plan != [] ==>
                  && DecodeAll(chronological).Some?
                  && IsCut(DecodeAll(chronological).value, |plan|)
                  && |plan| + preserve <= |chronological|
                  && Fits(Prompt(w, summary, plan), usable))
  {
    hide DecodeAll, AfterBoundary, CompactionPrefixLen, FittingRows, Fits, Prompt, IsCut;
    var chronological := Reverse(AfterBoundary(listed, summary));
    var decoded := DecodeAll(chronological);
    if decoded.Some? {
      var cutoff := CompactionPrefixLen(decoded.value, preserve);
      CompactionPrefixIsGreatestCut(decoded.value, preserve);
      var rows := chronological[..cutoff];
      DecodedPrefix(chronological, cutoff);
      FittingRowsAreWholeUnits(w, summary, rows, usable);
      CutOfPrefix(decoded.value, cutoff, |FittingRows(w, summary, rows, usable)|);
    }
  }

  lemma {:induction false} CutOfPrefix(ms: seq<Message>, n: nat, b: nat)
    requires IsCut(ms, n) && IsCut(ms[..n], b)
    ensures IsCut(ms, b)
  {
    if b < n {
      SwallowedInPrefix(ms, n, b);
    }
  }

  lemma {:induction false} CutInPrefix(ms: seq<Message>, n: nat, b: nat)
    requires IsCut(ms, b) && b <= n <= |ms|
    ensures IsCut(ms[..n], b)
  {
    if b < n {
      SwallowedInPrefix(ms, n, b);
    }
  }

  /** Every cut of the rows is where some number of units ends. */
  lemma {:induction false} CutIsUnitCount(rows: seq<StoredMessage>, b: nat) returns (k: nat)
    requires DecodeAll(rows).Some? && IsCut(DecodeAll(rows).value, b)
    ensures k <= |UnitsOf(rows)| && EndOfUnits(UnitsOf(rows), k) == b
  {
    hide DecodeAll, IsCut, UnitsFrom;
    var units := UnitsOf(rows);
    if b == 0 {
      k := 0;
    } else {
      NothingSwallowedAtStart(DecodeAll(rows).value);
      CutsAreUnitEnds(DecodeAll(rows).value, 0, {}, b);
      var i :| 0 <= i < |units| && units[i].end == b;
      k := i + 1;
    }
  }

  lemma {:induction false} NothingSwallowedAtStart(ms: seq<Message>)
    ensures IsCut(ms, 0)
  {
  }

  /** A run of whole units that fits is never longer than the one chosen. */
  lemma {:induction false} FittingRowsAreMost(w: Wording, summary: Option<StoredSummary>, rows: seq<StoredMessage>,
                                              usable: nat, b: nat)
    requires DecodeAll(rows).Some? && IsCut(DecodeAll(rows).value, b) && b <= |rows|
    requires Fits(Prompt(w, summary, rows[..b]), usable)
    ensures b <= |FittingRows(w, summary, rows, usable)|
  {
    hide DecodeAll, UnitsOf, Fits, Prompt, IsCut, LargestFit;
    var units := UnitsOf(rows);
    var k := CutIsUnitCount(rows, b);
    var n := LargestFit(w, summary, rows, usable, |units|);
    assert UnitsFit(w, summary, rows, usable, k);
    FitsIsDownwardClosed(w, summary, rows, usable, 0, k);
    assert rows[..EndOfUnits(units, 0)] == [];
    LargestFitIsLargest(w, summary, rows, usable, |units|, n);
    EndOfUnitsIsCut(rows, n);
    UnitEndsGrow(rows, k, n);
  }

  lemma {:induction false} UnitEndsGrow(rows: seq<StoredMessage>, j: nat, k: nat)
    requires DecodeAll(rows).Some? && j <= k <= |UnitsOf(rows)|
    ensures EndOfUnits(UnitsOf(rows), j) <= EndOfUnits(UnitsOf(rows), k)
  {
    hide DecodeAll, UnitsFrom;
    var ms := DecodeAll(rows).value;
    UnitsCover(ms, 0, {});
    if j > 0 {
      EndsIncrease(UnitsOf(rows), 0, |ms|, j - 1, k - 1);
    }
  }

  /**
   The plan is the greatest there is: no longer prefix of the rows after the boundary
   ends at a unit boundary, spares the preserved rows and fits.
   */
  lemma {:induction false} PlanIsGreatest(w: Wording, listed: seq<StoredMessage>, summary: Option<StoredSummary>,
                                          preserve: nat, usable: nat, b: nat)
    requires var chronological := Reverse(AfterBoundary(listed, summary));
             && DecodeAll(chronological).Some? && IsCut(DecodeAll(chronological).value, b)
             && b + preserve <= |chronological| && Fits(Prompt(w, summary, chronological[..b]), usable)
    ensures b <= |PlannedRows(w, listed, summary, preserve, usable)|
  {
    hide DecodeAll, AfterBoundary, CompactionPrefixLen, FittingRows, Fits, Prompt, IsCut;
    var chronological := Reverse(AfterBoundary(listed, summary));
    var ms := DecodeAll(chronological).value;
    var cutoff := CompactionPrefixLen(ms, preserve);
    CompactionPrefixIsGreatestCut(ms, preserve);
    CutWithin(ms, cutoff);
    var rows := chronological[..cutoff];
    DecodedPrefix(chronological, cutoff);
    CutInPrefix(ms, cutoff, b);
    assert rows[..b] == chronological[..b];
    FittingRowsAreMost(w, summary, rows, usable, b);
  }

  lemma {:induction false} CutWithin(ms: seq<Message>, b: nat)
    requires IsCut(ms, b)
    ensures b <= |ms|
  {
  }
}
