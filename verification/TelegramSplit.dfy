/**
 Splitting long Telegram messages. Split points count characters but the rest of
 the text is cut at that many bytes, so the two agree on ASCII text only; cutting
 inside a character is a panic, modelled by `None`.
 */
module TelegramSplit {
  import opened Text

  const LIMIT := 4000
  const MAX_MESSAGE_LENGTH := 4096

  /** The last place of `c` in `s[from..to]`. */
  function LastIn(s: string, c: char, from: nat, to: nat): (i: Option<nat>)
    requires from <= to <= |s|
    ensures i.Some? ==> from <= i.value < to && s[i.value] == c && forall j :: i.value < j < to ==> s[j] != c
    ensures i.None? ==> forall j :: from <= j < to ==> s[j] != c
  {
    if from == to then None
    else if s[to - 1] == c then Some(to - 1)
    else LastIn(s, c, from, to - 1)
  }

  /** After the last newline of the final third, else after the last space of the final fifth, else the limit. */
  function SplitPoint(s: string): (n: nat)
    ensures n <= |s| && n <= LIMIT
    ensures |s| > LIMIT ==> n >= 2668
    ensures |s| <= LIMIT ==> n == |s|
  {
    if |s| <= LIMIT then |s|
    else
      var newline := LastIn(s, '\n', LIMIT - LIMIT / 3, LIMIT);
      var space := LastIn(s, ' ', LIMIT - LIMIT / 5, LIMIT);
      if newline.Some? then newline.value + 1 else if space.Some? then space.value + 1 else LIMIT
  }

  /** `&s[n..]` with `n` in bytes. */
  function DropBytes(s: string, n: nat): (r: Option<string>)
    ensures r.Some? ==> |r.value| <= |s| && (n > 0 ==> |r.value| < |s|)
    ensures r.Some? <==> IsCharBoundary(s, n)
  {
    if n == 0 then Some(s)
    else if s == "" || CharBytes(s[0]) > n then None
    else DropBytes(s[1..], n - CharBytes(s[0]))
  }

  function Cons(chunk: string, rest: Option<seq<string>>): Option<seq<string>> {
    if rest.None? then None else Some([chunk] + rest.value)
  }

  /** The chunks of the text that remains. */
  function Chunks(s: string): Option<seq<string>>
    decreases |s|
  {
    if s == "" then Some([])
    else if |s| <= LIMIT then Some([s])
    else
      var n := SplitPoint(s);
      var rest := DropBytes(s, n);
      if rest.None? then None else Cons(s[..n], Chunks(rest.value))
  }

  function Split(text: string): Option<seq<string>> {
    if |text| <= LIMIT then Some([text]) else Chunks(text)
  }

  method FindLast(chars: string, c: char, from: nat, to: nat) returns (found: Option<nat>)
    requires from <= to <= |chars|
    ensures found == LastIn(chars, c, from, to)
  {
    var i := to;
    while i > from
      invariant from <= i <= to && LastIn(chars, c, from, i) == LastIn(chars, c, from, to)
    {
      i := i - 1;
      if chars[i] == c {
        return Some(i);
      }
    }
    found := None;
  }

  method FindSplitPoint(chars: string) returns (n: nat)
    ensures n == SplitPoint(chars)
  {
    if |chars| <= LIMIT {
      return |chars|;
    }
    var newline := FindLast(chars, '\n', LIMIT - LIMIT / 3, LIMIT);
    if newline.Some? {
      return newline.value + 1;
    }
    var space := FindLast(chars, ' ', LIMIT - LIMIT / 5, LIMIT);
    if space.Some? {
      return space.value + 1;
    }
    n := LIMIT;
  }

  method SplitLongMessage(text: string) returns (chunks: Option<seq<string>>)
    ensures chunks == Split(text)
  {
    if |text| <= LIMIT {
      return Some([text]);
    }
    hide SplitPoint, DropBytes;
    var done, remaining := [], text;
    assert Chunks(text).Some? ==> [] + Chunks(text).value == Chunks(text).value;
    while remaining != ""
      invariant Chunks(text) == if Chunks(remaining).None? then None else Some(done + Chunks(remaining).value)
      decreases |remaining|
    {
      if |remaining| <= LIMIT {
        return Some(done + [remaining]);
      }
      var n := FindSplitPoint(remaining);
      var rest := DropBytes(remaining, n);
      if rest.None? {
        return None;
      }
      ghost var tail := Chunks(rest.value);
      assert tail.Some? ==> done + ([remaining[..n]] + tail.value) == (done + [remaining[..n]]) + tail.value;
      done := done + [remaining[..n]];
      remaining := rest.value;
    }
    chunks := Some(done);
    assert done + [] == done;
  }

  // ---------- bounds ----------

  lemma {:induction false} ChunkBounds(s: string)
    requires Chunks(s).Some?
    ensures var chunks := Chunks(s).value;
            && |chunks| <= |s| && (s != "" ==> chunks != [])
            && (forall i :: 0 <= i < |chunks| ==> 1 <= |chunks[i]| <= LIMIT)
            && (forall i :: 0 <= i < |chunks| - 1 ==> |chunks[i]| >= 2668)
    decreases |s|
  {
    if |s| > LIMIT {
      var n := SplitPoint(s);
      ChunkBounds(DropBytes(s, n).value);
      hide SplitPoint, DropBytes;
    }
  }

  // ---------- where chunks end ----------

  predicate Lacks(s: string, c: char, from: nat, to: nat) {
    forall i :: from <= i < to && i < |s| ==> s[i] != c
  }

  /** The cut is after the last newline from 2667 on, else after the last space from 3200 on, else at 4000. */
  lemma {:induction false} BreaksAtLastChance(s: string)
    requires |s| > 4000
    ensures var n := SplitPoint(s);
            && 0 < n <= 4000
            && ((s[n - 1] == '\n' && n > 2667 && Lacks(s, '\n', n, 4000))
                || (Lacks(s, '\n', 2667, 4000) && s[n - 1] == ' ' && n > 3200 && Lacks(s, ' ', n, 4000))
                || (Lacks(s, '\n', 2667, 4000) && Lacks(s, ' ', 3200, 4000) && n == 4000))
  {
  }

  /** A chunk ends after a newline or a space, unless it is full and its last part has neither. */
  predicate BreaksWell(chunk: string) {
    && chunk != ""
    && (chunk[|chunk| - 1] == '\n'
        || (Lacks(chunk, '\n', 2667, |chunk|)
            && (chunk[|chunk| - 1] == ' ' || (|chunk| == 4000 && Lacks(chunk, ' ', 3200, 4000)))))
  }

  lemma {:induction false} ChunksBreakWell(s: string)
    requires Chunks(s).Some?
    ensures forall i :: 0 <= i < |Chunks(s).value| - 1 ==> BreaksWell(Chunks(s).value[i])
    decreases |s|
  {
    if |s| > LIMIT {
      var n := SplitPoint(s);
      BreaksAtLastChance(s);
      assert BreaksWell(s[..n]);
      ChunksBreakWell(DropBytes(s, n).value);
      hide SplitPoint, DropBytes, BreaksWell;
    }
  }

  // ---------- lossless exactly on ASCII ----------

  function Joined(chunks: seq<string>): string {
    if chunks == [] then "" else chunks[0] + Joined(chunks[1..])
  }

  /** Where the last chunk would start if the text were cut at characters. */
  function LastCut(s: string): (n: nat)
    ensures n <= |s|
  {
    if |s| <= LIMIT then 0 else SplitPoint(s) + LastCut(s[SplitPoint(s)..])
  }

  lemma {:induction false} AsciiDrop(s: string, n: nat)
    requires n <= |s| && Ascii(s[..n])
    ensures DropBytes(s, n) == Some(s[n..])
  {
    if n > 0 {
      assert s[..n][0] == s[0];
      assert s[..n][1..] == s[1..][..n - 1];
      AsciiDrop(s[1..], n - 1);
      assert s[1..][n - 1..] == s[n..];
    }
  }

  /** When some of the first `n` characters is not ASCII, `n` bytes hold fewer than `n` characters. */
  lemma {:induction false} OtherDrop(s: string, n: nat)
    requires n <= |s|
    ensures DropBytes(s, n).Some? ==> |DropBytes(s, n).value| >= |s| - n
    ensures DropBytes(s, n).Some? && !Ascii(s[..n]) ==> |DropBytes(s, n).value| > |s| - n
  {
    if n > 0 && CharBytes(s[0]) <= n {
      var m := CharBytes(s[0]);
      OtherDrop(s[1..], n - m);
      if m == 1 && Ascii(s[1..][..n - 1]) {
        assert s[..n] == [s[0]] + s[1..][..n - 1];
      }
    }
  }

  lemma {:induction false} JoinedLength(s: string)
    requires Chunks(s).Some?
    ensures |Joined(Chunks(s).value)| >= |s|
    decreases |s|
  {
    if |s| > LIMIT {
      var n := SplitPoint(s);
      OtherDrop(s, n);
      var rest := DropBytes(s, n).value;
      JoinedLength(rest);
      hide SplitPoint, DropBytes;
      assert ([s[..n]] + Chunks(rest).value)[1..] == Chunks(rest).value;
    } else if s != "" {
      assert [s][1..] == [] && s + "" == s;
    }
  }

  lemma {:induction false} ChunksLossless(s: string)
    ensures Chunks(s).Some? && Joined(Chunks(s).value) == s <==> Ascii(s[..LastCut(s)])
    decreases |s|
  {
    hide Chunks, Joined, Ascii, SplitPoint, DropBytes, LastCut;
    if |s| <= LIMIT {
      ShortLossless(s);
    } else {
      var n := SplitPoint(s);
      ChunksLossless(s[n..]);
      CutAscii(s, n, LastCut(s[n..]));
      LongCut(s);
      if Ascii(s[..n]) {
        AsciiDrop(s, n);
        StepLossless(s, n);
      } else if Chunks(s).Some? {
        StepLonger(s, n);
      }
    }
  }

  lemma {:induction false} ShortLossless(s: string)
    requires |s| <= LIMIT
    ensures Chunks(s).Some? && Joined(Chunks(s).value) == s && Ascii(s[..LastCut(s)])
  {
    hide SplitPoint, DropBytes;
    if s != "" {
      assert [s][1..] == [] && s + "" == s;
    }
  }

  lemma {:induction false} LongCut(s: string)
    requires |s| > LIMIT
    ensures LastCut(s) == SplitPoint(s) + LastCut(s[SplitPoint(s)..])
  {
  }

  lemma {:induction false} CutAscii(s: string, n: nat, m: nat)
    requires n + m <= |s|
    ensures Ascii(s[..n + m]) <==> Ascii(s[..n]) && Ascii(s[n..][..m])
  {
    assert s[..n + m] == s[..n] + s[n..][..m];
    assert forall i :: 0 <= i < n ==> s[..n][i] == s[..n + m][i];
    assert forall i :: 0 <= i < m ==> s[n..][..m][i] == s[..n + m][n + i];
  }

  lemma {:induction false} StepLossless(s: string, n: nat)
    requires |s| > LIMIT && n == SplitPoint(s) && DropBytes(s, n) == Some(s[n..])
    ensures Chunks(s).Some? && Joined(Chunks(s).value) == s
            <==> Chunks(s[n..]).Some? && Joined(Chunks(s[n..]).value) == s[n..]
  {
    hide SplitPoint, DropBytes;
    var tail := Chunks(s[n..]);
    if tail.Some? {
      assert ([s[..n]] + tail.value)[1..] == tail.value;
      assert Joined(Chunks(s).value) == s[..n] + Joined(tail.value);
      assert s[..n] + s[n..] == s;
      if Joined(Chunks(s).value) == s {
        assert Joined(tail.value) == (s[..n] + Joined(tail.value))[n..];
      }
    }
  }

  lemma {:induction false} StepLonger(s: string, n: nat)
    requires |s| > LIMIT && n == SplitPoint(s) && !Ascii(s[..n]) && Chunks(s).Some?
    ensures |Joined(Chunks(s).value)| > |s|
  {
    hide SplitPoint, DropBytes, Ascii;
    OtherDrop(s, n);
    var rest := DropBytes(s, n).value;
    JoinedLength(rest);
    assert ([s[..n]] + Chunks(rest).value)[1..] == Chunks(rest).value;
  }

  /** Splitting loses, repeats and crashes on nothing exactly when the text before its last cut is ASCII. */
  lemma {:induction false} SplitLossless(text: string)
    ensures Split(text).Some? && Joined(Split(text).value) == text <==> Ascii(text[..LastCut(text)])
  {
    if |text| <= LIMIT {
      assert [text][1..] == [] && text + "" == text;
    } else {
      ChunksLossless(text);
    }
  }

  /** Whatever the text, if splitting does not crash every chunk is within bounds. */
  lemma {:induction false} SplitBounds(text: string)
    requires Split(text).Some?
    ensures var chunks := Split(text).value;
            && chunks != []
            && (forall i :: 0 <= i < |chunks| ==> |chunks[i]| <= LIMIT && (text != "" ==> chunks[i] != ""))
            && (forall i :: 0 <= i < |chunks| - 1 ==> |chunks[i]| >= 2668)
            && (text != "" ==> |chunks| <= |text|)
  {
    if |text| > LIMIT {
      ChunkBounds(text);
    }
  }

  // ---------- text that is not ASCII ----------

  function Repeated(c: char, n: nat): string {
    seq(n, i => c)
  }

  lemma {:induction false} DropTwoByteChars(c: char, n: nat, k: nat)
    requires CharBytes(c) == 2 && k <= n
    ensures DropBytes(Repeated(c, n), 2 * k) == Some(Repeated(c, n - k))
  {
    if k == 0 {
      assert Repeated(c, n - 0) == Repeated(c, n);
    } else {
      assert Repeated(c, n)[1..] == Repeated(c, n - 1);
      DropTwoByteChars(c, n - 1, k - 1);
    }
  }

  /** 4001 letters e-acute come out as 6001: the second chunk starts in the middle of the first. */
  lemma {:induction false} AccentsAreRepeated()
    ensures var text := Repeated('\U{E9}', 4001);
            Split(text) == Some([Repeated('\U{E9}', 4000), Repeated('\U{E9}', 2001)])
  {
    var c := '\U{E9}';
    var text := Repeated(c, 4001);
    assert text[..4000] == Repeated(c, 4000);
    assert SplitPoint(text) == 4000;
    DropTwoByteChars(c, 4001, 2000);
    var rest := Repeated(c, 2001);
    assert DropBytes(text, 4000) == Some(rest) && |rest| == 2001;
    hide SplitPoint, DropBytes;
    assert Chunks(rest) == Some([rest]);
    assert Chunks(text) == Cons(text[..4000], Some([rest]));
    assert [text[..4000]] + [rest] == [Repeated(c, 4000), rest];
  }

  // ---------- sending ----------

  function Prefix(i: nat, total: nat): string {
    if total > 1 then "[" + Decimal(i + 1) + "/" + Decimal(total) + "] " else ""
  }

  /** The first of two messages says so. */
  lemma {:induction false} PrefixExample()
    ensures Prefix(0, 2) == "[1/2] "
  {
    assert Decimal(1) == "1" && Decimal(2) == "2";
  }

  lemma {:induction false} DecimalIsDigits(n: nat)
    ensures forall i :: 0 <= i < |Decimal(n)| ==> '0' <= Decimal(n)[i] <= '9'
  {
    if n >= 10 {
      DecimalIsDigits(n / 10);
    }
  }

  /** Digits up to a character that is no digit are the same digits wherever they start a text. */
  lemma {:induction false} DigitsBefore(a: string, b: string, x: string, y: string)
    requires (forall i :: 0 <= i < |a| ==> '0' <= a[i] <= '9') && (forall i :: 0 <= i < |b| ==> '0' <= b[i] <= '9')
    requires x != "" && y != "" && !('0' <= x[0] <= '9') && !('0' <= y[0] <= '9')
    requires a + x == b + y
    ensures a == b && x == y
  {
    assert (a + x)[0] == if a == "" then x[0] else a[0];
    assert (b + y)[0] == if b == "" then y[0] else b[0];
    if a == "" && b == "" {
      assert a + x == x && b + y == y;
    } else if a != "" && b != "" {
      ConcatHead(a, x);
      ConcatHead(b, y);
      DigitsBefore(a[1..], b[1..], x, y);
      assert a == [a[0]] + a[1..] && b == [b[0]] + b[1..];
    }
  }

  /** Every prefix tells the place of its message and how many there are. */
  lemma {:induction false} PrefixTellsPlace(i: nat, j: nat, total: nat, other: nat)
    requires total > 1 && other > 1 && Prefix(i, total) == Prefix(j, other)
    ensures i == j && total == other
  {
    hide Decimal;
    var a, b := Decimal(i + 1), Decimal(j + 1);
    var x, y := Decimal(total), Decimal(other);
    DecimalIsDigits(i + 1);
    DecimalIsDigits(j + 1);
    DecimalIsDigits(total);
    DecimalIsDigits(other);
    assert Prefix(i, total)[1..] == a + ("/" + (x + "] ")) && Prefix(j, other)[1..] == b + ("/" + (y + "] "));
    DigitsBefore(a, b, "/" + (x + "] "), "/" + (y + "] "));
    assert ("/" + (x + "] "))[1..] == x + "] " && ("/" + (y + "] "))[1..] == y + "] ";
    DigitsBefore(x, y, "] ", "] ");
    DecimalInjective(i + 1, j + 1);
    DecimalInjective(total, other);
  }

  function Numbered(chunks: seq<string>): seq<string> {
    seq(|chunks|, i requires 0 <= i < |chunks| => Prefix(i, |chunks|) + chunks[i])
  }

  /** The messages sent for a text. */
  function Messages(text: string): Option<seq<string>> {
    if |text| <= MAX_MESSAGE_LENGTH then Some([text])
    else
      var chunks := Split(text);
      if chunks.None? then None
      else Some(Numbered(chunks.value))
  }

  datatype SendResult = Sent | Failed | Panicked

  /** The bot takes the first `accepted` messages and fails on the next. */
  method SendSplitMessage(text: string, accepted: nat) returns (sent: seq<string>, r: SendResult)
    ensures Messages(text).None? ==> sent == [] && r == Panicked
    ensures Messages(text).Some? ==>
              var messages := Messages(text).value;
              if accepted < |messages| then sent == messages[..accepted] && r == Failed
              else sent == messages && r == Sent
  {
    hide Split, Prefix;
    sent := [];
    if |text| <= MAX_MESSAGE_LENGTH {
      if accepted == 0 {
        return sent, Failed;
      }
      return [text], Sent;
    }
    var split := SplitLongMessage(text);
    if split.None? {
      return sent, Panicked;
    }
    var chunks := split.value;
    for i := 0 to |chunks|
      invariant i <= accepted && sent == Numbered(chunks)[..i]
    {
      if accepted == i {
        return sent, Failed;
      }
      sent := sent + [Prefix(i, |chunks|) + chunks[i]];
    }
    r := Sent;
  }

  function Power10(k: nat): (p: nat)
    ensures p >= 1
  {
    if k == 0 then 1 else 10 * Power10(k - 1)
  }

  lemma {:induction false} PowerOf19()
    ensures Power10(19) == 10_000_000_000_000_000_000
  {
    assert Power10(5) == 100_000;
    assert Power10(10) == 10_000_000_000;
    assert Power10(15) == 1_000_000_000_000_000;
  }

  lemma {:induction false} DecimalLength(n: nat, k: nat)
    requires k > 0 && n < Power10(k)
    ensures |Decimal(n)| <= k
  {
    if n >= 10 {
      assert k > 1;
      DecimalLength(n / 10, k - 1);
    }
  }

  lemma {:induction false} ShortTextGoesWhole(text: string)
    requires |text| <= 4096
    ensures Messages(text) == Some([text])
  {
  }

  /** A string holds fewer than 2 to the 63 bytes, so a chunk number takes at most 19 digits. */
  lemma {:induction false} MessagesFit(text: string)
    requires ByteLen(text) < 0x8000_0000_0000_0000 && Messages(text).Some?
    ensures forall i :: 0 <= i < |Messages(text).value| ==> |Messages(text).value[i]| <= MAX_MESSAGE_LENGTH
  {
    if |text| > MAX_MESSAGE_LENGTH {
      SplitBounds(text);
      var total := |Split(text).value|;
      PowerOf19();
      forall i | 0 <= i < total ensures |Prefix(i, total)| <= 42 {
        DecimalLength(i + 1, 19);
        DecimalLength(total, 19);
      }
    }
  }

  /** Without their prefixes, put together, the messages are the text. */
  ghost predicate Carry(messages: seq<string>, text: string) {
    exists chunks: seq<string> :: messages == Numbered(chunks) && Joined(chunks) == text
  }

  lemma {:induction false} NumberedInjective(a: seq<string>, b: seq<string>)
    requires Numbered(a) == Numbered(b)
    ensures a == b
  {
    assert |Numbered(a)| == |Numbered(b)|;
    forall i | 0 <= i < |a| ensures a[i] == b[i] {
      assert Numbered(a)[i] == Numbered(b)[i];
      assert a[i] == (Prefix(i, |a|) + a[i])[|Prefix(i, |a|)|..];
      assert b[i] == (Prefix(i, |b|) + b[i])[|Prefix(i, |b|)|..];
    }
  }

  /** A long text reaches the user whole, in order, exactly when it is ASCII before its last cut. */
  lemma {:induction false} MessagesCarryText(text: string)
    requires |text| > MAX_MESSAGE_LENGTH
    ensures Messages(text).Some? && Carry(Messages(text).value, text) <==> Ascii(text[..LastCut(text)])
  {
    hide Split, LastCut, Ascii, Joined, Numbered;
    SplitLossless(text);
    if Messages(text).Some? && Carry(Messages(text).value, text) {
      var chunks: seq<string> :| Messages(text).value == Numbered(chunks) && Joined(chunks) == text;
      NumberedInjective(chunks, Split(text).value);
    }
  }
}
