/**
 Nothing is invented, reordered or lost: the text of the parsed nodes is the
 consumed input with markup characters, and nothing else, struck out.
 */
module MarkdownText {
  import opened Text
  import opened MarkdownGrammar

  /** The text a node list carries, in order. */
  function Flat(nodes: seq<Node>): string {
    if nodes == [] then "" else FlatNode(nodes[0]) + Flat(nodes[1..])
  }

  function FlatNode(node: Node): string {
    match node
    case Text(text) => text
    case Bold(children) => Flat(children)
    case Italic(children) => Flat(children)
    case Underline(children) => Flat(children)
    case Strikethrough(children) => Flat(children)
    case CodeBlock(lang, code) => lang + code
    case InlineCode(code) => code
    case Link(children, url) => Flat(children) + url
  }

  lemma {:induction false} FlatConcat(a: seq<Node>, b: seq<Node>)
    ensures Flat(a + b) == Flat(a) + Flat(b)
  {
    if a == [] {
      assert a + b == b;
    } else {
      assert (a + b)[0] == a[0] && (a + b)[1..] == a[1..] + b;
      FlatConcat(a[1..], b);
      ConcatAssociates(FlatNode(a[0]), Flat(a[1..]), Flat(b));
    }
  }

  lemma {:induction false} FlatFlushed(nodes: seq<Node>, text: string)
    ensures Flat(Flushed(nodes, text)) == Flat(nodes) + text
  {
    FlatConcat(nodes, [MarkdownGrammar.Text(text)]);
    assert Flat([MarkdownGrammar.Text(text)]) == text + "" == text;
    assert Flat(nodes) + "" == Flat(nodes);
  }

  // ---------- striking out markup ----------

  predicate Markup(c: char) {
    c in {'`', '*', '_', '~', '[', ']', '(', ')', '\\', '#'}
  }

  predicate MarkupOrSpace(c: char) {
    Markup(c) || IsWhitespace(c)
  }

  /** `kept` is `source` with some markup and whitespace characters struck out. */
  predicate Strikes(source: string, kept: string) {
    if source == "" then kept == ""
    else
      || (kept != "" && kept[0] == source[0] && Strikes(source[1..], kept[1..]))
      || (MarkupOrSpace(source[0]) && Strikes(source[1..], kept))
  }

  lemma {:induction false} StrikesConcat(a: string, x: string, b: string, y: string)
    requires Strikes(a, x) && Strikes(b, y)
    ensures Strikes(a + b, x + y)
    decreases |a|
  {
    if a == "" {
      assert a + b == b && x + y == y;
    } else {
      assert (a + b)[0] == a[0] && (a + b)[1..] == a[1..] + b;
      if x != "" && x[0] == a[0] && Strikes(a[1..], x[1..]) {
        StrikesConcat(a[1..], x[1..], b, y);
        assert (x + y)[0] == x[0] && (x + y)[1..] == x[1..] + y;
      } else {
        StrikesConcat(a[1..], x, b, y);
      }
    }
  }

  lemma {:induction false} StrikesSelf(s: string)
    ensures Strikes(s, s)
  {
    if s != "" {
      StrikesSelf(s[1..]);
    }
  }

  lemma {:induction false} StrikesMarkup(s: string)
    requires forall i :: 0 <= i < |s| ==> MarkupOrSpace(s[i])
    ensures Strikes(s, "")
  {
    if s != "" {
      StrikesMarkup(s[1..]);
    }
  }

  lemma {:induction false} StrikesTrimStart(s: string)
    ensures Strikes(s, TrimStart(s))
  {
    if s != "" && IsWhitespace(s[0]) {
      StrikesTrimStart(s[1..]);
    } else {
      StrikesSelf(s);
    }
  }

  lemma {:induction false} StrikesTrimEnd(s: string)
    ensures Strikes(s, TrimEnd(s))
  {
    if s != "" && IsWhitespace(s[|s| - 1]) {
      var n := |s| - 1;
      StrikesTrimEnd(s[..n]);
      StrikesMarkup([s[n]]);
      StrikesConcat(s[..n], TrimEnd(s[..n]), [s[n]], "");
      assert s[..n] + [s[n]] == s && TrimEnd(s[..n]) + "" == TrimEnd(s[..n]);
    } else {
      StrikesSelf(s);
    }
  }

  lemma {:induction false} StrikesTransitive(a: string, b: string, c: string)
    requires Strikes(a, b) && Strikes(b, c)
    ensures Strikes(a, c)
    decreases |a|
  {
    if a != "" {
      if b != "" && b[0] == a[0] && Strikes(a[1..], b[1..]) {
        if c != "" && c[0] == b[0] && Strikes(b[1..], c[1..]) {
          StrikesTransitive(a[1..], b[1..], c[1..]);
        } else {
          StrikesTransitive(a[1..], b[1..], c);
        }
      } else {
        StrikesTransitive(a[1..], b, c);
      }
    }
  }

  lemma {:induction false} StrikesTrim(s: string)
    ensures Strikes(s, Trim(s))
  {
    StrikesTrimStart(s);
    StrikesTrimEnd(TrimStart(s));
    StrikesTransitive(s, TrimStart(s), Trim(s));
  }

  // ---------- what may be struck out, and where ----------

  /**
   `kept` is the stretch `from..to` with some markup struck out. Whitespace goes in
   three places only: one space after a run of `#`, on either side of what stands
   between a fence and the end of its line, and the newline there.
   */
  predicate Struck(chars: string, from: nat, to: nat, kept: string)
    requires from <= to <= |chars|
    decreases |chars| - from
  {
    if from == to then kept == ""
    else
      || (kept != "" && kept[0] == chars[from] && Struck(chars, from + 1, to, kept[1..]))
      || (Markup(chars[from]) && Struck(chars, from + 1, to, kept))
      || (HashesEnd(chars, from) <= to && Struck(chars, HashesEnd(chars, from), to, kept))
      || StruckFence(chars, from, to, kept)
  }

  /** Past a run of `#` and a space at `from`; past the end when there is none. */
  function HashesEnd(chars: string, from: nat): (end: nat)
    requires from < |chars|
    ensures from < end
  {
    if chars[from] == '#' && At(chars, from + Hashes(chars, from), " ") then from + Hashes(chars, from) + 1
    else |chars| + 1
  }

  /** A fence at `from`, the trimmed rest of its line, and what follows with or without the newline. */
  predicate StruckFence(chars: string, from: nat, to: nat, kept: string)
    requires from < to <= |chars|
    decreases |chars| - from, 0
  {
    At(chars, from, "```") && FenceLine(chars, from) <= to && Lang(chars, from) <= kept
    && var rest := kept[|Lang(chars, from)|..];
       var newline := FenceLine(chars, from);
       || Struck(chars, newline, to, rest)
       || (newline < to && Struck(chars, newline + 1, to, rest))
  }

  function FenceLine(chars: string, from: nat): (newline: nat)
    requires At(chars, from, "```")
    ensures from + 3 <= newline <= |chars|
  {
    Find(chars, from + 3, "\n")
  }

  function Lang(chars: string, from: nat): string
    requires At(chars, from, "```")
  {
    Trim(chars[from + 3..FenceLine(chars, from)])
  }

  /** Consecutive stretches, each struck out on its own. */
  lemma {:induction false} StruckNext(chars: string, from: nat, mid: nat, to: nat, x: string, y: string)
    requires from <= mid <= to <= |chars|
    requires Struck(chars, from, mid, x) && Struck(chars, mid, to, y)
    ensures Struck(chars, from, to, x + y)
    decreases mid - from, 1
  {
    if from == mid {
      assert x + y == y;
    } else if x != "" && x[0] == chars[from] && Struck(chars, from + 1, mid, x[1..]) {
      StruckNext(chars, from + 1, mid, to, x[1..], y);
      assert (x + y)[0] == x[0] && (x + y)[1..] == x[1..] + y;
    } else if Markup(chars[from]) && Struck(chars, from + 1, mid, x) {
      StruckNext(chars, from + 1, mid, to, x, y);
    } else if HashesEnd(chars, from) <= mid && Struck(chars, HashesEnd(chars, from), mid, x) {
      StruckNext(chars, HashesEnd(chars, from), mid, to, x, y);
    } else {
      StruckFenceNext(chars, from, mid, to, x, y);
    }
  }

  lemma {:induction false} StruckFenceNext(chars: string, from: nat, mid: nat, to: nat, x: string, y: string)
    requires from < mid <= to <= |chars|
    requires StruckFence(chars, from, mid, x) && Struck(chars, mid, to, y)
    ensures StruckFence(chars, from, to, x + y)
    decreases mid - from, 0
  {
    hide Lang, FenceLine, Struck;
    var lang, newline := Lang(chars, from), FenceLine(chars, from);
    var rest := x[|lang|..];
    assert lang <= x + y && (x + y)[|lang|..] == rest + y;
    if Struck(chars, newline, mid, rest) {
      StruckNext(chars, newline, mid, to, rest, y);
    } else {
      StruckNext(chars, newline + 1, mid, to, rest, y);
    }
  }

  lemma {:induction false} StruckSelf(chars: string, from: nat, to: nat)
    requires from <= to <= |chars|
    ensures Struck(chars, from, to, chars[from..to])
    decreases |chars| - from
  {
    if from < to {
      StruckSelf(chars, from + 1, to);
      assert chars[from..to][1..] == chars[from + 1..to];
    }
  }

  /** A stretch wholly made of markup may be dropped. */
  lemma {:induction false} StruckRange(chars: string, from: nat, to: nat)
    requires from <= to <= |chars| && forall i :: from <= i < to ==> Markup(chars[i])
    ensures Struck(chars, from, to, "")
    decreases |chars| - from
  {
    if from < to {
      StruckRange(chars, from + 1, to);
    }
  }

  /** So may a delimiter, when there is one. */
  lemma {:induction false} StruckPast(chars: string, at: nat, s: string)
    requires at <= |chars| && (at < |chars| ==> At(chars, at, s))
    requires forall i :: 0 <= i < |s| ==> Markup(s[i])
    ensures Past(chars, at, s) <= |chars| && Struck(chars, at, Past(chars, at, s), "")
  {
    var to := Past(chars, at, s);
    forall i | at <= i < to ensures Markup(chars[i]) {
      assert chars[at + (i - at)] == s[i - at];
    }
    StruckRange(chars, at, to);
  }

  // ---------- one line inside the whole ----------

  lemma {:induction false} HashesInLine(chars: string, start: nat, end: nat, i: nat)
    requires start <= end <= |chars| && i <= end - start
    requires i + Hashes(chars[start..end], i) < end - start
    ensures Hashes(chars, start + i) == Hashes(chars[start..end], i)
    decreases end - start - i
  {
    if chars[start..end][i] == '#' {
      HashesInLine(chars, start, end, i + 1);
    }
  }

  lemma {:induction false} AtInLine(chars: string, start: nat, end: nat, i: nat, s: string)
    requires start <= end <= |chars| && At(chars[start..end], i, s)
    ensures At(chars, start + i, s)
  {
    forall k | 0 <= k < |s| ensures chars[start + i + k] == s[k] {
      assert chars[start..end][i + k] == s[k];
    }
  }

  lemma {:induction false} HashesEndInLine(chars: string, start: nat, end: nat, i: nat)
    requires start <= end <= |chars| && i < end - start && HashesEnd(chars[start..end], i) <= end - start
    ensures HashesEnd(chars, start + i) == start + HashesEnd(chars[start..end], i)
  {
    HashesInLine(chars, start, end, i);
    AtInLine(chars, start, end, i + Hashes(chars[start..end], i), " ");
    hide Hashes, At;
  }

  lemma {:induction false} NewlineAt(chars: string, i: nat)
    requires i < |chars|
    ensures At(chars, i, "\n") <==> chars[i] == '\n'
  {
    assert chars[i + 0] == chars[i] && "\n"[0] == '\n';
  }

  lemma {:induction false} FindUnique(chars: string, from: nat, s: string, i: nat)
    requires from <= i <= |chars| && s != "" && (i < |chars| ==> At(chars, i, s))
    requires forall j :: from <= j < i ==> !At(chars, j, s)
    ensures Find(chars, from, s) == i
  {
  }

  /** `end` is where the line of `start` ends. */
  lemma {:induction false} FenceInLine(chars: string, start: nat, end: nat, i: nat)
    requires start <= |chars| && end == Find(chars, start, "\n") && At(chars[start..end], i, "```")
    ensures At(chars, start + i, "```")
    ensures FenceLine(chars[start..end], i) == end - start && FenceLine(chars, start + i) == end
    ensures Lang(chars[start..end], i) == Lang(chars, start + i)
  {
    var line := chars[start..end];
    AtInLine(chars, start, end, i, "```");
    forall j | 0 <= j < |line| ensures !At(line, j, "\n") {
      NewlineAt(line, j);
      NewlineAt(chars, start + j);
    }
    FindUnique(line, i + 3, "\n", |line|);
    FindUnique(chars, start + i + 3, "\n", end);
    hide At, Find, Trim;
    assert line[i + 3..|line|] == chars[start + i + 3..end];
  }

  /** What may be struck out of a line on its own may be struck out of it in place. */
  lemma {:induction false} StruckInLine(chars: string, start: nat, end: nat, i: nat, kept: string)
    requires start <= |chars| && end == Find(chars, start, "\n") && i <= end - start
    requires Struck(chars[start..end], i, end - start, kept)
    ensures Struck(chars, start + i, end, kept)
    decreases end - start - i
  {
    hide Find, Hashes, At, Trim;
    var line := chars[start..end];
    if i < |line| {
      if kept != "" && kept[0] == line[i] && Struck(line, i + 1, |line|, kept[1..]) {
        StruckInLine(chars, start, end, i + 1, kept[1..]);
      } else if Markup(line[i]) && Struck(line, i + 1, |line|, kept) {
        StruckInLine(chars, start, end, i + 1, kept);
      } else if HashesEnd(line, i) <= |line| && Struck(line, HashesEnd(line, i), |line|, kept) {
        HashesEndInLine(chars, start, end, i);
        StruckInLine(chars, start, end, HashesEnd(line, i), kept);
      } else {
        FenceInLine(chars, start, end, i);
        StruckInLine(chars, start, end, |line|, kept[|Lang(line, i)|..]);
      }
    }
  }

  // ---------- the parser strikes out nothing else ----------

  lemma {:induction false} FenceStruck(chars: string, pos: nat)
    requires At(chars, pos, "```")
    ensures var newline := FenceLine(chars, pos);
            Struck(chars, pos, Past(chars, newline, "\n"), Lang(chars, pos))
  {
    hide Lang, FenceLine, At;
    var newline := FenceLine(chars, pos);
    var lang := Lang(chars, pos);
    assert lang[|lang|..] == "";
    assert StruckFence(chars, pos, Past(chars, newline, "\n"), lang);
  }

  lemma {:induction false} CodeBlockStrikes(chars: string, pos: nat)
    requires At(chars, pos, "```")
    ensures var t := CodeBlockAt(chars, pos);
            Struck(chars, pos, t.next, FlatNode(t.node))
  {
    hide Struck, Trim, Find;
    var newline := FenceLine(chars, pos);
    var start := Past(chars, newline, "\n");
    var end := Find(chars, start, "```");
    var lang, code := Lang(chars, pos), chars[start..end];
    FenceStruck(chars, pos);
    StruckSelf(chars, start, end);
    StruckNext(chars, pos, start, end, lang, code);
    StruckPast(chars, end, "```");
    StruckNext(chars, pos, end, Past(chars, end, "```"), lang + code, "");
    assert lang + code + "" == lang + code;
  }

  lemma {:induction false} InlineCodeStrikes(chars: string, pos: nat)
    requires At(chars, pos, "`")
    ensures var t := InlineCodeAt(chars, pos);
            Struck(chars, pos, t.next, FlatNode(t.node))
  {
    hide Struck, Find;
    var end := Find(chars, pos + 1, "`");
    var code := chars[pos + 1..end];
    StruckPast(chars, pos, "`");
    StruckSelf(chars, pos + 1, end);
    StruckNext(chars, pos, pos + 1, end, "", code);
    StruckPast(chars, end, "`");
    StruckNext(chars, pos, end, Past(chars, end, "`"), "" + code, "");
    assert "" + code + "" == code;
  }

  lemma {:induction false} GroupStrikes(alphanumeric: set<char>, chars: string, pos: nat, delimiter: string)
    requires IsDelimiter(delimiter) && At(chars, pos, delimiter)
    ensures var t := GroupAt(alphanumeric, chars, pos, delimiter);
            Struck(chars, pos, t.next, FlatNode(t.node))
    decreases |chars| - pos, 0
  {
    hide Struck, ParseFrom;
    var start := pos + |delimiter|;
    var (children, end) := ParseFrom(alphanumeric, chars, start, [delimiter], [], "");
    var kept := ParseStrikes(alphanumeric, chars, start, [delimiter], [], "");
    assert kept == Flat(children);
    StruckPast(chars, pos, delimiter);
    StruckNext(chars, pos, start, end, "", kept);
    StruckPast(chars, end, delimiter);
    StruckNext(chars, pos, end, Past(chars, end, delimiter), "" + kept, "");
    assert "" + kept + "" == kept;
  }

  lemma {:induction false} LinkEndStrikes(chars: string, text: seq<Node>, end: nat)
    requires end <= |chars| && LinkEnd(chars, text, end).Piece?
    ensures var t := LinkEnd(chars, text, end);
            t.node.Link? && t.node.children == text && Struck(chars, end, t.next, t.node.url)
  {
    hide Struck, Find;
    var close := Find(chars, end + 2, ")");
    var url := chars[end + 2..close];
    assert chars[end + 0] == "]"[0] && chars[end + 1 + 0] == "("[0];
    StruckRange(chars, end, end + 2);
    StruckSelf(chars, end + 2, close);
    StruckNext(chars, end, end + 2, close, "", url);
    StruckPast(chars, close, ")");
    StruckNext(chars, end, close, close + 1, "" + url, "");
    assert "" + url + "" == url;
  }

  lemma {:induction false} LinkStrikes(alphanumeric: set<char>, chars: string, pos: nat)
    requires At(chars, pos, "[")
    ensures var t := LinkAt(alphanumeric, chars, pos);
            t.Piece? ==> Struck(chars, pos, t.next, FlatNode(t.node))
    decreases |chars| - pos, 0
  {
    hide Struck, ParseFrom, LinkEnd;
    var (text, end) := ParseFrom(alphanumeric, chars, pos + 1, ["]"], [], "");
    var kept := ParseStrikes(alphanumeric, chars, pos + 1, ["]"], [], "");
    assert kept == Flat(text);
    var t := LinkEnd(chars, text, end);
    if t.Piece? {
      LinkEndStrikes(chars, text, end);
      StruckPast(chars, pos, "[");
      StruckNext(chars, pos, pos + 1, end, "", kept);
      StruckNext(chars, pos, end, t.next, "" + kept, t.node.url);
      assert "" + kept == kept;
    }
  }

  lemma {:induction false} HashesStruck(chars: string, pos: nat)
    requires pos < |chars| && HeadingAt(chars, pos)
    ensures var start := pos + Hashes(chars, pos) + 1;
            start <= |chars| && Struck(chars, pos, start, "")
  {
    assert chars[pos + 0] == "#"[0];
    assert HashesEnd(chars, pos) == pos + Hashes(chars, pos) + 1;
    hide Hashes, At;
  }

  lemma {:induction false} HeadingStrikes(alphanumeric: set<char>, chars: string, pos: nat)
    requires pos < |chars| && HeadingAt(chars, pos)
    ensures var t := ParseHeading(alphanumeric, chars, pos);
            Struck(chars, pos, t.next, FlatNode(t.node))
    decreases |chars| - pos, 0
  {
    hide Struck, ParseFrom, Find, Hashes;
    var start := pos + Hashes(chars, pos) + 1;
    var end := Find(chars, start, "\n");
    var line := chars[start..end];
    var (children, stop) := ParseFrom(alphanumeric, line, 0, [], [], "");
    var kept := ParseStrikes(alphanumeric, line, 0, [], [], "");
    assert kept == Flat(children);
    assert stop == |line|;
    StruckInLine(chars, start, end, 0, kept);
    HashesStruck(chars, pos);
    StruckNext(chars, pos, start, end, "", kept);
    assert "" + kept == kept;
  }

  /** The text a turn adds. */
  function Kept(turn: Turn): string {
    match turn
    case Char(c, next) => [c]
    case Bracket => "["
    case Piece(node, next) => FlatNode(node)
  }

  lemma {:induction false} GatherKeeps(turn: Turn, nodes: seq<Node>, text: string)
    ensures var (gathered, pending) := Gather(turn, nodes, text);
            Flat(gathered) + pending == Flat(nodes) + text + Kept(turn)
  {
    FlatFlushed(nodes, text);
    match turn
    case Char(c, next) => ConcatAssociates(Flat(nodes), text, [c]);
    case Bracket =>
    case Piece(node, next) =>
      FlatConcat(Flushed(nodes, text), [node]);
      assert Flat([node]) == FlatNode(node) + "" == FlatNode(node);
      assert Flat(Flushed(nodes, text) + [node]) + "" == Flat(nodes) + text + FlatNode(node);
  }

  lemma {:induction false} LiteralStrikes(chars: string, pos: nat)
    requires pos < |chars|
    ensures Struck(chars, pos, pos + 1, [chars[pos]])
  {
    StruckSelf(chars, pos, pos + 1);
    assert chars[pos..pos + 1] == [chars[pos]];
  }

  lemma {:induction false} EscapeStrikes(chars: string, pos: nat)
    requires pos + 1 < |chars| && chars[pos] == '\\'
    ensures Struck(chars, pos, pos + 2, [chars[pos + 1]])
  {
    hide Struck;
    StruckRange(chars, pos, pos + 1);
    LiteralStrikes(chars, pos + 1);
    StruckNext(chars, pos, pos + 1, pos + 2, "", [chars[pos + 1]]);
    assert "" + [chars[pos + 1]] == [chars[pos + 1]];
  }

  lemma {:induction false} TurnStrikes(alphanumeric: set<char>, chars: string, pos: nat)
    requires pos < |chars|
    ensures var turn := TurnAt(alphanumeric, chars, pos);
            Struck(chars, pos, NextPos(turn, pos), Kept(turn))
    decreases |chars| - pos, 1
  {
    hide Struck, ParseFrom, GroupAt, LinkAt, ParseHeading, CodeBlockAt, InlineCodeAt, FlatNode, CanOpen, HasMatching,
      HeadingAt;
    LiteralStrikes(chars, pos);
    var delimiter := DelimiterAt(chars, pos);
    if At(chars, pos, "```") {
      assert chars[pos + 0] == "```"[0];
      CodeBlockStrikes(chars, pos);
    } else if At(chars, pos, "`") {
      assert chars[pos + 0] == "`"[0];
      InlineCodeStrikes(chars, pos);
    } else if At(chars, pos, "[") {
      assert chars[pos + 0] == "["[0];
      LinkStrikes(alphanumeric, chars, pos);
    } else if delimiter.Some? {
      GroupStrikes(alphanumeric, chars, pos, delimiter.value);
    } else if At(chars, pos, "\\") {
      assert chars[pos + 0] == "\\"[0];
      if pos + 1 < |chars| {
        EscapeStrikes(chars, pos);
      }
    } else if HeadingAt(chars, pos) {
      HeadingStrikes(alphanumeric, chars, pos);
    }
  }

  lemma {:induction false} ParseStrikes(alphanumeric: set<char>, chars: string, pos: nat, delimiters: seq<string>,
                                        nodes: seq<Node>, text: string) returns (kept: string)
    requires pos <= |chars|
    ensures var (out, end) := ParseFrom(alphanumeric, chars, pos, delimiters, nodes, text);
            Flat(out) == Flat(nodes) + text + kept && Struck(chars, pos, end, kept)
    decreases |chars| - pos, 2
  {
    if pos == |chars| || AtAny(chars, pos, delimiters) {
      hide Flat;
      FlatFlushed(nodes, text);
      kept := "";
      assert Flat(nodes) + text + kept == Flat(nodes) + text;
    } else {
      hide Struck, Flat, TurnAt, AtAny, Gather, Kept;
      var turn := TurnAt(alphanumeric, chars, pos);
      var (gathered, pending) := Gather(turn, nodes, text);
      var next := NextPos(turn, pos);
      TurnStrikes(alphanumeric, chars, pos);
      GatherKeeps(turn, nodes, text);
      var rest := ParseStrikes(alphanumeric, chars, next, delimiters, gathered, pending);
      kept := Kept(turn) + rest;
      ConcatAssociates(Flat(nodes) + text, Kept(turn), rest);
      StruckNext(chars, pos, next, ParseFrom(alphanumeric, chars, pos, delimiters, nodes, text).1, Kept(turn), rest);
    }
  }

  // ---------- what that means ----------

  /** Characters that are neither markup nor whitespace. */
  function Plain(s: string): string {
    if s == "" then "" else (if MarkupOrSpace(s[0]) then "" else [s[0]]) + Plain(s[1..])
  }

  /** Characters that are not markup, whitespace included. */
  function Solid(s: string): string {
    if s == "" then "" else (if Markup(s[0]) then "" else [s[0]]) + Solid(s[1..])
  }

  predicate Subsequence(x: string, s: string) {
    if s == "" then x == ""
    else (x != "" && x[0] == s[0] && Subsequence(x[1..], s[1..])) || Subsequence(x, s[1..])
  }

  lemma {:induction false} StrikesMeans(source: string, kept: string)
    requires Strikes(source, kept)
    ensures Subsequence(kept, source) && Plain(kept) == Plain(source)
    decreases |source|
  {
    if source != "" {
      if kept != "" && kept[0] == source[0] && Strikes(source[1..], kept[1..]) {
        StrikesMeans(source[1..], kept[1..]);
      } else {
        StrikesMeans(source[1..], kept);
      }
    }
  }

  lemma {:induction false} StrikesSlice(chars: string, from: nat, mid: nat, to: nat, x: string, y: string)
    requires from <= mid <= to <= |chars| && Strikes(chars[from..mid], x) && Strikes(chars[mid..to], y)
    ensures Strikes(chars[from..to], x + y)
  {
    hide Strikes;
    StrikesConcat(chars[from..mid], x, chars[mid..to], y);
    assert chars[from..mid] + chars[mid..to] == chars[from..to];
  }

  lemma {:induction false} DroppedSlice(chars: string, from: nat, mid: nat, to: nat, kept: string)
    requires from <= mid <= to <= |chars| && Strikes(chars[mid..to], kept)
    requires forall i :: from <= i < mid ==> MarkupOrSpace(chars[i])
    ensures Strikes(chars[from..to], kept)
  {
    StrikesMarkup(chars[from..mid]);
    StrikesSlice(chars, from, mid, to, "", kept);
    assert "" + kept == kept;
  }

  lemma {:induction false} StruckStrikes(chars: string, from: nat, to: nat, kept: string)
    requires from <= to <= |chars| && Struck(chars, from, to, kept)
    ensures Strikes(chars[from..to], kept)
    decreases |chars| - from, 1
  {
    hide Strikes;
    if from == to {
      StrikesSelf("");
      assert chars[from..to] == "";
    } else if kept != "" && kept[0] == chars[from] && Struck(chars, from + 1, to, kept[1..]) {
      StruckStrikes(chars, from + 1, to, kept[1..]);
      StrikesSelf([chars[from]]);
      assert chars[from..from + 1] == [chars[from]] && [kept[0]] + kept[1..] == kept;
      StrikesSlice(chars, from, from + 1, to, [chars[from]], kept[1..]);
    } else if Markup(chars[from]) && Struck(chars, from + 1, to, kept) {
      StruckStrikes(chars, from + 1, to, kept);
      DroppedSlice(chars, from, from + 1, to, kept);
    } else if HashesEnd(chars, from) <= to && Struck(chars, HashesEnd(chars, from), to, kept) {
      StruckStrikes(chars, HashesEnd(chars, from), to, kept);
      HashesAreDropped(chars, from);
      DroppedSlice(chars, from, HashesEnd(chars, from), to, kept);
    } else {
      StruckFenceStrikes(chars, from, to, kept);
    }
  }

  lemma {:induction false} HashesAreDropped(chars: string, from: nat)
    requires from < |chars| && HashesEnd(chars, from) <= |chars|
    ensures forall i :: from <= i < HashesEnd(chars, from) ==> MarkupOrSpace(chars[i])
  {
    assert chars[from + Hashes(chars, from) + 0] == " "[0];
    hide Hashes;
  }

  lemma {:induction false} StruckFenceStrikes(chars: string, from: nat, to: nat, kept: string)
    requires from < to <= |chars| && StruckFence(chars, from, to, kept)
    ensures Strikes(chars[from..to], kept)
    decreases |chars| - from, 0
  {
    hide Strikes, Struck, Find, Trim;
    var lang, newline := Lang(chars, from), FenceLine(chars, from);
    var rest := kept[|lang|..];
    if Struck(chars, newline, to, rest) {
      StruckStrikes(chars, newline, to, rest);
    } else {
      StruckStrikes(chars, newline + 1, to, rest);
      NewlineAt(chars, newline);
      DroppedSlice(chars, newline, newline + 1, to, rest);
    }
    StrikesTrim(chars[from + 3..newline]);
    StrikesSlice(chars, from + 3, newline, to, lang, rest);
    assert lang + rest == kept;
    forall i | from <= i < from + 3 ensures MarkupOrSpace(chars[i]) {
      assert chars[from + (i - from)] == "```"[i - from];
    }
    DroppedSlice(chars, from, from + 3, to, kept);
  }

  /** Where no heading and no code starts, no whitespace is lost. */
  lemma {:induction false} StruckKeepsWhitespace(chars: string, from: nat, to: nat, kept: string)
    requires from <= to <= |chars| && Struck(chars, from, to, kept)
    requires '#' !in chars && '`' !in chars
    ensures Solid(kept) == Solid(chars[from..to])
    decreases |chars| - from
  {
    if from < to {
      assert chars[from..to][0] == chars[from] && chars[from..to][1..] == chars[from + 1..to];
      assert chars[from] in chars;
      NotAt(chars, from, "```");
      if kept != "" && kept[0] == chars[from] && Struck(chars, from + 1, to, kept[1..]) {
        StruckKeepsWhitespace(chars, from + 1, to, kept[1..]);
      } else {
        StruckKeepsWhitespace(chars, from + 1, to, kept);
      }
    }
  }

  /**
   The whole input is parsed. The nodes' text is the input with markup struck out,
   and whitespace only next to heading hashes and fences; so it is a subsequence
   holding every character that is neither, in order.
   */
  lemma {:induction false} ParseKeepsText(alphanumeric: set<char>, input: string)
    ensures var text := Flat(Parse(alphanumeric, input));
            && Struck(input, 0, |input|, text)
            && Subsequence(text, input) && Plain(text) == Plain(input)
            && ('#' !in input && '`' !in input ==> Solid(text) == Solid(input))
  {
    hide ParseFrom, Struck, Strikes, Plain, Solid, Subsequence;
    var kept := ParseStrikes(alphanumeric, input, 0, [], [], "");
    var end := ParseFrom(alphanumeric, input, 0, [], [], "").1;
    assert end == |input|;
    assert input[0..|input|] == input;
    assert Flat([]) + "" + kept == kept;
    StruckStrikes(input, 0, |input|, kept);
    StrikesMeans(input, kept);
    if '#' !in input && '`' !in input {
      StruckKeepsWhitespace(input, 0, |input|, kept);
    }
  }
}
