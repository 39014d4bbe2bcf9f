/**
 What stays as it is typed: printing turn by turn, and the characters that start no
 markup where they stand, such as underscores inside words and asterisks between
 spaces.
 */
module MarkdownLiteral {
  import opened Text
  import opened MarkdownGrammar
  import opened MarkdownPrinter

  /** `parse_markdown_to_v2`. */
  function ToV2(alphanumeric: set<char>, input: string): string {
    PrintAll(Parse(alphanumeric, input))
  }

  lemma {:induction false} PrintOne(node: Node)
    ensures PrintAll([node]) == Print(node)
  {
    assert [node][1..] == [];
    assert PrintAll([]) == "";
    assert PrintAll([node]) == Print(node) + "" == Print(node);
  }

  lemma {:induction false} PrintAppend(nodes: seq<Node>, node: Node)
    ensures PrintAll(nodes + [node]) == PrintAll(nodes) + Print(node)
  {
    if nodes == [] {
      PrintOne(node);
      assert nodes + [node] == [node] && "" + Print(node) == Print(node);
    } else {
      hide Print;
      assert (nodes + [node])[0] == nodes[0] && (nodes + [node])[1..] == nodes[1..] + [node];
      PrintAppend(nodes[1..], node);
      ConcatAssociates(Print(nodes[0]), PrintAll(nodes[1..]), Print(node));
    }
  }

  lemma {:induction false} PrintFlushed(nodes: seq<Node>, text: string)
    ensures PrintAll(Flushed(nodes, text)) == PrintAll(nodes) + Escape(TEXT_SPECIAL, text)
  {
    if text == "" {
      assert PrintAll(nodes) + "" == PrintAll(nodes);
    } else {
      PrintAppend(nodes, Node.Text(text));
    }
  }

  // ---------- turn by turn ----------

  /** The print of what is parsed from `pos` on, outside any group. */
  function Rest(alphanumeric: set<char>, chars: string, pos: nat): string
    requires pos <= |chars|
  {
    PrintAll(ParseFrom(alphanumeric, chars, pos, [], [], "").0)
  }

  /** What a turn that starts at a bracket, a character or a construct adds to the print. */
  function Printed(turn: Turn): string {
    match turn
    case Char(c, _) => EscapeChar(TEXT_SPECIAL, c)
    case Bracket => EscapeChar(TEXT_SPECIAL, '[')
    case Piece(node, _) => Print(node)
  }

  lemma {:induction false} EscapeAppend(special: set<char>, text: string, c: char)
    ensures Escape(special, text + [c]) == Escape(special, text) + EscapeChar(special, c)
  {
    if text == "" {
      assert text + [c] == [c] && [c][1..] == "" && Escape(special, "") == "";
    } else {
      ConcatHead(text, [c]);
      EscapeAppend(special, text[1..], c);
      ConcatAssociates(EscapeChar(special, text[0]), Escape(special, text[1..]), EscapeChar(special, c));
    }
  }

  lemma {:induction false} EscapeOne(special: set<char>, c: char)
    ensures Escape(special, [c]) == EscapeChar(special, c)
  {
    assert [c][1..] == "" && EscapeChar(special, c) + "" == EscapeChar(special, c);
  }

  /** Gathering a turn adds its print to that of the nodes and the text so far. */
  lemma {:induction false} GatherPrints(turn: Turn, nodes: seq<Node>, text: string)
    ensures var (gathered, pending) := Gather(turn, nodes, text);
            PrintAll(gathered) + Escape(TEXT_SPECIAL, pending)
            == PrintAll(nodes) + Escape(TEXT_SPECIAL, text) + Printed(turn)
  {
    hide PrintAll, Escape, EscapeChar, Flushed;
    match turn
    case Char(c, _) =>
      EscapeAppend(TEXT_SPECIAL, text, c);
      ConcatAssociates(PrintAll(nodes), Escape(TEXT_SPECIAL, text), EscapeChar(TEXT_SPECIAL, c));
    case Bracket =>
      PrintFlushed(nodes, text);
      EscapeOne(TEXT_SPECIAL, '[');
    case Piece(node, _) =>
      PrintFlushed(nodes, text);
      PrintAppend(Flushed(nodes, text), node);
      NothingEscaped(PrintAll(Flushed(nodes, text) + [node]));
  }

  lemma {:induction false} NothingEscaped(s: string)
    ensures s + Escape(TEXT_SPECIAL, "") == s
  {
    assert Escape(TEXT_SPECIAL, "") == "";
  }

  lemma {:induction false} NothingGatheredYet(s: string)
    ensures PrintAll([]) + Escape(TEXT_SPECIAL, "") + s == s
  {
    assert PrintAll([]) == "" && Escape(TEXT_SPECIAL, "") == "";
  }

  lemma {:induction false} ParseStep(alphanumeric: set<char>, chars: string, pos: nat, nodes: seq<Node>, text: string)
    requires pos < |chars|
    ensures var turn := TurnAt(alphanumeric, chars, pos);
            var (gathered, pending) := Gather(turn, nodes, text);
            && pos < NextPos(turn, pos) <= |chars|
            && ParseFrom(alphanumeric, chars, pos, [], nodes, text)
               == ParseFrom(alphanumeric, chars, NextPos(turn, pos), [], gathered, pending)
  {
    hide TurnAt;
    assert !AtAny(chars, pos, []);
  }

  lemma {:induction false} ParseEnd(alphanumeric: set<char>, chars: string, nodes: seq<Node>, text: string)
    ensures ParseFrom(alphanumeric, chars, |chars|, [], nodes, text).0 == Flushed(nodes, text)
  {
  }

  /** What has been gathered is printed in front of the rest. */
  lemma {:induction false} Accumulates(alphanumeric: set<char>, chars: string, pos: nat, nodes: seq<Node>, text: string)
    requires pos <= |chars|
    ensures PrintAll(ParseFrom(alphanumeric, chars, pos, [], nodes, text).0)
         == PrintAll(nodes) + Escape(TEXT_SPECIAL, text) + Rest(alphanumeric, chars, pos)
    decreases |chars| - pos
  {
    hide ParseFrom, TurnAt, PrintAll, Escape, Printed, Gather;
    if pos == |chars| {
      ParseEnd(alphanumeric, chars, nodes, text);
      ParseEnd(alphanumeric, chars, [], "");
      PrintFlushed(nodes, text);
      PrintFlushed([], "");
      NothingGatheredYet("");
      assert Rest(alphanumeric, chars, pos) == "";
      assert PrintAll(nodes) + Escape(TEXT_SPECIAL, text) + "" == PrintAll(nodes) + Escape(TEXT_SPECIAL, text);
    } else {
      var turn := TurnAt(alphanumeric, chars, pos);
      var next := NextPos(turn, pos);
      var (gathered, pending) := Gather(turn, nodes, text);
      ParseStep(alphanumeric, chars, pos, nodes, text);
      Accumulates(alphanumeric, chars, next, gathered, pending);
      GatherPrints(turn, nodes, text);
      RestStep(alphanumeric, chars, pos);
      ConcatAssociates(PrintAll(nodes) + Escape(TEXT_SPECIAL, text), Printed(turn), Rest(alphanumeric, chars, next));
    }
  }

  /** Printing is turn by turn: each adds its own print to that of the rest, whatever stands around it. */
  lemma {:induction false} RestStep(alphanumeric: set<char>, chars: string, pos: nat)
    requires pos < |chars|
    ensures var turn := TurnAt(alphanumeric, chars, pos);
            && pos < NextPos(turn, pos) <= |chars|
            && Rest(alphanumeric, chars, pos) == Printed(turn) + Rest(alphanumeric, chars, NextPos(turn, pos))
    decreases |chars| - pos, 0
  {
    hide ParseFrom, TurnAt, PrintAll, Escape, Printed, Gather;
    var turn := TurnAt(alphanumeric, chars, pos);
    var (gathered, pending) := Gather(turn, [], "");
    ParseStep(alphanumeric, chars, pos, [], "");
    Accumulates(alphanumeric, chars, NextPos(turn, pos), gathered, pending);
    GatherPrints(turn, [], "");
    NothingGatheredYet(Printed(turn));
  }

  // ---------- characters that start nothing where they stand ----------

  predicate Blank(chars: string, i: nat) {
    i >= |chars| || IsWhitespace(chars[i])
  }

  /** The delimiter at `pos` is inside a word, or before a blank, or has no closer that a word stands before. */
  predicate NeverOpens(alphanumeric: set<char>, chars: string, pos: nat, d: string)
    requires pos < |chars|
  {
    || (d in {"_", "__"} && pos > 0 && chars[pos - 1] in alphanumeric)
    || Blank(chars, pos + |d|)
    || forall j :: pos + |d| < j < |chars| && At(chars, j, d) ==> IsWhitespace(chars[j - 1])
  }

  /** A run of `#` that no space follows. */
  predicate NoHeadingRun(chars: string, pos: nat) {
    exists e :: pos < e <= |chars| && (forall i :: pos <= i < e ==> chars[i] == '#')
                && (e < |chars| ==> chars[e] !in {'#', ' '})
  }

  /** No parenthesis closes a link target from `i` on. */
  predicate NoTarget(chars: string, i: nat) {
    forall k :: i <= k < |chars| ==> chars[k] != ')'
  }

  /**
   The character starts no markup where it stands: an ordinary one; a delimiter that
   never opens; a backtick that is the last; a bracket with no closed link target after it; a
   hash inside a line or without its space.
   */
  predicate LiteralAt(alphanumeric: set<char>, chars: string, pos: nat)
    requires pos < |chars|
  {
    match chars[pos]
    case '`' => forall j :: pos < j < |chars| ==> chars[j] != '`'
    case '[' => forall j :: pos < j < |chars| && At(chars, j, "](") ==> NoTarget(chars, j + 2)
    case '#' => (pos > 0 && chars[pos - 1] != '\n') || NoHeadingRun(chars, pos)
    case '\\' => false
    case '*' => NeverOpens(alphanumeric, chars, pos, if At(chars, pos, "**") then "**" else "*")
    case '_' => NeverOpens(alphanumeric, chars, pos, if At(chars, pos, "__") then "__" else "_")
    case '~' => At(chars, pos, "~~") ==> NeverOpens(alphanumeric, chars, pos, "~~")
    case _ => true
  }

  lemma {:induction false} AtChar(chars: string, pos: nat, s: string)
    requires pos < |chars| && |s| == 1 && chars[pos] == s[0]
    ensures At(chars, pos, s)
  {
  }

  lemma {:induction false} HashesOf(chars: string, pos: nat, n: nat)
    requires pos + n < |chars| && chars[pos + n] != '#'
    requires forall i :: pos <= i < pos + n ==> chars[i] == '#'
    ensures Hashes(chars, pos) == n
    decreases n
  {
    if n > 0 {
      HashesOf(chars, pos + 1, n - 1);
    }
  }

  lemma {:induction false} HashIsNoMark(chars: string, p: nat)
    requires p < |chars| && chars[p] == '#'
    ensures !At(chars, p, "```") && !At(chars, p, "`") && !At(chars, p, "[") && !At(chars, p, "\\")
    ensures DelimiterAt(chars, p) == None && At(chars, p, "#")
  {
    AtChar(chars, p, "#");
    NotAt(chars, p, "```");
    NotAt(chars, p, "`");
    NotAt(chars, p, "[");
    NotAt(chars, p, "**");
    NotAt(chars, p, "__");
    NotAt(chars, p, "*");
    NotAt(chars, p, "_");
    NotAt(chars, p, "~~");
    NotAt(chars, p, "\\");
    hide At;
  }

  lemma {:induction false} BackslashTurn(alphanumeric: set<char>, chars: string, pos: nat)
    requires pos < |chars| && chars[pos] == '\\'
    ensures TurnAt(alphanumeric, chars, pos)
         == if pos + 1 < |chars| then Char(chars[pos + 1], pos + 2) else Char('\\', pos + 1)
  {
    NotAt(chars, pos, "```");
    NotAt(chars, pos, "`");
    NotAt(chars, pos, "[");
    NotAt(chars, pos, "**");
    NotAt(chars, pos, "__");
    NotAt(chars, pos, "*");
    NotAt(chars, pos, "_");
    NotAt(chars, pos, "~~");
    AtChar(chars, pos, "\\");
    hide At, ParseFrom;
  }

  lemma {:induction false} NeverOpensClosed(alphanumeric: set<char>, chars: string, pos: nat, d: string)
    requires IsDelimiter(d) && At(chars, pos, d) && NeverOpens(alphanumeric, chars, pos, d)
    ensures !CanOpen(alphanumeric, chars, pos, d)
  {
    if !Blank(chars, pos + |d|) && !(d in {"_", "__"} && pos > 0 && chars[pos - 1] in alphanumeric) {
      var start := pos + |d|;
      forall i | start <= i < |chars| ensures !Closes(chars, start, d, i) {
        assert At(chars, i, d) && i > start ==> IsWhitespace(chars[i - 1]);
      }
    }
  }

  /** Where the first character is a delimiter's, the parser takes the double one if it is there. */
  lemma {:induction false} MarkHere(chars: string, pos: nat)
    requires pos < |chars| && chars[pos] in {'*', '_', '~'}
    ensures DelimiterAt(chars, pos)
         == if chars[pos] == '*' then (if At(chars, pos, "**") then Some("**") else Some("*"))
            else if chars[pos] == '_' then (if At(chars, pos, "__") then Some("__") else Some("_"))
            else if At(chars, pos, "~~") then Some("~~") else None
    ensures !At(chars, pos, "```") && !At(chars, pos, "`") && !At(chars, pos, "[")
    ensures !At(chars, pos, "\\") && !At(chars, pos, "#")
  {
    NotAt(chars, pos, "```");
    NotAt(chars, pos, "`");
    NotAt(chars, pos, "[");
    NotAt(chars, pos, "\\");
    NotAt(chars, pos, "#");
    if chars[pos] == '*' {
      AtChar(chars, pos, "*");
      NotAt(chars, pos, "__");
    } else if chars[pos] == '_' {
      AtChar(chars, pos, "_");
      NotAt(chars, pos, "**");
      NotAt(chars, pos, "*");
    } else {
      NotAt(chars, pos, "**");
      NotAt(chars, pos, "__");
      NotAt(chars, pos, "*");
      NotAt(chars, pos, "_");
    }
    hide At;
  }

  lemma {:induction false} MarkTurn(alphanumeric: set<char>, chars: string, pos: nat)
    requires pos < |chars| && chars[pos] in {'*', '_', '~'} && LiteralAt(alphanumeric, chars, pos)
    ensures TurnAt(alphanumeric, chars, pos) == Char(chars[pos], pos + 1)
  {
    hide At, NeverOpens, CanOpen, ParseFrom;
    MarkHere(chars, pos);
    var d := DelimiterAt(chars, pos);
    if d.Some? {
      NeverOpensClosed(alphanumeric, chars, pos, d.value);
    }
  }

  lemma {:induction false} NoFence(chars: string, pos: nat)
    requires pos + 1 < |chars| ==> chars[pos + 1] != '`'
    ensures !At(chars, pos, "```")
  {
    if pos + 1 < |chars| {
      assert chars[pos + 1] != "```"[1];
    }
  }

  lemma {:induction false} BracketParts(chars: string, end: nat)
    ensures At(chars, end, "](") <==> At(chars, end, "]") && At(chars, end + 1, "(")
  {
    if end + 1 < |chars| {
      assert chars[end + 0] == chars[end] && chars[end + 1] == chars[end + 1 + 0];
      assert "]("[0] == "]"[0] && "]("[1] == "("[0];
      assert At(chars, end, "]") <==> chars[end] == "]"[0];
      assert At(chars, end + 1, "(") <==> chars[end + 1] == "("[0];
    }
  }

  lemma {:induction false} BacktickTurn(alphanumeric: set<char>, chars: string, pos: nat)
    requires pos < |chars| && chars[pos] == '`' && LiteralAt(alphanumeric, chars, pos)
    ensures TurnAt(alphanumeric, chars, pos) == Char('`', pos + 1)
  {
    NoFence(chars, pos);
    AtChar(chars, pos, "`");
    var start := pos + 1;
    forall i | start <= i < |chars| ensures !Closes(chars, start, "`", i) {
      NotAt(chars, i, "`");
    }
    hide At, ParseFrom, HasMatching;
  }

  lemma {:induction false} TargetNeverCloses(chars: string, i: nat)
    requires i <= |chars| && NoTarget(chars, i)
    ensures Find(chars, i, ")") == |chars|
  {
    var close := Find(chars, i, ")");
    if close < |chars| {
      NotAt(chars, close, ")");
    }
  }

  lemma {:induction false} BracketTurn(alphanumeric: set<char>, chars: string, pos: nat)
    requires pos < |chars| && chars[pos] == '[' && LiteralAt(alphanumeric, chars, pos)
    ensures TurnAt(alphanumeric, chars, pos) == Bracket
  {
    NotAt(chars, pos, "```");
    NotAt(chars, pos, "`");
    AtChar(chars, pos, "[");
    var (text, end) := ParseFrom(alphanumeric, chars, pos + 1, ["]"], [], "");
    BracketParts(chars, end);
    if At(chars, end, "](") {
      TargetNeverCloses(chars, end + 2);
    }
    hide At, ParseFrom;
  }

  lemma {:induction false} HashTurn(alphanumeric: set<char>, chars: string, pos: nat)
    requires pos < |chars| && chars[pos] == '#' && LiteralAt(alphanumeric, chars, pos)
    ensures TurnAt(alphanumeric, chars, pos) == Char('#', pos + 1)
  {
    HashIsNoMark(chars, pos);
    if NoHeadingRun(chars, pos) {
      var e :| pos < e <= |chars| && (forall i :: pos <= i < e ==> chars[i] == '#')
               && (e < |chars| ==> chars[e] !in {'#', ' '});
      if e < |chars| {
        HashesOf(chars, pos, e - pos);
        NotAt(chars, e, " ");
      } else {
        HashesToEnd(chars, pos);
      }
    }
    assert !HeadingAt(chars, pos);
    hide At, ParseFrom, Hashes, HeadingAt;
  }

  lemma {:induction false} HashesToEnd(chars: string, pos: nat)
    requires pos <= |chars| && forall i :: pos <= i < |chars| ==> chars[i] == '#'
    ensures Hashes(chars, pos) == |chars| - pos
    decreases |chars| - pos
  {
    if pos < |chars| {
      HashesToEnd(chars, pos + 1);
    }
  }

  lemma {:induction false} LiteralTurn(alphanumeric: set<char>, chars: string, pos: nat)
    requires pos < |chars| && LiteralAt(alphanumeric, chars, pos)
    ensures var turn := TurnAt(alphanumeric, chars, pos);
            NextPos(turn, pos) == pos + 1 && Printed(turn) == EscapeChar(TEXT_SPECIAL, chars[pos])
  {
    hide TurnAt, EscapeChar, NeverOpens, NoHeadingRun, At;
    match chars[pos]
    case '`' => BacktickTurn(alphanumeric, chars, pos);
    case '[' => BracketTurn(alphanumeric, chars, pos);
    case '#' => HashTurn(alphanumeric, chars, pos);
    case '*' => MarkTurn(alphanumeric, chars, pos);
    case '_' => MarkTurn(alphanumeric, chars, pos);
    case '~' => MarkTurn(alphanumeric, chars, pos);
    case ']' => CloserTurn(alphanumeric, chars, pos);
    case _ => OrdinaryTurn(alphanumeric, chars, pos);
  }

  lemma {:induction false} CloserTurn(alphanumeric: set<char>, chars: string, pos: nat)
    requires pos < |chars| && chars[pos] == ']'
    ensures TurnAt(alphanumeric, chars, pos) == Char(']', pos + 1)
  {
    NotAt(chars, pos, "```");
    NotAt(chars, pos, "`");
    NotAt(chars, pos, "[");
    NotAt(chars, pos, "**");
    NotAt(chars, pos, "__");
    NotAt(chars, pos, "*");
    NotAt(chars, pos, "_");
    NotAt(chars, pos, "~~");
    NotAt(chars, pos, "\\");
    NotAt(chars, pos, "#");
    hide At, ParseFrom;
  }

  /** A stretch of such characters is escaped and nothing else, in front of whatever follows. */
  lemma {:induction false} LiteralRun(alphanumeric: set<char>, chars: string, pos: nat, end: nat)
    requires pos <= end <= |chars| && forall i :: pos <= i < end ==> LiteralAt(alphanumeric, chars, i)
    ensures Rest(alphanumeric, chars, pos)
         == Escape(TEXT_SPECIAL, chars[pos..end]) + Rest(alphanumeric, chars, end)
    decreases end - pos
  {
    hide TurnAt, LiteralAt, Rest, EscapeChar;
    if pos == end {
      assert chars[pos..end] == "" && "" + Rest(alphanumeric, chars, end) == Rest(alphanumeric, chars, end);
    } else {
      LiteralTurn(alphanumeric, chars, pos);
      RestStep(alphanumeric, chars, pos);
      LiteralRun(alphanumeric, chars, pos + 1, end);
      assert chars[pos..end][0] == chars[pos] && chars[pos..end][1..] == chars[pos + 1..end];
      ConcatAssociates(EscapeChar(TEXT_SPECIAL, chars[pos]), Escape(TEXT_SPECIAL, chars[pos + 1..end]),
                       Rest(alphanumeric, chars, end));
    }
  }

  lemma {:induction false} NothingRests(alphanumeric: set<char>, chars: string)
    ensures Rest(alphanumeric, chars, |chars|) == ""
  {
    ParseEnd(alphanumeric, chars, [], "");
    assert PrintAll([]) == "";
  }

  /** Text in which nothing starts markup where it stands is shown as it is typed. */
  lemma {:induction false} LiteralTextConverts(alphanumeric: set<char>, text: string)
    requires forall i :: 0 <= i < |text| ==> LiteralAt(alphanumeric, text, i)
    ensures ToV2(alphanumeric, text) == Escape(TEXT_SPECIAL, text)
  {
    hide LiteralAt, Escape;
    LiteralRun(alphanumeric, text, 0, |text|);
    NothingRests(alphanumeric, text);
    assert text[0..|text|] == text;
    assert Escape(TEXT_SPECIAL, text) + "" == Escape(TEXT_SPECIAL, text);
  }

  lemma {:induction false} OrdinaryIsLiteral(alphanumeric: set<char>, chars: string, pos: nat)
    requires pos < |chars| && Ordinary(chars[pos])
    ensures LiteralAt(alphanumeric, chars, pos)
  {
    var c := chars[pos];
    assert c != '`' && c != '[' && c != '#' && c != '\\' && c != '*' && c != '_' && c != '~';
  }

  predicate UnderscoreInWord(alphanumeric: set<char>, chars: string, pos: nat) {
    0 < pos < |chars| && chars[pos] == '_' && chars[pos - 1] in alphanumeric
  }

  lemma {:induction false} UnderscoreIsLiteral(alphanumeric: set<char>, chars: string, pos: nat)
    requires pos < |chars| && UnderscoreInWord(alphanumeric, chars, pos)
    ensures LiteralAt(alphanumeric, chars, pos)
  {
  }

  lemma {:induction false} SpacedMarkIsLiteral(alphanumeric: set<char>, chars: string, pos: nat)
    requires pos < |chars| && chars[pos] in {'*', '_', '~'} && Blank(chars, pos + 1)
    ensures LiteralAt(alphanumeric, chars, pos)
  {
    NoDouble(chars, pos);
    hide At;
  }

  /** So an underscore inside a word stays, as in `my_var_name`. */
  lemma {:induction false} WordsKeepUnderscores(alphanumeric: set<char>, text: string)
    requires forall i :: 0 <= i < |text| ==> Ordinary(text[i]) || UnderscoreInWord(alphanumeric, text, i)
    ensures ToV2(alphanumeric, text) == Escape(TEXT_SPECIAL, text)
  {
    hide LiteralAt, Ordinary, ToV2, Escape;
    forall i | 0 <= i < |text| ensures LiteralAt(alphanumeric, text, i) {
      if Ordinary(text[i]) {
        OrdinaryIsLiteral(alphanumeric, text, i);
      } else {
        UnderscoreIsLiteral(alphanumeric, text, i);
      }
    }
    LiteralTextConverts(alphanumeric, text);
  }

  /** And a mark before a blank, as in `2 * 3 * 4`. */
  lemma {:induction false} SpacedMarksStay(alphanumeric: set<char>, text: string)
    requires forall i :: 0 <= i < |text| ==>
               Ordinary(text[i]) || (text[i] in {'*', '_', '~'} && Blank(text, i + 1))
    ensures ToV2(alphanumeric, text) == Escape(TEXT_SPECIAL, text)
  {
    hide LiteralAt, Ordinary, ToV2, Escape;
    forall i | 0 <= i < |text| ensures LiteralAt(alphanumeric, text, i) {
      if Ordinary(text[i]) {
        OrdinaryIsLiteral(alphanumeric, text, i);
      } else {
        SpacedMarkIsLiteral(alphanumeric, text, i);
      }
    }
    LiteralTextConverts(alphanumeric, text);
  }

  lemma {:induction false} NoDouble(text: string, i: nat)
    requires i < |text| && Blank(text, i + 1)
    ensures !At(text, i, "**") && !At(text, i, "__") && !At(text, i, "~~")
  {
    if i + 1 < |text| {
      var c := text[i + 1];
      assert c != '*' && c != '_' && c != '~';
      assert c != "**"[1] && c != "__"[1] && c != "~~"[1];
    }
  }

  // ---------- escaping in Markdown ----------

  const MARKUP: set<char> := {'`', '[', ']', '*', '_', '~', '\\', '#'}

  lemma {:induction false} QuotedFrom(alphanumeric: set<char>, chars: string, pos: nat, text: string)
    requires pos <= |chars| && chars[pos..] == Escape(MARKUP, text)
    ensures Rest(alphanumeric, chars, pos) == Escape(TEXT_SPECIAL, text)
    decreases |text|
  {
    hide TurnAt, Rest;
    if text == "" {
      NothingRests(alphanumeric, chars);
    } else {
      var c, tail := text[0], Escape(MARKUP, text[1..]);
      var next := pos + |EscapeChar(MARKUP, c)|;
      assert chars[pos..][0] == chars[pos] && (|chars| > pos + 1 ==> chars[pos..][1] == chars[pos + 1]);
      assert chars[next..] == chars[pos..][|EscapeChar(MARKUP, c)|..] == tail;
      QuotedFrom(alphanumeric, chars, next, text[1..]);
      RestStep(alphanumeric, chars, pos);
      if c in MARKUP {
        BackslashTurn(alphanumeric, chars, pos);
      } else {
        OrdinaryTurn(alphanumeric, chars, pos);
      }
    }
  }

  /** Every text can be typed so that it is shown as it is: a backslash before each markup character. */
  lemma {:induction false} QuotedTextConverts(alphanumeric: set<char>, text: string)
    ensures ToV2(alphanumeric, Escape(MARKUP, text)) == Escape(TEXT_SPECIAL, text)
  {
    var chars := Escape(MARKUP, text);
    assert chars[0..] == chars;
    QuotedFrom(alphanumeric, chars, 0, text);
  }
}
