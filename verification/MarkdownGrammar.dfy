/**
 What the Markdown parser makes of its input: the node list as a function of the
 text, where parsing stops, and that only markup is dropped on the way.
 */
module MarkdownGrammar {
  import opened Text

  datatype Node =
    | Text(text: string)
    | Bold(children: seq<Node>)
    | Italic(children: seq<Node>)
    | Underline(children: seq<Node>)
    | Strikethrough(children: seq<Node>)
    | CodeBlock(lang: string, code: string)
    | InlineCode(code: string)
    | Link(children: seq<Node>, url: string)

  /** `starts_with` at a position. */
  predicate At(chars: string, pos: nat, s: string) {
    pos + |s| <= |chars| && forall i :: 0 <= i < |s| ==> chars[pos + i] == s[i]
  }

  lemma {:induction false} NotAt(s: string, pos: nat, delimiter: string)
    requires pos < |s| && delimiter != "" && s[pos] != delimiter[0]
    ensures !At(s, pos, delimiter)
  {
    assert s[pos] == s[pos + 0];
  }

  predicate AtAny(chars: string, pos: nat, delimiters: seq<string>) {
    exists d :: d in delimiters && At(chars, pos, d)
  }

  /** The first place from `pos` on where `s` occurs, or the end. */
  function Find(chars: string, pos: nat, s: string): (i: nat)
    requires pos <= |chars| && s != []
    ensures pos <= i <= |chars|
    ensures i < |chars| ==> At(chars, i, s)
    ensures forall j :: pos <= j < i ==> !At(chars, j, s)
    decreases |chars| - pos
  {
    if pos == |chars| || At(chars, pos, s) then pos else Find(chars, pos + 1, s)
  }

  /** Just past an `s` found at `i`, or the end. */
  function Past(chars: string, i: nat, s: string): nat
    requires i <= |chars|
  {
    if i < |chars| then i + |s| else i
  }

  /** A closing delimiter at `i` for one opened just before `start`; code needs no word before it. */
  predicate Closes(chars: string, start: nat, delimiter: string, i: nat) {
    && At(chars, i, delimiter)
    && (delimiter == "```" || delimiter == "`" || (start < i <= |chars| && !IsWhitespace(chars[i - 1])))
  }

  /** A delimiter opened just before `start` is closed further on. */
  predicate HasMatching(chars: string, start: nat, delimiter: string) {
    exists i :: start <= i < |chars| && Closes(chars, start, delimiter, i)
  }

  predicate CanOpen(alphanumeric: set<char>, chars: string, pos: nat, delimiter: string)
    requires pos <= |chars|
  {
    && pos + |delimiter| < |chars|
    && !IsWhitespace(chars[pos + |delimiter|])
    && !(delimiter in {"_", "__"} && pos > 0 && chars[pos - 1] in alphanumeric)
    && HasMatching(chars, pos + |delimiter|, delimiter)
  }

  function Hashes(chars: string, pos: nat): (n: nat)
    requires pos <= |chars|
    ensures pos + n <= |chars|
    ensures forall i :: pos <= i < pos + n ==> chars[i] == '#'
    decreases |chars| - pos
  {
    if pos < |chars| && chars[pos] == '#' then 1 + Hashes(chars, pos + 1) else 0
  }

  /** A run of `#` and a space at the start of a line. */
  predicate HeadingAt(chars: string, pos: nat)
    requires pos < |chars|
  {
    && (pos == 0 || chars[pos - 1] == '\n')
    && At(chars, pos, "#")
    && At(chars, pos + Hashes(chars, pos), " ")
  }

  /**
   What one turn of the loop does: add a character, split the text before a
   literal `[`, or add a node; `next` is where the following turn starts.
   */
  datatype Turn = Char(c: char, next: nat) | Bracket | Piece(node: Node, next: nat)

  function CodeBlockAt(chars: string, pos: nat): (t: Turn)
    requires At(chars, pos, "```")
    ensures t.Piece? && pos < t.next <= |chars|
  {
    var newline := Find(chars, pos + 3, "\n");
    var start := Past(chars, newline, "\n");
    var end := Find(chars, start, "```");
    Piece(CodeBlock(Trim(chars[pos + 3..newline]), chars[start..end]), Past(chars, end, "```"))
  }

  function InlineCodeAt(chars: string, pos: nat): (t: Turn)
    requires At(chars, pos, "`")
    ensures t.Piece? && pos < t.next <= |chars|
  {
    var end := Find(chars, pos + 1, "`");
    Piece(InlineCode(chars[pos + 1..end]), Past(chars, end, "`"))
  }

  /** The rest of a link whose text ended at `end`; anything else leaves the bracket literal. */
  function LinkEnd(chars: string, text: seq<Node>, end: nat): (t: Turn)
    requires end <= |chars|
    ensures t.Bracket? || (t.Piece? && end < t.next <= |chars|)
  {
    if !At(chars, end, "]") || !At(chars, end + 1, "(") then Bracket
    else
      var close := Find(chars, end + 2, ")");
      if close == |chars| then Bracket else Piece(Link(text, chars[end + 2..close]), close + 1)
  }

  function Group(delimiter: string, children: seq<Node>): Node {
    if delimiter == "**" then Bold(children)
    else if delimiter == "__" then Underline(children)
    else if delimiter == "~~" then Strikethrough(children)
    else Italic(children)
  }

  predicate IsDelimiter(delimiter: string) {
    delimiter in {"**", "__", "*", "_", "~~"}
  }

  /** The formatting delimiter at a position; a double one wins over a single one. */
  function DelimiterAt(chars: string, pos: nat): (d: Option<string>)
    ensures d.Some? ==> IsDelimiter(d.value) && At(chars, pos, d.value)
  {
    if At(chars, pos, "**") then Some("**")
    else if At(chars, pos, "__") then Some("__")
    else if At(chars, pos, "*") then Some("*")
    else if At(chars, pos, "_") then Some("_")
    else if At(chars, pos, "~~") then Some("~~")
    else None
  }

  function GroupAt(alphanumeric: set<char>, chars: string, pos: nat, delimiter: string): (t: Turn)
    requires IsDelimiter(delimiter) && At(chars, pos, delimiter)
    ensures t.Piece? && pos < t.next <= |chars|
    decreases |chars| - pos, 0
  {
    var (children, end) := ParseFrom(alphanumeric, chars, pos + |delimiter|, [delimiter], [], "");
    Piece(Group(delimiter, children), Past(chars, end, delimiter))
  }

  function LinkAt(alphanumeric: set<char>, chars: string, pos: nat): (t: Turn)
    requires At(chars, pos, "[")
    ensures t.Bracket? || (t.Piece? && pos < t.next <= |chars|)
    decreases |chars| - pos, 0
  {
    var (text, end) := ParseFrom(alphanumeric, chars, pos + 1, ["]"], [], "");
    LinkEnd(chars, text, end)
  }

  function ParseHeading(alphanumeric: set<char>, chars: string, pos: nat): (t: Turn)
    requires pos < |chars| && HeadingAt(chars, pos)
    ensures t.Piece? && pos < t.next <= |chars|
    decreases |chars| - pos, 0
  {
    var start := pos + Hashes(chars, pos) + 1;
    var end := Find(chars, start, "\n");
    Piece(Bold(ParseFrom(alphanumeric, chars[start..end], 0, [], [], "").0), end)
  }

  /** One turn at a position where no delimiter of the enclosing group stands. */
  function TurnAt(alphanumeric: set<char>, chars: string, pos: nat): (t: Turn)
    requires pos < |chars|
    ensures t.Char? || t.Piece? ==> pos < t.next <= |chars|
    decreases |chars| - pos, 1
  {
    var delimiter := DelimiterAt(chars, pos);
    if At(chars, pos, "```") then
      if HasMatching(chars, pos + 3, "```") then CodeBlockAt(chars, pos) else Char('`', pos + 1)
    else if At(chars, pos, "`") then
      if HasMatching(chars, pos + 1, "`") then InlineCodeAt(chars, pos) else Char('`', pos + 1)
    else if At(chars, pos, "[") then LinkAt(alphanumeric, chars, pos)
    else if delimiter.Some? then
      if CanOpen(alphanumeric, chars, pos, delimiter.value) then GroupAt(alphanumeric, chars, pos, delimiter.value)
      else Char(chars[pos], pos + 1)
    else if At(chars, pos, "\\") then
      if pos + 1 < |chars| then Char(chars[pos + 1], pos + 2) else Char('\\', pos + 1)
    else if HeadingAt(chars, pos) then ParseHeading(alphanumeric, chars, pos)
    else Char(chars[pos], pos + 1)
  }

  function Flushed(nodes: seq<Node>, text: string): seq<Node> {
    if text == "" then nodes else nodes + [Text(text)]
  }

  /** The nodes and the pending text after a turn. */
  function Gather(turn: Turn, nodes: seq<Node>, text: string): (seq<Node>, string) {
    match turn
    case Char(c, next) => (nodes, text + [c])
    case Bracket => (Flushed(nodes, text), "[")
    case Piece(node, next) => (Flushed(nodes, text) + [node], "")
  }

  function NextPos(turn: Turn, pos: nat): nat {
    if turn.Bracket? then pos + 1 else turn.next
  }

  /** `parse_nodes` from `pos`, with the nodes and the pending text gathered so far, and where it stops. */
  function ParseFrom(alphanumeric: set<char>, chars: string, pos: nat, delimiters: seq<string>, nodes: seq<Node>,
                     text: string): (r: (seq<Node>, nat))
    requires pos <= |chars|
    ensures pos <= r.1 <= |chars|
    ensures r.1 == |chars| || AtAny(chars, r.1, delimiters)
    decreases |chars| - pos, 2
  {
    if pos == |chars| || AtAny(chars, pos, delimiters) then (Flushed(nodes, text), pos)
    else
      var turn := TurnAt(alphanumeric, chars, pos);
      var (gathered, pending) := Gather(turn, nodes, text);
      ParseFrom(alphanumeric, chars, NextPos(turn, pos), delimiters, gathered, pending)
  }

  function Parse(alphanumeric: set<char>, input: string): seq<Node> {
    ParseFrom(alphanumeric, input, 0, [], [], "").0
  }

  // ---------- characters without meaning ----------

  /** A character that can start no markup. */
  predicate Ordinary(c: char) {
    c !in {'`', '[', ']', '*', '_', '~', '\\', '#'}
  }

  predicate AllOrdinary(s: string) {
    forall i :: 0 <= i < |s| ==> Ordinary(s[i])
  }

  lemma {:induction false} OrdinaryTurn(alphanumeric: set<char>, chars: string, pos: nat)
    requires pos < |chars| && Ordinary(chars[pos])
    ensures TurnAt(alphanumeric, chars, pos) == Char(chars[pos], pos + 1)
  {
    NotAt(chars, pos, "```");
    NotAt(chars, pos, "`");
    NotAt(chars, pos, "[");
    NotAt(chars, pos, "**");
    NotAt(chars, pos, "__");
    NotAt(chars, pos, "*");
    NotAt(chars, pos, "_");
    NotAt(chars, pos, "~~");
    NotAt(chars, pos, "\\");
    NotAt(chars, pos, "#");
    hide At, ParseFrom;
  }

  /** A delimiter that no ordinary character starts. */
  predicate Closers(delimiters: seq<string>) {
    forall d :: d in delimiters ==> d != "" && !Ordinary(d[0])
  }

  lemma {:induction false} NoCloserHere(chars: string, pos: nat, delimiters: seq<string>)
    requires pos < |chars| && Ordinary(chars[pos]) && Closers(delimiters)
    ensures !AtAny(chars, pos, delimiters)
  {
    forall d | d in delimiters ensures !At(chars, pos, d) {
      NotAt(chars, pos, d);
    }
  }
}
