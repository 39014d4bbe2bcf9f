/**
 From Markdown to what the user sees: the visible text of a printed message is the
 text of its nodes, so it is the input with markup struck out.
 */
module MarkdownVisible {
  import opened Text
  import opened MarkdownGrammar
  import opened MarkdownText
  import opened MarkdownPrinter

  function Drop(s: string, n: nat): (r: string)
    ensures |r| <= |s|
  {
    if n <= |s| then s[n..] else ""
  }

  /** The text of a MarkdownV2 message: entities lose their delimiters, code keeps its language, links their target. */
  function Visible(s: string): string
    decreases |s|
  {
    if s == "" then ""
    else if EscapedHead(s) then [s[1]] + Visible(s[2..])
    else if At(s, 0, "```") then
      var newline := Find(s, 3, "\n");
      var (code, rest) := ReadTo('`', Drop(s, newline + 1));
      s[3..newline] + code + Visible(Drop(rest, 2))
    else if s[0] == '`' then
      var (code, rest) := ReadTo('`', s[1..]);
      code + Visible(rest)
    else if At(s, 0, "](") then
      var (url, rest) := ReadTo(')', s[2..]);
      url + Visible(rest)
    else if s[0] in {'*', '_', '~', '[', ']'} then Visible(s[1..])
    else [s[0]] + Visible(s[1..])
  }

  // ---------- printed trees that read back ----------

  /** A character that is neither escaped in print nor a backslash. */
  predicate Inert(c: char) {
    c !in TEXT_SPECIAL && c != '\\'
  }

  /** Every backslash stands before an inert character. */
  predicate BackslashesInert(text: string) {
    forall i :: 0 <= i < |text| && text[i] == '\\' ==> i + 1 < |text| && Inert(text[i + 1])
  }

  predicate IsCode(node: Node) {
    node.InlineCode? || node.CodeBlock?
  }

  /** Text whose backslashes are inert, and languages on one line. */
  predicate Readable(node: Node) {
    match node
    case Text(text) => text != "" && BackslashesInert(text)
    case Bold(children) => AllReadable(children)
    case Italic(children) => AllReadable(children)
    case Underline(children) => AllReadable(children)
    case Strikethrough(children) => AllReadable(children)
    case CodeBlock(lang, code) => '\n' !in lang
    case InlineCode(code) => true
    case Link(children, url) => AllReadable(children)
  }

  /** Empty inline code, which prints as two backticks, is never followed by more code. */
  predicate AllReadable(nodes: seq<Node>) {
    nodes != [] ==>
      && Readable(nodes[0]) && AllReadable(nodes[1..])
      && (nodes[0] == InlineCode("") && |nodes| > 1 ==> !IsCode(nodes[1]))
  }

  /** Text as shown: a backslash before a character with code 1 to 126 goes. */
  function ShownText(text: string): string {
    if text == "" then ""
    else if EscapedHead(text) then [text[1]] + ShownText(text[2..])
    else [text[0]] + ShownText(text[1..])
  }

  function Shown(nodes: seq<Node>): string {
    if nodes == [] then "" else ShownNode(nodes[0]) + Shown(nodes[1..])
  }

  function ShownNode(node: Node): string {
    match node
    case Text(text) => ShownText(text)
    case Bold(children) => Shown(children)
    case Italic(children) => Shown(children)
    case Underline(children) => Shown(children)
    case Strikethrough(children) => Shown(children)
    case CodeBlock(lang, code) => lang + code
    case InlineCode(code) => code
    case Link(children, url) => Shown(children) + url
  }

  predicate NotTick(rest: string) {
    rest == "" || rest[0] != '`'
  }

  lemma {:induction false} VisibleLiteral(c: char, rest: string)
    requires c !in {'\\', '`', '*', '_', '~', '[', ']'}
    ensures Visible([c] + rest) == [c] + Visible(rest)
  {
    var s := [c] + rest;
    assert s[0] == c && s[1..] == rest;
    NotAt(s, 0, "```");
    NotAt(s, 0, "](");
  }

  lemma {:induction false} VisibleEscaped(c: char, rest: string)
    requires 1 <= c as int <= 126
    ensures Visible(['\\', c] + rest) == [c] + Visible(rest)
  {
    assert (['\\', c] + rest)[2..] == rest;
  }

  lemma {:induction false} VisibleMark(c: char, rest: string)
    requires c in {'*', '_', '~', '['}
    ensures Visible([c] + rest) == Visible(rest)
  {
    var s := [c] + rest;
    assert s[0] == c && s[1..] == rest;
    NotAt(s, 0, "```");
    NotAt(s, 0, "](");
  }

  /** A backslash before anything else is ordinary. */
  lemma {:induction false} VisibleBackslash(rest: string)
    requires rest == "" || !(1 <= rest[0] as int <= 126)
    ensures Visible(['\\'] + rest) == ['\\'] + Visible(rest)
  {
    var s := ['\\'] + rest;
    assert s[0] == '\\' && s[1..] == rest && (rest != "" ==> s[1] == rest[0]);
    NotAt(s, 0, "```");
    NotAt(s, 0, "](");
  }

  lemma {:induction false} BackslashesInertTail(text: string, n: nat)
    requires n <= |text| && BackslashesInert(text)
    ensures BackslashesInert(text[n..])
  {
    var tail := text[n..];
    forall i | 0 <= i < |tail| && tail[i] == '\\' ensures i + 1 < |tail| && Inert(tail[i + 1]) {
      assert text[n + i] == '\\';
    }
  }

  lemma {:induction false} VisibleText(text: string, rest: string)
    requires BackslashesInert(text)
    ensures Visible(Escape(TEXT_SPECIAL, text) + rest) == ShownText(text) + Visible(rest)
    decreases |text|, 1
  {
    if text == "" {
      assert "" + rest == rest && "" + Visible(rest) == Visible(rest);
    } else {
      BackslashesInertTail(text, 1);
      assert text[0] == '\\' ==> |text| > 1 && Inert(text[1]);
      hide Visible, Inert, BackslashesInert, Escape, ShownText;
      if text[0] == '\\' {
        VisibleTextBackslash(text, rest);
      } else {
        VisibleText(text[1..], rest);
        VisibleTextChar(text, rest);
      }
    }
  }

  lemma {:induction false} SpecialOrLiteral(c: char)
    ensures c in TEXT_SPECIAL ==> 1 <= c as int <= 126
    ensures c !in TEXT_SPECIAL && c != '\\' ==> c !in {'\\', '`', '*', '_', '~', '[', ']'}
  {
  }

  lemma {:induction false} VisibleTextChar(text: string, rest: string)
    requires text != "" && text[0] != '\\'
    requires Visible(Escape(TEXT_SPECIAL, text[1..]) + rest) == ShownText(text[1..]) + Visible(rest)
    ensures Visible(Escape(TEXT_SPECIAL, text) + rest) == ShownText(text) + Visible(rest)
  {
    var c, tail := text[0], Escape(TEXT_SPECIAL, text[1..]);
    assert Escape(TEXT_SPECIAL, text) == EscapeChar(TEXT_SPECIAL, c) + tail;
    assert ShownText(text) == [c] + ShownText(text[1..]);
    SpecialOrLiteral(c);
    hide Visible, Escape, ShownText, TEXT_SPECIAL;
    ConcatAssociates(EscapeChar(TEXT_SPECIAL, c), tail, rest);
    ConcatAssociates([c], ShownText(text[1..]), Visible(rest));
    if c in TEXT_SPECIAL {
      VisibleEscaped(c, tail + rest);
    } else {
      VisibleLiteral(c, tail + rest);
    }
  }

  lemma {:induction false} VisibleTextBackslash(text: string, rest: string)
    requires |text| > 1 && text[0] == '\\' && Inert(text[1]) && BackslashesInert(text)
    ensures Visible(Escape(TEXT_SPECIAL, text) + rest) == ShownText(text) + Visible(rest)
    decreases |text|, 0
  {
    var d, tail := text[1], Escape(TEXT_SPECIAL, text[2..]);
    EscapeTextHead(text);
    EscapeTextHead(text[1..]);
    assert text[1..][1..] == text[2..] && text[1..][0] == d;
    var printed := Escape(TEXT_SPECIAL, text) + rest;
    var after := Escape(TEXT_SPECIAL, text[1..]) + rest;
    assert printed == ['\\'] + after && after == [d] + (tail + rest);
    BackslashesInertTail(text, 1);
    BackslashesInertTail(text, 2);
    hide Visible, BackslashesInert, Escape, Inert;
    if EscapedHead(text) {
      VisibleText(text[2..], rest);
      assert printed == ['\\', d] + (tail + rest);
      VisibleEscaped(d, tail + rest);
      ConcatAssociates([d], ShownText(text[2..]), Visible(rest));
    } else {
      VisibleText(text[1..], rest);
      VisibleBackslash(after);
      ConcatAssociates(['\\'], ShownText(text[1..]), Visible(rest));
    }
  }

  /** Inline code shows its content; empty code must not be followed by a backtick, or it would read as a fence. */
  lemma {:induction false} VisibleInlineCode(code: string, rest: string)
    requires code == "" ==> NotTick(rest)
    ensures Visible(Print(InlineCode(code)) + rest) == code + Visible(rest)
  {
    var escaped := Escape(CODE_SPECIAL, code);
    var s := Print(InlineCode(code)) + rest;
    var tail := escaped + "`" + rest;
    assert s == "`" + tail;
    assert s[1..] == tail;
    if code == "" {
      assert s == "``" + rest;
      assert |s| > 2 ==> s[2] == rest[0] != "```"[2];
    } else {
      EscapeHead(CODE_SPECIAL, code);
      assert escaped[0] != '`' && s[1] == escaped[0];
      assert s[1] != "```"[1];
    }
    assert !At(s, 0, "```");
    NotAt(s, 0, "](");
    assert !EscapedHead(s);
    hide Visible;
    CodeReadsBack(code, rest);
    assert ReadTo('`', s[1..]) == (code, rest);
    VisibleInline(s, code, rest);
  }

  lemma {:induction false} VisibleInline(s: string, code: string, rest: string)
    requires |s| > 0 && s[0] == '`' && !At(s, 0, "```") && ReadTo('`', s[1..]) == (code, rest)
    ensures Visible(s) == code + Visible(rest)
  {
    hide At, ReadTo;
  }

  lemma {:induction false} VisibleFence(s: string, newline: nat, code: string, rest: string)
    requires At(s, 0, "```") && Find(s, 3, "\n") == newline < |s|
    requires ReadTo('`', s[newline + 1..]) == (code, rest)
    ensures Visible(s) == s[3..newline] + code + Visible(Drop(rest, 2))
  {
    assert s[0 + 0] == "```"[0];
    hide At, ReadTo, Find;
    assert !EscapedHead(s);
    assert Drop(s, newline + 1) == s[newline + 1..];
  }

  lemma {:induction false} FindNewline(s: string, from: nat, lang: string, tail: string)
    requires from <= |s| && s[from..] == lang + "\n" + tail && '\n' !in lang
    ensures Find(s, from, "\n") == from + |lang| < |s|
  {
    var n := from + |lang|;
    assert s[n] == s[from..][|lang|] == '\n';
    assert At(s, n, "\n");
    forall j | from <= j < n ensures !At(s, j, "\n") {
      assert s[j] == s[from..][j - from] == lang[j - from];
      NotAt(s, j, "\n");
    }
  }

  lemma {:induction false} VisibleCodeBlock(lang: string, code: string, rest: string)
    requires '\n' !in lang
    ensures Visible(Print(CodeBlock(lang, code)) + rest) == lang + code + Visible(rest)
  {
    hide Visible, Escape;
    var escaped := Escape(CODE_SPECIAL, code);
    var s := Print(CodeBlock(lang, code)) + rest;
    var after := escaped + "`" + ("``" + rest);
    var newline := 3 + |lang|;
    assert s == "```" + lang + "\n" + after;
    assert s[3..] == lang + "\n" + after;
    FindNewline(s, 3, lang, after);
    assert s[newline + 1..] == after && s[3..newline] == lang;
    CodeReadsBack(code, "``" + rest);
    VisibleFence(s, newline, code, "``" + rest);
    assert Drop("``" + rest, 2) == rest;
  }

  lemma {:induction false} VisibleLinkEnd(url: string, rest: string)
    ensures Visible("](" + Escape(URL_SPECIAL, url) + ")" + rest) == url + Visible(rest)
  {
    var tail := Escape(URL_SPECIAL, url) + ")" + rest;
    var s := "](" + Escape(URL_SPECIAL, url) + ")" + rest;
    assert s == "](" + tail;
    assert s[2..] == tail && At(s, 0, "](");
    NotAt(s, 0, "```");
    hide Escape;
    UrlReadsBack(url, rest);
    VisibleUrl(s, url, rest);
  }

  lemma {:induction false} VisibleUrl(s: string, url: string, rest: string)
    requires |s| > 1 && s[0] == ']' && At(s, 0, "](") && !At(s, 0, "```") && ReadTo(')', s[2..]) == (url, rest)
    ensures Visible(s) == url + Visible(rest)
  {
    hide At, ReadTo;
  }

  /** One or two marks on each side of a print show nothing themselves. */
  lemma {:induction false} VisibleMarks(mark: string, rest: string)
    requires mark in {"*", "_", "__", "~", "["}
    ensures Visible(mark + rest) == Visible(rest)
  {
    hide Visible;
    VisibleMark(mark[0], rest);
    if mark == "__" {
      VisibleMark('_', ['_'] + rest);
      assert mark + rest == ['_'] + (['_'] + rest);
    } else {
      assert mark == [mark[0]];
    }
  }

  lemma {:induction false} VisibleGroup(mark: string, children: seq<Node>, rest: string)
    requires mark in {"*", "_", "__", "~"} && AllReadable(children)
    ensures Visible(mark + PrintAll(children) + mark + rest) == Shown(children) + Visible(rest)
    decreases children, 1
  {
    hide Visible, PrintAll, Shown, AllReadable;
    assert mark + PrintAll(children) + mark + rest == mark + (PrintAll(children) + (mark + rest));
    VisibleMarks(mark, PrintAll(children) + (mark + rest));
    VisibleAll(children, mark + rest);
    VisibleMarks(mark, rest);
  }

  lemma {:induction false} VisibleLink(children: seq<Node>, url: string, rest: string)
    requires AllReadable(children)
    ensures Visible("[" + PrintAll(children) + "](" + Escape(URL_SPECIAL, url) + ")" + rest)
            == Shown(children) + url + Visible(rest)
    decreases children, 1
  {
    hide Visible, PrintAll, Shown, AllReadable, Escape;
    var end := "](" + Escape(URL_SPECIAL, url) + ")" + rest;
    assert "[" + PrintAll(children) + "](" + Escape(URL_SPECIAL, url) + ")" + rest == "[" + (PrintAll(children) + end);
    VisibleMarks("[", PrintAll(children) + end);
    VisibleAll(children, end);
    VisibleLinkEnd(url, rest);
    ConcatAssociates(Shown(children), url, Visible(rest));
  }

  lemma {:induction false} VisibleNode(node: Node, rest: string)
    requires Readable(node) && (node == InlineCode("") ==> NotTick(rest))
    ensures Visible(Print(node) + rest) == ShownNode(node) + Visible(rest)
    decreases node
  {
    hide Visible, PrintAll, Shown, AllReadable, Escape, BackslashesInert, NotTick;
    match node
    case Text(text) => VisibleText(text, rest);
    case Bold(children) => VisibleGroup("*", children, rest);
    case Italic(children) => VisibleGroup("_", children, rest);
    case Underline(children) => VisibleGroup("__", children, rest);
    case Strikethrough(children) => VisibleGroup("~", children, rest);
    case CodeBlock(lang, code) => VisibleCodeBlock(lang, code, rest);
    case InlineCode(code) => VisibleInlineCode(code, rest);
    case Link(children, url) => VisibleLink(children, url, rest);
  }

  /** Only code prints a backtick first. */
  lemma {:induction false} PrintHead(node: Node, rest: string)
    requires Readable(node) && !IsCode(node)
    ensures Print(node) != "" && NotTick(Print(node) + rest)
  {
    hide PrintAll, AllReadable;
    match node
    case Text(text) => EscapeTextHead(text);
    case _ =>
  }

  lemma {:induction false} VisibleAll(nodes: seq<Node>, rest: string)
    requires AllReadable(nodes) && NotTick(rest)
    ensures Visible(PrintAll(nodes) + rest) == Shown(nodes) + Visible(rest)
    decreases nodes, 0
  {
    if nodes == [] {
      assert "" + rest == rest && "" + Visible(rest) == Visible(rest);
    } else {
      hide Visible, Readable, Print, ShownNode;
      var after := PrintAll(nodes[1..]) + rest;
      VisibleAll(nodes[1..], rest);
      if nodes[0] == InlineCode("") && |nodes| > 1 {
        PrintHead(nodes[1], PrintAll(nodes[2..]) + rest);
        assert nodes[1..][0] == nodes[1] && nodes[1..][1..] == nodes[2..];
        ConcatAssociates(Print(nodes[1]), PrintAll(nodes[2..]), rest);
      } else {
        assert |nodes| == 1 ==> after == rest;
      }
      VisibleNode(nodes[0], after);
      ConcatAssociates(Print(nodes[0]), PrintAll(nodes[1..]), rest);
      ConcatAssociates(ShownNode(nodes[0]), Shown(nodes[1..]), Visible(rest));
    }
  }

  // ---------- parsed trees are readable ----------

  /** Position `i` is on a line that starts with a run of `#` and a space. */
  predicate OnHeadingLine(s: string, i: nat) {
    exists p :: 0 <= p <= i < |s| && HeadingAt(s, p) && '\n' !in s[p..i]
  }

  /** What follows a backslash at `i`: on a heading line no newline, and after a second backslash an inert character. */
  predicate EscapeOk(s: string, i: nat) {
    && i + 1 < |s|
    && (s[i + 1] == '\n' ==> !OnHeadingLine(s, i))
    && (s[i + 1] == '\\' ==> i + 2 < |s| && Inert(s[i + 2]))
  }

  predicate WellEscaped(s: string) {
    forall i :: 0 <= i < |s| && s[i] == '\\' ==> EscapeOk(s, i)
  }

  /** Pending text: a backslash at its end waits for an inert character of the input. */
  predicate PendingOk(chars: string, pos: nat, text: string) {
    && (forall i :: 0 <= i < |text| - 1 && text[i] == '\\' ==> Inert(text[i + 1]))
    && (EndsInBackslash(text) ==> pos < |chars| && Inert(chars[pos]))
  }

  predicate EndsInBackslash(text: string) {
    text != "" && text[|text| - 1] == '\\'
  }

  /** Directly after empty inline code no backtick stands. */
  predicate EmptyCodeOk(chars: string, pos: nat, nodes: seq<Node>, text: string) {
    text == "" && nodes != [] && nodes[|nodes| - 1] == InlineCode("") ==> pos >= |chars| || chars[pos] != '`'
  }

  predicate GatheredOk(chars: string, pos: nat, nodes: seq<Node>, text: string) {
    AllReadable(nodes) && PendingOk(chars, pos, text) && EmptyCodeOk(chars, pos, nodes, text)
  }

  lemma {:induction false} ReadableAppend(nodes: seq<Node>, node: Node)
    requires AllReadable(nodes) && Readable(node)
    requires nodes != [] && nodes[|nodes| - 1] == InlineCode("") ==> !IsCode(node)
    ensures AllReadable(nodes + [node])
  {
    if nodes == [] {
      assert nodes + [node] == [node] && [node][1..] == [];
    } else {
      var all := nodes + [node];
      assert all[0] == nodes[0] && all[1..] == nodes[1..] + [node];
      assert |nodes| > 1 ==> nodes[1..][|nodes| - 2] == nodes[|nodes| - 1] && all[1] == nodes[1];
      hide Readable;
      ReadableAppend(nodes[1..], node);
    }
  }

  lemma {:induction false} FlushReadable(chars: string, pos: nat, nodes: seq<Node>, text: string)
    requires AllReadable(nodes) && PendingOk(chars, pos, text) && !EndsInBackslash(text)
    ensures AllReadable(Flushed(nodes, text))
  {
    if text != "" {
      assert Readable(Node.Text(text));
      ReadableAppend(nodes, Node.Text(text));
    }
  }

  /** What a turn may add, seen from where it starts. */
  predicate TurnOk(chars: string, pos: nat, turn: Turn)
    requires pos < |chars|
  {
    match turn
    case Char(c, next) =>
      || (c == chars[pos] && c != '\\' && next == pos + 1)
      || (chars[pos] == '\\' && pos + 1 < |chars| && c == chars[pos + 1] && next == pos + 2)
    case Bracket => chars[pos] == '['
    case Piece(node, next) =>
      && !Inert(chars[pos]) && Readable(node) && (IsCode(node) ==> chars[pos] == '`')
      && (node == InlineCode("") ==> next >= |chars| || chars[next] != '`')
  }

  lemma {:induction false} GatherOk(chars: string, pos: nat, turn: Turn, nodes: seq<Node>, text: string)
    requires pos < |chars| && WellEscaped(chars) && GatheredOk(chars, pos, nodes, text) && TurnOk(chars, pos, turn)
    ensures var (gathered, pending) := Gather(turn, nodes, text);
            GatheredOk(chars, NextPos(turn, pos), gathered, pending)
  {
    match turn
    case Char(c, next) =>
      CharOk(chars, pos, c, next, text);
    case Bracket =>
      FlushReadable(chars, pos, nodes, text);
    case Piece(node, next) =>
      FlushReadable(chars, pos, nodes, text);
      ReadableAppend(Flushed(nodes, text), node);
  }

  lemma {:induction false} CharOk(chars: string, pos: nat, c: char, next: nat, text: string)
    requires pos < |chars| && WellEscaped(chars) && PendingOk(chars, pos, text) && TurnOk(chars, pos, Char(c, next))
    ensures PendingOk(chars, next, text + [c])
  {
    var longer := text + [c];
    forall i | 0 <= i < |longer| - 1 && longer[i] == '\\' ensures Inert(longer[i + 1]) {
      if i == |text| - 1 {
        assert EndsInBackslash(text);
      } else {
        assert text[i] == '\\';
      }
    }
  }

  lemma {:induction false} CodeBlockOneLine(chars: string, pos: nat)
    requires At(chars, pos, "```")
    ensures '\n' !in CodeBlockAt(chars, pos).node.lang
  {
    var newline := Find(chars, pos + 3, "\n");
    var lang := chars[pos + 3..newline];
    forall i | 0 <= i < |lang| ensures lang[i] != '\n' {
      NewlineAt(chars, pos + 3 + i);
    }
    TrimTrims(lang);
  }

  lemma {:induction false} EmptyCodeEnds(chars: string, pos: nat)
    requires At(chars, pos, "`") && !At(chars, pos, "```") && HasMatching(chars, pos + 1, "`")
    ensures var t := InlineCodeAt(chars, pos);
            t.node == InlineCode("") ==> t.next >= |chars| || chars[t.next] != '`'
  {
    var end := Find(chars, pos + 1, "`");
    var i :| pos + 1 <= i < |chars| && Closes(chars, pos + 1, "`", i);
    assert chars[pos + 0] == "`"[0] && (end < |chars| ==> chars[end + 0] == "`"[0]);
    assert !At(chars, pos, "```") ==> pos + 2 >= |chars| || chars[pos + 1] != '`' || chars[pos + 2] != '`';
  }

  lemma {:induction false} LineWellEscaped(chars: string, pos: nat, start: nat, end: nat)
    requires pos <= start <= end <= |chars| && pos < |chars| && HeadingAt(chars, pos) && '\n' !in chars[pos..end]
    requires WellEscaped(chars) && (end < |chars| ==> chars[end] == '\n')
    ensures WellEscaped(chars[start..end])
  {
    var line := chars[start..end];
    forall i | 0 <= i < |line| && line[i] == '\\' ensures EscapeOk(line, i) {
      assert chars[start + i] == '\\';
      HeadingGoesOn(chars, pos, start + i, end);
      if i + 1 < |line| {
        assert line[i + 1] == chars[pos..end][start + i + 1 - pos];
        if line[i + 1] == '\\' {
          assert chars[start + i + 1] == '\\';
          HeadingGoesOn(chars, pos, start + i + 1, end);
        }
      }
    }
  }

  lemma {:induction false} HeadingGoesOn(chars: string, pos: nat, i: nat, end: nat)
    requires pos <= i < end <= |chars| && HeadingAt(chars, pos) && '\n' !in chars[pos..end]
    ensures OnHeadingLine(chars, i)
  {
    assert chars[pos..i] == chars[pos..end][..i - pos];
  }

  /** A heading's hashes and line hold no newline. */
  lemma {:induction false} HeadingLine(chars: string, pos: nat)
    requires pos < |chars| && HeadingAt(chars, pos)
    ensures pos + Hashes(chars, pos) + 1 <= |chars|
    ensures var end := Find(chars, pos + Hashes(chars, pos) + 1, "\n");
            '\n' !in chars[pos..end] && (end < |chars| ==> chars[end] == '\n')
  {
    var start := pos + Hashes(chars, pos) + 1;
    assert chars[start - 1] == chars[start - 1 + 0] == " "[0];
    var end := Find(chars, start, "\n");
    if end < |chars| {
      NewlineAt(chars, end);
    }
    forall k | pos <= k < end ensures chars[k] != '\n' {
      if k >= start {
        NewlineAt(chars, k);
      }
    }
  }

  /** Delimiters that no inert character starts. */
  predicate Sharp(delimiters: seq<string>) {
    forall d :: d in delimiters ==> d != "" && !Inert(d[0])
  }

  lemma {:induction false} NotAtInert(chars: string, pos: nat, delimiters: seq<string>)
    requires pos < |chars| && Inert(chars[pos]) && Sharp(delimiters)
    ensures !AtAny(chars, pos, delimiters)
  {
    forall d | d in delimiters ensures !At(chars, pos, d) {
      NotAt(chars, pos, d);
    }
  }

  lemma {:induction false} TurnReadable(alphanumeric: set<char>, chars: string, pos: nat)
    requires pos < |chars| && WellEscaped(chars)
    ensures TurnOk(chars, pos, TurnAt(alphanumeric, chars, pos))
    decreases |chars| - pos, 1
  {
    hide ParseFrom, CodeBlockAt, InlineCodeAt, LinkAt, GroupAt, ParseHeading, Find, Hashes, CanOpen, HasMatching,
      Readable;
    var delimiter := DelimiterAt(chars, pos);
    if At(chars, pos, "```") {
      assert chars[pos + 0] == "```"[0];
      CodeBlockReadable(chars, pos);
    } else if At(chars, pos, "`") {
      assert chars[pos + 0] == "`"[0];
      InlineCodeReadable(chars, pos);
    } else if At(chars, pos, "[") {
      assert chars[pos + 0] == "["[0];
      LinkReadable(alphanumeric, chars, pos);
    } else if delimiter.Some? {
      assert chars[pos + 0] == delimiter.value[0];
      GroupReadable(alphanumeric, chars, pos, delimiter.value);
    } else if At(chars, pos, "\\") {
      assert chars[pos + 0] == "\\"[0];
    } else {
      NotBackslash(chars, pos);
      if HeadingAt(chars, pos) {
        assert chars[pos + 0] == "#"[0];
        HeadingReadable(alphanumeric, chars, pos);
      }
    }
  }

  lemma {:induction false} NotBackslash(chars: string, pos: nat)
    requires pos < |chars| && !At(chars, pos, "\\")
    ensures chars[pos] != '\\'
  {
    assert "\\"[0] == '\\';
  }

  lemma {:induction false} CodeBlockReadable(chars: string, pos: nat)
    requires At(chars, pos, "```")
    ensures Readable(CodeBlockAt(chars, pos).node) && CodeBlockAt(chars, pos).node.CodeBlock?
  {
    CodeBlockOneLine(chars, pos);
  }

  lemma {:induction false} InlineCodeReadable(chars: string, pos: nat)
    requires At(chars, pos, "`") && !At(chars, pos, "```")
    ensures var t := InlineCodeAt(chars, pos);
            && Readable(t.node) && t.node.InlineCode?
            && (HasMatching(chars, pos + 1, "`") && t.node == InlineCode("") ==>
                  t.next >= |chars| || chars[t.next] != '`')
  {
    if HasMatching(chars, pos + 1, "`") {
      EmptyCodeEnds(chars, pos);
    }
  }

  lemma {:induction false} NothingGathered(chars: string, pos: nat)
    ensures GatheredOk(chars, pos, [], "")
  {
  }

  lemma {:induction false} LinkReadable(alphanumeric: set<char>, chars: string, pos: nat)
    requires At(chars, pos, "[") && WellEscaped(chars)
    ensures var t := LinkAt(alphanumeric, chars, pos);
            t.Piece? ==> Readable(t.node) && t.node.Link?
    decreases |chars| - pos, 0
  {
    hide ParseFrom, Find, AllReadable, WellEscaped, GatheredOk;
    NothingGathered(chars, pos + 1);
    assert !Inert(']');
    ParseReadable(alphanumeric, chars, pos + 1, ["]"], [], "");
  }

  lemma {:induction false} GroupReadable(alphanumeric: set<char>, chars: string, pos: nat, delimiter: string)
    requires IsDelimiter(delimiter) && At(chars, pos, delimiter) && WellEscaped(chars)
    ensures var t := GroupAt(alphanumeric, chars, pos, delimiter);
            Readable(t.node) && !IsCode(t.node) && !Inert(delimiter[0])
    decreases |chars| - pos, 0
  {
    hide ParseFrom, AllReadable, WellEscaped, GatheredOk;
    NothingGathered(chars, pos + |delimiter|);
    assert !Inert('*') && !Inert('_') && !Inert('~');
    ParseReadable(alphanumeric, chars, pos + |delimiter|, [delimiter], [], "");
  }

  lemma {:induction false} HeadingReadable(alphanumeric: set<char>, chars: string, pos: nat)
    requires pos < |chars| && HeadingAt(chars, pos) && WellEscaped(chars)
    ensures var t := ParseHeading(alphanumeric, chars, pos);
            Readable(t.node) && !IsCode(t.node)
    decreases |chars| - pos, 0
  {
    hide ParseFrom, AllReadable, WellEscaped, GatheredOk, Hashes;
    HeadingLine(chars, pos);
    var start := pos + Hashes(chars, pos) + 1;
    var end := Find(chars, start, "\n");
    LineWellEscaped(chars, pos, start, end);
    NothingGathered(chars[start..end], 0);
    hide Find;
    ParseReadable(alphanumeric, chars[start..end], 0, [], [], "");
  }

  /** For a well-escaped input the parser gathers readable trees only. */
  lemma {:induction false} ParseReadable(alphanumeric: set<char>, chars: string, pos: nat, delimiters: seq<string>,
                                         nodes: seq<Node>, text: string)
    requires pos <= |chars| && WellEscaped(chars) && Sharp(delimiters) && GatheredOk(chars, pos, nodes, text)
    ensures AllReadable(ParseFrom(alphanumeric, chars, pos, delimiters, nodes, text).0)
    decreases |chars| - pos, 2
  {
    hide TurnAt, Gather, AllReadable, WellEscaped, Inert, TurnOk;
    if pos == |chars| || AtAny(chars, pos, delimiters) {
      if EndsInBackslash(text) {
        NotAtInert(chars, pos, delimiters);
      }
      FlushReadable(chars, pos, nodes, text);
    } else {
      hide AtAny, GatheredOk, Sharp;
      var turn := TurnAt(alphanumeric, chars, pos);
      TurnReadable(alphanumeric, chars, pos);
      GatherOk(chars, pos, turn, nodes, text);
      var (gathered, pending) := Gather(turn, nodes, text);
      ParseReadable(alphanumeric, chars, NextPos(turn, pos), delimiters, gathered, pending);
    }
  }

  // ---------- what the user sees ----------

  /** `shown` is `flat` with some backslashes gone. */
  predicate Thinned(flat: string, shown: string) {
    if flat == "" then shown == ""
    else
      || (shown != "" && shown[0] == flat[0] && Thinned(flat[1..], shown[1..]))
      || (flat[0] == '\\' && Thinned(flat[1..], shown))
  }

  lemma {:induction false} ThinnedSelf(s: string)
    ensures Thinned(s, s)
  {
    if s != "" {
      ThinnedSelf(s[1..]);
    }
  }

  lemma {:induction false} ThinnedConcat(a: string, x: string, b: string, y: string)
    requires Thinned(a, x) && Thinned(b, y)
    ensures Thinned(a + b, x + y)
    decreases |a|
  {
    if a == "" {
      assert a + b == b && x + y == y;
    } else {
      assert (a + b)[0] == a[0] && (a + b)[1..] == a[1..] + b;
      if x != "" && x[0] == a[0] && Thinned(a[1..], x[1..]) {
        ThinnedConcat(a[1..], x[1..], b, y);
        assert (x + y)[0] == x[0] && (x + y)[1..] == x[1..] + y;
      } else {
        ThinnedConcat(a[1..], x, b, y);
      }
    }
  }

  lemma {:induction false} ThinnedStrikes(flat: string, shown: string)
    requires Thinned(flat, shown)
    ensures Strikes(flat, shown)
    decreases |flat|
  {
    if flat != "" {
      if shown != "" && shown[0] == flat[0] && Thinned(flat[1..], shown[1..]) {
        ThinnedStrikes(flat[1..], shown[1..]);
      } else {
        ThinnedStrikes(flat[1..], shown);
      }
    }
  }

  lemma {:induction false} ShownTextThinned(text: string)
    ensures Thinned(text, ShownText(text))
  {
    if text != "" {
      if EscapedHead(text) {
        ShownTextThinned(text[2..]);
        assert text[1..][1..] == text[2..] && text[1..][0] == text[1];
        var shown := ShownText(text);
        assert shown[1..] == ShownText(text[2..]) && shown[0] == text[1];
        assert Thinned(text[1..], shown);
      } else {
        ShownTextThinned(text[1..]);
        assert ShownText(text)[1..] == ShownText(text[1..]);
      }
    }
  }

  lemma {:induction false} ShownNodeThinned(node: Node)
    ensures Thinned(FlatNode(node), ShownNode(node))
    decreases node
  {
    hide Thinned, Shown, Flat;
    match node
    case Text(text) => ShownTextThinned(text);
    case Bold(children) => ShownThinned(children);
    case Italic(children) => ShownThinned(children);
    case Underline(children) => ShownThinned(children);
    case Strikethrough(children) => ShownThinned(children);
    case CodeBlock(lang, code) => ThinnedSelf(lang + code);
    case InlineCode(code) => ThinnedSelf(code);
    case Link(children, url) =>
      ShownThinned(children);
      ThinnedSelf(url);
      ThinnedConcat(Flat(children), Shown(children), url, url);
  }

  lemma {:induction false} ShownThinned(nodes: seq<Node>)
    ensures Thinned(Flat(nodes), Shown(nodes))
    decreases nodes
  {
    if nodes != [] {
      hide Thinned, FlatNode, ShownNode;
      ShownNodeThinned(nodes[0]);
      ShownThinned(nodes[1..]);
      ThinnedConcat(FlatNode(nodes[0]), ShownNode(nodes[0]), Flat(nodes[1..]), Shown(nodes[1..]));
    }
  }

  /** What the user sees of a message in Markdown. */
  function Seen(alphanumeric: set<char>, input: string): string {
    Visible(PrintAll(Parse(alphanumeric, input)))
  }

  /** Nothing is added or reordered, and nothing but markup is lost. */
  predicate Faithful(input: string, seen: string) {
    Subsequence(seen, input) && Plain(seen) == Plain(input)
  }

  lemma {:induction false} VisibleNothing()
    ensures Visible("") == ""
  {
  }

  /** What is seen of a readable tree is its text, but for the backslashes that escape a character in print. */
  lemma {:induction false} SeenIsShown(nodes: seq<Node>)
    requires AllReadable(nodes)
    ensures Visible(PrintAll(nodes)) == Shown(nodes)
  {
    hide Visible, PrintAll, Shown, AllReadable;
    VisibleAll(nodes, "");
    VisibleNothing();
    assert PrintAll(nodes) + "" == PrintAll(nodes) && Shown(nodes) + "" == Shown(nodes);
  }

  /**
   End to end: for every input that parses to a readable tree, what the user sees is
   the input with markup struck out, whitespace going only next to heading hashes and
   fences, and with some of the backslashes left.
   */
  lemma {:induction false} UserSeesTheInput(alphanumeric: set<char>, input: string)
    requires AllReadable(Parse(alphanumeric, input))
    ensures var text := Flat(Parse(alphanumeric, input));
            && Struck(input, 0, |input|, text) && Thinned(text, Seen(alphanumeric, input))
            && Faithful(input, Seen(alphanumeric, input))
  {
    hide Visible, PrintAll, Flat, ParseFrom, Subsequence, Plain, Struck, Strikes, Thinned, AllReadable;
    var nodes := Parse(alphanumeric, input);
    ParseKeepsText(alphanumeric, input);
    SeenIsShown(nodes);
    ShownThinned(nodes);
    ThinnedStrikes(Flat(nodes), Shown(nodes));
    StruckStrikes(input, 0, |input|, Flat(nodes));
    assert input[0..|input|] == input;
    StrikesTransitive(input, Flat(nodes), Shown(nodes));
    StrikesMeans(input, Shown(nodes));
  }

  /** A well-escaped input is one of these, wherever its letters and its markup are. */
  lemma {:induction false} WellEscapedIsSeen(alphanumeric: set<char>, input: string)
    requires WellEscaped(input)
    ensures AllReadable(Parse(alphanumeric, input)) && Faithful(input, Seen(alphanumeric, input))
  {
    hide ParseFrom, AllReadable, WellEscaped, GatheredOk, Faithful, Seen, Struck, Thinned;
    NothingGathered(input, 0);
    ParseReadable(alphanumeric, input, 0, [], [], "");
    UserSeesTheInput(alphanumeric, input);
  }
}
