/**
 What the ordinary uses of Markdown convert to: a styled phrase, inline code, a code
 block, a link or a heading, in text where nothing else starts markup.
 */
module MarkdownConversion {
  import opened Text
  import opened MarkdownGrammar
  import opened MarkdownPrinter
  import opened MarkdownLiteral

  /** How MarkdownV2 marks what the delimiter marks in Markdown. */
  function Mark(delimiter: string): string {
    match delimiter
    case "**" => "*"
    case "__" => "__"
    case "~~" => "~"
    case _ => "_"
  }

  lemma {:induction false} OrdinaryStep(alphanumeric: set<char>, chars: string, pos: nat, delimiters: seq<string>,
                                        nodes: seq<Node>, text: string)
    requires pos < |chars| && Ordinary(chars[pos]) && Closers(delimiters)
    ensures ParseFrom(alphanumeric, chars, pos, delimiters, nodes, text)
         == ParseFrom(alphanumeric, chars, pos + 1, delimiters, nodes, text + [chars[pos]])
  {
    NoCloserHere(chars, pos, delimiters);
    OrdinaryTurn(alphanumeric, chars, pos);
    hide TurnAt, AtAny, Ordinary, Closers;
  }

  /** A stretch of ordinary characters joins the pending text. */
  lemma {:induction false} OrdinaryRun(alphanumeric: set<char>, chars: string, pos: nat, end: nat,
                                       delimiters: seq<string>, nodes: seq<Node>, text: string)
    requires pos <= end <= |chars| && AllOrdinary(chars[pos..end]) && Closers(delimiters)
    ensures ParseFrom(alphanumeric, chars, pos, delimiters, nodes, text)
         == ParseFrom(alphanumeric, chars, end, delimiters, nodes, text + chars[pos..end])
    decreases end - pos
  {
    hide ParseFrom, Ordinary, Closers;
    if pos == end {
      assert text + chars[pos..end] == text;
    } else {
      assert chars[pos..end][0] == chars[pos] && chars[pos..end][1..] == chars[pos + 1..end];
      OrdinaryStep(alphanumeric, chars, pos, delimiters, nodes, text);
      OrdinaryRun(alphanumeric, chars, pos + 1, end, delimiters, nodes, text + [chars[pos]]);
      assert text + chars[pos..end] == (text + [chars[pos]]) + chars[pos + 1..end];
    }
  }

  /** Ordinary text up to the end, or up to a delimiter, is one text node. */
  lemma {:induction false} OrdinaryText(alphanumeric: set<char>, chars: string, pos: nat, end: nat,
                                        delimiters: seq<string>)
    requires pos < end <= |chars| && AllOrdinary(chars[pos..end]) && Closers(delimiters)
    requires end == |chars| || AtAny(chars, end, delimiters)
    ensures ParseFrom(alphanumeric, chars, pos, delimiters, [], "") == ([Node.Text(chars[pos..end])], end)
  {
    OrdinaryRun(alphanumeric, chars, pos, end, delimiters, [], "");
    assert "" + chars[pos..end] == chars[pos..end];
    hide TurnAt, AtAny;
    assert [] + [Node.Text(chars[pos..end])] == [Node.Text(chars[pos..end])];
  }

  /** When the first turn takes the whole input as one node, that is the whole result. */
  lemma {:induction false} OneNode(alphanumeric: set<char>, input: string, node: Node)
    requires input != "" && TurnAt(alphanumeric, input, 0) == Piece(node, |input|)
    ensures Parse(alphanumeric, input) == [node] && ToV2(alphanumeric, input) == Print(node)
  {
    hide TurnAt, Print;
    assert !AtAny(input, 0, []);
    assert [] + [node] == [node];
    assert Gather(Piece(node, |input|), [], "") == ([node], "");
    assert ParseFrom(alphanumeric, input, |input|, [], [node], "") == ([node], |input|);
    assert ParseFrom(alphanumeric, input, 0, [], [], "") == ([node], |input|);
    PrintOne(node);
  }

  /** Text without markup is escaped and nothing else. */
  lemma {:induction false} PlainTextConverts(alphanumeric: set<char>, text: string)
    requires AllOrdinary(text)
    ensures ToV2(alphanumeric, text) == Escape(TEXT_SPECIAL, text)
  {
    if text != "" {
      assert text[0..|text|] == text;
      OrdinaryText(alphanumeric, text, 0, |text|, []);
      hide ParseFrom;
      PrintOne(Node.Text(text));
    }
  }

  // ---------- one construct in a text ----------

  /** Around `x` no character starts markup where it stands. */
  predicate LiteralAround(alphanumeric: set<char>, before: string, x: string, after: string) {
    LiteralOutside(alphanumeric, before + x + after, |before|, |before| + |x|)
  }

  predicate LiteralOutside(alphanumeric: set<char>, chars: string, p: nat, n: nat) {
    forall i :: 0 <= i < |chars| && (i < p || n <= i) ==> LiteralAt(alphanumeric, chars, i)
  }

  /** Between characters that start nothing, a construct taken in one turn is converted on its own. */
  lemma {:induction false} OneNodeBetween(alphanumeric: set<char>, chars: string, p: nat, node: Node, n: nat)
    requires p < n <= |chars| && LiteralOutside(alphanumeric, chars, p, n)
    requires TurnAt(alphanumeric, chars, p) == Piece(node, n)
    ensures ToV2(alphanumeric, chars)
         == Escape(TEXT_SPECIAL, chars[..p]) + Print(node) + Escape(TEXT_SPECIAL, chars[n..])
  {
    assert chars[0..p] == chars[..p] && chars[n..|chars|] == chars[n..];
    hide TurnAt, Print, Escape, LiteralAt, PrintAll;
    LiteralRun(alphanumeric, chars, 0, p);
    RestStep(alphanumeric, chars, p);
    LiteralRun(alphanumeric, chars, n, |chars|);
    NothingRests(alphanumeric, chars);
    assert Escape(TEXT_SPECIAL, chars[n..]) + "" == Escape(TEXT_SPECIAL, chars[n..]);
    ConcatAssociates(Escape(TEXT_SPECIAL, chars[..p]), Print(node), Escape(TEXT_SPECIAL, chars[n..]));
  }

  lemma {:induction false} AtPrefix(prefix: string, d: string, suffix: string)
    ensures At(prefix + d + suffix, |prefix|, d)
  {
  }

  lemma {:induction false} AtParts(chars: string, p: nat, x: string, y: string)
    requires At(chars, p, x + y)
    ensures At(chars, p, x) && At(chars, p + |x|, y)
  {
    forall i | 0 <= i < |x| ensures chars[p + i] == x[i] {
      assert chars[p + i] == (x + y)[i];
    }
    forall i | 0 <= i < |y| ensures chars[p + |x| + i] == y[i] {
      assert chars[p + (|x| + i)] == (x + y)[|x| + i];
    }
  }

  lemma {:induction false} AtSlice(chars: string, p: nat, s: string)
    requires At(chars, p, s)
    ensures chars[p..p + |s|] == s
    ensures forall i :: p <= i < p + |s| ==> chars[i] == s[i - p]
  {
    forall i | p <= i < p + |s| ensures chars[i] == s[i - p] {
      assert chars[p + (i - p)] == s[i - p];
    }
  }

  /** What stands inside a stretch stands at the matching place of the whole. */
  lemma {:induction false} AtShift(chars: string, p: nat, s: string, i: nat, t: string)
    requires At(chars, p, s) && i + |t| <= |s|
    ensures At(s, i, t) <==> At(chars, p + i, t)
  {
    AtSlice(chars, p, s);
    if At(s, i, t) {
      forall k | 0 <= k < |t| ensures chars[p + i + k] == t[k] {
        assert s[i + k] == t[k];
      }
    }
    if At(chars, p + i, t) {
      forall k | 0 <= k < |t| ensures s[i + k] == t[k] {
        assert chars[p + i + k] == t[k];
      }
    }
  }

  lemma {:induction false} AtOne(chars: string, pos: nat, d: string)
    requires At(chars, pos, d)
    ensures AtAny(chars, pos, [d])
  {
    assert d in [d];
  }

  lemma {:induction false} FindEnd(chars: string, from: nat, s: string, end: nat)
    requires from <= end < |chars| && s != "" && At(chars, end, s)
    requires forall i :: from <= i < end ==> chars[i] != s[0]
    ensures Find(chars, from, s) == end
  {
    forall j | from <= j < end ensures !At(chars, j, s) {
      NotAt(chars, j, s);
    }
  }

  /** The construct `x` between two ordinary stretches, where it stands and what is around it. */
  lemma {:induction false} Placed(before: string, x: string, after: string)
    ensures var chars := before + x + after;
            && At(chars, |before|, x) && |chars| == |before| + |x| + |after|
            && chars[..|before|] == before && chars[|before| + |x|..] == after
  {
    AtPrefix(before, x, after);
  }

  // ---------- styled phrases ----------

  /** A phrase that may stand between delimiters. */
  predicate Phrase(w: string) {
    w != "" && AllOrdinary(w) && !IsWhitespace(w[0]) && !IsWhitespace(w[|w| - 1])
  }

  /** Underscores do not open inside a word. */
  predicate MayOpen(alphanumeric: set<char>, d: string, before: string) {
    d in {"_", "__"} && before != "" ==> before[|before| - 1] !in alphanumeric
  }

  lemma {:induction false} NotCode(d: string, chars: string, p: nat)
    requires IsDelimiter(d) && At(chars, p, d)
    ensures !At(chars, p, "```") && !At(chars, p, "`") && !At(chars, p, "[")
  {
    assert chars[p + 0] == d[0];
    NotAt(chars, p, "```");
    NotAt(chars, p, "`");
    NotAt(chars, p, "[");
  }

  /** A single delimiter is not taken for a double one when something else follows it. */
  lemma {:induction false} DelimiterHere(d: string, chars: string, p: nat)
    requires IsDelimiter(d) && At(chars, p, d)
    requires p + |d| < |chars| && chars[p + |d|] !in {'*', '_'}
    ensures DelimiterAt(chars, p) == Some(d)
  {
    assert chars[p + 0] == d[0];
    if d == "*" {
      assert chars[p + 1] != "**"[1];
      NotAt(chars, p, "__");
    } else if d == "_" {
      assert chars[p + 1] != "__"[1];
      NotAt(chars, p, "**");
      NotAt(chars, p, "*");
    } else if d == "__" {
      NotAt(chars, p, "**");
    } else if d == "~~" {
      NotAt(chars, p, "**");
      NotAt(chars, p, "__");
      NotAt(chars, p, "*");
      NotAt(chars, p, "_");
    }
  }

  lemma {:induction false} StyledParts(d: string, w: string, chars: string, p: nat)
    requires At(chars, p, d + w + d)
    ensures At(chars, p, d) && At(chars, p + |d|, w) && At(chars, p + |d| + |w|, d)
  {
    AtParts(chars, p, d + w, d);
    AtParts(chars, p, d, w);
  }

  lemma {:induction false} PhraseCanOpen(alphanumeric: set<char>, d: string, w: string, chars: string, p: nat)
    requires IsDelimiter(d) && Phrase(w) && At(chars, p, d + w + d) && MayOpen(alphanumeric, d, chars[..p])
    ensures CanOpen(alphanumeric, chars, p, d)
  {
    StyledParts(d, w, chars, p);
    AtSlice(chars, p + |d|, w);
    var start, i := p + |d|, p + |d| + |w|;
    assert chars[start] == w[0] && chars[i - 1] == w[|w| - 1];
    assert Closes(chars, start, d, i);
    assert p > 0 ==> chars[..p][p - 1] == chars[p - 1];
  }

  lemma {:induction false} PhraseInside(alphanumeric: set<char>, d: string, w: string, chars: string, start: nat)
    requires IsDelimiter(d) && Phrase(w) && At(chars, start, w) && At(chars, start + |w|, d)
    ensures ParseFrom(alphanumeric, chars, start, [d], [], "") == ([Node.Text(w)], start + |w|)
  {
    AtSlice(chars, start, w);
    AtOne(chars, start + |w|, d);
    assert !Ordinary(d[0]);
    hide At, AtAny, ParseFrom, AllOrdinary, IsDelimiter, Ordinary;
    OrdinaryText(alphanumeric, chars, start, start + |w|, [d]);
  }

  lemma {:induction false} PhraseGroup(alphanumeric: set<char>, d: string, w: string, chars: string, p: nat)
    requires IsDelimiter(d) && Phrase(w) && At(chars, p, d + w + d)
    ensures At(chars, p, d)
    ensures GroupAt(alphanumeric, chars, p, d) == Piece(Group(d, [Node.Text(w)]), p + |d + w + d|)
  {
    hide At, AtAny, ParseFrom, Phrase;
    StyledParts(d, w, chars, p);
    AtBounds(chars, p + |d| + |w|, d);
    PhraseInside(alphanumeric, d, w, chars, p + |d|);
  }

  lemma {:induction false} AtBounds(chars: string, p: nat, s: string)
    requires At(chars, p, s)
    ensures p + |s| <= |chars|
  {
  }

  lemma {:induction false} PhraseTurn(alphanumeric: set<char>, d: string, w: string, chars: string, p: nat)
    requires IsDelimiter(d) && Phrase(w) && At(chars, p, d + w + d) && MayOpen(alphanumeric, d, chars[..p])
    ensures p < |chars| && TurnAt(alphanumeric, chars, p) == Piece(Group(d, [Node.Text(w)]), p + |d + w + d|)
  {
    StyledParts(d, w, chars, p);
    AtSlice(chars, p + |d|, w);
    assert chars[p + |d|] == w[0];
    NotCode(d, chars, p);
    DelimiterHere(d, chars, p);
    PhraseCanOpen(alphanumeric, d, w, chars, p);
    PhraseGroup(alphanumeric, d, w, chars, p);
    hide At, CanOpen, GroupAt, DelimiterAt, ParseFrom;
  }

  /** A styled phrase keeps its style: `**` prints as `*`, `*` and `_` as `_`, `__` as `__`, `~~` as `~`. */
  lemma {:induction false} StyledPhraseConverts(alphanumeric: set<char>, d: string, w: string, before: string,
                                                after: string)
    requires IsDelimiter(d) && Phrase(w) && LiteralAround(alphanumeric, before, d + w + d, after)
    requires MayOpen(alphanumeric, d, before)
    ensures ToV2(alphanumeric, before + (d + w + d) + after)
         == Escape(TEXT_SPECIAL, before) + (Mark(d) + Escape(TEXT_SPECIAL, w) + Mark(d)) + Escape(TEXT_SPECIAL, after)
  {
    hide At, ParseFrom, Escape;
    var chars := before + (d + w + d) + after;
    Placed(before, d + w + d, after);
    PhraseTurn(alphanumeric, d, w, chars, |before|);
    hide Phrase, LiteralAt, MayOpen, TurnAt, ToV2;
    OneNodeBetween(alphanumeric, chars, |before|, Group(d, [Node.Text(w)]), |before| + |d + w + d|);
    PrintGroup(d, w);
  }

  lemma {:induction false} PrintGroup(d: string, w: string)
    requires IsDelimiter(d)
    ensures Print(Group(d, [Node.Text(w)])) == Mark(d) + Escape(TEXT_SPECIAL, w) + Mark(d)
  {
    hide Escape;
    PrintOne(Node.Text(w));
  }

  // ---------- code ----------

  lemma {:induction false} InlineCodeTurn(alphanumeric: set<char>, code: string, chars: string, p: nat)
    requires code != "" && '`' !in code && At(chars, p, "`" + code + "`")
    ensures p < |chars| && TurnAt(alphanumeric, chars, p) == Piece(InlineCode(code), p + |code| + 2)
  {
    var end := p + 1 + |code|;
    AtParts(chars, p, "`" + code, "`");
    AtParts(chars, p, "`", code);
    AtSlice(chars, p + 1, code);
    assert chars[p + 1] == code[0] != "```"[1];
    assert !At(chars, p, "```");
    FindEnd(chars, p + 1, "`", end);
    assert Closes(chars, p + 1, "`", end);
    hide At, ParseFrom, Find, Closes;
  }

  /** Inline code keeps its content; only backslashes are escaped, there being no backtick. */
  lemma {:induction false} InlineCodeConverts(alphanumeric: set<char>, code: string, before: string, after: string)
    requires code != "" && '`' !in code && LiteralAround(alphanumeric, before, "`" + code + "`", after)
    ensures ToV2(alphanumeric, before + ("`" + code + "`") + after)
         == Escape(TEXT_SPECIAL, before) + ("`" + Escape(CODE_SPECIAL, code) + "`") + Escape(TEXT_SPECIAL, after)
  {
    hide At, ParseFrom, Escape;
    var chars := before + ("`" + code + "`") + after;
    Placed(before, "`" + code + "`", after);
    InlineCodeTurn(alphanumeric, code, chars, |before|);
    hide LiteralAt, TurnAt, ToV2;
    OneNodeBetween(alphanumeric, chars, |before|, InlineCode(code), |before| + |code| + 2);
  }

  /** No fence closes before the end of the code. */
  predicate FenceFree(code: string) {
    forall j :: 0 <= j < |code| ==> !At(code + "```", j, "```")
  }

  lemma {:induction false} FenceParts(lang: string, code: string, chars: string, p: nat)
    requires At(chars, p, "```" + lang + "\n" + (code + "```"))
    ensures At(chars, p, "```") && At(chars, p + 3, lang) && At(chars, p + 3 + |lang|, "\n")
    ensures At(chars, p + 4 + |lang|, code + "```") && At(chars, p + 4 + |lang|, code)
    ensures At(chars, p + 4 + |lang| + |code|, "```")
  {
    hide At;
    AtParts(chars, p, "```" + lang + "\n", code + "```");
    AtParts(chars, p, "```" + lang, "\n");
    AtParts(chars, p, "```", lang);
    AtParts(chars, p + 4 + |lang|, code, "```");
  }

  lemma {:induction false} FenceEnd(code: string, chars: string, start: nat)
    requires At(chars, start, code + "```") && FenceFree(code)
    ensures start + |code| < |chars| && Find(chars, start, "```") == start + |code|
  {
    AtParts(chars, start, code, "```");
    forall j | start <= j < start + |code| ensures !At(chars, j, "```") {
      AtShift(chars, start, code + "```", j - start, "```");
    }
  }

  lemma {:induction false} CodeBlockTurn(alphanumeric: set<char>, lang: string, code: string, chars: string, p: nat)
    requires '\n' !in lang && FenceFree(code) && At(chars, p, "```" + lang + "\n" + (code + "```"))
    ensures p < |chars|
    ensures TurnAt(alphanumeric, chars, p) == Piece(CodeBlock(Trim(lang), code), p + |lang| + |code| + 7)
  {
    hide ParseFrom, Find, Trim, FenceFree, At;
    var newline := p + 3 + |lang|;
    var end := newline + 1 + |code|;
    FenceParts(lang, code, chars, p);
    AtSlice(chars, p + 3, lang);
    AtSlice(chars, newline + 1, code);
    AtBounds(chars, end, "```");
    FindEnd(chars, p + 3, "\n", newline);
    FenceEnd(code, chars, newline + 1);
    assert Closes(chars, p + 3, "```", end);
  }

  /** A code block keeps its content, and its language but for whitespace at either end. */
  lemma {:induction false} CodeBlockConverts(alphanumeric: set<char>, lang: string, code: string, before: string,
                                             after: string)
    requires '\n' !in lang && FenceFree(code)
    requires LiteralAround(alphanumeric, before, "```" + lang + "\n" + (code + "```"), after)
    ensures ToV2(alphanumeric, before + ("```" + lang + "\n" + (code + "```")) + after)
         == Escape(TEXT_SPECIAL, before) + ("```" + Trim(lang) + "\n" + Escape(CODE_SPECIAL, code) + "```")
            + Escape(TEXT_SPECIAL, after)
  {
    hide At, ParseFrom, Escape, FenceFree, Trim;
    var block := "```" + lang + "\n" + (code + "```");
    var chars := before + block + after;
    Placed(before, block, after);
    CodeBlockTurn(alphanumeric, lang, code, chars, |before|);
    assert |block| == |lang| + |code| + 7;
    hide LiteralAt, TurnAt, ToV2;
    OneNodeBetween(alphanumeric, chars, |before|, CodeBlock(Trim(lang), code), |before| + |block|);
  }

  // ---------- links ----------

  lemma {:induction false} LinkParts(text: string, url: string, chars: string, p: nat)
    requires At(chars, p, "[" + text + "](" + url + ")")
    ensures At(chars, p, "[") && At(chars, p + 1, text) && At(chars, p + 1 + |text|, "](")
    ensures At(chars, p + 3 + |text|, url) && At(chars, p + 3 + |text| + |url|, ")")
  {
    hide At;
    AtParts(chars, p, "[" + text + "](" + url, ")");
    AtParts(chars, p, "[" + text + "](", url);
    AtParts(chars, p, "[" + text, "](");
    AtParts(chars, p, "[", text);
  }

  lemma {:induction false} LinkTurn(alphanumeric: set<char>, text: string, url: string, chars: string, p: nat)
    requires text != "" && AllOrdinary(text) && ')' !in url && At(chars, p, "[" + text + "](" + url + ")")
    ensures p < |chars|
    ensures TurnAt(alphanumeric, chars, p) == Piece(Link([Node.Text(text)], url), p + |text| + |url| + 4)
  {
    hide At, ParseFrom, Find, AtAny, AllOrdinary;
    var end := p + 1 + |text|;
    var close := end + 2 + |url|;
    LinkParts(text, url, chars, p);
    assert "](" == "]" + "(";
    AtParts(chars, end, "]", "(");
    AtSlice(chars, p, "[");
    AtSlice(chars, p + 1, text);
    AtSlice(chars, end + 2, url);
    AtBounds(chars, close, ")");
    NotAt(chars, p, "```");
    NotAt(chars, p, "`");
    AtOne(chars, end, "]");
    OrdinaryText(alphanumeric, chars, p + 1, end, ["]"]);
    FindEnd(chars, end + 2, ")", close);
    assert LinkAt(alphanumeric, chars, p) == LinkEnd(chars, [Node.Text(text)], end);
  }

  /** A link keeps its text and its target. */
  lemma {:induction false} LinkConverts(alphanumeric: set<char>, text: string, url: string, before: string,
                                        after: string)
    requires text != "" && AllOrdinary(text) && ')' !in url
    requires LiteralAround(alphanumeric, before, "[" + text + "](" + url + ")", after)
    ensures ToV2(alphanumeric, before + ("[" + text + "](" + url + ")") + after)
         == Escape(TEXT_SPECIAL, before) + ("[" + Escape(TEXT_SPECIAL, text) + "](" + Escape(URL_SPECIAL, url) + ")")
            + Escape(TEXT_SPECIAL, after)
  {
    hide At, ParseFrom, Escape, AllOrdinary;
    var link := "[" + text + "](" + url + ")";
    var chars := before + link + after;
    Placed(before, link, after);
    LinkTurn(alphanumeric, text, url, chars, |before|);
    assert |link| == |text| + |url| + 4;
    hide LiteralAt, TurnAt, ToV2;
    OneNodeBetween(alphanumeric, chars, |before|, Link([Node.Text(text)], url), |before| + |link|);
    PrintOne(Node.Text(text));
  }

  // ---------- headings ----------

  lemma {:induction false} NoNewline(chars: string, from: nat, end: nat)
    requires from <= end <= |chars| && (end < |chars| ==> chars[end] == '\n')
    requires forall i :: from <= i < end ==> chars[i] != '\n'
    ensures Find(chars, from, "\n") == end
  {
    forall j | from <= j < end ensures !At(chars, j, "\n") {
      NotAt(chars, j, "\n");
    }
    if end < |chars| {
      AtChar(chars, end, "\n");
    }
  }

  /** A line on its own: after a newline or at the start, and up to a newline or the end. */
  predicate IsLine(chars: string, p: nat, end: nat) {
    p <= end <= |chars| && (p == 0 || chars[p - 1] == '\n') && (end == |chars| || chars[end] == '\n')
  }

  lemma {:induction false} HeadingPlace(hashes: string, text: string, chars: string, p: nat)
    requires hashes != "" && (forall i :: 0 <= i < |hashes| ==> hashes[i] == '#')
    requires text != "" && '\n' !in text
    requires At(chars, p, hashes + " " + text) && IsLine(chars, p, p + |hashes| + 1 + |text|)
    ensures var start := p + |hashes| + 1;
            && p < |chars| && chars[p] == '#' && Hashes(chars, p) == |hashes| && At(chars, p + |hashes|, " ")
            && Find(chars, start, "\n") == start + |text| && chars[start..start + |text|] == text
  {
    hide At, Find, Hashes;
    var n := |hashes|;
    AtParts(chars, p, hashes + " ", text);
    AtParts(chars, p, hashes, " ");
    AtSlice(chars, p, hashes);
    AtSlice(chars, p + n, " ");
    AtSlice(chars, p + n + 1, text);
    assert chars[p + n] == ' ';
    HashesOf(chars, p, n);
    NoNewline(chars, p + n + 1, p + n + 1 + |text|);
  }

  lemma {:induction false} HeadingTurn(alphanumeric: set<char>, hashes: string, text: string, chars: string, p: nat)
    requires hashes != "" && (forall i :: 0 <= i < |hashes| ==> hashes[i] == '#')
    requires text != "" && AllOrdinary(text) && '\n' !in text
    requires At(chars, p, hashes + " " + text) && IsLine(chars, p, p + |hashes| + 1 + |text|)
    ensures p < |chars|
    ensures TurnAt(alphanumeric, chars, p) == Piece(Bold([Node.Text(text)]), p + |hashes| + 1 + |text|)
  {
    hide At, ParseFrom, Find, Hashes, AllOrdinary, DelimiterAt;
    HeadingPlace(hashes, text, chars, p);
    HashIsNoMark(chars, p);
    assert text[0..|text|] == text;
    OrdinaryText(alphanumeric, text, 0, |text|, []);
  }

  /** A heading, whatever its level, becomes bold. */
  lemma {:induction false} HeadingConverts(alphanumeric: set<char>, hashes: string, text: string, before: string,
                                           after: string)
    requires hashes != "" && (forall i :: 0 <= i < |hashes| ==> hashes[i] == '#')
    requires text != "" && AllOrdinary(text) && '\n' !in text
    requires LiteralAround(alphanumeric, before, hashes + " " + text, after)
    requires before == "" || before[|before| - 1] == '\n'
    requires after == "" || after[0] == '\n'
    ensures ToV2(alphanumeric, before + (hashes + " " + text) + after)
         == Escape(TEXT_SPECIAL, before) + ("*" + Escape(TEXT_SPECIAL, text) + "*") + Escape(TEXT_SPECIAL, after)
  {
    hide At, ParseFrom, Escape, AllOrdinary;
    var heading := hashes + " " + text;
    var chars := before + heading + after;
    var end := |before| + |heading|;
    Placed(before, heading, after);
    assert before != "" ==> chars[|before| - 1] == before[|before| - 1];
    assert after != "" ==> chars[end] == after[0];
    HeadingTurn(alphanumeric, hashes, text, chars, |before|);
    hide LiteralAt, TurnAt, ToV2;
    OneNodeBetween(alphanumeric, chars, |before|, Bold([Node.Text(text)]), end);
    PrintOne(Node.Text(text));
  }

  // ---------- a fence that is never closed ----------

  /** Then the first backtick is shown, and the other two are empty inline code. */
  lemma {:induction false} UnclosedFenceConverts(alphanumeric: set<char>, text: string)
    requires AllOrdinary(text)
    ensures ToV2(alphanumeric, "```" + text) == "\\`" + "``" + Escape(TEXT_SPECIAL, text)
  {
    var chars := "```" + text;
    assert chars[3..|chars|] == text && chars[0] == chars[1] == chars[2] == '`';
    UnclosedFenceTurns(alphanumeric, chars);
    forall i | 3 <= i < |chars| ensures LiteralAt(alphanumeric, chars, i) {
      assert chars[i] == text[i - 3];
      OrdinaryIsLiteral(alphanumeric, chars, i);
    }
    hide TurnAt, LiteralAt, Escape, Rest, AllOrdinary;
    RestStep(alphanumeric, chars, 0);
    RestStep(alphanumeric, chars, 1);
    LiteralRun(alphanumeric, chars, 3, |chars|);
    NothingRests(alphanumeric, chars);
    EmptyCodePrint();
    assert Rest(alphanumeric, chars, 1) == "``" + (Escape(TEXT_SPECIAL, text) + "");
    assert EscapeChar(TEXT_SPECIAL, '`') == "\\`";
  }

  lemma {:induction false} EmptyCodePrint()
    ensures Print(InlineCode("")) == "``"
  {
    assert Escape(CODE_SPECIAL, "") == "";
  }

  lemma {:induction false} UnclosedFenceTurns(alphanumeric: set<char>, chars: string)
    requires |chars| >= 3 && chars[0] == chars[1] == chars[2] == '`'
    requires forall i :: 3 <= i < |chars| ==> chars[i] != '`'
    ensures TurnAt(alphanumeric, chars, 0) == Char('`', 1)
    ensures TurnAt(alphanumeric, chars, 1) == Piece(InlineCode(""), 3)
  {
    assert At(chars, 0, "```");
    forall i | 3 <= i < |chars| ensures !Closes(chars, 3, "```", i) {
      NotAt(chars, i, "```");
    }
    assert 3 < |chars| ==> chars[3] != "```"[2];
    assert !At(chars, 1, "```");
    AtChar(chars, 1, "`");
    AtChar(chars, 2, "`");
    assert Closes(chars, 2, "`", 2);
    assert Find(chars, 2, "`") == 2 && chars[2..2] == "";
    hide ParseFrom, Find, At;
  }
}
