/**
 Printing nodes as Telegram MarkdownV2, and reading the print back: escaped text,
 code and link targets, and the visible text of a whole message ("MarkdownV2
 style" under "Formatting options" of the Telegram Bot API).
 */
module MarkdownPrinter {
  import opened Text
  import opened MarkdownGrammar

  const TEXT_SPECIAL: set<char> :=
    {'_', '*', '[', ']', '(', ')', '~', '`', '>', '#', '+', '-', '=', '|', '{', '}', '.', '!'}
  const CODE_SPECIAL: set<char> := {'\\', '`'}
  const URL_SPECIAL: set<char> := {'\\', ')'}

  function EscapeChar(special: set<char>, c: char): string {
    if c in special then ['\\', c] else [c]
  }

  /** `s` with a backslash before each special character. */
  function Escape(special: set<char>, s: string): string {
    if s == "" then "" else EscapeChar(special, s[0]) + Escape(special, s[1..])
  }

  /** The loop of `escape_text`, `escape_code` and `escape_url`, which differ in the set only. */
  method EscapeChars(special: set<char>, s: string) returns (escaped: string)
    ensures escaped == Escape(special, s)
  {
    escaped := "";
    assert s[0..] == s;
    for i := 0 to |s|
      invariant escaped + Escape(special, s[i..]) == Escape(special, s)
    {
      assert s[i..][0] == s[i] && s[i..][1..] == s[i + 1..];
      ConcatAssociates(escaped, EscapeChar(special, s[i]), Escape(special, s[i + 1..]));
      if s[i] in special {
        escaped := escaped + ['\\', s[i]];
      } else {
        escaped := escaped + [s[i]];
      }
    }
    assert s[|s|..] == "" && escaped + "" == escaped;
  }

  function PrintAll(nodes: seq<Node>): string {
    if nodes == [] then "" else Print(nodes[0]) + PrintAll(nodes[1..])
  }

  /** `format_to_v2`. */
  function Print(node: Node): string {
    match node
    case Text(text) => Escape(TEXT_SPECIAL, text)
    case Bold(children) => "*" + PrintAll(children) + "*"
    case Italic(children) => "_" + PrintAll(children) + "_"
    case Underline(children) => "__" + PrintAll(children) + "__"
    case Strikethrough(children) => "~" + PrintAll(children) + "~"
    case CodeBlock(lang, code) => "```" + lang + "\n" + Escape(CODE_SPECIAL, code) + "```"
    case InlineCode(code) => "`" + Escape(CODE_SPECIAL, code) + "`"
    case Link(children, url) => "[" + PrintAll(children) + "](" + Escape(URL_SPECIAL, url) + ")"
  }

  // ---------- reading ----------

  /** The characters that must be escaped in text, in the order the Bot API lists them. */
  const RESERVED: string := "_*[]()~`>#+-=|{}.!"

  lemma {:induction false} ReservedIsSpecial(c: char)
    ensures c in RESERVED <==> c in TEXT_SPECIAL
  {
    assert RESERVED == ['_', '*', '[', ']', '(', ')', '~', '`', '>', '#', '+', '-', '=', '|', '{', '}', '.', '!'];
  }

  /** A backslash escapes any character with code 1 to 126; elsewhere it is an ordinary character. */
  predicate EscapedHead(s: string) {
    |s| >= 2 && s[0] == '\\' && 1 <= s[1] as int <= 126
  }

  predicate Escapable(special: set<char>) {
    forall c :: c in special ==> 1 <= c as int <= 126
  }

  /** The characters up to the first unescaped `close`, and what follows it. */
  function ReadTo(close: char, s: string): (r: (string, string))
    ensures |r.1| <= |s|
  {
    if s == "" then ("", "")
    else if s[0] == close then ("", s[1..])
    else if EscapedHead(s) then
      var (content, rest) := ReadTo(close, s[2..]);
      ([s[1]] + content, rest)
    else
      var (content, rest) := ReadTo(close, s[1..]);
      ([s[0]] + content, rest)
  }

  /** Escaped content is read back whole, and reading stops exactly at the printer's closing delimiter. */
  lemma {:induction false} EscapedContentReadsBack(special: set<char>, close: char, s: string, rest: string)
    requires '\\' in special && close in special && close != '\\'
    requires Escapable(special)
    ensures ReadTo(close, Escape(special, s) + [close] + rest) == (s, rest)
  {
    var printed := Escape(special, s) + [close] + rest;
    if s == "" {
      assert printed[0] == close && printed[1..] == rest;
    } else {
      var head, tail := EscapeChar(special, s[0]), Escape(special, s[1..]) + [close] + rest;
      assert printed == head + tail;
      EscapedContentReadsBack(special, close, s[1..], rest);
      assert printed[|head|..] == tail;
      assert s == [s[0]] + s[1..];
    }
  }

  lemma {:induction false} CodeReadsBack(code: string, rest: string)
    ensures ReadTo('`', Escape(CODE_SPECIAL, code) + "`" + rest) == (code, rest)
  {
    EscapedContentReadsBack(CODE_SPECIAL, '`', code, rest);
  }

  lemma {:induction false} UrlReadsBack(url: string, rest: string)
    ensures ReadTo(')', Escape(URL_SPECIAL, url) + ")" + rest) == (url, rest)
  {
    EscapedContentReadsBack(URL_SPECIAL, ')', url, rest);
  }

  /** Ordinary text as Telegram reads it: an unescaped special character is refused. */
  function ReadText(s: string): Option<string> {
    if s == "" then Some("")
    else if EscapedHead(s) then Prepend(s[1], ReadText(s[2..]))
    else if s[0] in RESERVED then None
    else Prepend(s[0], ReadText(s[1..]))
  }

  function Prepend(c: char, r: Option<string>): Option<string> {
    if r.None? then None else Some([c] + r.value)
  }

  /** Some backslash of the text stands before a character it would escape. */
  predicate HasEscapingBackslash(s: string) {
    exists i :: 0 <= i < |s| && EscapedHead(s[i..])
  }

  lemma {:induction false} EscapeHead(special: set<char>, s: string)
    requires s != "" && Escapable(special)
    ensures var printed := Escape(special, s);
            && (s[0] in special ==> EscapedHead(printed) && printed[1] == s[0]
                                    && printed[2..] == Escape(special, s[1..]))
            && (s[0] !in special ==> printed != "" && printed[0] == s[0] && printed[1..] == Escape(special, s[1..]))
  {
    var tail := Escape(special, s[1..]);
    if s[0] in special {
      assert (['\\', s[0]] + tail)[2..] == tail;
    } else {
      assert ([s[0]] + tail)[1..] == tail;
    }
  }

  lemma {:induction false} EscapeTextHead(s: string)
    requires s != ""
    ensures var printed := Escape(TEXT_SPECIAL, s);
            && (s[0] in TEXT_SPECIAL ==> EscapedHead(printed) && printed[1] == s[0]
                                         && printed[2..] == Escape(TEXT_SPECIAL, s[1..]))
            && (s[0] !in TEXT_SPECIAL ==> printed != "" && printed[0] == s[0]
                                          && printed[1..] == Escape(TEXT_SPECIAL, s[1..]))
  {
    assert Escapable(TEXT_SPECIAL);
    EscapeHead(TEXT_SPECIAL, s);
  }

  lemma {:induction false} HasEscapingBackslashTail(s: string)
    requires s != ""
    ensures HasEscapingBackslash(s) <==> EscapedHead(s) || HasEscapingBackslash(s[1..])
  {
    hide EscapedHead;
    assert s[0..] == s;
    if HasEscapingBackslash(s) {
      var i :| 0 <= i < |s| && EscapedHead(s[i..]);
      if i > 0 {
        assert s[1..][i - 1..] == s[i..];
      }
    }
    if HasEscapingBackslash(s[1..]) {
      var i :| 0 <= i < |s[1..]| && EscapedHead(s[1..][i..]);
      assert s[1..][i..] == s[i + 1..];
      assert EscapedHead(s[i + 1..]);
    }
  }

  /** What is read back is never longer than the text, and is shorter once a backslash has escaped something. */
  lemma {:induction false} EscapedTextShrinks(s: string)
    ensures var r := ReadText(Escape(TEXT_SPECIAL, s));
            && (r.Some? ==> |r.value| <= |s|)
            && (r.Some? && HasEscapingBackslash(s) ==> |r.value| < |s|)
            && (!HasEscapingBackslash(s) ==> r == Some(s))
    decreases |s|, 1
  {
    if s != "" {
      hide RESERVED;
      ReservedIsSpecial(s[0]);
      EscapeTextHead(s);
      EscapedTextShrinks(s[1..]);
      HasEscapingBackslashTail(s);
      assert s == [s[0]] + s[1..];
      if EscapedHead(s) {
        BackslashShrinks(s);
      } else if s[0] == '\\' && |s| > 1 {
        EscapeTextHead(s[1..]);
      }
    }
  }

  lemma {:induction false} BackslashShrinks(s: string)
    requires EscapedHead(s)
    ensures var r := ReadText(Escape(TEXT_SPECIAL, s));
            r.Some? ==> |r.value| < |s|
    decreases |s|, 0
  {
    hide RESERVED;
    ReservedIsSpecial(s[0]);
    ReservedIsSpecial(s[1]);
    EscapeTextHead(s);
    EscapeTextHead(s[1..]);
    EscapedTextShrinks(s[2..]);
    assert s[1..][1..] == s[2..];
    var printed := Escape(TEXT_SPECIAL, s);
    if s[1] in TEXT_SPECIAL {
      assert printed[2..] == printed[1..][1..];
      assert printed[2] == s[1];
    } else {
      assert printed[2..] == Escape(TEXT_SPECIAL, s[2..]);
    }
  }

  /** Printed text is read back as it was exactly when none of its backslashes escapes the character after it. */
  lemma {:induction false} EscapedTextReadsBack(s: string)
    ensures ReadText(Escape(TEXT_SPECIAL, s)) == Some(s) <==> !HasEscapingBackslash(s)
  {
    EscapedTextShrinks(s);
  }

  /** A path such as `a\b` loses its backslash. */
  lemma {:induction false} BackslashIsLost()
    ensures ReadText(Escape(TEXT_SPECIAL, "a\\b")) == Some("ab")
  {
    EscapeCharByChar('a', "\\b");
    EscapeCharByChar('\\', "b");
    EscapeCharByChar('b', "");
    assert ['\\'] + "b" == "\\b" && ['b'] + "" == "b" && ['a'] + "\\b" == "a\\b";
    assert Escape(TEXT_SPECIAL, "b") == "b";
    assert Escape(TEXT_SPECIAL, "\\b") == "\\b";
    assert Escape(TEXT_SPECIAL, "a\\b") == "a\\b";
    assert "\\b"[2..] == "" && "a\\b"[1..] == "\\b";
    assert ReadText("\\b") == Prepend('b', Some("")) == Some(['b'] + "") == Some("b");
    assert ReadText("a\\b") == Prepend('a', Some("b")) == Some(['a'] + "b");
    assert ['a'] + "b" == "ab";
  }

  lemma {:induction false} EscapeCharByChar(c: char, rest: string)
    ensures Escape(TEXT_SPECIAL, [c] + rest) == EscapeChar(TEXT_SPECIAL, c) + Escape(TEXT_SPECIAL, rest)
  {
    assert ([c] + rest)[0] == c && ([c] + rest)[1..] == rest;
  }
}
