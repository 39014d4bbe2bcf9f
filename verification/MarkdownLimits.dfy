/**
 Where what the user sees is not the input: a backslash left in the text meets a
 mark of the print. Whether it does depends on how the parser groups the text, not
 on the characters around the backslash.
 */
module MarkdownLimits {
  import opened Text
  import opened MarkdownGrammar
  import opened MarkdownText
  import opened MarkdownPrinter
  import opened MarkdownVisible
  import opened MarkdownLiteral
  import opened MarkdownConversion

  lemma {:induction false} BackslashPrint()
    ensures PrintAll([Node.Text("\\")]) == "\\"
  {
    EscapeTextHead("\\");
    assert "\\"[1..] == "";
    PrintOne(Node.Text("\\"));
  }

  /** Between two marks a backslash escapes the closing one, which is then all that is seen. */
  lemma {:induction false} BackslashInMarks(mark: string)
    requires mark in {"*", "_", "__", "~"}
    ensures Visible(mark + "\\" + mark) == [mark[0]]
  {
    hide Visible;
    assert mark + "\\" + mark == mark + ("\\" + mark);
    VisibleMarks(mark, "\\" + mark);
    assert "\\" + mark == ['\\', mark[0]] + mark[1..];
    VisibleEscaped(mark[0], mark[1..]);
    VisibleNothing();
    if mark == "__" {
      VisibleMark('_', "");
      assert ['_'] + "" == "_" == mark[1..];
    } else {
      assert mark[1..] == "";
    }
    assert [mark[0]] + "" == [mark[0]];
  }

  lemma {:induction false} LostMark(input: string, c: char)
    requires c !in input
    ensures !Faithful(input, [c])
  {
    if Subsequence([c], input) {
      SubsequenceWithin([c], input, c);
    }
  }

  lemma {:induction false} SubsequenceWithin(x: string, s: string, c: char)
    requires Subsequence(x, s) && c in x
    ensures c in s
    decreases |s|
  {
    if s != "" {
      if x != "" && x[0] == s[0] && Subsequence(x[1..], s[1..]) {
        if c != x[0] {
          SubsequenceWithin(x[1..], s[1..], c);
        }
      } else {
        SubsequenceWithin(x, s[1..], c);
      }
    }
  }

  // ---------- a heading ----------

  lemma {:induction false} LoneBackslash(alphanumeric: set<char>)
    ensures ParseFrom(alphanumeric, "\\", 0, [], [], "").0 == [Node.Text("\\")]
  {
    BackslashTurn(alphanumeric, "\\", 0);
    hide TurnAt;
    assert "" + ['\\'] == "\\" && [] + [Node.Text("\\")] == [Node.Text("\\")];
    assert ParseFrom(alphanumeric, "\\", 1, [], [], "\\") == ([Node.Text("\\")], 1);
  }

  lemma {:induction false} HeadingBackslashTurn(alphanumeric: set<char>, chars: string)
    requires chars == "# \\"
    ensures TurnAt(alphanumeric, chars, 0) == Piece(Bold([Node.Text("\\")]), 3)
  {
    HashesOf(chars, 0, 1);
    AtChar(chars, 1, " ");
    HashIsNoMark(chars, 0);
    NoNewline(chars, 2, 3);
    assert chars[2..3] == "\\";
    LoneBackslash(alphanumeric);
    hide At, ParseFrom, Find, Hashes;
  }

  /** A heading that ends in a backslash is seen as an asterisk that the input never had. */
  lemma {:induction false} HeadingBackslashIsLost(alphanumeric: set<char>)
    ensures Seen(alphanumeric, "# \\") == "*" && !Faithful("# \\", "*")
  {
    var chars := "# \\";
    HeadingBackslashTurn(alphanumeric, chars);
    OneNode(alphanumeric, chars, Bold([Node.Text("\\")]));
    hide Visible, Parse, ParseFrom;
    BackslashPrint();
    BackslashInMarks("*");
    LostMark(chars, '*');
  }

  // ---------- an escaped backslash between delimiters ----------

  lemma {:induction false} AtWhole(chars: string)
    ensures At(chars, 0, chars)
  {
  }

  /** Where everything stands when two backslashes stand between delimiters. */
  lemma {:induction false} DelimitedShape(d: string, chars: string)
    requires IsDelimiter(d) && chars == d + "\\\\" + d
    ensures |chars| == 2 * |d| + 2 && At(chars, 0, d) && At(chars, |d| + 2, d)
    ensures chars[|d|] == chars[|d| + 1] == '\\'
  {
    AtWhole(chars);
    StyledParts(d, "\\\\", chars, 0);
    AtSlice(chars, |d|, "\\\\");
    hide At;
  }

  lemma {:induction false} DelimitedCanOpen(alphanumeric: set<char>, d: string, chars: string)
    requires IsDelimiter(d) && chars == d + "\\\\" + d
    ensures CanOpen(alphanumeric, chars, 0, d)
  {
    DelimitedShape(d, chars);
    hide At;
    assert Closes(chars, |d|, d, |d| + 2);
  }

  lemma {:induction false} DelimitedGroup(alphanumeric: set<char>, d: string, chars: string)
    requires IsDelimiter(d) && chars == d + "\\\\" + d && At(chars, 0, d)
    ensures GroupAt(alphanumeric, chars, 0, d) == Piece(Group(d, [Node.Text("\\")]), |chars|)
  {
    DelimitedShape(d, chars);
    NotAt(chars, |d|, d);
    hide At, AtAny, ParseFrom;
    AtOne(chars, |d| + 2, d);
    BackslashesUntil(alphanumeric, chars, |d|, d);
  }

  /** Two backslashes between delimiters: the group of one backslash. */
  lemma {:induction false} DelimitedBackslash(alphanumeric: set<char>, d: string, chars: string)
    requires IsDelimiter(d) && chars == d + "\\\\" + d
    ensures TurnAt(alphanumeric, chars, 0) == Piece(Group(d, [Node.Text("\\")]), |chars|)
  {
    DelimitedShape(d, chars);
    NotCode(d, chars, 0);
    DelimiterHere(d, chars, 0);
    DelimitedCanOpen(alphanumeric, d, chars);
    DelimitedGroup(alphanumeric, d, chars);
    hide At, CanOpen, GroupAt, DelimiterAt, ParseFrom;
  }

  lemma {:induction false} BackslashesUntil(alphanumeric: set<char>, chars: string, pos: nat, d: string)
    requires pos + 2 <= |chars| && chars[pos] == '\\' && chars[pos + 1] == '\\'
    requires AtAny(chars, pos + 2, [d]) && !At(chars, pos, d)
    ensures ParseFrom(alphanumeric, chars, pos, [d], [], "") == ([Node.Text("\\")], pos + 2)
  {
    BackslashTurn(alphanumeric, chars, pos);
    assert !AtAny(chars, pos, [d]);
    hide TurnAt, AtAny;
    assert "" + ['\\'] == "\\" && [] + [Node.Text("\\")] == [Node.Text("\\")];
    assert ParseFrom(alphanumeric, chars, pos + 2, [d], [], "\\") == ([Node.Text("\\")], pos + 2);
  }

  /**
   An escaped backslash between delimiters is seen as the first mark of the print.
   Only between single asterisks, which print as underscores, is that a character
   the input does not have, although every delimiter leaves the same backslashes.
   */
  lemma {:induction false} BackslashBetween(alphanumeric: set<char>, d: string)
    requires IsDelimiter(d)
    ensures var input := d + "\\\\" + d;
            && Seen(alphanumeric, input) == [Mark(d)[0]]
            && (Faithful(input, Seen(alphanumeric, input)) <==> d != "*")
  {
    var input := d + "\\\\" + d;
    DelimitedBackslash(alphanumeric, d, input);
    OneNode(alphanumeric, input, Group(d, [Node.Text("\\")]));
    hide Visible, Parse, ParseFrom, TurnAt, At;
    BackslashPrint();
    BackslashInMarks(Mark(d));
    if d == "*" {
      LostMark(input, '_');
    } else {
      OneMarkIsFaithful(d);
    }
  }

  lemma {:induction false} OneMarkIsFaithful(d: string)
    requires IsDelimiter(d) && d != "*"
    ensures Faithful(d + "\\\\" + d, [d[0]])
  {
    var input := d + "\\\\" + d;
    StrikesMarkup(input[1..]);
    StrikesSelf([input[0]]);
    StrikesConcat([input[0]], [input[0]], input[1..], "");
    assert input == [input[0]] + input[1..] && [input[0]] + "" == [d[0]];
    StrikesMeans(input, [d[0]]);
  }
}
