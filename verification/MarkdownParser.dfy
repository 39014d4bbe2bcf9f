/**
 The Markdown parser as it runs: a cursor over the characters, moved by mutually
 recursive methods, with the link attempt moving it back when it fails.
 */
module MarkdownParser {
  import opened Text
  import opened MarkdownGrammar

  class Parser {
    const chars: string
    const alphanumeric: set<char>
    var pos: nat

    constructor (alphanumeric: set<char>, input: string)
      ensures chars == input && this.alphanumeric == alphanumeric && pos == 0
    {
      this.chars, this.alphanumeric, pos := input, alphanumeric, 0;
    }

    predicate Valid()
      reads this
    {
      pos <= |chars|
    }

    predicate StartsWith(s: string)
      reads this
    {
      At(chars, pos, s)
    }

    method ConsumeStr(s: string)
      modifies this
      ensures pos == old(pos) + |s|
    {
      pos := pos + |s|;
    }

    method Next() returns (c: char)
      requires pos < |chars|
      modifies this
      ensures pos == old(pos) + 1 && c == chars[old(pos)]
    {
      c := chars[pos];
      pos := pos + 1;
    }

    /** Collect characters up to the first `s`, or to the end. */
    method ReadUntil(s: string) returns (read: string)
      requires Valid() && s != []
      modifies this
      ensures Valid() && pos == Find(chars, old(pos), s) && read == chars[old(pos)..pos]
    {
      read := "";
      while pos < |chars| && !StartsWith(s)
        invariant old(pos) <= pos <= |chars| && read == chars[old(pos)..pos]
        invariant Find(chars, pos, s) == Find(chars, old(pos), s)
      {
        var c := Next();
        read := read + [c];
      }
    }

    /** Consume `s` unless the input is over. */
    method ConsumeIfPresent(s: string)
      requires Valid() && (pos < |chars| ==> StartsWith(s))
      modifies this
      ensures Valid() && pos == Past(chars, old(pos), s)
    {
      if pos < |chars| {
        ConsumeStr(s);
      }
    }

    method ParseCodeBlock() returns (node: Node)
      requires StartsWith("```")
      modifies this
      ensures Piece(node, pos) == CodeBlockAt(chars, old(pos))
    {
      ConsumeStr("```");
      var lang := ReadUntil("\n");
      ConsumeIfPresent("\n");
      var code := ReadUntil("```");
      ConsumeIfPresent("```");
      node := CodeBlock(Trim(lang), code);
    }

    method ParseInlineCode() returns (node: Node)
      requires StartsWith("`")
      modifies this
      ensures Piece(node, pos) == InlineCodeAt(chars, old(pos))
    {
      ConsumeStr("`");
      var code := ReadUntil("`");
      ConsumeIfPresent("`");
      node := InlineCode(code);
    }

    method HasMatchingDelimiter(delimiter: string) returns (yes: bool)
      requires StartsWith(delimiter)
      ensures yes <==> HasMatching(chars, pos + |delimiter|, delimiter)
    {
      var start := pos + |delimiter|;
      var i := start;
      while i < |chars|
        invariant start <= i <= |chars|
        invariant forall j :: start <= j < i ==> !Closes(chars, start, delimiter, j)
      {
        if At(chars, i, delimiter) {
          if delimiter == "```" || delimiter == "`" {
            assert Closes(chars, start, delimiter, i);
            return true;
          }
          if i > start && !IsWhitespace(chars[i - 1]) {
            assert Closes(chars, start, delimiter, i);
            return true;
          }
        }
        i := i + 1;
      }
      yes := false;
    }

    method CanOpenDelimiter(delimiter: string) returns (yes: bool)
      requires Valid() && StartsWith(delimiter)
      ensures yes <==> CanOpen(alphanumeric, chars, pos, delimiter)
    {
      if pos + |delimiter| >= |chars| {
        return false;
      }
      if IsWhitespace(chars[pos + |delimiter|]) {
        return false;
      }
      if (delimiter == "_" || delimiter == "__") && pos > 0 && chars[pos - 1] in alphanumeric {
        return false;
      }
      yes := HasMatchingDelimiter(delimiter);
    }

    /** On failure the cursor is back at the bracket. */
    method TryParseLink() returns (link: Option<Node>)
      requires Valid() && StartsWith("[")
      modifies this
      ensures Valid()
      ensures LinkAt(alphanumeric, chars, old(pos)) == if link.Some? then Piece(link.value, pos) else Bracket
      ensures link.None? ==> pos == old(pos)
      decreases |chars| - pos, 0
    {
      hide ParseFrom, Find;
      var startPos := pos;
      ConsumeStr("[");
      var text := ParseNodes(["]"]);
      if !StartsWith("]") {
        pos := startPos;
        return None;
      }
      ConsumeStr("]");
      if !StartsWith("(") {
        pos := startPos;
        return None;
      }
      ConsumeStr("(");
      var url := ReadUntil(")");
      if pos < |chars| {
        ConsumeStr(")");
        return Some(Link(text, url));
      }
      pos := startPos;
      link := None;
    }

    method ParseGroup(delimiter: string) returns (node: Node)
      requires Valid() && IsDelimiter(delimiter) && StartsWith(delimiter)
      modifies this
      ensures Valid() && Piece(node, pos) == GroupAt(alphanumeric, chars, old(pos), delimiter)
      decreases |chars| - pos, 0
    {
      ConsumeStr(delimiter);
      var inner := ParseNodes([delimiter]);
      ConsumeIfPresent(delimiter);
      node := Group(delimiter, inner);
    }

    method CountHashes() returns (count: nat)
      requires Valid()
      ensures count == Hashes(chars, pos)
    {
      count := 0;
      while pos + count < |chars| && chars[pos + count] == '#'
        invariant pos + count <= |chars| && count + Hashes(chars, pos + count) == Hashes(chars, pos)
      {
        count := count + 1;
      }
    }

    /** The rest of the line after `hashes` hash signs and a space, parsed on its own. */
    method ParseHeadingLine(hashes: nat) returns (node: Node)
      requires pos < |chars| && HeadingAt(chars, pos) && hashes == Hashes(chars, pos)
      modifies this
      ensures Valid() && Piece(node, pos) == ParseHeading(alphanumeric, chars, old(pos))
      decreases |chars| - pos, 0
    {
      hide ParseFrom, Find, Hashes;
      pos := pos + hashes + 1;
      var line := ReadUntil("\n");
      var headingParser := new Parser(alphanumeric, line);
      var inner := headingParser.ParseNodes([]);
      node := Bold(inner);
    }

    /** One turn of the loop over the input. */
    method TakeTurn(nodes: seq<Node>, text: string) returns (gathered: seq<Node>, pending: string)
      requires pos < |chars|
      modifies this
      ensures Valid()
      ensures var turn := TurnAt(alphanumeric, chars, old(pos));
              pos == NextPos(turn, old(pos)) && (gathered, pending) == Gather(turn, nodes, text)
      decreases |chars| - pos, 1
    {
      hide ParseFrom, CodeBlockAt, InlineCodeAt, LinkAt, GroupAt, ParseHeading, HasMatching, CanOpen, Flushed, Hashes,
        DelimiterAt;
      gathered, pending := nodes, text;
      var isStartOfLine := pos == 0 || chars[pos - 1] == '\n';
      var delimiter := DelimiterAt(chars, pos);
      if StartsWith("```") {
        var matching := HasMatchingDelimiter("```");
        if matching {
          var node := ParseCodeBlock();
          gathered, pending := Flushed(nodes, text) + [node], "";
        } else {
          var c := Next();
          pending := text + ['`'];
        }
      } else if StartsWith("`") {
        var matching := HasMatchingDelimiter("`");
        if matching {
          var node := ParseInlineCode();
          gathered, pending := Flushed(nodes, text) + [node], "";
        } else {
          var c := Next();
          pending := text + ['`'];
        }
      } else if StartsWith("[") {
        var link := TryParseLink();
        if link.Some? {
          gathered, pending := Flushed(nodes, text) + [link.value], "";
        } else {
          gathered, pending := Flushed(nodes, text), "[";
          var c := Next();
        }
      } else if delimiter.Some? {
        var opens := CanOpenDelimiter(delimiter.value);
        if opens {
          var node := ParseGroup(delimiter.value);
          gathered, pending := Flushed(nodes, text) + [node], "";
        } else {
          var c := Next();
          pending := text + [c];
        }
      } else if StartsWith("\\") {
        ConsumeStr("\\");
        if pos < |chars| {
          var c := Next();
          pending := text + [c];
        } else {
          pending := text + ['\\'];
        }
      } else {
        var hashes := CountHashes();
        if isStartOfLine && StartsWith("#") && At(chars, pos + hashes, " ") {
          var node := ParseHeadingLine(hashes);
          gathered, pending := Flushed(nodes, text) + [node], "";
        } else {
          var c := Next();
          pending := text + [c];
        }
      }
    }

    method ParseNodes(delimiters: seq<string>) returns (nodes: seq<Node>)
      requires Valid()
      modifies this
      ensures Valid() && (nodes, pos) == ParseFrom(alphanumeric, chars, old(pos), delimiters, [], "")
      decreases |chars| - pos, 2
    {
      nodes := [];
      var currentText := "";
      while pos < |chars| && !AtAny(chars, pos, delimiters)
        invariant old(pos) <= pos <= |chars|
        invariant ParseFrom(alphanumeric, chars, pos, delimiters, nodes, currentText)
                  == ParseFrom(alphanumeric, chars, old(pos), delimiters, [], "")
        decreases |chars| - pos
      {
        nodes, currentText := TakeTurn(nodes, currentText);
      }
      nodes := Flushed(nodes, currentText);
    }
  }
}
