/**
 JSON string literals (section 7 of RFC 8259), as the serialiser writes them.
 */
module Json {
  import opened Text

  function HexDigit(d: nat): char
    requires d < 16
  {
    "0123456789abcdef"[d]
  }

  /** One character of a literal. */
  function Escaped(c: char): string {
    if c == '\"' then "\\\""
    else if c == '\\' then "\\\\"
    else if c as int == 8 then "\\b"
    else if c as int == 9 then "\\t"
    else if c as int == 10 then "\\n"
    else if c as int == 12 then "\\f"
    else if c as int == 13 then "\\r"
    else if (c as int) < 32 then "\\u00" + [HexDigit(c as int / 16), HexDigit(c as int % 16)]
    else [c]
  }

  function JsonEscaped(s: string): string {
    if s == [] then "" else Escaped(s[0]) + JsonEscaped(s[1..])
  }

  function JsonString(s: string): string {
    "\"" + JsonEscaped(s) + "\""
  }

  function HexValue(c: char): Option<nat> {
    if '0' <= c <= '9' then Some(c as int - '0' as int)
    else if 'a' <= c <= 'f' then Some(c as int - 'a' as int + 10)
    else None
  }

  /** The character an escape stands for, without its backslash, and its length; only codes below 256 are read. */
  function ReadEscape(s: string): Option<(char, nat)> {
    if s == "" then None
    else if s[0] == '\"' || s[0] == '\\' then Some((s[0], 1))
    else if s[0] == 'b' then Some((8 as char, 1))
    else if s[0] == 't' then Some((9 as char, 1))
    else if s[0] == 'n' then Some((10 as char, 1))
    else if s[0] == 'f' then Some((12 as char, 1))
    else if s[0] == 'r' then Some((13 as char, 1))
    else if |s| >= 5 && s[0] == 'u' && s[1] == '0' && s[2] == '0' && HexValue(s[3]).Some? && HexValue(s[4]).Some? then
      Some(((16 * HexValue(s[3]).value + HexValue(s[4]).value) as char, 5))
    else None
  }

  function Prepend(c: char, r: Option<(string, string)>): Option<(string, string)> {
    if r.None? then None else Some(([c] + r.value.0, r.value.1))
  }

  /** The text of a literal after its opening quote, and what follows the closing one. */
  function ReadLiteral(s: string): Option<(string, string)>
    decreases |s|
  {
    if s == "" then None
    else if s[0] == '\"' then Some(("", s[1..]))
    else if s[0] != '\\' then Prepend(s[0], ReadLiteral(s[1..]))
    else
      var e := ReadEscape(s[1..]);
      if e.None? || e.value.1 + 1 > |s| then None
      else Prepend(e.value.0, ReadLiteral(s[1 + e.value.1..]))
  }

  lemma {:induction false} HexReadsBack(n: nat)
    requires n < 32
    ensures HexValue(HexDigit(n / 16)) == Some(n / 16) && HexValue(HexDigit(n % 16)) == Some(n % 16)
    ensures 16 * (n / 16) + n % 16 == n
  {
  }

  /** A control character without a letter of its own reads back from its code. */
  lemma {:induction false} CodeReadsBack(c: char, rest: string)
    requires (c as int) < 32
    ensures var code := "u00" + [HexDigit(c as int / 16), HexDigit(c as int % 16)];
            ReadEscape(code + rest) == Some((c, 5))
  {
    var high, low := HexDigit(c as int / 16), HexDigit(c as int % 16);
    var s := "u00" + [high, low] + rest;
    HexReadsBack(c as int);
    hide HexDigit, HexValue;
    assert s[0] == 'u' && s[1] == '0' && s[2] == '0' && s[3] == high && s[4] == low;
  }

  lemma {:induction false} LetterReadsBack(c: char, letter: char, rest: string)
    requires Escaped(c) == ['\\', letter] && (c == letter ==> c == '\"' || c == '\\')
    requires c == '\"' || c == '\\' || c as int in {8, 9, 10, 12, 13}
    ensures ReadEscape([letter] + rest) == Some((c, 1))
  {
    var s := [letter] + rest;
    assert Escaped(c)[1] == letter && s[0] == letter;
    hide HexValue, HexDigit;
  }

  lemma {:induction false} EscapeReadsBack(c: char, rest: string)
    requires c == '\"' || c == '\\' || (c as int) < 32
    ensures Escaped(c)[0] == '\\' && ReadEscape(Escaped(c)[1..] + rest) == Some((c, |Escaped(c)| - 1))
  {
    if c == '\"' || c == '\\' || c as int in {8, 9, 10, 12, 13} {
      assert Escaped(c)[1..] == [Escaped(c)[1]];
      hide ReadEscape;
      LetterReadsBack(c, Escaped(c)[1], rest);
    } else {
      hide ReadEscape, HexDigit;
      CodeReadsBack(c, rest);
      assert Escaped(c)[1..] == "u00" + [HexDigit(c as int / 16), HexDigit(c as int % 16)];
    }
  }

  lemma {:induction false} CharReadsBack(c: char, rest: string)
    ensures ReadLiteral(Escaped(c) + rest) == Prepend(c, ReadLiteral(rest))
  {
    if c != '\"' && c != '\\' && c as int >= 32 {
      hide ReadLiteral;
      PlainReads(c, rest);
    } else {
      EscapeReadsBack(c, rest);
      hide ReadLiteral, Escaped, ReadEscape;
      var s, n := Escaped(c) + rest, |Escaped(c)| - 1;
      assert s[0] == '\\' && s[1..] == Escaped(c)[1..] + rest && s[1 + n..] == rest;
      EscapeReads(s, c, n);
    }
  }

  lemma {:induction false} PlainReads(c: char, rest: string)
    requires c != '\"' && c != '\\'
    ensures ReadLiteral([c] + rest) == Prepend(c, ReadLiteral(rest))
  {
    assert ([c] + rest)[0] == c && ([c] + rest)[1..] == rest;
  }

  lemma {:induction false} EscapeReads(s: string, c: char, n: nat)
    requires s != "" && s[0] == '\\' && ReadEscape(s[1..]) == Some((c, n)) && n + 1 <= |s|
    ensures ReadLiteral(s) == Prepend(c, ReadLiteral(s[1 + n..]))
  {
    hide ReadEscape;
  }

  lemma {:induction false} EmptyReadsBack(rest: string)
    ensures ReadLiteral(JsonEscaped("") + "\"" + rest) == Some(("", rest))
  {
    assert ("" + "\"" + rest)[0] == '\"' && ("" + "\"" + rest)[1..] == rest;
  }

  /** Every text can be read back from its literal, and the literal ends where it should. */
  lemma {:induction false} LiteralReadsBack(s: string, rest: string)
    ensures ReadLiteral(JsonEscaped(s) + "\"" + rest) == Some((s, rest))
  {
    if s == "" {
      EmptyReadsBack(rest);
    } else {
      var head, tail := Escaped(s[0]), JsonEscaped(s[1..]);
      assert JsonEscaped(s) == head + tail;
      hide Escaped, ReadLiteral, JsonEscaped;
      LiteralReadsBack(s[1..], rest);
      CharReadsBack(s[0], tail + "\"" + rest);
      ConcatAssociates(head, tail, "\"");
      ConcatAssociates(head, tail + "\"", rest);
      assert [s[0]] + s[1..] == s;
    }
  }
}
