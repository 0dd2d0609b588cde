/** White space, splitting at a character, and hexadecimal numbers, as the language's own functions read them. */
module Texts {
  import opened Options

  /** The characters that a regular expression's `\s` stands for, and that `parseInt` passes over first. */
  predicate IsSpace(c: char) {
    var code := c as int;
    || 9 <= code <= 13 || code == 0x20 || code == 0xa0 || code == 0x1680 || 0x2000 <= code <= 0x200a
    || code == 0x2028 || code == 0x2029 || code == 0x202f || code == 0x205f || code == 0x3000 || code == 0xfeff
  }

  /** The pieces between the separators; a text without one is its own only piece. */
  function Split(text: string, separator: char): (pieces: seq<string>)
    ensures pieces != []
  {
    if text == "" then [""]
    else
      var before := Split(text[..|text| - 1], separator);
      var c := text[|text| - 1];
      if c == separator then before + [""] else before[..|before| - 1] + [before[|before| - 1] + [c]]
  }

  lemma {:induction false} SplitLast(text: string, separator: char, piece: string)
    requires separator !in piece
    ensures Split(text + [separator] + piece, separator) == Split(text, separator) + [piece]
  {
    var whole := text + [separator] + piece;
    if piece == "" {
      assert whole[..|whole| - 1] == text;
    } else {
      var front := piece[..|piece| - 1];
      assert whole[..|whole| - 1] == text + [separator] + front;
      SplitLast(text, separator, front);
      assert piece == front + [piece[|piece| - 1]];
    }
  }

  lemma {:induction false} SplitNowhere(piece: string, separator: char)
    requires separator !in piece
    ensures Split(piece, separator) == [piece]
  {
    if piece != "" {
      SplitNowhere(piece[..|piece| - 1], separator);
      assert piece == piece[..|piece| - 1] + [piece[|piece| - 1]];
    }
  }

  function HexDigit(c: char): Option<nat> {
    if '0' <= c <= '9' then Some(c as int - '0' as int)
    else if 'a' <= c <= 'f' then Some(10 + c as int - 'a' as int)
    else if 'A' <= c <= 'F' then Some(10 + c as int - 'A' as int)
    else None
  }

  /** The value of the hexadecimal digits a text starts with, after those already read. */
  function HexValue(text: string, read: nat): nat {
    if text == "" || HexDigit(text[0]).None? then read
    else HexValue(text[1..], 16 * read + HexDigit(text[0]).value)
  }

  function TrimStart(text: string): string {
    if text != "" && IsSpace(text[0]) then TrimStart(text[1..]) else text
  }

  /** An integer in base 16: white space, a sign and "0x" may come first, anything may follow the digits. */
  function ParseHex(text: string): Option<int> {
    var trimmed := TrimStart(text);
    var signed := trimmed != "" && trimmed[0] in "+-";
    var number := if signed then trimmed[1..] else trimmed;
    var digits := if |number| >= 2 && number[0] == '0' && number[1] in "xX" then number[2..] else number;
    if digits == "" || HexDigit(digits[0]).None? then None
    else
      var value: int := HexValue(digits, 0);
      Some(if signed && trimmed[0] == '-' then -value else value)
  }
}
