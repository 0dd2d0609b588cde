/** A player's response on its way to the replay: bytes, then text for the core, then bytes again. */
module ReplayResponses {
  import opened Options
  import opened Bits
  import opened Texts

  const HEX := "0123456789abcdef"

  function HexByte(b: byte): string {
    [HEX[b / 16], HEX[b % 16]]
  }

  /** The hexadecimal bytes with bars between them. */
  function ResponseText(data: seq<byte>): string {
    if data == [] then ""
    else if |data| == 1 then HexByte(data[0])
    else ResponseText(data[..|data| - 1]) + ['|'] + HexByte(data[|data| - 1])
  }

  /** What a buffer stores for a number: its last eight bits, and zero for none. */
  function ByteOf(number: Option<int>): byte {
    if number.None? then 0 else number.value % 256
  }

  function BytesOf(pieces: seq<string>): (data: seq<byte>)
    ensures |data| == |pieces|
  {
    seq(|pieces|, i requires 0 <= i < |pieces| => ByteOf(ParseHex(pieces[i])))
  }

  function ParsedResponse(text: string): seq<byte> {
    BytesOf(Split(text, '|'))
  }

  /** A response that has bytes comes back; one that has none would come back as a zero byte. */
  lemma ResponseRecovered(data: seq<byte>)
    ensures ParsedResponse(ResponseText(data)) == if data != [] then data else [0]
  {
    if data == [] {
      assert ParseHex("") == None;
    } else {
      TextSplits(data);
      BytesRead(data);
    }
  }

  function HexBytes(data: seq<byte>): (r: seq<string>)
    ensures |r| == |data|
  {
    if data == [] then [] else HexBytes(data[..|data| - 1]) + [HexByte(data[|data| - 1])]
  }

  lemma {:induction false} TextSplits(data: seq<byte>)
    requires data != []
    ensures Split(ResponseText(data), '|') == HexBytes(data)
  {
    hide Split, HexByte;
    var front, last := data[..|data| - 1], data[|data| - 1];
    NoBar(last);
    if front == [] {
      SplitNowhere(HexByte(last), '|');
    } else {
      TextSplits(front);
      SplitLast(ResponseText(front), '|', HexByte(last));
    }
  }

  lemma {:induction false} BytesRead(data: seq<byte>)
    ensures BytesOf(HexBytes(data)) == data
  {
    hide ByteOf, ParseHex, HexByte;
    if data != [] {
      BytesRead(data[..|data| - 1]);
      HexByteRead(data[|data| - 1]);
    }
  }

  lemma DigitRead(d: nat)
    requires d < 16
    ensures HexDigit(HEX[d]) == Some(d) && !IsSpace(HEX[d]) && HEX[d] !in "+-|xX"
  {
  }

  lemma NoBar(b: byte)
    ensures '|' !in HexByte(b)
  {
    DigitRead(b / 16);
    DigitRead(b % 16);
  }

  lemma HexByteRead(b: byte)
    ensures ByteOf(ParseHex(HexByte(b))) == b
  {
    var high, low := b / 16, b % 16;
    DigitRead(high);
    DigitRead(low);
    TwoDigits(HEX[high], HEX[low], high, low);
  }

  lemma TwoDigits(c: char, d: char, high: nat, low: nat)
    requires HexDigit(c) == Some(high) && HexDigit(d) == Some(low) && !IsSpace(c) && c !in "+-" && d !in "xX"
    ensures ParseHex([c, d]) == Some(16 * high + low)
  {
    var text := [c, d];
    hide HexDigit, IsSpace;
    assert text[1..] == [d] && [d][1..] == "";
    assert TrimStart(text) == text;
    assert HexValue([d], high) == 16 * high + low by {
      assert HexValue("", 16 * high + low) == 16 * high + low;
    }
    assert HexValue(text, 0) == HexValue([d], high);
    hide TrimStart, HexValue;
  }
}
