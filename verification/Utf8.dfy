/** UTF-8 as section 3 of RFC 3629 defines it, and cutting it between code points only. */
module Utf8 {
  import opened Options
  import opened Bits
  import opened Sequences

  type CodePoint = c: int | (0 <= c < 0xd800) || (0xe000 <= c < 0x11_0000)

  function EncodePoint(c: CodePoint): (r: seq<byte>)
    ensures 1 <= |r| <= 4
  {
    if c < 0x80 then [c]
    else if c < 0x800 then [0xc0 + c / 0x40, 0x80 + c % 0x40]
    else if c < 0x1_0000 then [0xe0 + c / 0x1000, 0x80 + c / 0x40 % 0x40, 0x80 + c % 0x40]
    else [0xf0 + c / 0x4_0000, 0x80 + c / 0x1000 % 0x40, 0x80 + c / 0x40 % 0x40, 0x80 + c % 0x40]
  }

  function Encode(text: seq<CodePoint>): seq<byte> {
    if text == [] then [] else Encode(text[..|text| - 1]) + EncodePoint(text[|text| - 1])
  }

  /** The two top bits are 10. */
  predicate IsContinuation(b: byte) {
    0x80 <= b < 0xc0
  }

  lemma PointShape(c: CodePoint)
    ensures var r := EncodePoint(c);
            !IsContinuation(r[0]) && forall i :: 1 <= i < |r| ==> IsContinuation(r[i])
  {
  }

  // ---- decoding ------------------------------------------------------------------------------------

  /** How many bytes a first byte announces; 0 for one that starts nothing. */
  function Announced(b: byte): nat {
    if b < 0x80 then 1 else if b < 0xc0 then 0 else if b < 0xe0 then 2 else if b < 0xf0 then 3 else if b < 0xf8 then 4 else 0
  }

  function PointOf(r: seq<byte>): int {
    if |r| == 1 then r[0]
    else if |r| == 2 then (r[0] as int - 0xc0) * 0x40 + (r[1] as int - 0x80)
    else if |r| == 3 then (r[0] as int - 0xe0) * 0x1000 + (r[1] as int - 0x80) * 0x40 + (r[2] as int - 0x80)
    else if |r| == 4 then (r[0] as int - 0xf0) * 0x4_0000 + (r[1] as int - 0x80) * 0x1000 + (r[2] as int - 0x80) * 0x40 + (r[3] as int - 0x80)
    else -1
  }

  /** Reads code point after code point; fails on bytes that are not in the shape of any. */
  function Decode(b: seq<byte>): Option<seq<int>>
    decreases |b|
  {
    if b == [] then Some([])
    else
      var n := Announced(b[0]);
      if n == 0 || n > |b| then None
      else
        var rest := Decode(b[n..]);
        if rest.None? then None else Some([PointOf(b[..n])] + rest.value)
  }

  lemma SixBitsAtATime(c: nat)
    ensures c / 0x1000 == c / 0x40 / 0x40 && c / 0x4_0000 == c / 0x1000 / 0x40
    ensures c == c / 0x40 * 0x40 + c % 0x40
  {
  }

  lemma PointRecovered(c: CodePoint)
    ensures Announced(EncodePoint(c)[0]) == |EncodePoint(c)| && PointOf(EncodePoint(c)) == c
  {
    SixBitsAtATime(c);
    SixBitsAtATime(c / 0x40);
    SixBitsAtATime(c / 0x1000);
  }

  lemma {:induction false} EncodeFirst(text: seq<CodePoint>)
    requires text != []
    ensures Encode(text) == EncodePoint(text[0]) + Encode(text[1..])
  {
    hide EncodePoint;
    var n := |text| - 1;
    if n == 0 {
      assert text[..0] == [] && text[1..] == [];
    } else {
      var middle := text[1..n];
      assert text[..n][1..] == middle && text[1..][..n - 1] == middle;
      EncodeFirst(text[..n]);
      Associates(EncodePoint(text[0]), Encode(middle), EncodePoint(text[n]));
    }
  }

  /** Decoding undoes encoding. */
  lemma {:induction false} TextRecovered(text: seq<CodePoint>)
    ensures Decode(Encode(text)) == Some(text)
  {
    if text != [] {
      hide EncodePoint, PointOf, Announced;
      EncodeFirst(text);
      PointRecovered(text[0]);
      TextRecovered(text[1..]);
      var first, rest := EncodePoint(text[0]), Encode(text[1..]);
      assert (first + rest)[|first|..] == rest && (first + rest)[..|first|] == first;
      assert text == [text[0]] + text[1..];
    }
  }

  // ---- cutting ----------------------------------------------------------------------------------------

  lemma {:induction false} EncodePrefix(text: seq<CodePoint>, k: nat)
    requires k <= |text|
    ensures |Encode(text[..k])| <= |Encode(text)| && Encode(text)[..|Encode(text[..k])|] == Encode(text[..k])
    ensures k < |text| ==> |Encode(text[..k])| < |Encode(text)|
  {
    hide EncodePoint;
    if k == |text| {
      assert text[..k] == text;
    } else {
      var front := text[..|text| - 1];
      assert front[..k] == text[..k];
      EncodePrefix(front, k);
    }
  }

  lemma EncodeEnds(text: seq<CodePoint>)
    requires text != []
    ensures Encode(text) == Encode(text[..|text| - 1]) + EncodePoint(text[|text| - 1])
  {
    hide EncodePoint;
  }

  /** A byte starts a code point exactly when a whole number of code points lies before it. */
  lemma {:induction false} Boundaries(text: seq<CodePoint>, at: nat) returns (k: nat)
    requires at < |Encode(text)|
    ensures k < |text| && |Encode(text[..k])| <= at < |Encode(text[..k + 1])|
    ensures !IsContinuation(Encode(text)[at]) <==> at == |Encode(text[..k])|
  {
    var n := |text| - 1;
    var front, last := text[..n], EncodePoint(text[n]);
    PointShape(text[n]);
    EncodeEnds(text);
    hide *;
    if at < |Encode(front)| {
      k := Boundaries(front, at);
      assert front[..k] == text[..k] && front[..k + 1] == text[..k + 1];
    } else {
      k := n;
      assert text[..n + 1] == text;
      assert Encode(text)[at] == last[at - |Encode(front)|];
    }
  }

  /** `kept` code points fit into the limit and one more does not. */
  ghost predicate LongestPrefix(text: seq<CodePoint>, limit: nat, kept: nat) {
    && kept <= |text|
    && |Encode(text[..kept])| <= limit
    && (kept < |text| ==> |Encode(text[..kept + 1])| > limit)
  }

  /** How many code points to keep: drop the last one until the rest fits. */
  ghost function Fitting(text: seq<CodePoint>, limit: nat): (kept: nat)
    ensures LongestPrefix(text, limit, kept)
  {
    if |Encode(text)| <= limit then
      assert text[..|text|] == text;
      |text|
    else
      var front := text[..|text| - 1];
      var kept := Fitting(front, limit);
      assert front[..kept] == text[..kept];
      assert if kept < |front| then front[..kept + 1] == text[..kept + 1] else text[..kept + 1] == text;
      kept
  }

  /**
    Cuts a text's encoding at the limit and steps back to where a code point begins: the result encodes
    the first `Fitting` code points.
   */
  method TruncateUtf8(text: seq<CodePoint>, maxBytes: nat) returns (cut: seq<byte>)
    ensures cut == Encode(text[..Fitting(text, maxBytes)])
  {
    ghost var kept := Fitting(text, maxBytes);
    var bytes := Encode(text);
    if |bytes| <= maxBytes {
      assert text[..|text|] == text;
      return bytes;
    }
    var end := maxBytes;
    ghost var k := Boundaries(text, end);
    hide Encode, Fitting;
    while end > 0 && IsContinuation(bytes[end])
      invariant end <= maxBytes && k < |text|
      invariant |Encode(text[..k])| <= end <= maxBytes < |Encode(text[..k + 1])|
      invariant !IsContinuation(bytes[end]) <==> end == |Encode(text[..k])|
      decreases end
    {
      end := end - 1;
      ghost var j := Boundaries(text, end);
      SamePoint(text, j, k, end);
    }
    EncodePrefix(text, k);
    AtStart(text, k, end);
    LongestIsUnique(text, maxBytes, k, kept);
    cut := bytes[..end];
  }

  lemma SamePoint(text: seq<CodePoint>, j: nat, k: nat, at: nat)
    requires j < |text| && k < |text|
    requires |Encode(text[..j])| <= at < |Encode(text[..j + 1])| && |Encode(text[..k])| <= at < |Encode(text[..k + 1])|
    ensures j == k
  {
    hide EncodePoint, Encode;
    if j < k {
      assert text[..k][..j + 1] == text[..j + 1];
      EncodePrefix(text[..k], j + 1);
    } else if k < j {
      assert text[..j][..k + 1] == text[..k + 1];
      EncodePrefix(text[..j], k + 1);
    }
  }

  lemma AtStart(text: seq<CodePoint>, k: nat, end: nat)
    requires k < |text| && |Encode(text[..k])| <= end <= |Encode(text)|
    requires end > 0 ==> end == |Encode(text[..k])|
    ensures end == |Encode(text[..k])|
  {
  }

  lemma LongestIsUnique(text: seq<CodePoint>, limit: nat, a: nat, b: nat)
    requires LongestPrefix(text, limit, a) && LongestPrefix(text, limit, b)
    ensures a == b
  {
    hide EncodePoint, Encode;
    if a < b {
      assert text[..b][..a + 1] == text[..a + 1];
      EncodePrefix(text[..b], a + 1);
    } else if b < a {
      assert text[..a][..b + 1] == text[..b + 1];
      EncodePrefix(text[..a], b + 1);
    }
  }
}
