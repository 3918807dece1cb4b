/**
 * Base64 (section 4 of RFC 4648) and the platform's `btoa`, which applies it to a string whose
 * characters are all at most U+00FF, reading each character as one byte.
 */
module Base64 {
  import opened Wrappers
  import Utf8

  type byte = Utf8.byte

  /** The six-bit value `v` as a character of the base64 alphabet. */
  function Symbol(v: int): char
    requires 0 <= v < 64
  {
    if v < 26 then (0x41 + v) as char
    else if v < 52 then (0x61 + (v - 26)) as char
    else if v < 62 then (0x30 + (v - 52)) as char
    else if v == 62 then '+'
    else '/'
  }

  /** The six-bit value of an alphabet character; None for `=` and every other character. */
  function SymbolValue(c: char): (r: Option<int>)
    ensures r.Some? ==> 0 <= r.value < 64
  {
    var n := c as int;
    if 0x41 <= n <= 0x5A then Some(n - 0x41)
    else if 0x61 <= n <= 0x7A then Some(n - 0x61 + 26)
    else if 0x30 <= n <= 0x39 then Some(n - 0x30 + 52)
    else if c == '+' then Some(62)
    else if c == '/' then Some(63)
    else None
  }

  lemma SymbolValueSymbol(v: int)
    requires 0 <= v < 64
    ensures SymbolValue(Symbol(v)) == Some(v)
  {
  }

  /** Every three bytes become four characters; a final one or two bytes are padded with `=`. */
  function Encode(bs: seq<byte>): (s: string)
    ensures |s| == 4 * ((|bs| + 2) / 3)
    decreases |bs|
  {
    if |bs| == 0 then []
    else if |bs| == 1 then
      [Symbol(bs[0] / 4), Symbol(bs[0] % 4 * 16), '=', '=']
    else if |bs| == 2 then
      [Symbol(bs[0] / 4), Symbol(bs[0] % 4 * 16 + bs[1] / 16), Symbol(bs[1] % 16 * 4), '=']
    else
      EncodeQuantum(bs[0], bs[1], bs[2]) + Encode(bs[3..])
  }

  /** Three bytes as four six-bit symbols. */
  function EncodeQuantum(b0: byte, b1: byte, b2: byte): (q: string)
    ensures |q| == 4 && q[3] != '='
  {
    [Symbol(b0 / 4), Symbol(b0 % 4 * 16 + b1 / 16), Symbol(b1 % 16 * 4 + b2 / 64), Symbol(b2 % 64)]
  }

  /** The bytes of one padded or unpadded quantum of four characters. */
  function DecodeQuantum(q: string): Option<seq<byte>>
    requires |q| == 4
  {
    var v0, v1, v2, v3 := SymbolValue(q[0]), SymbolValue(q[1]), SymbolValue(q[2]), SymbolValue(q[3]);
    if v0.None? || v1.None? then None
    else if q[2] == '=' && q[3] == '=' then
      Some([v0.value * 4 + v1.value / 16])
    else if v2.None? then None
    else if q[3] == '=' then
      Some([v0.value * 4 + v1.value / 16, v1.value % 16 * 16 + v2.value / 4])
    else if v3.None? then None
    else
      Some([v0.value * 4 + v1.value / 16, v1.value % 16 * 16 + v2.value / 4, v2.value % 4 * 64 + v3.value])
  }

  /** The reference decoder: padding is accepted only in the final quantum. */
  function Decode(s: string): Option<seq<byte>>
    decreases |s|
  {
    if |s| == 0 then Some([])
    else if |s| < 4 then None
    else
      var head := DecodeQuantum(s[..4]);
      if head.None? then None
      else if |s| > 4 && s[3] == '=' then None
      else
        var tail := Decode(s[4..]);
        if tail.None? then None else Some(head.value + tail.value)
  }

  lemma DecodeFullQuantum(b0: byte, b1: byte, b2: byte)
    ensures DecodeQuantum(EncodeQuantum(b0, b1, b2)) == Some([b0, b1, b2])
  {
    var s1, s2 := b0 % 4 * 16 + b1 / 16, b1 % 16 * 4 + b2 / 64;
    SymbolValueSymbol(b0 / 4);
    SymbolValueSymbol(s1);
    SymbolValueSymbol(s2);
    SymbolValueSymbol(b2 % 64);
    assert s1 / 16 == b0 % 4 && s1 % 16 == b1 / 16;
    assert s2 / 4 == b1 % 16 && s2 % 4 == b2 / 64;
  }

  lemma DecodeOneByte(b0: byte)
    ensures Decode(Encode([b0])) == Some([b0])
  {
    var s := Encode([b0]);
    SymbolValueSymbol(b0 / 4);
    SymbolValueSymbol(b0 % 4 * 16);
    assert s[..4] == s && s[4..] == [];
    assert DecodeQuantum(s) == Some([b0]);
    assert Decode([]) == Some([]);
    assert [b0] + [] == [b0];
  }

  lemma DecodeTwoBytes(b0: byte, b1: byte)
    ensures Decode(Encode([b0, b1])) == Some([b0, b1])
  {
    var s := Encode([b0, b1]);
    var s1 := b0 % 4 * 16 + b1 / 16;
    SymbolValueSymbol(b0 / 4);
    SymbolValueSymbol(s1);
    SymbolValueSymbol(b1 % 16 * 4);
    assert s1 / 16 == b0 % 4 && s1 % 16 == b1 / 16;
    assert s[..4] == s && s[4..] == [];
    assert DecodeQuantum(s) == Some([b0, b1]);
    assert Decode([]) == Some([]);
    assert [b0, b1] + [] == [b0, b1];
  }

  lemma DecodeAfterQuantum(b0: byte, b1: byte, b2: byte, rest: string)
    ensures Decode(EncodeQuantum(b0, b1, b2) + rest) ==
      if Decode(rest).Some? then Some([b0, b1, b2] + Decode(rest).value) else None
  {
    var q := EncodeQuantum(b0, b1, b2);
    var s := q + rest;
    DecodeFullQuantum(b0, b1, b2);
    assert s[..4] == q;
    assert s[4..] == rest;
  }

  /** Decoding inverts encoding on every byte string. */
  lemma {:induction false} DecodeEncode(bs: seq<byte>)
    ensures Decode(Encode(bs)) == Some(bs)
    decreases |bs|, 1
  {
    if |bs| == 1 {
      DecodeOneByte(bs[0]);
      assert bs == [bs[0]];
    } else if |bs| == 2 {
      DecodeTwoBytes(bs[0], bs[1]);
      assert bs == [bs[0], bs[1]];
    } else if |bs| > 2 {
      DecodeEncodeQuanta(bs);
    }
  }

  lemma {:induction false} DecodeEncodeQuanta(bs: seq<byte>)
    requires |bs| > 2
    ensures Decode(Encode(bs)) == Some(bs)
    decreases |bs|, 0
  {
    assert Encode(bs) == EncodeQuantum(bs[0], bs[1], bs[2]) + Encode(bs[3..]);
    DecodeAfterQuantum(bs[0], bs[1], bs[2], Encode(bs[3..]));
    DecodeEncode(bs[3..]);
    assert [bs[0], bs[1], bs[2]] + bs[3..] == bs;
  }

  /** True when every character of `s` fits in one byte, as `btoa` demands. */
  predicate IsBinaryString(s: string) {
    forall i | 0 <= i < |s| :: s[i] as int < 0x100
  }

  /** The byte per character of a string of characters up to U+00FF. */
  function Latin1(s: string): (bs: seq<byte>)
    requires IsBinaryString(s)
    ensures |bs| == |s|
  {
    seq(|s|, i requires 0 <= i < |s| => s[i] as int)
  }

  /**
   * `btoa(s)`: the base64 form of the bytes of `s`, or None where `btoa` throws an
   * `InvalidCharacterError` because some character is above U+00FF.
   */
  function Btoa(s: string): (r: Option<string>)
    ensures r.Some? <==> IsBinaryString(s)
    ensures r.Some? ==> Decode(r.value) == Some(Latin1(s))
  {
    if IsBinaryString(s) then
      DecodeEncode(Latin1(s));
      Some(Encode(Latin1(s)))
    else None
  }
}
