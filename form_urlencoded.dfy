/**
 * The `application/x-www-form-urlencoded` format of the WHATWG URL Standard (section 5),
 * and the `URLSearchParams` object whose `set` and `toString` the request builders use.
 * The parser is the reference inverse of the serializer; the two are proved to round-trip.
 */
module FormUrlEncoded {
  import opened Wrappers
  import Utf8
  import Text

  type byte = Utf8.byte

  /** A name-value tuple of a URLSearchParams list. */
  type Pair = (string, string)

  const Ampersand: byte := 0x26
  const EqualsSign: byte := 0x3D
  const PercentSign: byte := 0x25
  const PlusSign: byte := 0x2B
  const Space: byte := 0x20

  /** The bytes the serializer leaves as they are: ASCII alphanumerics and `*`, `-`, `.`, `_`. */
  predicate Unreserved(b: byte) {
    0x30 <= b <= 0x39 || 0x41 <= b <= 0x5A || 0x61 <= b <= 0x7A
    || b == 0x2A || b == 0x2D || b == 0x2E || b == 0x5F
  }

  /** The upper-case hexadecimal digit for `d`. */
  function HexDigit(d: int): byte
    requires 0 <= d < 16
  {
    if d < 10 then 0x30 + d else 0x41 + (d - 10)
  }

  predicate IsHexDigit(b: byte) {
    0x30 <= b <= 0x39 || 0x41 <= b <= 0x46 || 0x61 <= b <= 0x66
  }

  function HexValue(b: byte): int
    requires IsHexDigit(b)
  {
    if b <= 0x39 then b - 0x30 else if b <= 0x46 then b - 0x41 + 10 else b - 0x61 + 10
  }

  /** One byte in the urlencoded form: a space becomes `+`, anything reserved becomes `%XY`. */
  function PercentEncodeByte(b: byte): seq<byte> {
    if b == Space then [PlusSign]
    else if Unreserved(b) then [b]
    else [PercentSign, HexDigit(b / 16), HexDigit(b % 16)]
  }

  function PercentEncodeBytes(bs: seq<byte>): seq<byte> {
    if bs == [] then [] else PercentEncodeByte(bs[0]) + PercentEncodeBytes(bs[1..])
  }

  /** A name or a value as the serializer writes it: UTF-8 first, then percent-encoded. */
  function EncodeComponent(s: string): seq<byte> {
    PercentEncodeBytes(Utf8.Encode(s))
  }

  function EncodePair(p: Pair): seq<byte> {
    EncodeComponent(p.0) + [EqualsSign] + EncodeComponent(p.1)
  }

  /** The serializer's output in bytes: every tuple as `name=value`, joined by `&`. */
  function SerializeBytes(pairs: seq<Pair>): seq<byte> {
    if pairs == [] then []
    else if |pairs| == 1 then EncodePair(pairs[0])
    else EncodePair(pairs[0]) + [Ampersand] + SerializeBytes(pairs[1..])
  }

  /** Bytes read as characters of the same code. */
  function AsString(bs: seq<byte>): (s: string)
    ensures |s| == |bs|
  {
    seq(|bs|, i requires 0 <= i < |bs| => bs[i] as char)
  }

  /** The string `URLSearchParams.prototype.toString` returns for a list of tuples. */
  function Serialize(pairs: seq<Pair>): string {
    AsString(SerializeBytes(pairs))
  }

  function PlusToSpace(bs: seq<byte>): (r: seq<byte>)
    ensures |r| == |bs|
    ensures forall k | 0 <= k < |bs| :: r[k] == if bs[k] == PlusSign then Space else bs[k]
  {
    if bs == [] then [] else [if bs[0] == PlusSign then Space else bs[0]] + PlusToSpace(bs[1..])
  }

  /** Percent-decoding: `%` and two hexadecimal digits stand for one byte; any other byte is itself. */
  function PercentDecode(bs: seq<byte>): seq<byte>
    decreases |bs|
  {
    if bs == [] then []
    else if bs[0] == PercentSign && |bs| >= 3 && IsHexDigit(bs[1]) && IsHexDigit(bs[2]) then
      [HexValue(bs[1]) * 16 + HexValue(bs[2])] + PercentDecode(bs[3..])
    else [bs[0]] + PercentDecode(bs[1..])
  }

  /** A name or value read back: `+` as space, percent-decoded, then UTF-8 decoded. */
  function DecodeComponent(bs: seq<byte>): Option<string> {
    Utf8.Decode(PercentDecode(PlusToSpace(bs)))
  }

  /** One `&`-separated sequence: the name before the first `=`, the value after it. */
  function ParsePair(bs: seq<byte>): Option<Pair> {
    var j := Text.IndexOf(bs, EqualsSign);
    var name := DecodeComponent(bs[..j]);
    var value := DecodeComponent(if j < |bs| then bs[j + 1..] else []);
    if name.Some? && value.Some? then Some((name.value, value.value)) else None
  }

  /** The urlencoded parser on bytes; empty sequences between `&`s are skipped. */
  function ParseBytes(bs: seq<byte>): Option<seq<Pair>>
    decreases |bs|
  {
    if bs == [] then Some([])
    else
      var i := Text.IndexOf(bs, Ampersand);
      var tail := ParseBytes(if i < |bs| then bs[i + 1..] else []);
      if i == 0 then tail
      else
        var head := ParsePair(bs[..i]);
        if head.Some? && tail.Some? then Some([head.value] + tail.value) else None
  }

  /**
   * The tuples a query string stands for, or None where the standard's parser would have to
   * substitute U+FFFD for ill-formed UTF-8.
   */
  function ParseQuery(s: string): Option<seq<Pair>> {
    ParseBytes(Utf8.Encode(s))
  }

  // ----- The serializer's alphabet -----

  /** The bytes the serializer can write. */
  predicate OutputByte(b: byte) {
    Unreserved(b) || b == PercentSign || b == PlusSign
  }

  lemma {:induction false} PercentEncodeBytesAlphabet(bs: seq<byte>)
    ensures forall k | 0 <= k < |PercentEncodeBytes(bs)| :: OutputByte(PercentEncodeBytes(bs)[k])
  {
    if bs != [] {
      PercentEncodeBytesAlphabet(bs[1..]);
      var h, t := PercentEncodeByte(bs[0]), PercentEncodeBytes(bs[1..]);
      assert forall k | 0 <= k < |h + t| :: (h + t)[k] == if k < |h| then h[k] else t[k - |h|];
    }
  }

  lemma {:induction false} SerializeBytesAscii(pairs: seq<Pair>)
    ensures forall k | 0 <= k < |SerializeBytes(pairs)| :: SerializeBytes(pairs)[k] < 0x80
  {
    if pairs != [] {
      var p := pairs[0];
      PercentEncodeBytesAlphabet(Utf8.Encode(p.0));
      PercentEncodeBytesAlphabet(Utf8.Encode(p.1));
      if |pairs| > 1 {
        SerializeBytesAscii(pairs[1..]);
      }
    }
  }

  // ----- Round trip -----

  lemma PercentDecodeFront(b: byte, rest: seq<byte>)
    ensures PercentDecode(PlusToSpace(PercentEncodeByte(b)) + rest) == [b] + PercentDecode(rest)
  {
    var e := PlusToSpace(PercentEncodeByte(b));
    if b == Space || Unreserved(b) {
      assert (e + rest)[1..] == rest;
    } else {
      assert e == [PercentSign, HexDigit(b / 16), HexDigit(b % 16)];
      assert (e + rest)[3..] == rest;
    }
  }

  lemma PlusToSpaceAppend(a: seq<byte>, b: seq<byte>)
    ensures PlusToSpace(a + b) == PlusToSpace(a) + PlusToSpace(b)
  {
  }

  /** Percent-decoding undoes percent-encoding, byte for byte. */
  lemma {:induction false} PercentRoundTrip(bs: seq<byte>)
    ensures PercentDecode(PlusToSpace(PercentEncodeBytes(bs))) == bs
  {
    if bs != [] {
      PlusToSpaceAppend(PercentEncodeByte(bs[0]), PercentEncodeBytes(bs[1..]));
      PercentDecodeFront(bs[0], PlusToSpace(PercentEncodeBytes(bs[1..])));
      PercentRoundTrip(bs[1..]);
    }
  }

  lemma ComponentRoundTrip(s: string)
    ensures DecodeComponent(EncodeComponent(s)) == Some(s)
  {
    PercentRoundTrip(Utf8.Encode(s));
    Utf8.DecodeEncode(s);
  }

  lemma ParsePairRoundTrip(p: Pair)
    ensures ParsePair(EncodePair(p)) == Some(p)
  {
    var n, v := EncodeComponent(p.0), EncodeComponent(p.1);
    PercentEncodeBytesAlphabet(Utf8.Encode(p.0));
    Text.IndexOfAfter(n, EqualsSign, v);
    var bs := EncodePair(p);
    assert bs[..|n|] == n;
    assert bs[|n| + 1..] == v;
    ComponentRoundTrip(p.0);
    ComponentRoundTrip(p.1);
  }

  lemma EncodePairAlphabet(p: Pair)
    ensures |EncodePair(p)| > 0
    ensures forall k | 0 <= k < |EncodePair(p)| :: EncodePair(p)[k] != Ampersand
  {
    PercentEncodeBytesAlphabet(Utf8.Encode(p.0));
    PercentEncodeBytesAlphabet(Utf8.Encode(p.1));
  }

  lemma ParseBytesSingle(p: Pair)
    ensures ParseBytes(EncodePair(p)) == Some([p])
  {
    var e := EncodePair(p);
    EncodePairAlphabet(p);
    ParsePairRoundTrip(p);
    Text.IndexOfAbsent(e, Ampersand);
    assert e[..|e|] == e;
    assert [p] + [] == [p];
  }

  lemma ParseBytesCons(p: Pair, rest: seq<byte>)
    ensures ParseBytes(EncodePair(p) + [Ampersand] + rest) ==
      if ParseBytes(rest).Some? then Some([p] + ParseBytes(rest).value) else None
  {
    var e := EncodePair(p);
    var bs := e + [Ampersand] + rest;
    EncodePairAlphabet(p);
    ParsePairRoundTrip(p);
    Text.IndexOfAfter(e, Ampersand, rest);
    assert bs[..|e|] == e;
    assert bs[|e| + 1..] == rest;
  }

  lemma {:induction false} ParseBytesRoundTrip(pairs: seq<Pair>)
    ensures ParseBytes(SerializeBytes(pairs)) == Some(pairs)
  {
    if |pairs| == 1 {
      ParseBytesSingle(pairs[0]);
      assert SerializeBytes(pairs) == EncodePair(pairs[0]);
      assert pairs == [pairs[0]];
    } else if |pairs| > 1 {
      ParseBytesCons(pairs[0], SerializeBytes(pairs[1..]));
      ParseBytesRoundTrip(pairs[1..]);
      assert [pairs[0]] + pairs[1..] == pairs;
    }
  }

  /** The serialized form of a URLSearchParams list parses back to exactly that list. */
  lemma SerializeRoundTrip(pairs: seq<Pair>)
    ensures ParseQuery(Serialize(pairs)) == Some(pairs)
  {
    var bs := SerializeBytes(pairs);
    SerializeBytesAscii(pairs);
    Utf8.EncodeAscii(AsString(bs));
    assert Utf8.Encode(AsString(bs)) == bs;
    ParseBytesRoundTrip(pairs);
  }

  /** The serializer writes the empty string exactly for the empty list. */
  lemma SerializeEmpty(pairs: seq<Pair>)
    ensures Serialize(pairs) == "" <==> pairs == []
  {
    if pairs != [] {
      EncodePairAlphabet(pairs[0]);
    }
  }

  // ----- The URLSearchParams list -----

  function Names(list: seq<Pair>): (ns: seq<string>)
    ensures |ns| == |list|
    ensures forall k | 0 <= k < |list| :: ns[k] == list[k].0
  {
    if list == [] then [] else [list[0].0] + Names(list[1..])
  }

  /** The list without any tuple named `name`, others kept in order. */
  function Without(list: seq<Pair>, name: string): seq<Pair> {
    if list == [] then []
    else if list[0].0 == name then Without(list[1..], name)
    else [list[0]] + Without(list[1..], name)
  }

  /** The value of the first tuple named `name` (what `URLSearchParams.prototype.get` returns). */
  function Lookup(list: seq<Pair>, name: string): Option<string> {
    if list == [] then None
    else if list[0].0 == name then Some(list[0].1)
    else Lookup(list[1..], name)
  }

  function ReplaceFirst(list: seq<Pair>, name: string, value: string): seq<Pair>
    requires name in Names(list)
  {
    if list[0].0 == name then [(name, value)] + Without(list[1..], name)
    else [list[0]] + ReplaceFirst(list[1..], name, value)
  }

  /**
   * `URLSearchParams.prototype.set`: the first tuple named `name` takes the new value and the
   * other tuples of that name are removed; with no such tuple, the pair is appended.
   */
  function SetEntry(list: seq<Pair>, name: string, value: string): seq<Pair> {
    if name in Names(list) then ReplaceFirst(list, name, value) else list + [(name, value)]
  }

  lemma {:induction false} WithoutAbsent(list: seq<Pair>, name: string)
    requires name !in Names(list)
    ensures Without(list, name) == list
  {
    if list != [] {
      assert name !in Names(list[1..]);
      WithoutAbsent(list[1..], name);
    }
  }

  lemma {:induction false} WithoutAppend(a: seq<Pair>, b: seq<Pair>, name: string)
    ensures Without(a + b, name) == Without(a, name) + Without(b, name)
  {
    if a == [] {
      assert a + b == b;
    } else {
      assert (a + b)[1..] == a[1..] + b;
      WithoutAppend(a[1..], b, name);
    }
  }

  lemma {:induction false} WithoutTwice(list: seq<Pair>, name: string)
    ensures Without(Without(list, name), name) == Without(list, name)
    ensures Lookup(Without(list, name), name) == None
  {
    if list != [] {
      WithoutTwice(list[1..], name);
    }
  }

  lemma {:induction false} ReplaceFirstSpec(list: seq<Pair>, name: string, value: string)
    requires name in Names(list)
    ensures Lookup(ReplaceFirst(list, name, value), name) == Some(value)
    ensures Without(ReplaceFirst(list, name, value), name) == Without(list, name)
  {
    if list[0].0 == name {
      WithoutTwice(list[1..], name);
    } else {
      assert name in Names(list[1..]);
      ReplaceFirstSpec(list[1..], name, value);
    }
  }

  /** The index of the first tuple named `name`. */
  function FirstIndex(list: seq<Pair>, name: string): (i: nat)
    requires name in Names(list)
    ensures i < |list| && list[i].0 == name
    ensures forall k | 0 <= k < i :: list[k].0 != name
  {
    if list[0].0 == name then 0 else FirstIndexTail(list, name); 1 + FirstIndex(list[1..], name)
  }

  lemma FirstIndexTail(list: seq<Pair>, name: string)
    requires name in Names(list) && list[0].0 != name
    ensures name in Names(list[1..])
  {
    var k :| 0 <= k < |list| && Names(list)[k] == name;
    assert Names(list[1..])[k - 1] == name;
  }

  lemma {:induction false} WithoutFree(list: seq<Pair>, name: string)
    ensures forall k | 0 <= k < |Without(list, name)| :: Without(list, name)[k].0 != name
  {
    if list != [] {
      WithoutFree(list[1..], name);
    }
  }

  /** The first tuple of the name takes the new value in place; after it, the others of that name are gone. */
  lemma {:induction false} ReplaceFirstShape(list: seq<Pair>, name: string, value: string)
    requires name in Names(list)
    ensures var i := FirstIndex(list, name);
      ReplaceFirst(list, name, value) == list[..i] + [(name, value)] + Without(list[i + 1..], name)
  {
    if list[0].0 != name {
      FirstIndexTail(list, name);
      ReplaceFirstShape(list[1..], name, value);
      var j := FirstIndex(list[1..], name);
      ConsShape(list, j, (name, value), Without(list[1..][j + 1..], name));
      assert list[1..][j + 1..] == list[j + 2..];
    }
  }

  lemma ConsShape(list: seq<Pair>, j: nat, p: Pair, w: seq<Pair>)
    requires j + 1 < |list|
    ensures [list[0]] + (list[1..][..j] + [p] + w) == list[..j + 1] + [p] + w
  {
    assert list[..j + 1] == [list[0]] + list[1..][..j];
  }

  /** At most one tuple of `r` is named `name`. */
  predicate Single(r: seq<Pair>, name: string) {
    forall i, j | 0 <= i < j < |r| && r[i].0 == name :: r[j].0 != name
  }

  /** A tuple between two stretches free of its name is the only one of that name. */
  lemma SingleBetween(r: seq<Pair>, prefix: seq<Pair>, p: Pair, w: seq<Pair>)
    requires r == prefix + [p] + w
    requires forall k | 0 <= k < |prefix| :: prefix[k].0 != p.0
    requires forall k | 0 <= k < |w| :: w[k].0 != p.0
    ensures Single(r, p.0)
  {
    assert forall k | 0 <= k < |prefix| :: r[k] == prefix[k];
    assert forall k | |prefix| < k < |r| :: r[k] == w[k - |prefix| - 1];
  }

  lemma AfterPrefix(prefix: seq<Pair>, p: Pair, w: seq<Pair>)
    ensures var r := prefix + [p] + w; |prefix| < |r| && r[..|prefix|] == prefix && r[|prefix|] == p
  {
    var r := prefix + [p] + w;
    assert r[..|prefix|] == prefix;
  }

  lemma SetEntryPresent(list: seq<Pair>, name: string, value: string)
    requires name in Names(list)
    ensures Single(SetEntry(list, name, value), name)
    ensures var i := FirstIndex(list, name);
      i < |SetEntry(list, name, value)| && SetEntry(list, name, value)[..i] == list[..i]
      && SetEntry(list, name, value)[i] == (name, value)
  {
    ReplaceFirstShape(list, name, value);
    var i := FirstIndex(list, name);
    var prefix, rest := list[..i], Without(list[i + 1..], name);
    var r := SetEntry(list, name, value);
    assert r == prefix + [(name, value)] + rest;
    WithoutFree(list[i + 1..], name);
    SingleBetween(r, prefix, (name, value), rest);
    AfterPrefix(prefix, (name, value), rest);
  }

  lemma SetEntryAbsent(list: seq<Pair>, name: string, value: string)
    requires name !in Names(list)
    ensures Single(SetEntry(list, name, value), name)
    ensures Without(SetEntry(list, name, value), name) == Without(list, name)
    ensures Lookup(SetEntry(list, name, value), name) == Some(value)
  {
    WithoutAbsent(list, name);
    WithoutAppend(list, [(name, value)], name);
    LookupAppendAbsent(list, name, value);
    assert forall k | 0 <= k < |list| :: Names(list)[k] == list[k].0;
    SingleBetween(list + [(name, value)], list, (name, value), []);
  }

  /**
   * After `set(name, value)`, looking `name` up gives `value` and it is the only tuple of that
   * name; it stands where the first tuple of that name stood, or at the end when there was
   * none; and the tuples of every other name are exactly as before.
   */
  lemma SetEntrySpec(list: seq<Pair>, name: string, value: string)
    ensures Lookup(SetEntry(list, name, value), name) == Some(value)
    ensures Single(SetEntry(list, name, value), name)
    ensures Without(SetEntry(list, name, value), name) == Without(list, name)
    ensures name in Names(list) ==> var i := FirstIndex(list, name);
      i < |SetEntry(list, name, value)| && SetEntry(list, name, value)[..i] == list[..i]
      && SetEntry(list, name, value)[i] == (name, value)
    ensures name !in Names(list) ==>
      |SetEntry(list, name, value)| == |list| + 1 && SetEntry(list, name, value)[|list|] == (name, value)
  {
    if name in Names(list) {
      ReplaceFirstSpec(list, name, value);
      SetEntryPresent(list, name, value);
    } else {
      SetEntryAbsent(list, name, value);
    }
  }

  lemma {:induction false} LookupAppendAbsent(list: seq<Pair>, name: string, value: string)
    requires name !in Names(list)
    ensures Lookup(list + [(name, value)], name) == Some(value)
  {
    if list != [] {
      assert (list + [(name, value)])[1..] == list[1..] + [(name, value)];
      assert name !in Names(list[1..]);
      LookupAppendAbsent(list[1..], name, value);
    }
  }

  /** The `URLSearchParams` object: a list of name-value tuples that `set` updates in place. */
  class UrlSearchParams {
    var list: seq<Pair>

    /** `new URLSearchParams()`: the empty list. */
    constructor ()
      ensures list == []
    {
      list := [];
    }

    /** `set(name, value)`. */
    method Set(name: string, value: string)
      modifies this
      ensures list == SetEntry(old(list), name, value)
    {
      list := SetEntry(list, name, value);
    }

    /** `toString()`: the urlencoded serialization, which parses back to the list. */
    method ToString() returns (s: string)
      ensures s == Serialize(list)
      ensures ParseQuery(s) == Some(list)
    {
      s := Serialize(list);
      SerializeRoundTrip(list);
    }
  }
}
