/**
 * JSON values, JavaScript truthiness of a value, and `JSON.stringify` (ECMA-262, section
 * 25.5.2), with a reference reader for the exact text `JSON.stringify` writes; the two are
 * proved to round-trip.
 */
module Json {
  import opened Wrappers
  import opened Text

  /** A JSON value; numbers are integers in this model. */
  datatype Value =
    | Null
    | Bool(b: bool)
    | Number(n: int)
    | String(s: string)
    | Array(elements: seq<Value>)
    | Object(members: seq<Member>)

  /** One property of an object, in insertion order. */
  datatype Member = Member(key: string, value: Value)

  /** JavaScript's ToBoolean: false for null, false, 0 and ""; true for everything else. */
  predicate Truthy(v: Value) {
    match v
    case Null => false
    case Bool(b) => b
    case Number(n) => n != 0
    case String(s) => s != ""
    case Array(_) => true
    case Object(_) => true
  }

  /** The lower-case hexadecimal digit for `d`. */
  function HexChar(d: int): char
    requires 0 <= d < 16
  {
    if d < 10 then (0x30 + d) as char else (0x61 + (d - 10)) as char
  }

  predicate IsHexChar(c: char) {
    '0' <= c <= '9' || 'a' <= c <= 'f' || 'A' <= c <= 'F'
  }

  function HexCharValue(c: char): (v: int)
    requires IsHexChar(c)
    ensures 0 <= v < 16
  {
    if c <= '9' then c as int - 0x30 else if c <= 'F' then c as int - 0x41 + 10 else c as int - 0x61 + 10
  }

  /** The code unit four hexadecimal digits spell, as in a `\uXXXX` escape. */
  function HexQuadValue(a: char, b: char, c: char, d: char): (n: int)
    requires IsHexChar(a) && IsHexChar(b) && IsHexChar(c) && IsHexChar(d)
    ensures 0 <= n < 0x10000
  {
    ((HexCharValue(a) * 16 + HexCharValue(b)) * 16 + HexCharValue(c)) * 16 + HexCharValue(d)
  }

  /** The escape `JSON.stringify` uses for a character, or the character itself. */
  function EscapeChar(c: char): string {
    if c as int == 0x08 then ['\\', 'b']
    else if c as int == 0x09 then ['\\', 't']
    else if c as int == 0x0A then ['\\', 'n']
    else if c as int == 0x0C then ['\\', 'f']
    else if c as int == 0x0D then ['\\', 'r']
    else if c == '"' then ['\\', '"']
    else if c == '\\' then ['\\', '\\']
    else if c as int < 0x20 then ['\\', 'u', '0', '0', HexChar(c as int / 16), HexChar(c as int % 16)]
    else [c]
  }

  function Escape(s: string): string {
    if s == [] then [] else EscapeChar(s[0]) + Escape(s[1..])
  }

  /** QuoteJSONString: the string between double quotes, with its special characters escaped. */
  function Quote(s: string): string {
    ['"'] + Escape(s) + ['"']
  }

  /** `JSON.stringify(v)`: no white space; object members in insertion order. */
  function Stringify(v: Value): string
    decreases v
  {
    match v
    case Null => "null"
    case Bool(b) => if b then "true" else "false"
    case Number(n) => IntegerText(n)
    case String(s) => Quote(s)
    case Array(es) => "[" + StringifyElements(es) + "]"
    case Object(ms) => "{" + StringifyMembers(ms) + "}"
  }

  function StringifyElements(es: seq<Value>): string
    decreases es
  {
    if es == [] then ""
    else if |es| == 1 then Stringify(es[0])
    else Stringify(es[0]) + "," + StringifyElements(es[1..])
  }

  function StringifyMember(m: Member): string
    decreases m
  {
    Quote(m.key) + ":" + Stringify(m.value)
  }

  function StringifyMembers(ms: seq<Member>): string
    decreases ms
  {
    if ms == [] then ""
    else if |ms| == 1 then StringifyMember(ms[0])
    else StringifyMember(ms[0]) + "," + StringifyMembers(ms[1..])
  }

  // ----- The reference reader -----

  /** The character a two-character escape `\e` stands for. */
  function Unescaped(e: char): Option<char> {
    if e == 'b' then Some(0x08 as char)
    else if e == 't' then Some(0x09 as char)
    else if e == 'n' then Some(0x0A as char)
    else if e == 'f' then Some(0x0C as char)
    else if e == 'r' then Some(0x0D as char)
    else if e == '"' then Some('"')
    else if e == '\\' then Some('\\')
    else if e == '/' then Some('/')
    else None
  }

  function Prepend(c: char, r: Option<(string, string)>): Option<(string, string)> {
    if r.None? then None else Some(([c] + r.value.0, r.value.1))
  }

  /** The characters of a string literal up to its closing quote, and the text after that quote. */
  function ReadStringBody(s: string): (r: Option<(string, string)>)
    ensures r.Some? ==> |r.value.1| < |s|
    decreases |s|
  {
    if s == [] then None
    else if s[0] == '"' then Some(([], s[1..]))
    else if s[0] == '\\' then
      if |s| < 2 then None
      else if Unescaped(s[1]).Some? then Prepend(Unescaped(s[1]).value, ReadStringBody(s[2..]))
      else if s[1] == 'u' && |s| >= 6 && IsHexChar(s[2]) && IsHexChar(s[3]) && IsHexChar(s[4]) && IsHexChar(s[5]) then
        var cp := HexQuadValue(s[2], s[3], s[4], s[5]);
        if 0xD800 <= cp < 0xE000 then None else Prepend(cp as char, ReadStringBody(s[6..]))
      else None
    else if s[0] as int < 0x20 then None
    else Prepend(s[0], ReadStringBody(s[1..]))
  }

  /** The length of the run of digits at the front of `s`. */
  function DigitRun(s: string): (n: nat)
    ensures n <= |s| && AllDigits(s[..n])
    ensures n < |s| ==> !IsDigit(s[n])
  {
    if s == [] || !IsDigit(s[0]) then 0
    else
      var n := DigitRun(s[1..]);
      assert s[..n + 1] == [s[0]] + s[1..][..n];
      1 + n
  }

  /** The number spelled by the run of digits at the front of `t`, and the text after it. */
  function ReadMagnitude(t: string): (r: Option<(nat, string)>)
    ensures r.Some? ==> |r.value.1| < |t|
  {
    var n := DigitRun(t);
    if n == 0 then None else Some((DecimalValue(t[..n]), t[n..]))
  }

  /** An integer: an optional minus sign, then digits. */
  function ReadNumber(s: string): (r: Option<(Value, string)>)
    ensures r.Some? ==> |r.value.1| < |s|
  {
    if s != [] && s[0] == '-' then
      var m := ReadMagnitude(s[1..]);
      if m.None? then None else Some((Number(-(m.value.0 as int)), m.value.1))
    else
      var m := ReadMagnitude(s);
      if m.None? then None else Some((Number(m.value.0), m.value.1))
  }

  predicate StartsWith(s: string, prefix: string) {
    |prefix| <= |s| && s[..|prefix|] == prefix
  }

  /** The value at the front of `s` and the text after it. */
  function ReadValue(s: string): (r: Option<(Value, string)>)
    ensures r.Some? ==> |r.value.1| < |s|
    decreases |s|, 0
  {
    if s == [] then None
    else if s[0] == 'n' then
      if StartsWith(s, "null") then Some((Null, s[4..])) else None
    else if s[0] == 't' then
      if StartsWith(s, "true") then Some((Bool(true), s[4..])) else None
    else if s[0] == 'f' then
      if StartsWith(s, "false") then Some((Bool(false), s[5..])) else None
    else if s[0] == '"' then
      var r := ReadStringBody(s[1..]);
      if r.None? then None else Some((String(r.value.0), r.value.1))
    else if s[0] == '-' || IsDigit(s[0]) then ReadNumber(s)
    else if s[0] == '[' then
      if |s| >= 2 && s[1] == ']' then Some((Array([]), s[2..]))
      else
        var r := ReadElements(s[1..]);
        if r.None? then None else Some((Array(r.value.0), r.value.1))
    else if s[0] == '{' then
      if |s| >= 2 && s[1] == '}' then Some((Object([]), s[2..]))
      else
        var r := ReadMembers(s[1..]);
        if r.None? then None else Some((Object(r.value.0), r.value.1))
    else None
  }

  /** Comma-separated values up to and including the closing `]`. */
  function ReadElements(s: string): (r: Option<(seq<Value>, string)>)
    ensures r.Some? ==> |r.value.1| < |s|
    decreases |s|, 1
  {
    var first := ReadValue(s);
    if first.None? then None
    else
      var (v, rest) := first.value;
      if rest == [] then None
      else if rest[0] == ']' then Some(([v], rest[1..]))
      else if rest[0] == ',' then
        var more := ReadElements(rest[1..]);
        if more.None? then None else Some(([v] + more.value.0, more.value.1))
      else None
  }

  /** Comma-separated `"key":value` members up to and including the closing `}`. */
  function ReadMembers(s: string): (r: Option<(seq<Member>, string)>)
    ensures r.Some? ==> |r.value.1| < |s|
    decreases |s|, 1
  {
    if s == [] || s[0] != '"' then None
    else
      var key := ReadStringBody(s[1..]);
      if key.None? || key.value.1 == [] || key.value.1[0] != ':' then None
      else
        var first := ReadValue(key.value.1[1..]);
        if first.None? then None
        else
          var (v, rest) := first.value;
          var m := Member(key.value.0, v);
          if rest == [] then None
          else if rest[0] == '}' then Some(([m], rest[1..]))
          else if rest[0] == ',' then
            var more := ReadMembers(rest[1..]);
            if more.None? then None else Some(([m] + more.value.0, more.value.1))
          else None
  }

  /** The reference parser: the one value that makes up all of `s`. */
  function Parse(s: string): Option<Value> {
    var r := ReadValue(s);
    if r.Some? && r.value.1 == [] then Some(r.value.0) else None
  }

  // ----- Round trip -----

  /** Text that can follow a value without being read as part of it. */
  predicate Delimited(rest: string) {
    rest == [] || rest[0] == ',' || rest[0] == ']' || rest[0] == '}'
  }

  lemma ReadEscapedChar(c: char, t: string)
    ensures ReadStringBody(EscapeChar(c) + t) == Prepend(c, ReadStringBody(t))
  {
    var e := EscapeChar(c);
    EscapeCharShape(c);
    if |e| == 1 {
      ReadPlainChar(c, t);
    } else if |e| == 2 {
      ReadShortEscape(e[1], c, t);
    } else {
      ReadUnicodeEscape(c, t);
    }
  }

  /** The three shapes of `EscapeChar`: the character itself, a two-character escape, or `\u00XX`. */
  lemma EscapeCharShape(c: char)
    ensures var e := EscapeChar(c);
      (|e| == 1 && e == [c] && c != '"' && c != '\\' && c as int >= 0x20)
      || (|e| == 2 && e == ['\\', e[1]] && Unescaped(e[1]) == Some(c))
      || (|e| == 6 && c as int < 0x20 && e == ['\\', 'u', '0', '0', HexChar(c as int / 16), HexChar(c as int % 16)])
  {
  }

  lemma ReadPlainChar(c: char, t: string)
    requires c != '"' && c != '\\' && c as int >= 0x20
    ensures ReadStringBody([c] + t) == Prepend(c, ReadStringBody(t))
  {
    assert ([c] + t)[1..] == t;
  }

  lemma ReadShortEscape(x: char, c: char, t: string)
    requires Unescaped(x) == Some(c)
    ensures ReadStringBody(['\\', x] + t) == Prepend(c, ReadStringBody(t))
  {
    assert (['\\', x] + t)[2..] == t;
  }

  lemma ReadUnicodeEscape(c: char, t: string)
    requires c as int < 0x20
    ensures ReadStringBody(['\\', 'u', '0', '0', HexChar(c as int / 16), HexChar(c as int % 16)] + t) ==
      Prepend(c, ReadStringBody(t))
  {
    var n := c as int;
    var s := ['\\', 'u', '0', '0', HexChar(n / 16), HexChar(n % 16)] + t;
    assert s[1] == 'u' && s[2] == '0' && s[3] == '0' && s[4] == HexChar(n / 16) && s[5] == HexChar(n % 16);
    assert HexCharValue(s[4]) == n / 16 && HexCharValue(s[5]) == n % 16;
    assert HexQuadValue(s[2], s[3], s[4], s[5]) == n;
    assert Unescaped(s[1]).None?;
    assert s[6..] == t;
  }

  lemma {:induction false} ReadQuoted(x: string, rest: string)
    ensures ReadStringBody(Escape(x) + ['"'] + rest) == Some((x, rest))
  {
    if x == [] {
      assert Escape(x) + ['"'] + rest == ['"'] + rest;
    } else {
      assert Escape(x) + ['"'] + rest == EscapeChar(x[0]) + (Escape(x[1..]) + ['"'] + rest);
      ReadEscapedChar(x[0], Escape(x[1..]) + ['"'] + rest);
      ReadQuoted(x[1..], rest);
      assert [x[0]] + x[1..] == x;
    }
  }

  /** A quoted string reads back as the string, whatever follows it. */
  lemma ReadQuote(x: string, rest: string)
    ensures ReadStringBody((Quote(x) + rest)[1..]) == Some((x, rest))
  {
    assert (Quote(x) + rest)[1..] == Escape(x) + ['"'] + rest;
    ReadQuoted(x, rest);
  }

  lemma ReadIntegerText(n: int, rest: string)
    requires Delimited(rest)
    ensures ReadNumber(IntegerText(n) + rest) == Some((Number(n), rest))
  {
    if n < 0 {
      ReadNegativeText(n, rest);
    } else {
      ReadNaturalText(n, rest);
    }
  }

  lemma ReadNegativeText(n: int, rest: string)
    requires n < 0 && Delimited(rest)
    ensures ReadNumber(IntegerText(n) + rest) == Some((Number(n), rest))
  {
    DecimalValueDigits(-n);
    assert IntegerText(n) + rest == "-" + Digits(-n) + rest;
    ReadMinusDigits(Digits(-n), rest);
  }

  lemma ReadNaturalText(n: nat, rest: string)
    requires Delimited(rest)
    ensures ReadNumber(IntegerText(n) + rest) == Some((Number(n), rest))
  {
    DecimalValueDigits(n);
    ReadDigits(Digits(n), rest);
  }

  /** Digits followed by a delimiter read as their number. */
  lemma ReadMagnitudeDigits(d: string, rest: string)
    requires d != [] && AllDigits(d) && Delimited(rest)
    ensures ReadMagnitude(d + rest) == Some((DecimalValue(d), rest))
  {
    var t := d + rest;
    DigitRunAfter(d, rest);
    assert t[..|d|] == d && t[|d|..] == rest;
  }

  lemma ReadDigits(d: string, rest: string)
    requires d != [] && AllDigits(d) && Delimited(rest)
    ensures ReadNumber(d + rest) == Some((Number(DecimalValue(d)), rest))
  {
    assert (d + rest)[0] == d[0] && IsDigit(d[0]);
    ReadMagnitudeDigits(d, rest);
  }

  /** A minus sign and digits followed by a delimiter read as the negated number. */
  lemma ReadMinusDigits(d: string, rest: string)
    requires d != [] && AllDigits(d) && Delimited(rest)
    ensures ReadNumber("-" + d + rest) == Some((Number(-(DecimalValue(d) as int)), rest))
  {
    var s := "-" + d + rest;
    assert s[0] == '-' && s[1..] == d + rest;
    ReadMagnitudeDigits(d, rest);
  }

  lemma {:induction false} DigitRunAfter(d: string, rest: string)
    requires AllDigits(d) && Delimited(rest)
    ensures DigitRun(d + rest) == |d|
  {
    if d != [] {
      assert (d + rest)[1..] == d[1..] + rest;
      DigitRunAfter(d[1..], rest);
    }
  }

  lemma ReadNull(rest: string)
    ensures ReadValue("null" + rest) == Some((Null, rest))
  {
    assert ("null" + rest)[..4] == "null" && ("null" + rest)[4..] == rest;
  }

  lemma ReadTrue(rest: string)
    ensures ReadValue("true" + rest) == Some((Bool(true), rest))
  {
    assert ("true" + rest)[0] == 't';
    assert ("true" + rest)[..4] == "true" && ("true" + rest)[4..] == rest;
  }

  lemma ReadFalse(rest: string)
    ensures ReadValue("false" + rest) == Some((Bool(false), rest))
  {
    assert ("false" + rest)[0] == 'f';
    assert ("false" + rest)[..5] == "false" && ("false" + rest)[5..] == rest;
  }

  lemma ReadNumberValue(n: int, rest: string)
    requires Delimited(rest)
    ensures ReadValue(IntegerText(n) + rest) == Some((Number(n), rest))
  {
    var s := IntegerText(n) + rest;
    ReadIntegerText(n, rest);
    assert s[0] == '-' || IsDigit(s[0]);
  }

  lemma ReadStringValue(x: string, rest: string)
    ensures ReadValue(Quote(x) + rest) == Some((String(x), rest))
  {
    ReadQuote(x, rest);
    assert (Quote(x) + rest)[0] == '"';
  }

  lemma ReadEmptyContainer(open: char, close: char, v: Value, rest: string)
    requires (open, close, v) == ('[', ']', Array([])) || (open, close, v) == ('{', '}', Object([]))
    ensures ReadValue([open, close] + rest) == Some((v, rest))
  {
    assert ([open, close] + rest)[2..] == rest;
  }

  lemma ReadArrayValue(s: string)
    requires |s| >= 2 && s[0] == '[' && s[1] != ']'
    ensures ReadValue(s) ==
      var r := ReadElements(s[1..]);
      if r.None? then None else Some((Array(r.value.0), r.value.1))
  {
  }

  lemma ReadObjectValue(s: string)
    requires |s| >= 2 && s[0] == '{' && s[1] != '}'
    ensures ReadValue(s) ==
      var r := ReadMembers(s[1..]);
      if r.None? then None else Some((Object(r.value.0), r.value.1))
  {
  }

  /** The text `JSON.stringify` writes reads back as the value, whatever delimiter follows it. */
  lemma {:induction false} ReadStringify(v: Value, rest: string)
    requires Delimited(rest)
    ensures ReadValue(Stringify(v) + rest) == Some((v, rest))
    decreases v, 2
  {
    match v
    case Null => ReadNull(rest);
    case Bool(b) => if b { ReadTrue(rest); } else { ReadFalse(rest); }
    case Number(n) => ReadNumberValue(n, rest);
    case String(x) => ReadStringValue(x, rest);
    case Array(es) =>
      if es == [] {
        ReadEmptyContainer('[', ']', v, rest);
        assert Stringify(v) + rest == ['[', ']'] + rest;
      } else {
        ReadArrayStringify(v, rest);
      }
    case Object(ms) =>
      if ms == [] {
        ReadEmptyContainer('{', '}', v, rest);
        assert Stringify(v) + rest == ['{', '}'] + rest;
      } else {
        ReadObjectStringify(v, rest);
      }
  }

  lemma {:induction false} ReadArrayStringify(v: Value, rest: string)
    requires v.Array? && v.elements != [] && Delimited(rest)
    ensures ReadValue(Stringify(v) + rest) == Some((v, rest))
    decreases v, 0
  {
    var es := v.elements;
    var body := StringifyElements(es) + "]" + rest;
    var s := Stringify(v) + rest;
    assert s == "[" + body;
    ElementsHead(es);
    assert s[0] == '[' && s[1..] == body && s[1] == body[0];
    ReadArrayValue(s);
    ReadElementsStringify(es, rest);
  }

  lemma {:induction false} ReadObjectStringify(v: Value, rest: string)
    requires v.Object? && v.members != [] && Delimited(rest)
    ensures ReadValue(Stringify(v) + rest) == Some((v, rest))
    decreases v, 0
  {
    var ms := v.members;
    var body := StringifyMembers(ms) + "}" + rest;
    var s := Stringify(v) + rest;
    assert s == "{" + body;
    MembersHead(ms);
    assert s[0] == '{' && s[1..] == body && s[1] == body[0];
    ReadObjectValue(s);
    ReadMembersStringify(ms, rest);
  }

  lemma ElementsHead(es: seq<Value>)
    requires es != []
    ensures |StringifyElements(es)| > 0 && StringifyElements(es)[0] != ']'
  {
    StringifyHead(es[0]);
    assert StringifyElements(es)[0] == Stringify(es[0])[0];
  }

  lemma MembersHead(ms: seq<Member>)
    requires ms != []
    ensures |StringifyMembers(ms)| > 0 && StringifyMembers(ms)[0] == '"'
  {
  }

  lemma StringifyHead(v: Value)
    ensures |Stringify(v)| > 0
    ensures Stringify(v)[0] in "ntf\"-0123456789[{"
  {
    match v
    case Number(n) =>
      assert IntegerText(n)[0] == '-' || IsDigit(IntegerText(n)[0]);
    case _ =>
  }

  lemma ElementsLast(x: string, v: Value, rest: string)
    requires ReadValue(x) == Some((v, "]" + rest))
    ensures ReadElements(x) == Some(([v], rest))
  {
    assert ("]" + rest)[1..] == rest;
  }

  lemma ElementsNext(x: string, v: Value, tail: string, vs: seq<Value>, rest: string)
    requires ReadValue(x) == Some((v, "," + tail))
    requires ReadElements(tail) == Some((vs, rest))
    ensures ReadElements(x) == Some(([v] + vs, rest))
  {
    assert ("," + tail)[1..] == tail;
  }

  lemma {:induction false} ReadElementsStringify(es: seq<Value>, rest: string)
    requires es != [] && Delimited(rest)
    ensures ReadElements(StringifyElements(es) + "]" + rest) == Some((es, rest))
    decreases es, 1
  {
    if |es| == 1 {
      assert StringifyElements(es) + "]" + rest == Stringify(es[0]) + ("]" + rest);
      ReadStringify(es[0], "]" + rest);
      ElementsLast(Stringify(es[0]) + ("]" + rest), es[0], rest);
      assert es == [es[0]];
    } else {
      ReadFirstOfElements(es, rest);
    }
  }

  lemma {:induction false} ReadFirstOfElements(es: seq<Value>, rest: string)
    requires |es| > 1 && Delimited(rest)
    ensures ReadElements(StringifyElements(es) + "]" + rest) == Some((es, rest))
    decreases es, 0
  {
    var tail := StringifyElements(es[1..]) + "]" + rest;
    ElementsCons(es, rest);
    ReadStringify(es[0], "," + tail);
    ReadElementsStringify(es[1..], rest);
    ElementsNext(Stringify(es[0]) + ("," + tail), es[0], tail, es[1..], rest);
    assert [es[0]] + es[1..] == es;
  }

  lemma MembersLast(x: string, k: string, y: string, v: Value, rest: string)
    requires |x| > 0 && x[0] == '"' && ReadStringBody(x[1..]) == Some((k, ":" + y))
    requires ReadValue(y) == Some((v, "}" + rest))
    ensures ReadMembers(x) == Some(([Member(k, v)], rest))
  {
    assert (":" + y)[1..] == y;
    assert ("}" + rest)[1..] == rest;
  }

  lemma MembersNext(x: string, k: string, y: string, v: Value, tail: string, ms: seq<Member>, rest: string)
    requires |x| > 0 && x[0] == '"' && ReadStringBody(x[1..]) == Some((k, ":" + y))
    requires ReadValue(y) == Some((v, "," + tail))
    requires ReadMembers(tail) == Some((ms, rest))
    ensures ReadMembers(x) == Some(([Member(k, v)] + ms, rest))
  {
    assert (":" + y)[1..] == y;
    assert ("," + tail)[1..] == tail;
  }

  lemma ReadLastMember(m: Member, rest: string)
    requires ReadValue(Stringify(m.value) + ("}" + rest)) == Some((m.value, "}" + rest))
    ensures ReadMembers(StringifyMember(m) + "}" + rest) == Some(([m], rest))
  {
    var y := Stringify(m.value) + ("}" + rest);
    var x := Quote(m.key) + (":" + y);
    assert StringifyMember(m) + "}" + rest == x;
    ReadQuote(m.key, ":" + y);
    MembersLast(x, m.key, y, m.value, rest);
  }

  lemma ReadNextMember(m: Member, tail: string, ms: seq<Member>, rest: string)
    requires ReadValue(Stringify(m.value) + ("," + tail)) == Some((m.value, "," + tail))
    requires ReadMembers(tail) == Some((ms, rest))
    ensures ReadMembers(StringifyMember(m) + "," + tail) == Some(([m] + ms, rest))
  {
    var y := Stringify(m.value) + ("," + tail);
    var x := Quote(m.key) + (":" + y);
    assert StringifyMember(m) + "," + tail == x;
    ReadQuote(m.key, ":" + y);
    MembersNext(x, m.key, y, m.value, tail, ms, rest);
  }

  lemma {:induction false} ReadMembersStringify(ms: seq<Member>, rest: string)
    requires ms != [] && Delimited(rest)
    ensures ReadMembers(StringifyMembers(ms) + "}" + rest) == Some((ms, rest))
    decreases ms, 1
  {
    var m := ms[0];
    if |ms| == 1 {
      ReadStringify(m.value, "}" + rest);
      ReadLastMember(m, rest);
      assert StringifyMembers(ms) == StringifyMember(m);
      assert ms == [m];
    } else {
      ReadFirstOfMembers(ms, rest);
    }
  }

  lemma {:induction false} ReadFirstOfMembers(ms: seq<Member>, rest: string)
    requires |ms| > 1 && Delimited(rest)
    ensures ReadMembers(StringifyMembers(ms) + "}" + rest) == Some((ms, rest))
    decreases ms, 0
  {
    var m := ms[0];
    var tail := StringifyMembers(ms[1..]) + "}" + rest;
    ReadStringify(m.value, "," + tail);
    ReadMembersStringify(ms[1..], rest);
    ReadNextMember(m, tail, ms[1..], rest);
    MembersCons(ms, rest);
    assert [m] + ms[1..] == ms;
  }

  lemma MembersCons(ms: seq<Member>, rest: string)
    requires |ms| > 1
    ensures StringifyMembers(ms) + "}" + rest == StringifyMember(ms[0]) + "," + (StringifyMembers(ms[1..]) + "}" + rest)
  {
    MembersUnfold(ms);
    Associate(StringifyMember(ms[0]), ",", StringifyMembers(ms[1..]), "}", rest);
  }

  lemma ElementsUnfold(es: seq<Value>)
    requires |es| > 1
    ensures StringifyElements(es) == Stringify(es[0]) + "," + StringifyElements(es[1..])
  {
  }

  lemma MembersUnfold(ms: seq<Member>)
    requires |ms| > 1
    ensures StringifyMembers(ms) == StringifyMember(ms[0]) + "," + StringifyMembers(ms[1..])
  {
  }

  lemma Associate(a: string, b: string, c: string, d: string, e: string)
    ensures a + b + c + d + e == a + b + (c + d + e)
  {
  }

  lemma AssociateElements(a: string, b: string, rest: string)
    ensures a + "," + b + "]" + rest == a + ("," + (b + "]" + rest))
  {
  }

  lemma ElementsCons(es: seq<Value>, rest: string)
    requires |es| > 1
    ensures StringifyElements(es) + "]" + rest == Stringify(es[0]) + ("," + (StringifyElements(es[1..]) + "]" + rest))
  {
    ElementsUnfold(es);
    AssociateElements(Stringify(es[0]), StringifyElements(es[1..]), rest);
  }

  /** `JSON.parse(JSON.stringify(v))` gives back `v`. */
  lemma ParseStringify(v: Value)
    ensures Parse(Stringify(v)) == Some(v)
  {
    ReadStringify(v, []);
    assert Stringify(v) + [] == Stringify(v);
  }
}
