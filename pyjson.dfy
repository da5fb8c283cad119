/** JSON values as Python sees them after `json.loads`, the handful of Python
    operations the handlers apply to them, `json.dumps` of a string, and the
    `unicode_escape` decoding behind `decode_unicode_strings`. */
module PyJson {
  import opened Common
  import opened PyStr

  // ---------------------------------------------------------------------------
  // Values and the Python operations on them

  /** What `json.loads` returns. Numbers are kept integral. */
  datatype JsonValue =
    | JNull
    | JBool(b: bool)
    | JNumber(n: int)
    | JString(s: string)
    | JArray(items: seq<JsonValue>)
    | JObject(fields: map<string, JsonValue>)

  function TypeName(v: JsonValue): string
  {
    match v
    case JNull => "NoneType"
    case JBool(_) => "bool"
    case JNumber(_) => "int"
    case JString(_) => "str"
    case JArray(_) => "list"
    case JObject(_) => "dict"
  }

  /** Python truthiness (`if v:`): only `None`, `False`, `0` and empty containers are false. */
  predicate Truthy(v: JsonValue)
  {
    match v
    case JNull => false
    case JBool(b) => b
    case JNumber(n) => n != 0
    case JString(s) => s != ""
    case JArray(items) => items != []
    case JObject(fields) => fields != map[]
  }

  /** `v[k]` for a string key `k`. */
  function Subscript(v: JsonValue, k: string): (r: Result<JsonValue, Exception>)
    ensures r.Ok? <==> v.JObject? && k in v.fields
    ensures r.Ok? ==> r.value == v.fields[k]
    ensures v.JObject? && k !in v.fields ==> r == Err(MissingKey(k))
    ensures !v.JObject? ==> r.Err? && r.error.TypeError?
  {
    match v
    case JObject(fields) => if k in fields then Ok(fields[k]) else Err(MissingKey(k))
    case JArray(_) => Err(TypeError("list indices must be integers or slices, not str"))
    case JString(_) => Err(TypeError("string indices must be integers, not 'str'"))
    case _ => Err(TypeError("'" + TypeName(v) + "' object is not subscriptable"))
  }

  /** `v.get(k, default)`: only a dict has `get`. */
  function Get(v: JsonValue, k: string, default: JsonValue): (r: Result<JsonValue, Exception>)
    ensures r.Ok? <==> v.JObject?
    ensures v.JObject? ==> r.value == if k in v.fields then v.fields[k] else default
    ensures !v.JObject? ==> r.Err? && r.error.AttributeError?
  {
    match v
    case JObject(fields) => Ok(if k in fields then fields[k] else default)
    case _ => Err(AttributeError("'" + TypeName(v) + "' object has no attribute 'get'"))
  }

  /** Whether `k` occurs in `s` as a contiguous substring. */
  predicate IsSubstring(k: string, s: string)
    decreases |s|
  {
    (|k| <= |s| && s[..|k|] == k) || (s != [] && IsSubstring(k, s[1..]))
  }

  /** `k in v` for a string `k`: key test on a dict, element test on a list,
      substring test on a string, a TypeError on anything else. */
  function Contains(v: JsonValue, k: string): (r: Result<bool, Exception>)
    ensures v.JObject? ==> r == Ok(k in v.fields)
    ensures v.JArray? ==> r == Ok(JString(k) in v.items)
    ensures v.JString? ==> r == Ok(IsSubstring(k, v.s))
    ensures r.Err? <==> v.JNull? || v.JBool? || v.JNumber?
  {
    match v
    case JObject(fields) => Ok(k in fields)
    case JArray(items) => Ok(JString(k) in items)
    case JString(s) => Ok(IsSubstring(k, s))
    case _ => Err(TypeError("argument of type '" + TypeName(v) + "' is not iterable"))
  }

  // ---------------------------------------------------------------------------
  // json.dumps of a string (ensure_ascii, the default)

  predicate IsAscii(s: string)
  {
    forall i :: 0 <= i < |s| ==> s[i] as int < 0x80
  }

  /** The lower-case hexadecimal digit of `d`. */
  function HexDigit(d: int): (c: char)
    requires 0 <= d < 16
    ensures c as int < 0x80
  {
    if d < 10 then (0x30 + d) as char else (0x61 + d - 10) as char
  }

  /** Four lower-case hexadecimal digits of `n`, as `'{0:04x}'.format(n)` writes them. */
  function Hex4(n: int): (r: string)
    requires 0 <= n < 0x10000
    ensures |r| == 4 && IsAscii(r)
  {
    [HexDigit(n / 0x1000), HexDigit(n / 0x100 % 16), HexDigit(n / 16 % 16), HexDigit(n % 16)]
  }

  /** The high and low UTF-16 surrogates of an astral code point. */
  function HighSurrogate(n: int): (h: int)
    requires 0x10000 <= n < 0x110000
    ensures 0xD800 <= h < 0xDC00
  {
    0xD800 + (n - 0x10000) / 0x400
  }

  function LowSurrogate(n: int): (l: int)
    requires 0x10000 <= n < 0x110000
    ensures 0xDC00 <= l < 0xE000
  {
    0xDC00 + (n - 0x10000) % 0x400
  }

  /** How `json.dumps` writes one character inside a string literal. */
  function EscapeChar(c: char): (r: string)
    ensures IsAscii(r) && |r| >= 1
    ensures (0x20 <= c as int < 0x7F && c != '"' && c != '\\') <==> r == [c]
  {
    var n := c as int;
    if c == '"' then "\\\""
    else if c == '\\' then "\\\\"
    else if n == 8 then "\\b"
    else if n == 12 then "\\f"
    else if c == '\n' then "\\n"
    else if c == '\r' then "\\r"
    else if c == '\t' then "\\t"
    else if 0x20 <= n < 0x7F then [c]
    else if n < 0x10000 then "\\u" + Hex4(n)
    else "\\u" + Hex4(HighSurrogate(n)) + "\\u" + Hex4(LowSurrogate(n))
  }

  function EscapeString(s: string): (r: string)
    ensures IsAscii(r)
  {
    if s == [] then "" else EscapeChar(s[0]) + EscapeString(s[1..])
  }

  /** `json.dumps(s)` for a string `s`: a double-quoted, pure-ASCII JSON string literal. */
  function Dumps(s: string): (r: string)
    ensures |r| >= 2 && r[0] == '"' && r[|r| - 1] == '"'
    ensures IsAscii(r)
  {
    "\"" + EscapeString(s) + "\""
  }

  /** `json.dumps({"error": msg})` with the default separators. */
  function DumpsErrorObject(msg: string): (r: string)
    ensures |r| >= 2 && r[0] == '{' && r[|r| - 1] == '}'
  {
    "{\"error\": " + Dumps(msg) + "}"
  }

  // ---------------------------------------------------------------------------
  // decode_unicode_strings: s.encode('utf-8').decode('unicode_escape')

  type Byte = x: int | 0 <= x < 0x100

  /** UTF-8 encoding of one character. */
  function Utf8(c: char): (r: seq<Byte>)
    ensures 1 <= |r| <= 4
    ensures (c as int < 0x80) <==> r == [c as int]
  {
    var n := c as int;
    if n < 0x80 then [n]
    else if n < 0x800 then [0xC0 + n / 0x40, 0x80 + n % 0x40]
    else if n < 0x10000 then [0xE0 + n / 0x1000, 0x80 + (n / 0x40) % 0x40, 0x80 + n % 0x40]
    else [0xF0 + n / 0x40000, 0x80 + (n / 0x1000) % 0x40, 0x80 + (n / 0x40) % 0x40, 0x80 + n % 0x40]
  }

  function Utf8Encode(s: string): (r: seq<Byte>)
    ensures |r| >= |s|
  {
    if s == [] then [] else Utf8(s[0]) + Utf8Encode(s[1..])
  }

  /** The code points of a string. */
  function CodePoints(s: string): (r: seq<int>)
    ensures |r| == |s|
    ensures forall i :: 0 <= i < |s| ==> r[i] == s[i] as int
  {
    if s == [] then [] else [s[0] as int] + CodePoints(s[1..])
  }

  /** The UTF-16 code units of one code point, as integers. */
  function Utf16Unit(n: int): (r: seq<int>)
    requires 0 <= n < 0x110000
    ensures 1 <= |r| <= 2
  {
    if n < 0x10000 then [n] else [HighSurrogate(n), LowSurrogate(n)]
  }

  /** The UTF-16 code units of a string: an astral character becomes its two surrogates. */
  function Utf16Units(s: string): (r: seq<int>)
    ensures |r| >= |s|
  {
    if s == [] then [] else Utf16Unit(s[0] as int) + Utf16Units(s[1..])
  }

  /** A UTF-16 surrogate code unit; no `char` is one. */
  predicate IsSurrogate(u: int) { 0xD800 <= u < 0xE000 }

  predicate HasSurrogate(u: seq<int>)
  {
    exists i :: 0 <= i < |u| && IsSurrogate(u[i])
  }

  /** Every character is in the Basic Multilingual Plane, below U+10000. */
  predicate IsBmp(s: string)
  {
    forall i :: 0 <= i < |s| ==> s[i] as int < 0x10000
  }

  /** What a Python `str` can hold: code points up to U+10FFFF, surrogates included. */
  predicate IsCodePoints(u: seq<int>)
  {
    forall i :: 0 <= i < |u| ==> 0 <= u[i] < 0x110000
  }

  /** `str.encode('utf-8')` with the strict error handler: a surrogate cannot be
      encoded and raises UnicodeEncodeError. */
  function EncodeUtf8Strict(u: seq<int>): (r: Result<seq<Byte>, Exception>)
    requires IsCodePoints(u)
    ensures r.Err? ==> r.error.UnicodeEncodeError?
    decreases |u|
  {
    if u == [] then Ok([])
    else if IsSurrogate(u[0]) then Err(UnicodeEncodeError("'utf-8' codec can't encode character: surrogates not allowed"))
    else match EncodeUtf8Strict(u[1..])
      case Err(x) => Err(x)
      case Ok(b) => Ok(Utf8(u[0] as char) + b)
  }

  function HexValue(b: Byte): Option<int>
  {
    if 0x30 <= b <= 0x39 then Some(b - 0x30)
    else if 0x61 <= b <= 0x66 then Some(b - 0x61 + 10)
    else if 0x41 <= b <= 0x46 then Some(b - 0x41 + 10)
    else None
  }

  /** The number written by hexadecimal digits `ds`, if all of them are digits. */
  function HexNumber(ds: seq<Byte>): (r: Option<int>)
    ensures r.Some? ==> r.value >= 0
  {
    if ds == [] then Some(0)
    else match (HexNumber(ds[..|ds| - 1]), HexValue(ds[|ds| - 1]))
      case (Some(hi), Some(d)) => Some(hi * 16 + d)
      case _ => None
  }

  predicate IsOctalDigit(b: Byte) { 0x30 <= b <= 0x37 }

  /** `\` followed by one to three octal digits, the first of which is `b[1]`. */
  function OctalEscape(b: seq<Byte>): (r: (seq<int>, nat))
    requires |b| >= 2 && IsOctalDigit(b[1])
    ensures 2 <= r.1 <= |b| && r.1 <= 4
  {
    var d1 := b[1] - 0x30;
    if |b| >= 3 && IsOctalDigit(b[2]) then
      var d2 := d1 * 8 + (b[2] - 0x30);
      if |b| >= 4 && IsOctalDigit(b[3]) then ([d2 * 8 + (b[3] - 0x30)], 4)
      else ([d2], 3)
    else ([d1], 2)
  }

  /** `\x`, `\u` or `\U` followed by exactly `count` hexadecimal digits. */
  function HexEscape(b: seq<Byte>, count: nat, truncated: string): (r: Result<(seq<int>, nat), string>)
    requires |b| >= 2
    ensures r.Ok? ==> r.value.1 == 2 + count <= |b|
  {
    if |b| < 2 + count then Err(truncated)
    else match HexNumber(b[2..2 + count])
      case None => Err(truncated)
      case Some(v) =>
        if v > 0x10FFFF then Err("illegal Unicode character") else Ok(([v], 2 + count))
  }

  /** Decodes the escape or plain byte at the front of `b`: the code points it
      stands for and the number of bytes it takes. */
  function DecodeUnit(b: seq<Byte>): (r: Result<(seq<int>, nat), string>)
    requires |b| >= 1
    ensures r.Ok? ==> 1 <= r.value.1 <= |b|
    ensures r.Ok? ==> IsCodePoints(r.value.0)
  {
    if b[0] != 0x5C then Ok(([b[0]], 1))
    else if |b| == 1 then Err("\\ at end of string")
    else
      var c := b[1];
      if c == 0x0A then Ok(([], 2))                                // backslash-newline
      else if c == 0x5C || c == 0x27 || c == 0x22 then Ok(([c], 2)) // \\  \'  \"
      else if c == 0x62 then Ok(([8], 2))                          // \b
      else if c == 0x66 then Ok(([12], 2))                         // \f
      else if c == 0x74 then Ok(([9], 2))                          // \t
      else if c == 0x6E then Ok(([10], 2))                         // \n
      else if c == 0x72 then Ok(([13], 2))                         // \r
      else if c == 0x76 then Ok(([11], 2))                         // \v
      else if c == 0x61 then Ok(([7], 2))                          // \a
      else if IsOctalDigit(c) then Ok(OctalEscape(b))
      else if c == 0x78 then HexEscape(b, 2, "truncated \\xXX escape")
      else if c == 0x75 then HexEscape(b, 4, "truncated \\uXXXX escape")
      else if c == 0x55 then HexEscape(b, 8, "truncated \\UXXXXXXXX escape")
      else if c == 0x4E then Err("\\N{...} escapes are not modelled")
      else Ok(([0x5C, c], 2))                                      // unknown escape kept as written
  }

  function Prepend(pre: seq<int>, r: Result<seq<int>, string>): Result<seq<int>, string>
  {
    match r
    case Ok(v) => Ok(pre + v)
    case Err(e) => Err(e)
  }

  /** The `unicode_escape` codec: bytes stand for themselves (Latin-1) except escapes. */
  function DecodeEscapes(b: seq<Byte>): (r: Result<seq<int>, string>)
    ensures r.Ok? ==> IsCodePoints(r.value)
    decreases |b|
  {
    if b == [] then Ok([])
    else match DecodeUnit(b)
      case Err(msg) => Err(msg)
      case Ok(unit) => Prepend(unit.0, DecodeEscapes(b[unit.1..]))
  }

  /** `decode_unicode_strings(s)`; an `Err` is the UnicodeDecodeError it raises. */
  function DecodeUnicodeStrings(s: string): (r: Result<seq<int>, string>)
    ensures r.Ok? ==> IsCodePoints(r.value)
  {
    DecodeEscapes(Utf8Encode(s))
  }

  // ---------------------------------------------------------------------------
  // Lemmas

  /** `json.dumps` of a string is never the sentinel `[removed]`: it starts with a quote. */
  lemma DumpsIsNeverRemoved(s: string)
    ensures Dumps(s) != "[removed]"
  {
    assert Dumps(s)[0] != "[removed]"[0];
  }

  lemma {:induction false} Utf8EncodeAppend(a: string, b: string)
    ensures Utf8Encode(a + b) == Utf8Encode(a) + Utf8Encode(b)
    decreases |a|
  {
    if a == [] {
      assert a + b == b;
    } else {
      assert (a + b)[0] == a[0];
      assert (a + b)[1..] == a[1..] + b;
      Utf8EncodeAppend(a[1..], b);
      calc {
        Utf8Encode(a + b);
        Utf8(a[0]) + Utf8Encode(a[1..] + b);
        Utf8(a[0]) + (Utf8Encode(a[1..]) + Utf8Encode(b));
        (Utf8(a[0]) + Utf8Encode(a[1..])) + Utf8Encode(b);
      }
    }
  }

  /** The UTF-8 encoding of ASCII text is its code points. */
  lemma {:induction false} Utf8EncodeAscii(s: string)
    requires IsAscii(s)
    ensures |Utf8Encode(s)| == |s|
    ensures forall i :: 0 <= i < |s| ==> Utf8Encode(s)[i] == s[i] as int
    decreases |s|
  {
    if s != [] {
      assert IsAscii(s[1..]) by {
        forall i | 0 <= i < |s| - 1 ensures s[1..][i] as int < 0x80 { assert s[1..][i] == s[i + 1]; }
      }
      Utf8EncodeAscii(s[1..]);
      assert Utf8Encode(s) == [s[0] as int] + Utf8Encode(s[1..]);
    }
  }

  lemma HexDigitValue(d: int)
    requires 0 <= d < 16
    ensures HexValue(HexDigit(d) as int) == Some(d)
  {
  }

  lemma HexNumberSnoc(ds: seq<Byte>, b: Byte)
    requires HexNumber(ds).Some? && HexValue(b).Some?
    ensures HexNumber(ds + [b]) == Some(HexNumber(ds).value * 16 + HexValue(b).value)
  {
    var x := ds + [b];
    assert x[..|x| - 1] == ds;
  }

  /** The four digits `Hex4` writes are read back as the number they came from. */
  lemma Hex4Value(n: int, ds: seq<Byte>)
    requires 0 <= n < 0x10000
    requires |ds| == 4 && forall i :: 0 <= i < 4 ==> ds[i] == Hex4(n)[i] as int
    ensures HexNumber(ds) == Some(n)
  {
    var d0, d1, d2, d3 := n / 0x1000, n / 0x100 % 16, n / 16 % 16, n % 16;
    Hex4Digits(n);
    HexDigitValue(d0);
    HexDigitValue(d1);
    HexDigitValue(d2);
    HexDigitValue(d3);
    assert ds == [HexDigit(d0) as int, HexDigit(d1) as int, HexDigit(d2) as int, HexDigit(d3) as int];
    HexNumberOfFour(ds[0], ds[1], ds[2], ds[3], d0, d1, d2, d3);
  }

  lemma Hex4Digits(n: int)
    requires 0 <= n < 0x10000
    ensures 0 <= n / 0x1000 < 16
    ensures n == ((n / 0x1000 * 16 + n / 0x100 % 16) * 16 + n / 16 % 16) * 16 + n % 16
  {
    var q := n / 16;
    var q2 := q / 16;
    assert q2 == n / 0x100;
    assert q2 / 16 == n / 0x1000;
    assert q2 == q2 / 16 * 16 + q2 % 16;
    assert q == q2 * 16 + q % 16;
    assert n == q * 16 + n % 16;
  }

  lemma HexNumberOfFour(b0: Byte, b1: Byte, b2: Byte, b3: Byte, d0: int, d1: int, d2: int, d3: int)
    requires HexValue(b0) == Some(d0) && HexValue(b1) == Some(d1) && HexValue(b2) == Some(d2) && HexValue(b3) == Some(d3)
    ensures HexNumber([b0, b1, b2, b3]) == Some(((d0 * 16 + d1) * 16 + d2) * 16 + d3)
  {
    assert HexNumber([]) == Some(0);
    HexNumberSnoc([], b0);
    assert [] + [b0] == [b0];
    HexNumberSnoc([b0], b1);
    assert [b0] + [b1] == [b0, b1];
    HexNumberSnoc([b0, b1], b2);
    assert [b0, b1] + [b2] == [b0, b1, b2];
    HexNumberSnoc([b0, b1, b2], b3);
    assert [b0, b1, b2] + [b3] == [b0, b1, b2, b3];
  }


  lemma PrependPrepend(a: seq<int>, b: seq<int>, r: Result<seq<int>, string>)
    ensures Prepend(a, Prepend(b, r)) == Prepend(a + b, r)
  {
    match r {
      case Ok(v) => assert a + (b + v) == (a + b) + v;
      case Err(_) =>
    }
  }

  /** One decoded unit at the front: the rest is decoded on its own. */
  lemma DecodeStep(u: seq<Byte>, tail: seq<Byte>, v: seq<int>)
    requires |u| >= 1 && DecodeUnit(u + tail) == Ok((v, |u|))
    ensures DecodeEscapes(u + tail) == Prepend(v, DecodeEscapes(tail))
  {
    assert (u + tail)[|u|..] == tail;
  }

  /** Decoding `\uXXXX` reads the four digits back. */
  lemma UEscapeDecodes(n: int, tail: seq<Byte>)
    requires 0 <= n < 0x10000
    ensures DecodeEscapes(Utf8Encode("\\u" + Hex4(n)) + tail) == Prepend([n], DecodeEscapes(tail))
  {
    var e := "\\u" + Hex4(n);
    assert IsAscii(e);
    Utf8EncodeAscii(e);
    var u := Utf8Encode(e);
    var b := u + tail;
    assert b[0] == 0x5C && b[1] == 0x75;
    Hex4Value(n, b[2..6]);
    assert DecodeUnit(b) == Ok(([n], 6));
    DecodeStep(u, tail, [n]);
  }

  /** Decoding the JSON escape of a character, followed by anything, yields that
      character's UTF-16 units followed by the decoding of the rest. */
  lemma DecodeEscapedChar(c: char, tail: seq<Byte>)
    ensures DecodeEscapes(Utf8Encode(EscapeChar(c)) + tail)
         == Prepend(Utf16Unit(c as int), DecodeEscapes(tail))
  {
    var e := EscapeChar(c);
    var n := c as int;
    if 0x20 <= n < 0x7F && c != '"' && c != '\\' {
      PlainCharDecodes(c, tail);
    } else if c == '"' || c == '\\' || n == 8 || n == 12 || c == '\n' || c == '\r' || c == '\t' {
      ShortEscapeDecodes(c, tail);
    } else if n < 0x10000 {
      assert e == "\\u" + Hex4(n);
      UEscapeDecodes(n, tail);
    } else {
      SurrogatePairDecodes(c, tail);
    }
  }

  lemma PlainCharDecodes(c: char, tail: seq<Byte>)
    requires 0x20 <= c as int < 0x7F && c != '"' && c != '\\'
    ensures DecodeEscapes(Utf8Encode(EscapeChar(c)) + tail) == Prepend([c as int], DecodeEscapes(tail))
  {
    var u := Utf8Encode(EscapeChar(c));
    assert EscapeChar(c) == [c];
    assert u == [c as int] + Utf8Encode([]);
    DecodeStep(u, tail, [c as int]);
  }

  lemma ShortEscapeDecodes(c: char, tail: seq<Byte>)
    requires c == '"' || c == '\\' || c as int == 8 || c as int == 12 || c == '\n' || c == '\r' || c == '\t'
    ensures DecodeEscapes(Utf8Encode(EscapeChar(c)) + tail) == Prepend([c as int], DecodeEscapes(tail))
  {
    var e := EscapeChar(c);
    assert |e| == 2 && e[0] == '\\';
    Utf8EncodeAscii(e);
    var u := Utf8Encode(e);
    assert u[0] == 0x5C && u[1] == e[1] as int;
    var b := u + tail;
    assert b[0] == 0x5C && b[1] == e[1] as int;
    assert DecodeUnit(b) == Ok(([c as int], 2));
    DecodeStep(u, tail, [c as int]);
  }

  lemma EscapeAstral(c: char)
    requires c as int >= 0x10000
    ensures EscapeChar(c) == ("\\u" + Hex4(HighSurrogate(c as int))) + ("\\u" + Hex4(LowSurrogate(c as int)))
  {
  }

  lemma SurrogatePairDecodes(c: char, tail: seq<Byte>)
    requires c as int >= 0x10000
    ensures DecodeEscapes(Utf8Encode(EscapeChar(c)) + tail)
         == Prepend([HighSurrogate(c as int), LowSurrogate(c as int)], DecodeEscapes(tail))
  {
    var n := c as int;
    var hi, lo := HighSurrogate(n), LowSurrogate(n);
    var eh, el := "\\u" + Hex4(hi), "\\u" + Hex4(lo);
    EscapeAstral(c);
    Utf8EncodeAppend(eh, el);
    var tail' := Utf8Encode(el) + tail;
    var whole := Utf8Encode(EscapeChar(c)) + tail;
    assert whole == Utf8Encode(eh) + tail';
    calc {
      DecodeEscapes(whole);
      { UEscapeDecodes(hi, tail'); }
      Prepend([hi], DecodeEscapes(tail'));
      { UEscapeDecodes(lo, tail); }
      Prepend([hi], Prepend([lo], DecodeEscapes(tail)));
      { PrependPrepend([hi], [lo], DecodeEscapes(tail)); }
      Prepend([hi] + [lo], DecodeEscapes(tail));
      { assert [hi] + [lo] == [hi, lo]; }
      Prepend([hi, lo], DecodeEscapes(tail));
    }
  }

  lemma {:induction false} DecodeEscapedString(s: string, tail: seq<Byte>)
    ensures DecodeEscapes(Utf8Encode(EscapeString(s)) + tail)
         == Prepend(Utf16Units(s), DecodeEscapes(tail))
    decreases |s|
  {
    if s == [] {
      assert Utf8Encode(EscapeString(s)) + tail == tail;
      match DecodeEscapes(tail) {
        case Ok(v) => assert [] + v == v;
        case Err(_) =>
      }
    } else {
      DecodeEscapedString(s[1..], tail);
      DecodeEscapedCons(s, tail);
    }
  }

  /** The inductive step of `DecodeEscapedString`, given its claim for `s[1..]`. */
  lemma DecodeEscapedCons(s: string, tail: seq<Byte>)
    requires s != []
    requires DecodeEscapes(Utf8Encode(EscapeString(s[1..])) + tail) == Prepend(Utf16Units(s[1..]), DecodeEscapes(tail))
    ensures DecodeEscapes(Utf8Encode(EscapeString(s)) + tail) == Prepend(Utf16Units(s), DecodeEscapes(tail))
  {
    var head := Utf8Encode(EscapeChar(s[0]));
    var rest := Utf8Encode(EscapeString(s[1..])) + tail;
    var u0 := Utf16Unit(s[0] as int);
    var us := Utf16Units(s[1..]);
    var dt := DecodeEscapes(tail);
    assert EscapeString(s) == EscapeChar(s[0]) + EscapeString(s[1..]);
    Utf8EncodeAppend(EscapeChar(s[0]), EscapeString(s[1..]));
    ByteAppendAssoc(head, Utf8Encode(EscapeString(s[1..])), tail);
    calc {
      DecodeEscapes(head + rest);
      { DecodeEscapedChar(s[0], rest); }
      Prepend(u0, DecodeEscapes(rest));
      Prepend(u0, Prepend(us, dt));
      { PrependPrepend(u0, us, dt); }
      Prepend(u0 + us, dt);
    }
    assert Utf16Units(s) == u0 + us;
  }

  lemma ByteAppendAssoc(x: seq<Byte>, y: seq<Byte>, z: seq<Byte>)
    ensures (x + y) + z == x + (y + z)
  {
  }

  /** What phase II posts as a reply: `decode_unicode_strings(json.dumps(s))` never
      fails, and gives back `s` wrapped in double quotes, with every astral character
      split into two lone surrogates. */
  lemma DecodeDumps(s: string)
    ensures DecodeUnicodeStrings(Dumps(s)) == Ok([0x22] + Utf16Units(s) + [0x22])
  {
    var q: seq<Byte> := [0x22];
    var body := Utf8Encode(EscapeString(s)) + q;
    DumpsBytes(s);
    assert DecodeEscapes(q) == Ok([0x22]) by {
      DecodeStep(q, [], [0x22]);
      assert q + [] == q;
    }
    DecodeEscapedString(s, q);
    DecodeStep(q, body, [0x22]);
    PrependPrepend([0x22], Utf16Units(s), DecodeEscapes(q));
  }

  /** The UTF-8 bytes of `json.dumps(s)`: a quote, the escaped text, a quote. */
  lemma DumpsBytes(s: string)
    ensures Utf8Encode(Dumps(s)) == [0x22] + (Utf8Encode(EscapeString(s)) + [0x22])
  {
    var e := EscapeString(s);
    assert Dumps(s) == "\"" + (e + "\"");
    Utf8EncodeAppend("\"", e + "\"");
    Utf8EncodeAppend(e, "\"");
    QuoteBytes();
  }

  lemma QuoteBytes()
    ensures Utf8Encode("\"") == [0x22]
  {
    assert Utf8Encode("\"") == Utf8('"') + Utf8Encode([]);
  }

  /** For text without astral characters the round trip adds only the quotes. */
  lemma {:induction false} Utf16UnitsOfBmp(s: string)
    requires forall i :: 0 <= i < |s| ==> s[i] as int < 0x10000
    ensures Utf16Units(s) == CodePoints(s)
    decreases |s|
  {
    if s != [] {
      Utf16UnitsOfBmp(s[1..]);
    }
  }

  /** Printable ASCII other than `"` and `\`: what `json.dumps` writes as it is. */
  predicate IsPlain(s: string)
  {
    forall i :: 0 <= i < |s| ==> 0x20 <= s[i] as int < 0x7F && s[i] != '"' && s[i] != '\\'
  }

  lemma {:induction false} EscapePlain(s: string)
    requires IsPlain(s)
    ensures EscapeString(s) == s
    decreases |s|
  {
    if s != [] {
      assert IsPlain(s[1..]) by {
        forall i | 0 <= i < |s| - 1 ensures 0x20 <= s[1..][i] as int < 0x7F && s[1..][i] != '"' && s[1..][i] != '\\' {
          assert s[1..][i] == s[i + 1];
        }
      }
      EscapePlain(s[1..]);
      assert s == [s[0]] + s[1..];
    }
  }

  /** A plain string is dumped as itself between double quotes. */
  lemma DumpsPlain(s: string)
    requires IsPlain(s)
    ensures Dumps(s) == "\"" + s + "\""
  {
    EscapePlain(s);
  }

  /** ASCII text without backslashes passes through `decode_unicode_strings` unchanged. */
  lemma {:induction false} DecodePlainAscii(s: string)
    requires IsAscii(s) && '\\' !in s
    ensures DecodeUnicodeStrings(s) == Ok(CodePoints(s))
    decreases |s|
  {
    if s != [] {
      assert IsAscii(s[1..]) by {
        forall i | 0 <= i < |s| - 1 ensures s[1..][i] as int < 0x80 { assert s[1..][i] == s[i + 1]; }
      }
      DecodePlainAscii(s[1..]);
      var u := Utf8(s[0]);
      assert u == [s[0] as int];
      assert Utf8Encode(s) == u + Utf8Encode(s[1..]);
      DecodeStep(u, Utf8Encode(s[1..]), [s[0] as int]);
    }
  }

  /** Bytes from 0x80 up are never part of an escape: each reads back as itself. */
  lemma {:induction false} DecodeHighBytes(b: seq<Byte>)
    requires forall i :: 0 <= i < |b| ==> b[i] >= 0x80
    ensures DecodeEscapes(b) == Ok(b)
    decreases |b|
  {
    if b != [] {
      DecodeHighBytes(b[1..]);
      assert b == [b[0]] + b[1..];
      DecodeStep([b[0]], b[1..], [b[0]]);
    }
  }

  /** Non-ASCII text is not passed through: the UTF-8 bytes of any character from
      U+0080 up come back as that many Latin-1 characters, never as the character. */
  lemma DecodeMangles(c: char)
    requires c as int >= 0x80
    ensures DecodeUnicodeStrings([c]) == Ok(Utf8(c)) && |Utf8(c)| >= 2
    ensures DecodeUnicodeStrings([c]) != Ok(CodePoints([c]))
  {
    assert Utf8Encode([c]) == Utf8(c) + Utf8Encode([]);
    assert Utf8(c) + [] == Utf8(c);
    DecodeHighBytes(Utf8(c));
  }

  // ---------------------------------------------------------------------------
  // Surrogates and the strict UTF-8 encoder

  lemma HasSurrogateCons(u: seq<int>)
    requires u != []
    ensures HasSurrogate(u) <==> IsSurrogate(u[0]) || HasSurrogate(u[1..])
  {
    if HasSurrogate(u[1..]) {
      var i :| 0 <= i < |u| - 1 && IsSurrogate(u[1..][i]);
      assert u[i + 1] == u[1..][i];
    }
    if HasSurrogate(u) && !IsSurrogate(u[0]) {
      var i :| 0 <= i < |u| && IsSurrogate(u[i]);
      assert u[1..][i - 1] == u[i];
    }
  }

  lemma HasSurrogateAppend(a: seq<int>, b: seq<int>)
    ensures HasSurrogate(a + b) <==> HasSurrogate(a) || HasSurrogate(b)
  {
    if HasSurrogate(a) {
      var i :| 0 <= i < |a| && IsSurrogate(a[i]);
      assert (a + b)[i] == a[i];
    }
    if HasSurrogate(b) {
      var i :| 0 <= i < |b| && IsSurrogate(b[i]);
      assert (a + b)[|a| + i] == b[i];
    }
    if HasSurrogate(a + b) {
      var i :| 0 <= i < |a + b| && IsSurrogate((a + b)[i]);
      if i < |a| { assert a[i] == (a + b)[i]; } else { assert b[i - |a|] == (a + b)[i]; }
    }
  }

  /** The strict encoder fails exactly on a code point sequence holding a surrogate. */
  lemma {:induction false} EncodeStrictFails(u: seq<int>)
    requires IsCodePoints(u)
    ensures EncodeUtf8Strict(u).Err? <==> HasSurrogate(u)
    decreases |u|
  {
    if u != [] {
      assert IsCodePoints(u[1..]) by {
        forall i | 0 <= i < |u| - 1 ensures 0 <= u[1..][i] < 0x110000 { assert u[1..][i] == u[i + 1]; }
      }
      EncodeStrictFails(u[1..]);
      HasSurrogateCons(u);
    }
  }

  /** The code points of a Dafny string never include a surrogate, and encode to
      the string's UTF-8 bytes. */
  lemma {:induction false} EncodeStrictOfText(s: string)
    ensures IsCodePoints(CodePoints(s))
    ensures EncodeUtf8Strict(CodePoints(s)) == Ok(Utf8Encode(s))
    decreases |s|
  {
    if s != [] {
      EncodeStrictOfText(s[1..]);
      assert CodePoints(s)[1..] == CodePoints(s[1..]);
    }
  }

  /** The UTF-16 code units of a text hold a surrogate exactly when the text has a
      character outside the Basic Multilingual Plane. */
  lemma {:induction false} SurrogatesIffAstral(s: string)
    ensures HasSurrogate(Utf16Units(s)) <==> !IsBmp(s)
    decreases |s|
  {
    if s != [] {
      SurrogatesIffAstral(s[1..]);
      var n := s[0] as int;
      HasSurrogateAppend(Utf16Unit(n), Utf16Units(s[1..]));
      if n < 0x10000 {
        assert !HasSurrogate([n]) by { HasSurrogateCons([n]); }
      } else {
        assert HasSurrogate(Utf16Unit(n)) by { assert IsSurrogate(Utf16Unit(n)[0]); }
      }
      if !IsBmp(s[1..]) {
        var i :| 0 <= i < |s| - 1 && s[1..][i] as int >= 0x10000;
        assert s[i + 1] == s[1..][i];
      }
      if !IsBmp(s) && n < 0x10000 {
        var i :| 0 <= i < |s| && s[i] as int >= 0x10000;
        assert s[1..][i - 1] == s[i];
      }
    }
  }

  /** The decoded JSON form of a text, quotes included, holds a surrogate exactly
      when the text is not all in the Basic Multilingual Plane; otherwise it is the
      text's code points in quotes. */
  lemma QuotedUnits(s: string)
    ensures HasSurrogate([0x22] + Utf16Units(s) + [0x22]) <==> !IsBmp(s)
    ensures IsBmp(s) ==> [0x22] + Utf16Units(s) + [0x22] == [0x22] + CodePoints(s) + [0x22]
  {
    HasSurrogateAppend([0x22] + Utf16Units(s), [0x22]);
    HasSurrogateAppend([0x22], Utf16Units(s));
    HasSurrogateCons([0x22]);
    SurrogatesIffAstral(s);
    if IsBmp(s) {
      Utf16UnitsOfBmp(s);
    }
  }
}
