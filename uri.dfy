/**
 * Percent-encoding of strings, as the SDK obtains it from the platform:
 * `encodeURIComponent` (section 19.2.6.5 of ECMA-262, the unreserved marks of
 * section 2.3 of RFC 3986 plus `!~*'()`) for the login URL's `redirect_uri`,
 * and the application/x-www-form-urlencoded serializer behind
 * `URLSearchParams.toString()` for the callback redirects. Both write every
 * other character as the `%XY` escapes of its UTF-8 bytes.
 *
 * Dafny characters are Unicode scalar values, so a string here is a
 * well-formed JavaScript string and the encoders never fail.
 */
module Uri {
  import opened Base

  type Byte = b: int | 0 <= b < 256

  predicate IsAlnum(c: char) {
    'A' <= c <= 'Z' || 'a' <= c <= 'z' || '0' <= c <= '9'
  }

  /** The two encoders: `encodeURIComponent`, and the form serializer. */
  datatype Scheme = Component | Form

  /** The characters an encoder copies unchanged. */
  predicate Unescaped(f: Scheme, c: char) {
    IsAlnum(c) ||
    match f
    case Component => c in "-_.!~*'()"
    case Form => c in "*-._"
  }

  predicate IsScalar(cp: int) {
    0 <= cp < 0xD800 || 0xE000 <= cp < 0x110000
  }

  // ---------------------------------------------------------------------
  // UTF-8
  // ---------------------------------------------------------------------

  /** The UTF-8 encoding of one scalar value. */
  function Utf8(c: char): (bs: seq<Byte>)
    ensures 1 <= |bs| <= 4
  {
    var cp := c as int;
    var q1 := cp / 64;
    var q2 := q1 / 64;
    var q3 := q2 / 64;
    if cp < 0x80 then [cp]
    else if cp < 0x800 then [0xC0 + q1, 0x80 + cp % 64]
    else if cp < 0x10000 then [0xE0 + q2, 0x80 + q1 % 64, 0x80 + cp % 64]
    else [0xF0 + q3, 0x80 + q2 % 64, 0x80 + q1 % 64, 0x80 + cp % 64]
  }

  predicate IsContinuation(b: Option<Byte>) {
    b.Some? && 0x80 <= b.value < 0xC0
  }

  /** The shape of a UTF-8 sequence, in the terms the decoder below checks. */
  lemma Utf8Shape(c: char)
    ensures var bs: seq<int>, cp := Utf8(c), c as int;
      match |bs|
      case 1 => bs[0] < 0x80 && bs[0] == cp
      case 2 =>
        && 0xC0 <= bs[0] < 0xE0 && 0x80 <= bs[1] < 0xC0
        && (bs[0] - 0xC0) * 64 + (bs[1] - 0x80) == cp && 0x80 <= cp
      case 3 =>
        && 0xE0 <= bs[0] < 0xF0 && 0x80 <= bs[1] < 0xC0 && 0x80 <= bs[2] < 0xC0
        && (bs[0] - 0xE0) * 4096 + (bs[1] - 0x80) * 64 + (bs[2] - 0x80) == cp && 0x800 <= cp
      case _ =>
        && 0xF0 <= bs[0] < 0xF8 && 0x80 <= bs[1] < 0xC0 && 0x80 <= bs[2] < 0xC0 && 0x80 <= bs[3] < 0xC0
        && (bs[0] - 0xF0) * 262144 + (bs[1] - 0x80) * 4096 + (bs[2] - 0x80) * 64 + (bs[3] - 0x80) == cp
        && 0x10000 <= cp
  {
    var cp := c as int;
    var q1 := cp / 64;
    var q2 := q1 / 64;
    var q3 := q2 / 64;
    assert cp == q1 * 64 + cp % 64;
    assert q1 == q2 * 64 + q1 % 64;
    assert q2 == q3 * 64 + q2 % 64;
  }

  // ---------------------------------------------------------------------
  // Escapes
  // ---------------------------------------------------------------------

  /** An upper-case hexadecimal digit, as the encoders write them. */
  function HexDigit(d: int): (c: char)
    requires 0 <= d < 16
    ensures IsAlnum(c)
  {
    if d < 10 then ('0' as int + d) as char else ('A' as int + d - 10) as char
  }

  /** The value of a hexadecimal digit of either case. */
  function HexValue(c: char): (r: Option<int>)
    ensures r.Some? ==> 0 <= r.value < 16
  {
    if '0' <= c <= '9' then Some(c as int - '0' as int)
    else if 'A' <= c <= 'F' then Some(c as int - 'A' as int + 10)
    else if 'a' <= c <= 'f' then Some(c as int - 'a' as int + 10)
    else None
  }

  function PercentByte(b: Byte): string {
    ['%', HexDigit(b / 16), HexDigit(b % 16)]
  }

  function PercentBytes(bs: seq<Byte>): (s: string)
    ensures |s| == 3 * |bs|
  {
    if bs == [] then "" else PercentByte(bs[0]) + PercentBytes(bs[1..])
  }

  /** The byte written as `%XY` at position `i` of `s`, if one is written there. */
  function ByteAt(s: string, i: nat): (r: Option<Byte>)
    ensures r.Some? ==> i + 3 <= |s|
  {
    if i + 3 <= |s| && s[i] == '%' && HexValue(s[i + 1]).Some? && HexValue(s[i + 2]).Some?
    then Some(HexValue(s[i + 1]).value * 16 + HexValue(s[i + 2]).value)
    else None
  }

  lemma {:induction false} PercentBytesAt(bs: seq<Byte>, rest: string, k: nat)
    requires k < |bs|
    ensures ByteAt(PercentBytes(bs) + rest, 3 * k) == Some(bs[k])
  {
    var s := PercentBytes(bs) + rest;
    if k == 0 {
      assert s[..3] == PercentByte(bs[0]);
      assert s[0] == '%' && s[1] == HexDigit(bs[0] / 16) && s[2] == HexDigit(bs[0] % 16);
    } else {
      var tail := PercentBytes(bs[1..]) + rest;
      PercentBytesAt(bs[1..], rest, k - 1);
      assert s == PercentByte(bs[0]) + tail;
      assert s[3 * k..3 * k + 3] == tail[3 * (k - 1)..3 * (k - 1) + 3];
    }
  }

  // ---------------------------------------------------------------------
  // Encoders
  // ---------------------------------------------------------------------

  function EncodeChar(f: Scheme, c: char): (e: string)
    ensures |e| >= 1
  {
    if f == Form && c == ' ' then "+"
    else if Unescaped(f, c) then [c]
    else PercentBytes(Utf8(c))
  }

  /** The characters an encoder's output can hold. */
  predicate EncodedChar(f: Scheme, c: char) {
    Unescaped(f, c) || c == '%' || (f == Form && c == '+')
  }

  function Encode(f: Scheme, s: string): (r: string)
    ensures forall i :: 0 <= i < |r| ==> EncodedChar(f, r[i])
    ensures s == [] <==> r == []
  {
    if s == [] then ""
    else
      var e, tail := EncodeChar(f, s[0]), Encode(f, s[1..]);
      assert forall i :: 0 <= i < |e| ==> EncodedChar(f, e[i]) by {
        if !(f == Form && s[0] == ' ') && !Unescaped(f, s[0]) {
          forall i | 0 <= i < |e| ensures EncodedChar(f, e[i]) {
            var bs := Utf8(s[0]);
            PercentBytesAt(bs, "", i / 3);
            assert e[3 * (i / 3)] == '%';
          }
        }
      }
      e + tail
  }

  /** `encodeURIComponent(s)`. */
  function EncodeURIComponent(s: string): string {
    Encode(Component, s)
  }

  /** The form serializer applied to one name or value. */
  function FormEncode(s: string): string {
    Encode(Form, s)
  }

  /** `new URLSearchParams(pairs).toString()`: `name=value` pairs joined by `&`. */
  function SerializeQuery(pairs: seq<(string, string)>): (r: string)
    ensures pairs == [] <==> r == ""
  {
    if pairs == [] then ""
    else
      var head := FormEncode(pairs[0].0) + "=" + FormEncode(pairs[0].1);
      if |pairs| == 1 then head else head + "&" + SerializeQuery(pairs[1..])
  }

  /** Neither encoder lets through a character that delimits URL parts or query pairs. */
  lemma EncodedHasNoDelimiters(f: Scheme, s: string)
    ensures forall i :: 0 <= i < |Encode(f, s)| ==> Encode(f, s)[i] !in "&=?/#: "
  {
  }

  // ---------------------------------------------------------------------
  // Decoders: decodeURIComponent, and form decoding without its repairs
  // ---------------------------------------------------------------------

  /**
   * The character written by the UTF-8 escapes at the start of `s`, with the
   * number of characters they take; None when they are malformed, truncated,
   * overlong or name a surrogate.
   */
  function DecodeEscape(s: string): (r: Option<(char, nat)>)
    ensures r.Some? ==> 3 <= r.value.1 <= |s|
  {
    var b0 := ByteAt(s, 0);
    if b0.None? then None
    else if b0.value < 0x80 then Some((b0.value as char, 3))
    else if 0xC0 <= b0.value < 0xE0 then
      var b1 := ByteAt(s, 3);
      if !IsContinuation(b1) then None
      else
        var cp := (b0.value - 0xC0) * 64 + (b1.value - 0x80);
        if 0x80 <= cp then Some((cp as char, 6)) else None
    else if 0xE0 <= b0.value < 0xF0 then
      var b1, b2 := ByteAt(s, 3), ByteAt(s, 6);
      if !IsContinuation(b1) || !IsContinuation(b2) then None
      else
        var cp := (b0.value - 0xE0) * 4096 + (b1.value - 0x80) * 64 + (b2.value - 0x80);
        if 0x800 <= cp && IsScalar(cp) then Some((cp as char, 9)) else None
    else if 0xF0 <= b0.value < 0xF8 then
      var b1, b2, b3 := ByteAt(s, 3), ByteAt(s, 6), ByteAt(s, 9);
      if !IsContinuation(b1) || !IsContinuation(b2) || !IsContinuation(b3) then None
      else
        var cp := (b0.value - 0xF0) * 262144 + (b1.value - 0x80) * 4096
                  + (b2.value - 0x80) * 64 + (b3.value - 0x80);
        if 0x10000 <= cp && IsScalar(cp) then Some((cp as char, 12)) else None
    else None
  }

  function DecodeChar(f: Scheme, s: string): (r: Option<(char, nat)>)
    requires |s| > 0
    ensures r.Some? ==> 1 <= r.value.1 <= |s|
  {
    if s[0] == '%' then DecodeEscape(s)
    else if f == Form && s[0] == '+' then Some((' ', 1))
    else Some((s[0], 1))
  }

  /** Undoes `Encode(f, .)`; None where `decodeURIComponent` would throw. */
  function Decode(f: Scheme, s: string): Option<string>
    decreases |s|
  {
    if s == [] then Some([])
    else match DecodeChar(f, s)
      case None => None
      case Some((c, n)) =>
        match Decode(f, s[n..])
        case None => None
        case Some(tail) => Some([c] + tail)
  }

  /** `decodeURIComponent(s)`, None standing for the URIError it throws. */
  function DecodeURIComponent(s: string): Option<string> {
    Decode(Component, s)
  }

  /** The escapes of a character's UTF-8 bytes decode to that character. */
  lemma DecodeEscapeOfUtf8(c: char, rest: string)
    ensures DecodeEscape(PercentBytes(Utf8(c)) + rest) == Some((c, 3 * |Utf8(c)|))
  {
    var bs := Utf8(c);
    Utf8Shape(c);
    PercentBytesAt(bs, rest, 0);
    match |bs|
    case 1 =>
    case 2 => DecodeTwoBytes(c, rest);
    case 3 => DecodeThreeBytes(c, rest);
    case 4 => DecodeFourBytes(c, rest);
  }

  lemma DecodeTwoBytes(c: char, rest: string)
    requires |Utf8(c)| == 2
    ensures DecodeEscape(PercentBytes(Utf8(c)) + rest) == Some((c, 6))
  {
    var bs := Utf8(c);
    Utf8Shape(c);
    PercentBytesAt(bs, rest, 0);
    PercentBytesAt(bs, rest, 1);
  }

  lemma DecodeThreeBytes(c: char, rest: string)
    requires |Utf8(c)| == 3
    ensures DecodeEscape(PercentBytes(Utf8(c)) + rest) == Some((c, 9))
  {
    var bs := Utf8(c);
    Utf8Shape(c);
    PercentBytesAt(bs, rest, 0);
    PercentBytesAt(bs, rest, 1);
    PercentBytesAt(bs, rest, 2);
  }

  lemma DecodeFourBytes(c: char, rest: string)
    requires |Utf8(c)| == 4
    ensures DecodeEscape(PercentBytes(Utf8(c)) + rest) == Some((c, 12))
  {
    var bs := Utf8(c);
    Utf8Shape(c);
    PercentBytesAt(bs, rest, 0);
    PercentBytesAt(bs, rest, 1);
    PercentBytesAt(bs, rest, 2);
    PercentBytesAt(bs, rest, 3);
  }

  lemma DecodeCharOfEncodeChar(f: Scheme, c: char, rest: string)
    ensures DecodeChar(f, EncodeChar(f, c) + rest) == Some((c, |EncodeChar(f, c)|))
  {
    if !(f == Form && c == ' ') && !Unescaped(f, c) {
      DecodeEscapeOfUtf8(c, rest);
      PercentBytesAt(Utf8(c), rest, 0);
    }
  }

  /** Decoding gives back what was encoded, for both encoders. */
  lemma {:induction false} DecodeEncode(f: Scheme, s: string)
    ensures Decode(f, Encode(f, s)) == Some(s)
  {
    if s != [] {
      var e, tail := EncodeChar(f, s[0]), Encode(f, s[1..]);
      assert Encode(f, s) == e + tail;
      DecodeCharOfEncodeChar(f, s[0], tail);
      assert (e + tail)[|e|..] == tail;
      DecodeEncode(f, s[1..]);
      assert [s[0]] + s[1..] == s;
    }
  }

  // ---------------------------------------------------------------------
  // Query strings: the application/x-www-form-urlencoded parser that
  // `new URLSearchParams(search)` runs, and the partner of SerializeQuery
  // ---------------------------------------------------------------------

  /** The pieces of `s` between occurrences of `sep`; always at least one. */
  function SplitOn(s: string, sep: char): (parts: seq<string>)
    ensures |parts| >= 1
    ensures forall i :: 0 <= i < |parts| ==> sep !in parts[i]
  {
    if s == [] then [""]
    else
      var rest := SplitOn(s[1..], sep);
      if s[0] == sep then [""] + rest
      else [[s[0]] + rest[0]] + rest[1..]
  }

  /** The pieces joined back with `sep` between them. */
  function Join(parts: seq<string>, sep: char): string
    requires |parts| >= 1
  {
    if |parts| == 1 then parts[0] else parts[0] + [sep] + Join(parts[1..], sep)
  }

  lemma {:induction false} SplitOnPrefix(a: string, b: string, sep: char)
    requires sep !in a
    ensures SplitOn(a + b, sep) == [a + SplitOn(b, sep)[0]] + SplitOn(b, sep)[1..]
  {
    if a != [] {
      assert (a + b)[1..] == a[1..] + b;
      SplitOnPrefix(a[1..], b, sep);
      assert [a[0]] + (a[1..] + SplitOn(b, sep)[0]) == a + SplitOn(b, sep)[0];
    } else {
      assert a + b == b;
      var parts := SplitOn(b, sep);
      assert a + parts[0] == parts[0];
      assert parts == [parts[0]] + parts[1..];
    }
  }

  /** Splitting undoes joining when no piece holds the separator. */
  lemma {:induction false} SplitOnJoin(parts: seq<string>, sep: char)
    requires |parts| >= 1
    requires forall i :: 0 <= i < |parts| ==> sep !in parts[i]
    ensures SplitOn(Join(parts, sep), sep) == parts
  {
    if |parts| == 1 {
      SplitOnPrefix(parts[0], "", sep);
      assert parts[0] + "" == parts[0];
    } else {
      var j := Join(parts[1..], sep);
      SplitOnJoin(parts[1..], sep);
      assert Join(parts, sep) == parts[0] + ([sep] + j);
      SplitOnPrefix(parts[0], [sep] + j, sep);
      assert ([sep] + j)[1..] == j;
      assert SplitOn([sep] + j, sep) == [""] + SplitOn(j, sep);
      assert parts[0] + "" == parts[0];
      assert parts == [parts[0]] + parts[1..];
    }
  }

  /** `s` cut at the first `c`: everything before it and everything after it, or all of `s` and "". */
  function SplitFirst(s: string, c: char): (string, string) {
    if s == [] then ("", "")
    else if s[0] == c then ("", s[1..])
    else
      var (a, b) := SplitFirst(s[1..], c);
      ([s[0]] + a, b)
  }

  lemma {:induction false} SplitFirstAt(a: string, b: string, c: char)
    requires c !in a
    ensures SplitFirst(a + [c] + b, c) == (a, b)
  {
    if a != [] {
      assert (a + [c] + b)[1..] == a[1..] + [c] + b;
      SplitFirstAt(a[1..], b, c);
      assert [a[0]] + a[1..] == a;
    } else {
      assert a + [c] + b == [c] + b;
    }
  }

  /** One `name=value` piece, split at its first `=` and form-decoded; None when an escape is malformed. */
  function ParsePair(seg: string): Option<(string, string)> {
    var (n, v) := SplitFirst(seg, '=');
    match (Decode(Form, n), Decode(Form, v))
    case (Some(name), Some(value)) => Some((name, value))
    case _ => None
  }

  /** The parsed pieces in order, empty pieces skipped. */
  function ParseSegments(segs: seq<string>): (r: Option<seq<(string, string)>>)
    ensures r.Some? ==> |r.value| <= |segs|
    ensures (forall i :: 0 <= i < |segs| ==> segs[i] == "") ==> r == Some([])
  {
    if segs == [] then Some([])
    else if segs[0] == "" then ParseSegments(segs[1..])
    else
      match (ParsePair(segs[0]), ParseSegments(segs[1..]))
      case (Some(p), Some(rest)) => Some([p] + rest)
      case _ => None
  }

  /** A query string's name/value list. */
  function ParseQuery(qs: string): (r: Option<seq<(string, string)>>)
    ensures qs == "" ==> r == Some([])
    ensures r.Some? ==> |r.value| <= |SplitOn(qs, '&')|
  {
    ParseSegments(SplitOn(qs, '&'))
  }

  /** `new URLSearchParams(search)`: a leading `?` is dropped first. */
  function SearchParams(search: string): Option<seq<(string, string)>> {
    ParseQuery(if |search| > 0 && search[0] == '?' then search[1..] else search)
  }

  /** `params.get(name)`: the value of the first pair with that name. */
  function QueryGet(pairs: seq<(string, string)>, name: string): (r: Option<string>)
    ensures r.None? <==> forall i :: 0 <= i < |pairs| ==> pairs[i].0 != name
    ensures r.Some? ==> exists i :: 0 <= i < |pairs| && pairs[i] == (name, r.value)
                                    && forall j :: 0 <= j < i ==> pairs[j].0 != name
  {
    if pairs == [] then None
    else if pairs[0].0 == name then Some(pairs[0].1)
    else
      var r := QueryGet(pairs[1..], name);
      assert r.Some? ==> exists i :: 0 <= i < |pairs| && pairs[i] == (name, r.value)
                                     && forall j :: 0 <= j < i ==> pairs[j].0 != name by {
        if r.Some? {
          var i :| 0 <= i < |pairs[1..]| && pairs[1..][i] == (name, r.value)
                   && forall j :: 0 <= j < i ==> pairs[1..][j].0 != name;
          assert pairs[i + 1] == (name, r.value);
          assert forall j :: 0 <= j < i + 1 ==> pairs[j].0 != name by {
            forall j | 0 <= j < i + 1 ensures pairs[j].0 != name {
              if j > 0 {
                assert pairs[j] == pairs[1..][j - 1];
              }
            }
          }
        }
      }
      r
  }

  function Segment(p: (string, string)): string {
    FormEncode(p.0) + "=" + FormEncode(p.1)
  }

  function Segments(pairs: seq<(string, string)>): (segs: seq<string>)
    ensures |segs| == |pairs|
    ensures forall i :: 0 <= i < |pairs| ==> segs[i] == Segment(pairs[i])
  {
    if pairs == [] then [] else [Segment(pairs[0])] + Segments(pairs[1..])
  }

  lemma {:induction false} SerializeIsJoin(pairs: seq<(string, string)>)
    requires |pairs| >= 1
    ensures SerializeQuery(pairs) == Join(Segments(pairs), '&')
  {
    if |pairs| > 1 {
      SerializeIsJoin(pairs[1..]);
      assert Segments(pairs)[1..] == Segments(pairs[1..]);
    }
  }

  lemma SegmentShape(p: (string, string))
    ensures '&' !in Segment(p) && Segment(p) != ""
    ensures ParsePair(Segment(p)) == Some(p)
  {
    var n, v := FormEncode(p.0), FormEncode(p.1);
    EncodedHasNoDelimiters(Form, p.0);
    EncodedHasNoDelimiters(Form, p.1);
    assert '=' !in n;
    assert forall i :: 0 <= i < |Segment(p)| ==> Segment(p)[i] != '&' by {
      forall i | 0 <= i < |Segment(p)| ensures Segment(p)[i] != '&' {
        if i < |n| {
          assert Segment(p)[i] == n[i];
        } else if i > |n| {
          assert Segment(p)[i] == v[i - |n| - 1];
        }
      }
    }
    SplitFirstAt(n, v, '=');
    DecodeEncode(Form, p.0);
    DecodeEncode(Form, p.1);
  }

  lemma {:induction false} ParseSegmentsOfSegments(pairs: seq<(string, string)>)
    ensures ParseSegments(Segments(pairs)) == Some(pairs)
  {
    if pairs != [] {
      SegmentShape(pairs[0]);
      ParseSegmentsOfSegments(pairs[1..]);
      assert Segments(pairs)[1..] == Segments(pairs[1..]);
      assert [pairs[0]] + pairs[1..] == pairs;
    }
  }

  /** Parsing a serialized query gives back its pairs, in order. */
  lemma ParseSerializeQuery(pairs: seq<(string, string)>)
    ensures ParseQuery(SerializeQuery(pairs)) == Some(pairs)
  {
    if pairs == [] {
      assert SplitOn("", '&') == [""];
    } else {
      SerializeIsJoin(pairs);
      forall i | 0 <= i < |pairs| ensures '&' !in Segments(pairs)[i] {
        SegmentShape(pairs[i]);
      }
      SplitOnJoin(Segments(pairs), '&');
      ParseSegmentsOfSegments(pairs);
    }
  }
}
