/**
 * ECMAScript `encodeURIComponent`: every character outside the unescaped set
 * (letters, digits and `- _ . ! ~ * ' ( )`) is written as the UTF-8 bytes of
 * its code point, each as `%` followed by two upper-case hexadecimal digits
 * (percent-encoding as in section 2.1 of RFC 3986). Dafny's `char` is a
 * Unicode scalar value, so the lone-surrogate `URIError` cannot arise.
 */
module UriEncoding {
  import opened Wrappers

  /** The characters `encodeURIComponent` leaves as they are. */
  predicate Unescaped(c: char) {
    ('A' <= c <= 'Z') || ('a' <= c <= 'z') || ('0' <= c <= '9') ||
    c == '-' || c == '_' || c == '.' || c == '!' || c == '~' || c == '*' || c == '\'' || c == '(' || c == ')'
  }

  // ---------------------------------------------------------------------------
  // UTF-8
  // ---------------------------------------------------------------------------

  predicate IsScalar(v: int) { (0 <= v < 0xD800) || (0xE000 <= v < 0x11_0000) }

  /** The UTF-8 bytes of one code point (section 3 of RFC 3629). */
  function Utf8(c: char): (bytes: seq<nat>)
    ensures 1 <= |bytes| <= 4
    ensures forall i :: 0 <= i < |bytes| ==> bytes[i] < 256
  {
    var x := c as int;
    if x < 0x80 then [x]
    else if x < 0x800 then [0xC0 + x / 64, 0x80 + x % 64]
    else if x < 0x1_0000 then [0xE0 + x / 4096, 0x80 + (x / 64) % 64, 0x80 + x % 64]
    else [0xF0 + x / 262144, 0x80 + (x / 4096) % 64, 0x80 + (x / 64) % 64, 0x80 + x % 64]
  }

  /** The length of a UTF-8 sequence announced by its first byte; 0 when it cannot start one. */
  function SequenceLength(b: nat): nat {
    if b < 0x80 then 1
    else if 0xC0 <= b < 0xE0 then 2
    else if 0xE0 <= b < 0xF0 then 3
    else if 0xF0 <= b < 0xF8 then 4
    else 0
  }

  predicate IsContinuation(b: nat) { 0x80 <= b < 0xC0 }

  /** Decodes one complete UTF-8 sequence, rejecting overlong forms and surrogates. */
  function Utf8Decode(bytes: seq<nat>): Option<char> {
    if |bytes| == 0 || SequenceLength(bytes[0]) != |bytes| then None
    else if exists i :: 1 <= i < |bytes| && !IsContinuation(bytes[i]) then None
    else
      var v :=
        if |bytes| == 1 then bytes[0]
        else if |bytes| == 2 then (bytes[0] - 0xC0) * 64 + (bytes[1] - 0x80)
        else if |bytes| == 3 then (bytes[0] - 0xE0) * 4096 + (bytes[1] - 0x80) * 64 + (bytes[2] - 0x80)
        else (bytes[0] - 0xF0) * 262144 + (bytes[1] - 0x80) * 4096 + (bytes[2] - 0x80) * 64 + (bytes[3] - 0x80);
      var least := if |bytes| == 1 then 0 else if |bytes| == 2 then 0x80 else if |bytes| == 3 then 0x800 else 0x1_0000;
      if least <= v && IsScalar(v) then Some(v as char) else None
  }

  lemma Split2(x: int)
    requires 0 <= x
    ensures x == (x / 64) * 64 + x % 64
  {
  }

  lemma Split3(x: int)
    requires 0 <= x
    ensures x == (x / 4096) * 4096 + ((x / 64) % 64) * 64 + x % 64
  {
    assert x / 4096 == (x / 64) / 64;
  }

  lemma Split4(x: int)
    requires 0 <= x
    ensures x == (x / 262144) * 262144 + ((x / 4096) % 64) * 4096 + ((x / 64) % 64) * 64 + x % 64
  {
    assert x / 262144 == (x / 4096) / 64;
    Split3(x);
  }

  /** UTF-8 decoding inverts UTF-8 encoding. */
  lemma Utf8RoundTrip(c: char)
    ensures SequenceLength(Utf8(c)[0]) == |Utf8(c)|
    ensures Utf8Decode(Utf8(c)) == Some(c)
  {
    var x := c as int;
    var b := Utf8(c);
    if x < 0x80 {
    } else if x < 0x800 {
      Split2(x);
    } else if x < 0x1_0000 {
      Split3(x);
    } else {
      Split4(x);
    }
  }

  // ---------------------------------------------------------------------------
  // Percent-encoding of bytes
  // ---------------------------------------------------------------------------

  function HexDigit(d: nat): (c: char)
    requires d < 16
    ensures Unescaped(c)
  {
    if d < 10 then ('0' as int + d) as char else ('A' as int + d - 10) as char
  }

  function HexValue(c: char): Option<nat> {
    if '0' <= c <= '9' then Some(c as int - '0' as int)
    else if 'A' <= c <= 'F' then Some(c as int - 'A' as int + 10)
    else if 'a' <= c <= 'f' then Some(c as int - 'a' as int + 10)
    else None
  }

  function PercentByte(b: nat): (t: string)
    requires b < 256
    ensures |t| == 3 && t[0] == '%'
  {
    ['%', HexDigit(b / 16), HexDigit(b % 16)]
  }

  function PercentBytes(bytes: seq<nat>): (t: string)
    requires forall i :: 0 <= i < |bytes| ==> bytes[i] < 256
    ensures |t| == 3 * |bytes|
  {
    if bytes == [] then [] else PercentByte(bytes[0]) + PercentBytes(bytes[1..])
  }

  /** Reads one `%HH` triple at the front of `t`. */
  function ReadByte(t: string): Option<nat> {
    if |t| < 3 || t[0] != '%' then None
    else match (HexValue(t[1]), HexValue(t[2]))
      case (Some(h), Some(l)) => Some(h * 16 + l)
      case _ => None
  }

  /** Reads `n` consecutive `%HH` triples at the front of `t`. */
  function ReadBytes(t: string, n: nat): Option<seq<nat>>
    decreases n
  {
    if n == 0 then Some([])
    else match ReadByte(t)
      case None => None
      case Some(b) =>
        match ReadBytes(t[3..], n - 1)
        case None => None
        case Some(rest) => Some([b] + rest)
  }

  lemma ReadPercentByte(b: nat, rest: string)
    requires b < 256
    ensures ReadByte(PercentByte(b) + rest) == Some(b)
  {
    var t := PercentByte(b) + rest;
    assert HexValue(t[1]) == Some(b / 16);
    assert HexValue(t[2]) == Some(b % 16);
  }

  lemma {:induction false} ReadPercentBytes(bytes: seq<nat>, rest: string)
    requires forall i :: 0 <= i < |bytes| ==> bytes[i] < 256
    ensures ReadBytes(PercentBytes(bytes) + rest, |bytes|) == Some(bytes)
  {
    if bytes != [] {
      var head, tail := PercentByte(bytes[0]), PercentBytes(bytes[1..]) + rest;
      var t := head + tail;
      assert PercentBytes(bytes) + rest == t;
      assert t[3..] == tail;
      ReadPercentByte(bytes[0], tail);
      ReadPercentBytes(bytes[1..], rest);
      ReadBytesStep(t, bytes[0], bytes[1..]);
      assert [bytes[0]] + bytes[1..] == bytes;
    }
  }

  lemma ReadBytesStep(t: string, b: nat, rest: seq<nat>)
    requires ReadByte(t) == Some(b) && ReadBytes(t[3..], |rest|) == Some(rest)
    ensures ReadBytes(t, |rest| + 1) == Some([b] + rest)
  {
  }

  // ---------------------------------------------------------------------------
  // encodeURIComponent and its inverse
  // ---------------------------------------------------------------------------

  function EncodeChar(c: char): (t: string)
    ensures |t| > 0
  {
    if Unescaped(c) then [c] else PercentBytes(Utf8(c))
  }

  function EncodeUriComponent(s: string): (t: string)
  {
    if s == [] then [] else EncodeChar(s[0]) + EncodeUriComponent(s[1..])
  }

  /** Reads the `%HH` triples of one UTF-8 sequence at the front of `t`: the character and the length consumed. */
  function DecodeEscape(t: string): (r: Option<(char, nat)>)
    ensures r.Some? ==> 0 < r.value.1 <= |t|
  {
    match ReadByte(t)
    case None => None
    case Some(b0) =>
      var n := SequenceLength(b0);
      if n == 0 || |t| < 3 * n then None
      else match ReadBytes(t, n)
        case None => None
        case Some(bytes) =>
          match Utf8Decode(bytes)
          case None => None
          case Some(c) => Some((c, 3 * n))
  }

  /**
   * `decodeURIComponent` restricted to what `encodeURIComponent` produces: a
   * `%` starts a UTF-8 sequence of `%HH` triples, any other character stands
   * for itself.
   */
  function DecodeUriComponent(t: string): Option<string>
    decreases |t|
  {
    if t == [] then Some([])
    else
      var step: Option<(char, nat)> := if t[0] != '%' then Some((t[0], 1)) else DecodeEscape(t);
      match step
      case None => None
      case Some((c, k)) =>
        match DecodeUriComponent(t[k..])
        case None => None
        case Some(rest) => Some([c] + rest)
  }

  lemma DecodeEncodedChar(c: char, rest: string)
    ensures DecodeUriComponent(EncodeChar(c) + rest) ==
      match DecodeUriComponent(rest)
      case None => None
      case Some(r) => Some([c] + r)
  {
    var t := EncodeChar(c) + rest;
    if Unescaped(c) {
      assert t[0] == c && t[1..] == rest;
    } else {
      var n := DecodeEscapedChar(c, rest);
      assert t[0] == '%';
      assert t[n..] == rest;
    }
  }

  lemma DecodeEscapedChar(c: char, rest: string) returns (n: nat)
    requires !Unescaped(c)
    ensures n == |PercentBytes(Utf8(c))|
    ensures DecodeEscape(PercentBytes(Utf8(c)) + rest) == Some((c, n))
  {
    Utf8RoundTrip(c);
    DecodeEscapeOf(Utf8(c), c, rest);
    n := 3 * |Utf8(c)|;
  }

  lemma DecodeEscapeOf(bytes: seq<nat>, c: char, rest: string)
    requires 1 <= |bytes| && forall i :: 0 <= i < |bytes| ==> bytes[i] < 256
    requires SequenceLength(bytes[0]) == |bytes|
    requires Utf8Decode(bytes) == Some(c)
    ensures DecodeEscape(PercentBytes(bytes) + rest) == Some((c, 3 * |bytes|))
  {
    var t := PercentBytes(bytes) + rest;
    ReadPercentBytes(bytes, rest);
    assert ReadByte(t) == Some(bytes[0]);
    DecodeEscapeAt(t, bytes, c);
  }

  lemma DecodeEscapeAt(t: string, bytes: seq<nat>, c: char)
    requires 1 <= |bytes| && |t| >= 3 * |bytes|
    requires ReadByte(t) == Some(bytes[0]) && SequenceLength(bytes[0]) == |bytes|
    requires ReadBytes(t, |bytes|) == Some(bytes)
    requires Utf8Decode(bytes) == Some(c)
    ensures DecodeEscape(t) == Some((c, 3 * |bytes|))
  {
  }

  /** Decoding inverts `encodeURIComponent` on every string. */
  lemma {:induction false} RoundTrip(s: string)
    ensures DecodeUriComponent(EncodeUriComponent(s)) == Some(s)
  {
    if s != [] {
      RoundTrip(s[1..]);
      DecodeEncodedChar(s[0], EncodeUriComponent(s[1..]));
      assert [s[0]] + s[1..] == s;
    }
  }

  lemma EncodeInjective(s: string, u: string)
    ensures EncodeUriComponent(s) == EncodeUriComponent(u) ==> s == u
  {
    RoundTrip(s);
    RoundTrip(u);
  }

  /** Every output character is unescaped or the `%` of a triple. */
  lemma {:induction false} EncodedAlphabet(s: string)
    ensures forall i :: 0 <= i < |EncodeUriComponent(s)| ==>
      Unescaped(EncodeUriComponent(s)[i]) || EncodeUriComponent(s)[i] == '%'
  {
    if s != [] {
      EncodedAlphabet(s[1..]);
      if !Unescaped(s[0]) {
        PercentAlphabet(Utf8(s[0]));
      }
    }
  }

  lemma {:induction false} PercentAlphabet(bytes: seq<nat>)
    requires forall i :: 0 <= i < |bytes| ==> bytes[i] < 256
    ensures forall i :: 0 <= i < |PercentBytes(bytes)| ==>
      Unescaped(PercentBytes(bytes)[i]) || PercentBytes(bytes)[i] == '%'
  {
    if bytes != [] {
      PercentAlphabet(bytes[1..]);
    }
  }

  /** The encoding never contains `:` or `/`, so it is a single URL path segment. */
  lemma NoColonOrSlash(s: string)
    ensures ':' !in EncodeUriComponent(s) && '/' !in EncodeUriComponent(s)
  {
    EncodedAlphabet(s);
  }

  /** The encoding of a concatenation is the concatenation of the encodings. */
  lemma {:induction false} EncodeAppend(a: string, b: string)
    ensures EncodeUriComponent(a + b) == EncodeUriComponent(a) + EncodeUriComponent(b)
  {
    if a == [] {
      assert a + b == b;
    } else {
      assert (a + b)[0] == a[0] && (a + b)[1..] == a[1..] + b;
      EncodeAppend(a[1..], b);
    }
  }

  /** A string of unescaped characters is its own encoding. */
  lemma {:induction false} EncodeUnescaped(s: string)
    requires forall i :: 0 <= i < |s| ==> Unescaped(s[i])
    ensures EncodeUriComponent(s) == s
  {
    if s != [] {
      EncodeUnescaped(s[1..]);
    }
  }

  /** `:` is byte 0x3A and `/` is byte 0x2F. */
  lemma ColonAndSlash()
    ensures EncodeUriComponent([':']) == "%3A" && EncodeUriComponent(['/']) == "%2F"
  {
    assert EncodeChar(':') == "%3A";
    assert EncodeChar('/') == "%2F";
  }

  lemma EncodeFour(a: string, b: string, c: string, d: string)
    ensures EncodeUriComponent(a + b + c + d) ==
      EncodeUriComponent(a) + EncodeUriComponent(b) + EncodeUriComponent(c) + EncodeUriComponent(d)
  {
    EncodeAppend(a + b + c, d);
    EncodeAppend(a + b, c);
    EncodeAppend(a, b);
  }

  /** A prefix `<g>:<m>:` of unescaped words encodes each colon as `%3A`. */
  lemma EncodedColonPair(g: string, m: string)
    requires forall i :: 0 <= i < |g| ==> Unescaped(g[i])
    requires forall i :: 0 <= i < |m| ==> Unescaped(m[i])
    ensures EncodeUriComponent(g + [':'] + m + [':']) == g + "%3A" + m + "%3A"
  {
    EncodeFour(g, [':'], m, [':']);
    ColonAndSlash();
    EncodeUnescaped(g);
    EncodeUnescaped(m);
  }
}
