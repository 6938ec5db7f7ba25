/**
 * `encodeURIComponent`, which src/embed.js applies to the client identifier
 * and to event names: every character outside the unreserved set is written
 * as the UTF-8 bytes of its code point, each as `%` and two upper-case hex
 * digits. (A lone surrogate, on which the built-in throws, is not a Dafny
 * character, so that error path is not representable here.)
 */
module UriEncoding {

  /** The characters encodeURIComponent leaves as they are. */
  predicate Unreserved(c: char) {
    || ('A' <= c <= 'Z') || ('a' <= c <= 'z') || ('0' <= c <= '9')
    || c == '-' || c == '_' || c == '.' || c == '!' || c == '~'
    || c == '*' || c == '\'' || c == '(' || c == ')'
  }

  /** A character that can appear in encodeURIComponent's output. */
  predicate UriSafe(c: char) {
    Unreserved(c) || c == '%'
  }

  /** The upper-case hex digit for `d`. */
  function HexDigit(d: nat): (c: char)
    requires d < 16
    ensures ('0' <= c <= '9') || ('A' <= c <= 'F')
    ensures HexValue(c) == d
  {
    if d < 10 then ('0' as int + d) as char else ('A' as int + d - 10) as char
  }

  /** The value of an upper-case hex digit (and 0 for any other character). */
  function HexValue(c: char): nat {
    if '0' <= c <= '9' then c as int - '0' as int
    else if 'A' <= c <= 'F' then c as int - 'A' as int + 10
    else 0
  }

  /** The UTF-8 encoding of one code point. */
  function Utf8(c: char): (bytes: seq<int>)
    ensures 1 <= |bytes| <= 4
    ensures forall i :: 0 <= i < |bytes| ==> 0 <= bytes[i] < 256
    ensures (|bytes| == 1) == (c as int < 0x80)
    ensures |bytes| > 1 ==> forall i :: 1 <= i < |bytes| ==> 0x80 <= bytes[i] < 0xC0
  {
    var cp := c as int;
    assert cp < 0x110000;
    if cp < 0x80 then [cp]
    else if cp < 0x800 then [0xC0 + cp / 64, 0x80 + cp % 64]
    else if cp < 0x10000 then [0xE0 + cp / 4096, 0x80 + (cp / 64) % 64, 0x80 + cp % 64]
    else [0xF0 + cp / 262144, 0x80 + (cp / 4096) % 64, 0x80 + (cp / 64) % 64, 0x80 + cp % 64]
  }

  /** The code point a well-formed UTF-8 sequence of one to four bytes stands for. */
  function Utf8Value(b: seq<int>): int
    requires 1 <= |b| <= 4
  {
    var n := |b|;
    if n == 1 then b[0]
    else if n == 2 then (b[0] - 0xC0) * 64 + (b[1] - 0x80)
    else if n == 3 then (b[0] - 0xE0) * 4096 + (b[1] - 0x80) * 64 + (b[2] - 0x80)
    else (b[0] - 0xF0) * 262144 + (b[1] - 0x80) * 4096 + (b[2] - 0x80) * 64 + (b[3] - 0x80)
  }

  /** Decoding the UTF-8 bytes of a character gives back its code point. */
  lemma Utf8RoundTrip(c: char)
    ensures Utf8Value(Utf8(c)) == c as int
  {
    var cp := c as int;
    assert cp == (cp / 64) * 64 + cp % 64;
    assert cp / 64 == (cp / 4096) * 64 + (cp / 64) % 64;
    assert cp / 4096 == (cp / 262144) * 64 + (cp / 4096) % 64;
  }

  /** Each byte as `%` followed by two upper-case hex digits. */
  function PercentEncode(bytes: seq<int>): (r: string)
    requires forall i :: 0 <= i < |bytes| ==> 0 <= bytes[i] < 256
    ensures |r| == 3 * |bytes|
    ensures forall i :: 0 <= i < |r| ==> UriSafe(r[i])
  {
    if bytes == [] then []
    else ['%', HexDigit(bytes[0] / 16), HexDigit(bytes[0] % 16)] + PercentEncode(bytes[1..])
  }

  /** The `i`-th byte is the `%` at `3 * i` and the two hex digits after it. */
  lemma {:induction false} PercentEncodeAt(bytes: seq<int>, i: nat)
    requires forall k :: 0 <= k < |bytes| ==> 0 <= bytes[k] < 256
    requires i < |bytes|
    ensures var r := PercentEncode(bytes);
      r[3 * i] == '%' && HexValue(r[3 * i + 1]) * 16 + HexValue(r[3 * i + 2]) == bytes[i]
  {
    var head := ['%', HexDigit(bytes[0] / 16), HexDigit(bytes[0] % 16)];
    var rest := PercentEncode(bytes[1..]);
    assert PercentEncode(bytes) == head + rest;
    if i > 0 {
      PercentEncodeAt(bytes[1..], i - 1);
      assert (head + rest)[3 * i] == rest[3 * (i - 1)];
      assert (head + rest)[3 * i + 1] == rest[3 * (i - 1) + 1];
      assert (head + rest)[3 * i + 2] == rest[3 * (i - 1) + 2];
    }
  }

  function EncodeChar(c: char): (r: string)
    ensures |r| >= 1
    ensures forall i :: 0 <= i < |r| ==> UriSafe(r[i])
  {
    if Unreserved(c) then [c] else PercentEncode(Utf8(c))
  }

  /** `encodeURIComponent(s)`: each character kept or percent-encoded, in order. */
  function EncodeURIComponent(s: string): (r: string)
    ensures r == [] <==> s == []
    ensures s != [] ==> EncodeChar(s[0]) <= r
  {
    if s == [] then [] else EncodeChar(s[0]) + EncodeURIComponent(s[1..])
  }

  /** The output holds only unreserved characters and `%`, and is never shorter than the input. */
  lemma {:induction false} EncodeURIComponentSafe(s: string)
    ensures forall i :: 0 <= i < |EncodeURIComponent(s)| ==> UriSafe(EncodeURIComponent(s)[i])
    ensures |EncodeURIComponent(s)| >= |s|
  {
    if s != [] {
      EncodeURIComponentSafe(s[1..]);
      var e, rest := EncodeChar(s[0]), EncodeURIComponent(s[1..]);
      forall i | 0 <= i < |e + rest| ensures UriSafe((e + rest)[i]) {
        if i < |e| {
          assert (e + rest)[i] == e[i];
        } else {
          assert (e + rest)[i] == rest[i - |e|];
        }
      }
    }
  }

  /** The output can never contain a path, query or fragment delimiter. */
  lemma EncodedHasNoDelimiters(s: string)
    ensures '/' !in EncodeURIComponent(s) && '?' !in EncodeURIComponent(s) && '#' !in EncodeURIComponent(s)
  {
    EncodeURIComponentSafe(s);
    var r := EncodeURIComponent(s);
    forall i | 0 <= i < |r| ensures r[i] != '/' && r[i] != '?' && r[i] != '#' {
      assert UriSafe(r[i]);
    }
  }

  /** A string made only of unreserved characters is left as it is. */
  lemma {:induction false} EncodeUnreservedIdentity(s: string)
    requires forall i :: 0 <= i < |s| ==> Unreserved(s[i])
    ensures EncodeURIComponent(s) == s
  {
    if s != [] {
      EncodeUnreservedIdentity(s[1..]);
    }
  }
}
