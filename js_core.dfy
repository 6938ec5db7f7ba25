/**
 * The slice of JavaScript semantics the two source files lean on: a small
 * value type with truthiness and `||`, `String(v)` coercion, and the string
 * built-ins `trim` and `slice(0, n)`.
 */
module JsCore {

  /**
   * A JavaScript value as it can appear in a JSON webhook body or on
   * `window.Lentax`. `Undefined` stands for a missing property. Numbers are
   * restricted to integers; objects and arrays are not modelled.
   */
  datatype JsValue = Undefined | Null | Bool(b: bool) | Num(n: int) | Str(s: string)

  /** JavaScript truthiness, as used by `!x`, `x || y` and `filter(Boolean)`. */
  predicate Truthy(v: JsValue) {
    match v
    case Undefined => false
    case Null => false
    case Bool(b) => b
    case Num(n) => n != 0
    case Str(s) => s != ""
  }

  /** The falsy values among the modelled ones: `undefined`, `null`, `false`, `0` and `""`. */
  lemma FalsyValues(v: JsValue)
    ensures !Truthy(v) <==> v == Undefined || v == Null || v == Bool(false) || v == Num(0) || v == Str("")
  {
  }

  /** `a || b`: the first operand when it is truthy, otherwise the second one. */
  function Or(a: JsValue, b: JsValue): (r: JsValue)
    ensures Truthy(a) ==> r == a
    ensures !Truthy(a) ==> r == b
    ensures Truthy(r) <==> Truthy(a) || Truthy(b)
  {
    if Truthy(a) then a else b
  }

  // ---------------------------------------------------------------------------
  // String(v)
  // ---------------------------------------------------------------------------

  predicate IsDigit(c: char) {
    '0' <= c <= '9'
  }

  function DigitChar(d: nat): (c: char)
    requires d < 10
    ensures IsDigit(c) && c as int - '0' as int == d
  {
    ('0' as int + d) as char
  }

  /** Decimal digits of a natural number, most significant first, no leading zero. */
  function NatToDecimal(n: nat): (r: string)
    ensures |r| >= 1
    ensures forall i :: 0 <= i < |r| ==> IsDigit(r[i])
    ensures |r| > 1 ==> r[0] != '0'
    decreases n
  {
    if n < 10 then [DigitChar(n)] else NatToDecimal(n / 10) + [DigitChar(n % 10)]
  }

  /** The number a string of decimal digits denotes (the inverse of NatToDecimal). */
  function DecimalValue(s: string): int
    requires forall i :: 0 <= i < |s| ==> IsDigit(s[i])
  {
    if s == [] then 0 else DecimalValue(s[..|s| - 1]) * 10 + (s[|s| - 1] as int - '0' as int)
  }

  lemma {:induction false} DecimalRoundTrip(n: nat)
    ensures DecimalValue(NatToDecimal(n)) == n
  {
    if n >= 10 {
      var r := NatToDecimal(n);
      assert r[..|r| - 1] == NatToDecimal(n / 10);
      DecimalRoundTrip(n / 10);
    }
  }

  /** `String(v)` for the modelled values. */
  function ToJsString(v: JsValue): (r: string)
    ensures r == "" <==> v == Str("")
    ensures v.Str? ==> r == v.s
  {
    match v
    case Undefined => "undefined"
    case Null => "null"
    case Bool(b) => if b then "true" else "false"
    case Num(n) => if n < 0 then "-" + NatToDecimal(-n) else NatToDecimal(n)
    case Str(s) => s
  }

  /** A truthy value never stringifies to the empty string. */
  lemma TruthyNonEmpty(v: JsValue)
    requires Truthy(v)
    ensures ToJsString(v) != ""
  {
  }

  /** Distinct integers stringify to distinct strings, so numeric identifiers never collide. */
  lemma NumToStringInjective(a: int, b: int)
    requires ToJsString(Num(a)) == ToJsString(Num(b))
    ensures a == b
  {
    SignShown(a);
    SignShown(b);
    if a < 0 && b < 0 {
      NegativeDigits(a);
      NegativeDigits(b);
      DecimalInjective(-a, -b);
    } else if a >= 0 && b >= 0 {
      DecimalInjective(a, b);
    }
  }

  lemma NegativeDigits(n: int)
    requires n < 0
    ensures ToJsString(Num(n))[1..] == NatToDecimal(-n)
  {
    DropSign(NatToDecimal(-n));
  }

  lemma DropSign(d: string)
    ensures ("-" + d)[1..] == d
  {
  }

  /** A number's string starts with `-` exactly when it is negative. */
  lemma SignShown(n: int)
    ensures (ToJsString(Num(n))[0] == '-') <==> n < 0
  {
    if n >= 0 {
      assert IsDigit(NatToDecimal(n)[0]);
    }
  }

  lemma DecimalInjective(x: nat, y: nat)
    requires NatToDecimal(x) == NatToDecimal(y)
    ensures x == y
  {
    DecimalRoundTrip(x);
    DecimalRoundTrip(y);
  }

  // ---------------------------------------------------------------------------
  // Array.prototype.filter(Boolean) and Array.prototype.join
  // ---------------------------------------------------------------------------

  /** `xs.filter(Boolean)`: the truthy elements, in order. */
  function FilterTruthy(xs: seq<JsValue>): (r: seq<JsValue>)
    ensures |r| <= |xs|
    ensures forall i :: 0 <= i < |r| ==> Truthy(r[i])
    ensures r == [] <==> forall i :: 0 <= i < |xs| ==> !Truthy(xs[i])
  {
    if xs == [] then []
    else (if Truthy(xs[0]) then [xs[0]] else []) + FilterTruthy(xs[1..])
  }

  /** How `join` writes one element: `null` and `undefined` as the empty string. */
  function JoinElement(v: JsValue): string {
    if v == Null || v == Undefined then "" else ToJsString(v)
  }

  /** `xs.join(sep)`: the elements in order, with `sep` between neighbours. */
  function Join(xs: seq<JsValue>, sep: string): (r: string)
    ensures xs == [] ==> r == ""
    ensures xs != [] ==> JoinElement(xs[0]) <= r
    ensures |xs| > 1 ==> JoinElement(xs[0]) + sep <= r
  {
    if xs == [] then ""
    else if |xs| == 1 then JoinElement(xs[0])
    else JoinElement(xs[0]) + sep + Join(xs[1..], sep)
  }

  /**
   * `[a, b].filter(Boolean).join(' ')`: the truthy ones of the two, as
   * strings, separated by one space.
   */
  function JoinTruthy(a: JsValue, b: JsValue): (r: string)
    ensures r == "" <==> !Truthy(a) && !Truthy(b)
    ensures Truthy(a) && !Truthy(b) ==> r == ToJsString(a)
    ensures !Truthy(a) && Truthy(b) ==> r == ToJsString(b)
    ensures Truthy(a) && Truthy(b) ==> r == ToJsString(a) + " " + ToJsString(b)
  {
    FilterPair(a, b);
    JoinPair(a, b, " ");
    Join(FilterTruthy([a, b]), " ")
  }

  lemma FilterPair(a: JsValue, b: JsValue)
    ensures FilterTruthy([a, b]) == (if Truthy(a) then [a] else []) + (if Truthy(b) then [b] else [])
  {
    assert [a, b][1..] == [b] && [b][1..] == [];
  }

  lemma JoinPair(a: JsValue, b: JsValue, sep: string)
    ensures Join([a, b], sep) == JoinElement(a) + sep + JoinElement(b)
  {
    assert [a, b][1..] == [b];
  }

  // ---------------------------------------------------------------------------
  // String.prototype.trim
  // ---------------------------------------------------------------------------

  /**
   * The characters `trim` removes: ECMAScript WhiteSpace (tab, vertical tab,
   * form feed, space, no-break space, byte order mark and the Unicode space
   * separators) and LineTerminator (line feed, carriage return, line and
   * paragraph separators).
   */
  predicate IsWhiteSpace(c: char) {
    || c == '\t' || c == '\n' || c == '\U{B}' || c == '\U{C}' || c == '\r' || c == ' '
    || c == '\U{A0}' || c == '\U{1680}' || ('\U{2000}' <= c <= '\U{200A}')
    || c == '\U{2028}' || c == '\U{2029}' || c == '\U{202F}' || c == '\U{205F}'
    || c == '\U{3000}' || c == '\U{FEFF}'
  }

  predicate AllWhiteSpace(s: string) {
    forall i :: 0 <= i < |s| ==> IsWhiteSpace(s[i])
  }

  /** A string with no white space at either end. */
  predicate IsTrimmed(s: string) {
    s == [] || (!IsWhiteSpace(s[0]) && !IsWhiteSpace(s[|s| - 1]))
  }

  /** Drops leading white space. */
  function TrimStart(s: string): string {
    if s != [] && IsWhiteSpace(s[0]) then TrimStart(s[1..]) else s
  }

  /** Drops trailing white space. */
  function TrimEnd(s: string): string {
    if s != [] && IsWhiteSpace(s[|s| - 1]) then TrimEnd(s[..|s| - 1]) else s
  }

  /** TrimStart gives the longest suffix that does not start with white space. */
  lemma {:induction false} TrimStartSpec(s: string)
    ensures var r := TrimStart(s);
      && |r| <= |s| && r == s[|s| - |r|..]
      && AllWhiteSpace(s[..|s| - |r|])
      && (r == [] || !IsWhiteSpace(r[0]))
  {
    if s != [] && IsWhiteSpace(s[0]) {
      TrimStartSpec(s[1..]);
      var r := TrimStart(s[1..]);
      assert s[1..][|s| - 1 - |r|..] == s[|s| - |r|..];
      forall k | 0 <= k < |s| - |r| ensures IsWhiteSpace(s[k]) {
        if k > 0 {
          assert s[k] == s[1..][..|s| - 1 - |r|][k - 1];
        }
      }
    }
  }

  /** TrimEnd gives the longest prefix that does not end with white space. */
  lemma {:induction false} TrimEndSpec(s: string)
    ensures var r := TrimEnd(s);
      && |r| <= |s| && r == s[..|r|]
      && AllWhiteSpace(s[|r|..])
      && (r == [] || !IsWhiteSpace(r[|r| - 1]))
  {
    if s != [] && IsWhiteSpace(s[|s| - 1]) {
      var t := s[..|s| - 1];
      TrimEndSpec(t);
      var r := TrimEnd(t);
      assert t[..|r|] == s[..|r|];
      forall k | |r| <= k < |s| ensures IsWhiteSpace(s[k]) {
        if k < |s| - 1 {
          assert s[k] == t[|r|..][k - |r|];
        }
      }
    }
  }

  /** `s.trim()`. */
  function Trim(s: string): (r: string)
    ensures IsTrimmed(r) && |r| <= |s|
    ensures r == [] <==> AllWhiteSpace(s)
  {
    TrimStartSpec(s);
    TrimEndSpec(TrimStart(s));
    CutBothEnds(s, TrimStart(s), TrimEnd(TrimStart(s)), |s| - |TrimStart(s)|);
    TrimEnd(TrimStart(s))
  }

  /**
   * What `trim` promises: the result is the slice of `s` left once the white
   * space at both ends is cut off, and it has none at either end itself.
   */
  lemma TrimSpec(s: string)
    ensures exists i :: 0 <= i <= |s| - |Trim(s)| && s[i..i + |Trim(s)|] == Trim(s)
                     && AllWhiteSpace(s[..i]) && AllWhiteSpace(s[i + |Trim(s)|..])
  {
    var t := TrimStart(s);
    var r := TrimEnd(t);
    TrimStartSpec(s);
    TrimEndSpec(t);
    var i := |s| - |t|;
    assert r == Trim(s);
    CutBothEnds(s, t, r, i);
  }

  /**
   * Cutting `s[..i]` off the front and then `t[|r|..]` off the back of what
   * is left: the plain sequence facts behind TrimSpec.
   */
  lemma CutBothEnds(s: string, t: string, r: string, i: nat)
    requires |t| <= |s| && i == |s| - |t| && t == s[i..] && AllWhiteSpace(s[..i])
    requires |r| <= |t| && r == t[..|r|] && AllWhiteSpace(t[|r|..])
    requires r == [] || !IsWhiteSpace(r[0])
    ensures i + |r| <= |s| && s[i..i + |r|] == r
    ensures AllWhiteSpace(s[..i]) && AllWhiteSpace(s[i + |r|..])
    ensures r == [] <==> AllWhiteSpace(s)
  {
    assert s[i + |r|..] == t[|r|..];
    if r == [] {
      forall k | 0 <= k < |s| ensures IsWhiteSpace(s[k]) {
        if k < i {
          assert s[k] == s[..i][k];
        } else {
          assert s[k] == t[k - i];
        }
      }
    } else {
      assert r[0] == s[i];
    }
  }

  /** A string with no white space at either end is its own trim. */
  lemma TrimOfTrimmed(s: string)
    requires IsTrimmed(s)
    ensures Trim(s) == s
  {
  }

  /** `trim` is idempotent. */
  lemma TrimIdempotent(s: string)
    ensures Trim(Trim(s)) == Trim(s)
  {
    TrimSpec(s);
    TrimOfTrimmed(Trim(s));
  }

  // ---------------------------------------------------------------------------
  // String.prototype.slice(0, n)
  // ---------------------------------------------------------------------------

  /** `s.slice(0, n)`: the first `n` characters, or all of `s` when it is shorter. */
  function SliceTo(s: string, n: nat): (r: string)
    ensures r <= s
    ensures |r| == if |s| <= n then |s| else n
  {
    if |s| <= n then s else s[..n]
  }
}
