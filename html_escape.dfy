/**
 * `escapeHtml` of src/server.js: five global single-character replacements,
 * `&` first, so that the entities inserted by the later steps are not
 * escaped again.
 */
module HtmlEscape {

  /** `s.replace(/c/g, rep)` for a pattern that is one literal character. */
  function ReplaceAll(s: string, c: char, rep: string): (r: string)
    ensures |rep| == 1 ==> |r| == |s|
  {
    if s == [] then [] else (if s[0] == c then rep else [s[0]]) + ReplaceAll(s[1..], c, rep)
  }

  /** Replacing in a concatenation is replacing in each part. */
  lemma {:induction false} ReplaceAllConcat(a: string, b: string, c: char, rep: string)
    ensures ReplaceAll(a + b, c, rep) == ReplaceAll(a, c, rep) + ReplaceAll(b, c, rep)
  {
    if a != [] {
      assert (a + b)[1..] == a[1..] + b;
      ReplaceAllConcat(a[1..], b, c, rep);
    } else {
      assert a + b == b;
    }
  }

  /** Replacing a character that does not occur changes nothing. */
  lemma {:induction false} ReplaceAllAbsent(s: string, c: char, rep: string)
    requires c !in s
    ensures ReplaceAll(s, c, rep) == s
  {
    if s != [] {
      assert s == [s[0]] + s[1..];
      ReplaceAllAbsent(s[1..], c, rep);
    }
  }

  /**
   * A character absent from the replacement is absent from the output when
   * it is the one replaced or when the input did not have it either.
   */
  lemma {:induction false} ReplaceAllKeepsOut(s: string, c: char, rep: string, d: char)
    requires d !in rep && (d == c || d !in s)
    ensures d !in ReplaceAll(s, c, rep)
  {
    if s != [] {
      assert s == [s[0]] + s[1..];
      ReplaceAllKeepsOut(s[1..], c, rep, d);
    }
  }

  /** After the last four steps no `<`, `>`, `"` or `'` is left, whatever the text was. */
  lemma LastStepsMarkupFree(s1: string)
    ensures MarkupFree(ReplaceAll(ReplaceAll(ReplaceAll(ReplaceAll(s1, '<', "&lt;"), '>', "&gt;"), '"', "&quot;"), '\'', "&#39;"))
  {
    var s2 := ReplaceAll(s1, '<', "&lt;");
    var s3 := ReplaceAll(s2, '>', "&gt;");
    var s4 := ReplaceAll(s3, '"', "&quot;");
    ReplaceAllKeepsOut(s1, '<', "&lt;", '<');
    ReplaceAllKeepsOut(s2, '>', "&gt;", '<');
    ReplaceAllKeepsOut(s2, '>', "&gt;", '>');
    ReplaceAllKeepsOut(s3, '"', "&quot;", '"');
    ReplaceAllKeepsOut(s4, '\'', "&#39;", '\'');
    ReplaceAllKeepsOut(s3, '"', "&quot;", '<');
    ReplaceAllKeepsOut(s3, '"', "&quot;", '>');
    ReplaceAllKeepsOut(s4, '\'', "&#39;", '<');
    ReplaceAllKeepsOut(s4, '\'', "&#39;", '>');
    ReplaceAllKeepsOut(s4, '\'', "&#39;", '"');
  }

  /** The characters escapeHtml rewrites. */
  predicate IsSpecial(c: char) {
    c == '&' || c == '<' || c == '>' || c == '"' || c == '\''
  }

  /** `escapeHtml(s)`, as the chain of replacements the source writes. */
  function EscapeHtml(s: string): (r: string)
    ensures MarkupFree(r)
  {
    var s1 := ReplaceAll(s, '&', "&amp;");
    var s2 := ReplaceAll(s1, '<', "&lt;");
    var s3 := ReplaceAll(s2, '>', "&gt;");
    var s4 := ReplaceAll(s3, '"', "&quot;");
    LastStepsMarkupFree(s1);
    ReplaceAll(s4, '\'', "&#39;")
  }

  /** The replacement of one character, as a reference for the chain above. */
  function EscapeChar(c: char): string {
    match c
    case '&' => "&amp;"
    case '<' => "&lt;"
    case '>' => "&gt;"
    case '"' => "&quot;"
    case '\'' => "&#39;"
    case _ => [c]
  }

  /** Escaping character by character. */
  function EscapeEach(s: string): string {
    if s == [] then [] else EscapeChar(s[0]) + EscapeEach(s[1..])
  }

  lemma EscapeHtmlConcat(a: string, b: string)
    ensures EscapeHtml(a + b) == EscapeHtml(a) + EscapeHtml(b)
  {
    var a1, b1 := ReplaceAll(a, '&', "&amp;"), ReplaceAll(b, '&', "&amp;");
    ReplaceAllConcat(a, b, '&', "&amp;");
    var a2, b2 := ReplaceAll(a1, '<', "&lt;"), ReplaceAll(b1, '<', "&lt;");
    ReplaceAllConcat(a1, b1, '<', "&lt;");
    var a3, b3 := ReplaceAll(a2, '>', "&gt;"), ReplaceAll(b2, '>', "&gt;");
    ReplaceAllConcat(a2, b2, '>', "&gt;");
    var a4, b4 := ReplaceAll(a3, '"', "&quot;"), ReplaceAll(b3, '"', "&quot;");
    ReplaceAllConcat(a3, b3, '"', "&quot;");
    ReplaceAllConcat(a4, b4, '\'', "&#39;");
  }

  lemma ReplaceAllSingle(x: char, c: char, rep: string)
    ensures ReplaceAll([x], c, rep) == if x == c then rep else [x]
  {
    assert [x][1..] == [];
  }

  /** The four steps after the first leave a text without their characters alone. */
  lemma LaterStepsKeep(t: string)
    requires '<' !in t && '>' !in t && '"' !in t && '\'' !in t
    ensures ReplaceAll(ReplaceAll(ReplaceAll(ReplaceAll(t, '<', "&lt;"), '>', "&gt;"), '"', "&quot;"), '\'', "&#39;") == t
  {
    ReplaceAllAbsent(t, '<', "&lt;");
    ReplaceAllAbsent(t, '>', "&gt;");
    ReplaceAllAbsent(t, '"', "&quot;");
    ReplaceAllAbsent(t, '\'', "&#39;");
  }

  /** Escaping a one-character string gives that character's replacement. */
  lemma EscapeHtmlChar(c: char)
    ensures EscapeHtml([c]) == EscapeChar(c)
  {
    var s1 := ReplaceAll([c], '&', "&amp;");
    ReplaceAllSingle(c, '&', "&amp;");
    if c == '&' {
      LaterStepsKeep(s1);
      return;
    }
    var s2 := ReplaceAll(s1, '<', "&lt;");
    ReplaceAllSingle(c, '<', "&lt;");
    if c == '<' {
      FinalStepsKeep(s2, 3);
      return;
    }
    var s3 := ReplaceAll(s2, '>', "&gt;");
    ReplaceAllSingle(c, '>', "&gt;");
    if c == '>' {
      FinalStepsKeep(s3, 2);
      return;
    }
    var s4 := ReplaceAll(s3, '"', "&quot;");
    ReplaceAllSingle(c, '"', "&quot;");
    if c == '"' {
      FinalStepsKeep(s4, 1);
      return;
    }
    ReplaceAllSingle(c, '\'', "&#39;");
  }

  /** The last `n` steps of the chain, applied to `t`. */
  function LastSteps(t: string, n: nat): string
    requires n <= 4
  {
    var t1 := if n >= 4 then ReplaceAll(t, '<', "&lt;") else t;
    var t2 := if n >= 3 then ReplaceAll(t1, '>', "&gt;") else t1;
    var t3 := if n >= 2 then ReplaceAll(t2, '"', "&quot;") else t2;
    if n >= 1 then ReplaceAll(t3, '\'', "&#39;") else t3
  }

  /** The last steps leave a text without their characters alone. */
  lemma FinalStepsKeep(t: string, n: nat)
    requires n <= 3
    requires '>' !in t && '"' !in t && '\'' !in t
    ensures LastSteps(t, n) == t
  {
    ReplaceAllAbsent(t, '>', "&gt;");
    ReplaceAllAbsent(t, '"', "&quot;");
    ReplaceAllAbsent(t, '\'', "&#39;");
  }

  /**
   * The chain of replacements equals escaping each character on its own:
   * because `&` goes first, no step rewrites the output of an earlier one.
   */
  lemma {:induction false} EscapeHtmlIsPerChar(s: string)
    ensures EscapeHtml(s) == EscapeEach(s)
  {
    if s != [] {
      assert s == [s[0]] + s[1..];
      EscapeHtmlConcat([s[0]], s[1..]);
      EscapeHtmlChar(s[0]);
      EscapeHtmlIsPerChar(s[1..]);
    } else {
      assert ReplaceAll(s, '&', "&amp;") == [];
    }
  }

  /** The five entities escapeHtml produces. */
  predicate StartsWithEntity(t: string) {
    "&amp;" <= t || "&lt;" <= t || "&gt;" <= t || "&quot;" <= t || "&#39;" <= t
  }

  /** Every `&` in `r` begins one of the five entities. */
  predicate AmpersandsAreEntities(r: string) {
    forall i :: 0 <= i < |r| && r[i] == '&' ==> StartsWithEntity(r[i..])
  }

  lemma AmpersandsConcat(a: string, b: string)
    requires AmpersandsAreEntities(a) && AmpersandsAreEntities(b)
    ensures AmpersandsAreEntities(a + b)
  {
    forall i | 0 <= i < |a + b| && (a + b)[i] == '&' ensures StartsWithEntity((a + b)[i..]) {
      if i < |a| {
        assert a[i] == '&';
        assert a[i..] <= (a + b)[i..];
      } else {
        assert (a + b)[i..] == b[i - |a|..];
      }
    }
  }

  lemma {:induction false} EscapeEachAmpersands(s: string)
    ensures AmpersandsAreEntities(EscapeEach(s))
  {
    if s != [] {
      var e := EscapeChar(s[0]);
      assert AmpersandsAreEntities(e) by {
        if IsSpecial(s[0]) {
          forall i | 0 <= i < |e| && e[i] == '&' ensures StartsWithEntity(e[i..]) {
            assert i == 0 && e[0..] == e;
          }
        }
      }
      EscapeEachAmpersands(s[1..]);
      AmpersandsConcat(e, EscapeEach(s[1..]));
    }
  }

  /** None of the characters that open a tag or close an attribute value. */
  predicate MarkupFree(t: string) {
    '<' !in t && '>' !in t && '"' !in t && '\'' !in t
  }

  /** No markup character survives, and every `&` left is the start of an entity. */
  lemma EscapeHtmlSafe(s: string)
    ensures MarkupFree(EscapeHtml(s))
    ensures AmpersandsAreEntities(EscapeHtml(s))
  {
    EscapeHtmlIsPerChar(s);
    EscapeEachAmpersands(s);
  }

  /** A string with none of the five characters is returned unchanged. */
  lemma EscapeHtmlPlain(s: string)
    requires forall i :: 0 <= i < |s| ==> !IsSpecial(s[i])
    ensures EscapeHtml(s) == s
  {
    ReplaceAllAbsent(s, '&', "&amp;");
    ReplaceAllAbsent(s, '<', "&lt;");
    ReplaceAllAbsent(s, '>', "&gt;");
    ReplaceAllAbsent(s, '"', "&quot;");
    ReplaceAllAbsent(s, '\'', "&#39;");
  }

  /** Decodes the five entities, scanning left to right; anything else is kept. */
  function Unescape(t: string): string {
    if t == [] then []
    else if "&amp;" <= t then "&" + Unescape(t[5..])
    else if "&lt;" <= t then "<" + Unescape(t[4..])
    else if "&gt;" <= t then ">" + Unescape(t[4..])
    else if "&quot;" <= t then "\"" + Unescape(t[6..])
    else if "&#39;" <= t then "'" + Unescape(t[5..])
    else [t[0]] + Unescape(t[1..])
  }

  /** A sequence that differs from `p` at position `k` does not start with `p`. */
  lemma NotPrefix(p: string, u: string, k: nat)
    requires k < |p| && k < |u| && p[k] != u[k]
    ensures !(p <= u)
  {
  }

  lemma UnescapeChar(c: char, t: string)
    ensures Unescape(EscapeChar(c) + t) == [c] + Unescape(t)
  {
    var e := EscapeChar(c);
    var u := e + t;
    assert u[..|e|] == e;
    assert u[|e|..] == t;
    if c == '<' || c == '>' || c == '"' || c == '\'' {
      NotPrefix("&amp;", u, 1);
    }
    if c == '>' || c == '"' || c == '\'' {
      NotPrefix("&lt;", u, 1);
    }
    if c == '"' || c == '\'' {
      NotPrefix("&gt;", u, 1);
    }
    if c == '\'' {
      NotPrefix("&quot;", u, 1);
    }
    if !IsSpecial(c) {
      assert u[0] == c;
      NotPrefix("&amp;", u, 0);
      NotPrefix("&lt;", u, 0);
      NotPrefix("&gt;", u, 0);
      NotPrefix("&quot;", u, 0);
      NotPrefix("&#39;", u, 0);
      assert u[1..] == t;
    }
  }

  /** Text without `&` decodes to itself. */
  lemma {:induction false} UnescapePlain(t: string)
    requires '&' !in t
    ensures Unescape(t) == t
  {
    if t != [] {
      NotPrefix("&amp;", t, 0);
      NotPrefix("&lt;", t, 0);
      NotPrefix("&gt;", t, 0);
      NotPrefix("&quot;", t, 0);
      NotPrefix("&#39;", t, 0);
      UnescapePlain(t[1..]);
    }
  }

  /** Decoding the entities in `EscapeHtml(s)` gives back `s`. */
  lemma {:induction false} UnescapeEscapeHtml(s: string)
    ensures Unescape(EscapeHtml(s)) == s
  {
    EscapeHtmlIsPerChar(s);
    UnescapeEscapeEach(s);
  }

  lemma {:induction false} UnescapeEscapeEach(s: string)
    ensures Unescape(EscapeEach(s)) == s
  {
    if s != [] {
      UnescapeChar(s[0], EscapeEach(s[1..]));
      UnescapeEscapeEach(s[1..]);
    }
  }

  /**
   * Why `&` must go first: replacing it last would escape the entities the
   * other steps inserted, and decoding would no longer give back the input.
   */
  lemma AmpersandLastDoubleEscapes()
    ensures ReplaceAll(ReplaceAll("<", '<', "&lt;"), '&', "&amp;") == "&amp;lt;"
    ensures Unescape("&amp;lt;") == "&lt;" != "<"
  {
    ReplaceAllSingle('<', '<', "&lt;");
    var lt := "lt;";
    ReplaceAllSingle('&', '&', "&amp;");
    ReplaceAllAbsent(lt, '&', "&amp;");
    ReplaceAllConcat(['&'], lt, '&', "&amp;");
    assert ['&'] + lt == "&lt;";
    assert "&amp;" + lt == "&amp;lt;";
    var u := "&amp;" + lt;
    assert "&amp;" <= u;
    assert u[5..] == lt;
    UnescapePlain(lt);
    assert "&" + lt == "&lt;";
  }
}
