/** `escapeHtml` (SubjectDetail.tsx and ChatWidget.tsx): five global replacements, `&` first. */
module Escaping {

  import opened Strings

  /** A character that cannot open or close markup or an attribute value. */
  predicate Inert(c: char)
  {
    c != '<' && c != '>' && c != '"' && c != '\''
  }

  /** Text none of whose characters can become active markup. */
  predicate InertText(s: string)
  {
    forall k :: 0 <= k < |s| ==> Inert(s[k])
  }

  /** `s.replace(/c/g, rep)`: each occurrence of the character `c` becomes `rep`; nothing else changes. */
  function ReplaceAll(s: string, c: char, rep: string): (r: string)
    ensures forall x :: x in r ==> x in rep || (x in s && x != c)
  {
    if |s| == 0 then ""
    else (if s[0] == c then rep else [s[0]]) + ReplaceAll(s[1..], c, rep)
  }

  /** The reference each character is escaped to. */
  function Entity(c: char): string
  {
    if c == '&' then "&amp;"
    else if c == '<' then "&lt;"
    else if c == '>' then "&gt;"
    else if c == '"' then "&quot;"
    else if c == '\'' then "&#39;"
    else [c]
  }

  /** `escapeHtml(raw)`, the five passes in the source's order. */
  function EscapeHtml(raw: string): (r: string)
    ensures InertText(r)
  {
    var amp := ReplaceAll(raw, '&', "&amp;");
    var lt := ReplaceAll(amp, '<', "&lt;");
    var gt := ReplaceAll(lt, '>', "&gt;");
    var quot := ReplaceAll(gt, '"', "&quot;");
    var r := ReplaceAll(quot, '\'', "&#39;");
    assert '<' !in lt && '<' !in gt && '>' !in gt;
    assert '<' !in quot && '>' !in quot && '"' !in quot;
    assert '<' !in r && '>' !in r && '"' !in r && '\'' !in r;
    r
  }

  /** The reference definition: every character replaced by its own entity, independently. */
  function EscapeEach(s: string): string
  {
    if |s| == 0 then "" else Entity(s[0]) + EscapeEach(s[1..])
  }

  lemma {:induction false} ReplaceAllAppend(a: string, b: string, c: char, rep: string)
    ensures ReplaceAll(a + b, c, rep) == ReplaceAll(a, c, rep) + ReplaceAll(b, c, rep)
  {
    if |a| > 0 {
      assert (a + b)[1..] == a[1..] + b;
      ReplaceAllAppend(a[1..], b, c, rep);
    } else {
      assert a + b == b;
    }
  }

  lemma {:induction false} ReplaceAllAbsent(s: string, c: char, rep: string)
    requires c !in s
    ensures ReplaceAll(s, c, rep) == s
  {
    if |s| > 0 {
      assert s[0] != c;
      ReplaceAllAbsent(s[1..], c, rep);
      assert s == [s[0]] + s[1..];
    }
  }

  lemma ReplaceOne(x: char, t: string, c: char, rep: string)
    ensures ReplaceAll([x] + t, c, rep) == (if x == c then rep else [x]) + ReplaceAll(t, c, rep)
  {
    assert ([x] + t)[1..] == t;
  }

  /** The five replacement passes of `escapeHtml`, applied to `s`. */
  function Passes(s: string): string
  {
    ReplaceAll(ReplaceAll(ReplaceAll(ReplaceAll(ReplaceAll(s, '&', "&amp;"), '<', "&lt;"),
      '>', "&gt;"), '"', "&quot;"), '\'', "&#39;")
  }

  lemma PassesAppend(a: string, b: string)
    ensures Passes(a + b) == Passes(a) + Passes(b)
  {
    var a1, b1 := ReplaceAll(a, '&', "&amp;"), ReplaceAll(b, '&', "&amp;");
    ReplaceAllAppend(a, b, '&', "&amp;");
    var a2, b2 := ReplaceAll(a1, '<', "&lt;"), ReplaceAll(b1, '<', "&lt;");
    ReplaceAllAppend(a1, b1, '<', "&lt;");
    var a3, b3 := ReplaceAll(a2, '>', "&gt;"), ReplaceAll(b2, '>', "&gt;");
    ReplaceAllAppend(a2, b2, '>', "&gt;");
    var a4, b4 := ReplaceAll(a3, '"', "&quot;"), ReplaceAll(b3, '"', "&quot;");
    ReplaceAllAppend(a3, b3, '"', "&quot;");
    ReplaceAllAppend(a4, b4, '\'', "&#39;");
  }

  /** A pass over one character. */
  lemma ReplaceSingle(x: char, c: char, rep: string)
    ensures ReplaceAll([x], c, rep) == (if x == c then rep else [x])
  {
    ReplaceOne(x, "", c, rep);
    assert [x] + "" == [x];
  }

  /** Once a character has become `e`, the remaining passes leave `e` alone. */
  lemma PassesFrom(e: string, step: nat)
    requires 1 <= step <= 4
    requires step <= 1 ==> '<' !in e
    requires step <= 2 ==> '>' !in e
    requires step <= 3 ==> '"' !in e
    requires '\'' !in e
    ensures step <= 1 ==> ReplaceAll(ReplaceAll(ReplaceAll(ReplaceAll(e, '<', "&lt;"), '>', "&gt;"), '"', "&quot;"), '\'', "&#39;") == e
    ensures step <= 2 ==> ReplaceAll(ReplaceAll(ReplaceAll(e, '>', "&gt;"), '"', "&quot;"), '\'', "&#39;") == e
    ensures step <= 3 ==> ReplaceAll(ReplaceAll(e, '"', "&quot;"), '\'', "&#39;") == e
    ensures ReplaceAll(e, '\'', "&#39;") == e
  {
    ReplaceAllAbsent(e, '\'', "&#39;");
    if step <= 3 { ReplaceAllAbsent(e, '"', "&quot;"); }
    if step <= 2 { ReplaceAllAbsent(e, '>', "&gt;"); }
    if step <= 1 { ReplaceAllAbsent(e, '<', "&lt;"); }
  }

  /** Each pass leaves the references inserted by the earlier passes alone. */
  lemma PassesOne(x: char)
    ensures Passes([x]) == Entity(x)
  {
    ReplaceSingle(x, '&', "&amp;");
    if x == '&' {
      PassesFrom("&amp;", 1);
    } else {
      ReplaceSingle(x, '<', "&lt;");
      if x == '<' {
        PassesFrom("&lt;", 2);
      } else {
        ReplaceSingle(x, '>', "&gt;");
        if x == '>' {
          PassesFrom("&gt;", 3);
        } else {
          ReplaceSingle(x, '"', "&quot;");
          if x == '"' {
            PassesFrom("&quot;", 4);
          } else {
            ReplaceSingle(x, '\'', "&#39;");
          }
        }
      }
    }
  }

  /** Because `&` is replaced first, the five passes escape each character on its own: no
      reference is escaped twice. */
  lemma {:induction false} EscapeIsPerCharacter(s: string)
    ensures EscapeHtml(s) == EscapeEach(s)
  {
    if |s| > 0 {
      assert s == [s[0]] + s[1..];
      PassesAppend([s[0]], s[1..]);
      PassesOne(s[0]);
      EscapeIsPerCharacter(s[1..]);
    }
  }

  /** A lone ampersand becomes exactly `&amp;`. */
  lemma EscapeAmpersand()
    ensures EscapeHtml("&") == "&amp;"
  {
    EscapeIsPerCharacter("&");
  }

  /** Decoding of the five references `escapeHtml` produces. */
  function Unescape(s: string): string
    decreases |s|
  {
    if |s| == 0 then ""
    else if StartsWith(s, "&amp;") then "&" + Unescape(s[5..])
    else if StartsWith(s, "&lt;") then "<" + Unescape(s[4..])
    else if StartsWith(s, "&gt;") then ">" + Unescape(s[4..])
    else if StartsWith(s, "&quot;") then "\"" + Unescape(s[6..])
    else if StartsWith(s, "&#39;") then "'" + Unescape(s[5..])
    else [s[0]] + Unescape(s[1..])
  }

  /** A string whose second character is not `a` starts with none of the references that have
      `a` at that place. */
  lemma NotStartsWith(s: string, p: string)
    requires |s| >= 2 && |p| >= 2 && s[1] != p[1]
    ensures !StartsWith(s, p)
  {
    if |p| <= |s| {
      assert s[..|p|][1] != p[1];
    }
  }

  /** Decoding a string that starts with the reference of a character that `escapeHtml` rewrites. */
  lemma UnescapeReference(x: char, rest: string)
    requires !Inert(x) || x == '&'
    ensures Unescape(Entity(x) + rest) == [x] + Unescape(rest)
  {
    var e := Entity(x);
    var s := e + rest;
    assert s[..|e|] == e && s[|e|..] == rest;
    if x == '<' {
      NotStartsWith(s, "&amp;");
    } else if x == '>' {
      NotStartsWith(s, "&amp;");
      NotStartsWith(s, "&lt;");
    } else if x == '"' {
      NotStartsWith(s, "&amp;");
      NotStartsWith(s, "&lt;");
      NotStartsWith(s, "&gt;");
    } else if x == '\'' {
      NotStartsWith(s, "&amp;");
      NotStartsWith(s, "&lt;");
      NotStartsWith(s, "&gt;");
      NotStartsWith(s, "&quot;");
    }
  }

  /** Decoding a string that starts with a character other than `&`: the character stays. */
  lemma UnescapePlain(x: char, rest: string)
    requires x != '&'
    ensures Unescape([x] + rest) == [x] + Unescape(rest)
  {
    var s := [x] + rest;
    assert s[0] == x && s[1..] == rest;
    assert !StartsWith(s, "&amp;") && !StartsWith(s, "&lt;") && !StartsWith(s, "&gt;");
    assert !StartsWith(s, "&quot;") && !StartsWith(s, "&#39;");
  }

  lemma UnescapeEntity(x: char, rest: string)
    ensures Unescape(Entity(x) + rest) == [x] + Unescape(rest)
  {
    if Inert(x) && x != '&' {
      UnescapePlain(x, rest);
    } else {
      UnescapeReference(x, rest);
    }
  }

  /** Escaping loses nothing: decoding the references gives the raw text back. */
  lemma {:induction false} UnescapeEscape(s: string)
    ensures Unescape(EscapeHtml(s)) == s
  {
    EscapeIsPerCharacter(s);
    UnescapeEach(s);
  }

  lemma {:induction false} UnescapeEach(s: string)
    ensures Unescape(EscapeEach(s)) == s
  {
    if |s| > 0 {
      UnescapeEntity(s[0], EscapeEach(s[1..]));
      UnescapeEach(s[1..]);
      assert s == [s[0]] + s[1..];
    }
  }
}
