/** `inlineMarkdown` (SubjectDetail.tsx and ChatWidget.tsx): the global replacement of the lazy
    pattern `\*\*(.+?)\*\*` by `<strong>$1</strong>`, scanning left to right. */
module Emphasis {

  import opened Wrappers
  import opened Strings
  import opened Escaping

  /** One piece of inline text: a character kept as it is, or a bold span. */
  datatype Span = Plain(c: char) | Strong(content: string)

  /** `**` starts at index `j` of `s`. */
  predicate MarkerAt(s: string, j: nat)
  {
    j + 1 < |s| && s[j] == '*' && s[j + 1] == '*'
  }

  /** For a match opened by the `**` at index 0, the index of its closing `**`: candidate closing
      positions are tried from `j` on, one more content character at a time (the lazy `.+?`), and
      the attempt fails at the first content character that `.` does not match. */
  function CloseFrom(s: string, j: nat): (r: Option<nat>)
    requires 3 <= j
    decreases |s| - j
    ensures r.Some? ==> j <= r.value && MarkerAt(s, r.value)
    ensures r.Some? ==> forall k :: j - 1 <= k < r.value ==> !IsLineTerminator(s[k])
    ensures r.Some? ==> forall m :: j <= m < r.value ==> !MarkerAt(s, m)
    ensures (forall m :: j <= m ==> !MarkerAt(s, m)) ==> r.None?
  {
    if j + 2 > |s| || IsLineTerminator(s[j - 1]) then None
    else if MarkerAt(s, j) then Some(j)
    else CloseFrom(s, j + 1)
  }

  /** The index of the closing `**` of a match starting at index 0 of `s`, if the pattern matches
      there. */
  function MatchAtStart(s: string): (r: Option<nat>)
    ensures r.Some? ==> MarkerAt(s, 0) && 3 <= r.value && MarkerAt(s, r.value)
    ensures r.Some? ==> forall k :: 2 <= k < r.value ==> !IsLineTerminator(s[k])
    ensures r.Some? ==> forall m :: 3 <= m < r.value ==> !MarkerAt(s, m)
    ensures (forall m :: 0 <= m ==> !MarkerAt(s, m)) ==> r.None?
  {
    if MarkerAt(s, 0) then CloseFrom(s, 3) else None
  }

  /** A bold content the lazy pattern can capture: not empty, free of line terminators, and with
      no earlier place where a closing `**` would have matched. */
  predicate WellFormedStrong(x: string)
  {
    && |x| >= 1
    && (forall k :: 0 <= k < |x| ==> !IsLineTerminator(x[k]))
    && (forall m :: 1 <= m < |x| ==> !MarkerAt(x + "**", m))
  }

  /** What a match at the start captures is a bold content the pattern can capture. */
  lemma StrongContent(s: string, j: nat)
    requires MatchAtStart(s) == Some(j)
    ensures WellFormedStrong(s[2..j])
  {
    var x := s[2..j];
    assert x + "**" == s[2..j + 2];
    forall m | 1 <= m < |x| ensures !MarkerAt(x + "**", m) {
      assert !MarkerAt(s, m + 2);
    }
  }

  /** A match at the start splits the text into `**`, the content, `**` and the rest. */
  lemma StrongSplit(s: string, j: nat)
    requires MatchAtStart(s) == Some(j)
    ensures s == "**" + s[2..j] + "**" + s[j + 2..]
  {
    assert s == s[..2] + s[2..j] + s[j..j + 2] + s[j + 2..];
  }

  /** The search for a closing `**` from `j` stops at the first one, provided no content
      character on the way is a line terminator. */
  lemma {:induction false} CloseFromAt(s: string, j: nat, e: nat)
    requires 3 <= j <= e && MarkerAt(s, e)
    requires forall m :: j <= m < e ==> !MarkerAt(s, m)
    requires forall k :: j - 1 <= k < e ==> !IsLineTerminator(s[k])
    decreases e - j
    ensures CloseFrom(s, j) == Some(e)
  {
    if j < e {
      CloseFromAt(s, j + 1, e);
    }
  }

  /** A bold content the pattern can capture, written between two `**` at the start of the text,
      is matched there and closed by the `**` right after it. */
  lemma MatchOfStrong(x: string, rest: string)
    requires WellFormedStrong(x)
    ensures MatchAtStart("**" + x + "**" + rest) == Some(|x| + 2)
  {
    var s := "**" + x + "**" + rest;
    var e := |x| + 2;
    assert s[..e + 2] == "**" + (x + "**");
    forall m | 3 <= m < e ensures !MarkerAt(s, m) {
      assert !MarkerAt(x + "**", m - 2);
      assert s[m] == (x + "**")[m - 2] && s[m + 1] == (x + "**")[m - 1];
    }
    forall k | 2 <= k < e ensures !IsLineTerminator(s[k]) {
      assert s[k] == x[k - 2];
    }
    CloseFromAt(s, 3, e);
  }

  /** `**bold** text`: a bold span at the start of the text becomes the first span, and the
      rest of the text is read on its own. */
  lemma LeadingStrong(x: string, rest: string)
    requires WellFormedStrong(x)
    ensures Spans("**" + x + "**" + rest) == [Strong(x)] + Spans(rest)
  {
    var s := "**" + x + "**" + rest;
    MatchOfStrong(x, rest);
    assert s[2..|x| + 2] == x;
    assert s[|x| + 4..] == rest;
  }

  /** The inline text of `s`: at each position the pattern is tried; a match becomes one bold span
      and scanning resumes after it, otherwise the character is kept. */
  function Spans(s: string): (r: seq<Span>)
    decreases |s|
    ensures forall k :: 0 <= k < |r| && r[k].Strong? ==> WellFormedStrong(r[k].content)
    ensures InertText(s) ==> InertSpans(r)
  {
    if |s| == 0 then []
    else match MatchAtStart(s)
      case Some(j) => StrongContent(s, j); [Strong(s[2..j])] + Spans(s[j + 2..])
      case None => [Plain(s[0])] + Spans(s[1..])
  }

  /** Every character of the spans, bold or not, is inert. */
  predicate InertSpans(sps: seq<Span>)
  {
    forall k :: 0 <= k < |sps| ==>
      match sps[k]
      case Plain(c) => Inert(c)
      case Strong(x) => InertText(x)
  }

  /** The markdown a span was read from. */
  function SpanSource(sp: Span): string
  {
    match sp
    case Plain(c) => [c]
    case Strong(x) => "**" + x + "**"
  }

  /** The markdown the spans were read from: each bold span turned back into `**X**`. */
  function Source(sps: seq<Span>): string
  {
    if |sps| == 0 then "" else SpanSource(sps[0]) + Source(sps[1..])
  }

  /** The source of spans is the source of the first followed by the source of the others. */
  lemma SourceCons(sp: Span, rest: seq<Span>)
    ensures Source([sp] + rest) == SpanSource(sp) + Source(rest)
  {
    assert ([sp] + rest)[1..] == rest;
  }

  /** The HTML of a span. */
  function SpanHtml(sp: Span): string
  {
    match sp
    case Plain(c) => [c]
    case Strong(x) => "<strong>" + x + "</strong>"
  }

  /** The HTML of inline text. */
  function InlineHtml(sps: seq<Span>): string
  {
    if |sps| == 0 then "" else SpanHtml(sps[0]) + InlineHtml(sps[1..])
  }

  /** `inlineMarkdown(text)`. */
  function InlineMarkdown(text: string): string
  {
    InlineHtml(Spans(text))
  }

  /** Turning every `<strong>X</strong>` back into `**X**` recovers the text: the bold rewriting
      loses and invents nothing. */
  lemma {:induction false} SpansRoundTrip(s: string)
    ensures Source(Spans(s)) == s
    decreases |s|
  {
    if |s| > 0 {
      var r := Spans(s);
      match MatchAtStart(s)
      case Some(j) =>
        var x, rest := s[2..j], s[j + 2..];
        StrongSplit(s, j);
        SpansRoundTrip(rest);
        SourceCons(Strong(x), Spans(rest));
        assert r == [Strong(x)] + Spans(rest);
      case None =>
        SpansRoundTrip(s[1..]);
        SourceCons(Plain(s[0]), Spans(s[1..]));
        assert r == [Plain(s[0])] + Spans(s[1..]);
        assert s == [s[0]] + s[1..];
    }
  }

  /** Text with no `**` at all is left unchanged. */
  lemma {:induction false} NoMarkerUnchanged(s: string)
    requires forall m :: 0 <= m ==> !MarkerAt(s, m)
    ensures InlineMarkdown(s) == s
    decreases |s|
  {
    if |s| > 0 {
      assert MatchAtStart(s).None?;
      forall m | 0 <= m ensures !MarkerAt(s[1..], m) {
        assert !MarkerAt(s, m + 1);
      }
      NoMarkerUnchanged(s[1..]);
      assert Spans(s)[1..] == Spans(s[1..]);
      assert s == [s[0]] + s[1..];
    }
  }

  /** Text where the pattern matches at no position is left unchanged, whatever `**` it holds. */
  lemma {:induction false} NoMatchUnchanged(s: string)
    requires forall p :: 0 <= p <= |s| ==> MatchAtStart(s[p..]).None?
    ensures InlineMarkdown(s) == s
    decreases |s|
  {
    if |s| > 0 {
      assert s[0..] == s;
      forall p | 0 <= p <= |s[1..]| ensures MatchAtStart(s[1..][p..]).None? {
        assert s[1..][p..] == s[p + 1..];
      }
      NoMatchUnchanged(s[1..]);
      var rest := Spans(s[1..]);
      assert Spans(s) == [Plain(s[0])] + rest;
      assert ([Plain(s[0])] + rest)[1..] == rest;
      assert InlineHtml([Plain(s[0])] + rest) == [s[0]] + InlineHtml(rest);
      assert s == [s[0]] + s[1..];
    }
  }

  /** The only `**` of `a + "**" + x`, when `a` and `x` hold none and no `*` touches it, is the
      one between them. */
  lemma OnlyMarker(a: string, x: string)
    requires forall k :: 0 <= k ==> !MarkerAt(a, k)
    requires forall k :: 0 <= k ==> !MarkerAt(x, k)
    requires |a| == 0 || a[|a| - 1] != '*'
    requires |x| == 0 || x[0] != '*'
    ensures forall m :: 0 <= m ==> (MarkerAt(a + "**" + x, m) <==> m == |a|)
  {
    var s := a + "**" + x;
    forall m | 0 <= m && m != |a| ensures !MarkerAt(s, m) {
      if m + 1 < |a| {
        assert s[m] == a[m] && s[m + 1] == a[m + 1];
        assert !MarkerAt(a, m);
      } else if m + 1 == |a| {
        assert s[m] == a[m];
      } else if m == |a| + 1 && m + 1 < |s| {
        assert s[m + 1] == x[0];
      } else if m > |a| + 1 && m + 1 < |s| {
        var k := m - |a| - 2;
        assert s[m] == x[k] && s[m + 1] == x[k + 1];
        assert !MarkerAt(x, k);
      }
    }
  }

  /** A `**` that is never closed stays literal, wherever it stands: `a **x` with no other `**`
      in the text is unchanged. */
  lemma UnclosedStaysLiteral(a: string, x: string)
    requires forall m :: 0 <= m ==> !MarkerAt(a, m)
    requires forall m :: 0 <= m ==> !MarkerAt(x, m)
    requires |a| == 0 || a[|a| - 1] != '*'
    requires |x| == 0 || x[0] != '*'
    ensures InlineMarkdown(a + "**" + x) == a + "**" + x
  {
    var s := a + "**" + x;
    OnlyMarker(a, x);
    forall p | 0 <= p <= |s| ensures MatchAtStart(s[p..]).None? {
      if MatchAtStart(s[p..]).Some? {
        var r := MatchAtStart(s[p..]).value;
        assert s[p..][0] == s[p] && s[p..][1] == s[p + 1];
        assert s[p..][r] == s[p + r] && s[p..][r + 1] == s[p + r + 1];
        assert MarkerAt(s, p) && MarkerAt(s, p + r);
        assert false;
      }
    }
    NoMatchUnchanged(s);
  }
}
