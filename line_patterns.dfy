/** The line patterns of the renderer, `^#\s+(.+)`, `^##\s+(.+)`, `^###\s+(.+)`, `^[-*]\s+(.+)` and
    `^\d+\.\s+(.+)`, each giving the text of its capture group when it matches. */
module LinePatterns {

  import opened Wrappers
  import opened Strings

  /** Where a greedy `.+` that starts at `j` stops: the first line terminator at or after `j`. */
  function LineEnd(u: string, j: nat): (e: nat)
    requires j <= |u|
    decreases |u| - j
    ensures j <= e <= |u|
    ensures forall k :: j <= k < e ==> !IsLineTerminator(u[k])
    ensures e < |u| ==> IsLineTerminator(u[e])
  {
    if j < |u| && !IsLineTerminator(u[j]) then LineEnd(u, j + 1) else j
  }

  /** The last index in `[lo, hi)` whose character `.` matches. */
  function LastDotIndex(u: string, lo: nat, hi: nat): (r: Option<nat>)
    requires lo <= hi <= |u|
    decreases hi - lo
    ensures r.Some? ==> lo <= r.value < hi && !IsLineTerminator(u[r.value])
    ensures r.Some? ==> forall k :: r.value < k < hi ==> IsLineTerminator(u[k])
    ensures r.None? ==> forall k :: lo <= k < hi ==> IsLineTerminator(u[k])
  {
    if hi == lo then None
    else if !IsLineTerminator(u[hi - 1]) then Some(hi - 1)
    else LastDotIndex(u, lo, hi - 1)
  }

  /** The capture of `\s+(.+)` matched from index `p` of `u`. The greedy `\s+` first takes the whole
      whitespace run; if nothing follows it, it gives characters back until `.` can match one. */
  function CaptureAfter(u: string, p: nat): (r: Option<string>)
    requires p <= |u|
    ensures r.Some? ==> |r.value| >= 1 && forall k :: 0 <= k < |r.value| ==> !IsLineTerminator(r.value[k])
    ensures r.Some? ==> p < |u| && IsSpace(u[p])
  {
    if p == |u| || !IsSpace(u[p]) then None
    else
      var j := SkipSpace(u, p);
      if j < |u| then
        LineTerminatorIsSpace(u[j]);
        Some(u[j..LineEnd(u, j)])
      else
        match LastDotIndex(u, p + 1, j)
        case Some(k) => Some(u[k..LineEnd(u, k)])
        case None => None
  }

  /** A capture is a piece of the line it was matched in. */
  lemma CaptureChars(u: string, p: nat)
    requires p <= |u|
    ensures CaptureAfter(u, p).Some? ==> CharsFrom(CaptureAfter(u, p).value, u)
  {
    var r := CaptureAfter(u, p);
    if r.Some? {
      var j := SkipSpace(u, p);
      var a := if j < |u| then j else LastDotIndex(u, p + 1, j).value;
      assert r.value == u[a..LineEnd(u, a)];
      forall k | 0 <= k < |r.value| ensures r.value[k] in u {
        assert r.value[k] == u[a + k];
      }
    }
  }

  /** `t.match(/^#{level}\s+(.+)/)?.[1]` for the three heading levels. */
  function HeadingMatch(t: string, level: nat): (r: Option<string>)
    requires 1 <= level <= 3
    ensures r.Some? ==> level < |t| && IsSpace(t[level]) && forall k :: 0 <= k < level ==> t[k] == '#'
  {
    if StartsWith(t, Repeat('#', level)) then CaptureAfter(t, level) else None
  }

  /** `t.match(/^[-*]\s+(.+)/)?.[1]`. */
  function BulletMatch(t: string): (r: Option<string>)
    ensures r.Some? ==> |t| >= 2 && (t[0] == '-' || t[0] == '*') && IsSpace(t[1])
  {
    if |t| > 0 && (t[0] == '-' || t[0] == '*') then CaptureAfter(t, 1) else None
  }

  predicate IsDigit(c: char)
  {
    '0' <= c <= '9'
  }

  /** Where the greedy `\d+` that starts at `i` stops. */
  function DigitsEnd(t: string, i: nat): (e: nat)
    requires i <= |t|
    decreases |t| - i
    ensures i <= e <= |t|
    ensures forall k :: i <= k < e ==> IsDigit(t[k])
    ensures e < |t| ==> !IsDigit(t[e])
  {
    if i < |t| && IsDigit(t[i]) then DigitsEnd(t, i + 1) else i
  }

  /** `t.match(/^\d+\.\s+(.+)/)?.[1]`. Giving digits back to `\d+` never helps, since `\.` cannot
      match a digit, so only the whole digit run is tried. */
  function NumberedMatch(t: string): (r: Option<string>)
    ensures r.Some? ==> |t| >= 3 && IsDigit(t[0])
    ensures r.Some? ==> var d := DigitsEnd(t, 0); d + 1 < |t| && t[d] == '.' && IsSpace(t[d + 1])
  {
    var d := DigitsEnd(t, 0);
    if d >= 1 && d < |t| && t[d] == '.' then CaptureAfter(t, d + 1) else None
  }

  /** The text a line pattern captures is a piece of the line. */
  lemma MatchChars(t: string)
    ensures forall level :: 1 <= level <= 3 && HeadingMatch(t, level).Some? ==> CharsFrom(HeadingMatch(t, level).value, t)
    ensures BulletMatch(t).Some? ==> CharsFrom(BulletMatch(t).value, t)
    ensures NumberedMatch(t).Some? ==> CharsFrom(NumberedMatch(t).value, t)
  {
    forall level | 1 <= level <= 3 && HeadingMatch(t, level).Some?
      ensures CharsFrom(HeadingMatch(t, level).value, t)
    {
      CaptureChars(t, level);
    }
    if |t| > 0 {
      CaptureChars(t, 1);
    }
    var d := DigitsEnd(t, 0);
    if d < |t| {
      CaptureChars(t, d + 1);
    }
  }

  /** No line matches two of the five patterns, so their order only matters against the blank
      and table tests that come before them. */
  lemma PatternsExclusive(t: string)
    ensures HeadingMatch(t, 3).Some? ==> HeadingMatch(t, 2).None? && HeadingMatch(t, 1).None?
    ensures HeadingMatch(t, 2).Some? ==> HeadingMatch(t, 1).None? && HeadingMatch(t, 3).None?
    ensures HeadingMatch(t, 1).Some? ==> HeadingMatch(t, 2).None? && HeadingMatch(t, 3).None?
    ensures BulletMatch(t).Some? ==> HeadingMatch(t, 1).None? && HeadingMatch(t, 2).None? && HeadingMatch(t, 3).None?
    ensures NumberedMatch(t).Some? ==> HeadingMatch(t, 1).None? && HeadingMatch(t, 2).None? && HeadingMatch(t, 3).None? && BulletMatch(t).None?
  {
    if HeadingMatch(t, 3).Some? {
      assert !IsSpace('#');
    }
    if HeadingMatch(t, 2).Some? {
      assert !IsSpace('#');
    }
  }

  /** On a trimmed line the capture is the text after the whitespace that follows the marker, up
      to a line terminator. */
  lemma {:induction false} CaptureOfMarkedLine(marker: string, w: string, x: string)
    requires |w| >= 1 && AllSpace(w)
    requires |x| >= 1 && !IsSpace(x[0])
    requires forall k :: 0 <= k < |x| ==> !IsLineTerminator(x[k])
    ensures CaptureAfter(marker + w + x, |marker|) == Some(x)
  {
    var u := marker + w + x;
    var p := |marker|;
    assert u[p] == w[0];
    forall k | p <= k < p + |w| ensures IsSpace(u[k]) {
      assert u[k] == w[k - p];
    }
    assert u[p + |w|] == x[0];
    SkipSpaceAt(u, p, p + |w|);
    forall k | p + |w| <= k < |u| ensures !IsLineTerminator(u[k]) {
      assert u[k] == x[k - p - |w|];
    }
    LineEndAt(u, p + |w|);
    assert u[p + |w|..|u|] == x;
  }

  lemma LineEndAt(u: string, j: nat)
    requires j <= |u|
    requires forall k :: j <= k < |u| ==> !IsLineTerminator(u[k])
    ensures LineEnd(u, j) == |u|
    decreases |u| - j
  {
    if j < |u| {
      LineEndAt(u, j + 1);
    }
  }

  /** `### Title` is a level-3 heading with text `Title`, and `##`/`#` do not match it; in general
      the heading level is the number of hash signs and the text is what follows the whitespace. */
  lemma HeadingText(level: nat, w: string, x: string)
    requires 1 <= level <= 3
    requires |w| >= 1 && AllSpace(w)
    requires |x| >= 1 && !IsSpace(x[0])
    requires forall k :: 0 <= k < |x| ==> !IsLineTerminator(x[k])
    ensures HeadingMatch(Repeat('#', level) + w + x, level) == Some(x)
    ensures forall other :: 1 <= other <= 3 && other != level ==> HeadingMatch(Repeat('#', level) + w + x, other).None?
  {
    var t := Repeat('#', level) + w + x;
    assert t[..level] == Repeat('#', level);
    CaptureOfMarkedLine(Repeat('#', level), w, x);
    assert t[level] == w[0];
    forall other | 1 <= other <= 3 && other != level
      ensures HeadingMatch(t, other).None?
    {
      if other < level {
        assert t[other] == '#';
        assert !IsSpace('#');
      } else {
        assert !StartsWith(t, Repeat('#', other)) by {
          assert Repeat('#', other)[level] == '#';
          assert |t| > level;
          if |Repeat('#', other)| <= |t| {
            assert t[..|Repeat('#', other)|][level] == t[level];
          }
        }
      }
    }
  }

  /** A line that starts with `**` (such as `**bold** text`) is no list item: `[-*]` must be
      followed by whitespace. */
  lemma BoldStartIsNoItem(t: string)
    requires |t| >= 2 && t[0] == '*' && t[1] == '*'
    ensures BulletMatch(t).None? && NumberedMatch(t).None?
  {
    assert !IsSpace('*');
    assert !IsDigit('*');
  }
}
