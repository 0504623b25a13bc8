/** Whole documents through the renderers' pipeline (SubjectDetail.tsx and ChatWidget.tsx):
    escaping, splitting into lines and classifying, for documents of one line. */
module Documents {

  import opened Wrappers
  import opened Strings
  import opened Escaping
  import opened Emphasis
  import opened LinePatterns
  import opened Blocks
  import opened BlockFacts

  /** Text with no `&` and no character that is escaped is left as it is by the escaping. */
  lemma EscapePlain(s: string)
    requires '&' !in s && InertText(s)
    ensures EscapeHtml(s) == s
  {
    assert '<' !in s && '>' !in s && '"' !in s && '\'' !in s;
    ReplaceAllAbsent(s, '&', "&amp;");
    ReplaceAllAbsent(s, '<', "&lt;");
    ReplaceAllAbsent(s, '>', "&gt;");
    ReplaceAllAbsent(s, '"', "&quot;");
    ReplaceAllAbsent(s, '\'', "&#39;");
  }

  /** A document of one line of plain text is that line. */
  lemma OneLine(s: string)
    requires '&' !in s && InertText(s) && '\n' !in s
    ensures MarkdownLines(s) == [s]
  {
    EscapePlain(s);
    SplitWithout(s, '\n');
  }

  /** A trimmed line that is not blank, starts no table and matches the pattern of one heading
      level only is a heading of that level. */
  lemma KindOfHeading(t: string, next: string, level: nat, x: string)
    requires 1 <= level <= 3
    requires t != "" && !StartsTable(t, next)
    requires HeadingMatch(t, level) == Some(x)
    requires forall other :: 1 <= other <= 3 && other != level ==> HeadingMatch(t, other).None?
    ensures KindOf(t, next) == HeadingLine(level, x)
  {
    if level == 1 {
      assert HeadingMatch(t, 3).None? && HeadingMatch(t, 2).None?;
    } else if level == 2 {
      assert HeadingMatch(t, 3).None?;
    }
  }

  /** A one-line document whose line is trimmed and matches one heading level only is one heading:
      a lone line starts no table, whatever pipes it holds. */
  lemma OneHeadingLine(t: string, level: nat, x: string)
    requires 1 <= level <= 3
    requires '&' !in t && InertText(t) && '\n' !in t
    requires Trim(t) == t && t != ""
    requires HeadingMatch(t, level) == Some(x)
    requires forall other :: 1 <= other <= 3 && other != level ==> HeadingMatch(t, other).None?
    ensures MarkdownBlocks(t) == [Heading(level, Spans(x))]
  {
    OneLine(t);
    var lines := [t];
    assert NextTrimmed(lines, 0) == "";
    assert !StartsTable(t, "");
    KindOfHeading(t, "", level, x);
    ViewAt(lines, 0);
    var ls := View(lines);
    assert ls[0].kind == HeadingLine(level, x);
    assert BlocksFrom(ls, 0) == [Heading(level, Spans(x))] + BlocksFrom(ls, 1);
  }

  /** `# Title`, `## Title`, `### Title`: a document of one heading line is exactly one heading
      of that level whose text is what follows the hashes and the space. */
  lemma {:induction false} HeadingDocument(level: nat, x: string)
    requires 1 <= level <= 3
    requires |x| >= 1 && !IsSpace(x[0]) && !IsSpace(x[|x| - 1])
    requires forall k :: 0 <= k < |x| ==> !IsLineTerminator(x[k])
    requires '&' !in x && InertText(x)
    ensures MarkdownBlocks(Repeat('#', level) + " " + x) == [Heading(level, Spans(x))]
  {
    var t := Repeat('#', level) + " " + x;
    assert '&' !in t && '\n' !in t && InertText(t) by {
      assert forall k :: 0 <= k < |t| ==> t[k] == '#' || t[k] == ' ' || t[k] in x;
    }
    assert Trim(t) == t by {
      TrimUnspaced(t);
    }
    assert HeadingMatch(t, level) == Some(x)
      && forall other :: 1 <= other <= 3 && other != level ==> HeadingMatch(t, other).None? by {
      HeadingText(level, " ", x);
    }
    OneHeadingLine(t, level, x);
  }

  /** `- x` is a bullet item with text `x`, whatever line follows it. */
  lemma BulletLine(x: string, next: string)
    requires |x| >= 1 && !IsSpace(x[0]) && '|' !in x
    requires forall k :: 0 <= k < |x| ==> !IsLineTerminator(x[k])
    ensures KindOf("- " + x, next) == BulletItem(x)
  {
    var t := "- " + x;
    CaptureOfMarkedLine("-", " ", x);
    assert "-" + " " + x == t;
    assert '|' !in t by {
      assert forall k :: 0 <= k < |t| ==> t[k] == '-' || t[k] == ' ' || t[k] in x;
    }
    assert Repeat('#', 3)[0] == '#' && Repeat('#', 2)[0] == '#' && Repeat('#', 1)[0] == '#';
  }

  /** `1. x` is a numbered item with text `x`, whatever line follows it. */
  lemma NumberedLine(x: string, next: string)
    requires |x| >= 1 && !IsSpace(x[0]) && '|' !in x
    requires forall k :: 0 <= k < |x| ==> !IsLineTerminator(x[k])
    ensures KindOf("1. " + x, next) == NumberedItem(x)
  {
    var t := "1. " + x;
    CaptureOfMarkedLine("1.", " ", x);
    assert "1." + " " + x == t;
    assert '|' !in t by {
      assert forall k :: 0 <= k < |t| ==> t[k] == '1' || t[k] == '.' || t[k] == ' ' || t[k] in x;
    }
    assert Repeat('#', 3)[0] == '#' && Repeat('#', 2)[0] == '#' && Repeat('#', 1)[0] == '#';
    assert DigitsEnd(t, 2) == 2;
    assert DigitsEnd(t, 0) == 1;
  }

  /** Three lines of plain text joined by line feeds are left as they are by the escaping. */
  lemma ThreeLinesEscaped(a: string, b: string, c: string)
    requires '&' !in a && '&' !in b && '&' !in c
    requires InertText(a) && InertText(b) && InertText(c)
    ensures var doc := a + "\n" + b + "\n" + c; EscapeHtml(doc) == doc
  {
    var doc := a + "\n" + b + "\n" + c;
    assert forall k :: 0 <= k < |doc| ==> doc[k] == '\n' || doc[k] in a || doc[k] in b || doc[k] in c;
    EscapePlain(doc);
  }

  /** Split at its line feeds, the text of three lines without line feeds gives those lines. */
  lemma ThreeLinesSplit(a: string, b: string, c: string)
    requires '\n' !in a && '\n' !in b && '\n' !in c
    ensures Split(a + "\n" + b + "\n" + c, '\n') == [a, b, c]
  {
    var tail := b + "\n" + c;
    assert a + "\n" + b + "\n" + c == a + "\n" + tail;
    SplitWithout(c, '\n');
    SplitAtFirst(b, '\n', c);
    SplitAtFirst(a, '\n', tail);
  }

  /** Three lines of plain text, the first two ending in no carriage return, are those three lines. */
  lemma ThreeLines(a: string, b: string, c: string)
    requires '&' !in a && '&' !in b && '&' !in c
    requires InertText(a) && InertText(b) && InertText(c)
    requires '\n' !in a && '\n' !in b && '\n' !in c
    requires |a| >= 1 && a[|a| - 1] != '\r' && |b| >= 1 && b[|b| - 1] != '\r'
    ensures MarkdownLines(a + "\n" + b + "\n" + c) == [a, b, c]
  {
    var doc := a + "\n" + b + "\n" + c;
    ThreeLinesEscaped(a, b, c);
    ThreeLinesSplit(a, b, c);
    var r := SplitLines(doc);
    assert r[0] == DropCarriageReturn(a) == a;
    assert r[1] == DropCarriageReturn(b) == b;
  }

  /** Text that can stand after a list marker and come back unchanged as the item's text. */
  predicate ItemText(x: string)
  {
    && |x| >= 1 && !IsSpace(x[0]) && !IsSpace(x[|x| - 1])
    && (forall k :: 0 <= k < |x| ==> !IsLineTerminator(x[k]))
    && '|' !in x && '&' !in x && InertText(x)
  }

  /** The line `marker x` is trimmed, inert and holds no ampersand and no line feed. */
  lemma ItemLine(marker: string, x: string)
    requires marker == "- " || marker == "1. "
    requires ItemText(x)
    ensures var t := marker + x;
      Trim(t) == t && '&' !in t && InertText(t) && '\n' !in t && t[|t| - 1] != '\r'
  {
    var t := marker + x;
    assert t[|t| - 1] == x[|x| - 1];
    assert forall k :: 0 <= k < |t| ==> t[k] in marker || t[k] in x;
    TrimUnspaced(t);
  }

  /** How the renderer sees the lines `- x`, `- y`, `1. z`: two bullet items and a numbered item. */
  lemma ListSwitchKinds(lines: seq<string>, x: string, y: string, z: string)
    requires ItemText(x) && ItemText(y) && ItemText(z)
    requires lines == ["- " + x, "- " + y, "1. " + z]
    ensures |View(lines)| == 3
    ensures View(lines)[0].kind == BulletItem(x) && View(lines)[1].kind == BulletItem(y)
    ensures View(lines)[2].kind == NumberedItem(z)
  {
    ItemLine("- ", x);
    ItemLine("- ", y);
    ItemLine("1. ", z);
    BulletLine(x, "- " + y);
    BulletLine(y, "1. " + z);
    NumberedLine(z, "");
    ViewAt(lines, 0);
    ViewAt(lines, 1);
    ViewAt(lines, 2);
  }

  /** `- x`, `- y`, `1. z` on three lines is a bulleted list of two items followed by a numbered
      list of one: the numbered item closes the bulleted list and opens its own. */
  lemma ListSwitchDocument(x: string, y: string, z: string)
    requires ItemText(x) && ItemText(y) && ItemText(z)
    ensures MarkdownBlocks("- " + x + "\n- " + y + "\n1. " + z)
      == [UList([Spans(x), Spans(y)]), OList([Spans(z)])]
  {
    var a, b, c := "- " + x, "- " + y, "1. " + z;
    ItemLine("- ", x);
    ItemLine("- ", y);
    ItemLine("1. ", z);
    ThreeLines(a, b, c);
    assert a + "\n" + b + "\n" + c == "- " + x + "\n- " + y + "\n1. " + z;
    var lines := MarkdownLines(a + "\n" + b + "\n" + c);
    ListSwitchKinds(lines, x, y, z);
    KindSwitchClosesList(View(lines), x, y, z);
  }
}
