/** What the escaping buys the renderers (SubjectDetail.tsx and ChatWidget.tsx): since the input is
    escaped once, before it is split into lines, every text the blocks carry — heading and
    paragraph text, list items, table cells, and the content of every bold span — holds none of
    `<`, `>`, `"` and `'`. The only markup in the output is the markup the renderer writes itself. */
module Safety {

  import opened Wrappers
  import opened Strings
  import opened Escaping
  import opened Emphasis
  import opened Tables
  import opened LinePatterns
  import opened Blocks
  import opened BlockFacts

  /** Text made of the characters of inert text is inert. */
  lemma InertFrom(x: string, u: string)
    requires InertText(u) && CharsFrom(x, u)
    ensures InertText(x)
  {
    forall k | 0 <= k < |x| ensures Inert(x[k]) {
      var j :| 0 <= j < |u| && u[j] == x[k];
    }
  }

  /** Every text a block carries is inert. */
  predicate BlockInert(b: Block)
  {
    match b
    case Spacer => true
    case Heading(_, x) => InertSpans(x)
    case UList(items) => forall k :: 0 <= k < |items| ==> InertSpans(items[k])
    case OList(items) => forall k :: 0 <= k < |items| ==> InertSpans(items[k])
    case Table(headers, rows) =>
      && (forall k :: 0 <= k < |headers| ==> InertSpans(headers[k]))
      && (forall r, k :: 0 <= r < |rows| && 0 <= k < |rows[r]| ==> InertSpans(rows[r][k]))
    case Paragraph(x) => InertSpans(x)
  }

  /** Every line is inert. */
  predicate LinesInert(lines: seq<string>)
  {
    forall k :: 0 <= k < |lines| ==> InertText(lines[k])
  }

  /** The trimmed form of an inert line is inert. */
  lemma TrimInert(line: string)
    requires InertText(line)
    ensures InertText(Trim(line))
  {
    TrimChars(line);
    InertFrom(Trim(line), line);
  }

  /** The cells of an inert line are inert, bold spans included. */
  lemma RowInert(line: string)
    requires InertText(line)
    ensures forall k :: 0 <= k < |SplitTableRow(line)| ==> InertSpans(SplitTableRow(line)[k])
  {
    CellsChars(line);
    forall k | 0 <= k < |SplitTableRow(line)| ensures InertSpans(SplitTableRow(line)[k]) {
      InertFrom(Cells(line)[k], line);
      assert SplitTableRow(line)[k] == Spans(Cells(line)[k]);
    }
  }

  /** The text a line's classification carries is inert. */
  predicate KindInert(k: LineKind)
  {
    match k
    case HeadingLine(_, x) => InertText(x)
    case BulletItem(x) => InertText(x)
    case NumberedItem(x) => InertText(x)
    case ParagraphLine(x) => InertText(x)
    case _ => true
  }

  /** Every line of a view has inert trimmed text and a classification that carries inert text. */
  predicate ViewInert(ls: seq<Line>)
  {
    forall k :: 0 <= k < |ls| ==> InertText(ls[k].trimmed) && KindInert(ls[k].kind)
  }

  /** Every text the classification of an inert trimmed line picks out is inert: the heading and
      item texts are taken from the line and a paragraph is the line itself. */
  lemma KindOfInert(t: string, next: string)
    requires InertText(t)
    ensures KindInert(KindOf(t, next))
  {
    MatchChars(t);
    match KindOf(t, next) {
      case HeadingLine(n, x) =>
        assert HeadingMatch(t, n) == Some(x);
        InertFrom(x, t);
      case BulletItem(x) =>
        InertFrom(x, t);
      case NumberedItem(x) =>
        InertFrom(x, t);
      case _ =>
    }
  }

  /** The view of inert lines is inert. */
  lemma ViewOfInert(lines: seq<string>)
    requires LinesInert(lines)
    ensures ViewInert(View(lines))
  {
    var ls := View(lines);
    forall k | 0 <= k < |ls|
      ensures InertText(ls[k].trimmed) && KindInert(ls[k].kind)
    {
      ViewAt(lines, k);
      assert InertText(lines[k]);
      TrimInert(lines[k]);
      KindOfInert(Trim(lines[k]), NextTrimmed(lines, k));
    }
  }

  /** The items of a run of inert lines are inert. */
  lemma {:induction false} ItemsInert(ls: seq<Line>, i: nat, kind: ListKind)
    requires i <= |ls| && ViewInert(ls)
    decreases |ls| - i
    ensures forall k :: 0 <= k < |ItemsFrom(ls, i, kind)| ==> InertSpans(ItemsFrom(ls, i, kind)[k])
  {
    if i < |ls| && IsItem(ls, i, kind) {
      ItemsInert(ls, i + 1, kind);
      assert KindInert(ls[i].kind);
      var x := ItemText(ls[i].kind);
      assert InertText(x);
      assert ItemsFrom(ls, i, kind) == [Spans(x)] + ItemsFrom(ls, i + 1, kind);
    }
  }

  /** The body rows of inert lines are inert. */
  lemma {:induction false} RowsInert(ls: seq<Line>, j: nat)
    requires ViewInert(ls)
    decreases |ls| - j
    ensures forall r, k :: 0 <= r < |RowsFrom(ls, j)| && 0 <= k < |RowsFrom(ls, j)[r]| ==>
      InertSpans(RowsFrom(ls, j)[r][k])
  {
    if j < |ls| && IsRowLine(ls[j]) {
      RowsInert(ls, j + 1);
      assert InertText(ls[j].trimmed);
      RowInert(ls[j].trimmed);
      assert RowsFrom(ls, j) == [SplitTableRow(ls[j].trimmed)] + RowsFrom(ls, j + 1);
    }
  }

  /** The first block of inert lines is inert. */
  lemma HeadInert(ls: seq<Line>, i: nat)
    requires i < |ls| && ViewInert(ls)
    ensures BlockInert(Head(ls, i))
  {
    assert InertText(ls[i].trimmed) && KindInert(ls[i].kind);
    match ls[i].kind {
      case TableStart =>
        RowInert(ls[i].trimmed);
        RowsInert(ls, i + 2);
      case BulletItem(_) =>
        ItemsInert(ls, i, Bullets);
      case NumberedItem(_) =>
        ItemsInert(ls, i, Numbers);
      case _ =>
    }
  }

  /** All blocks of inert lines are inert. */
  lemma {:induction false} BlocksInert(ls: seq<Line>, i: nat)
    requires ViewInert(ls)
    decreases |ls| - i
    ensures forall k :: 0 <= k < |BlocksFrom(ls, i)| ==> BlockInert(BlocksFrom(ls, i)[k])
  {
    if i < |ls| {
      BlocksFromCons(ls, i);
      HeadInert(ls, i);
      BlocksInert(ls, NextStart(ls, i));
    }
  }

  /** Whatever the markdown holds, every text of every block of the document is inert: no
      character of the input can open a tag or an attribute value in the rendered markup. */
  lemma MarkdownBlocksInert(markdown: string)
    ensures forall k :: 0 <= k < |MarkdownBlocks(markdown)| ==> BlockInert(MarkdownBlocks(markdown)[k])
  {
    ViewOfInert(MarkdownLines(markdown));
    BlocksInert(View(MarkdownLines(markdown)), 0);
  }
}
