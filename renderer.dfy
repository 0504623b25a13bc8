/** `renderNoteMarkdown` (SubjectDetail.tsx) and `renderAssistantMarkdown` (ChatWidget.tsx): the
    line loop, its branches and the table loops, proved to append the markup of the blocks. */
module Renderer {

  import opened Strings
  import opened Emphasis
  import opened Tables
  import opened Blocks
  import opened Sequences
  import opened Html
  import opened RenderSteps

  /** `closeLists()`: appends the closing tag of whichever list is open and marks none open. */
  method CloseLists(html: string, inUl: bool, inOl: bool) returns (out: string, ul': bool, ol': bool)
    ensures out == html + Closing(inUl, inOl)
    ensures !ul' && !ol'
  {
    out, ul', ol' := html, inUl, inOl;
    if ul' {
      out := out + CloseTag("ul");
      ul' := false;
    }
    if ol' {
      out := out + CloseTag("ol");
      ol' := false;
    }
  }

  /** `cells.forEach(...)`: one element per cell, appended in order. */
  method AppendCells(html: string, tag: string, cls: string, cells: seq<Inline>) returns (out: string)
    ensures out == html + CellsHtml(tag, cls, cells)
  {
    out := html;
    var k := 0;
    while k < |cells|
      invariant 0 <= k <= |cells|
      invariant out == html + CellsHtml(tag, cls, cells[..k])
    {
      AppendAssoc(html, CellsHtml(tag, cls, cells[..k]), CellHtml(tag, cls, cells[k]));
      out := out + CellHtml(tag, cls, cells[k]);
      assert cells[..k + 1][..k] == cells[..k];
      k := k + 1;
    }
    assert cells[..|cells|] == cells;
  }

  /** The markup of a table, appended: the opening tags, one header cell per header, one row per
      body row, then the closing tags. */
  method AppendTable(theme: Theme, html: string, headers: seq<Inline>, rows: seq<seq<Inline>>) returns (out: string)
    ensures out == html + BlockHtml(theme, Table(headers, rows))
  {
    out := html + TableHead(theme);
    out := AppendCells(out, "th", theme.headCell, headers);
    out := out + HeadEnd;
    ghost var bodyStart := out;
    var r := 0;
    while r < |rows|
      invariant 0 <= r <= |rows|
      invariant out == bodyStart + RowsHtml(theme, rows[..r])
    {
      ghost var before := RowsHtml(theme, rows[..r]);
      out := out + OpenTag("tr", BodyRowClass);
      out := AppendCells(out, "td", theme.bodyCell, rows[r]);
      out := out + CloseTag("tr");
      Regroup4(bodyStart + before, OpenTag("tr", BodyRowClass), CellsHtml("td", theme.bodyCell, rows[r]), CloseTag("tr"));
      AppendAssoc(bodyStart, before, RowHtml(theme, rows[r]));
      assert rows[..r + 1][..r] == rows[..r];
      r := r + 1;
    }
    assert rows[..|rows|] == rows;
    out := out + TableEnd;
    Regroup5(html, TableHead(theme), CellsHtml("th", theme.headCell, headers), HeadEnd, RowsHtml(theme, rows));
    AppendAssoc(html, TableHead(theme) + CellsHtml("th", theme.headCell, headers) + HeadEnd + RowsHtml(theme, rows), TableEnd);
  }

  /** The row-collecting loop of the table branch: from line `j` on, the rows up to the first blank
      or pipe-less line, and the index of that line. */
  method CollectRows(lines: seq<string>, ghost ls: seq<Line>, j: nat) returns (rows: seq<seq<Inline>>, i: nat)
    requires ls == View(lines) && j <= |lines|
    ensures rows == RowsFrom(ls, j) && i == RowsEnd(ls, j)
  {
    rows := [];
    i := j;
    assert [] + RowsFrom(ls, j) == RowsFrom(ls, j);
    while i < |lines|
      invariant j <= i <= |lines|
      invariant rows + RowsFrom(ls, i) == RowsFrom(ls, j)
      invariant RowsEnd(ls, i) == RowsEnd(ls, j)
    {
      var t := Trim(lines[i]);
      assert ls[i].trimmed == t;
      if !HasCells(t) {
        break;
      }
      RowStep(ls, j, i, rows);
      rows := rows + [SplitTableRow(t)];
      i := i + 1;
    }
    RowStop(ls, j, i, rows);
  }

  /** The blank-line branch: `closeLists()`, then the spacer. */
  method RenderBlank(theme: Theme, ghost ls: seq<Line>, i: nat, html: string, inUl: bool, inOl: bool,
                     ghost done: seq<Block>, ghost pending: seq<Inline>)
    returns (next: nat, out: string, ul': bool, ol': bool, ghost done': seq<Block>, ghost pending': seq<Inline>)
    requires Tracks(theme, ls, i, html, inUl, inOl, done, pending)
    requires i < |ls| && ls[i].kind == BlankLine
    ensures next == i + 1 && out == html + Closing(inUl, inOl) + SpacerHtml && !ul' && !ol'
    ensures Tracks(theme, ls, next, out, ul', ol', done', pending')
  {
    out, ul', ol' := CloseLists(html, inUl, inOl);
    out := out + SpacerHtml;
    next := i + 1;
    done', pending' := done + Closed(inUl, inOl, pending) + [Spacer], [];
    assert BlockHtml(theme, Spacer) == SpacerHtml;
    LineDone(theme, ls, i, html, inUl, inOl, done, pending, Spacer, next, out, ul', ol', done', pending');
  }

  /** The heading branches: `closeLists()`, then the heading of the matched level. */
  method RenderHeading(theme: Theme, ghost ls: seq<Line>, i: nat, html: string, inUl: bool, inOl: bool,
                       ghost done: seq<Block>, ghost pending: seq<Inline>, level: nat, text: string)
    returns (next: nat, out: string, ul': bool, ol': bool, ghost done': seq<Block>, ghost pending': seq<Inline>)
    requires Tracks(theme, ls, i, html, inUl, inOl, done, pending)
    requires i < |ls| && ls[i].kind == HeadingLine(level, text)
    ensures next == i + 1 && !ul' && !ol'
    ensures out == html + Closing(inUl, inOl) + Element(HeadingTag(level), HeadingClass(theme, level), InlineMarkdown(text))
    ensures Tracks(theme, ls, next, out, ul', ol', done', pending')
  {
    out, ul', ol' := CloseLists(html, inUl, inOl);
    out := out + Element(HeadingTag(level), HeadingClass(theme, level), InlineMarkdown(text));
    next := i + 1;
    done', pending' := done + Closed(inUl, inOl, pending) + [Heading(level, Spans(text))], [];
    TextBlockHtml(theme, level, text);
    LineDone(theme, ls, i, html, inUl, inOl, done, pending, Heading(level, Spans(text)), next, out, ul', ol', done', pending');
  }

  /** The paragraph branch: `closeLists()`, then a paragraph of the whole trimmed line. */
  method RenderParagraph(theme: Theme, ghost ls: seq<Line>, i: nat, html: string, inUl: bool, inOl: bool,
                         ghost done: seq<Block>, ghost pending: seq<Inline>, text: string)
    returns (next: nat, out: string, ul': bool, ol': bool, ghost done': seq<Block>, ghost pending': seq<Inline>)
    requires Tracks(theme, ls, i, html, inUl, inOl, done, pending)
    requires i < |ls| && ls[i].kind == ParagraphLine(text)
    ensures next == i + 1 && !ul' && !ol'
    ensures out == html + Closing(inUl, inOl) + Element("p", theme.paragraph, InlineMarkdown(text))
    ensures Tracks(theme, ls, next, out, ul', ol', done', pending')
  {
    out, ul', ol' := CloseLists(html, inUl, inOl);
    out := out + Element("p", theme.paragraph, InlineMarkdown(text));
    next := i + 1;
    done', pending' := done + Closed(inUl, inOl, pending) + [Paragraph(Spans(text))], [];
    TextBlockHtml(theme, 1, text);
    LineDone(theme, ls, i, html, inUl, inOl, done, pending, Paragraph(Spans(text)), next, out, ul', ol', done', pending');
  }

  /** The table branch: `closeLists()`, the header cells from the line, the body rows from the lines
      after the separator; the loop goes on after the last line consumed. */
  method RenderTable(theme: Theme, lines: seq<string>, ghost ls: seq<Line>, i: nat, html: string, inUl: bool, inOl: bool,
                     ghost done: seq<Block>, ghost pending: seq<Inline>)
    returns (next: nat, out: string, ul': bool, ol': bool, ghost done': seq<Block>, ghost pending': seq<Inline>)
    requires ls == View(lines) && Classified(ls)
    requires Tracks(theme, ls, i, html, inUl, inOl, done, pending)
    requires i < |ls| && ls[i].kind == TableStart
    ensures i + 2 <= next == RowsEnd(ls, i + 2) && !ul' && !ol'
    ensures out == html + Closing(inUl, inOl) + BlockHtml(theme, Table(SplitTableRow(ls[i].trimmed), RowsFrom(ls, i + 2)))
    ensures Tracks(theme, ls, next, out, ul', ol', done', pending')
  {
    TableBlock(ls, i);
    var headers := SplitTableRow(Trim(lines[i]));
    out, ul', ol' := CloseLists(html, inUl, inOl);
    var rows, j := CollectRows(lines, ls, i + 2);
    var last := j - 1;
    out := AppendTable(theme, out, headers, rows);
    next := last + 1;
    done', pending' := done + Closed(inUl, inOl, pending) + [Table(headers, rows)], [];
    TableDone(theme, ls, i, html, inUl, inOl, done, pending, next, out, ul', ol', done', pending');
  }

  /** The bullet branch: close an open numbered list, open a bulleted one unless it is open, and
      append the item. */
  method RenderBullet(theme: Theme, ghost ls: seq<Line>, i: nat, html: string, inUl: bool, inOl: bool,
                      ghost done: seq<Block>, ghost pending: seq<Inline>, text: string)
    returns (next: nat, out: string, ul': bool, ol': bool, ghost done': seq<Block>, ghost pending': seq<Inline>)
    requires Tracks(theme, ls, i, html, inUl, inOl, done, pending)
    requires i < |ls| && ls[i].kind == BulletItem(text)
    ensures next == i + 1 && ul' && !ol'
    ensures out == html + (if inOl then CloseTag("ol") else "") + (if inUl then "" else OpenTag("ul", theme.ul))
                   + Element("li", ItemClass, InlineMarkdown(text))
    ensures Tracks(theme, ls, next, out, ul', ol', done', pending')
  {
    out, ul', ol' := html, inUl, inOl;
    if ol' {
      out := out + CloseTag("ol");
      ol' := false;
    }
    ghost var closed := out;
    if !ul' {
      out := out + OpenTag("ul", theme.ul);
      ul' := true;
    }
    ghost var listed := out;
    out := out + Element("li", ItemClass, InlineMarkdown(text));
    next := i + 1;
    done' := done + (if inOl then [OList(pending)] else []);
    pending' := (if inUl then pending else []) + [Spans(text)];
    assert closed == html + (if inOl then CloseTag("ol") else "");
    assert listed == closed + (if inUl then "" else OpenTag("ul", theme.ul));
    ItemDone(theme, ls, i, html, inUl, inOl, done, pending, Bullets, text, next, out, ul', ol', done', pending');
  }

  /** The numbered branch: close an open bulleted list, open a numbered one unless it is open, and
      append the item. */
  method RenderNumbered(theme: Theme, ghost ls: seq<Line>, i: nat, html: string, inUl: bool, inOl: bool,
                        ghost done: seq<Block>, ghost pending: seq<Inline>, text: string)
    returns (next: nat, out: string, ul': bool, ol': bool, ghost done': seq<Block>, ghost pending': seq<Inline>)
    requires Tracks(theme, ls, i, html, inUl, inOl, done, pending)
    requires i < |ls| && ls[i].kind == NumberedItem(text)
    ensures next == i + 1 && !ul' && ol'
    ensures out == html + (if inUl then CloseTag("ul") else "") + (if inOl then "" else OpenTag("ol", theme.ol))
                   + Element("li", ItemClass, InlineMarkdown(text))
    ensures Tracks(theme, ls, next, out, ul', ol', done', pending')
  {
    out, ul', ol' := html, inUl, inOl;
    if ul' {
      out := out + CloseTag("ul");
      ul' := false;
    }
    ghost var closed := out;
    if !ol' {
      out := out + OpenTag("ol", theme.ol);
      ol' := true;
    }
    ghost var listed := out;
    out := out + Element("li", ItemClass, InlineMarkdown(text));
    next := i + 1;
    done' := done + (if inUl then [UList(pending)] else []);
    pending' := (if inOl then pending else []) + [Spans(text)];
    assert closed == html + (if inUl then CloseTag("ul") else "");
    assert listed == closed + (if inOl then "" else OpenTag("ol", theme.ol));
    ItemDone(theme, ls, i, html, inUl, inOl, done, pending, Numbers, text, next, out, ul', ol', done', pending');
  }

  /** One turn of the renderer's loop: the branch `Classify` picks for line `i`, followed by the
      loop's own increment. A table consumes its rows too, so the next line may lie further on. */
  method RenderLine(theme: Theme, lines: seq<string>, ghost ls: seq<Line>, i: nat, html: string, inUl: bool, inOl: bool,
                    ghost done: seq<Block>, ghost pending: seq<Inline>)
    returns (next: nat, out: string, ul': bool, ol': bool, ghost done': seq<Block>, ghost pending': seq<Inline>)
    requires ls == View(lines) && Classified(ls)
    requires i < |lines| && Tracks(theme, ls, i, html, inUl, inOl, done, pending)
    ensures i < next <= |lines| && Tracks(theme, ls, next, out, ul', ol', done', pending')
  {
    var kind := Classify(lines, i);
    assert ls[i].kind == kind;
    match kind {
      case BlankLine =>
        next, out, ul', ol', done', pending' := RenderBlank(theme, ls, i, html, inUl, inOl, done, pending);
      case TableStart =>
        next, out, ul', ol', done', pending' := RenderTable(theme, lines, ls, i, html, inUl, inOl, done, pending);
      case HeadingLine(level, text) =>
        next, out, ul', ol', done', pending' := RenderHeading(theme, ls, i, html, inUl, inOl, done, pending, level, text);
      case BulletItem(text) =>
        next, out, ul', ol', done', pending' := RenderBullet(theme, ls, i, html, inUl, inOl, done, pending, text);
      case NumberedItem(text) =>
        next, out, ul', ol', done', pending' := RenderNumbered(theme, ls, i, html, inUl, inOl, done, pending, text);
      case ParagraphLine(text) =>
        next, out, ul', ol', done', pending' := RenderParagraph(theme, ls, i, html, inUl, inOl, done, pending, text);
    }
  }

  /** The renderer: the markdown is escaped and split into lines, and each line appends its markup
      as the source's loop does, opening and closing lists as items come and go and consuming a
      table's rows in an inner loop. The tests that pick a line's branch, in the source's order, are
      `Classify`. The result is the markup of the markdown's blocks. */
  method RenderMarkdown(theme: Theme, markdown: string) returns (html: string)
    ensures html == BlocksHtml(theme, MarkdownBlocks(markdown))
  {
    var lines := MarkdownLines(markdown);
    ghost var ls := View(lines);
    ViewClassified(lines);
    html := "";
    var inUl, inOl := false, false;
    ghost var done: seq<Block> := [];
    ghost var pending: seq<Inline> := [];
    TracksStart(theme, ls);
    var i := 0;
    while i < |lines|
      invariant i <= |lines|
      invariant Tracks(theme, ls, i, html, inUl, inOl, done, pending)
      decreases |lines| - i
    {
      i, html, inUl, inOl, done, pending := RenderLine(theme, lines, ls, i, html, inUl, inOl, done, pending);
    }
    CloseStep(theme, ls, i, html, inUl, inOl, done, pending);
    done := done + Closed(inUl, inOl, pending);
    html, inUl, inOl := CloseLists(html, inUl, inOl);
    TracksEnd(theme, ls, i, html, done);
  }
}
