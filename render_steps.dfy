/** The loop invariant of the renderer and the lemmas that carry it from one line to the next. */
module RenderSteps {

  import opened Strings
  import opened Emphasis
  import opened Tables
  import opened Blocks
  import opened Sequences
  import opened Html

  /** The markup of the list that is still open: its opening tag and the items so far. */
  function OpenListHtml(theme: Theme, inUl: bool, inOl: bool, pending: seq<Inline>): string
  {
    if inUl then OpenTag("ul", theme.ul) + CellsHtml("li", ItemClass, pending)
    else if inOl then OpenTag("ol", theme.ol) + CellsHtml("li", ItemClass, pending)
    else ""
  }

  /** The blocks still to come at line `i`, with the open list's items so far in `pending`. */
  ghost function Remaining(ls: seq<Line>, i: nat, inUl: bool, inOl: bool, pending: seq<Inline>): seq<Block>
    requires i <= |ls|
  {
    if inUl then [UList(pending + ItemsFrom(ls, i, Bullets))] + BlocksFrom(ls, ItemsEnd(ls, i, Bullets))
    else if inOl then [OList(pending + ItemsFrom(ls, i, Numbers))] + BlocksFrom(ls, ItemsEnd(ls, i, Numbers))
    else BlocksFrom(ls, i)
  }

  /** The loop invariant at line `i`: what has been appended is the markup of the blocks done and
      of the open list, and those blocks followed by the ones still to come are all the blocks. */
  ghost predicate Tracks(theme: Theme, ls: seq<Line>, i: nat, html: string, inUl: bool, inOl: bool,
                         done: seq<Block>, pending: seq<Inline>)
  {
    && i <= |ls|
    && !(inUl && inOl)
    && (!inUl && !inOl ==> pending == [])
    && html == BlocksHtml(theme, done) + OpenListHtml(theme, inUl, inOl, pending)
    && done + Remaining(ls, i, inUl, inOl, pending) == BlocksFrom(ls, 0)
  }

  /** The list closed at line `i`, or at the end, as a finished block. */
  ghost function Closed(inUl: bool, inOl: bool, pending: seq<Inline>): seq<Block>
  {
    if inUl then [UList(pending)] else if inOl then [OList(pending)] else []
  }

  /** Closing the open `kind` list at a line that cannot continue it finishes the list's block. */
  lemma CloseListStep(theme: Theme, ls: seq<Line>, i: nat, html: string, kind: ListKind,
                      done: seq<Block>, pending: seq<Inline>)
    requires Tracks(theme, ls, i, html, kind == Bullets, kind == Numbers, done, pending)
    requires i < |ls| ==> !IsItem(ls, i, kind)
    ensures Tracks(theme, ls, i, html + CloseTag(ListTag(kind)), false, false, done + [ListBlock(kind, pending)], [])
  {
    var list := ListBlock(kind, pending);
    assert ItemsEnd(ls, i, kind) == i;
    assert ItemsFrom(ls, i, kind) == [];
    assert pending + [] == pending;
    assert Remaining(ls, i, kind == Bullets, kind == Numbers, pending) == [list] + BlocksFrom(ls, i);
    BlocksHtmlAppend(theme, done, list);
    AppendAssoc(BlocksHtml(theme, done), OpenTag(ListTag(kind), ListClass(theme, kind)) + CellsHtml("li", ItemClass, pending),
                CloseTag(ListTag(kind)));
    AppendAssoc(done, [list], BlocksFrom(ls, i));
  }

  /** `closeLists()` at a line that continues no open list. */
  lemma CloseStep(theme: Theme, ls: seq<Line>, i: nat, html: string, inUl: bool, inOl: bool,
                  done: seq<Block>, pending: seq<Inline>)
    requires Tracks(theme, ls, i, html, inUl, inOl, done, pending)
    requires i < |ls| && inUl ==> !IsItem(ls, i, Bullets)
    requires i < |ls| && inOl ==> !IsItem(ls, i, Numbers)
    ensures Tracks(theme, ls, i, html + Closing(inUl, inOl), false, false, done + Closed(inUl, inOl, pending), [])
  {
    if inUl {
      assert Closing(inUl, inOl) == CloseTag("ul") + "";
      assert CloseTag("ul") + "" == CloseTag("ul");
      CloseListStep(theme, ls, i, html, Bullets, done, pending);
    } else if inOl {
      assert Closing(inUl, inOl) == "" + CloseTag("ol");
      assert "" + CloseTag("ol") == CloseTag("ol");
      CloseListStep(theme, ls, i, html, Numbers, done, pending);
    } else {
      assert done + [] == done;
      assert html + "" == html;
    }
  }

  /** A block that starts at line `i` and ends before line `j`, once appended, is done. */
  lemma EmitStep(theme: Theme, ls: seq<Line>, i: nat, j: nat, html: string, done: seq<Block>, b: Block)
    requires Tracks(theme, ls, i, html, false, false, done, [])
    requires i < j <= |ls| && BlocksFrom(ls, i) == [b] + BlocksFrom(ls, j)
    ensures Tracks(theme, ls, j, html + BlockHtml(theme, b), false, false, done + [b], [])
  {
    assert BlocksHtml(theme, done) + "" == BlocksHtml(theme, done);
    BlocksHtmlAppend(theme, done, b);
    AppendAssoc(done, [b], BlocksFrom(ls, j));
  }

  /** Opening a list at its first item. */
  lemma OpenStep(theme: Theme, ls: seq<Line>, i: nat, html: string, done: seq<Block>, kind: ListKind)
    requires Tracks(theme, ls, i, html, false, false, done, [])
    requires i < |ls| && IsItem(ls, i, kind)
    ensures Tracks(theme, ls, i, html + OpenTag(ListTag(kind), ListClass(theme, kind)),
                   kind == Bullets, kind == Numbers, done, [])
  {
    var tag := ListTag(kind);
    var cls := ListClass(theme, kind);
    assert BlocksHtml(theme, done) + "" == BlocksHtml(theme, done);
    assert OpenTag(tag, cls) + "" == OpenTag(tag, cls);
    assert [] + ItemsFrom(ls, i, kind) == ItemsFrom(ls, i, kind);
  }

  /** Appending the item at line `i` to the open list of its kind. */
  lemma ItemStep(theme: Theme, ls: seq<Line>, i: nat, html: string, inUl: bool, inOl: bool,
                 done: seq<Block>, pending: seq<Inline>, kind: ListKind, x: Inline)
    requires Tracks(theme, ls, i, html, inUl, inOl, done, pending)
    requires i < |ls| && IsItem(ls, i, kind) && x == Spans(ItemText(ls[i].kind))
    requires if kind == Bullets then inUl else inOl
    ensures Tracks(theme, ls, i + 1, html + CellHtml("li", ItemClass, x), inUl, inOl, done, pending + [x])
  {
    var tag := ListTag(kind);
    var cls := ListClass(theme, kind);
    CellsHtmlAppend("li", ItemClass, pending, x);
    AppendAssoc(BlocksHtml(theme, done), OpenTag(tag, cls) + CellsHtml("li", ItemClass, pending), CellHtml("li", ItemClass, x));
    AppendAssoc(OpenTag(tag, cls), CellsHtml("li", ItemClass, pending), CellHtml("li", ItemClass, x));
    assert ItemsFrom(ls, i, kind) == [x] + ItemsFrom(ls, i + 1, kind);
    AppendAssoc(pending, [x], ItemsFrom(ls, i + 1, kind));
  }

  /** Row line `i` adds one row to the rows collected so far. */
  lemma RowStep(ls: seq<Line>, j: nat, i: nat, rows: seq<seq<Inline>>)
    requires j <= i < |ls| && IsRowLine(ls[i])
    requires rows + RowsFrom(ls, i) == RowsFrom(ls, j) && RowsEnd(ls, i) == RowsEnd(ls, j)
    ensures (rows + [SplitTableRow(ls[i].trimmed)]) + RowsFrom(ls, i + 1) == RowsFrom(ls, j)
    ensures RowsEnd(ls, i + 1) == RowsEnd(ls, j)
  {
    AppendAssoc(rows, [SplitTableRow(ls[i].trimmed)], RowsFrom(ls, i + 1));
  }

  /** The rows end at a line that is not a row line. */
  lemma RowStop(ls: seq<Line>, j: nat, i: nat, rows: seq<seq<Inline>>)
    requires j <= i <= |ls| && (i < |ls| ==> !IsRowLine(ls[i]))
    requires rows + RowsFrom(ls, i) == RowsFrom(ls, j) && RowsEnd(ls, i) == RowsEnd(ls, j)
    ensures rows == RowsFrom(ls, j) && i == RowsEnd(ls, j)
  {
    assert rows + [] == rows;
  }

  /** A table's blocks: the table of the header line and the rows after the separator, then the
      blocks from the line that ends the rows. */
  lemma TableBlock(ls: seq<Line>, i: nat)
    requires Classified(ls) && i < |ls| && ls[i].kind == TableStart
    ensures i + 2 <= |ls| && i + 2 <= RowsEnd(ls, i + 2)
    ensures BlocksFrom(ls, i) == [Table(SplitTableRow(ls[i].trimmed), RowsFrom(ls, i + 2))] + BlocksFrom(ls, RowsEnd(ls, i + 2))
  {
  }

  /** The block of a line that is a block on its own: a spacer, a heading or a paragraph. */
  function LineBlock(k: LineKind): Block
    requires k.BlankLine? || k.HeadingLine? || k.ParagraphLine?
  {
    match k
    case BlankLine => Spacer
    case HeadingLine(n, x) => Heading(n, Spans(x))
    case ParagraphLine(x) => Paragraph(Spans(x))
  }

  lemma LineBlockFrom(ls: seq<Line>, i: nat)
    requires i < |ls|
    requires ls[i].kind.BlankLine? || ls[i].kind.HeadingLine? || ls[i].kind.ParagraphLine?
    ensures BlocksFrom(ls, i) == [LineBlock(ls[i].kind)] + BlocksFrom(ls, i + 1)
  {
    var k := ls[i].kind;
    match k {
      case BlankLine =>
        assert BlocksFrom(ls, i) == [Spacer] + BlocksFrom(ls, i + 1);
      case HeadingLine(n, x) =>
        assert BlocksFrom(ls, i) == [Heading(n, Spans(x))] + BlocksFrom(ls, i + 1);
      case ParagraphLine(x) =>
        assert BlocksFrom(ls, i) == [Paragraph(Spans(x))] + BlocksFrom(ls, i + 1);
    }
  }

  /** The branch of a blank line, a heading or a paragraph: close the lists, append the block. */
  lemma LineStep(theme: Theme, ls: seq<Line>, i: nat, html: string, inUl: bool, inOl: bool,
                 done: seq<Block>, pending: seq<Inline>, b: Block)
    requires Tracks(theme, ls, i, html, inUl, inOl, done, pending)
    requires i < |ls|
    requires ls[i].kind.BlankLine? || ls[i].kind.HeadingLine? || ls[i].kind.ParagraphLine?
    requires b == LineBlock(ls[i].kind)
    ensures Tracks(theme, ls, i + 1, html + Closing(inUl, inOl) + BlockHtml(theme, b), false, false,
                   done + Closed(inUl, inOl, pending) + [b], [])
  {
    CloseStep(theme, ls, i, html, inUl, inOl, done, pending);
    LineBlockFrom(ls, i);
    EmitStep(theme, ls, i, i + 1, html + Closing(inUl, inOl), done + Closed(inUl, inOl, pending), b);
  }

  /** The table branch: close the lists, append the table, continue after its rows. */
  lemma TableStep(theme: Theme, ls: seq<Line>, i: nat, html: string, inUl: bool, inOl: bool,
                  done: seq<Block>, pending: seq<Inline>, b: Block)
    requires Tracks(theme, ls, i, html, inUl, inOl, done, pending)
    requires Classified(ls) && i < |ls| && ls[i].kind == TableStart
    requires b == Table(SplitTableRow(ls[i].trimmed), RowsFrom(ls, i + 2))
    ensures i + 2 <= |ls| && i + 2 <= RowsEnd(ls, i + 2)
    ensures Tracks(theme, ls, RowsEnd(ls, i + 2), html + Closing(inUl, inOl) + BlockHtml(theme, b), false, false,
                   done + Closed(inUl, inOl, pending) + [b], [])
  {
    CloseStep(theme, ls, i, html, inUl, inOl, done, pending);
    TableBlock(ls, i);
    EmitStep(theme, ls, i, RowsEnd(ls, i + 2), html + Closing(inUl, inOl), done + Closed(inUl, inOl, pending), b);
  }

  /** The branch of a blank line, a heading or a paragraph, stated on the branch's results. */
  lemma LineDone(theme: Theme, ls: seq<Line>, i: nat, html: string, inUl: bool, inOl: bool,
                 done: seq<Block>, pending: seq<Inline>, b: Block,
                 next: nat, out: string, ul': bool, ol': bool, done': seq<Block>, pending': seq<Inline>)
    requires Tracks(theme, ls, i, html, inUl, inOl, done, pending)
    requires i < |ls|
    requires ls[i].kind.BlankLine? || ls[i].kind.HeadingLine? || ls[i].kind.ParagraphLine?
    requires b == LineBlock(ls[i].kind)
    requires next == i + 1 && out == html + Closing(inUl, inOl) + BlockHtml(theme, b) && !ul' && !ol'
    requires done' == done + Closed(inUl, inOl, pending) + [b] && pending' == []
    ensures Tracks(theme, ls, next, out, ul', ol', done', pending')
  {
    LineStep(theme, ls, i, html, inUl, inOl, done, pending, b);
    TracksAt(theme, ls, i + 1, html + Closing(inUl, inOl) + BlockHtml(theme, b), false, false,
             done + Closed(inUl, inOl, pending) + [b], [], next, out, ul', ol', done', pending');
  }

  /** The table branch, stated on the branch's results. */
  lemma TableDone(theme: Theme, ls: seq<Line>, i: nat, html: string, inUl: bool, inOl: bool,
                  done: seq<Block>, pending: seq<Inline>,
                  next: nat, out: string, ul': bool, ol': bool, done': seq<Block>, pending': seq<Inline>)
    requires Tracks(theme, ls, i, html, inUl, inOl, done, pending)
    requires Classified(ls) && i < |ls| && ls[i].kind == TableStart
    requires next == RowsEnd(ls, i + 2) && !ul' && !ol'
    requires out == html + Closing(inUl, inOl) + BlockHtml(theme, Table(SplitTableRow(ls[i].trimmed), RowsFrom(ls, i + 2)))
    requires done' == done + Closed(inUl, inOl, pending) + [Table(SplitTableRow(ls[i].trimmed), RowsFrom(ls, i + 2))]
    requires pending' == []
    ensures Tracks(theme, ls, next, out, ul', ol', done', pending')
  {
    TableStep(theme, ls, i, html, inUl, inOl, done, pending, Table(SplitTableRow(ls[i].trimmed), RowsFrom(ls, i + 2)));
  }

  /** An item of list `kind`, stated on the branch's results: the list of the other kind is closed,
      this kind's list is opened unless it is open, and the item is appended. */
  lemma ItemDone(theme: Theme, ls: seq<Line>, i: nat, html: string, inUl: bool, inOl: bool,
                 done: seq<Block>, pending: seq<Inline>, kind: ListKind, text: string,
                 next: nat, out: string, ul': bool, ol': bool, done': seq<Block>, pending': seq<Inline>)
    requires Tracks(theme, ls, i, html, inUl, inOl, done, pending)
    requires i < |ls| && IsItem(ls, i, kind) && ItemText(ls[i].kind) == text
    requires next == i + 1 && ul' == (kind == Bullets) && ol' == (kind == Numbers)
    requires var other := if kind == Bullets then inOl else inUl;
             var same := if kind == Bullets then inUl else inOl;
             && out == html + (if other then CloseTag(ListTag(Other(kind))) else "")
                            + (if same then "" else OpenTag(ListTag(kind), ListClass(theme, kind)))
                            + Element("li", ItemClass, InlineMarkdown(text))
             && done' == done + (if other then [ListBlock(Other(kind), pending)] else [])
             && pending' == (if same then pending else []) + [Spans(text)]
    ensures Tracks(theme, ls, next, out, ul', ol', done', pending')
  {
    var other := if kind == Bullets then inOl else inUl;
    var same := if kind == Bullets then inUl else inOl;
    var h, u, o, d, p := html, inUl, inOl, done, pending;
    if other {
      CloseListStep(theme, ls, i, h, Other(kind), d, p);
      h, d, p := h + CloseTag(ListTag(Other(kind))), d + [ListBlock(Other(kind), p)], [];
      u, o := false, false;
    } else {
      assert html + "" == html;
      assert done + [] == done;
    }
    ghost var closed := h;
    if !same {
      OpenStep(theme, ls, i, h, d, kind);
      h := h + OpenTag(ListTag(kind), ListClass(theme, kind));
      u, o := kind == Bullets, kind == Numbers;
    } else {
      assert h + "" == h;
    }
    ItemStep(theme, ls, i, h, u, o, d, p, kind, Spans(text));
    assert CellHtml("li", ItemClass, Spans(text)) == Element("li", ItemClass, InlineMarkdown(text));
  }

  /** The same state, with each of its parts written another way. */
  lemma TracksAt(theme: Theme, ls: seq<Line>, i: nat, html: string, inUl: bool, inOl: bool,
                 done: seq<Block>, pending: seq<Inline>,
                 i': nat, html': string, inUl': bool, inOl': bool, done': seq<Block>, pending': seq<Inline>)
    requires Tracks(theme, ls, i, html, inUl, inOl, done, pending)
    requires i == i' && html == html' && inUl == inUl' && inOl == inOl' && done == done' && pending == pending'
    ensures Tracks(theme, ls, i', html', inUl', inOl', done', pending')
  {
  }

  /** Before the first line nothing is done and no list is open. */
  lemma TracksStart(theme: Theme, ls: seq<Line>)
    ensures Tracks(theme, ls, 0, "", false, false, [], [])
  {
    assert [] + BlocksFrom(ls, 0) == BlocksFrom(ls, 0);
    assert BlocksHtml(theme, []) + OpenListHtml(theme, false, false, []) == "";
  }

  /** After the last line and the final `closeLists()`, the blocks done are all the blocks. */
  lemma TracksEnd(theme: Theme, ls: seq<Line>, i: nat, html: string, done: seq<Block>)
    requires Tracks(theme, ls, i, html, false, false, done, []) && i == |ls|
    ensures html == BlocksHtml(theme, BlocksFrom(ls, 0))
  {
    assert done + [] == done;
    assert BlocksHtml(theme, done) + "" == BlocksHtml(theme, done);
  }
}
