/** Properties of the block structure of a document: what a run of items or rows takes, that
    every blank line gives one spacer, that two lists of one kind never follow each other, and
    that the markup of a document is never empty. */
module BlockFacts {

  import opened Strings
  import opened Emphasis
  import opened Tables
  import opened Blocks
  import opened Html

  /** A run of items takes only items of its kind, and the line that ends it is not one. */
  lemma ItemsEndMaximal(ls: seq<Line>, i: nat, kind: ListKind)
    requires i <= |ls|
    ensures forall k :: i <= k < ItemsEnd(ls, i, kind) ==> IsItem(ls, k, kind)
    ensures ItemsEnd(ls, i, kind) < |ls| ==> !IsItem(ls, ItemsEnd(ls, i, kind), kind)
  {
    ItemsEndAllItems(ls, i, kind);
    ItemsEndStops(ls, i, kind);
  }

  lemma {:induction false} ItemsEndAllItems(ls: seq<Line>, i: nat, kind: ListKind)
    requires i <= |ls|
    decreases |ls| - i
    ensures forall k :: i <= k < ItemsEnd(ls, i, kind) ==> IsItem(ls, k, kind)
  {
    var e := ItemsEnd(ls, i, kind);
    if e != i {
      assert i < |ls| && IsItem(ls, i, kind);
      ItemsEndAllItems(ls, i + 1, kind);
      assert e == ItemsEnd(ls, i + 1, kind);
      forall k | i < k < e
        ensures IsItem(ls, k, kind)
      {
        assert i + 1 <= k < ItemsEnd(ls, i + 1, kind);
      }
    }
  }

  lemma {:induction false} ItemsEndStops(ls: seq<Line>, i: nat, kind: ListKind)
    requires i <= |ls|
    decreases |ls| - i
    ensures ItemsEnd(ls, i, kind) < |ls| ==> !IsItem(ls, ItemsEnd(ls, i, kind), kind)
  {
    var e := ItemsEnd(ls, i, kind);
    if i < |ls| && IsItem(ls, i, kind) {
      assert e == ItemsEnd(ls, i + 1, kind);
      ItemsEndStops(ls, i + 1, kind);
    } else {
      assert e == i;
    }
  }

  /** The number of lines whose trimmed text is empty from line `i` on. */
  function BlankCount(ls: seq<Line>, i: nat): nat
    requires i <= |ls|
    decreases |ls| - i
  {
    if i == |ls| then 0 else (if ls[i].trimmed == "" then 1 else 0) + BlankCount(ls, i + 1)
  }

  /** The number of spacers among `bs`. */
  function Spacers(bs: seq<Block>): nat
  {
    if |bs| == 0 then 0 else (if bs[0] == Spacer then 1 else 0) + Spacers(bs[1..])
  }

  /** Skipping lines none of which is blank skips no blank line. */
  lemma {:induction false} BlankCountSkip(ls: seq<Line>, i: nat, e: nat)
    requires i <= e <= |ls|
    requires forall k :: i <= k < e ==> ls[k].trimmed != ""
    decreases e - i
    ensures BlankCount(ls, i) == BlankCount(ls, e)
  {
    if i < e {
      BlankCountSkip(ls, i + 1, e);
    }
  }

  /** The first block and the blocks after it. */
  lemma SpacersCons(b: Block, rest: seq<Block>)
    ensures Spacers([b] + rest) == (if b == Spacer then 1 else 0) + Spacers(rest)
  {
    assert ([b] + rest)[1..] == rest;
  }

  /** The first block of the lines from `i` on. */
  function Head(ls: seq<Line>, i: nat): Block
    requires i < |ls|
  {
    match ls[i].kind
    case BlankLine => Spacer
    case TableStart => Table(SplitTableRow(ls[i].trimmed), RowsFrom(ls, i + 2))
    case HeadingLine(n, x) => Heading(n, Spans(x))
    case BulletItem(_) => UList(ItemsFrom(ls, i, Bullets))
    case NumberedItem(_) => OList(ItemsFrom(ls, i, Numbers))
    case ParagraphLine(t) => Paragraph(Spans(t))
  }

  /** The line after those the first block takes. */
  function NextStart(ls: seq<Line>, i: nat): (e: nat)
    requires i < |ls|
    ensures i < e
    ensures !ls[i].kind.TableStart? ==> e <= |ls|
  {
    match ls[i].kind
    case TableStart => RowsEnd(ls, i + 2)
    case BulletItem(_) => assert IsItem(ls, i, Bullets); ItemsEnd(ls, i, Bullets)
    case NumberedItem(_) => assert IsItem(ls, i, Numbers); ItemsEnd(ls, i, Numbers)
    case _ => i + 1
  }

  /** In a classified view the first block never reaches past the last line. */
  lemma NextStartBound(ls: seq<Line>, i: nat)
    requires Classified(ls) && i < |ls|
    ensures NextStart(ls, i) <= |ls|
  {
    if ls[i].kind.TableStart? {
      assert i + 1 < |ls|;
    }
  }

  /** The lines from `i` on are the first block followed by the blocks of the lines after it. */
  lemma BlocksFromCons(ls: seq<Line>, i: nat)
    requires i < |ls|
    ensures BlocksFrom(ls, i) == [Head(ls, i)] + BlocksFrom(ls, NextStart(ls, i))
  {
    var k := ls[i].kind;
    match k {
      case BlankLine =>
        assert Head(ls, i) == Spacer && NextStart(ls, i) == i + 1;
        assert BlocksFrom(ls, i) == [Spacer] + BlocksFrom(ls, i + 1);
      case TableStart =>
        var b := Table(SplitTableRow(ls[i].trimmed), RowsFrom(ls, i + 2));
        assert Head(ls, i) == b && NextStart(ls, i) == RowsEnd(ls, i + 2);
        assert BlocksFrom(ls, i) == [b] + BlocksFrom(ls, RowsEnd(ls, i + 2));
      case HeadingLine(n, x) =>
        assert Head(ls, i) == Heading(n, Spans(x)) && NextStart(ls, i) == i + 1;
        assert BlocksFrom(ls, i) == [Heading(n, Spans(x))] + BlocksFrom(ls, i + 1);
      case BulletItem(_) =>
        var b := UList(ItemsFrom(ls, i, Bullets));
        assert Head(ls, i) == b && NextStart(ls, i) == ItemsEnd(ls, i, Bullets);
        assert BlocksFrom(ls, i) == [b] + BlocksFrom(ls, ItemsEnd(ls, i, Bullets));
      case NumberedItem(_) =>
        var b := OList(ItemsFrom(ls, i, Numbers));
        assert Head(ls, i) == b && NextStart(ls, i) == ItemsEnd(ls, i, Numbers);
        assert BlocksFrom(ls, i) == [b] + BlocksFrom(ls, ItemsEnd(ls, i, Numbers));
      case ParagraphLine(t) =>
        assert Head(ls, i) == Paragraph(Spans(t)) && NextStart(ls, i) == i + 1;
        assert BlocksFrom(ls, i) == [Paragraph(Spans(t))] + BlocksFrom(ls, i + 1);
    }
  }

  /** The first block is a spacer exactly for a blank line, and a list exactly for an item. */
  lemma HeadKind(ls: seq<Line>, i: nat)
    requires i < |ls|
    ensures Head(ls, i) == Spacer <==> ls[i].kind.BlankLine?
    ensures Head(ls, i).UList? <==> IsItem(ls, i, Bullets)
    ensures Head(ls, i).OList? <==> IsItem(ls, i, Numbers)
    ensures Head(ls, i).UList? ==> NextStart(ls, i) == ItemsEnd(ls, i, Bullets)
    ensures Head(ls, i).OList? ==> NextStart(ls, i) == ItemsEnd(ls, i, Numbers)
    ensures ls[i].kind.TableStart? ==> NextStart(ls, i) == RowsEnd(ls, i + 2)
    ensures !(Head(ls, i).UList? || Head(ls, i).OList? || ls[i].kind.TableStart?) ==> NextStart(ls, i) == i + 1
  {
  }

  /** The lines of a run of items are not blank. */
  lemma ItemsNotBlank(ls: seq<Line>, i: nat, kind: ListKind)
    requires Classified(ls) && i <= |ls|
    ensures forall k :: i <= k < ItemsEnd(ls, i, kind) ==> ls[k].trimmed != ""
  {
    ItemsEndMaximal(ls, i, kind);
    forall k | i <= k < ItemsEnd(ls, i, kind)
      ensures ls[k].trimmed != ""
    {
      assert IsItem(ls, k, kind);
    }
  }

  /** The first block takes no blank line besides its own. */
  lemma TakesNoBlankLine(ls: seq<Line>, i: nat)
    requires Classified(ls) && i < |ls|
    ensures forall k :: i < k < NextStart(ls, i) ==> ls[k].trimmed != ""
  {
    HeadKind(ls, i);
    if Head(ls, i).UList? {
      ItemsNotBlank(ls, i, Bullets);
    } else if Head(ls, i).OList? {
      ItemsNotBlank(ls, i, Numbers);
    } else if ls[i].kind.TableStart? {
      assert ls[i + 1].trimmed != "";
    }
  }

  /** Every blank line gives exactly one spacer: blank lines are neither merged nor taken by a
      list or a table. */
  lemma {:induction false} SpacersAreBlankLines(ls: seq<Line>, i: nat)
    requires Classified(ls) && i <= |ls|
    decreases |ls| - i
    ensures Spacers(BlocksFrom(ls, i)) == BlankCount(ls, i)
  {
    if i < |ls| {
      var e := NextStart(ls, i);
      NextStartBound(ls, i);
      BlocksFromCons(ls, i);
      HeadKind(ls, i);
      TakesNoBlankLine(ls, i);
      SpacersAreBlankLines(ls, e);
      SpacersCons(Head(ls, i), BlocksFrom(ls, e));
      BlankCountSkip(ls, i + 1, e);
    }
  }

  /** Every blank line of a document gives exactly one spacer. */
  lemma DocumentSpacers(markdown: string)
    ensures Spacers(MarkdownBlocks(markdown)) == BlankCount(View(MarkdownLines(markdown)), 0)
  {
    ViewClassified(MarkdownLines(markdown));
    SpacersAreBlankLines(View(MarkdownLines(markdown)), 0);
  }

  /** No two lists of one kind follow each other: a run of items is always taken whole. */
  predicate NoAdjacentSameLists(bs: seq<Block>)
  {
    forall k :: 0 <= k < |bs| - 1 ==> !(bs[k].UList? && bs[k + 1].UList?) && !(bs[k].OList? && bs[k + 1].OList?)
  }

  /** A block followed by blocks without adjacent lists of one kind. */
  lemma NoAdjacentCons(b: Block, rest: seq<Block>)
    requires NoAdjacentSameLists(rest)
    requires |rest| > 0 ==> !(b.UList? && rest[0].UList?) && !(b.OList? && rest[0].OList?)
    ensures NoAdjacentSameLists([b] + rest)
  {
    var bs := [b] + rest;
    forall k | 0 <= k < |bs| - 1
      ensures !(bs[k].UList? && bs[k + 1].UList?) && !(bs[k].OList? && bs[k + 1].OList?)
    {
      if k > 0 {
        assert bs[k] == rest[k - 1] && bs[k + 1] == rest[k];
      }
    }
  }

  /** The blocks of any lines never hold two lists of one kind in a row. */
  lemma {:induction false} ListsNeverAdjacent(ls: seq<Line>, i: nat)
    requires Classified(ls) && i <= |ls|
    decreases |ls| - i
    ensures NoAdjacentSameLists(BlocksFrom(ls, i))
  {
    if i < |ls| {
      var e := NextStart(ls, i);
      NextStartBound(ls, i);
      BlocksFromCons(ls, i);
      HeadKind(ls, i);
      ListsNeverAdjacent(ls, e);
      if e < |ls| {
        BlocksFromCons(ls, e);
        HeadKind(ls, e);
        ItemsEndMaximal(ls, i, Bullets);
        ItemsEndMaximal(ls, i, Numbers);
      }
      NoAdjacentCons(Head(ls, i), BlocksFrom(ls, e));
    }
  }

  /** The markup of every block starts with a tag. */
  lemma BlockHtmlStartsWithTag(theme: Theme, b: Block)
    ensures |BlockHtml(theme, b)| > 0 && BlockHtml(theme, b)[0] == '<'
  {
    match b
    case Table(headers, rows) =>
      var s := BlockHtml(theme, b);
      assert s == OpenTag("div", theme.tableWrap) + (s[|OpenTag("div", theme.tableWrap)|..]);
    case _ =>
  }

  /** Blocks always give some markup. */
  lemma BlocksHtmlNonEmpty(theme: Theme, bs: seq<Block>)
    requires |bs| > 0
    ensures BlocksHtml(theme, bs) != ""
  {
    BlockHtmlStartsWithTag(theme, bs[|bs| - 1]);
  }

  /** Every document has at least one block, so its markup is never empty. */
  lemma MarkdownHtmlNonEmpty(theme: Theme, markdown: string)
    ensures |MarkdownBlocks(markdown)| >= 1
    ensures BlocksHtml(theme, MarkdownBlocks(markdown)) != ""
  {
    BlocksFromCons(View(MarkdownLines(markdown)), 0);
    BlocksHtmlNonEmpty(theme, MarkdownBlocks(markdown));
  }

  /** A table starts exactly when the line holds a pipe and the next line holds a pipe and is a
      separator line; this test comes before the heading and item tests, so a line such as
      `# a | b` above a separator starts a table. */
  lemma TableStartIff(lines: seq<string>, i: nat)
    requires i < |lines|
    ensures Classify(lines, i).TableStart? <==>
      i + 1 < |lines| && '|' in Trim(lines[i]) && '|' in Trim(lines[i + 1]) && IsTableSeparatorLine(Trim(lines[i + 1]))
  {
    var t := Trim(lines[i]);
    var next := NextTrimmed(lines, i);
    assert Classify(lines, i).TableStart? <==> t != "" && StartsTable(t, next);
    assert '|' in next ==> i + 1 < |lines| && next == Trim(lines[i + 1]);
  }

  /** The run of `kind` items at line `i` that ends at line `i + 1`. */
  lemma OneItemRun(ls: seq<Line>, i: nat, kind: ListKind)
    requires i < |ls| && IsItem(ls, i, kind)
    requires i + 1 < |ls| ==> !IsItem(ls, i + 1, kind)
    ensures ItemsEnd(ls, i, kind) == i + 1
    ensures ItemsFrom(ls, i, kind) == [Spans(ItemText(ls[i].kind))]
  {
    assert ItemsEnd(ls, i + 1, kind) == i + 1;
    assert ItemsFrom(ls, i + 1, kind) == [];
  }

  /** `- a`, `- b`, `1. c`: two bullet items then a numbered one give a bulleted list of two
      items followed by a numbered list of one; the change of kind closes the first list. */
  lemma KindSwitchClosesList(ls: seq<Line>, a: string, b: string, c: string)
    requires |ls| == 3
    requires ls[0].kind == BulletItem(a) && ls[1].kind == BulletItem(b)
    requires ls[2].kind == NumberedItem(c)
    ensures BlocksFrom(ls, 0) == [UList([Spans(a), Spans(b)]), OList([Spans(c)])]
  {
    assert IsItem(ls, 0, Bullets) && IsItem(ls, 1, Bullets);
    assert !IsItem(ls, 2, Bullets) && IsItem(ls, 2, Numbers);
    OneItemRun(ls, 1, Bullets);
    OneItemRun(ls, 2, Numbers);
    var items := ItemsFrom(ls, 0, Bullets);
    assert items == [Spans(a), Spans(b)] by {
      assert items == [Spans(a)] + ItemsFrom(ls, 1, Bullets);
    }
    assert ItemsEnd(ls, 0, Bullets) == 2;
    var rest := BlocksFrom(ls, 2);
    assert rest == [OList([Spans(c)])] by {
      assert BlocksFrom(ls, 3) == [];
    }
    assert BlocksFrom(ls, 0) == [UList(items)] + rest;
  }

  /** The blocks of a document never hold two lists of one kind in a row. */
  lemma DocumentListsNeverAdjacent(markdown: string)
    ensures NoAdjacentSameLists(MarkdownBlocks(markdown))
  {
    ViewClassified(MarkdownLines(markdown));
    ListsNeverAdjacent(View(MarkdownLines(markdown)), 0);
  }
}
