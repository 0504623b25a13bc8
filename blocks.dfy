/** The block structure the renderers of SubjectDetail.tsx and ChatWidget.tsx produce: the escaped
    input split into lines, each line classified in a fixed order, consecutive items of one kind
    grouped into a list and a table header with its separator and body rows grouped into a table. */
module Blocks {

  import opened Wrappers
  import opened Strings
  import opened Escaping
  import opened Emphasis
  import opened Tables
  import opened LinePatterns

  /** Text after the bold rewriting. */
  type Inline = seq<Span>

  /** One unit of rendered output. */
  datatype Block =
    | Spacer
    | Heading(level: nat, text: Inline)
    | UList(items: seq<Inline>)
    | OList(items: seq<Inline>)
    | Table(headers: seq<Inline>, rows: seq<seq<Inline>>)
    | Paragraph(text: Inline)

  /** What one line is, decided in the source's order of tests. */
  datatype LineKind =
    | BlankLine
    | TableStart
    | HeadingLine(level: nat, text: string)
    | BulletItem(text: string)
    | NumberedItem(text: string)
    | ParagraphLine(text: string)

  /** `lines[i + 1]?.trim() ?? ""`. */
  function NextTrimmed(lines: seq<string>, i: nat): string
  {
    if i + 1 < |lines| then Trim(lines[i + 1]) else ""
  }

  /** The table test: the line and the next one hold a pipe and the next one is a separator line. */
  predicate StartsTable(t: string, next: string)
  {
    '|' in t && '|' in next && IsTableSeparatorLine(next)
  }

  /** The tests of the loop body on the trimmed line `t`, with `next` the trimmed line after it:
      blank, table, `###`, `##`, `#`, bullet item, numbered item, and otherwise a paragraph of the
      whole trimmed line. */
  function KindOf(t: string, next: string): (k: LineKind)
    ensures k.BlankLine? <==> t == ""
    ensures k.TableStart? <==> t != "" && StartsTable(t, next)
  {
    if t == "" then BlankLine
    else if StartsTable(t, next) then TableStart
    else if HeadingMatch(t, 3).Some? then HeadingLine(3, HeadingMatch(t, 3).value)
    else if HeadingMatch(t, 2).Some? then HeadingLine(2, HeadingMatch(t, 2).value)
    else if HeadingMatch(t, 1).Some? then HeadingLine(1, HeadingMatch(t, 1).value)
    else if BulletMatch(t).Some? then BulletItem(BulletMatch(t).value)
    else if NumberedMatch(t).Some? then NumberedItem(NumberedMatch(t).value)
    else ParagraphLine(t)
  }

  /** The classification of line `i`. */
  function Classify(lines: seq<string>, i: nat): (k: LineKind)
    requires i < |lines|
    ensures k.BlankLine? <==> Trim(lines[i]) == ""
    ensures k.TableStart? ==> i + 1 < |lines| && '|' in Trim(lines[i]) && '|' in Trim(lines[i + 1])
  {
    KindOf(Trim(lines[i]), NextTrimmed(lines, i))
  }

  /** A line as the loop sees it: its trimmed text and its classification. */
  datatype Line = Line(trimmed: string, kind: LineKind)

  /** Every line with its trimmed text and its classification. */
  function View(lines: seq<string>): (ls: seq<Line>)
    ensures |ls| == |lines|
  {
    seq(|lines|, k requires 0 <= k < |lines| => Line(Trim(lines[k]), Classify(lines, k)))
  }

  /** Line `k` of the view is line `k`, trimmed and classified. */
  lemma ViewAt(lines: seq<string>, k: nat)
    requires k < |lines|
    ensures View(lines)[k] == Line(Trim(lines[k]), Classify(lines, k))
  {
  }

  /** What the classification guarantees of a view: a line is blank exactly when its trimmed text
      is empty, and a table start is followed by a line that holds a pipe. */
  predicate Classified(ls: seq<Line>)
  {
    && (forall k :: 0 <= k < |ls| ==>
          (ls[k].kind.BlankLine? <==> ls[k].trimmed == "") && (ls[k].kind.TableStart? ==> k + 1 < |ls|))
    && (forall k :: 0 < k < |ls| && ls[k - 1].kind.TableStart? ==> '|' in ls[k].trimmed)
  }

  /** The view of any lines is classified. */
  lemma ViewClassified(lines: seq<string>)
    ensures Classified(View(lines))
  {
    var ls := View(lines);
    forall k | 0 <= k < |ls|
      ensures (ls[k].kind.BlankLine? <==> ls[k].trimmed == "") && (ls[k].kind.TableStart? ==> k + 1 < |ls|)
    {
      ViewAt(lines, k);
    }
    forall k | 0 < k < |ls| && ls[k - 1].kind.TableStart?
      ensures '|' in ls[k].trimmed
    {
      ViewAt(lines, k - 1);
      ViewAt(lines, k);
    }
  }

  /** A line the table body loop accepts: not blank and holding a pipe. */
  predicate IsRowLine(l: Line)
  {
    HasCells(l.trimmed)
  }

  /** A trimmed line that continues a table: not blank and holding a pipe. */
  predicate HasCells(t: string)
  {
    t != "" && '|' in t
  }

  /** Where the body rows that start at line `j` end: at the first blank or pipe-less line. */
  function RowsEnd(ls: seq<Line>, j: nat): (e: nat)
    decreases |ls| - j
    ensures j <= e
    ensures j <= |ls| ==> e <= |ls|
    ensures forall k :: j <= k < e ==> k < |ls| && IsRowLine(ls[k])
    ensures e < |ls| ==> !IsRowLine(ls[e])
  {
    if j < |ls| && IsRowLine(ls[j]) then RowsEnd(ls, j + 1) else j
  }

  /** The body rows that start at line `j`: one row of cells per row line. */
  function RowsFrom(ls: seq<Line>, j: nat): (r: seq<seq<Inline>>)
    decreases |ls| - j
    ensures |r| == RowsEnd(ls, j) - j
  {
    if j < |ls| && IsRowLine(ls[j]) then [SplitTableRow(ls[j].trimmed)] + RowsFrom(ls, j + 1)
    else []
  }

  /** The two kinds of list. */
  datatype ListKind = Bullets | Numbers

  /** Line `i` is an item of a `kind` list. */
  predicate IsItem(ls: seq<Line>, i: nat, kind: ListKind)
    requires i < |ls|
  {
    match kind
    case Bullets => ls[i].kind.BulletItem?
    case Numbers => ls[i].kind.NumberedItem?
  }

  /** The text of an item line. */
  function ItemText(k: LineKind): string
    requires k.BulletItem? || k.NumberedItem?
  {
    match k
    case BulletItem(x) => x
    case NumberedItem(x) => x
  }

  /** Where the run of `kind` items that starts at line `i` ends. */
  function ItemsEnd(ls: seq<Line>, i: nat, kind: ListKind): (e: nat)
    requires i <= |ls|
    decreases |ls| - i
    ensures i <= e <= |ls|
  {
    if i < |ls| && IsItem(ls, i, kind) then ItemsEnd(ls, i + 1, kind) else i
  }

  /** The items of the run of `kind` items that starts at line `i`. */
  function ItemsFrom(ls: seq<Line>, i: nat, kind: ListKind): (r: seq<Inline>)
    requires i <= |ls|
    decreases |ls| - i
    ensures |r| == ItemsEnd(ls, i, kind) - i
  {
    if i < |ls| && IsItem(ls, i, kind) then [Spans(ItemText(ls[i].kind))] + ItemsFrom(ls, i + 1, kind)
    else []
  }

  /** The blocks of the lines from `i` on. A list takes the whole run of items of its kind; a table
      takes its header, its separator and the row lines after them, and the line that ends the rows
      is classified afresh. */
  function BlocksFrom(ls: seq<Line>, i: nat): seq<Block>
    decreases |ls| - i
  {
    if i >= |ls| then []
    else match ls[i].kind
      case BlankLine => [Spacer] + BlocksFrom(ls, i + 1)
      case TableStart =>
        [Table(SplitTableRow(ls[i].trimmed), RowsFrom(ls, i + 2))] + BlocksFrom(ls, RowsEnd(ls, i + 2))
      case HeadingLine(n, x) => [Heading(n, Spans(x))] + BlocksFrom(ls, i + 1)
      case BulletItem(_) =>
        [UList(ItemsFrom(ls, i, Bullets))] + BlocksFrom(ls, ItemsEnd(ls, i, Bullets))
      case NumberedItem(_) =>
        [OList(ItemsFrom(ls, i, Numbers))] + BlocksFrom(ls, ItemsEnd(ls, i, Numbers))
      case ParagraphLine(t) => [Paragraph(Spans(t))] + BlocksFrom(ls, i + 1)
  }

  /** `escapeHtml(markdown).split(/\r?\n/)`. */
  function MarkdownLines(markdown: string): (lines: seq<string>)
    ensures |lines| >= 1
    ensures forall k :: 0 <= k < |lines| ==> InertText(lines[k])
  {
    var escaped := EscapeHtml(markdown);
    SplitLinesInert(escaped);
    SplitLines(escaped)
  }

  /** The pieces of an inert string are inert. */
  lemma {:induction false} SplitPiecesInert(s: string, sep: char)
    requires InertText(s)
    ensures forall k :: 0 <= k < |Split(s, sep)| ==> InertText(Split(s, sep)[k])
  {
    if |s| > 0 {
      SplitPiecesInert(s[1..], sep);
    }
  }

  /** The lines of an inert string are inert. */
  lemma SplitLinesInert(s: string)
    requires InertText(s)
    ensures forall k :: 0 <= k < |SplitLines(s)| ==> InertText(SplitLines(s)[k])
  {
    SplitPiecesInert(s, '\n');
    var pieces := Split(s, '\n');
    forall k | 0 <= k < |SplitLines(s)| ensures InertText(SplitLines(s)[k]) {
      var line := SplitLines(s)[k];
      assert line == pieces[k] || pieces[k] == line + "\r";
      if line != pieces[k] {
        assert forall i :: 0 <= i < |line| ==> line[i] == pieces[k][i];
      }
    }
  }

  /** The blocks of a whole document. */
  function MarkdownBlocks(markdown: string): seq<Block>
  {
    BlocksFrom(View(MarkdownLines(markdown)), 0)
  }
}
