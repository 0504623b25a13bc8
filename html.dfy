/** The markup the renderer appends (SubjectDetail.tsx and ChatWidget.tsx). The two copies of the
    renderer differ only in their class attributes, which a `Theme` carries. */
module Html {

  import opened Emphasis
  import opened Blocks

  /** The class attributes of one call site. */
  datatype Theme = Theme(
    tableWrap: string, table: string, headRow: string, headCell: string, bodyCell: string,
    h1: string, h2: string, h3: string, ul: string, ol: string, paragraph: string)

  /** `<tag class="cls">`. */
  function OpenTag(tag: string, cls: string): string
  {
    "<" + tag + " class=\"" + cls + "\">"
  }

  /** `</tag>`. */
  function CloseTag(tag: string): string
  {
    "</" + tag + ">"
  }

  /** `<tag class="cls">inner</tag>`. */
  function Element(tag: string, cls: string, inner: string): string
  {
    OpenTag(tag, cls) + inner + CloseTag(tag)
  }

  /** The markup of a blank line. */
  const SpacerHtml := "<div class=\"h-2\"></div>"
  const ItemClass := "mb-1"
  const BodyRowClass := "border-b border-border/40"

  /** One table cell or list item: the element around the cell's inline HTML. */
  function CellHtml(tag: string, cls: string, cell: Inline): string
  {
    Element(tag, cls, InlineHtml(cell))
  }

  /** One element per cell, in order. */
  function CellsHtml(tag: string, cls: string, cells: seq<Inline>): string
  {
    if |cells| == 0 then "" else CellsHtml(tag, cls, cells[..|cells| - 1]) + CellHtml(tag, cls, cells[|cells| - 1])
  }

  /** One body row of a table. */
  function RowHtml(theme: Theme, row: seq<Inline>): string
  {
    Element("tr", BodyRowClass, CellsHtml("td", theme.bodyCell, row))
  }

  /** The body rows of a table. */
  function RowsHtml(theme: Theme, rows: seq<seq<Inline>>): string
  {
    if |rows| == 0 then "" else RowsHtml(theme, rows[..|rows| - 1]) + RowHtml(theme, rows[|rows| - 1])
  }

  function HeadingTag(level: nat): string
  {
    if level == 3 then "h3" else if level == 2 then "h2" else "h1"
  }

  function HeadingClass(theme: Theme, level: nat): string
  {
    if level == 3 then theme.h3 else if level == 2 then theme.h2 else theme.h1
  }

  /** The opening markup of a table, up to its first header cell. */
  function TableHead(theme: Theme): string
  {
    OpenTag("div", theme.tableWrap) + OpenTag("table", theme.table) + "<thead>" + OpenTag("tr", theme.headRow)
  }

  /** The markup between the header cells and the body rows. */
  const HeadEnd := "</tr></thead><tbody>"

  /** The closing markup of a table. */
  const TableEnd := "</tbody></table></div>"

  /** The markup of one block. */
  function BlockHtml(theme: Theme, b: Block): string
  {
    match b
    case Spacer => SpacerHtml
    case Heading(n, x) => Element(HeadingTag(n), HeadingClass(theme, n), InlineHtml(x))
    case UList(items) => Element("ul", theme.ul, CellsHtml("li", ItemClass, items))
    case OList(items) => Element("ol", theme.ol, CellsHtml("li", ItemClass, items))
    case Table(headers, rows) =>
      TableHead(theme) + CellsHtml("th", theme.headCell, headers) + HeadEnd + RowsHtml(theme, rows) + TableEnd
    case Paragraph(x) => Element("p", theme.paragraph, InlineHtml(x))
  }

  /** A heading's and a paragraph's markup hold the inline markup of their text. */
  lemma TextBlockHtml(theme: Theme, level: nat, text: string)
    ensures BlockHtml(theme, Heading(level, Spans(text)))
         == Element(HeadingTag(level), HeadingClass(theme, level), InlineMarkdown(text))
    ensures BlockHtml(theme, Paragraph(Spans(text))) == Element("p", theme.paragraph, InlineMarkdown(text))
  {
  }

  /** The markup of a block sequence: the blocks' markup, in order. */
  function BlocksHtml(theme: Theme, bs: seq<Block>): string
  {
    if |bs| == 0 then "" else BlocksHtml(theme, bs[..|bs| - 1]) + BlockHtml(theme, bs[|bs| - 1])
  }

  lemma BlocksHtmlAppend(theme: Theme, bs: seq<Block>, b: Block)
    ensures BlocksHtml(theme, bs + [b]) == BlocksHtml(theme, bs) + BlockHtml(theme, b)
  {
    assert (bs + [b])[..|bs|] == bs;
  }

  lemma CellsHtmlAppend(tag: string, cls: string, cells: seq<Inline>, x: Inline)
    ensures CellsHtml(tag, cls, cells + [x]) == CellsHtml(tag, cls, cells) + CellHtml(tag, cls, x)
  {
    assert (cells + [x])[..|cells|] == cells;
  }

  /** The tag, the class and the block of a list of either kind. */
  function ListTag(kind: ListKind): string
  {
    if kind == Bullets then "ul" else "ol"
  }

  /** The kind of list an item of `kind` closes. */
  function Other(kind: ListKind): ListKind
  {
    if kind == Bullets then Numbers else Bullets
  }

  function ListClass(theme: Theme, kind: ListKind): string
  {
    if kind == Bullets then theme.ul else theme.ol
  }

  function ListBlock(kind: ListKind, items: seq<Inline>): Block
  {
    if kind == Bullets then UList(items) else OList(items)
  }

  /** The markup `closeLists()` appends. */
  function Closing(inUl: bool, inOl: bool): string
  {
    (if inUl then CloseTag("ul") else "") + (if inOl then CloseTag("ol") else "")
  }
}
