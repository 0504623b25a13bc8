/** The note-detail page (SubjectDetail.tsx): `renderNoteMarkdown`, the shared renderer with the
    page's classes and its empty-output placeholder, and the `filteredNotes` search. */
module NoteView {

  import opened Strings
  import opened Escaping
  import opened Sequences
  import opened Blocks
  import opened BlockFacts
  import opened Html
  import opened Renderer
  import opened Search
  import opened Api

  /** The class attributes of the note page. */
  const NoteTheme := Theme(
    tableWrap := "my-3 overflow-x-auto rounded-lg border border-border/60",
    table := "w-full border-collapse text-left text-sm",
    headRow := "bg-muted/40 border-b border-border/60",
    headCell := "px-3 py-2 font-semibold",
    bodyCell := "px-3 py-2 align-top",
    h1 := "mb-2 mt-4 text-xl font-bold",
    h2 := "mb-2 mt-4 text-lg font-semibold",
    h3 := "mb-2 mt-4 text-base font-semibold",
    ul := "my-2 list-disc pl-5",
    ol := "my-2 list-decimal pl-5",
    paragraph := "mb-3 leading-relaxed")

  /** What the page shows when the rendering is empty. */
  const NoContent := "<p class=\"text-muted-foreground\">No content available.</p>"

  /** `renderNoteMarkdown(markdown)`: the markup of the document's blocks, or the placeholder
      when that markup is empty. Since every document has at least one block — the empty text is
      one blank line — the placeholder is never chosen and the result is the blocks' markup. */
  method RenderNoteMarkdown(markdown: string) returns (html: string)
    ensures html == BlocksHtml(NoteTheme, MarkdownBlocks(markdown))
    ensures html != ""
  {
    var body := RenderMarkdown(NoteTheme, markdown);
    html := if body != "" then body else NoContent;
    MarkdownHtmlNonEmpty(NoteTheme, markdown);
  }

  /** An empty note is one blank line: it renders as a single spacer, not as the placeholder. */
  lemma EmptyNoteIsOneSpacer()
    ensures MarkdownBlocks("") == [Spacer]
    ensures BlocksHtml(NoteTheme, MarkdownBlocks("")) == SpacerHtml
  {
    assert EscapeHtml("") == "";
    assert Split("", '\n') == [""];
    var lines := MarkdownLines("");
    assert lines == [""];
    TrimOf("", "", "");
    ViewAt(lines, 0);
    var ls := View(lines);
    assert ls[0].kind == BlankLine;
    assert BlocksFrom(ls, 0) == [Spacer] + BlocksFrom(ls, 1);
    assert BlocksHtml(NoteTheme, [Spacer]) == BlocksHtml(NoteTheme, []) + SpacerHtml;
  }

  /** A note matches a query when its title or its description does. */
  predicate NoteMatches(query: string, n: Note)
  {
    Matches(n.title, query) || Matches(n.description, query)
  }

  /** `filteredNotes`: every note for a blank search; otherwise the notes whose title or
      description includes the query, in their order, each as often as it occurs. */
  function FilteredNotes(notes: seq<Note>, search: string): (r: seq<Note>)
    ensures AllSpace(search) ==> r == notes
    ensures IsSubsequence(r, notes)
    ensures !AllSpace(search) ==> forall k :: 0 <= k < |r| ==> NoteMatches(Query(search), r[k])
    ensures forall k :: 0 <= k < |notes| && NoteMatches(Query(search), notes[k]) ==> notes[k] in r
    ensures !AllSpace(search) ==>
      forall x :: multiset(r)[x] == if NoteMatches(Query(search), x) then multiset(notes)[x] else 0
  {
    var query := Query(search);
    if query == "" then
      assert forall k :: 0 <= k < |notes| ==> notes[k] in notes;
      SubsequenceOfItself(notes);
      notes
    else
      FilterCounts(notes, n => NoteMatches(query, n));
      Filter(notes, n => NoteMatches(query, n))
  }

  /** A note with an empty description is found by its title alone. */
  lemma {:induction false} EmptyDescriptionByTitle(notes: seq<Note>, search: string)
    requires !AllSpace(search)
    requires forall k :: 0 <= k < |notes| ==> notes[k].description == ""
    ensures FilteredNotes(notes, search) == Filter(notes, (n: Note) => Matches(n.title, Query(search)))
  {
    var q := Query(search);
    FilterSameOn(notes, n => NoteMatches(q, n), (n: Note) => Matches(n.title, q));
  }

  /** Two tests that agree on every element select the same elements. */
  lemma {:induction false} FilterSameOn(s: seq<Note>, p: Note -> bool, p': Note -> bool)
    requires forall k :: 0 <= k < |s| ==> p(s[k]) == p'(s[k])
    ensures Filter(s, p) == Filter(s, p')
  {
    if |s| > 0 {
      FilterSameOn(s[1..], p, p');
    }
  }
}
