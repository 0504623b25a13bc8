# SmartNotes frontend: the Markdown renderer and its pure helpers, in Dafny

The SmartNotes web frontend renders the Markdown of a note (the note-detail page) and of an
assistant's chat answer (the chat widget) with two copies of one line-oriented renderer. The
renderer does the following:

- escapes the whole text once;
- splits it into lines at `\n` or `\r\n`;
- classifies each trimmed line, in a fixed order: blank, table start, `###`/`##`/`#`
  heading, `-`/`*` item, `N.` item, then paragraph;
- keeps two flags for the open bulleted or numbered list;
- for a table, consumes the header, the separator and the following pipe-holding lines, then
  rewinds its cursor by one.

Each text it emits passes through the `**bold**` rewriting.

This project models that renderer once and shares it between the two call sites:

- `Blocks.MarkdownBlocks` is the block structure of a document. It is the specification.
- `Renderer.RenderMarkdown` is the source's loop written imperatively. It keeps the list flags,
  the appended markup, the table row loop and the cursor rewind. It is proved to produce
  exactly the markup of `MarkdownBlocks`.
- `NoteView.RenderNoteMarkdown` and `ChatView.RenderAssistantMarkdown` are the two call sites.
  They differ only in their class attributes (a `Theme`) and in the note page's placeholder.

Alongside the renderer the project models these small pure helpers:

- the case-insensitive subject and note searches;
- the avatar initials;
- the profile form check and error message;
- the API client's pure parts: the headers, the response-status decision, and the note
  conversion and filtering.

Modelling choices:

- Characters are Dafny `char`s. `trim` and `\s` use the ECMAScript whitespace and
  line-terminator set. The regex `.` excludes the four line terminators.
- Case mapping is ASCII only.
- Each regex the renderer uses is a hand-written matcher with the regex engine's
  backtracking behaviour.
- The bold rewriting produces spans (`Plain` characters and `Strong` contents). Their markup
  is the string `inlineMarkdown` returns.

Two behaviours of the code are easy to miss:

- Empty input: the note page's "No content available." placeholder can never appear. The
  empty text splits into one blank line, which renders as one spacer (`EmptyNoteIsOneSpacer`,
  `MarkdownHtmlNonEmpty`).
- Bold content: the lazy pattern `\*\*(.+?)\*\*` can capture content that itself holds `**`.
  In `****a**` the content is `**a`. `WellFormedStrong` states exactly which contents can be
  captured.

## Model

| member | source | states |
|---|---|---|
| `Escaping.EscapeHtml` | frontend-partner-main/src/pages/SubjectDetail.tsx:32-39 | the five global replacements, `&` first, leave no `<`, `>`, `"` or `'` in the result |
| `Escaping.EscapeIsPerCharacter` | frontend-partner-main/src/pages/SubjectDetail.tsx:32-39 | because `&` is replaced first, the five passes equal escaping each character on its own, so no reference is escaped twice |
| `Escaping.EscapeAmpersand` | frontend-partner-main/src/pages/SubjectDetail.tsx:34 | a lone `&` becomes exactly `&amp;` |
| `Escaping.UnescapeEscape` | frontend-partner-main/src/components/ChatWidget.tsx:16-23 | decoding the five references gives the raw text back, so escaping loses nothing |
| `Emphasis.MatchAtStart` | frontend-partner-main/src/pages/SubjectDetail.tsx:42 | a match at the start of the text opens with `**`, has non-empty content free of line terminators, and closes at the first `**` after at least one content character |
| `Emphasis.Spans` | frontend-partner-main/src/pages/SubjectDetail.tsx:41-43 | every bold span of the left-to-right, non-overlapping rewriting has content the lazy pattern can capture, and inert text gives inert spans |
| `Emphasis.SpansRoundTrip` | frontend-partner-main/src/components/ChatWidget.tsx:25-27 | turning every `<strong>X</strong>` back into `**X**` recovers the text exactly, so bold tags come in pairs and nothing is lost or invented |
| `Emphasis.NoMarkerUnchanged` | frontend-partner-main/src/pages/SubjectDetail.tsx:41-43 | text with no `**` is returned unchanged |
| `Emphasis.NoMatchUnchanged` | frontend-partner-main/src/pages/SubjectDetail.tsx:41-43 | text where the pattern matches at no position is returned unchanged, whatever `**` it holds |
| `Emphasis.UnclosedStaysLiteral` | frontend-partner-main/src/pages/SubjectDetail.tsx:42 | a single `**` anywhere in the text (`a **b`, `x ** y`), with no other `**` and no `*` next to it, is never closed and stays literal |
| `Emphasis.LeadingStrong` | frontend-partner-main/src/components/ChatWidget.tsx:26 | `**X**` at the start of the text, with X a capturable content, becomes one bold span and the rest is rewritten on its own |
| `Emphasis.CloseFromAt` | frontend-partner-main/src/pages/SubjectDetail.tsx:42 | the lazy `.+?` stops at the first closing `**` reachable without crossing a line terminator |
| `Strings.Trim` | frontend-partner-main/src/pages/SubjectDetail.tsx:84 | `trim` gives the piece of the line without leading or trailing whitespace; it is empty exactly for a whitespace-only line |
| `Strings.TrimOf` | frontend-partner-main/src/pages/SubjectDetail.tsx:84 | whitespace, then text with non-space ends, then whitespace, trims to that text |
| `Strings.Split` | frontend-partner-main/src/pages/SubjectDetail.tsx:50 | `split` on one character gives at least one piece and no piece holds the separator |
| `Strings.JoinSplit` | frontend-partner-main/src/pages/SubjectDetail.tsx:50 | joining the pieces with the separator gives the string back |
| `Strings.SplitLength` | frontend-partner-main/src/pages/SubjectDetail.tsx:59 | there is one more piece than there are separators |
| `Strings.SplitLines` | frontend-partner-main/src/pages/SubjectDetail.tsx:66 | `split(/\r?\n/)` gives the pieces between line feeds, each without the `\r` before its line feed |
| `Strings.SplitLinesTrimmed` | frontend-partner-main/src/components/ChatWidget.tsx:50 | `\n` and `\r\n` line ends give the same trimmed lines |
| `Tables.Cells` | frontend-partner-main/src/pages/SubjectDetail.tsx:55-60 | after trimming and stripping one outer pipe on each side, a line has one cell more than inner pipes; each cell is trimmed and pipe-free |
| `Tables.SplitTableRow` | frontend-partner-main/src/pages/SubjectDetail.tsx:45-52 | a row has exactly as many cells as its own line, neither padded nor cut, and each cell's bold markup reads back to the trimmed cell text |
| `Tables.SeparatorCellOf` | frontend-partner-main/src/pages/SubjectDetail.tsx:62 | every cell of the form `:?-{3,}:?` is accepted |
| `Tables.SeparatorCellShape` | frontend-partner-main/src/pages/SubjectDetail.tsx:62 | every accepted cell has at least three characters, all hyphens except a colon at either end |
| `Tables.LonePipeIsNoSeparator` | frontend-partner-main/src/pages/SubjectDetail.tsx:54-63 | the line `\|` leaves one empty cell and is not a separator line |
| `Tables.ShortOrWordIsNoSeparatorCell` | frontend-partner-main/src/pages/SubjectDetail.tsx:62 | `abc`, `--` and `:--:` are not separator cells |
| `Tables.TypicalSeparatorLine` | frontend-partner-main/src/components/ChatWidget.tsx:38-47 | `\|---\|:---:\|` is a separator line |
| `LinePatterns.CaptureAfter` | frontend-partner-main/src/pages/SubjectDetail.tsx:123-127 | the capture of `\s+(.+)` is non-empty, free of line terminators, and exists only when whitespace follows the marker |
| `LinePatterns.HeadingMatch` | frontend-partner-main/src/pages/SubjectDetail.tsx:123-125 | a heading match of level n needs n hashes followed by whitespace |
| `LinePatterns.BulletMatch` | frontend-partner-main/src/pages/SubjectDetail.tsx:126 | a bullet match needs `-` or `*` followed by whitespace |
| `LinePatterns.NumberedMatch` | frontend-partner-main/src/pages/SubjectDetail.tsx:127 | a numbered match needs digits, a dot and whitespace |
| `LinePatterns.PatternsExclusive` | frontend-partner-main/src/pages/SubjectDetail.tsx:129-167 | no line matches two of the heading and item patterns, so `###` is never taken for `#` |
| `LinePatterns.HeadingText` | frontend-partner-main/src/pages/SubjectDetail.tsx:123-143 | hashes, whitespace and text form a heading of that many hashes whose text is what follows the whitespace, and no other level matches |
| `LinePatterns.BoldStartIsNoItem` | frontend-partner-main/src/components/ChatWidget.tsx:111-112 | a line starting with `**` (such as `**bold** text`) is neither a bullet nor a numbered item |
| `LinePatterns.MatchChars` | frontend-partner-main/src/pages/SubjectDetail.tsx:123-127 | every capture is made of characters of the line |
| `Blocks.KindOf` | frontend-partner-main/src/pages/SubjectDetail.tsx:84-92 | the trimmed line is blank exactly when it is empty, and starts a table exactly when it is not empty, it and the next trimmed line hold a pipe, and the next one is a separator line |
| `Blocks.Classify` | frontend-partner-main/src/pages/SubjectDetail.tsx:84-127 | a line is blank exactly when its trimmed form is empty; a table start has a next line, and both lines hold a pipe |
| `Blocks.ViewClassified` | frontend-partner-main/src/pages/SubjectDetail.tsx:82-92 | in the lines as the loop sees them, a line is blank exactly when its trimmed text is empty, and a table start is never the last line and is followed by a line holding a pipe |
| `Blocks.RowsEnd` | frontend-partner-main/src/pages/SubjectDetail.tsx:97-102 | the body is the maximal run of non-blank, pipe-holding lines |
| `Blocks.RowsFrom` | frontend-partner-main/src/pages/SubjectDetail.tsx:96-103 | one row per line of that run |
| `Blocks.MarkdownLines` | frontend-partner-main/src/pages/SubjectDetail.tsx:66 | escaping the whole text once, then splitting it, gives at least one line, and every line is inert |
| `Renderer.CloseLists` | frontend-partner-main/src/pages/SubjectDetail.tsx:71-80 | `closeLists` appends the closing tag of the open list and leaves none open |
| `Renderer.AppendCells` | frontend-partner-main/src/pages/SubjectDetail.tsx:108-116 | the `forEach` appends one cell element per cell, in order |
| `Renderer.AppendTable` | frontend-partner-main/src/pages/SubjectDetail.tsx:105-119 | the table branch appends exactly the markup of the table block |
| `Renderer.CollectRows` | frontend-partner-main/src/pages/SubjectDetail.tsx:96-102 | the row loop collects the rows of the maximal run and stops at the line that ends it |
| `Renderer.RenderBlank` | frontend-partner-main/src/pages/SubjectDetail.tsx:85-89 | a blank line closes the open list and appends one spacer |
| `Renderer.RenderTable` | frontend-partner-main/src/pages/SubjectDetail.tsx:91-121 | the table branch closes the open list, appends the table, and moves the cursor forward by at least 2 in net, to the line that ends the rows |
| `Renderer.RenderHeading` | frontend-partner-main/src/pages/SubjectDetail.tsx:129-143 | a heading closes the open list and appends the heading of its level with its bold-rewritten text |
| `Renderer.RenderBullet` | frontend-partner-main/src/pages/SubjectDetail.tsx:144-155 | a bullet item closes an open numbered list, opens a bulleted list unless one is open, and appends the item; afterwards only the bulleted list is open |
| `Renderer.RenderNumbered` | frontend-partner-main/src/pages/SubjectDetail.tsx:156-167 | a numbered item closes an open bulleted list, opens a numbered list unless one is open, and appends the item; afterwards only the numbered list is open |
| `Renderer.RenderParagraph` | frontend-partner-main/src/pages/SubjectDetail.tsx:169-170 | any other line closes the open list and appends a paragraph of the whole trimmed line |
| `Renderer.RenderLine` | frontend-partner-main/src/pages/SubjectDetail.tsx:82-171 | one turn of the loop moves the cursor strictly forward and keeps the loop invariant: at most one list open, and the markup so far is that of the blocks done plus the open list |
| `Renderer.RenderMarkdown` | frontend-partner-main/src/components/ChatWidget.tsx:49-160 | the whole loop terminates, and with the final `closeLists` it produces exactly the markup of the document's blocks, so every list opened is closed exactly once |
| `NoteView.RenderNoteMarkdown` | frontend-partner-main/src/pages/SubjectDetail.tsx:65-175 | the note page's output is the markup of the document's blocks with the page's classes; it is never empty, so the placeholder is never used |
| `NoteView.EmptyNoteIsOneSpacer` | frontend-partner-main/src/pages/SubjectDetail.tsx:66 | the empty note is one blank line and renders as one spacer |
| `ChatView.RenderAssistantMarkdown` | frontend-partner-main/src/components/ChatWidget.tsx:158-159 | the chat output is exactly the markup of the same blocks the note page renders, with the widget's classes and no placeholder |
| `BlockFacts.ItemsEndMaximal` | frontend-partner-main/src/pages/SubjectDetail.tsx:144-167 | a list takes the whole run of consecutive items of its kind and stops at the first line that is not one |
| `BlockFacts.SpacersAreBlankLines` | frontend-partner-main/src/pages/SubjectDetail.tsx:85-89 | the document has exactly one spacer per whitespace-only line; blank lines are not merged, nor taken by a list or a table |
| `BlockFacts.DocumentSpacers` | frontend-partner-main/src/pages/SubjectDetail.tsx:85-89 | a whole document has exactly as many spacers as whitespace-only lines |
| `BlockFacts.ListsNeverAdjacent` | frontend-partner-main/src/pages/SubjectDetail.tsx:144-167 | two lists of the same kind never follow each other, so consecutive same-kind items share one list |
| `BlockFacts.DocumentListsNeverAdjacent` | frontend-partner-main/src/components/ChatWidget.tsx:129-152 | the blocks of a whole document never hold two lists of one kind in a row |
| `BlockFacts.MarkdownHtmlNonEmpty` | frontend-partner-main/src/pages/SubjectDetail.tsx:173-174 | every document has at least one block and non-empty markup |
| `BlockFacts.BlocksFromCons` | frontend-partner-main/src/pages/SubjectDetail.tsx:82-171 | the blocks from a line are the block that line starts, followed by the blocks of the lines after those it takes |
| `BlockFacts.TableStartIff` | frontend-partner-main/src/pages/SubjectDetail.tsx:91-92 | a table starts exactly when the line and the next line hold a pipe and the next is a separator line; this test comes before the heading and item tests |
| `BlockFacts.KindSwitchClosesList` | frontend-partner-main/src/components/ChatWidget.tsx:129-152 | lines classified as two bullet items then a numbered item give a bulleted list of two items followed by a numbered list of one |
| `Documents.ThreeLines` | frontend-partner-main/src/pages/SubjectDetail.tsx:66 | a text of three plain lines joined by line feeds is split back into exactly those three lines |
| `Documents.ListSwitchDocument` | frontend-partner-main/src/components/ChatWidget.tsx:129-152 | the text `- x`, `- y`, `1. z` (three lines) renders as a bulleted list of `x` and `y` followed by a numbered list of `z` |
| `Documents.HeadingDocument` | frontend-partner-main/src/pages/SubjectDetail.tsx:123-143 | a document made of one `#`, `##` or `###` line is exactly one heading of that level with the text after the space, pipes in the title included |
| `Safety.KindOfInert` | frontend-partner-main/src/pages/SubjectDetail.tsx:123-170 | every heading, item or paragraph text the classification takes from an inert line is inert |
| `Safety.MarkdownBlocksInert` | frontend-partner-main/src/components/ChatWidget.tsx:50 | every text of every block holds none of `<`, `>`, `"`, `'`, bold contents included, so no input character can become active markup |
| `NoteView.FilteredNotes` | frontend-partner-main/src/pages/SubjectDetail.tsx:271-279 | a blank search keeps all notes; otherwise the result keeps the notes' order and holds exactly the notes whose lower-cased title or description includes the trimmed, lower-cased query, each as many times as it occurs in the input |
| `NoteView.EmptyDescriptionByTitle` | frontend-partner-main/src/pages/SubjectDetail.tsx:276-277 | notes with an empty description are found by their title alone |
| `ChatView.StarterMessage` | frontend-partner-main/src/components/ChatWidget.tsx:168-170 | the greeting is `Hi <name>, ` directly followed by the assistant's introduction when there is a user, and `Hi, ` followed by the introduction when there is none |
| `ChatView.RefreshStarter` | frontend-partner-main/src/components/ChatWidget.tsx:176-181 | a history that is exactly one message with id 1 is replaced by the new starter; any other history is returned unchanged |
| `ChatView.RefreshIdempotent` | frontend-partner-main/src/components/ChatWidget.tsx:176-181 | running the update twice is running it once |
| `ChatView.RefreshLatestWins` | frontend-partner-main/src/components/ChatWidget.tsx:175-182 | after two updates in a row the later starter stays |
| `ChatView.RefreshKeepsConversation` | frontend-partner-main/src/components/ChatWidget.tsx:177-180 | once a message has been appended to the history, no update resets it |
| `Search.Query` | frontend-partner-main/src/pages/Dashboard.tsx:116 | the query is empty exactly for a blank search and holds no upper-case letter |
| `Search.QueryIdempotent` | frontend-partner-main/src/pages/Dashboard.tsx:116 | a query turned into a query again is unchanged |
| `Search.MatchesIff` | frontend-partner-main/src/pages/Dashboard.tsx:119 | a title matches exactly when the query occurs in it at some position, ignoring the title's case |
| `Dashboard.FilteredSubjects` | frontend-partner-main/src/pages/Dashboard.tsx:115-121 | a blank search returns the subjects unchanged; otherwise the result is an order-preserving subsequence holding exactly the subjects whose lower-cased title includes the query, each as many times as it occurs in the input |
| `Dashboard.FilteredSubjectsIdempotent` | frontend-partner-main/src/pages/Dashboard.tsx:115-121 | searching the result again with the same text changes nothing |
| `Dashboard.FilteredSubjectsByQuery` | frontend-partner-main/src/pages/Dashboard.tsx:116-120 | the search text acts only through its trimmed, lower-cased form |
| `Dashboard.WordStarts` | frontend-partner-main/src/pages/Dashboard.tsx:125-128 | the word starts are upper-case first characters of the words, never spaces |
| `Dashboard.FirstLettersOfSplit` | frontend-partner-main/src/pages/Dashboard.tsx:125-128 | the `split`/`map`/`join` chain gives the upper-cased first character of each space-separated word in order; empty parts add nothing |
| `Dashboard.Take2` | frontend-partner-main/src/pages/Dashboard.tsx:129 | `slice(0, 2)` keeps the first two characters, or the whole string when shorter |
| `Dashboard.Initials` | frontend-partner-main/src/pages/Dashboard.tsx:123-130 | `"U"` without a user; otherwise the first two word starts of the name, so at most two characters |
| `Dashboard.InitialsAreLetters` | frontend-partner-main/src/pages/Dashboard.tsx:125-129 | with a user the initials hold no space and no lower-case letter |
| `Profile.InitialsOfFullName` | frontend-partner-main/src/pages/Profile.tsx:39-46 | the profile's initials of a first and a last name are their two upper-cased first letters |
| `Profile.ErrorMessage` | frontend-partner-main/src/pages/Profile.tsx:14-17 | the message of an `Error` when it is not empty, and "Failed to update profile" otherwise |
| `Profile.ErrorMessageOfResponse` | frontend-partner-main/src/pages/Profile.tsx:62-63 | a failed update shows the response's `detail`, or "Request failed" when there is none |
| `Profile.ProfileSave` | frontend-partner-main/src/pages/Profile.tsx:48-60 | a form whose trimmed name or username is empty is refused with the fixed error and nothing is sent; otherwise the trimmed, non-empty values are sent |
| `Profile.ProfileSaveStable` | frontend-partner-main/src/pages/Profile.tsx:57-60 | saving the values just sent sends them again unchanged |
| `Api.AuthHeaders` | frontend-partner-main/src/lib/api.ts:47-53 | `Content-Type: application/json` always; `Authorization: Bearer <token>` exactly when a non-empty token is stored; no other header |
| `Api.AuthHeadersCarryToken` | frontend-partner-main/src/lib/api.ts:51 | the token read back from the headers is the stored one, unless it is empty |
| `Api.HandleResponse` | frontend-partner-main/src/lib/api.ts:55-62 | a status outside 200-299 fails with the body's non-empty `detail` or "Request failed"; 204 yields null; any other success yields the parsed body, or a parse failure when the body is not JSON |
| `Api.FailureWithoutDetail` | frontend-partner-main/src/lib/api.ts:56-58 | a failure without a usable `detail`, or with a body that is not JSON, fails with "Request failed" |
| `Api.ToUiNote` | frontend-partner-main/src/lib/api.ts:64-71 | id, title and subject are copied; the description is the content, and empty exactly when the content is missing or empty |
| `Api.UiNoteRoundTrip` | frontend-partner-main/src/lib/api.ts:146-157 | a UI note sent as a backend note and converted back is unchanged |
| `Api.ListNotes` | frontend-partner-main/src/lib/api.ts:140-144 | every backend note of the requested subject is listed, converted by `toUiNote`, and every listed note is such a converted backend note |
| `Api.ListNotesAppend` | frontend-partner-main/src/lib/api.ts:141-143 | listing a concatenation lists each part, so the backend's order is kept |
| `Api.ListOneNote` | frontend-partner-main/src/lib/api.ts:142 | a single backend note is listed exactly when its subject is the requested one |

## Left out

- React components, JSX, hooks, animation, dialogs, navigation and theming are UI with nothing
  to state beyond the helpers above.
- I/O and timing are not modelled: `fetch` and async sequencing, `localStorage`, `FileReader`,
  the clipboard and `setTimeout`. Instead, the stored token is a parameter of
  `Api.AuthHeaders` and the response is a parameter of `Api.HandleResponse`.
- The Python backend is not part of this model. It is database queries, token and password
  libraries, and a call to a language model.
- Full Unicode `toLowerCase`/`toUpperCase` and UTF-16 code units are not modelled. Case
  mapping is ASCII and strings are sequences of Dafny characters.
- The CSS class strings are carried as data (`Theme`) and are not checked against a style
  sheet.
- `Renderer.RenderMarkdown`: the `closeLists` closure, which mutates captured variables,
  becomes a method that takes and returns the flags and the markup.
- `Renderer.RenderMarkdown`: the table branch's `i += 2`, the row loop and `i -= 1`, followed
  by the loop's `i += 1`, are one step to the line that ends the rows.
- `Api.HandleResponse`: a `detail` that is not a string (FastAPI's validation errors give an
  array) and a JSON `null` error body are not modelled; `detail` is an optional string.
- `Api.ListNotes`: its contract states membership both ways (each listed note is a converted backend
  note of the subject, and each such note is listed). It does not state order or how many times each
  note is listed. `Api.ListNotesAppend` and `Api.ListOneNote` state those.
- `NoteView.RenderNoteMarkdown`: the source's `markdown || ""` guards an `undefined`
  description. The model's description is always a string, so the guard changes nothing.
