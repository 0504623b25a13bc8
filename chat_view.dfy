/** The chat widget (ChatWidget.tsx): `renderAssistantMarkdown`, the shared renderer with the
    widget's classes and no placeholder, and the update that refreshes the starter message. */
module ChatView {

  import opened Wrappers
  import opened Strings
  import opened Blocks
  import opened Html
  import opened Renderer

  /** The class attributes of the chat widget. */
  const ChatTheme := Theme(
    tableWrap := "my-2 overflow-x-auto",
    table := "w-full border-collapse text-left text-xs",
    headRow := "border-b border-border/60",
    headCell := "px-2 py-1 font-semibold",
    bodyCell := "px-2 py-1 align-top",
    h1 := "mt-3 mb-1 text-lg font-bold",
    h2 := "mt-3 mb-1 text-base font-semibold",
    h3 := "mt-3 mb-1 text-sm font-semibold",
    ul := "my-1 list-disc pl-5",
    ol := "my-1 list-decimal pl-5",
    paragraph := "mb-2 leading-relaxed")

  /** `renderAssistantMarkdown(markdown)`: exactly the markup of the document's blocks — the same
      blocks the note page renders, with the widget's classes. */
  method RenderAssistantMarkdown(markdown: string) returns (html: string)
    ensures html == BlocksHtml(ChatTheme, MarkdownBlocks(markdown))
  {
    html := RenderMarkdown(ChatTheme, markdown);
  }

  /** The author of a chat message. */
  datatype Role = User | Assistant

  /** One message of the conversation. */
  datatype ChatMessage = ChatMessage(id: int, role: Role, text: string)

  /** The part of the greeting that follows the user's name. */
  const Introduction := "I am Smart Notes Assistant. Ask me to generate study notes on any topic."

  /** `starterMessage`: the greeting, addressed to the signed-in user by name. */
  function StarterMessage(userName: Option<string>): (r: string)
    ensures userName.Some? ==> StartsWith(r, "Hi " + userName.value + ", ")
    ensures userName.None? ==> r == "Hi, " + Introduction
    ensures userName.Some? ==> |r| == |"Hi " + userName.value + ", "| + |Introduction|
    ensures |r| >= |Introduction| && r[|r| - |Introduction|..] == Introduction
  {
    if userName.Some? then "Hi " + userName.value + ", " + Introduction else "Hi, " + Introduction
  }

  /** The conversation as the widget starts it: the starter message alone, with id 1. */
  function Starter(text: string): seq<ChatMessage>
  {
    [ChatMessage(1, Assistant, text)]
  }

  /** Whether the conversation is still the starter message alone. */
  predicate OnlyStarter(prev: seq<ChatMessage>)
  {
    |prev| == 1 && prev[0].id == 1
  }

  /** The `setMessages` update run when the starter message changes: a conversation that is
      still the starter message alone gets the new starter; any other one is kept as it is. */
  function RefreshStarter(prev: seq<ChatMessage>, starter: string): (r: seq<ChatMessage>)
    ensures OnlyStarter(prev) ==> r == Starter(starter)
    ensures !OnlyStarter(prev) ==> r == prev
    ensures OnlyStarter(r) <==> OnlyStarter(prev)
  {
    if OnlyStarter(prev) then Starter(starter) else prev
  }

  /** Running the update twice with the same starter is running it once. */
  lemma RefreshIdempotent(prev: seq<ChatMessage>, starter: string)
    ensures RefreshStarter(RefreshStarter(prev, starter), starter) == RefreshStarter(prev, starter)
  {
  }

  /** Of two refreshes in a row, the later starter is the one that stays. */
  lemma RefreshLatestWins(prev: seq<ChatMessage>, s1: string, s2: string)
    ensures RefreshStarter(RefreshStarter(prev, s1), s2) == RefreshStarter(prev, s2)
  {
  }

  /** Once the user has written, the conversation is never reset: a message appended to the
      history leaves it untouched by any refresh. */
  lemma RefreshKeepsConversation(prev: seq<ChatMessage>, m: ChatMessage, starter: string)
    requires |prev| >= 1
    ensures RefreshStarter(prev + [m], starter) == prev + [m]
  {
  }
}
