/**
 The vocabulary shared by the chat page and the chat route: conversation
 turns, their text parts, and the role names the application uses.
 */
module Turns {

  /** A JSON field that may be absent: None when absent, Some(v) otherwise. */
  datatype Option<+T> = None | Some(value: T)

  const User: string := "user"
  const Assistant: string := "assistant"
  const System: string := "system"

  /**
   One `{ type: 'text', text }` entry of a turn. `text` is None when the
   field is absent from the JSON the route receives; the `type` tag is never
   inspected by either layer and is not kept.
   */
  datatype Part = Part(text: Option<string>)

  /**
   A conversation turn. The `id` is an opaque token (a clock reading in the
   application); nothing depends on it being unique. For the chat route an
   absent `parts` array behaves exactly like an empty one, and is written
   `[]`; the page itself never builds a turn without `parts`.
   */
  datatype Turn = Turn(id: string, role: string, parts: seq<Part>)

  /** A turn carrying exactly one text part. */
  function TextTurn(id: string, role: string, text: Option<string>): Turn
  {
    Turn(id, role, [Part(text)])
  }

  /**
   The text the route extracts from a turn, `m.parts?.[0]?.text`, kept only
   when it is truthy: present and non-empty.
   */
  function FirstText(t: Turn): Option<string>
  {
    if |t.parts| > 0 && t.parts[0].text.Some? && t.parts[0].text.value != "" then
      Some(t.parts[0].text.value)
    else
      None
  }

  predicate HasText(t: Turn)
  {
    FirstText(t).Some?
  }
}
