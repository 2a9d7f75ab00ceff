# Chat normaliser and conversation history, in Dafny

This project models the two layers of a small local-LLM chat application.

- **The chat route** (`POST /api/chat`). It takes the client's list of turns and builds the chat-completion message list sent to a llama.cpp server. A fixed system entry always comes first. Turns whose first part has no text are dropped. A turn that repeats the last accepted role is skipped, unless that role is `system`. The route then chooses the reply text from the server's answer, with fixed texts for the failure cases. This layer is modelled in `normalizer.dfy` (module `Normalizer`) and `route.dfy` (module `ChatRoute`).
- **The chat page**. It keeps the conversation history, a prompt-box text and a `loading` flag. Submitting appends a user turn and posts the history. A readable reply appends an assistant turn. Retry resubmits the last user turn's text. The page also decides which parts get the Retry/Copy actions. This layer is modelled in `history.dfy` (module `History`).

Shared types live in `turns.dfy` (module `Turns`). `conversation.dfy` (module `Conversation`) connects the two layers. It shows what the model receives as a conversation goes on:
- a run of successful exchanges is forwarded in full;
- after a failed exchange, or a reply without text, the next question is dropped by the same-role rule.

Everything is a pure function over immutable datatypes. The normalising loop is also written as a method with a loop, and that method is proved equal to the functional fold. The render walk that places the actions is written as two methods with loops: one over the turns, and one over the parts of each turn.

Modelling choices:
- A part's `text` is `Option<string>`, where `None` means the field is absent. In a turn sent to the route, an absent `parts` array is written as the empty sequence, because the route's `m.parts?.[0]?.text` treats both the same. The page never builds a turn without `parts`.
- Roles are strings, because the route accepts whatever the client sends.
- The route's `lastRole &&` guard (route.ts:33) tests truthiness. So once a turn with the empty role `""` has been accepted, the skip rule is off for the next turn. For that reason the adjacency property is stated as "equal neighbouring roles are `system` or empty". `Normalizer.EmptyRoleRepeats` shows the empty-role case. `Normalizer.StrictAlternationWithoutEmptyRoles` gives the strict form when no turn has an empty role.
- The page's `handleSubmit` is split at its `await`. `History.Submit` is the part before the network call, and `History.Complete` is the part after the reply. `History.Exchange` composes the two.
- The network is a function parameter: `seq<Turn> -> Delivery` for the page, and `CompletionRequest -> Upstream` for the inference server. Clock-derived ids are also parameters.
- When the completion body decodes to JSON `null`, reading `.choices` throws. The top-level catch then answers "Error generating response.". `ChatRoute.ReplyText` models this case.
- The Retry/Copy condition in the page (page.tsx:101) attaches the actions to the last part of every assistant turn, not only the final assistant turn. The model follows the code.

## Model

| member | source | states |
|---|---|---|
| Normalizer.Collapse | app/api/chat/route.ts:28-37 | The loop appends at most one entry per input turn. Its first appended entry never repeats the starting `lastRole` under the skip rule. Neighbouring appended entries share a role only when that role is `system` or empty. |
| Normalizer.Normalize | app/api/chat/route.ts:10-37 | A missing or empty `messages` list means nothing is forwarded. Otherwise the list is non-empty, starts with the fixed system entry `{system, "You are a helpful assistant."}`, is at most one longer than the input, and has no two neighbouring entries with the same role other than `system`/empty. |
| Normalizer.ForwardMessages | app/api/chat/route.ts:20-37 | The single-pass loop with one `lastRole` variable produces the system entry followed by the functional fold's entries. It ends with the same `lastRole`. |
| Normalizer.ForwardsAllIff | app/api/chat/route.ts:28-37 | Every turn is forwarded exactly when each turn has text and none repeats its predecessor's role under the skip rule (both directions). In that case the forwarded entries are the turns' own role/text pairs, in order. |
| Normalizer.AlternatingInputForwardedInFull | app/api/chat/route.ts:28-37 | If every turn has text and no two consecutive turns share a role other than `system`, then every turn is forwarded and the output length is input length + 1. |
| Normalizer.ForwardedTailIsSubsequence | app/api/chat/route.ts:28-37 | Each entry after the system entry comes from a distinct input turn that has text. It carries that turn's role and first text. The source positions strictly increase, so the tail is a subsequence of the input. |
| Normalizer.StrictAlternationWithoutEmptyRoles | app/api/chat/route.ts:26-36 | When no input turn that has text has the empty role, two neighbouring forwarded entries share a role only if it is `system`. Textless turns may carry any role. |
| Normalizer.LastRoleAfter | app/api/chat/route.ts:26-36 | After the loop, `lastRole` is either its starting value or the role of some input turn that has text. |
| Normalizer.TextlessTurnsIgnored | app/api/chat/route.ts:29-30 | A turn whose parts are empty, or whose first text is absent or empty, is never forwarded and does not change `lastRole`. Removing all such turns changes neither the output nor the final `lastRole`. |
| Normalizer.CollapseAppend | app/api/chat/route.ts:26-37 | Normalising `a + b` forwards `a`'s entries, then `b`'s entries starting from the `lastRole` that `a` left. The final `lastRole` composes the same way. |
| Normalizer.LastRoleStep | app/api/chat/route.ts:29-36 | After one more turn, `lastRole` becomes that turn's role if the turn has text, whether it was accepted or skipped as a repeat. Otherwise `lastRole` is unchanged. |
| Normalizer.SkippedWhenRepeatingLastRole | app/api/chat/route.ts:33 | An appended turn whose role equals the final `lastRole` (non-empty, not `system`) leaves the forwarded list unchanged. |
| Normalizer.RepeatedRoleNotForwarded | app/api/chat/route.ts:33 | An appended turn that repeats the non-empty, non-`system` role of the last input turn with text leaves the forwarded list unchanged. |
| Normalizer.ConsecutiveUsersCollapse | app/api/chat/route.ts:33 | For two user turns "A", "B", only `system` and `user:"A"` are forwarded. |
| Normalizer.AlternationForwarded | app/api/chat/route.ts:28-37 | For user/assistant/user turns "A", "B", "C", exactly `system, user:"A", assistant:"B", user:"C"` is forwarded. |
| Normalizer.EmptyRoleRepeats | app/api/chat/route.ts:26-36 | After an accepted turn with the empty role, a second turn with the empty role is forwarded too, because the falsy `lastRole` disables the skip. |
| ChatRoute.Content | app/api/chat/route.ts:64 | The optional chain yields a string exactly when the first choice exists, has a message, and that message has string content. The string is then that content. |
| ChatRoute.ReplyText | app/api/chat/route.ts:55-79 | If the server call throws, the text is "Error generating response.". An unparseable body gives "Error parsing LLM response". A `null` body gives "Error generating response.". Otherwise the text is present exactly when `choices[0].message.content` exists, and then it is that content. |
| ChatRoute.Handle | app/api/chat/route.ts:4-81 | The handler always answers with exactly one assistant turn. An unreadable request gets "Error generating response.". A missing or empty list gets "No messages provided.". Otherwise the text is chosen from the server's answer to `{model: "ai/gemma3", messages: <normalised list>, stream: false}`. |
| ChatRoute.NoMessagesNoOutboundCall | app/api/chat/route.ts:10-16 | With a missing or empty list, the reply is the canned one and is the same for every inference server, so no outbound call matters. |
| ChatRoute.ReplyDependsOnlyOnForwardedList | app/api/chat/route.ts:41-72 | Two servers that give the same answer to the one normalised request produce the same reply. |
| History.Submit | app/page.tsx:43-61 | With empty text and no files, the submit is ignored and nothing changes. Otherwise exactly one user turn is appended after the unchanged history. Its text is the prompt text, or "Sent with attachments" when the text is empty. The input is cleared, `loading` is set, and the request is the prior history followed by the new turn. |
| History.Complete | app/page.tsx:65-78 | A readable reply appends exactly one assistant turn carrying the reply's first part text. A failure appends nothing. `loading` ends false in both cases. |
| History.Exchange | app/page.tsx:43-79 | An ignored prompt leaves the state unchanged. A sent one keeps the old history as a prefix, then adds a user turn and at most one assistant turn. The prompt box is cleared and `loading` ends false. |
| History.ExchangeAppends | app/page.tsx:43-79 | Over a whole submit, the network sees the old history plus the new user turn. Afterwards the history is the old one plus the user turn, plus the assistant turn exactly when the delivery was readable. `loading` is false at the end. An empty prompt changes nothing. |
| History.UserTurns | app/page.tsx:83 | The filter keeps only user turns and never grows the list. It is empty exactly when the history has no user turn. |
| History.LastUserTurn | app/page.tsx:83 | `.at(-1)` on the filtered list finds nothing exactly when no turn has the user role. Otherwise it returns a user turn. |
| History.LastUserTurnIsLatest | app/page.tsx:83 | Filtering for user turns and taking the last finds nothing exactly when no turn has the user role. Otherwise it returns the turn at the last user position. |
| History.Regenerate | app/page.tsx:81-86 | Retry does nothing on an empty history or one with no user turn. It is sent exactly when the last user turn has text. Then it is the submit of that text. |
| History.RegenerateAppendsDuplicate | app/page.tsx:81-86 | A Retry that goes through appends a new user turn with the last user turn's text after the whole history. Nothing is removed or replaced. |
| History.ShowsActions | app/page.tsx:101 | The actions appear only on the final part of a turn, and never on a user turn. |
| History.PartActions | app/page.tsx:94-113 | Walking the parts of one turn places one Retry/Copy group when the turn is an assistant turn with at least one part, and none otherwise. The group sits on the last part and copies that part's text. |
| History.RenderActions | app/page.tsx:92-117 | Each Retry/Copy group sits on the last part of an assistant turn and copies that part's text, never on a user turn. Every assistant turn with a part gets exactly one group, in display order. |
| Conversation.RouteAlwaysAnswers | app/page.tsx:56-73 | With the route as the page's network, every sent prompt appends the user turn and one assistant turn. That turn's text is chosen from the server's answer to the normalised history. |
| Conversation.SettledPreserved | app/page.tsx:65-73 | Start from a history of complete user/assistant pairs with text. An exchange whose reply has non-empty text leaves the history in that form. |
| Conversation.SettledRequestForwardedInFull | app/api/chat/route.ts:28-37 | From such a history, the page's request is forwarded in full, with the new question as the last entry. |
| Conversation.FailedExchangeStrandsNextQuestion | app/page.tsx:74-78 | A failed exchange leaves the history ending in the user turn. The next question's request then forwards the same list as that history, so the new question is dropped. |
| Conversation.EmptyReplyStrandsNextQuestion | app/api/chat/route.ts:64-72 | A route reply without text gives a textless assistant turn that the next request drops. `lastRole` stays `user`, so the next question is dropped too. |
| Conversation.RetryAfterFailureResendsSameList | app/page.tsx:81-86 | After a failed exchange, Retry appends a duplicate of the stranded question. The model is sent exactly the list it would have received without the duplicate. |

## Left out

- Network I/O is not modelled. The `fetch` calls to `/api/chat` and to the inference server become function parameters, and `NextResponse` and the HTTP status (always 200) are left out.
- Library parsing is not modelled. `req.json()`, `res.text()`, `JSON.parse` and `res.json()` are represented by their outcomes: decoded value, unparseable text, or a thrown exception.
- The clock is not modelled. Each `Date.now()` id is a parameter: `ChatRoute.Handle` takes the reply id as `now`, and the page takes the ids of the turns it builds. The route sends its id as a number and the page as a string; ids are plain strings here, since nothing compares them.
- Logging (`console.log`, `console.error`) is a side effect with no bearing on results, so it is left out.
- React rendering, the component library, the loading indicator, the submit button's `disabled` condition (page.tsx:135), the prompt box's `onChange` and the clipboard write are UI rendering and side effects, so they are left out. The Copy action is modelled only as the text it would copy.
- Stale closures and overlapping submits in `handleSubmit` are not modelled. They come from event-loop concurrency. The model runs one submit at a time, where the closure's `messages` equals the latest history.
- Non-string JSON values are not modelled: roles, texts or contents that are numbers, objects or booleans. Texts and contents may be absent; roles are always strings.
- `parts` and `choices` given as objects instead of arrays are not representable. The source reads both with `?.[0]`, which also finds an object's `"0"` entry. So a turn with `parts: {"0": {"text": "hi"}}` is forwarded with text "hi" (route.ts:29), and a body `{"choices": {"0": {"message": {"content": "x"}}}}` gives the reply text "x" (route.ts:64). A string in either field yields no text, because its first character has no `text` or `message` field. That is how an absent field behaves, so the model writes such a value as absent (`[]` for `parts`, `None` for `choices`).
- A turn with no `role` field is not representable. The route would accept it and forward an entry without a role. For the skip rule an absent role acts like the empty role `""`, since both are falsy.
- Malformed `messages` values are not representable; the model only accepts an absent (or `null`) value or a list of turns. A `null` element makes `m.parts` throw, so the route answers "Error generating response.". A non-array `messages` is not checked as such. A value whose `length` is falsy (a number, a boolean, `{}`, `""`, `{length: 0}`) gets "No messages provided." (route.ts:10). A non-empty string is walked character by character, and every character is skipped as textless (route.ts:29-30), so only the system entry is forwarded. An object with a truthy `length` throws in the `for...of` loop, so the route answers "Error generating response.".
- A call that never completes is not modelled. Neither `fetch` has a timeout, so a hung inference server or `/api/chat` call leaves the page's `loading` true forever. The network parameters are total functions that always return an outcome.
- The equivalence of an absent and an empty `parts` array holds only for the route. The page's render (page.tsx:94) calls `message.parts.map`, which would throw on a turn without `parts`. The page never stores such a turn, because it builds every stored turn itself with exactly one part (page.tsx:46-50 and 67-71).
- ChatRoute.ReplyText: a `content` that is present but not a string is treated like an absent one, although the route would pass it through as the reply text.
- The `type: 'text'` tag of parts is not kept, because neither layer reads it.
- A Retry whose last user turn has no parts is modelled as doing nothing. In the source, reading `parts[0].text` throws outside `handleSubmit`'s `try`, and no state changes.
