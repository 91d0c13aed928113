# TAVISH AI chat front end: conversation store and request builder

This project models the two pieces of real logic in the TAVISH AI browser chat client, and proves properties about them.

- **The conversation store** (`App.tsx`). The component keeps a signed-in `User`, a two-step login stage, a list of `Chat`s and the id of the active chat. Its handlers update these:
  - sign in (phone, then name) and sign out;
  - start a new chat, which is refused while the active chat is empty;
  - pick, delete and clear a chat;
  - send a message, which appends the user's message and later the assistant's reply.

  The model is the class `App.ChatApp`, with one method per handler. The `map`/`filter` expressions those handlers pass to React are the functions of module `ChatList`. `ChatApp.Valid()` is the invariant every handler keeps: the list is never empty and the active id names one of its chats.
- **The request builder** (`services/geminiService.ts`). `getAIResponse` builds the model request:
  - the user's first name;
  - one role-tagged turn per history message (`ai` becomes `model`);
  - a final user turn with the prompt, plus the image when it is a `data:<mime>;base64,<payload>` URL;
  - a system instruction that addresses the user by first name.

  It then turns the SDK's answer into the reply text, or into an apology when there is no text or the call fails. Module `GeminiService` models this. The SDK call is the function parameter `generate: Request -> CallOutcome`.
- Module `Types` holds the records of `types.ts`. Module `JsText` models the JavaScript string behaviour the handlers use: `trim()` over the ECMAScript whitespace set, and the truthiness of `string | null`.

Inputs that the source reads from the clock (`Date.now()` ids and timestamps) are method parameters. So are the composer's text and selected image.

## Model

| member | source | states |
|---|---|---|
| `JsText.TrimStart` | App.tsx:123 | removes exactly the leading whitespace: the result is a suffix, what was dropped is all whitespace, and the result does not start with whitespace |
| `JsText.TrimEnd` | App.tsx:165 | removes exactly the trailing whitespace: the result is a prefix, what was dropped is all whitespace, and the result does not end with whitespace |
| `JsText.Trim` | App.tsx:165 | `s.trim()` is no longer than `s`, and a non-empty result neither starts nor ends with whitespace |
| `JsText.TrimEmptyIffBlank` | App.tsx:123 | `s.trim()` is empty exactly when every character of `s` is whitespace, so `!s.trim()` means "blank" |
| `JsText.TrimsToEmpty` | App.tsx:165 | the test `!s.trim()` is true exactly when the text is blank |
| `JsText.Truthy` | App.tsx:165 | a `string \| null` is truthy exactly when it is present and not the empty string |
| `ChatList.DefaultChat` | App.tsx:50 | the chat an empty list is filled with: id "default", no messages, titled "New Conversation" |
| `ChatList.NewChat` | App.tsx:146 | a new chat has the given id, no messages and the title "New Conversation" |
| `ChatList.FindIndex` | App.tsx:139 | returns the position of the first chat with that id, or nothing exactly when no chat has that id |
| `ChatList.Find` | App.tsx:139 | `chats.find` by id: returns a chat of the list that has that id, namely the first one, or nothing when none matches |
| `ChatList.ActiveChat` | App.tsx:213 | the chat on screen is the first chat with the active id, or `chats[0]` when none has it; it is undefined only for an empty list |
| `ChatList.NewChatAllowed` | App.tsx:139-144 | a new chat is allowed exactly when a chat with the active id exists and has at least one message; a missing chat refuses |
| `ChatList.SameIdsSameIndex` | App.tsx:176-204 | two lists with the same ids at the same positions find the same position for every id, so the transforms below never move the active chat |
| `ChatList.ApplyEdit` | App.tsx:176-182 | the three per-chat edits of the handlers: clear the messages, append the user's message with the first-message title rule, append the reply |
| `ChatList.UpdateWhere` | App.tsx:199-204 | `map(c => c.id === id ? {...c, ...} : c)`: the length is unchanged, chats with that id receive the edit (clear, user message or reply), and every other chat stays as it was |
| `ChatList.ClearMessages` | App.tsx:293 | clear empties the messages of the chats with the active id only; ids, titles, creation times and all other chats are unchanged |
| `ChatList.FirstMessageTitle` | App.tsx:178 | the title from a first message is never empty: "Vision Analysis" for empty input, otherwise a prefix of the input at most 35 long, all of the input when it fits, and exactly 35 characters when it does not |
| `ChatList.AppendUserMessage` | App.tsx:176-182 | only chats with the target id change; each gains exactly the message at the end; its title takes the first-message title only if it had no messages, and otherwise stays |
| `ChatList.AppendUserMessageToActive` | App.tsx:176-182 | appending to the active chat keeps it findable; its messages gain exactly the new message, and its title follows the first-message rule |
| `ChatList.AppendAiMessage` | App.tsx:199-204 | only chats with the target id change; each gains exactly the reply at the end; title, id and creation time are unchanged |
| `ChatList.RemoveChat` | App.tsx:336 | `filter`: a chat is in the result exactly when it was in the list and does not have that id; a list without that id comes back unchanged |
| `ChatList.RemoveChatCounts` | App.tsx:336 | filtering keeps each chat without that id as many times as it occurred, and none with that id |
| `ChatList.RemoveChatAppend` | App.tsx:336 | filtering distributes over concatenation |
| `ChatList.RemoveChatKeepsOrder` | App.tsx:336 | two kept chats appear in the result in the order they had before |
| `ChatList.DeleteChat` | App.tsx:335-338 | the list after a delete is never empty: it is the filtered list when any other chat remains, and the single default chat when every chat had that id |
| `ChatList.NextActiveIdAsWritten` | App.tsx:339 | as written: deleting the active chat makes "default" the active id; deleting another chat keeps the active id |
| `ChatList.DeleteActiveChatStrandsSends` | App.tsx:339 | as written: after deleting the active chat of two, the active id "default" names no chat; the screen shows the remaining chat, but sending there changes nothing and a new chat is refused |
| `ChatList.NextActiveId` | App.tsx:339 | corrected: deleting the active chat makes active the chat the screen then shows, that is "default" when such a chat remains and the first remaining chat otherwise, so the new active id names a remaining chat; deleting another chat keeps the active id |
| `ChatList.DeleteKeepsActiveChat` | App.tsx:335-339 | with the corrected active id, the active id names a chat of the list after every delete |
| `ChatList.NextActiveIdAgrees` | App.tsx:339 | the corrected active id equals the as-written one exactly when the as-written one still names a chat after the delete |
| `GeminiService.FirstField` | services/geminiService.ts:13 | `split(' ')[0]` is the prefix before the first space: a prefix with no space, followed by a space or by the end of the string |
| `GeminiService.FirstName` | services/geminiService.ts:13 | the first name is never empty and has no space; it is "User" for an empty or space-led name, and otherwise the name's text up to its first space |
| `GeminiService.SystemInstruction` | services/geminiService.ts:41 | the system instruction contains the first name |
| `GeminiService.DisruptionReply` | services/geminiService.ts:49 | the failure apology contains the first name |
| `GeminiService.ToContent` | services/geminiService.ts:16-19 | one history message as a turn: role `user` or `model`, with its text as the only part |
| `GeminiService.HistoryToContents` | services/geminiService.ts:16-19 | keeps length and order; a `user` message becomes a `user` turn and an `ai` message a `model` turn, each with exactly one text part equal to the message text |
| `GeminiService.IndexOf` | services/geminiService.ts:24 | returns the first position of the character, or nothing exactly when it does not occur |
| `GeminiService.ParsePayload` | services/geminiService.ts:24 | accepts only what follows `;base64,` when it is non-empty and free of line terminators |
| `GeminiService.ParseAfterPrefix` | services/geminiService.ts:24 | after `data:`, a non-empty MIME type without `;` up to the first `;`, then the payload; the parts put back together give the input |
| `GeminiService.ParseDataUrl` | services/geminiService.ts:24-31 | every match is well formed (non-empty MIME type without `;`, non-empty single-line payload) and rebuilds the input exactly |
| `GeminiService.IndexOfFirst` | services/geminiService.ts:24 | a character with no earlier occurrence is found at its own position |
| `GeminiService.ParseDataUrlRoundTrip` | services/geminiService.ts:24-31 | parsing `"data:" + mime + ";base64," + payload` gives back exactly that MIME type and payload, for any well-formed pair |
| `GeminiService.ParseDataUrlExact` | services/geminiService.ts:23-33 | a string is refused exactly when it is not the data URL of any well-formed image |
| `GeminiService.PromptParts` | services/geminiService.ts:21-33 | the prompt turn holds the prompt first, then the image exactly when it parses, and never more than one image |
| `GeminiService.RequestContents` | services/geminiService.ts:16-35 | the contents are the history turns in order, then one `user` turn for the prompt: `|history| + 1` entries |
| `GeminiService.PromptSentTwice` | services/geminiService.ts:16-35 | when the history ends with the user's message being sent, the request holds that text twice: in the last history turn and in the prompt turn |
| `GeminiService.BuildContents` | services/geminiService.ts:16-35 | the contents built by pushing onto local arrays equal the specified request contents |
| `GeminiService.SelectReply` | services/geminiService.ts:46-49 | the reply is never empty: the response text when it is non-empty, the fixed "unable to process" apology when it is empty, and the disruption apology (which names the user) when the call fails |
| `GeminiService.GetAIResponse` | services/geminiService.ts:7-51 | the request names the model, carries the specified contents and a system instruction naming the user; the reply is the one selected from the SDK's outcome for that request |
| `App.UserMessage` | App.tsx:167-173 | the user's message carries the composer text, and the selected image only when it is truthy (`selectedImage \|\| undefined`) |
| `App.AiMessage` | App.tsx:192-197 | the reply's message is from the assistant, carries the reply text and no image |
| `App.ChatApp.Active` | App.tsx:213 | under the invariant the chat on screen is the chat with the active id, taken from the list |
| `App.ChatApp.constructor` | App.tsx:42-52 | starts signed out, at step 1, with the single default chat active |
| `App.ChatApp.SetPhone` | App.tsx:234 | typing a phone number changes only the user's phone |
| `App.ChatApp.SetName` | App.tsx:251 | typing a name changes only the user's name |
| `App.ChatApp.Login` | App.tsx:119-126 | step 1 moves to step 2 only with a phone of at least 10 characters; step 2 signs in only with a name that is not blank; otherwise nothing changes; chats are untouched |
| `App.ChatApp.Logout` | App.tsx:128-136 | restores the empty signed-out user, step 1, the single default chat and the active id "default" |
| `App.ChatApp.StartNewChat` | App.tsx:138-150 | refused with the fixed notice, nothing changed, exactly when the active chat has no messages; otherwise exactly one empty "New Conversation" chat goes in front of the unchanged list and becomes active |
| `App.ChatApp.SelectChat` | App.tsx:327 | picking a listed chat makes it active and changes nothing else |
| `App.ChatApp.DeleteChat` | App.tsx:335-339 | the list becomes the delete result and is never empty; deleting another chat keeps the active id; deleting the active chat keeps the source's "default" whenever a chat with that id remains, and otherwise makes the first remaining chat active (corrected, see Findings) |
| `App.ChatApp.ClearChat` | App.tsx:293 | the list becomes the clear result; the active chat has no messages and keeps its title |
| `App.ChatApp.SendUserMessage` | App.tsx:163-190 | a blank text without an image changes nothing; otherwise the active chat gains exactly the message at the end with the first-message title rule, and the model is asked with that chat's messages including the new one |
| `App.ChatApp.AppendUserTurn` | App.tsx:176-182 | the list becomes the user-message append for the active id; the active chat gains exactly the message at the end and takes the first-message title only if it had no messages |
| `App.ChatApp.AppendAiReply` | App.tsx:192-204 | the reply joins the chats with the target id at the end; when the target is active, the active chat gains exactly that message and keeps its title |
| `App.ChatApp.HandleSendMessage` | App.tsx:163-211 | a whole send adds exactly the user's message and then exactly the reply to the active chat, in that order, and the list becomes the user-message append followed by the reply append, so every other chat is unchanged; the request and reply are those `getAIResponse` specifies |

## Left out

- Rendering, GSAP animations, scrolling, the sidebar's open state and theme toggling: user interface with no statable logic.
- Persistence to `localStorage` (App.tsx:42-52, 100-110, 131-133): browser I/O. The constructor models the state before anything is restored. A restored chat list or active id could break `ChatApp.Valid()`; that case is not modelled.
- Toast timers, the copied-badge reset, clipboard, `FileReader` and textarea sizing: timers and browser APIs. `StartNewChat` returns the toast text instead of showing it.
- The asynchronous send is modelled as two steps: `SendUserMessage`, then `AppendAiReply`. Between them another handler may run, and the reply then goes to the chat that was active at send time. This matches the source's `targetId`. The typing indicator is left out.
- The `catch` of `handleSendMessage` (App.tsx:205-206) is left out. `getAIResponse` catches every SDK error itself, so that branch is not reached.
- The Gemini SDK call is the parameter `generate`. A missing `response.text` is modelled as `Ok("")`, since both are falsy and select the same apology. `temperature: 0.6` (a float) and `console.error` are left out.
- api/gemini.ts is not part of this model. It is an HTTP relay that hands the prompt to the SDK.
- JavaScript strings are UTF-16 code units; the model's strings are sequences of Unicode characters. `length`, `slice(0, 35)` and the regular expression's `.` are modelled per character, so they differ from the source for characters outside the Basic Multilingual Plane.
- Ids are passed in, so their uniqueness is not assumed. Two chats created in the same millisecond would share an id. Every transform treats all chats with a matching id alike, as the source does.
- `App.ChatApp.DeleteChat`: deliberately differs from App.tsx:339 only when the active chat is deleted and no chat with id "default" remains; then the first remaining chat becomes active (see Findings). The as-written choice is `ChatList.NextActiveIdAsWritten`.

## Findings

| source | as written | input that shows it | evidently intended | confidence | as-written member | corrected member |
|---|---|---|---|---|---|---|
| App.tsx:339 | deleting the active chat sets the active id to "default" even when other chats remain and none of them has that id | chats with ids "1" (active, one message) and "2" (one message); delete "1": the screen falls back to chat "2", but the next message and its reply are appended to no chat, and "new chat" is refused although chat "2" has a message | when no chat with id "default" remains, the active id names the chat the screen already shows (the first remaining one), so sends land in the chat on screen; when a "default" chat remains the source is already right and is kept | medium; not executed | `ChatList.DeleteActiveChatStrandsSends` | `ChatList.DeleteKeepsActiveChat` |
