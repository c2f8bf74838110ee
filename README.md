# my-chat-app client logic in Dafny

This project models the sequential client-side logic of a React chat front
end (Socket.IO + Material UI) and proves properties of it. The client keeps
messages per room, joins and leaves rooms, debounces "typing" notices,
colours usernames and stores user settings in the browser. Rendering, the
socket transport and the browser APIs are replaced by explicit inputs and
output logs.

Modules, one per part of the program:

- `Messages` (`messages.dfy`): the pure reducers that the chat page and the
  chat-messages hook pass to `setRoomMessages`. These are duplicate
  detection by the (username, timestamp, content) triple, duplicate-free
  append, history replace, the seen-receipt merge, the optimistic send and
  the two notification rules. Both files spell out the same duplicate check
  and seen merge, so they are defined once here.
- `Socket` (`socket.dfy`): the named outbound socket events, as values
  appended to a log.
- `RoomSelection` (`room_selection.dfy`): the leave/join transition rule and
  the `useRoomManagement` hook as a class.
- `ChatMessages` (`chat_messages.dfy`): the `useChatMessages` hook as a
  class over the shared reducers.
- `ChatPage` (`chat_page.dfy`): the chat page's state, its socket handlers,
  its user actions and its two effects, as a class with an outbox log and a
  notification log.
- `MessageInput` (`message_input.dfy`): the input box as a state machine.
  It holds the text, at most one pending stop-typing timer and the emoji
  picker flag. The timer firing is an explicit event.
- `UserColor` (`user_color.dfy`):
  - the djb2 hash with JavaScript's 32-bit `<<`;
  - palette selection with exclusions and fallback;
  - the memo cache as a class;
  - greedy distinct assignment for a list of names;
  - the black-or-white contrast rule.
- `Settings` (`settings.dfy`):
  - the settings object and the defaults;
  - loading from the stored entry, single-key update;
  - the hook as a class with reset, the username effect and the save effect.
- `JsText` (`js_text.dfy`): the JavaScript string semantics the above rely
  on. These are `trim`, ASCII `toLowerCase` and the UTF-16 code units that
  `charCodeAt` reads.
- `Wrappers` (`wrappers.dfy`): `Option`.

React's state updates are modelled as field assignments. An effect is a
method that the environment calls after a render in which its dependencies
changed. Callbacks the source receives (`joinRoom`, `leaveRoom`, `onSend`)
and socket emissions are appended to logs, so contracts can state exactly
which calls happen and in which order.

## Model

| member | source | states |
|---|---|---|
| Messages.MessageExists | src/pages/ChatPage.tsx:51-58 | The duplicate scan over a room's list: some stored message has the same username, timestamp and content. |
| Messages.MessageExistsIff | src/pages/ChatPage.tsx:51-58 | The duplicate check holds exactly when some stored message has the same username, timestamp and content. |
| Messages.MessageExistsIgnoresSeenBy | src/hooks/useChatMessages.ts:34-41 | The duplicate check does not depend on `seenBy`: changing the new message's `seenBy` never changes the answer. |
| Messages.UpdateRoomMessages | src/pages/ChatPage.tsx:60-75 | A triple already in the room leaves the whole state unchanged. Otherwise the room (empty if missing) becomes its old list with the message appended, and every other room is unchanged. |
| Messages.UpdateRoomMessagesContains | src/pages/ChatPage.tsx:65-74 | After the update the room holds the event, whichever branch was taken. |
| Messages.UpdateRoomMessagesIdempotent | src/pages/ChatPage.tsx:65-74 | Delivering the same message twice gives the same state as delivering it once. |
| Messages.UpdateRoomMessagesAppendOnly | src/pages/ChatPage.tsx:71-74 | Every room that existed is still there, and its old list is a prefix of its new list. |
| Messages.CountEventPositive | src/pages/ChatPage.tsx:51-58 | The number of stored copies of an event is positive exactly when the duplicate check finds it. |
| Messages.CountEventAppend | src/pages/ChatPage.tsx:73 | Copies of an event in a concatenation are the sum of the copies in its parts. |
| Messages.ReceiveStoresOnce | src/pages/ChatPage.tsx:60-75 | A room holding an event at most once holds it exactly once after receiving it. |
| Messages.MarkSeen | src/pages/ChatPage.tsx:87-90 | Marking keeps username, content and timestamp, and the old `seenBy` is a prefix of the new one. The user is appended exactly when absent; a message already seen by the user is returned unchanged. |
| Messages.MarkSeenKeepsDistinct | src/pages/ChatPage.tsx:88-89 | A `seenBy` list without repetitions stays without repetitions. |
| Messages.MarkAllSeen | src/pages/ChatPage.tsx:87-91 | Same length as the room, and each message is the marked version of the message at that position. |
| Messages.UpdateSeenMessages | src/pages/ChatPage.tsx:82-92 | An unknown room leaves the state unchanged. A known room has every message marked, with the same rooms present and every other room untouched. |
| Messages.UpdateSeenShape | src/pages/ChatPage.tsx:85-92 | On a known room, length and order are kept and each message keeps its event identity. The old `seenBy` is a prefix of the new one and holds the user. A message changes exactly when it lacked the user. |
| Messages.UpdateSeenIdempotent | src/hooks/useChatMessages.ts:70-84 | Applying the same seen receipt twice equals applying it once. |
| Messages.MarkAllSeenKeepsEvents | src/pages/ChatPage.tsx:82-92 | A seen receipt never changes what the duplicate check finds in the room. |
| Messages.SetRoomHistory | src/pages/ChatPage.tsx:129-131 | The room holds exactly the delivered list, and all other rooms are unchanged. |
| Messages.AppendOptimistic | src/pages/ChatPage.tsx:224-227 | The sent message is appended to the selected room (empty if missing) with no duplicate check, and the other rooms are untouched. |
| Messages.EchoDiscarded | src/pages/ChatPage.tsx:211-228 | After an optimistic send, a received echo with the same triple, whatever its `seenBy`, leaves the state unchanged. |
| Messages.SendThenEchoStoresOnce | src/pages/ChatPage.tsx:113-122 | Send followed by echo stores the event exactly once, and the room grows by exactly one message. |
| Messages.PageNotifies | src/pages/ChatPage.tsx:117 | The page asks for a notification for every received message whose sender is not the logged-in user, duplicate or not. |
| Messages.HookNotifies | src/hooks/useChatMessages.ts:50-57 | The hook asks for a notification only for a message that is not a duplicate in its room and whose sender is not the current user. |
| Messages.DuplicateNotifiesOnlyOnPage | src/hooks/useChatMessages.ts:50-57 | On a duplicate from another user, the page's rule (ChatPage.tsx:117-119) still asks for a notification and the hook's rule does not. |
| RoomSelection.Transition | src/hooks/useRoomManagement.ts:11-19 | There are no calls exactly when the previous room is the selected one. Otherwise the last call joins the selected room, and only the previous room can be left, before that join. A leave happens exactly when the previous room is present and non-empty. |
| RoomSelection.FirstRunOnlyJoins | src/hooks/useRoomManagement.ts:12-18 | The first run joins the selected room and leaves nothing. |
| RoomSelection.SwitchLeavesThenJoins | src/hooks/useRoomManagement.ts:13-16 | Switching from a named room A to B leaves A strictly before joining B, once each. |
| RoomSelection.RoomManager.constructor | src/hooks/useRoomManagement.ts:7-8 | Initially "General" is selected, there is no previous room and no calls. |
| RoomSelection.RoomManager.RunEffect | src/hooks/useRoomManagement.ts:11-19 | The log grows by exactly the transition's calls. Afterwards the previous room is the selected one, which is unchanged. |
| RoomSelection.RoomManager.HandleJoinRoom | src/hooks/useRoomManagement.ts:21-23 | Only the selected room changes. |
| RoomSelection.SwitchScenario | src/hooks/useRoomManagement.ts:11-23 | Mount, switch to "Dev", reselect "Dev": join General, leave General, join Dev, and nothing more. |
| ChatMessages.ChatMessagesHook.constructor | src/hooks/useChatMessages.ts:43-44 | The hook starts with no rooms and no notifications, for the given current user. |
| ChatMessages.ChatMessagesHook.AddMessage | src/hooks/useChatMessages.ts:46-64 | The state is the duplicate-suppressing append. A notification is requested only for a new message from someone other than `currentUsername`. |
| ChatMessages.ChatMessagesHook.SetRoomHistory | src/hooks/useChatMessages.ts:66-68 | Exactly one room's list is replaced. |
| ChatMessages.ChatMessagesHook.UpdateSeenStatus | src/hooks/useChatMessages.ts:70-84 | The state becomes the seen-receipt merge. |
| ChatMessages.DoubleDeliveryScenario | src/hooks/useChatMessages.ts:46-64 | Two deliveries of one message store it once and request at most one notification. |
| ChatPage.RoomEmissions | src/pages/ChatPage.tsx:191-194 | One socket event per room call, in the same order. |
| ChatPage.Page.constructor | src/pages/ChatPage.tsx:99-105 | The page starts with rooms ["General"], "General" selected, no messages, no online users, nobody typing, no previous room and empty logs. |
| ChatPage.Page.ReceiveMessage | src/pages/ChatPage.tsx:113-123 | Duplicate-suppressing append. A notification is requested for every message not sent under the own name, duplicates included. |
| ChatPage.Page.RoomList | src/pages/ChatPage.tsx:125-127 | The room list is replaced by the delivered one. |
| ChatPage.Page.RoomHistory | src/pages/ChatPage.tsx:129-131 | The room's list becomes exactly the delivered history. |
| ChatPage.Page.OnlineUsers | src/pages/ChatPage.tsx:133-135 | The presence list is replaced by the delivered one. |
| ChatPage.Page.UserTyping | src/pages/ChatPage.tsx:137-141 | Anyone but the own user becomes the typing user; the own name changes nothing. |
| ChatPage.Page.UserStopTyping | src/pages/ChatPage.tsx:143-147 | The indicator is cleared only when the name equals the typing user captured when the handlers were registered. |
| ChatPage.Page.SeenUpdate | src/pages/ChatPage.tsx:149-151 | The seen receipt is merged into the room. |
| ChatPage.Page.SessionEffect | src/pages/ChatPage.tsx:174-185 | With a user, announce the name once and capture the current typing user for the handlers. Without one, nothing is emitted. |
| ChatPage.Page.RoomEffect | src/pages/ChatPage.tsx:187-197 | Without a user nothing happens. With one, the transition's leave/join events are emitted for that user, and the previous room becomes the selected one. |
| ChatPage.Page.HandleJoinRoom | src/pages/ChatPage.tsx:199-202 | With a user the selection changes; without one nothing does. |
| ChatPage.MayCreateRoom | src/pages/ChatPage.tsx:206 | The create guard: an answer was given, it is non-empty, and no room has that name. |
| ChatPage.Page.HandleCreateRoom | src/pages/ChatPage.tsx:204-209 | A create request is emitted exactly when the answer is non-empty and not already a room. |
| ChatPage.Page.HandleSend | src/pages/ChatPage.tsx:211-228 | Without a user nothing happens. With one, a message seen by its sender is emitted once and appended to the selected room without a duplicate check. |
| ChatPage.EchoScenario | src/pages/ChatPage.tsx:113-122 | alice's send and its echo leave one stored message and no notification. The send is emitted once, after the announce and the join. |
| ChatPage.StaleStopTypingScenario | src/pages/ChatPage.tsx:143-147 | After "bob" starts typing, his stop event does not clear the indicator, because the handler reads the typing user of the login render. |
| MessageInput.Input.constructor | src/modules/chat/MessageInput.tsx:33-38 | The box starts with an empty value, no pending timer, the picker closed and empty logs. |
| MessageInput.Input.SetRoom | src/modules/chat/MessageInput.tsx:33 | A new `room` prop replaces the room; a pending timer keeps the one it captured. |
| MessageInput.Input.Change | src/modules/chat/MessageInput.tsx:40-51 | The value always becomes the text. With user and room, `typing` is emitted and exactly one timer is pending, for that room and user. Without them nothing is emitted and the timer is untouched. |
| MessageInput.Input.TimerFire | src/modules/chat/MessageInput.tsx:47-49 | A pending timer fires once, emitting `stop_typing` for the room and user it captured, directly after the `typing` event that scheduled it. Afterwards no timer is pending. |
| MessageInput.Input.Send | src/modules/chat/MessageInput.tsx:53-61 | A blank value changes nothing at all. Otherwise the trimmed text is sent once, the value cleared, `stop_typing` emitted when user and room are present, and the timer cancelled. |
| MessageInput.Input.KeyDown | src/modules/chat/MessageInput.tsx:63-74 | Enter without Shift sends. Escape clears the value, stops typing and cancels the timer. Any other key, Shift+Enter, or Enter on a blank value changes nothing. |
| MessageInput.Input.Blur | src/modules/chat/MessageInput.tsx:76-79 | `stop_typing` is emitted when user and room are present and the timer is cancelled; the value stays. |
| MessageInput.Input.EmojiClick | src/modules/chat/MessageInput.tsx:82-84 | The picker opens. |
| MessageInput.Input.EmojiClose | src/modules/chat/MessageInput.tsx:86-88 | The picker closes. |
| MessageInput.Input.EmojiSelect | src/modules/chat/MessageInput.tsx:90-93 | The emoji is appended to the end of the value and the picker closes. |
| MessageInput.KeystrokeThenSilence | src/modules/chat/MessageInput.tsx:40-51 | One keystroke then silence gives one `typing` and exactly one `stop_typing`. |
| MessageInput.SendBeforeTimeout | src/modules/chat/MessageInput.tsx:53-67 | A send before the timeout emits `stop_typing` at once, and the cancelled timer never emits a second one. |
| JsText.Trim | src/modules/chat/MessageInput.tsx:55-56 | The trimmed text is empty exactly for blank strings, otherwise starts and ends with non-whitespace, and is no longer than the input. |
| JsText.TrimIsSlice | src/modules/chat/MessageInput.tsx:56 | The trimmed text is the part of the input between a leading and a trailing run of whitespace. |
| JsText.ToLower | src/utils/userColor.ts:96 | Same length, with each character lower-cased. |
| JsText.NormalizeBlank | src/utils/userColor.ts:96 | The normalised name is empty exactly when the raw name trims to empty. |
| JsText.Utf16Units | src/utils/userColor.ts:55 | Every code unit `charCodeAt` reads lies in 0..65535. |
| UserColor.HexColorInjective | src/utils/userColor.ts:6-42 | Different 24-bit colours are written as different "#rrggbb" strings. |
| UserColor.CodesWellFormed | src/utils/userColor.ts:6-42 | Each palette holds sixteen 24-bit colours, none black and none repeated. |
| UserColor.PaletteDistinct | src/utils/userColor.ts:6-42 | The sixteen colour strings of each palette are pairwise different. |
| UserColor.Palette | src/utils/userColor.ts:6-42 | Each theme's palette holds sixteen colours. |
| UserColor.ToInt32 | src/utils/userColor.ts:55 | The 32-bit conversion lands in the signed 32-bit range. |
| UserColor.ToInt32Congruent | src/utils/userColor.ts:55 | The 32-bit conversion preserves the value modulo 2^32 and leaves in-range values alone. |
| UserColor.Djb2 | src/utils/userColor.ts:52-58 | The hash: the fold from 5381 over the UTF-16 units, then its absolute value. |
| UserColor.Djb2Hash | src/utils/userColor.ts:52-58 | The loop starts at 5381, folds `((hash << 5) + hash) + code` over the UTF-16 units with the shift taken to 32 bits, and returns the absolute value. |
| UserColor.Without | src/utils/userColor.ts:86-88 | The filter keeps exactly the palette colours not excluded, and excluding nothing in the list keeps the list. |
| UserColor.ColorFor | src/utils/userColor.ts:73-97 | The colour is always in the theme's palette, and a blank name gets the palette's first colour. A non-blank name never gets an excluded colour while some palette colour is allowed. |
| UserColor.ColorForAvoids | src/utils/userColor.ts:86-97 | When one palette colour is allowed, no excluded colour is returned for a non-blank name. |
| UserColor.SameNormalFormSameColor | src/utils/userColor.ts:96-97 | Names equal after lower-casing and trimming get the same colour under the same theme and exclusions. |
| UserColor.ForeignExclusionsIgnored | src/utils/userColor.ts:86-93 | Excluding only colours outside the palette changes nothing. |
| UserColor.ColorCache.constructor | src/utils/userColor.ts:47 | The cache starts empty. |
| UserColor.ColorCache.GetUserColor | src/utils/userColor.ts:67-103 | The result is the selected colour. A blank name does not touch the cache. Otherwise the call's key maps to the result, a new key is appended to the insertion order, and every entry stays correct, so a repeat call returns the same colour. |
| UserColor.ColorCache.SelectColor | src/utils/userColor.ts:86-97 | On a cache miss, the computed colour is the one `ColorFor` specifies. |
| UserColor.ColorCache.Record | src/utils/userColor.ts:100 | A new key gets its colour and becomes last in insertion order. |
| UserColor.ColorCache.Clear | src/utils/userColor.ts:155-157 | The cache becomes empty. |
| UserColor.ColorCache.OrderMatchesEntries | src/utils/userColor.ts:162-167 | The key list has as many elements as the cache has entries. |
| UserColor.ColorCache.Stats | src/utils/userColor.ts:162-167 | `size` is the number of entries, and `keys` lists every cached key exactly once. |
| UserColor.ColorCache.AssignOne | src/utils/userColor.ts:116-130 | One iteration advances the loop state to the state after one more name. The cache can only gain the entry for that name with no exclusions, appended last to the order. While an unused colour is left, and so always for at most sixteen names, the cache is untouched. |
| UserColor.ColorCache.GetMultipleUserColors | src/utils/userColor.ts:108-133 | The loop returns the record that the greedy assignment specifies, and the cache stays valid. Old cache keys stay, the order only grows at its end, and every added key is a listed name with that theme and no exclusions, added only for more than sixteen names. With at most sixteen names the cache is unchanged. |
| UserColor.GrownByFew | src/utils/userColor.ts:116-130 | With at most sixteen names, a correct cache that grew only by fallback keys is the cache it started as. |
| UserColor.Pick | src/utils/userColor.ts:117-128 | The colour is in the palette, and it is not yet used while any colour is unused. |
| UserColor.NextWhileUnused | src/utils/userColor.ts:121-125 | While a colour is unused, the name takes one by its hash and it joins the used colours. |
| UserColor.NextWhenExhausted | src/utils/userColor.ts:126-129 | With every colour used, the name gets its ordinary colour with no exclusions, and nothing is marked. |
| UserColor.AssignPrefixStep | src/utils/userColor.ts:116-130 | The state after one more name is one iteration after the current state. |
| UserColor.AssignPrefixShape | src/utils/userColor.ts:116-130 | After the first n names, exactly those names have entries, each a palette colour. |
| UserColor.MultipleUserColorsShape | src/utils/userColor.ts:108-133 | Every listed name, and nothing else, gets a key, and every value is a colour of the theme. |
| UserColor.AssignPrefixFresh | src/utils/userColor.ts:116-125 | Over at most sixteen names, every iteration finds an unused colour. Different names get different colours, and every colour given is marked used. |
| UserColor.UnusedWhileFew | src/utils/userColor.ts:116-125 | With at most sixteen names, every iteration still finds an unused colour, so the fallback of line 128 is never taken. |
| UserColor.MultipleUserColorsDistinct | src/utils/userColor.ts:108-133 | Up to sixteen names (repeats allowed) get pairwise different colours. |
| UserColor.CacheKeyAsWritten | src/utils/userColor.ts:78 | The key text: the name, a dash, the theme, a dash and the exclusions joined by commas. |
| UserColor.PaletteColorTexts | src/utils/userColor.ts:6-42 | Every palette colour is '#' followed by six hexadecimal digits. |
| UserColor.JoinColorTexts | src/utils/userColor.ts:78 | n colours joined by commas are 8n - 1 characters long (none for an empty list) and hold no dash. |
| UserColor.JoinColorTextsInjective | src/utils/userColor.ts:78 | Different lists of colours join to different texts. |
| UserColor.CacheKeyAsWrittenInjective | src/utils/userColor.ts:78 | When every exclusion is a colour "#rrggbb", equal key texts come from equal names, themes and exclusion lists, even for names that hold dashes. |
| UserColor.LookupAsWritten | src/utils/userColor.ts:67-103 | `getUserColor` over a cache keyed by the text of line 78: after a non-blank call, that text is cached. |
| UserColor.LookupHit | src/utils/userColor.ts:81-83 | A cached text key gives the cached colour back. |
| UserColor.LookupMiss | src/utils/userColor.ts:86-100 | An uncached text key gives the selected colour, which is then recorded. |
| UserColor.StringKeyServesExcludedColor | src/utils/userColor.ts:78-83 | Excluding `c + ",#000000"` first caches the plain colour `c`. A later call excluding `c` and "#000000" returns `c`, although the correct colour differs from `c`. |
| UserColor.ExcludedAvoided | src/utils/userColor.ts:86-97 | Excluding a colour and black, a non-blank name never gets that colour. |
| UserColor.ContrastTextColor | src/utils/userColor.ts:139-150 | The result is black or white. |
| UserColor.ParseTwoHexDigits | src/utils/userColor.ts:142-144 | `parseInt` of two hex digits in base 16 is their value. |
| UserColor.ContrastOfHexColor | src/utils/userColor.ts:139-150 | For "#rrggbb" the text is black exactly when 299 r + 587 g + 114 b exceeds 128000, and white otherwise. |
| Settings.DefaultSettings | src/hooks/useSettings.ts:38-58 | The defaults: empty username, status "Available", and the remaining keys with the source's default values. |
| Settings.Load | src/hooks/useSettings.ts:62-73 | Nothing stored, or an entry that does not parse or is not an object, gives the defaults. A parsed object gives the union of its keys and the defaults' keys: saved keys take the saved value, the rest the default. |
| Settings.DefaultsHaveNoUsername | src/hooks/useSettings.ts:38-58 | The defaults include the `username` key, and it is empty (falsy). |
| Settings.LoadHasDefaultKeys | src/hooks/useSettings.ts:67 | Whatever was stored, the loaded settings have every default key. |
| Settings.LoadAfterSave | src/hooks/useSettings.ts:67-84 | Settings with every default key, saved and loaded again, come back unchanged. |
| Settings.Update | src/hooks/useSettings.ts:88-93 | The key takes the value and every other key is unchanged. |
| Settings.NeedsUsername | src/hooks/useSettings.ts:77 | The username effect's guard: a non-empty user name exists and the settings' username is falsy. |
| Settings.UpdateTwice | src/hooks/useSettings.ts:92 | A second update of a key overrides the first. |
| Settings.SettingsStore.constructor | src/hooks/useSettings.ts:62-73 | Mounting loads the entry, and a save is due. The state is the `DEFAULT_SETTINGS` object itself exactly when the entry is missing or does not parse; any parsed entry gives a fresh object from the spread. |
| Settings.SettingsStore.UpdateSetting | src/hooks/useSettings.ts:88-93 | The settings become the single-key update, and a save is due. |
| Settings.SettingsStore.ResetSettings | src/hooks/useSettings.ts:96-99 | The settings become the defaults and the entry is removed. A save is due unless the state already was the defaults object. |
| Settings.SettingsStore.UsernameEffect | src/hooks/useSettings.ts:76-80 | The username is set to the user's name only when a user name exists and none is set. Afterwards it is never needed again. |
| Settings.SettingsStore.SaveEffect | src/hooks/useSettings.ts:83-85 | After a change the entry holds the current settings, and loading the entry gives those settings back. |
| Settings.ResetAfterNullScenario | src/hooks/useSettings.ts:62-99 | With a stored `null`, the mount writes the defaults, and after a reset the entry holds the defaults again, because the spread made a fresh object and the reset changes the state. |
| Settings.ResetUntouchedScenario | src/hooks/useSettings.ts:62-99 | With nothing stored and no change, a reset leaves no entry, because the state already is the defaults object and no save runs. |
| Settings.ResetScenario | src/hooks/useSettings.ts:76-99 | With user "ann", the entry the reset removes is written again with ann's name. |

## Left out

- The socket transport, listener registration and teardown (`socket.connect`, `on`, `off`, `disconnect`) are I/O against a library. Emissions are an output log, and the session effect only announces the user.
- Browser notifications, the notification sound and `document.visibilityState` are browser APIs. A notification request is a `Notice` appended to a log.
- `setTimeout` and `clearTimeout` are wall-clock behaviour. The pending timer is a field, and its firing is the explicit `TimerFire` event.
- `new Date().toISOString()` in `handleSend` reads the clock, so the timestamp is a parameter.
- The `prompt()` in `handleCreateRoom` is I/O. Its answer is a parameter and only the guard is modelled.
- `localStorage` and `JSON.stringify`/`JSON.parse` are reduced to a stored entry: missing, unparsable, or the parsed value. Saving writes the settings object itself.
- Settings.Load: a parsed JSON value that is not an object adds no keys. In JavaScript, spreading an array or a string adds its index keys.
- Settings.Json: numbers are integers only; floating point is not modelled.
- Settings.SettingsStore: React writes the defaults back to storage between a reset and the username refill. That intermediate write is not modelled; only the final entry is.
- The `setSettings` function the settings hook exposes is not modelled. It is a plain state setter.
- The settings record's field types (the string unions and booleans of `UserSettings`) are not checked. The spread at load time copies any saved value unchecked, so the model keeps values as JSON.
- JsText.ToLower: only ASCII letters are lower-cased. Full Unicode case mapping is not modelled.
- UserColor.Palette: the colours are written from their 0xRRGGBB values through `HexColor`. This gives the same strings as the source's literals and makes the palettes' distinctness provable. Upper-case hex spellings of the same colours are not treated as equal, just as in the source.
- ChatPage.Page.UserStopTyping: `handleUserStopTyping` compares with the typing user captured when the handlers were registered. This stale-closure behaviour is modelled as written, not corrected.
- Messages.RoomOf: rooms are a Dafny map, while the source keeps them in a plain object literal. A room named after an `Object.prototype` member ("constructor", "toString", "__proto__") reads the inherited value, so `prev[room] || []` yields a function and the following `.some`, `.map` or spread throws a TypeError (ChatPage.tsx:65-67, 82-87 and 226; useChatMessages.ts:48-50 and 72-77). Messages.UpdateRoomMessages, Messages.UpdateSeenMessages, Messages.AppendOptimistic and the two classes built on them treat such names like any other room.
- UserColor.MultipleUserColorsShape: `result["__proto__"] = c` at userColor.ts:124 sets the record's prototype instead of adding a key, so in JavaScript a name "__proto__" gets no entry; the model gives it one.
- UserColor.ColorCache: entries are keyed by the argument triple (name, theme, exclusion list), while the source keys its `Map` by the text of line 78. So `Stats().keys` lists triples where `getColorCacheStats` returns strings, and the fallback of line 128 reads this corrected cache. UserColor.CacheKeyAsWrittenInjective shows that the two keyings agree whenever every exclusion is a colour "#rrggbb"; the string keying as written is UserColor.LookupAsWritten (see Findings).
- The rendering components, the login page, the user context and the applied UI settings are pure presentation with no logic to state.
- Notification permission requests at mount are a browser API.

## Findings

| source | as written | input that shows it | evidently intended | confidence | as-written member | corrected member |
|---|---|---|---|---|---|---|
| src/utils/userColor.ts:78 | The cache key is `` `${username}-${theme}-${excludeColors.join(',')}` ``, so different exclusion lists that join to the same text share an entry. | Call `getUserColor(u, t, [c + ",#000000"])` with `c` the plain colour of a non-blank `u`; it excludes nothing and caches `c`. Then `getUserColor(u, t, [c, "#000000"])` returns the cached `c`, although `c` is excluded. | A cached colour is the colour selected for those exact arguments, so an excluded colour is never returned while another is allowed. | not executed | UserColor.StringKeyServesExcludedColor | UserColor.ColorCache.GetUserColor |
