# Collaborative markdown editor: room server and client sync, in Dafny

This project models the real-time collaboration core of a small collaborative
markdown editor. The core has two parts:

- **The socket server** (`server.js`). It keeps a registry `roomUsers` from
  room keys to the socket ids it lists there. It records each socket's
  `currentRoom` and lets socket.io keep its own transport rooms. It answers
  `join-room`, `leave-room`, `content-change`, `cursor-position`,
  `typing-start`, `typing-stop`, `ping` and `disconnect`. `content-change`
  writes the `files` row and relays the edit to the room.
- **The editor component** (`src/components/MarkdownEditor.js`). It joins
  the room while its socket is connected. It applies incoming
  `content-updated` events through an echo filter. It auto-saves the debounced
  content with a PUT request, compared against a baseline frozen when the file
  was loaded. It announces a successful save with `content-change`.

Files:

- `common.dfy`: ids, `Option`, JavaScript string truthiness.
- `registry.dfy`: `roomUsers` as a value. It has join and leave, and a
  reference definition of who is in a room after any sequence of joins and
  leaves.
- `transport.dfy`: socket.io rooms and the recipients of `io.to(r)`
  (everyone in `r`) and `socket.to(r)`. As in socket.io 4, `socket.to(r)`
  reaches everyone in `r` except every socket in the transport room named
  after the sender's id. That room normally holds the sender alone.
- `protocol.dfy`: outbound payloads, logged messages and the `files` row update.
- `server.dfy`: the class `RoomServer.Server`, one method per handler, plus
  concrete runs in `RoomServerScenarios`.
- `editor.dfy`: the class `EditorSync.Editor` with one method per effect run,
  listener call and handler. It also holds the pure echo filter, the save
  trigger and the join/leave bracketing of the emits.
- `sync_scenarios.dfy`: concrete runs of the editor, alone and against the server.

The server state is the registry, the `currentRoom` map, the transport rooms,
the store and a log of every emit (recipients, event name, payload). The
editor state has four parts:

- props, component state and the frozen baseline refs;
- the connection flag and socket id;
- the registered listener;
- what the component sends out: socket emits, PUT requests and parent callbacks.

The editor also tracks the parent-held save status. Time
(`new Date().toISOString()` and SQL `NOW()`) is an opaque parameter. A thrown
database error is a parameter `fault`. The outcome of a PUT is a parameter
`SaveOutcome`.

Two behaviours of the code are proved rather than assumed away:

- **`disconnect` cleans only `currentRoom`.** socket.io takes the socket out
  of every transport room, but the handler removes the id from the registry
  only for `currentRoom`. A room joined earlier and never left keeps listing
  the dead socket. `RoomServer.PresenceOverCounts` proves that right after
  the disconnect the count for that room is strictly larger than the number
  of live sockets in it. Socket ids are never reused, and no handler removes
  an id other than its own socket's. So the dead id stays listed in every
  later state (`DepartedStayListed` in the `JoinRoom`, `LeaveRoom` and
  `Disconnect` contracts), and `RoomServer.DepartedOverCount` gives the same
  over-count in any such state. `RoomServerScenarios.StaleMemberInflatesCount`
  shows a `user-joined` delivered to one socket that reports `totalUsers` 3.
- **The save closure tests the connection flag captured when the save
  started.** A save confirmed after the socket dropped is still announced,
  after the cleanup's `leave-room`
  (`SyncScenarios.StaleFlagAnnouncesAfterLeave`).

## Model

| member | source | states |
|---|---|---|
| Registry.Count | server.js:45-50 | the count of a room without an entry is 0, and a count of 0 means the room has no entry or an empty one |
| Registry.Join | server.js:33-37 | the joiner is listed in room `r`, whose entry is created when missing. Earlier members stay, the count grows by one exactly when the id was new, the set of room keys only gains `r`, and no entry becomes empty |
| Registry.Leave | server.js:58-64 | the room loses exactly `id`. Its entry survives exactly when others remain. An unknown room leaves the registry unchanged. The count drops by one exactly when `id` was listed, and no empty entry is left behind |
| Registry.OtherRoomsUntouched | server.js:33-64 | join and leave on room `r` change neither the presence nor the members of any other room |
| Registry.JoinIdempotent | server.js:37 | joining a room twice is the same as joining once (the Set ignores the repeat) |
| Registry.LeaveIdempotent | server.js:59-64 | leaving twice is the same as leaving once |
| Registry.LeaveUndoesJoin | server.js:33-64 | on a registry without empty rooms, a join of an unlisted id followed by its leave restores the registry exactly, including deleting an entry the join created |
| Registry.OtherIdsStay | server.js:33-64 | joining or leaving with one id never changes whether another id is listed in any room |
| Registry.MembersAfterOps | server.js:29-81 | after any sequence of joins and leaves on a room, an id is a member exactly when the last operation naming it was a join (or, if none names it, when it was a member before) |
| Registry.CountAfterOps | server.js:45-50 | the count reported for a room after any sequence of joins and leaves is the number of distinct ids currently joined |
| Transport.Everyone | server.js:49 | `io.to(r)` reaches live sockets only |
| Transport.Others | server.js:42 | `socket.to(r)` reaches a subset of room `r` that never includes the sender while the sender is in its own id room. Any socket that joined the room named after the sender's id is left out too |
| Transport.SenderAlone | server.js:42 | when the sender's id room holds the sender alone, `socket.to(r)` is room `r` without the sender |
| Transport.Connect | server.js:25 | a new socket exists afterwards and sits in the room named by its own id |
| Transport.Enter | server.js:30 | `socket.join(r)` adds exactly the socket to the recipients of `r` and creates or removes no socket |
| Transport.Exit | server.js:56 | `socket.leave(r)` removes exactly the socket from the recipients of `r` |
| Transport.Drop | server.js:168 | a closed socket is gone from the transport |
| Transport.OtherRoomsKeepRecipients | server.js:29-81 | joining or leaving room `r` does not change who receives messages sent to any other room |
| Transport.ConnectTouchesOwnRoomOnly | server.js:25 | a new connection joins no room other than its own |
| Transport.DropEverywhere | server.js:168-192 | after a disconnect, every room's recipients are the old ones minus the socket |
| Protocol.Update | server.js:99-102 | the UPDATE replaces content, title and time of the matching row only. It never creates a row or touches another |
| Protocol.LastWriteWins | server.js:99-102 | a second update of the same row overwrites the first entirely |
| RoomServer.CleanupRoom | server.js:172 | the disconnect handler cleans a room exactly when `currentRoom` is set, non-empty and still registered, and the room it cleans is `currentRoom` |
| RoomServer.AfterDisconnect | server.js:172-190 | the cleaned room no longer lists the socket, and no empty entry is left |
| RoomServer.DisconnectCleansCurrentRoomOnly | server.js:172-190 | every room other than the cleaned one keeps its entry and members, including a room joined earlier and never left |
| RoomServer.JoinKeepsListed | server.js:29-37 | after `join-room`, every live socket in a transport room (other than its own id room) is listed in the registry under that room |
| RoomServer.LeaveKeepsListed | server.js:55-64 | the same holds after `leave-room` |
| RoomServer.DisconnectKeepsListed | server.js:168-190 | the same holds after `disconnect` |
| RoomServer.LiveMembersCounted | server.js:45-50 | the registry's count for a room never under-reports the live sockets in its transport room |
| RoomServer.PresenceOverCounts | server.js:168-192 | a socket listed in a room that the disconnect does not clean is still listed right after disconnecting and receives nothing there, so the room's count then strictly exceeds its live sockets |
| RoomServer.DepartedOverCount | server.js:45-50 | in any state whose live sockets are listed, a departed id still listed in a room makes the room's count exceed its live sockets |
| RoomServer.JoinKeepsDeparted | server.js:33-37 | `join-room` by a live socket keeps every departed id listed wherever it was |
| RoomServer.LeaveKeepsDeparted | server.js:58-64 | `leave-room` by a live socket keeps every departed id listed wherever it was |
| RoomServer.DisconnectKeepsDeparted | server.js:172-190 | the disconnect of a live socket keeps every earlier departed id listed wherever it was |
| RoomServer.Server.constructor | server.js:23 | the registry starts empty, with no sockets and no emits |
| RoomServer.Server.Connect | server.js:25 | a new socket with a never-used id joins its own id room. The set of departed sockets, the registry, current rooms, store and log are unchanged |
| RoomServer.Server.JoinRoom | server.js:29-52 | the transport, `currentRoom` and registry move as `socket.join`, the assignment and `Join` say. Then `user-joined` with the new count goes to the others and `users-count` to the whole room, which includes the sender. The store is untouched, the invariants are kept, and every departed id stays listed |
| RoomServer.Server.LeaveRoom | server.js:55-81 | the transport and registry move as `socket.leave` and `Leave` say, and `currentRoom` is left as it was. `user-left` goes to the others with the remaining count (0 once the entry is deleted). `users-count` goes out only while the entry exists. Every departed id stays listed |
| RoomServer.Server.ContentChange | server.js:84-135 | without a fault, the row is updated and `content-updated` with the sender's id goes to the room except the sender, whether or not a row matched. With a fault, nothing is stored or relayed and only the sender gets `error` with "Failed to save content" and the fault's message. The registry and transport are untouched |
| RoomServer.Server.CursorPosition | server.js:138-146 | exactly one `cursor-updated` to the room except the sender, and nothing else changes |
| RoomServer.Server.TypingStart | server.js:149-156 | exactly one `user-typing` with `isTyping` true to the room except the sender |
| RoomServer.Server.TypingStop | server.js:158-165 | exactly one `user-typing` with `isTyping` false to the room except the sender |
| RoomServer.Server.Ping | server.js:195-197 | exactly one `pong` to the sender alone |
| RoomServer.Server.Disconnect | server.js:168-192 | the socket leaves every transport room and `currentRoom` forgets it. The registry loses the id in the cleaned room only. When a room is cleaned, `user-left` and `users-count` carry the remaining count even when it is 0, to the remaining sockets. Otherwise nothing is sent. The socket joins the departed ones, and every earlier departed id stays listed |
| RoomServerScenarios.EditReachesOthers | server.js:118-124 | with A, B and C in "demo", A's change reaches exactly B and C with A's content, title and id, and the row holds it |
| RoomServerScenarios.PeerInSenderRoom | server.js:29-37 | with A, B and C in "demo", B also joins the room named "A" |
| RoomServerScenarios.IdRoomHidesPeer | server.js:118-124 | A's change then reaches only C: socket.io leaves out B, which sits in A's id room |
| RoomServerScenarios.FailedWriteReportsToSender | server.js:128-134 | a failing write sends exactly one message, `error` to A alone, and the row is unchanged |
| RoomServerScenarios.MovedOn | server.js:29-37 | A and B join "r1", then A joins "r2" without leaving "r1": `currentRoom` of A is "r2" while "r1" still lists A |
| RoomServerScenarios.AbandonedRoom | server.js:168-192 | A then disconnects: "r1" still lists A, now a departed socket, although only B receives there |
| RoomServerScenarios.LateJoiner | server.js:29-52 | a socket joining the abandoned room is announced only to B, with a count of 3 |
| RoomServerScenarios.StaleMemberInflatesCount | server.js:42-46 | the `user-joined` B receives reports `totalUsers` 3 for a room with two live sockets |
| EditorSync.Accepts | src/components/MarkdownEditor.js:57 | an update is applied only when it is for the open file, never when it carries this socket's id, and always when it is for the open file from another socket |
| EditorSync.ShouldSave | src/components/MarkdownEditor.js:81 | equal content and title never trigger a save, and a change of either always does |
| EditorSync.OpenRoom | src/components/MarkdownEditor.js:53-66 | a room reported open was joined by one of the emits |
| EditorSync.OpenRoomSnoc | src/components/MarkdownEditor.js:53-66 | a `join-room` opens its room, a `leave-room` closes it, and a `content-change` changes nothing |
| EditorSync.BracketedAt | src/components/MarkdownEditor.js:53-66 | in a bracketed emit sequence, every join comes while no room is open and every leave names the open room |
| EditorSync.OpenRoomWitness | src/components/MarkdownEditor.js:53-66 | an open room was joined by an earlier emit, and only `content-change` emits follow that join |
| EditorSync.LeaveFollowsJoin | src/components/MarkdownEditor.js:63-66 | every `leave-room` the component emits names the room of an earlier `join-room`, with no join or leave in between |
| EditorSync.EmitKeepsInvariants | src/components/MarkdownEditor.js:53-135 | an emit that fits the open room keeps the bracketing. A `content-change` for a confirmed save keeps every announcement backed by a confirmed save |
| EditorSync.NoSaveAtBaseline | src/components/MarkdownEditor.js:81 | debounced values equal to the baseline never trigger a save, as at mount and right after a file switch |
| EditorSync.OwnEchoIgnored | src/components/MarkdownEditor.js:57 | an update carrying this socket's own id is never applied |
| EditorSync.StoredAsWritten | src/components/MarkdownEditor.js:81 | as written, with every save succeeding, completing in the order started and sending the debounced title that triggered it, the row ends as the initial one or a settled draft, and a last draft different from the loaded values is always stored |
| EditorSync.StoredRebased | src/components/MarkdownEditor.js:81 | with the corrected trigger, under the same assumptions, the row ends as the initial one or a settled draft |
| EditorSync.RevertLeavesStaleRow | src/components/MarkdownEditor.js:81 | as written: load "A", save "AB", undo to "A", and the row keeps "AB" |
| EditorSync.AsWrittenStaysAtBaseline | src/components/MarkdownEditor.js:81 | as written, and under the same assumptions as `StoredAsWritten`, the row stays at the loaded values exactly when every settled draft equals them |
| EditorSync.AsWrittenLosesOnlyReverts | src/components/MarkdownEditor.js:81 | as written, and under the same assumptions as `StoredAsWritten`, the row ends with the last settled draft exactly when that draft differs from the loaded one or nothing else was ever settled |
| EditorSync.RebasedStoresLastDraft | src/components/MarkdownEditor.js:81 | with the trigger comparing against the last saved draft, with the saves completing in the order they were started and each sending the debounced title that triggered it, the row always ends with the last settled draft |
| EditorSync.Editor.constructor | src/components/MarkdownEditor.js:20-67 | mount: content, title and the frozen baseline take the initial props. A connected socket emits `join-room` for the room. The status is `saved` and no request is sent |
| EditorSync.Editor.Rerender | src/components/MarkdownEditor.js:28-67 | a new `fileId` resets the baseline, content and title to the initial props, and the baseline changes nowhere else. A new `initialTitle` sets the title. A new file or room, while connected, emits `leave-room` for the old room then `join-room` for the new one |
| EditorSync.Editor.ResetDocument | src/components/MarkdownEditor.js:28-33 | the baseline refs and the editor's content and title take the initial props |
| EditorSync.Editor.ResubscribeSocket | src/components/MarkdownEditor.js:49-67 | while connected, the cleanup leaves the old room and the new run joins the new one. The listener follows the new file and room |
| EditorSync.Editor.ConnectionChanged | src/components/MarkdownEditor.js:49-67 | connecting emits `join-room` and installs the listener. Disconnecting emits `leave-room` for the same room and removes it. No change of flag, no emit |
| EditorSync.Editor.RemoteUpdate | src/components/MarkdownEditor.js:56-61 | content and title take the update's values exactly when connected and the update is for the open file and not from this socket. Otherwise both are unchanged |
| EditorSync.Editor.DebounceFired | src/components/MarkdownEditor.js:70-116 | a save starts exactly when the debounced values differ from the baseline and `fileId` is non-empty. Status becomes `saving` and one PUT goes out with the current title and the debounced content. Otherwise status and requests are unchanged |
| EditorSync.Editor.SaveResponded | src/components/MarkdownEditor.js:107-146 | success sets `saved` and, if connected when the save started, emits `content-change` with the saved values and the room captured then. Any other outcome sets `error` and emits nothing. The request stops being pending |
| EditorSync.Editor.EditContent | src/components/MarkdownEditor.js:149-157 | content takes the typed text and the parent receives the same text |
| EditorSync.Editor.EditTitle | src/components/MarkdownEditor.js:159-163 | the title takes the new text and the parent receives the same text |
| SyncScenarios.SavedEditIsAnnounced | src/components/MarkdownEditor.js:123-138 | typing "hello" and saving successfully sends one PUT and announces exactly those values to room "demo" |
| SyncScenarios.EditTravelsToPeer | src/components/MarkdownEditor.js:56-61 | that announcement, relayed by the server, replaces B's content with "hello", while A's own editor ignores the same payload |
| SyncScenarios.RevertIsNotSaved | src/components/MarkdownEditor.js:81-86 | in the editor itself, undoing a saved edit shows "A" while the last PUT sent "AB", and only one save happens |
| SyncScenarios.StaleFlagAnnouncesAfterLeave | src/components/MarkdownEditor.js:128-135 | a save confirmed after the socket dropped still emits `content-change`, after the `leave-room` |

## Findings

| source | as written | input that shows it | evidently intended | confidence | as-written member | corrected member |
|---|---|---|---|---|---|---|
| src/components/MarkdownEditor.js:81 | the save trigger compares the debounced values with the baseline frozen at load time, and nothing moves the baseline after a save | load "A", type "AB" (saved), undo back to "A": "A" equals the baseline, so no save, and the row keeps "AB" | save whenever the settled values differ from what was last saved | high, not executed | EditorSync.RevertLeavesStaleRow | EditorSync.RebasedStoresLastDraft |

`EditorSync.StoredAsWritten` and `EditorSync.StoredRebased` give the row the
store ends with under each trigger. Both assume that every save succeeds,
that the saves complete in the order they were started, and that the title
each save sends is the debounced title that triggered it.
`EditorSync.AsWrittenLosesOnlyReverts` says exactly which runs lose an edit.
`SyncScenarios.RevertIsNotSaved` shows the same loss on the editor class.
`EditorSync.Editor` keeps the trigger as written, because the class models
the component as it is.

## Left out

- Database access (`pg` pool, SQL text), CORS, the port and the shutdown handlers (server.js:1-20, 200-224): I/O and process plumbing. The row update is `Protocol.Update`, and a thrown query is the `fault` parameter.
- `console.log` output, including the `rowCount` report of `content-change` (server.js:104-114). It changes nothing observable.
- Clocks: `new Date().toISOString()` and SQL `NOW()` are one opaque `Timestamp` parameter per handler call.
- Interleaving of `content-change` handlers across the `await` (server.js:99). Each handler runs to completion as one step.
- Malformed or missing payload fields (for example `data` undefined on `content-change`). The handlers take typed parameters.
- RoomServer.Server.Connect: the socket id is required never to have been used. socket.io generates a fresh id per connection, and the id generator is not modelled.
- The `!socket` test of the socket effect (src/components/MarkdownEditor.js:50) is folded into the `connected` flag, and the socket object is treated as fixed for the component's life. Its creation is in `src/hooks/useSocket.js`, which is not part of this model.
- EditorSync.Editor.DebounceFired: the debounced content and title are parameters. The model does not tie them to values the content and title held a second earlier, because the debounce hook is not part of this model.
- EditorSync.Editor.SaveResponded: the PUT response is the `SaveOutcome` parameter. The route that answers it (`src/app/api/files/[id]/route.js`) is not part of this model. In particular its COALESCE on missing fields is not modelled.
- Delivery of socket emits: the editor's `outbox` records what the component emits. socket.io's buffering of emits made while disconnected, and their arrival at the server, are not modelled.
- EditorSync.StoredAsWritten, EditorSync.StoredRebased, EditorSync.RebasedStoresLastDraft: saves are taken to complete in the order they were started, and the title each save sends is taken to be the debounced title that triggered it. `EditorSync.Editor.SaveResponded` allows any order, but the order of overlapping PUT responses depends on the network and the API route, which are not part of this model. `saveContent` sends the current `title` (src/components/MarkdownEditor.js:113) while the trigger reads `debouncedTitle` (line 81), so a title edited within the debounce window can be sent in place of the one compared. `EditorSync.Editor.DebounceFired` models that difference; these value-level functions do not.
- `socket.off('content-updated')` removes every listener for the event. The model has one listener, the one the component registers.
- The markdown preview, syntax highlighting, animation and JSX (src/components/MarkdownEditor.js:165-236): rendering only.
- `src/app/page.js`, `src/components/Header.js`, `src/app/layout.js`, `src/app/api/files/route.js`, `src/app/api/socket/route.js` and `scripts/migrate.js` are not part of this model. They hold UI, HTTP plumbing, a second thin socket server and DDL. The parent's starting status `saved` is taken from `src/app/page.js:17`.
- React scheduling details (batched state updates, effects run twice in development mode). Each re-render runs its changed effects once, in declaration order.
