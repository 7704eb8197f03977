# Chat client core: socket state, connection status, signup validation

A verified Dafny model of the three pieces of client-side logic in a small real-time chat
application (a Next.js client talking to a Socket.IO server):

- **The socket provider** (`client/src/contexts/socket-context.tsx`). It keeps the chat state
  for the signed-in user: the presence list `usersOnline`, the message log `messages`, the
  per-sender unread counters `unreadMessages`, the connection flag and the held socket. Socket
  events overwrite this state. The model is the class `SocketContext.SocketProvider`, whose
  fields are that state and whose methods are the event handlers. The handlers call the pure
  updaters of module `ChatUpdates` (upsert on `onlineUser`, mark-offline on `offlineUser`,
  append, the unread bump and its two-part condition). Lemmas about those updaters cover
  length, order, id uniqueness, idempotence and "nothing else changes".
- **The connection-status hook** (`client/src/hooks/use-socket.ts`). Module `UseSocket` models
  a state pair `{isConnected, transport}` with three transitions: connect, disconnect and
  transport upgrade. Each transition hands back the previous state when it would not change;
  the model states when the returned value equals the previous one.
  Besides the per-transition facts (when a transition is a no-op, and idempotence), a trace
  lemma shows one invariant over every admissible event sequence: "N/A" is shown exactly while
  the socket is disconnected.
- **The signup schema** (`client/src/actions/signup/schema.ts`). Module `SignupSchema` models
  the zod form schema as a function from the four form strings to the list of issues, in the
  order zod reports them. It is proved to accept exactly when every field rule holds and the
  passwords agree. Each field path is proved to be reported exactly when that field's own rules
  fail.

Module `JsStrings` states the JavaScript built-ins these rely on. `String.prototype.length`
counts UTF-16 code units, which is what `z.string().min` compares. `String.prototype.trim`
strips WhiteSpace and LineTerminator characters, and `sendMessage` applies it. A regex `.`
without the `s` flag stops at a line terminator.

Inputs from outside the model become parameters:

- the engine's transport name (`socket.io.engine.transport.name`) is the `engineTransport`
  argument;
- the signed-in user's id is the provider's `currentUserId`;
- events arrive as method calls;
- an emitted `sendMessage` event is `SendMessage`'s return value;
- a toast is the `notified` result of `OnNewMessage`.

The provider always sets and clears `socket` and `socketRef.current` together, so one flag,
`hasSocket`, stands for both.

Zod collects every field issue, and string `min`/`regex` failures are not fatal. So the
object-level `refine` on `password === confirmPassword` runs even when other fields failed, and
`Validate` reports the mismatch alongside the field issues.

## Model

| member | source | states |
|---|---|---|
| `JsStrings.Utf16Length` | client/src/actions/signup/schema.ts:5-15 | the length zod compares lies between the number of characters and twice it, and equals it exactly when every character is in the Basic Multilingual Plane |
| `JsStrings.Trim` | client/src/contexts/socket-context.tsx:53 | the trimmed content is an infix of the input, everything cut on either side is whitespace or a line terminator, and it neither starts nor ends with one |
| `JsStrings.TrimIdempotent` | client/src/contexts/socket-context.tsx:53 | trimming twice equals trimming once |
| `JsStrings.TrimEmptyIff` | client/src/contexts/socket-context.tsx:53 | content trims to the empty string exactly when it consists only of whitespace and line terminators |
| `ChatUpdates.UpsertOnline` | client/src/contexts/socket-context.tsx:156-163 | the `onlineUser` updater: the list grows by one exactly when the id was not listed, and afterwards the id is listed; its branches are pinned by `UpsertKnownUser` and `UpsertNewUser` |
| `ChatUpdates.HasUser` | client/src/contexts/socket-context.tsx:157 | `prev.some` holds exactly when some entry has the incoming id |
| `ChatUpdates.ReplaceOnline` | client/src/contexts/socket-context.tsx:159-161 | same length; each entry with the id becomes the incoming user with `isOnline = true`, every other entry is unchanged |
| `ChatUpdates.MarkOffline` | client/src/contexts/socket-context.tsx:167-171 | same length; each entry with the id keeps its own fields with `isOnline = false`, every other entry is unchanged |
| `ChatUpdates.UpsertKnownUser` | client/src/contexts/socket-context.tsx:155-161 | `onlineUser` for a listed id keeps length and the order of ids; entries with that id become the incoming user marked online, others are untouched |
| `ChatUpdates.UpsertNewUser` | client/src/contexts/socket-context.tsx:157-162 | `onlineUser` for an unlisted id puts the incoming record in front as received, length grows by one, and the old list follows unchanged |
| `ChatUpdates.UpsertListsUser` | client/src/contexts/socket-context.tsx:155-163 | afterwards the user is listed, every entry with that id carries the incoming profile, and it is online when the announcement says online |
| `ChatUpdates.ReplaceOnlineAbsent` | client/src/contexts/socket-context.tsx:159-161 | the map over a list without the id changes nothing |
| `ChatUpdates.UpsertIdempotentIff` | client/src/contexts/socket-context.tsx:155-163 | a repeated `onlineUser` changes nothing exactly when the user was already listed or was announced online (the server always announces `isOnline: true`) |
| `ChatUpdates.UpsertKeepsDistinct` | client/src/contexts/socket-context.tsx:155-163 | pairwise distinct ids stay distinct after `onlineUser` |
| `ChatUpdates.MarkOfflineKeepsDistinct` | client/src/contexts/socket-context.tsx:166-172 | `offlineUser` keeps the sequence of ids, so distinct ids stay distinct |
| `ChatUpdates.MarkOfflineEffect` | client/src/contexts/socket-context.tsx:166-172 | every entry with the id is offline with its profile kept; other entries are unchanged |
| `ChatUpdates.MarkOfflineIdempotent` | client/src/contexts/socket-context.tsx:166-172 | applying `offlineUser` twice equals applying it once |
| `ChatUpdates.OfflineThenOnline` | client/src/contexts/socket-context.tsx:155-172 | a listed user who goes offline and is announced again ends up as announced, marked online, in the same place |
| `ChatUpdates.AppendMessage` | client/src/contexts/socket-context.tsx:130 | the message is appended at the end and the old log is its prefix |
| `ChatUpdates.UnreadCount` | client/src/contexts/socket-context.tsx:138 | a missing entry reads as 0: the count is 0 exactly when the id has no entry or an entry of 0 |
| `ChatUpdates.CountsAsUnread` | client/src/contexts/socket-context.tsx:131-134 | the two-part condition: the sender is not the selected user and the receiver is the current user; `UnreadAfter` proves the count rises exactly when it holds |
| `ChatUpdates.ShowsNotification` | client/src/contexts/socket-context.tsx:73 | a toast is shown exactly when the sender's count is 0 (a missing entry compares as `undefined > 0`, which is false); `NotifiesOncePerSender` uses it |
| `ChatUpdates.BumpUnread` | client/src/contexts/socket-context.tsx:136-139 | the sender's count becomes its old count (0 when missing) plus one; the key set gains only the sender, other counts are unchanged |
| `ChatUpdates.UnreadAfter` | client/src/contexts/socket-context.tsx:131-140 | the sender's count rises by exactly one iff the sender is not the selected user and the receiver is the current user; otherwise the map is unchanged; no other count changes, old keys stay, and the only key that can be added is the sender |
| `ChatUpdates.NotifiesOncePerSender` | client/src/contexts/socket-context.tsx:71-85 | once a message from a sender is counted, the next one from that sender raises no notification |
| `SocketContext.SocketProvider.constructor` | client/src/contexts/socket-context.tsx:40-48 | no socket, not connected, empty lists and counters, nothing selected |
| `SocketContext.SocketProvider.AttachSocket` | client/src/contexts/socket-context.tsx:178-179 | a socket is held; nothing else changes |
| `SocketContext.SocketProvider.OnConnect` | client/src/contexts/socket-context.tsx:108-110 | the connection flag is set; nothing else changes |
| `SocketContext.SocketProvider.OnConnectionLost` | client/src/contexts/socket-context.tsx:119-127 | `connect_error` and `disconnect` clear the connection flag only |
| `SocketContext.SocketProvider.OnNewMessage` | client/src/contexts/socket-context.tsx:129-141 | the message is appended; the counters become `UnreadAfter` of the old ones; a notification fires iff the message counts and the sender had no unread messages; nothing else changes |
| `SocketContext.SocketProvider.OnMessageSent` | client/src/contexts/socket-context.tsx:143-145 | the message is appended and the counters are untouched |
| `SocketContext.SocketProvider.OnMessagesHistory` | client/src/contexts/socket-context.tsx:147-149 | the log is replaced by the received list; nothing else changes |
| `SocketContext.SocketProvider.OnOnlineUsers` | client/src/contexts/socket-context.tsx:151-153 | the presence list is replaced by the received list; nothing else changes |
| `SocketContext.SocketProvider.OnOnlineUser` | client/src/contexts/socket-context.tsx:155-164 | the presence list becomes the upsert of the old one, keeps distinct ids distinct and lists the user |
| `SocketContext.SocketProvider.OnOfflineUser` | client/src/contexts/socket-context.tsx:166-172 | the presence list becomes the mark-offline of the old one with the same ids |
| `SocketContext.SocketProvider.DisconnectSocket` | client/src/contexts/socket-context.tsx:59-69 | with a socket held: no socket, not connected, empty presence list, log and counters; with none held: nothing changes |
| `SocketContext.SocketProvider.OnSignedOut` | client/src/contexts/socket-context.tsx:90-98 | on losing authentication the socket is dropped and the flag cleared, lists and counters are kept |
| `SocketContext.SocketProvider.SendMessage` | client/src/contexts/socket-context.tsx:50-57 | an event is emitted exactly when connected (which implies a socket is held), carrying the trimmed content and the receiver |
| `SocketContext.SocketProvider.SelectUser` | client/src/contexts/socket-context.tsx:48 | the selected conversation is set; nothing else changes |
| `SocketContext.SocketProvider.SetUnreadMessages` | client/src/contexts/socket-context.tsx:45-47 | the counters are replaced; nothing else changes |
| `UseSocket.InitialState` | client/src/hooks/use-socket.ts:13-16 | the initial flag is the socket's; the transport is the engine's when connected and "N/A" otherwise, so "N/A" shows exactly when disconnected |
| `UseSocket.OnConnect` | client/src/hooks/use-socket.ts:18-29 | connected, on the engine's current transport |
| `UseSocket.OnDisconnect` | client/src/hooks/use-socket.ts:31-41 | disconnected afterwards; a connected state becomes `{false, "N/A"}` |
| `UseSocket.OnTransportUpgrade` | client/src/hooks/use-socket.ts:43-53 | the connection flag is kept and the transport becomes the new name |
| `UseSocket.OnConnectUnchangedIff` | client/src/hooks/use-socket.ts:18-29 | the previous state comes back exactly when it is already connected on that transport |
| `UseSocket.OnDisconnectUnchangedIff` | client/src/hooks/use-socket.ts:31-41 | the previous state comes back exactly when it is disconnected |
| `UseSocket.OnTransportUpgradeUnchangedIff` | client/src/hooks/use-socket.ts:43-53 | the previous state comes back exactly when the name already matches |
| `UseSocket.TransitionsIdempotent` | client/src/hooks/use-socket.ts:18-53 | applying any transition twice equals applying it once |
| `UseSocket.OnConnectForgetsPrevious` | client/src/hooks/use-socket.ts:18-29 | as a value, the result of `onConnect` does not depend on the previous state |
| `UseSocket.OnDisconnectKeepsStaleTransport` | client/src/hooks/use-socket.ts:31-41 | a disconnected state that shows a transport keeps showing it |
| `UseSocket.Step` | client/src/hooks/use-socket.ts:55-75 | delivers `connect`, `disconnect` and `upgrade` to the three transitions; `StepKeepsConsistent` and `RunKeepsConsistent` state what it preserves |
| `UseSocket.StepKeepsConsistent` | client/src/hooks/use-socket.ts:18-53 | one deliverable event keeps "N/A shown iff disconnected" |
| `UseSocket.RunKeepsConsistent` | client/src/hooks/use-socket.ts:55-75 | every admissible event sequence from a consistent state ends consistent |
| `UseSocket.UpgradeWhileDisconnectedBreaksConsistency` | client/src/hooks/use-socket.ts:43-53 | an upgrade reaching a disconnected state would show a transport while disconnected |
| `SignupSchema.LookaheadAtStart` | client/src/actions/signup/schema.ts:13 | `(?=.*[k])` succeeds exactly when a character of the class occurs before the first line terminator |
| `SignupSchema.IssuesFor` | client/src/actions/signup/schema.ts:3-21 | the number of issues is the number of failing checks |
| `SignupSchema.IssuesForReportsEachFailure` | client/src/actions/signup/schema.ts:3-21 | each check's issue, with its path and message, is reported exactly when that check fails |
| `SignupSchema.Validate` | client/src/actions/signup/schema.ts:3-21 | the schema applied to a submission; `AcceptsIff` states when it returns no issue and `FailingPathsIff` which paths it reports |
| `SignupSchema.PasswordPattern` | client/src/actions/signup/schema.ts:13 | the three lookaheads; `PasswordRuleIff` spells it out as class occurrences before the first line terminator, `DigitAfterNewlineRejected` shows the line-terminator effect |
| `SignupSchema.AcceptsIff` | client/src/actions/signup/schema.ts:3-21 | accepted exactly when name has length >= 2, username >= 3, password >= 6 and matches the pattern, and the confirmation equals the password |
| `SignupSchema.FailingPathsIff` | client/src/actions/signup/schema.ts:3-21 | `name`, `username` and `password` are reported exactly when their own rules fail; `confirmPassword` exactly when it differs from the password |
| `SignupSchema.PasswordRuleIff` | client/src/actions/signup/schema.ts:9-15 | the password rules hold exactly when it is long enough and has a lowercase letter, an uppercase letter and a digit, each before its first line terminator |
| `SignupSchema.DigitAfterNewlineRejected` | client/src/actions/signup/schema.ts:13 | a password whose only digit follows a newline fails the pattern |
| `SignupSchema.AstralCharacterMeetsNameMinimum` | client/src/actions/signup/schema.ts:5 | one character outside the Basic Multilingual Plane already meets the name minimum of 2 |

## Left out

- Socket lifecycle:
  - the `io(...)` connection and its options;
  - the 100 ms `setTimeout` before connecting;
  - the effect cleanup;
  - the cleanup closure `connectSocket` returns, which nothing calls.

  These are timers and library I/O.
- A second socket: if the effect runs again, it can open a new socket while the old one still
  delivers events. The model has one socket at a time.
- `toast`, `console` and the `userOnline` announcement emitted on `connect`: these are output.
  Only whether a toast fires is modelled, as `notified`.
- React batching: `showNotification` reads the unread map of the last render. The model
  processes every event against the committed state, so two messages handled before one render
  are not modelled.
- `SocketContext.SocketProvider.OnConnect` requires a held socket: `connect` is only delivered
  on the socket the provider registered its handlers on. The invariant `Valid` (connected
  implies a socket is held) rests on this.
- JavaScript numbers: the unread counters are unbounded naturals, so the float precision limit
  at 2^53 is not modelled.
- Inherited object keys: on a plain object, a sender id such as `"__proto__"` or
  `"constructor"` reads an inherited property, not a missing count. The model treats every id
  as an ordinary key. Real ids are database-generated.
- Record fields other than `id`, `senderId`, `receiverId` and `isOnline` are carried without
  interpretation. The user fields are grouped in `Profile`, with `lastSeen` as an integer
  timestamp.
- `UseSocket`: the registration of the handlers (lines 55-75) is modelled only through
  `Deliverable`. It says that transport names are never "N/A" and that an upgrade arrives only
  on an open connection. The registration does not ensure the second part: the upgrade
  listener is attached once, at mount, and only while connected (lines 66-68), and nothing
  detaches it on `disconnect` (line 61 only updates state; line 73 removes it on unmount). The
  premise holds because the engine the listener sits on emits `upgrade` only while it is open,
  and a reconnect builds a new engine that has no listener.
- `UseSocket.Deliverable` allows more than the hook receives: after a reconnect no upgrade
  reaches the hook, so the transport it shows can go stale. Admitting those upgrades leaves
  `RunKeepsConsistent` a statement about a superset of the real traces.
- Unpaired surrogates: a Dafny `char` is a Unicode scalar value, so it cannot hold an unpaired
  UTF-16 surrogate, which a JavaScript string can. `JsStrings.Utf16Length`, `JsStrings.Trim`
  and string equality are modelled on well-formed strings only.
- The server (`server/src/server-cluster.ts`) is not part of this model: its clustering,
  authentication, database queries and broadcasts are not modelled. Only its announcing every
  user with `isOnline: true` (line 109) is used, and only as the premise of
  `ChatUpdates.UpsertIdempotentIff`.
- Authentication, the signup request, the auth context and the UI components are thin wrappers
  over libraries and `fetch`. They are not part of this model.
- `client/src/hooks/use-online-users.ts` and `client/src/hooks/use-chat-messages.ts` are not
  part of this model. They use a `useSocket` with a different interface than
  `use-socket.ts` provides.
- Object identity: React skips a re-render when an updater returns the very object it was
  given. Datatype values have no identity, so this is not modelled. The `UseSocket` lemmas
  `OnConnectUnchangedIff`, `OnDisconnectUnchangedIff` and `OnTransportUpgradeUnchangedIff`
  are about value equality only.
- `JsStrings.IsWhiteSpace` lists the space separators of current Unicode, with no
  engine-specific exceptions.
