# Chat server and browser client, modelled in Dafny

This project models a small WebSocket chat system. It has two halves:

- **The server** (`server.py`) keeps several pieces of state:
  - the online users, in the order they registered;
  - the user ids of returning users;
  - the message store, whose key is a one-to-one conversation key or a group id;
  - the group table and its counter.

  It handles five kinds of client frame: `register`, `send_message`,
  `mark_as_read`, `create_group` and `send_group_message`. Each handler updates
  that state and sends frames to connections. When a connection closes, its
  user goes offline.
- **The browser client** (`app.js`) keeps the logged-in user, the contact
  roster, a local copy of every conversation and the open chat. It reacts to
  seven kinds of server frame. For the login button, the text box, the image
  picker and the contact list, it sends `register`, `send_message` and
  `mark_as_read` frames.

Files:

- `wrappers.dfy` has `Option`.
- `text.dfy` has the text primitives the two languages differ on:
  - Python's `str.strip()` and JavaScript's `trim()`, with their exact whitespace sets;
  - Python measures length in code points, while JavaScript's `.length` counts UTF-16 code units;
  - Python's `sorted` orders strings by code point, while JavaScript's `sort` orders them by code unit.
- `protocol.dfy` has the frames in both directions and the stored message records.
- `server.dfy` has `class ChatServer`. Its fields are the server's module-level dictionaries and counter. There is also an `outbox` of deliveries, each naming a connection and a frame.
- `client.dfy` has `class ChatClient`. Its fields are the script's module-level variables. There is also an `outbox` of frames sent over the socket.
- `interop.dfy` has the facts about the two halves together.

Where the code and the data fields behave unusually, the model does what the code does:

- **Dictionary order.** The server lists online users in the insertion order of
  `connected_users`. The roster sent on `register_success` and the broadcast
  order both follow that order.
- **Duplicate registration.** A connection takes as its name the `username`
  of the first `register` frame it sends with a `username` key
  (`server.py:44-46`, guarded by `username is None`). It does so even when
  that registration is refused because the name is already online. When the refused connection
  closes, it logs out the holder (`server.py:59-60`). A later `register`
  frame on the same connection changes nothing about its name.
- **Padded nicknames.** The connection remembers the nickname as sent, before
  stripping. A nickname with surrounding whitespace is registered stripped. The
  unstripped name matches no online entry, so the stripped entry stays online
  after the connection closes.
- **Read receipts before any `register` frame.** The connection's name is
  `None` only until its first `register` frame with a `username` key. Until
  then, a `mark_as_read` frame with a truthy `from` raises inside `sorted` (Python cannot compare `None`
  with a string). After a refused first registration the name is set, so the
  receipt does not raise: it names that unregistered name to the peer
  (`server.py:186`, `server.py:193-197`). When a handler raises, the
  connection's loop ends and the close runs. The model returns this as
  `crashed` / `closed`.
- **Names that break a CSS selector.** The client finds a contact's list
  item with `querySelector('[data-username="<name>"]')` (`app.js:134`,
  `app.js:166`). A name such as `a"b`, which both sides accept, makes that
  selector invalid and the lookup throws, ending the handler half way. On
  `user_offline` the contact is deleted but an open chat with it stays open;
  on selecting a contact the chat opens but no read receipt goes out. The
  parser's verdict is an input of the model (`selectorThrows`).
- **`null` fields.** `data.get(key, default)` gives the default only for a
  missing key. A key present with `null` gives `None`. So:
  - a `null` `username` or group `name` makes `.strip()` raise;
  - a `null` `members` list behind a non-blank name makes `len` raise;
  - a `null` `content_type` or `timestamp` is stored and forwarded as `None`.

  In the model these fields are `Field` values (missing, `null`, or given),
  and `Server.Raises` lists every frame on which a handler raises.
- **Group members.** A group may contain `None` (a creator who never
  registered), so members are `Option<string>`.
- **Client keys for a missing user.** The client's `getChatKey` sorts `null`
  as `"null"` but joins it as `""`.
- **Keys above U+FFFF.** The two conversation keys agree on names below
  U+10000 and can differ above it.
- **The two nickname checks.** The client and the server check nicknames
  differently: different whitespace sets and different length units.
- **No deduplication.** The client appends every received message as it
  arrives. Nothing removes duplicates, and messages carry no id, send state,
  quotation or recall.

Clocks, the network and file reading are parameters. The current time is
`now`, incoming frames are method arguments, and a loaded image is `dataUrl`.

## Model

| member | source | states |
|---|---|---|
| Server.ChatKey | server.py:25-27 | definition: `'_'.join(sorted([user1, user2]))`, sorting by code point |
| Client.JsChatKey | app.js:208-210 | definition: `[user1, user2].sort().join('_')`, sorting by UTF-16 code unit, with `null` sorted as "null" and joined as "" |
| Text.IsPyWhitespace | server.py:93 | definition: the characters `str.strip()` removes |
| Text.IsJsWhitespace | app.js:374 | definition: the characters `String.prototype.trim` removes |
| Server.RegisterRejection | server.py:96-118 | definition: the first of the three refusals of `handle_register` that applies, in source order |
| Client.LoginRejection | app.js:376-384 | definition: the login button's two refusals, in source order |
| Server.Raises | server.py:37-57 | definition: the frames on which a handler raises and ends the receive loop |
| Server.MarkedRead | server.py:186-190 | definition: the conversation after the read receipt |
| Client.MarkedSent | app.js:350-354 | definition: the conversation after a `message_read` frame |
| Client.ContactsFrom | app.js:91-101 | definition: the roster `updateContactsList` builds |
| Client.WithContact | app.js:124-129 | definition: the roster after `addContact` |
| Server.Without | server.py:202-205 | definition: the online names `broadcast` sends to |
| Server.ReachableMembers | server.py:249-251 | definition: the members a group fan-out reaches |
| Server.DeliveriesTo | server.py:202-209 | definition: one delivery of the frame to each listed online name |
| Server.ChatServer.Valid | server.py:15-22 | invariant: the online order lists exactly the online names, each once, and every online name passed the nickname checks; the group table holds exactly the ids issued, each group under its own id with distinct members; every group message is stored under its group, which exists |
| Server.ChatServer.RegisterDone | server.py:95-137 | definition: the effect of a `register` frame with a given stripped nickname |
| Server.ChatServer.SendMessageDone | server.py:142-173 | definition: the effect of a `send_message` frame |
| Server.ChatServer.MarkAsReadDone | server.py:178-197 | definition: the effect of a `mark_as_read` frame |
| Server.ChatServer.CreateGroupDone | server.py:218-257 | definition: the effect of a `create_group` frame with a given stripped name |
| Server.ChatServer.GroupOpened | server.py:233-257 | definition: the success path of `create_group` |
| Server.ChatServer.SendGroupMessageDone | server.py:262-303 | definition: the effect of a `send_group_message` frame |
| Server.ChatServer.Untouched | server.py:71-88 | definition: no state changed and nothing sent |
| Server.ChatServer.Handled | server.py:71-88 | definition: the effect of any frame, by type |
| Client.ChatClient.Valid | app.js:91-129 | invariant: the current user is never in its own roster |
| Client.ChatClient.ReceivedDone | app.js:287-300 | definition: the effect of a `new_message` frame |
| Client.ChatClient.MarkedDone | app.js:345-362 | definition: the effect of a `message_read` frame |
| Client.ChatClient.Handled | app.js:50-77 | definition: the effect of any frame, by type, given whether the contact lookup throws |
| Server.ChatKeySymmetric | server.py:25-27 | both participants of a conversation get the same key, whichever order they are given in |
| Server.ChatKeyCollides | server.py:25-27 | the key is not injective: ("a_b","c") and ("a","b_c") share the key "a_b_c" |
| Server.NatToString | server.py:235 | the decimal rendering of the counter is non-empty, all digits, and has one digit exactly below 10 |
| Server.NatToStringInjective | server.py:235 | different counter values render differently |
| Server.GroupIdInjective | server.py:234-235 | different counter values give different group ids |
| Server.LaterGroupIdIsFresh | server.py:234-235 | the id from a later counter value is not among the ids already issued |
| Server.ChatKeyIsNoGroupId | server.py:25-27 | no conversation key (it has a `_` surrounded by the two names) equals `group_<n>` |
| Server.ChatKeyNeverIssued | server.py:234-235 | no conversation key is ever among the issued group ids |
| Server.RegisterTakenName | server.py:103-118 | a name of acceptable length is refused exactly when the name is online (on any connection, this one included) and the user id does not match |
| Server.AcceptedNicknameShape | server.py:93-108 | a nickname that passes the checks is 1 to 20 code points with no surrounding Python whitespace |
| Server.WithoutStep | server.py:202-205 | skipping the excluded name, one step at a time |
| Server.WithoutMembers | server.py:202-205 | the broadcast list is exactly the online users other than the excluded one, with no repeats |
| Server.ReachableMembersMembers | server.py:249-251 | the members notified are exactly those online and not excluded, each once |
| Server.ReachableMembersStep | server.py:249-251 | one step of the member loop |
| Server.DeliveriesToSnoc | server.py:249-251 | one more notified user adds one delivery to that user's connection |
| Server.DeliveriesToMembers | server.py:202-209 | every delivery carries the frame, and each listed online user gets one |
| Server.Dedup | server.py:238 | `list(set(...))`: no repeats and the same elements |
| Server.GroupMembers | server.py:237-238 | the group holds the creator and every listed member, each once, and nobody else |
| Server.MarkedReadEffect | server.py:186-190 | exactly the messages from sender to reader become read; nothing else changes |
| Server.MarkedReadIdempotent | server.py:186-190 | marking twice is marking once |
| Server.LoginKeepsSessionsValid | server.py:120-121 | registering keeps the online order in step with the online dictionary |
| Server.LogoutKeepsSessionsValid | server.py:59-60 | deleting a user keeps the online order in step with the dictionary |
| Server.NewGroupKeepsGroupsValid | server.py:233-245 | the next group id is fresh, and storing the group keeps the table holding exactly the ids issued |
| Server.AppendKeepsStoreWellFormed | server.py:153-165 | appending a message under its own key keeps the store well formed |
| Server.AddGroupKeepsStoreWellFormed | server.py:240-245 | adding a group keeps the store well formed |
| Server.MarkKeepsStoreWellFormed | server.py:185-190 | marking a conversation read keeps the store well formed |
| Server.OnlyDirectUnderChatKey | server.py:185-189 | every message stored under a conversation key is a direct message, so `msg['to']` never raises |
| Server.ChatServer.constructor | server.py:15-22 | the server starts with no users, messages or groups, and the counter at 0 |
| Server.ChatServer.Send | server.py:97-100 | one frame goes out on the given connection |
| Server.ChatServer.Broadcast | server.py:202-209 | every online user except the excluded one gets the frame, in dictionary order |
| Server.ChatServer.SendToAllBut | server.py:204-207 | the broadcast loop, against the same specification |
| Server.ChatServer.HandleRegister | server.py:91-139 | a `null` nickname raises with nothing changed; otherwise the stripped name (empty when missing) and the user id have the effect RegisterDone states |
| Server.ChatServer.CheckAndRegister | server.py:95-139 | each of the three refusals sends its error and changes nothing else; otherwise the login happens |
| Server.ChatServer.Login | server.py:120-137 | the name is online on this connection; the user id is kept; the caller gets the roster; everyone else gets `user_online` |
| Server.ChatServer.Enroll | server.py:120-122 | `connected_users[username] = ws`, a new name at the end of the order, and `user_ids` updated for a non-empty id |
| Server.ChatServer.HandleSendMessage | server.py:142-175 | with recipient, content and sender truthy, the message is stored unread under the key and forwarded to an online recipient; its content type and timestamp are the defaults when missing and `None` when `null`; otherwise nothing happens |
| Server.ChatServer.HandleMarkAsRead | server.py:178-199 | with a truthy `from` and a captured name, the conversation becomes MarkedRead and an online sender gets `message_read`; it crashes exactly on a truthy `from` with no name captured yet, and then, like on a falsy `from`, changes nothing |
| Server.ChatServer.MarkConversation | server.py:185-190 | the loop leaves the conversation equal to MarkedRead of the old one and the rest of the store unchanged |
| Server.ChatServer.HandleCreateGroup | server.py:212-259 | it crashes, changing nothing, exactly on a `null` name or a `null` member list behind a non-blank name; otherwise the stripped name and the members (defaults when missing) have the effect CreateGroupDone states |
| Server.ChatServer.CheckAndCreateGroup | server.py:218-259 | an empty name or fewer than 2 members sends its error and changes nothing else; otherwise a group opens |
| Server.ChatServer.OpenGroup | server.py:233-257 | the counter goes up by one; the group is stored under a fresh id; its online members are notified |
| Server.ChatServer.NotifyMembers | server.py:249-257 | every online, non-excluded member gets the frame once, in member order |
| Server.ChatServer.HandleSendGroupMessage | server.py:262-305 | a message to an existing group from a member is stored unread and sent to the other online members, its content type and timestamp the defaults when missing and `None` when `null`; otherwise nothing happens |
| Server.ChatServer.HandleMessage | server.py:71-88 | each frame type has its handler's effect (Handled); other types change nothing; it crashes exactly on the frames Raises lists |
| Server.ChatServer.ReceiveFrame | server.py:37-46 | the loop ends exactly on the frames Raises lists; otherwise a connection's first `register` frame gives it the `username` as sent, unstripped, even when refused |
| Server.ChatServer.Disconnect | server.py:57-66 | a remembered name that is online is deleted and broadcast offline; otherwise nothing changes |
| Server.ChatServer.Leave | server.py:59-65 | the user leaves the dictionary and the order, and the others get `user_offline` |
| Server.ChatServer.RefusedDuplicate | server.py:113-118 | registering a taken name sends `register_error` and changes nothing, yet the connection remembers the name |
| Server.ChatServer.DuplicateRegisterEvictsHolder | server.py:44-60 | closing that refused connection logs the holder out |
| Server.ChatServer.PaddedNameOutlivesConnection | server.py:44-60 | a name sent with leading whitespace registers stripped and stays online after its connection closes |
| Server.ChatServer.NullGroupNameLogsOut | server.py:37-66 | a `create_group` frame with a `null` name creates nothing, and the close that follows logs the sender out |
| Protocol.ForwardedRoundTrip | server.py:170-173 | `**message` loses nothing: the stored message is recovered from the forwarded frame, and every frame carrying a message is its forwarding |
| Protocol.GetDefaultOnlyAddsDefault | server.py:144-147 | `data.get(key, default)` differs from `data.get(key)` only on a missing key, and gives `None` exactly for `null` |
| Protocol.Field | server.py:93 | definition: a JSON key that is missing, `null`, or given |
| Protocol.GetDefault | server.py:146-147 | definition: `data.get(key, default)` |
| Protocol.Get | server.py:45 | definition: `data.get(key)` |
| Server.GroupId | server.py:235 | definition: `f'group_{group_counter}'` |
| Text.PyStrip | server.py:93 | definition: `str.strip()` |
| Text.JsTrim | app.js:374 | definition: `String.prototype.trim()` |
| Text.JsLength | app.js:381 | definition: `.length`, counting UTF-16 code units |
| Text.TrimStart | server.py:93 | what is left is a suffix of the input |
| Text.TrimStartShape | server.py:93 | only leading whitespace is removed, and the result does not start with whitespace |
| Text.TrimEnd | server.py:93 | what is left is a prefix of the input |
| Text.TrimEndShape | server.py:93 | only trailing whitespace is removed, and the result does not end with whitespace |
| Text.StripEnds | server.py:93 | a stripped string neither starts nor ends with whitespace |
| Text.StripUnchanged | app.js:374 | a string without surrounding whitespace strips to itself |
| Text.StripIdempotent | app.js:374 | stripping twice is stripping once |
| Text.CodeUnits | app.js:381 | one code unit below U+10000, a surrogate pair above |
| Text.JsLengthCountsAstralTwice | app.js:381 | `.length` lies between the code point count and twice it, and equals it below U+10000 |
| Text.CodeUnitsInjective | app.js:209 | a character's code units determine it |
| Text.Utf16Injective | app.js:209 | strings with the same code units are equal |
| Text.CodePointsInjective | server.py:27 | strings with the same code points are equal |
| Text.LexLessTotal | server.py:27 | two different unit sequences are ordered one way round |
| Text.LexLessAsymmetric | server.py:27 | no two unit sequences are ordered both ways round |
| Client.JsChatKeySymmetric | app.js:208-210 | both orders give one key, except exactly for `null` against the name "null" |
| Client.JsChatKeyNamed | app.js:208-210 | for two logged-in names the key is the same both ways round |
| Client.ContactsFromMembers | app.js:91-101 | the roster is exactly the listed users other than the current one |
| Client.ContactsFromStep | app.js:95-100 | one step of the roster loop |
| Client.WithContactProperties | app.js:124-129 | `user_online` adds the user unless it is the current one, never adds the current user, and is idempotent |
| Client.MarkedSentEffect | app.js:350-354 | exactly the messages sent to that peer become read, and no other field changes |
| Client.MarkedSentIdempotent | app.js:350-354 | marking twice is marking once |
| Client.LoginAccepted | app.js:374-384 | a nickname is sent exactly when it is 1 to 20 code units long; then it is 1 to 20 characters with no surrounding whitespace |
| Client.ChatClient.constructor | app.js:1-6 | the client starts logged out with no contacts, messages or open chat |
| Client.ChatClient.HandleMessage | app.js:50-77 | each of the seven frame types has its effect (Handled); other types change nothing; the current user never appears as a contact |
| Client.ChatClient.OnRegisterSuccess | app.js:80-88 | the accepted name becomes the current user and the roster is rebuilt without it |
| Client.ChatClient.UpdateContactsList | app.js:91-101 | the roster becomes exactly the listed users other than the current one |
| Client.ChatClient.AddContact | app.js:124-129 | `user_online` adds that user unless it is the current one |
| Client.ChatClient.RemoveContact | app.js:132-155 | the user leaves the roster; the open chat closes exactly when it was with that user and the lookup did not throw |
| Client.ChatClient.ReceiveMessage | app.js:287-300 | the message is appended under the key with its sender, and a read receipt goes out only when that chat is open |
| Client.ChatClient.MarkMessageAsRead | app.js:345-362 | the conversation with that user becomes MarkedSent, and nothing else changes |
| Client.ChatClient.Login | app.js:373-408 | an empty or too long trimmed nickname shows its error and sends nothing; otherwise the button is disabled and `register` is sent once |
| Client.ChatClient.SelectContact | app.js:158-181 | the chat opens; a `mark_as_read` for that contact goes out exactly when the lookup did not throw |
| Client.ChatClient.BrokenSelectorKeepsChatOpen | app.js:132-181 | when a contact whose name breaks the selector is opened and goes offline, it leaves the roster but its chat stays open, and no frame goes out |
| Client.ChatClient.SendMessage | app.js:213-247 | without trimmed text or an open chat nothing happens; otherwise one `send_message` frame goes out and one unread copy is kept |
| Client.ChatClient.OnImageLoaded | app.js:250-284 | `SendImage` starts the read only when a chat is open; on load, the data URL is posted as an image to the chat open by then (possibly none) and kept unread under that key |
| Client.ChatClient.Post | app.js:218-238 | the frame goes out and the conversation gains exactly one unread copy from the current user |
| Interop.Utf16OfBmp | app.js:209 | below U+10000, code units are code points |
| Interop.ChatKeysAgree | app.js:208-210 | for names below U+10000, the client's key equals the server's `get_chat_key` |
| Interop.ChatKeysDiffer | app.js:208-210 | for U+10000 and U+FF61, the client keys "\U{10000}_｡" while the server keys "｡_\U{10000}" |
| Interop.ClientNicknameFitsServer | app.js:381-384 | a nickname the client sends is never too long for the server |
| Interop.NotTooLong | server.py:103-108 | a name of at most 20 code points is not refused as too long |
| Interop.ClientSendsOneChar | app.js:374-384 | a single character that is not JavaScript whitespace passes the client's checks |
| Interop.ClientSendsFileSeparator | app.js:374-384 | the client sends U+001C as a nickname |
| Interop.ServerBlanksFileSeparator | server.py:93-101 | the server strips U+001C and refuses the nickname as empty |

## Left out

- The WebSocket transport (`connectWebSocket`, reconnecting after 3 seconds, polling with `setInterval` until the socket opens): frames in and out are method arguments and the `outbox`.
- The DOM: rendering contacts and messages, `displayMessage`, `loadChatHistory`, `formatTime`, focus, and enabling or disabling the input box. Only `loginBtn.disabled` and the error text are state here.
- `FileReader` itself: `SendImage` decides whether reading starts, and `OnImageLoaded` is its `onload` with the file's data URL as input. The picker's MIME check (`app.js:424-430`) is not modelled.
- JSON decoding and the `error` frame for text that is not JSON (`server.py:48-52`): frames arrive already decoded.
- The aiohttp application, the index and static file handlers, and CORS (`server.py:308-353`).
- Concurrency between connections: each handler runs to completion. A send that fails inside `broadcast` is caught and skipped, and the model has no failing send.
- The server's `print` calls, and console logging in the client.
- Python integer and JavaScript number limits: timestamps and the group counter are unbounded integers.
- The test files (`test_pdf_*.py`, `test_race_condition*.py`), which exercise a different service.
- Server.Dedup: `list(set(...))` has no defined order in Python. The model keeps first occurrences, and only the elements and their distinctness are stated.
- Client.ChatClient.SendMessage: the socket's state is not modelled. While the socket is still connecting (during a reconnect), `ws.send` throws before the local copy is pushed (`app.js:226-233`); the model always sends and keeps the copy.
- Client.ChatClient.OnImageLoaded: the same socket-state gap. While the socket is connecting, `ws.send` throws before the push (`app.js:263-274`); the model always keeps the copy.
- Client.ChatClient.Post: the same socket-state gap. While the socket is connecting, the send throws and no copy is kept; the model always sends and keeps it.
- Client.ChatClient.SelectContact: the same socket-state gap. While the socket is connecting, `sendReadReceipt` throws after the chat is opened (`app.js:337-341`); the model records the receipt as sent.
- The CSS selector parser: whether `querySelector` throws on `[data-username="<name>"]` is an input (`selectorThrows`) of RemoveContact, SelectContact and the client's HandleMessage, not computed from the name.
- JSON values of an unexpected type (a number as a name, a string as the member list): every field has the type the client sends.
