# Websocket Messenger relay — a Dafny model

This project models the real-time relay of the Websocket Messenger server
(`websocket/websocket.go`). The server keeps one process-wide table,
`connectionTable`, from username to that user's live websocket connection.
`Create` runs one connection end to end:

1. send the "Websocket Open" notice;
2. read one token and check it;
3. close the connection on failure, or register it and send "Websocket Authenticated";
4. loop on receives, relaying each message verbatim to the other online members of its conversation.

`SendWebsocketMessage` pushes a server-built notification to the same set of members.

Modules:

- `Wrappers`: `Option`.
- `Transport`: bytes, connection handles, frames, and the effects the server has on connections. An effect is a write (with whether it failed) or a close.
- `ObjectIds`: twelve-byte conversation ids. `Hex` renders one as lower-case hex, the way a notification shows it. `FromHex` parses the id a client sends: exactly 24 hex digits of either case, otherwise a failure, which the handler turns into the all-zero id.
- `Dispatch`: the fan-out rule both relay loops follow, as functions over the member list and the table (`Targets`, `Fanout`), with the lemmas that say who gets what.
- `Websocket`: the class `Hub`. Its field `table` is `connectionTable`, `nextConn` hands out new connections, and `wire` records every transport effect in order. Its methods are the handshake, one turn of the receive loop, the relay loop, the notification relay, the receive loop, and `Create` as a whole. Each method's `ensures` gives the new table and the new `wire` in terms of the old ones.
- `Scenarios`: concrete runs, including interleavings of two sessions of the same user.

The token check, the JSON decoder and the conversation store are parameters:

- `verify: string -> AuthResult` gives the `username` claim and whether an error was reported;
- `decode: Bytes -> Typing` is total, because a decode error is only logged and the handler goes on with whatever fields were filled;
- `Directory = map<ObjectId, seq<string>>` maps a conversation to its `Members`.

Which writes fail is an input set of connections, `fails`.

## Code versus design

The model follows the code where the code does something other than what a connection registry evidently should do. Each bullet says what the code does and what the intended behaviour would be. Where a scenario or lemma shows the difference, it is named.

- Unregistering deletes the entry by username, not by connection (websocket/websocket.go:93-96). An old session of a user who has reconnected therefore removes the new connection's entry (`Scenarios.StaleTeardown`). Intended: unregister would remove the entry only while it still holds this session's connection.
- The loop breaks on a "closed" error only when the entry is still there (websocket/websocket.go:94-98). If the entry is already gone, the session stays active and reads again. In `Scenarios.StaleTeardown`, the newer session survives its own close. Intended: a "closed" error would always end the session.
- A receive error that does not mention "closed" is treated as a message (websocket/websocket.go:91, 100). `Scenarios.OtherReadError` shows this for the text "EOF": the empty data names no conversation, so the handler returns. The entry stays in the table and the connection stays open. Intended: a lost connection would be unregistered whatever its error text, and a read error would not be decoded as a message.
- A failed conversation lookup returns from `Create` (websocket/websocket.go:121-125), and the handler neither unregisters nor closes. Intended: a failed lookup would drop the message and keep reading.
- The sender the relay skips is the message's own `User` field (websocket/websocket.go:131), not the authenticated username. Nothing checks that the sender is a member (`Websocket.SpoofedSenderIsEchoed`). Intended: the relay would skip the session's authenticated user and accept messages only from members of the conversation.

## Model

| member | source | states |
|---|---|---|
| `ObjectIds.FromHexOfHex` | websocket/websocket.go:172 | the hex a notification carries for a conversation parses (as at line 115) back to that same conversation id |
| `ObjectIds.HexInjective` | websocket/websocket.go:172 | distinct conversation ids are never rendered as the same notification text |
| `Dispatch.FanoutAppend` | websocket/websocket.go:130-142 | the writes for a member list split in two are the writes for the first part followed by the writes for the second part |
| `Dispatch.FanoutFollowsTargets` | websocket/websocket.go:130-142 | the k-th write goes to the table's connection for the k-th eligible member and carries the frame unchanged (the raw bytes verbatim); eligible means a member other than the sender that is in the table |
| `Dispatch.TargetsCount` | websocket/websocket.go:130-134 | an eligible member is written to once per occurrence in `Members`; the sender and unregistered members never are |
| `Dispatch.TargetsMembership` | websocket/websocket.go:131-134 | a name is a recipient exactly when it is in `Members`, is not the sender and is in the table |
| `Dispatch.Recipients` | websocket/websocket.go:128-142 | a connection is written to if and only if it is the table entry of some member other than the sender |
| `Dispatch.SenderReceivesNothing` | websocket/websocket.go:131 | when no connection is shared between users, the sender's own connection is never written to |
| `Dispatch.FailureIsolation` | websocket/websocket.go:136-139 | the connections written to do not depend on which writes fail: a failure is only logged and the loop goes on |
| `Dispatch.NobodyOnline` | websocket/websocket.go:133-134 | when no member other than the sender is in the table, the relay writes nothing and raises nothing |
| `Dispatch.FanoutFrames` | websocket/websocket.go:136 | every write of one relay carries the one frame it was given |
| `Websocket.ContainsOccurrence` | websocket/websocket.go:91 | the error test `strings.Contains` holds exactly when "closed" occurs at some position of the error text |
| `Websocket.OwnMessagesNotEchoed` | websocket/websocket.go:128-142 | over any run of receives whose messages name the session's own user as `User`, nothing is written back to that user's connection |
| `Websocket.SpoofedSenderIsEchoed` | websocket/websocket.go:101-107 | when an active session whose entry is its own connection sends a message whose `User` names someone else, to a conversation its user belongs to, that receive's relay writes to the session's own connection |
| `Websocket.NotificationRecipients` | websocket/websocket.go:154-187 | a notification reaches a connection if and only if the conversation is found and the connection is the entry of a member other than the stored message's sender; an unknown conversation yields no writes |
| `Websocket.NotificationShape` | websocket/websocket.go:169-181 | every notification written is `{Message: messageType, ConversationId: hex(id)}`, and that id parses back to the conversation |
| `Websocket.ProgressStep` | websocket/websocket.go:87-143 | one receive keeps the loop's account: a "closed" error disconnects and removes the entry; a missing conversation ends the handler and keeps the entry; anything else keeps the session active with its entry in place |
| `Websocket.Hub.constructor` | websocket/websocket.go:20 | the table starts empty |
| `Websocket.Hub.Handshake` | websocket/websocket.go:26-85 | a fresh connection gets the open notice; a token with an error or an empty username closes it and leaves the table exactly as it was; otherwise the table maps that username to this connection, replacing any earlier entry, with every other key unchanged, and the authenticated notice follows |
| `Websocket.Hub.Receive` | websocket/websocket.go:88-143 | one turn of the loop (`Turn`): a "closed" error removes the username's entry whatever connection it holds and ends the session, or changes nothing when the entry is gone; any other receive leaves the table unchanged and relays the raw bytes, or ends the handler when the conversation is missing |
| `Websocket.Hub.Relay` | websocket/websocket.go:128-142 | the writes appended are exactly `Fanout` of the members, the sender and the table; the table is not modified |
| `Websocket.Hub.SendWebsocketMessage` | websocket/websocket.go:148-189 | the writes appended are the notification fan-out, or none when the conversation lookup fails; the table is not modified |
| `Websocket.Hub.ReceiveLoop` | websocket/websocket.go:87-144 | the loop runs until a "closed" error or a missing conversation ends it, or the input runs out; every earlier receive continued; the writes are the relays of the receives consumed |
| `Websocket.Hub.Create` | websocket/websocket.go:22-146 | a rejected token consumes nothing and leaves the table unchanged; an accepted one registers the connection; the table then keeps that entry unless a "closed" error removed it; the writes are the two notices followed by the relays of the receives consumed |
| `Scenarios.RelayToOtherMember` | websocket/websocket.go:128-142 | alice's message to a conversation with bob is written, byte for byte, to bob's connection only, which is not alice's |
| `Scenarios.ForgedToken` | websocket/websocket.go:58-62 | a well-formed token with a bad signature is rejected even though it names a user: the table stays empty, and the connection gets the open notice and is then closed |
| `Scenarios.Reconnect` | websocket/websocket.go:65-67 | after alice reconnects, a notification from bob reaches only her second connection |
| `Scenarios.StaleTeardown` | websocket/websocket.go:91-99 | after alice reconnects, the table maps her to the newer connection; the older session's close then removes that entry although it holds the other connection, and the newer session survives its own close |
| `Scenarios.OtherReadError` | websocket/websocket.go:91-125 | a read error without "closed" ends the handler through the failed lookup, with the entry still in the table |

## Left out

- Websocket upgrade and framing (`ws.UpgradeHTTP`, `wsutil.ReadClientData`, `wsutil.WriteServerMessage`): a connection is a number handed out by the hub, and reads and writes are inputs and recorded effects. An upgrade error (logged, not handled) is not modelled.
- JSON encoding and decoding: notices and notifications are structured frames, and decoding is the parameter `decode`.
- `checkJwt` (websocket/websocket.go:191-208): JWT parsing, HMAC checking and the environment secret are the parameter `verify`. Its panic on a missing or non-string `username` claim (line 206) is not modelled.
- Websocket.Hub.Handshake: does not model the panic on a malformed token. A token that is not three dot-separated parts leaves `jwt.Parse` with no token, and line 201 reads its claims through that nil pointer; this includes the empty token left by a failed read at lines 50-53. The handler then stops before `conn.Close()` at line 59, and the connection stays open and unregistered. Because `verify` is total, the model records a `Close` for every rejected token, including these.
- Concurrency: the mutex is local to each call and protects nothing. Each receive turn, handshake and relay is one atomic step. Interleavings are written out in `Scenarios` at that grain.
- Write failures: which connections fail is one set per call, so a connection that fails once fails for the rest of that call.
- `Websocket.Hub.ReceiveLoop`: requires the session's entry to be present at the start, as it is right after the handshake. Interleaved sessions are stepped with `Receive`.
- `Websocket.Hub.Create`: the unbounded receive loop is driven by a finite list of receives. A session still active when the list runs out is one waiting for input.
- `db/conversation.go` (`Create`, `GetConversations`, `MarkConversationUnseen`, `MarkConversationSeen`): persistence outside the relay. Only the `Members` list that `GetConversationById` returns is used, as `Directory`.
- Logging (`glog`).
