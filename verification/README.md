# P2P video chat: room server, browser signalling, file transfer, chat and terminal client

This project models, in Dafny, the stateful core of a peer-to-peer video chat
system and proves properties of it. The system has three parts:

- **The room server** (`server/server.js`) keeps a table of rooms. Each room has a host, the participants in join order and a message log. Socket.io events create, join, query, relay into and leave rooms.
- **The browser client** (`public/js`) has three parts:
  - `WebRTCConnection` keeps one peer connection per remote user and drives the offer/answer/ICE exchange.
  - `FileSharing` sends a file as base64 slices of 16384 bytes and reassembles incoming ones.
  - `ChatManager` keeps the room's message list and drops blank sends.
- **The terminal client** (`p2p.py`) dispatches '/' commands through a command table and moves a cursor over the input history.

Each JavaScript object whose fields its handlers update in place is a Dafny
`class`: `RoomServer`, `WebRTCConnection`, `FileSharing`, `ChatManager` and
`ChatApp`. Each handler is a `method`. Its `modifies` clause is the whole
object, or a single field when that is all the handler may touch. Its
`ensures` clauses state the new value of every field it may change. Whatever
the code hands to the outside world is appended to an `outbox` sequence
field:

- socket emissions;
- calls made on opaque browser objects;
- user-interface callbacks.

The server's `rooms` and the client's `fileChunks` are plain JavaScript
objects, and their handlers guard on the truthiness of `obj[key]`.
`Keys.Get` models that read. A key the object holds gives its entry. Any
other key gives `undefined`, except the names every object inherits from
`Object.prototype` (`constructor`, `toString`, `__proto__`, ...). Those give
a truthy value that is no entry, so they pass the guard. A handler that then
fails with a TypeError ends with the outcome `Threw`, keeping what it did
before the failing statement.

The pure parts are datatypes and functions with lemmas:

- a concrete base64 codec, following section 4 of RFC 4648 for encoding and the forgiving-base64 decode of the WHATWG Infra standard for `atob`;
- 16384-byte slicing;
- JavaScript `trim()`;
- the terminal command parser.

A handler that loops is proved against a specification function:

- the server's disconnect loop against the order-free description `AfterDisconnect`;
- the 'room-users' loop against `Connected` and `Offers`;
- the send loop against `SendEmits`;
- the reassembly loop against `Assembled`.

The lemmas then state what those functions mean.

Files:

- `wrappers.dfy` defines `Option`.
- `protocol.dfy` defines ids, `Message` and `FileInfo`.
- `keys.dfy` holds the plain-object property read and the `for ... in` key enumeration.
- `base64.dfy` and `chunking.dfy` are the codec and the slicing.
- `server.dfy`, `webrtc.dfy`, `filesharing.dfy`, `chat.dfy` and `terminal.dfy` hold one module per source file.

## Model

| member | source | states |
|---|---|---|
| Keys.KeyOrder | server/server.js:176 | a `for ... in` loop visits every key of the object exactly once, in some order |
| Keys.Get | server/server.js:51 | a read gives the object's own entry, carrying `obj[key]`, exactly when the object holds the key; an inherited member exactly when the key is not held but is an inherited name; and `undefined` exactly when it is neither |
| Keys.ElemsMembers | server/server.js:176 | the set of keys a visiting order covers is exactly the keys it lists |
| Server.RoomServer.constructor | server/server.js:27 | the table starts with no rooms and nothing sent |
| Server.RoomServer.CreateRoom | server/server.js:35-47 | exactly one room is added, under the fresh id: host and sole participant are the creator, the log is empty; every other room is unchanged; 'room-created' with the id goes back to the caller only |
| Server.RoomServer.JoinRoom | server/server.js:50-62 | an unknown id changes no room and answers only the error 'Room does not exist'; an inherited name passes the guard and throws at `participants.push`, changing no room and sending nothing; an existing room gets the joiner appended at the end without de-duplication, other rooms are unchanged, the joiner gets 'room-joined' and the other members get 'user-connected' |
| Server.RoomServer.GetUsers | server/server.js:65-71 | the reply to the caller is the room's participant list in join order with every occurrence of the caller removed; an unknown room gets no reply; an inherited name throws at `participants.filter` and sends nothing |
| Server.RoomServer.RelayOffer | server/server.js:74-79 | the SDP goes to the target's address only, unchanged, with the caller's id as sender |
| Server.RoomServer.RelayAnswer | server/server.js:81-86 | the SDP goes to the target's address only, unchanged, with the caller's id as sender |
| Server.RoomServer.RelayIceCandidate | server/server.js:88-93 | the candidate goes to the target's address only, unchanged, with the caller's id as sender |
| Server.RoomServer.SendMessage | server/server.js:96-108 | an existing room's log gains exactly one message from the caller, which is delivered to the whole room, caller included; an unknown room changes nothing and sends nothing; an inherited name throws at `messages.push` with nothing logged or sent |
| Server.RoomServer.RelayFileStart | server/server.js:111-131 | an existing room gets the file info relayed to its other members, then one system message about the sharing logged and delivered to all; an unknown room changes nothing; an inherited name gets the file info relayed, then throws at `messages.push` with nothing logged |
| Server.RoomServer.RelayFileChunk | server/server.js:133-149 | fileId, chunk, chunkIndex and totalChunks are relayed unchanged to the other members whenever the guard passes (an existing room or an inherited name), and nothing is sent otherwise |
| Server.RoomServer.RelayFileComplete | server/server.js:151-160 | the completion is relayed to the other members whenever the guard passes (an existing room or an inherited name), and nothing is sent otherwise |
| Server.RoomServer.RelayFileReject | server/server.js:162-170 | the rejection and its reason go to the target's address only, with the caller's id as sender |
| Server.RoomServer.Disconnect | server/server.js:173-203 | the new table is `AfterDisconnect` of the old one, whatever order the rooms are visited in; the returned order lists each old room once; the deliveries are one 'user-disconnected' and one system message per room that held the id, in visiting order; no room is ever left empty |
| Server.RoomServer.VisitRooms | server/server.js:176-202 | the loop over distinct rooms yields the fold `VisitAll` and the deliveries of the visited rooms in order |
| Server.RoomServer.VisitRoom | server/server.js:177-201 | one iteration: a room without the id is untouched; otherwise every copy of the id is filtered out, one system message is logged and broadcast, and the room is deleted when no participant remains |
| Server.Without | server/server.js:68 | the filter result is never longer than its input |
| Server.WithoutMembers | server/server.js:68 | the filter keeps exactly the ids other than the caller's |
| Server.WithoutAppend | server/server.js:181 | the filter keeps join order: filtering a concatenation filters each part |
| Server.WithoutAbsent | server/server.js:179-181 | a list not containing the id is left unchanged |
| Server.JoinThenGetUsers | server/server.js:53 | after a join, get-users lists what it listed before followed by the joiner, unless the joiner is the asker |
| Server.VisitAllUnvisited | server/server.js:176-177 | a room the loop has not reached yet is still as it was |
| Server.VisitAllIsDisconnected | server/server.js:176-202 | visiting distinct rooms in any order gives the order-free result `Disconnected` over the visited set |
| Server.DisconnectedStep | server/server.js:179-200 | visiting one more room changes that room alone: it is left, deleted when emptied, or kept |
| Server.DisconnectEmitsAppend | server/server.js:184-194 | the deliveries of one more visited room follow those already made |
| Server.DisconnectedNonEmpty | server/server.js:197-199 | disconnecting never leaves an empty room in the table |
| Server.DisconnectRemovesId | server/server.js:179-199 | after disconnect the id is in no room, and every deleted room was one the id emptied |
| Server.DisconnectUnaffected | server/server.js:179 | a room not holding the id keeps its participants and its log |
| Server.DisconnectAffected | server/server.js:181-193 | a room that held the id and keeps members loses every copy of the id and gains exactly one system message |
| Server.DisconnectInNoRoom | server/server.js:176-202 | disconnecting an id that is in no room changes nothing and sends nothing |
| Server.DisconnectNoEmits | server/server.js:184-194 | an id in no room produces no deliveries in any visiting order |
| Server.DisconnectIdempotent | server/server.js:173-203 | a second disconnect of the same id changes nothing more |
| WebRTC.WebRTCConnection.constructor | public/js/webrtc.js:2-22 | no connections, no stream, no room, no user and no callback |
| WebRTC.WebRTCConnection.Initialize | public/js/webrtc.js:24-47 | room and user id are recorded; when media is refused the error propagates and nothing is emitted; otherwise the stream is kept and 'get-users' is emitted for the room; the table is untouched |
| WebRTC.WebRTCConnection.SetOnUserDisconnected | public/js/webrtc.js:205-207 | the disconnect callback is replaced |
| WebRTC.WebRTCConnection.CreatePeerConnection | public/js/webrtc.js:129-179 | it fails exactly when there is no local stream, and then stores nothing; otherwise a fresh connection gets the local tracks and is stored under the user, replacing any earlier entry, and no other entry changes |
| WebRTC.WebRTCConnection.CreateOffer | public/js/webrtc.js:181-199 | it fails exactly when the user has no entry; otherwise that entry's offer becomes its local description and one offer is emitted to the user |
| WebRTC.WebRTCConnection.OnRoomUsers | public/js/webrtc.js:51-59 | with a stream, every listed id except the local one gets, in list order, a new connection and one offer, and the table is `Connected` of the old one; without a stream the handler stops at the first attempt having changed nothing |
| WebRTC.WebRTCConnection.ConnectNext | public/js/webrtc.js:53-57 | one loop iteration extends the connected prefix of the targets by one user, or fails with nothing changed |
| WebRTC.WebRTCConnection.OnUserConnected | public/js/webrtc.js:62-66 | the newcomer gets a fresh connection and exactly one offer, or nothing changes when there is no stream |
| WebRTC.WebRTCConnection.Connect | public/js/webrtc.js:64-65 | `createPeerConnection` then `createOffer`, failing exactly when the first throws |
| WebRTC.WebRTCConnection.OnOffer | public/js/webrtc.js:69-87 | the sender's entry is reused, or created when missing; the offer becomes its remote description; exactly one answer goes back to the sender; other entries are untouched |
| WebRTC.WebRTCConnection.OnAnswer | public/js/webrtc.js:90-98 | the answer is applied to the sender's entry; a sender without one is ignored |
| WebRTC.WebRTCConnection.OnIceCandidate | public/js/webrtc.js:101-112 | the candidate is added to the sender's entry; a sender without one is ignored |
| WebRTC.WebRTCConnection.OnUserDisconnected | public/js/webrtc.js:115-126 | that user's entry alone is closed and deleted, other entries are unchanged, and the callback runs exactly when one is set |
| WebRTC.WebRTCConnection.OnLocalIceCandidate | public/js/webrtc.js:139-146 | a gathered candidate is sent to the user the connection was made for; the null end-of-candidates event sends nothing |
| WebRTC.WebRTCConnection.Disconnect | public/js/webrtc.js:310-323 | the returned visiting order lists every key of the table exactly once, every connection gets one `close()` in that order, the tracks are stopped, and the table and the stream are cleared |
| WebRTC.WebRTCConnection.CloseAll | public/js/webrtc.js:312-314 | the loop issues `close()` on each listed entry, in order |
| WebRTC.OthersMembers | public/js/webrtc.js:53-54 | the local id is never connected to by 'room-users'; every other listed id is |
| WebRTC.ConnectedEntries | public/js/webrtc.js:53-57 | after 'room-users' the table holds the old entries plus one per target; each target's entry is its own, numbered within this call's connections; other users' entries are untouched |
| WebRTC.ConnectedLastWins | public/js/webrtc.js:53-57 | a target listed more than once keeps the connection made at its last place in the list |
| WebRTC.OffersInOrder | public/js/webrtc.js:53-57 | the k-th offer goes to the k-th target and carries that target's new connection |
| WebRTC.ClosesEvery | public/js/webrtc.js:312-314 | disconnect makes one `close()` per visited key, the j-th on the j-th key's connection; over distinct keys of a table whose entries belong to their keys, no connection is closed twice |
| FileSharing.FileSharing.constructor | public/js/filesharing.js:2-15 | no transfers and nothing sent |
| FileSharing.FileSharing.PrepareFileReceive | public/js/filesharing.js:57-89 | a declared size above 100 MiB is answered with one 'file-reject' ('File too large') to the sender and no entry; otherwise (a negative size included) a fresh entry with `ExpectedChunks(size)` expected chunks replaces any entry under the id (an inherited name included), and the start callback, when one is set, is given the metadata |
| FileSharing.ExpectedChunks | public/js/filesharing.js:75 | `Math.ceil(fileSize / 16384)` for any integer size: the least e with 16384e >= size, which is zero or negative for a negative size |
| FileSharing.SparseArray.Store | public/js/filesharing.js:99 | an array-index key fills that slot and raises the length past it; any other key leaves the array, its length and its slots unchanged |
| FileSharing.FileSharing.ReceiveFileChunk | public/js/filesharing.js:92-115 | an unknown id is ignored; an inherited name throws at `chunks[chunkIndex]` with nothing changed; otherwise the count goes up by one even for a repeated index, the total is replaced by the chunk's, and the chunk is stored at its index when that is an array index (0 to 2^32-2); any other number leaves the chunk array as it was |
| FileSharing.FileSharing.CompleteFileReceive | public/js/filesharing.js:118-175 | nothing happens for an unknown id or while fewer chunks were counted than the total; an inherited name passes both checks, throws inside the `try`, and the callback is given 'Failed to process received file' with nothing changed; otherwise the entry is marked completed and the callback gets the reassembled bytes |
| FileSharing.FileSharing.OnFileReject | public/js/filesharing.js:42-53 | a 'file-reject' changes no transfer and sends nothing; the complete callback, when set, is given a failure for that file id carrying the receiver's reason |
| FileSharing.FileSharing.SendFile | public/js/filesharing.js:188-260 | a file above 100 MiB is refused before anything is emitted; otherwise the emissions are exactly `SendEmits`: 'file-start', the chunks, 'file-complete' |
| FileSharing.FileSharing.EmitChunks | public/js/filesharing.js:216-245 | the loop emits one 'file-chunk' per slice, indices 0 to total-1 in order |
| FileSharing.AssembleChunks | public/js/filesharing.js:134-144 | the blob holds every slot from 0 to length-1 in index order; a refused chunk adds no bytes and a hole adds "undefined" |
| FileSharing.Prepared | public/js/filesharing.js:71-77 | the fresh entry's chunk array is a well-formed empty sparse array |
| FileSharing.WithChunk | public/js/filesharing.js:99-101 | storing a chunk keeps the sparse array well formed |
| FileSharing.ChunkEmits | public/js/filesharing.js:216-231 | k loop iterations emit exactly k messages |
| FileSharing.SendEmitsShape | public/js/filesharing.js:207-253 | 'file-start' comes first and 'file-complete' last; between them come exactly ceil(size/16384) chunks numbered 0, 1, ... in order, all carrying the same total |
| FileSharing.SendRoundTrip | public/js/filesharing.js:213-231 | decoding the emitted chunk payloads and joining them in emission order gives back the file |
| FileSharing.ReceiveInOrder | public/js/filesharing.js:99-101 | any sequence of arrivals keeps the chunk array well formed |
| FileSharing.ReceiveInOrderState | public/js/filesharing.js:99-101 | for a file of at most 100 MiB, after a sequence of arrivals the count is the number of arrivals, the total is the file's chunk count, exactly the arrived indices are filled, and each holds the encoding of its slice |
| FileSharing.AssembledSlices | public/js/filesharing.js:134-144 | when slots 0..k-1 hold the encodings of the first k slices, reassembly gives the first k slices joined |
| FileSharing.ReceiveAnyOrderRoundTrip | public/js/filesharing.js:92-175 | a receiver that accepted the announcement of a file (at most 100 MiB) and gets every chunk of it once, in any order, passes the count check and reassembles exactly the bytes sent |
| FileSharing.InOrderRoundTrip | public/js/filesharing.js:92-175 | in-order arrival reassembles any file of at most 100 MiB |
| FileSharing.ArrivalOrderIrrelevant | public/js/filesharing.js:99 | for a file of at most 100 MiB, any permuted arrival reassembles the same bytes as in-order arrival |
| FileSharing.DuplicateChunkInflatesCount | public/js/filesharing.js:100 | a chunk received twice is counted twice, so with two expected chunks the count check passes while the second slot was never filled |
| FileSharing.AcceptedChunkCount | public/js/filesharing.js:61-75 | a file of at most 100 MiB has at most 6400 chunks, so every chunk number is an array index |
| FileSharing.NegativeIndexCompletesEmpty | public/js/filesharing.js:98-130 | a chunk numbered -1 is counted but not stored, so a one-chunk file passes the count check and reassembles to nothing |
| FileSharing.NegativeSizeCompletesAtOnce | public/js/filesharing.js:61-77 | a negative declared size passes the size check and expects zero or fewer chunks, so completion passes the count check before any chunk and yields an empty file |
| FileSharing.Indices | public/js/filesharing.js:216 | the in-order arrival lists 0 .. n-1 |
| Chunking.CeilDiv | public/js/filesharing.js:75 | `Math.ceil(n / d)`: the least q with q*d >= n |
| Chunking.SliceSizes | public/js/filesharing.js:217-219 | every slice is non-empty and at most 16384 bytes; all but the last are exactly 16384 and the last holds the remainder |
| Chunking.ConcatPrefix | public/js/filesharing.js:216-219 | the first k slices joined are the file's first min(16384k, size) bytes |
| Chunking.SplitConcat | public/js/filesharing.js:213-219 | there are ceil(size/16384) slices, and joined in order they give back the file |
| Chunking.FortyThousandBytes | public/js/filesharing.js:213-219 | a 40000-byte file goes out as slices of 16384, 16384 and 7232 bytes |
| Chunking.EmptyFileNoSlices | public/js/filesharing.js:213-216 | an empty file produces no chunk at all |
| Base64.Base64ToArrayBuffer | public/js/filesharing.js:178-185 | the byte array filled from `atob`'s result is exactly the forgiving-base64 decoding; a string `atob` rejects throws |
| Base64.Atob | public/js/filesharing.js:179 | `atob` succeeds exactly when forgiving-base64 decoding does, and yields one character per decoded byte |
| Base64.ReadChunkAsBase64 | public/js/filesharing.js:263-276 | the text after the first comma of the slice's data URL is its RFC 4648 base64 encoding |
| Base64.ReadChunkIsEncode | public/js/filesharing.js:268 | `split(',')[1]` of a base64 data URL is the encoded payload |
| Base64.DecodeEncode | public/js/filesharing.js:136 | decoding what the sender encoded gives back the bytes |
| Base64.EncodeShape | public/js/filesharing.js:222 | an encoding has 4*ceil(n/3) characters, each from the alphabet or '=' |
| Base64.EncodeSextet | public/js/filesharing.js:222 | each 6-bit value maps to an alphabet character that decodes back to it |
| Base64.FromToSextets | public/js/filesharing.js:179 | regrouping the 6-bit groups of some bytes into bytes gives back those bytes |
| Base64.ToSextetsLength | public/js/filesharing.js:222 | n bytes give 4*(n div 3) sextets plus n mod 3 + 1 more when n is not a multiple of 3 |
| Base64.CharSextetsInverse | public/js/filesharing.js:179 | reading back the characters of encoded sextets gives the sextets |
| Base64.StripPaddingOfEncode | public/js/filesharing.js:179 | removing the '=' padding of an encoding leaves its unpadded form |
| Base64.StripPaddingAppended | public/js/filesharing.js:179 | padding of the length that suits the unpadded alphabet text is removed, and nothing more |
| Base64.NoWhitespaceUnchanged | public/js/filesharing.js:179 | removing ASCII white space from text that has none leaves it unchanged |
| Base64.RemoveWhitespace | public/js/filesharing.js:179 | the cleaned text holds no ASCII white space |
| Base64.AfterCommaOfPrefix | public/js/filesharing.js:268 | the field after the first comma is everything after that comma when the head has no comma |
| Chat.ChatManager.constructor | public/js/chat.js:3-8 | no messages, no callback, nothing sent |
| Chat.ChatManager.Initialize | public/js/chat.js:10-18 | each call registers one more 'new-message' listener |
| Chat.ChatManager.OnNewMessage | public/js/chat.js:11-17 | the message is appended to the list, and the callback is invoked once with it when one is set |
| Chat.ChatManager.DeliverNewMessage | public/js/chat.js:11-17 | one delivery appends the message once per registered listener and calls the callback as often |
| Chat.ChatManager.Send | public/js/chat.js:20-27 | text that `trim()` reduces to nothing sends nothing; otherwise exactly one 'send-message' with this room's id and the untrimmed text |
| Chat.ChatManager.SetOnNewMessage | public/js/chat.js:29-31 | the new callback replaces any earlier one |
| Chat.TrimShape | public/js/chat.js:21 | `trim()` keeps a contiguous piece that neither starts nor ends with white space, with only white space cut before and after it, and it is empty exactly when the text is all white space |
| Chat.TrimStartShape | public/js/chat.js:21 | the result is a suffix of the text; what is cut before it is all white space, and it does not start with white space unless empty |
| Chat.TrimEndShape | public/js/chat.js:21 | the result is a prefix of the text; what is cut after it is all white space, and it does not end with white space unless empty |
| Chat.Repeat | public/js/chat.js:11-12 | n repetitions of one item |
| Terminal.Split | p2p.py:300 | `split(' ')` gives at least one token, and no token holds a space |
| Terminal.SplitJoin | p2p.py:300 | joining the tokens with single spaces gives back the line |
| Terminal.JoinSplit | p2p.py:300-302 | splitting a line joined from space-free tokens gives back the tokens, empty ones included |
| Terminal.SplitPrefix | p2p.py:300 | a space-free word in front of a line joins its first token |
| Terminal.SplitSpace | p2p.py:300 | a leading space produces an empty first token |
| Terminal.FirstTokenIsPrefix | p2p.py:300-301 | the first token is the line up to its first space |
| Terminal.CommandHandler | p2p.py:294-313 | the line goes to `evalCode` exactly when it starts with "/eval"; a handler is called without arguments only when its arity is 0, and with arguments only when there are exactly as many as its arity; a wrong-syntax report carries the arity and a different count |
| Terminal.AliasTargets | p2p.py:101-111 | every alias names a command of the table other than `eval`, and `eval` has no alias |
| Terminal.NotEvalLine | p2p.py:295 | "/name ..." reaches the table unless the name starts with "eval" |
| Terminal.TypedCommand | p2p.py:300-313 | typing "/name a1 ... an" reports not-found when the resolved name is not in the table; calls it without arguments when its arity is 0, whatever follows; calls it with exactly [a1..an] when n is its arity; and otherwise reports wrong syntax with both counts |
| Terminal.DoubleSpaceIsAnArgument | p2p.py:300-302 | "/nick  bob" (two spaces) has two arguments, so it reports wrong syntax for nickname |
| Terminal.ZeroArityIgnoresArguments | p2p.py:308-309 | "/q now" calls quit with no arguments |
| Terminal.EvalEntryUnreachable | p2p.py:294-313 | for a line starting with '/', the table's `eval` entry (arity -1) is never called or reported on |
| Terminal.ChatApp.constructor | p2p.py:60-62 | empty history, cursor 0, empty message log |
| Terminal.ChatApp.Type | p2p.py:216 | the step of the environment in which the user types into the npyscreen input widget: afterwards the value this line reads is the typed text |
| Terminal.ChatApp.HistoryBack | p2p.py:183-187 | the step taken and the new state are those of `Back` |
| Terminal.ChatApp.HistoryForward | p2p.py:189-196 | the step taken and the new state are those of `Forward` |
| Terminal.ChatApp.SendMessage | p2p.py:215-234 | the outcome and the new state are those of `Send` |
| Terminal.BackSpec | p2p.py:183-187 | back refuses exactly on an empty history or a cursor at 0, and then changes nothing; otherwise the cursor goes down by exactly one and shows entry len-pos (2len-pos above len), or raises IndexError when the cursor is above 2len; the logs are untouched |
| Terminal.ForwardSpec | p2p.py:189-196 | forward refuses exactly on an empty history; at cursor len-1 it clears the input and keeps the cursor; otherwise the cursor goes up by exactly one and shows entry len-2-pos (wrapped when negative), or raises IndexError above 2len-2 |
| Terminal.BackThenForward | p2p.py:183-196 | inside the history a back key is undone by a forward key |
| Terminal.ForwardThenBack | p2p.py:183-196 | inside the history a forward key is undone by a back key |
| Terminal.SendSpec | p2p.py:215-234 | empty input is ignored with nothing changed; otherwise the text is appended to the history and the message log, the cursor is set to len(historyLog) and the input box is emptied; then a '/' line is dispatched, other text is sent when connected, and 'not connected' is logged otherwise |
| Terminal.BackAfterSendShowsOldest | p2p.py:183-187 | because `sendMessage` parks the cursor at len(historyLog), the first back key after a send shows the OLDEST history entry, not the one just sent |
| Terminal.ForwardAfterFirstSendRaises | p2p.py:189-196 | after the first ever send the cursor is 1, so a forward key indexes the one-entry list at -2 and raises IndexError |

## Left out

- Transport and I/O are not modelled:
  - HTTPS/TLS setup, express static serving, the socket.io transport and console logging (`server/server.js:1-24`, `206-209`);
  - `socket.join`;
  - console warnings.
- Room membership for socket.io addressing is not modelled: deliveries name their address ('to socket', 'to room', 'to room except sender') rather than resolved recipients.
- `uuidv4()`, `new Date().toISOString()`, and the `Date.now()`/`Math.random()` file id are not computed. They are parameters, whose freshness the model does not check.
- Server.RoomServer.JoinRoom: the handler's `currentRoom` variable is written but never read, so it is not modelled.
- Server.RoomServer.Disconnect: one time stamp `now` stands for every room's system message, where the source calls `new Date()` once per affected room, so the model does not capture that the stamps of one disconnect may differ.
- What happens after a handler ends with `Threw` is not modelled. The TypeError leaves the socket.io listener, and what socket.io and Node then do with it is outside the model. By default, an uncaught exception ends a Node process. The model records the outcome and the state reached before the failing statement.
- Peer payload numbers (`fileSize`, `chunkIndex`, `totalChunks`) are modelled as integers of any sign, as the server relays them unchecked. Fractions, `NaN`, infinities and non-numbers are not modelled. The progress value that `receiveFileChunk` computes by dividing by `totalChunks` feeds only the progress callback, so it is not modelled either, even when `totalChunks` is zero.
- FileSharing.FileSharing.PrepareFileReceive: a file id `__proto__` is stored like any other key. In the source, that assignment replaces the prototype of `fileChunks`, so the entry's own field names then read as inherited members. This side effect is not modelled.
- Server.RoomServer.CreateRoom: the fresh id is a uuid, so it is never an inherited name such as `__proto__`, whose assignment would not create an entry.
- The `peerConnections` table of `WebRTCConnection` is a plain object too. Its keys are socket ids assigned by the server, which are never inherited names, so it is modelled as a map without inherited members.
- Asynchronous interleaving is not modelled:
  - Each socket handler is one atomic step.
  - The `await`s inside webrtc.js and filesharing.js handlers do not interleave with other handlers.
  - The 10 ms pacing delay of the send loop is timing only.
- `for ... in` key order is not modelled: the order of a `for ... in` loop over an object is chosen by `Keys.KeyOrder` and returned, not fixed to insertion order.
- Browser APIs are not modelled:
  - media capture, `getTracks` and `RTCPeerConnection` internals are opaque handles;
  - ICE server configuration, connection-state logging and `restartIce` (`public/js/webrtc.js:149-160`) are out of scope;
  - `ontrack` and the remote-stream callback are out of scope;
  - screen sharing, `toggleAudio` and `toggleVideo` are out of scope.
- `atob`/`FileReader` error paths: a `FileReader` error is not modelled; a chunk `atob` rejects contributes no bytes, as in the source.
- `Blob`/`URL.createObjectURL` are not modelled: the completed file is the byte sequence itself, not a blob URL.
- `sendFile` and `receiveFileChunk` progress percentages are not modelled: they are floating point and only feed callbacks.
- User-interface callbacks become method results or logged calls. What the callbacks do is not modelled.
- Re-registration is not modelled: `setupSignaling` and `FileSharing.setupSocketEvents` are treated as registered once. Only the chat listener's repeated registration is modelled, as `listeners`.
- public/js/main.js is not part of this model: it is page wiring and formatting.
- p2p.py sockets, threads, video, file transfer loops, npyscreen rendering and `sysMsg` line wrapping are not modelled. `clearChat` is not modelled either: it only clears the screen feed.
- p2p.py language strings: `messageLog` lines are structured entries (`Own(text)` for `lang['you'] + " > " + text`, `System(notice)` for `"[SYSTEM] " + text`) rather than rendered text.
- p2p.py handler calls: what `evalCode` (`exec`) and the table's handlers do when called is not modelled. The dispatcher returns which handler it calls, with which arguments.
- Terminal.ChatApp.SendMessage: the boolean `chatClient.send` returns only decides whether the line is echoed on screen, so it is not modelled.
- Terminal.SendSpec: the new state covers what `sendMessage` itself does, not the effects of the command handler it dispatches to. Those handlers' own `messageLog` changes are not modelled, such as the `sysMsg` lines they add and `/log` saving and then emptying `messageLog` (p2p.py:255). The same holds for Terminal.ChatApp.SendMessage.
