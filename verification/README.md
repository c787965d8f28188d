# Chat server and client: model and proofs

A chat server keeps rooms and users, receives requests as framed messages over TCP, and publishes
snapshots of its state from which every client rebuilds a replica. Two threads-with-a-queue (the
network service and the worker) and an I/O thread pass contexts and messages to each other. This
project models the four layers of that program and the client's command line, and proves what they
are for, layer by layer and across layers.

* **Codec** (`Octets`, `Codec`, `MsgBuffer`, `Structs`, `Chat`): the message buffer with its typed
  stream operators as a class over a byte array, the user and room objects, and the fields of every
  protocol message. Any sequence of writes that stays inside the buffer reads back unchanged, directly
  or from a copy. The buffer's growth routine does not do what its callers expect, so the sequences
  of writes that stay in bounds are characterised exactly, with a counterexample.
* **Room keeper and worker** (`KeeperSpec`, `RoomKeeping`, `ServerWorker`, `KeeperRuns`): the keeper as
  a class over four maps of mutable room and user objects, proved against a state machine on values.
  Its assertions are Dafny assertions. Every event keeps the invariant (index maps are mutual
  inverses, room ids are 0 up to the counter, HALL is room 0, each logged-on user is in exactly the
  room its record names).
* **Replica and requests** (`ReplicaSpec`, `Coherence`, `Delivery`, `Answers`, `ChatClient`): the client as a
  class, proved against a fold over messages. After every run of the server the messages sent to each
  logged-on user add up to exactly the server's state of that user, its room, the room's members and all
  room names. A client whose logon was refused has exited. `Answers` gives what every connection receives for
  every kind of request, the refusals by number, from a search of all users and rooms.
* **Record and window** (`Standing`, `Display`, `Transcript`, `ClientRuns`): the keeper's four maps and member sets against a
  simple record of people and of rooms with their passwords, which they follow in every run and which
  determines them. By this record it is known which sequences of requests fail no assertion, which password
  opens a room, and, word for word, everything that each client's window shows over a whole run.
* **Framing** (`Framing`, `Sockets`, `Connections`): resumable reading and writing over an abstract
  byte stream. An environment script decides how every `recv` and `send` call goes.
* **Services** (`Services`, `Pipeline`, `ContextLife`, `MessageLife`, `Stopping`, `PipelineOrder`,
  `NoGhosts`, `SystemRuns`, `Delivered`, `ConnectionOrder`, `Wires`, `ConnectionSteps`): contexts, queues
  and the network service as classes, and the two services, the connections and the worker together as
  a state machine whose steps are the sections executed under a lock. Steps of different threads
  interleave freely. A write is one call of `send`, which may take any part of what it is offered; the
  connection class is proved to take the machine's write and hand-over steps. Which steps of a stopping
  server lose a message is stated exactly.
* **Locks** (`Locks`): the three kinds of mutexes and the order in which every operation takes them. A
  thread that waits does so, in the end, for a thread that can go on or for a peer.
* **End to end** (`EndToEnd`, `Windows`, `Settling`): threads, queues, bytes, client and window together, for
  any part of the stream that has arrived. Without new input the server's own steps run out under every
  scheduling; it can settle exactly when the requests that have come in can be handled; then no context
  and no message is left but those waiting on a connection, whose number is known exactly; and the
  schedule changes neither rooms and users nor what each connection is handed.
* **Command line** (`Commands`, `InputParsing`, `Whispering`, `Typing`): what is accepted, exactly, what it turns
  into, and how a typed line travels from the keyboard through the client and the server to all windows.

Bytes are integers below 256 and integers have the widths of the program: the room counter wraps at
32 bits, list counts are stored in 32 bits, frame lengths are signed. Sets and maps are visited in
ascending order of their keys.

## Where code and intent differ

The model follows the code.

* `Msg::Reverse` compares the increment, not the total, with the recorded size and never updates the
  record. `MsgBuffer.WritesSafeExactly` says when writing is safe; everything that builds a message
  requires that (`Fits`, `Writable`).
* On a socket that would block, `TcpSocket::Send` leaves the count at -1 without an error, and
  `WriteData` then miscounts by one. `Connections.TcpConnection.WriteData` keeps its invariant if and
  only if that does not happen. It cannot happen today: `SetNonblocking` has no caller.
* `Driver::RegistWriteEvent` registers the write handler for read events. After a `send` that took only
  part of a message, the rest waits for the peer to send something, or for later messages, each of
  which writes the oldest one first and so stays behind itself. `Wires.BacklogExact` counts what waits.
* Sockets block, so a peer that does not read holds the thread that writes to it, with the connection's
  mutex (`Locks.SilentPeerBlocks`).
* A length word below 4 (or negative as an int) closes the connection with error 0, so no drop is
  reported and the user stays in its room. `Connections.ReadStream` states exactly when, and
  `Connections.CloseSilently` shows it for the length word 3.
* `Room::Decode` inserts into the member set without clearing it. The client's current room
  accumulates members; coherence is stated on its id and name and on the list of online users.
* The first connection has id 0, and 0 also means "everybody" when the room list is published.
* `ParseCreateRoom` scans for a space without testing for the end of the text. The parser reads past the
  end of a line exactly when it is a create command with one word and nothing after it
  (`InputParsing.InputParser.ParseInput`, `InputParsing.OverrunsExactly`); the usage that the help text
  gives, `/c room`, is such a line (`InputParsing.HelpUsageOverruns`).
* A line that the parser does not accept as a command is chat (`Commands.ChatExactly`), and goes to the whole
  room as it was typed: a create or join command with a name or password outside 4 to 20 characters shows in
  every member's window, password included (`Typing.ChatRouting`).
* Chatting before the first room info has arrived names a room that does not exist, and an assertion of
  the server fails (`Standing.EarlyChatFails`).
* The comments on the whisper message types list a sender; the code writes only the target and the
  words. The documented second head word of a frame ("msg type") is never written; it is arbitrary.
* If a service is stopped while messages are under way some are lost, and a context is destroyed with a
  message in its slot (`MessageLife.StepKeepsExactly`, `Stopping.AnswerLostOnShutdown`).

## Model

| member | source | states |
|---|---|---|
| Octets.Ntohll | src/common/src/common.cpp:81-96 | storing the shifted bytes at ascending addresses and reading them as a host integer is the host value of the big-endian bytes |
| Octets.NtohllSelfInverse | src/common/src/common.cpp:81-101 | `ntohll` undoes `htonll` for every 64-bit value, and the memory holding `htonll(x)` is `x` most significant byte first |
| Codec.FieldRoundTrip | src/common/src/Msg.cpp:11-131 | each typed write, read back with the matching read, returns its value and consumes exactly its own bytes |
| Codec.RoundTrip | src/common/src/Msg.cpp:11-131 | any sequence of int, u16, u32, u64 and string writes reads back unchanged and leaves exactly what follows |
| Codec.EncodingIsPrefixFree | src/common/src/Msg.cpp:11-131 | two field sequences of one shape never share an encoding and none is a prefix of another |
| MsgBuffer.WritesSafeExactly | src/common/include/Msg.hpp:115-141 | the sequences of write sizes that stay inside the allocation, if and only if: they fit the page, or the first overflowing write alone exceeds the page and leaves room for all |
| MsgBuffer.SmallWritesSafeExactly | src/common/include/Msg.hpp:115-141 | with no single write above a page, safe exactly when everything fits one page: the buffer never grows |
| MsgBuffer.TwoMediumStringsOverrun | src/common/include/Msg.hpp:121-141 | any two 2100-byte strings leave the buffer although each is small |
| MsgBuffer.Msg.Reverse | src/common/include/Msg.hpp:121-141 | grows only for an increment above the recorded size, to eight times the wanted size, keeping head and payload |
| MsgBuffer.Msg.WriteByte | src/common/src/Msg.cpp:28-37 | appends exactly the bytes and leaves all earlier bytes unchanged, wherever the write stays in bounds |
| MsgBuffer.Msg.Write | src/common/src/Msg.cpp:11-76 | appends exactly the big-endian form of the field, a string with its 64-bit length |
| MsgBuffer.Msg.Read | src/common/src/Msg.cpp:78-131 | returns the field at the read offset and advances past it |
| MsgBuffer.Msg.SetLen | src/common/include/Msg.hpp:91-101 | sets the first head word and nothing else |
| MsgBuffer.Msg.Dup | src/common/include/Msg.hpp:103-111 | an independent copy with the same payload and the length in its head, read from the start |
| MsgBuffer.ReadAll | src/common/src/Msg.cpp:78-131 | successive reads return what decoding the unread bytes with the same types returns |
| MsgBuffer.WriteDupRead | src/test/test_msg/test_msg.cpp:18-22 | writing, copying and reading the copy gives back the same values |
| Structs.User.Encode | src/Main/struct/User.hpp:40-47 | appends name, address, port, id and room id |
| Structs.User.Decode | src/Main/struct/User.hpp:49-56 | takes exactly one record off the message and holds it |
| Structs.Room.Add | src/Main/struct/Room.cpp:24-33 | the member set gains exactly the user |
| Structs.Room.HandleUserLeave | src/Main/struct/Room.cpp:35-43 | the member set loses exactly the user |
| Structs.Room.Encode | src/Main/struct/Room.hpp:50-62 | appends id, name, member count and the members in ascending order, no password |
| Structs.Room.Decode | src/Main/struct/Room.hpp:64-77 | takes exactly one room off the message; decoded members join those already there |
| Chat.UsersRoundTrip | src/Main/struct/User.hpp:40-56 | any list of user records decodes to exactly itself and leaves what follows |
| Chat.RoomRoundTrip | src/Main/struct/Room.hpp:50-77 | an encoded room decodes to its id, name and exact member set, consuming exactly its bytes |
| Chat.RoomsRoundTrip | src/Main/server/RoomKeeper.cpp:293-310 | any list of encoded rooms decodes to exactly those rooms without their passwords |
| Chat.RequestRoundTrip | src/Main/server/Worker.cpp:44-81 | every request a client can express is understood by the server as it was meant |
| ReplicaSpec.ReceiveEncoded | src/Main/client/Client.cpp:30-82 | whatever message the server encodes, the client's decoding applies exactly its meaning |
| KeeperSpec.InitialInv | src/Main/server/RoomKeeper.hpp:16-20 | a new keeper has HALL as room 0, without password, and meets the invariant |
| KeeperSpec.ExactlyOneRoom | src/Main/server/RoomKeeper.cpp:94-101 | between events a logged-on user is a member of exactly the room its record names, everyone else of none |
| KeeperSpec.LogonKeepsInv | src/Main/server/RoomKeeper.cpp:10-51 | a logon, accepted or refused, keeps index agreement and room partition |
| KeeperSpec.JoinKeepsInv | src/Main/server/RoomKeeper.cpp:362-403 | a join, accepted or refused, restores index agreement and room partition |
| KeeperSpec.DropKeepsInv | src/Main/server/RoomKeeper.cpp:190-235 | a drop keeps the invariant and leaves the user in no map and no room |
| KeeperSpec.CreateKeepsInvExactly | src/Main/server/RoomKeeper.cpp:155-188 | creating a room keeps the invariant if and only if the name is taken or the 32-bit counter does not wrap |
| RoomKeeping.RoomKeeper.constructor | src/Main/server/RoomKeeper.hpp:16-20 | the constructed object is in the initial state, with HALL |
| RoomKeeping.RoomKeeper.CreateRoom | src/Main/server/RoomKeeper.cpp:155-188 | the new maps, counter and result are those of the specification, which stores the given name and password (`Answers.CreatedOpensExactly`); users are untouched |
| RoomKeeping.RoomKeeper.SetUserRoomId | src/Main/server/RoomKeeper.cpp:110-117 | only the one user's back-pointer changes |
| RoomKeeping.RoomKeeper.GetRoomInfoMsg | src/Main/server/RoomKeeper.cpp:119-153 | the payload is the encoding of the room with exactly its members' records; no lookup assertion fails |
| RoomKeeping.RoomKeeper.PublishRoomInfo | src/Main/server/RoomKeeper.cpp:237-253 | one copy is queued for each member, in ascending order, and nothing else changes |
| RoomKeeping.RoomKeeper.PublishRoomMessage | src/Main/server/RoomKeeper.cpp:265-291 | one copy of the chat message, whose bytes are the sender's name and then the words (`Display.PairsOnTheWire`), is queued for each member of the room |
| RoomKeeping.RoomKeeper.PublishRoomList | src/Main/server/RoomKeeper.cpp:293-322 | the list of all rooms is queued for the connection, or for every user when the id is 0 |
| RoomKeeping.RoomKeeper.GetUserByName | src/Main/server/RoomKeeper.cpp:334-350 | null exactly when the specification finds no user of that name, otherwise that user |
| RoomKeeping.RoomKeeper.JoinRoom | src/Main/server/RoomKeeper.cpp:53-108 | the error for each refusal, nothing changed then; otherwise the user is added, its record points to the room and the room is published |
| RoomKeeping.RoomKeeper.LeaveRoom | src/Main/server/RoomKeeper.cpp:405-438 | the user leaves the named room and the room is published |
| RoomKeeping.JoinSteps | src/Main/server/RoomKeeper.cpp:374-400 | in the two-room state in the middle of a join every lookup the code asserts succeeds, and what is published already is right |
| RoomKeeping.RoomKeeper.HandleJoinRoom | src/Main/server/RoomKeeper.cpp:362-403 | passes through the two-room state to exactly the specified state and messages; no assertion fails; a refusal changes nothing |
| RoomKeeping.RoomKeeper.HandleLogon | src/Main/server/RoomKeeper.cpp:10-51 | the specified state, result and messages; the assertion that joining HALL succeeds holds |
| RoomKeeping.RoomKeeper.HandleDrop | src/Main/server/RoomKeeper.cpp:190-235 | the user leaves both maps and its room, which is published; an unknown id changes nothing |
| ServerWorker.Worker.HandleLogon | src/Main/server/Worker.cpp:83-111 | room info of HALL, then the reply with the record on success, then the room list, in this order |
| ServerWorker.Worker.HandleCreateRoom | src/Main/server/Worker.cpp:143-168 | the reply, then the room list to everybody |
| ServerWorker.Worker.HandleJoinRoom | src/Main/server/Worker.cpp:170-192 | the messages of the move, then the reply with the error |
| ServerWorker.Worker.HandleWhisperMsg | src/Main/server/Worker.cpp:194-221 | the whisper to the target, or the failure notice to the sender |
| ServerWorker.Worker.ReadRequest | src/Main/server/Worker.cpp:51-77 | the type word and exactly the fields the handlers read |
| ServerWorker.Worker.RecvMessage | src/Main/server/Worker.cpp:44-76 | a received message takes the keeper exactly one step of a run and queues exactly what that step sends |
| ServerWorker.Serve | src/Main/server/Worker.cpp:7-77 | decoding, handling and answering any sequence of received frames and drops ends in exactly the state of the run they stand for, with exactly its messages queued, and no assertion of keeper or worker fails |
| KeeperRuns.NextUsers | src/Main/server/RoomKeeper.cpp:37-40 | only a connection's own request can log it on; its drop logs off exactly it |
| KeeperRuns.RunKeepsInv | src/Main/server/RoomKeeper.cpp:10-438 | every run too short to wrap the room counter keeps the invariant |
| KeeperRuns.TalkIsPlain | src/Main/server/RoomKeeper.cpp:265-291 | chat, whispers and unknown requests change neither the server nor what clients show of it |
| KeeperRuns.NextKeepsViews | src/Main/server/RoomKeeper.cpp:216-252 | every event keeps every logged-on user's replica coherent once its messages are applied |
| KeeperRuns.ViewCoherence | src/Main/client/Client.cpp:142-165 | after every run each logged-on user's messages add up to its record, its room with exactly the members' records, and the id and name of every room |
| Answers.JoinAnswered | src/Main/server/RoomKeeper.cpp:362-403 | what every connection hears of a join, by search: only the asker hears of a refusal, 7 if it is not logged on, 3 if no room has the name, 4 if the room of that name has another password, 5 if the asker is a member; otherwise the members of the new room, then those of the old one get the room info, then the asker alone 0 |
| Answers.LogonAnswered | src/Main/server/Worker.cpp:83-111 | what every connection hears of a logon, by search: 1 for a connection that is logged on, 2 where a user has the name; otherwise the user is in HALL with the given name, address and port, the members get the room info and the asker its record; then the list |
| Answers.CreateAnswered | src/Main/server/Worker.cpp:143-168 | the asker alone gets 6 if some room has the name and else 0, then every logged-on user the list, even after a refusal |
| Answers.DropAnswered | src/Main/server/RoomKeeper.cpp:190-235 | the other members of the room get its info, nobody else anything |
| Answers.InfoShows | src/Main/server/RoomKeeper.cpp:119-153 | a room info leaves the client with the room's id and name and exactly its members' records, and adds the members to the current room's set |
| Answers.ListShows | src/Main/server/RoomKeeper.cpp:293-322 | a room list leaves the client with all rooms, members included, without any password |
| Answers.CreatedOpensExactly | src/Main/server/RoomKeeper.cpp:155-188 | a creation under a free name adds one empty room and changes no other; a join of it is then granted if and only if it gives the password of the creation |
| Standing.RunAgrees | src/Main/server/RoomKeeper.cpp:10-438 | after every run the users (name, address, port, room) and rooms (name, password) are those of a record that notes each granted logon, join, creation and each drop |
| Standing.RecordDetermines | src/Main/server/RoomKeeper.hpp:68-74 | the record determines all maps of the keeper and the member set of every room |
| Standing.CreatedExactly | src/Main/server/RoomKeeper.cpp:155-188 | the rooms and passwords of the record are HALL, without one, and those of the creations that were first to ask for their name |
| Standing.PasswordDecides | src/Main/server/RoomKeeper.cpp:78-84 | after every run, a logged-on user outside a created room gets into it with a password if and only if the room was created with it |
| Standing.CreateIsReplied | src/Main/server/Worker.cpp:155-164 | a creation was granted if and only if its reply says error 0 |
| Standing.RunsExactly | src/Main/server/RoomKeeper.cpp:324-360 | no assertion fails in a run if and only if every chat and whisper comes from a connection logged on by then, and every chat names one of the rooms created by then |
| Standing.OnlineExactly | src/Main/server/RoomKeeper.cpp:10-51 | a connection is logged on if and only if a logon of its was granted and no drop of it followed |
| Standing.GrantedIsReplied | src/Main/server/Worker.cpp:94-106 | a logon was granted if and only if its reply says error 0 |
| Standing.EarlyChatFails | src/Main/server/RoomKeeper.cpp:352-360 | a client that chats before its first room info sends the invalid room id, and the lookup's assertion fails |
| Coherence.MoveKeepsViews | src/Main/server/RoomKeeper.cpp:390-398 | after a move the members of both rooms, and all others, show the new state |
| Delivery.ChatReachesMembersOnce | src/Main/server/RoomKeeper.cpp:284-290 | a chat message goes exactly once to each member of the room at that moment and to nobody else |
| Delivery.UserByNameIsSearch | src/Main/server/RoomKeeper.cpp:334-350 | the lookup through two maps equals a search of all users |
| Delivery.WhisperReachesTarget | src/Main/server/Worker.cpp:194-233 | exactly one message: to the one holder of the name with the sender's own name and the exact words, or the refusal to the sender |
| Delivery.JoinGrantedExactly | src/Main/server/RoomKeeper.cpp:53-108 | a join changes something if and only if the user is logged on and some room, searched among all, has the name and password and not the user; the user then is in that room alone; otherwise only the asking connection hears of it |
| Delivery.AcceptedJoinMovesOneUser | src/Main/server/RoomKeeper.cpp:390-398 | an accepted join takes the user from its one room to the named one and moves nobody else |
| Delivery.WireViewCoherence | src/Main/client/Client.cpp:142-165 | view coherence for a client that decodes the payload bytes |
| ChatClient.Client.HandleLogonRes | src/Main/client/Client.cpp:118-140 | keeps the decoded record on success, exits otherwise |
| ChatClient.Client.ParseRoomInfo | src/Main/client/Client.cpp:142-165 | rebuilds the online users, the room's id and name and the own room id from the message |
| ChatClient.Client.HandleUpdateRoomList | src/Main/client/Client.cpp:321-342 | rebuilds the room list from the message |
| ChatClient.Client.RecvMessage | src/Main/client/Client.cpp:30-82 | one message changes the client's objects exactly as the replica's fold says, adds to the window exactly what it shows, stops the client only for leaving HALL, and sends exactly what a local leave or whisper asks for |
| ChatClient.Client.ReceiveChatMessage | src/Main/client/Client.cpp:265-275 | shows the first string as the sender, the second as the words, as the user's own if the sender has its name |
| ChatClient.Client.HandleCreateRoomRes | src/Main/client/Client.cpp:297-319 | shows success for error 0, else the room's name and the reason |
| ChatClient.Client.HandleJoinRoomRes | src/Main/client/Client.cpp:358-380 | shows success for error 0, else the room's name and the reason |
| ChatClient.Client.HandleWhisperMessage | src/Main/client/Client.cpp:382-398 | shows sender and words |
| ChatClient.Client.HandleWhisperFailed | src/Main/client/Client.cpp:431-444 | shows target and reason |
| ChatClient.Client.ShowRoomList | src/Main/client/Client.cpp:344-356 | shows the number of rooms and one line for each, in ascending order of id |
| ChatClient.Client.HandleInput | src/Main/client/Client.cpp:201-263 | a typed line does exactly what it means: it is sent to the server, passed to the client itself, answered by a warning or the help, or stops the client; or the parser overruns |
| ChatClient.Client.HandleLocalWhisperMsg | src/Main/client/Client.cpp:461-482 | a local whisper is shown and encoded anew for the server, target and words unchanged (`Whispering.WhisperRouting`) |
| ChatClient.Client.HandleLeaveRoom | src/Main/client/Client.cpp:400-419 | outside HALL leaving sends a join of HALL without password, in HALL it stops the client |
| Display.ReplyReads | src/Main/client/Client.cpp:265-444 | what a client shows when it reads the bytes of any server message: of chat and whispers the sender and the words, of a failed whisper the target, of a verdict the room and the text that goes with the error |
| Display.PairsOnTheWire | src/Main/server/Worker.cpp:211-233 | the bytes of the requests and messages that carry two strings: the type number, then each string behind its 64-bit length, in the order of the source |
| Display.VerdictsOnTheWire | src/Main/server/Worker.cpp:158-164 | the bytes of the replies to creating and joining: type, error, text, room name |
| Display.LogonOnTheWire | src/Main/server/Worker.cpp:94-103 | the bytes of the reply to a logon, and the texts of its refusals |
| Display.InfoOnTheWire | src/Main/server/RoomKeeper.cpp:136-152 | the bytes of a room info |
| Display.ListOnTheWire | src/Main/server/RoomKeeper.cpp:299-309 | the bytes of a room list |
| Display.UserOnTheWire | src/Main/struct/User.hpp:40-47 | the bytes of a user record |
| Display.RoomOnTheWire | src/Main/struct/Room.hpp:50-62 | the bytes of a room, without its password |
| Transcript.WindowExactly | src/Main/client/Client.cpp:30-82 | over every run, each connection's client shows exactly, in order: the chat said in the room it is in by the record at that moment, the whispers to its user, and the verdicts on its own requests with their texts; nothing after a refused logon of its own |
| Transcript.WireWindowExactly | src/Main/client/Client.cpp:30-82 | the same for a client that reads the payload bytes |
| ClientRuns.Attend | src/Main/client/Client.cpp:30-140 | whatever payloads reach a new client object, its objects and its window end as the folds over them say; it handles nothing after a refused logon |
| ClientRuns.Watch | src/Main/client/Client.cpp:30-140 | the client object that receives what a run of the server sends it shows exactly the server's state of its user and, in its window, exactly what the record of the run says; it has exited exactly after a refused logon |
| Framing.DeframeExactly | src/common/src/TcpConnection.cpp:26-103 | for every sequence of frames and every cut of the stream, exactly the frames wholly before the cut come out, identical and in order |
| Framing.DeframeKeepsBytes | src/common/src/TcpConnection.cpp:26-103 | splitting a stream into frames loses and invents no byte |
| Framing.DeframeAppend | src/common/src/TcpConnection.cpp:53-70 | reading on depends only on the bytes left over: reading is resumable at any byte |
| Framing.ShortWordFirst | src/common/src/TcpConnection.cpp:44-51 | after a length word below 4 or negative as an int nothing in a stream is a frame |
| Sockets.TcpSocket.Recv | src/common/include/TcpSocket.hpp:374-402 | takes at most the wanted bytes off the stream, none when nothing is there yet, and reports close and failure; only a failed call leaves the count -1 |
| Sockets.TcpSocket.RecvAll | src/common/include/TcpSocket.hpp:405-446 | takes exactly the wanted bytes, or breaks the socket at the end of the stream |
| Sockets.TcpSocket.PreRecv | src/common/include/TcpSocket.hpp:340-371 | the signed length word, or an error with the socket broken |
| Sockets.TcpSocket.Send | src/common/include/TcpSocket.hpp:268-289 | a prefix of what was offered is emitted; would-block yields -1 without an error |
| Connections.TcpConnection.ReadData | src/common/src/TcpConnection.cpp:26-103 | keeps the reader's invariant; reports each completed frame once and a drop exactly on error |
| Connections.ReadStream | src/common/src/TcpConnection.cpp:26-103 | for every delivery script the reports are exactly the frames in the stream, then a drop unless an unacceptable length word closed it silently |
| Connections.CloseSilently | src/common/src/TcpConnection.cpp:44-51 | a stream that starts with the length word 3 closes the connection without any report |
| Connections.ReaderOffersWritten | src/common/src/TcpConnection.cpp:26-182 | for every writer and reader: what the reader has offered is exactly the wholly arrived first of the frames accepted for sending |
| Connections.TcpConnection.Enqueue | src/common/src/TcpConnection.cpp:213-219 | appends the message and keeps the writer's invariant, open or closed |
| Connections.TcpConnection.InitNextSend | src/common/src/TcpConnection.cpp:159-182 | starts on the front message, keeping the writer's invariant |
| Connections.TcpConnection.WriteData | src/common/src/TcpConnection.cpp:105-157 | keeps the writer's invariant if and only if the socket does not would-block; the new state is that of one send of the emitted bytes; nothing is emitted after close |
| Connections.TcpConnection.Close | src/common/src/TcpConnection.cpp:184-198 | frees the queue once; closing again does nothing |
| Connections.TcpConnection.FreeNotSendMsg | src/common/src/TcpConnection.cpp:200-211 | every queued message is freed, in order |
| Connections.TcpConnection.ReadingKeepsWriter | src/common/src/TcpConnection.cpp:88-96 | a read event, even one that closes the connection, keeps the writer's invariant |
| Connections.TcpConnection.Destroy | src/common/include/TcpConnection.hpp:30-38 | with the destructor every accepted message has been freed exactly once |
| Services.OperContext.DecRef | src/common/include/Context.hpp:93-102 | one reference less; destroyed exactly at zero, with an empty slot |
| Services.LogicService.Enqueue | src/common/src/LogicService.cpp:108-122 | appended with a reference of its own exactly when running |
| Services.LogicService.RunBatch | src/common/src/LogicService.cpp:22-51 | the batch is handled in order, each entry's reference is let go once, what is passed on reaches the other service in order with its message, and exactly the contexts without other references are destroyed |
| Services.NetService.AcceptConnection | src/common/src/NetService.cpp:137-154 | the id was never given out before; other connections stay |
| Services.NetService.SendMsg | src/common/src/NetService.cpp:181-201 | the message is with its connection or freed, the slot empty |
| Services.NetService.DropConnection | src/common/src/NetService.cpp:203-220 | the connection leaves the table and all its messages have been freed exactly once |
| Services.NetService.ProcessDrop | src/common/src/NetService.cpp:308-311 | a drop is forwarded with its own reference and the connection deleted |
| ContextLife.StepLives | src/common/src/LogicService.cpp:22-51 | every step of every thread keeps the counts exact and the queues linear |
| ContextLife.ReferencesExact | src/common/include/Context.hpp:93-110 | in every run `mRef` is the number of queue and batch entries plus the creator; a context is destroyed exactly when it reaches 0, once; no step touches a destroyed one |
| ContextLife.ProcessedIsPrefix | src/common/src/LogicService.cpp:22-51 | what a service processed is a prefix of what it accepted, in order, none duplicated or skipped |
| MessageLife.MessagesConserved | src/common/src/NetService.cpp:181-220 | in every run without a losing step, so in every run of two running services, every message is in exactly one place once (slot, connection queue, freed) and no context was destroyed with a message |
| MessageLife.StepKeepsExactly | src/common/src/LogicService.cpp:39-45 | with every message in its place, a step keeps it so if and only if it is none of: receiving, handling or forwarding a message with the service stopped that it needs |
| Stopping.RefusedForwardBursts | src/Main/server/Worker.cpp:18-20 | forwarding a message to the stopped network service destroys its context with the message in the slot |
| Stopping.AnswerLostOnShutdown | src/Main/server/Server.hpp:20-24 | a run from start to shutdown, network service first, in which that happens |
| PipelineOrder.FlowStep | src/common/src/NetService.cpp:302-311 | no step reorders, loses or duplicates requests and drops on their way to the worker |
| PipelineOrder.SendFlowStep | src/Main/server/Worker.cpp:18-20 | no step reorders, loses or duplicates messages on their way from the worker |
| NoGhosts.StepOrderly | src/common/src/TcpConnection.cpp:34-100 | in every interleaving a connection's requests precede its drops and ids are never reused |
| NoGhosts.DroppedStaysOut | src/Main/server/RoomKeeper.cpp:190-235 | a dropped connection of which no request follows is not logged on |
| SystemRuns.StepFaithful | src/Main/server/Worker.cpp:7-30 | what the worker has queued and still has to queue is exactly what the run of its events sends |
| Delivered.Targets | src/Main/server/RoomKeeper.cpp:237-322 | the worker only writes to logged-on users and to the connection whose event it handles |
| ConnectionOrder.StepFlows | src/common/src/NetService.cpp:181-201 | an open connection has written all that was handled for it but its queue, in order; a closed one a prefix |
| Wires.EmittedIsFrames | src/common/src/TcpConnection.cpp:105-182 | in every run, however send splits them, the bytes emitted on a connection are the frames of the messages written in full and a proper part of the next, and on a closed one a prefix of the frames handed to it |
| Wires.BacklogExact | src/common/src/Driver.cpp:109-111 | the messages waiting on an open connection are as many as hand-overs have finished none, less those that events finished later, plus the one being handed over |
| ConnectionSteps.MatchesEmits | src/common/src/TcpConnection.cpp:105-157 | a connection object that matches the state machine has emitted the same bytes |
| ConnectionSteps.WriteData | src/common/src/TcpConnection.cpp:105-157 | WriteData of the object is the state machine's write of as many bytes as send took |
| ConnectionSteps.Enqueue | src/common/src/TcpConnection.cpp:213-219 | Enqueue of the object is the state machine's hand-over |
| Locks.JobNeat | src/common/src/TcpConnection.cpp:26-219 | every operation takes the mutexes in the order connection, service, reference counts, and lets go of all of them |
| Locks.OnlyPeersBlock | src/common/src/LogicService.cpp:108-122 | whatever the threads execute and however they interleave, a thread's chain of waiting ends at a thread that can go on, or at one in a system call whose peer does nothing |
| Locks.SilentPeerBlocks | src/common/src/TcpConnection.cpp:111-128 | a peer that does not read holds the writing thread with the connection's mutex, and through it the event thread |
| EndToEnd.WrittenThenAhead | src/common/src/NetService.cpp:181-201 | in every run, what was written to an open connection followed by what is still ahead of it is exactly what the worker's run sent it |
| EndToEnd.QuietClientIsCoherent | src/Main/client/Client.cpp:142-165 | with nothing ahead of a logged-on user's connection, the client shows exactly the server's state |
| EndToEnd.NoGhostUsers | src/common/src/TcpConnection.cpp:88-99 | once the worker has handled a drop the id is in no map, no room, and no request of it is under way |
| EndToEnd.EventOfContext | src/Main/server/RoomKeeper.cpp:255-263 | a queued context carries one of the messages the keeper sends for its event |
| EndToEnd.CommonOrder | src/Main/server/RoomKeeper.cpp:255-291 | a connection written the message of a later event was written that of the earlier one before, so all recipients see chat in one order |
| EndToEnd.ClientAfterBytes | src/common/src/TcpConnection.cpp:26-103 | after any number of bytes, in any pieces, the client has applied exactly the messages whose frames are complete |
| EndToEnd.ClientOfConnection | src/common/src/TcpConnection.cpp:26-182 | threads, queues, short sends, byte stream and client together: at any time, the client that decodes what its reader has offered has applied exactly the first messages the worker's run sent it |
| EndToEnd.SystemCoherence | src/Main/client/Client.cpp:142-165 | once nothing is ahead of a logged-on user's connection and its reader has taken all that was emitted, the client shows exactly the server's state |
| EndToEnd.OfferedOfConnection | src/common/src/TcpConnection.cpp:26-182 | what the reader at the other end of a connection has offered are the payloads of exactly the first messages the worker's run sent it |
| Windows.WindowOfConnection | src/Main/client/Client.cpp:30-82 | at any time, however threads, queues, sends and reads have gone, a client's window shows a first part of what the record of the handled events says |
| Windows.SettledWindow | src/Main/client/Client.cpp:30-82 | with nothing ahead of the connection and all bytes taken, it shows all of it |
| Settling.OwnStepProgress | src/common/src/LogicService.cpp:22-51 | however the threads are scheduled, each step of the server's own makes the work left (events, then messages, then loop positions and creators' references) smaller |
| Settling.SettledHandledAll | src/common/src/LogicService.cpp:108-122 | a settled server has handled all that had come in, in queue order, and queued exactly the messages this calls for |
| Settling.SettlesExactly | src/common/src/LogicService.cpp:22-51 | from every reachable running state the server can settle, with every send returning, if and only if the pending requests, handled one after another, fail no assertion |
| Settling.SettledKeepsNothing | src/common/include/Context.hpp:93-110 | a settled server has destroyed every context once and freed every message once, except those waiting on a connection still in its table |
| Settling.SettledHandedAll | src/common/src/NetService.cpp:181-201 | a settled server has handed to each open connection exactly what the run of events sends it; as many of these still wait as hand-overs finished none, less those finished by later events |
| Settling.SchedulesAgree | src/common/src/LogicService.cpp:22-51 | any two schedules that settle leave the same rooms and users and hand the same messages to each connection still open |
| Settling.SettledClientsAreCoherent | src/Main/client/Client.cpp:142-165 | every logged-on client still connected, all of whose short writes were made up for, has then been written what makes it show exactly the server's state |
| Commands.JoinExactly | src/Main/client/InputParser.cpp:173-257 | a join is accepted exactly when the first two space-free tokens each have 4 to 20 characters, and sends those |
| Commands.CreateExactly | src/Main/client/InputParser.cpp:80-171 | a create command is accepted exactly when the first two space-free tokens each have 4 to 20 characters, and sends the first as name, the second as password |
| Commands.CreateRoundTrip | src/Main/client/InputParser.cpp:80-171 | printing a create command, parsing it and decoding it in the server gives back name and password |
| Commands.WhisperPrinted | src/Main/client/InputParser.cpp:259-323 | a printed whisper is parsed to the same target and words |
| Commands.ChatExactly | src/Main/client/InputParser.cpp:8-78 | which lines are chat, by their letter and tokens |
| Commands.JoinRoundTrip | src/Main/client/InputParser.cpp:173-257 | printing a join command, parsing it and decoding it in the server gives back room and password |
| InputParsing.InputParser.ParseInput | src/Main/client/InputParser.cpp:8-37 | the command object shows what the line means, or the parser reads past the end of the line, exactly for the create commands whose name nothing follows |
| InputParsing.InputParser.ParseCmdMessage | src/Main/client/InputParser.cpp:39-78 | the same for the text behind the slash |
| InputParsing.InputParser.ParseJoinRoom | src/Main/client/InputParser.cpp:173-257 | accepts or refuses as the specification says, holding the join message |
| InputParsing.InputParser.ParseCreateRoom | src/Main/client/InputParser.cpp:80-171 | accepts or refuses as the specification says, or overruns, exactly when no space follows the name |
| InputParsing.OverrunsExactly | src/Main/client/InputParser.cpp:109-113 | a create command overruns if and only if one space-free token is all that follows its letter, up to the end |
| InputParsing.HelpUsageOverruns | src/Main/client/Client.cpp:452 | the usage that the help text gives for the create command overruns |
| InputParsing.InputParser.ParseWhisper | src/Main/client/InputParser.cpp:259-323 | holds a local whisper with the first token as target and the rest as words |
| InputParsing.InputParser.ParseList | src/Main/client/InputParser.cpp:331-384 | only the target `room` is valid; another target is an invalid command, none is no command |
| InputParsing.InputParser.ParseLeaveRoom | src/Main/client/InputParser.cpp:386-414 | accepted when nothing or a space follows |
| Whispering.WhisperRouting | src/Main/client/Client.cpp:461-482 | a typed whisper is kept as a local message, shown, and relayed by the client's own handler as a whisper of the same words to the first token; the server understands the same, and exactly one message results, to the target or back as a refusal |
| Typing.ChatRouting | src/Main/client/Client.cpp:246-257 | a line that is no command, typed at a coherent client, shows word for word under the sender's name once in the window of each member of the sender's room and in no other, as the reader's own in the sender's alone |
| Typing.ChatShown | src/Main/server/RoomKeeper.cpp:265-291 | each member of the sender's room gets exactly one chat payload, which reads as the sender's name and then the words, marked as the reader's own in the sender's window alone; nobody else gets any |
| Typing.LeaveRouting | src/Main/client/Client.cpp:400-419 | `/q` stops the client in HALL; elsewhere its own message makes it ask to join HALL, and the server moves the user there |
| Typing.ListRouting | src/Main/client/Client.cpp:344-356 | `/l room` asks the server nothing and shows the number of its rooms and each with its id and name |
| Typing.AsksExactly | src/Main/client/Client.cpp:201-263 | which lines are sent to the server, and as what: chat for the current room, or a creation or join of the first two tokens |
| Typing.StopsExactly | src/Main/client/Client.cpp:223-228 | which lines stop the client |
| Typing.HelpsExactly | src/Main/client/Client.cpp:230-233 | which lines show the help |
| Typing.WarnsExactly | src/Main/client/Client.cpp:212-217 | which lines are answered by a warning, and with which text |
| Whispering.TargetIsUnique | src/Main/server/RoomKeeper.cpp:29-40 | at most one logged-on user has a name |

## Left out

- MsgBuffer.Msg.Read: the program reads without a bounds test; the field must lie inside the buffer.
- ChatClient.Client.HandleInput: a typed line is one step, although the program reads the current room in the input thread while a message may be changing it.
- Transcript.WindowExactly: the window is the sequence of calls that put a line into it; the layout's own markup and line buffer, and its list of users, are not modelled.
- ServerWorker.Worker.RecvMessage: deleting the message and clearing the slot belong to the pipeline's `Done` step.
- MessageLife.MessagesConserved: after a losing step only the exact list of these steps and one run are given, not what becomes of the other messages.
- Services.LogicService.RunBatch: one pass without interference; interleavings are the subject of the pipeline's state machine, to which the connections, but not the service objects, are tied step by step.
- KeeperRuns.ViewCoherence: runs of fewer than 2^32 - 2 events, so that the room counter cannot wrap; nothing is said about a client that has exited, nor about the current room's own member set, which accumulates.
- Queued messages of the keeper are frames by value, not objects; a message's identity and ownership are modelled in the connections and in the pipeline.
- Creating a context and pushing it is one step, as the new context is invisible to other threads before the push; the network service's hand-over of a message is two steps, `Enqueue` and `WriteData`, and a write that fails a third; a connection's callbacks are atomic with respect to its deletion.
- The text of an error is determined by its number, as in the program; log lines are dropped.
- Starting: the start handshake and its closure, listening, accepting and connecting sockets, event registration; connections appear through an accept step, ready ones through read and write steps.
- Stopping: joining threads, dropping all connections at exit, what is leaked at shutdown, unsynchronised reads of the running flag.
- Settling.SettlesExactly: a hand-over's own write is a step of the server's once `send` has returned; whether it returns is up to the peer, and that the operating system lets a thread run at all is not modelled. Connection ids must not run out.
- Locks.OnlyPeersBlock: waiting for work on a condition variable ends a job; the locks of the event library and joining threads are not modelled.
- Connection ids are bounded below 2^64 - 1, frame lengths within int, and no length word in the narrow band where adding the head would overflow int.
- A message that arrives while its service is stopped is leaked by the program; only its context is modelled then.
- The window layout, the option parser, start-up code and the logger.
- The demo message handlers of the base services, which the dispatch never reaches, and connecting to a remote address.
