# Buddler Joe server core in Dafny

This project models the networking core of the Buddler Joe multiplayer game and the string parsing around it:

- **`Net`** (`server_logic.dfy`): the server's registry. It holds the player map, the client-thread map and the lobby map. It allocates client ids as connections are accepted and routes packets to one client, to a lobby, to the players outside any lobby, or to everyone. It also removes a player that leaves.
- **`PlayerHandling`** (`client_thread.dfy`): the per-connection reading loop. It frames every line into a five-character packet code and its data, and dispatches the code to the packet that handles it.
- **`ItemPackets`** (`packet_spawn_item.dfy`): the SPAWN_ITEM packet. It covers the two receiving constructors, validation of the `║`-separated payload with accumulating errors, and the server-side and client-side processing.
- **`GameStatusPackets`** (`packet_ready.dfy`): the READY packet, with which the creator of a lobby starts its round.
- **`FontMeshCreator`** (`meta_file.dfy`): the reader of bitmap-font description files. It handles `key=value` tokens per line, comma-separated int lists, padding arithmetic and the per-character table keyed by id. Only the integer and string parts are modelled.
- **`NetworkOnlyClient`** (`start_network_only_client.dfy`): the console client's parsing. It covers the `<ip>:<port>` argument, the classification of console lines into commands, and the answer to the first-login question.
- **`JavaLang`** (`java_lang.dfy`): the parts of the Java library the core relies on, with their Java semantics:
  - `String.split` with a one-character separator or the regular expression `"."`, dropping trailing empty strings.
  - `Integer.parseInt` as a partial function, including its 32-bit range and its failure on `null`.
  - `Integer.toString`, `trim`, lower-casing, and 32-bit wrap-around.

Outbound traffic is an append-only log `outbox` of `(recipient, packet)` deliveries. A socket close is an entry in `closedSockets`. A thread started for an accepted connection is an entry in `started`. Iteration over a `HashMap` follows an unspecified order, so the model makes no assumption about it: `IterationOrder` picks some enumeration of the key set, and the routing contracts hold for every such order.

## Model

| member | source | states |
|---|---|---|
| Net.ServerLogic.constructor | src/main/java/net/ServerLogic.java:61-74 | A new server has no players, threads or lobbies, and has sent nothing |
| Net.ServerLogic.WaitForPlayers | src/main/java/net/ServerLogic.java:270-281 | After `n` accepted connections, threads are started for the first `n` ids of the wrapping `int` counter in order, and the thread map gains exactly those ids (a repeated id replaces the thread already stored under it) |
| Net.AcceptedIdsSequential | src/main/java/net/ServerLogic.java:271-278 | While the `int` counter has not wrapped (at most 2^31 − 1 connections) the accepted ids are 1, 2, 3, … in order, strictly increasing |
| Net.IdOfClosedForm | src/main/java/net/ServerLogic.java:271-278 | Connection k gets id k + 1 up to 2^31 − 1, and k + 1 − 2^32 after the counter wraps |
| Net.IdOfPeriodic | src/main/java/net/ServerLogic.java:271-278 | Connection k + 2^32 gets the same id as connection k |
| Net.AcceptedIdsDistinct | src/main/java/net/ServerLogic.java:271-278 | Among the first 2^32 connections no id is handed out twice |
| Net.IdsWrap | src/main/java/net/ServerLogic.java:271-278 | Connection 2^31 − 1 gets the negative id −2^31, and connection 2^32 gets id 1 again, the first connection's id |
| Net.ServerLogic.SendPacketToClient | src/main/java/net/ServerLogic.java:102-107 | Exactly one delivery to the receiver when it has a thread; nothing when it has none |
| Net.ServerLogic.SendPacketToLobby | src/main/java/net/ServerLogic.java:116-125 | The outbox grows by one delivery per lobby member that has a thread, in member order; a missing or empty lobby sends nothing |
| Net.ToLobbyExactlyOnce | src/main/java/net/ServerLogic.java:116-125 | With distinct members, every member with a thread receives the lobby packet exactly once, and nobody else receives it |
| Net.ServerLogic.SendToClientsNotInALobby | src/main/java/net/ServerLogic.java:133-143 | The outbox grows by deliveries to the players with `curLobbyId == 0`, in some enumeration order of the player map |
| Net.ServerLogic.SendIfNotInALobby | src/main/java/net/ServerLogic.java:136-138 | One player of the loop: its id is added to the players sent to when its lobby id is 0, and the outbox grows by exactly that delivery |
| Net.NotInALobbySelects | src/main/java/net/ServerLogic.java:135-137 | The selected ids are exactly the enumerated players outside any lobby, each at most once |
| Net.ToUnlobbiedExactlyOnce | src/main/java/net/ServerLogic.java:133-143 | Every registered player outside any lobby that has a thread receives the packet exactly once; no other client receives it |
| Net.ServerLogic.SendBroadcastPacket | src/main/java/net/ServerLogic.java:150-154 | The outbox grows by deliveries to every registered player, in some enumeration order |
| Net.BroadcastExactlyOnce | src/main/java/net/ServerLogic.java:150-154 | Every registered player with a thread receives the broadcast exactly once; no other client receives it |
| Net.DeliveriesToCount | src/main/java/net/ServerLogic.java:102-107 | Along a list of ids, a client with a thread receives as many packets as its id occurs; a client without a thread receives none |
| Net.IterationOrder | src/main/java/net/ServerLogic.java:135 | The loop over a key set visits every key exactly once |
| Net.LobbyOf | src/main/java/net/ServerLogic.java:253-259 | A client has a lobby exactly when its player exists and the player's `curLobbyId` names an existing lobby, and then it is that lobby |
| Net.ServerLogic.GetLobbyForClient | src/main/java/net/ServerLogic.java:253-259 | Gives the sender's lobby exactly when the player exists and its `curLobbyId` names an existing lobby; null otherwise |
| Net.ServerLogic.RemovePlayer | src/main/java/net/ServerLogic.java:180-245 | An absent id changes nothing. A present player is dropped from both maps, its socket is closed if it has a thread, and it leaves its lobby. The lobby is informed (chat line, lobby info, then an overview to unlobbied players) only when the player was in an existing lobby. The departing client never receives a notification |
| Net.ServerLogic.Unregister | src/main/java/net/ServerLogic.java:196-219 | A registered player's socket is closed when it has a thread, and it is dropped from the player and thread maps. It leaves its lobby exactly when that lobby exists, and the answer reports that case, in which the lobby gets informed |
| Net.ServerLogic.InformLobbyOfLeave | src/main/java/net/ServerLogic.java:222-236 | Sends the "disconnected" chat line and the lobby info to the lobby, then the "OK║" overview to the unlobbied players; every delivery goes to a client that still has a thread |
| Net.Without | src/main/java/net/ServerLogic.java:213 | Removing a member from a lobby drops exactly that id and keeps every other member |
| Net.RemovePlayerTwice | src/main/java/net/ServerLogic.java:190-194 | After a second `removePlayer` for the same id, the player, thread and lobby maps, the outbox and the closed sockets are exactly as the first call left them; the two calls together drop the id from the player and thread maps, take it out of its lobby and close its socket at most once, exactly as one call does |
| PlayerHandling.Frame | Buddler-Joe/src/main/java/net/playerhandling/ClientThread.java:75-88 | A line shorter than 5 is not framed. Otherwise the code is the first five characters. The data is empty for a line of 5 or 6 characters and everything after index 5 otherwise |
| PlayerHandling.FrameRoundTrip | Buddler-Joe/src/main/java/net/playerhandling/ClientThread.java:80-88 | Framing `code + c + data` gives back `code` and `data`, whatever the separator character `c` is |
| PlayerHandling.FrameCodeOnly | Buddler-Joe/src/main/java/net/playerhandling/ClientThread.java:80-88 | A five-character line is a code with empty data |
| PlayerHandling.FrameIgnoresSeparator | Buddler-Joe/src/main/java/net/playerhandling/ClientThread.java:80-88 | The character at index 5 is never examined |
| PlayerHandling.Dispatch | Buddler-Joe/src/main/java/net/playerhandling/ClientThread.java:95-146 | The switch handles a type exactly when it is one of the fourteen listed types |
| PlayerHandling.CreateLobbyStatusJoins | Buddler-Joe/src/main/java/net/playerhandling/ClientThread.java:119-124 | CREATE_LOBBY_STATUS is handled by the join-lobby packet, like JOIN_LOBBY |
| PlayerHandling.OnlyLoginInline | Buddler-Joe/src/main/java/net/playerhandling/ClientThread.java:97-103 | LOGIN, and only LOGIN, is processed inline instead of through a packet object |
| PlayerHandling.DispatchDistinct | Buddler-Joe/src/main/java/net/playerhandling/ClientThread.java:96-143 | Each handled type yields its own packet variant; the only shared one is CREATE_LOBBY_STATUS with JOIN_LOBBY |
| PlayerHandling.ClientThread.constructor | Buddler-Joe/src/main/java/net/playerhandling/ClientThread.java:41-55 | A new thread has its client id, an open socket and nothing handled |
| PlayerHandling.StepOf | Buddler-Joe/src/main/java/net/playerhandling/ClientThread.java:64-156 | One read leads to at most one handling. A read that closes the socket without a handling is exactly a failed read or a framed code without a packet type. A read that closes it after a handling is one whose packet threw; a read after which the loop goes on has a packet that did not throw |
| PlayerHandling.ClientThread.Run | Buddler-Joe/src/main/java/net/playerhandling/ClientThread.java:63-158 | The handled log grows by exactly the loop's specification over the reads, and the socket is closed exactly when that specification closes it |
| PlayerHandling.ClosedIffSomeReadCloses | Buddler-Joe/src/main/java/net/playerhandling/ClientThread.java:64-156 | The loop closes the socket iff one of the reads closes it: a failed read, a code without a packet type, or a packet whose construction or processing throws |
| PlayerHandling.HandledLine | Buddler-Joe/src/main/java/net/playerhandling/ClientThread.java:96-156 | A line of a handled type is processed; if its packet throws, the socket is closed after it and nothing later is handled, otherwise the loop goes on |
| PlayerHandling.ShortLineSkipped | Buddler-Joe/src/main/java/net/playerhandling/ClientThread.java:75-78 | A line shorter than 5 characters triggers no processing, and the loop goes on |
| PlayerHandling.EndOfStreamSkipped | Buddler-Joe/src/main/java/net/playerhandling/ClientThread.java:70-72 | A null read is skipped and does not end the loop |
| PlayerHandling.NullReadsNeverClose | Buddler-Joe/src/main/java/net/playerhandling/ClientThread.java:64-72 | Any number of null reads handles nothing and never closes the socket |
| PlayerHandling.ReadFailureCloses | Buddler-Joe/src/main/java/net/playerhandling/ClientThread.java:148-156 | A failed read closes the socket, and nothing after it is handled |
| PlayerHandling.UnknownCodeCloses | Buddler-Joe/src/main/java/net/playerhandling/ClientThread.java:96-156 | A code without a packet type makes the switch throw, which closes the socket |
| PlayerHandling.UnhandledTypeSkipped | Buddler-Joe/src/main/java/net/playerhandling/ClientThread.java:95-146 | A type the switch does not list leaves `p` null: nothing is processed and the connection stays open |
| PlayerHandling.AtMostOnePerRead | Buddler-Joe/src/main/java/net/playerhandling/ClientThread.java:64-156 | Each read leads to at most one processed packet, whether or not it throws |
| ItemPackets.SpawnItemPacket.FromSender | src/main/java/net/packets/items/PacketSpawnItem.java:44-52 | The payload is split at `║`, and its first field is replaced by the sender's id, guarded against an empty split. On five fields the owner is the sender. The errors are exactly those validation finds |
| ItemPackets.SpawnItemPacket.SplitFields | src/main/java/net/packets/items/PacketSpawnItem.java:47 | The new array holds the payload's `║`-separated fields in order |
| ItemPackets.SpawnItemPacket.StampSender | src/main/java/net/packets/items/PacketSpawnItem.java:48 | The first field becomes the sender id and the other fields are kept; an empty array is left empty (the guard of the corrected stamp) |
| ItemPackets.SpawnItemPacket.FromServer | src/main/java/net/packets/items/PacketSpawnItem.java:59-64 | The payload is split at `║` unchanged, and the errors are exactly those validation finds |
| ItemPackets.SpawnItemPacket.Validate | src/main/java/net/packets/items/PacketSpawnItem.java:67-94 | A wrong field count adds one error and parses nothing. Otherwise owner, position and type are each parsed where they can be, each failure adding its own error, and a type below 1 is an error |
| ItemPackets.WrongArityOneError | src/main/java/net/packets/items/PacketSpawnItem.java:68-71 | Without exactly five fields the only error is "Invalid item data." |
| ItemPackets.ErrorsIndependent | src/main/java/net/packets/items/PacketSpawnItem.java:72-90 | On five fields the owner error appears iff the owner does not parse, the position error iff a coordinate does not parse, and the type-variable error iff the type does not parse |
| ItemPackets.NonNumericTypeTwoErrors | src/main/java/net/packets/items/PacketSpawnItem.java:86-93 | A type that does not parse yields both "Invalid item type variable." and "Invalid item type.", because the type stays 0 |
| ItemPackets.TypeBelowOneRejected | src/main/java/net/packets/items/PacketSpawnItem.java:91-93 | A parsed type below 1 ends the error list with "Invalid item type." |
| ItemPackets.ValidExactly | src/main/java/net/packets/items/PacketSpawnItem.java:67-94 | Validation finds nothing iff there are five fields, the owner, position and type parse, and the type is at least 1 |
| ItemPackets.StampedOwnerIsSender | src/main/java/net/packets/items/PacketSpawnItem.java:44-50 | After stamping, the owner field parses to the sender's id, so there is never an owner error |
| ItemPackets.Stamp | src/main/java/net/packets/items/PacketSpawnItem.java:48-49 | The first field becomes the sender id and the others are kept; an empty split stays empty |
| ItemPackets.SpawnItemPacket.ProcessData | src/main/java/net/packets/items/PacketSpawnItem.java:107-144 | An unknown item type is an error. On the server, a sender without a lobby is an error, and the packet goes to the sender's lobby only without errors. On a client, an error-free item spawns unless the local player owns it |
| ItemPackets.SeparatorOnlySplitsToNothing | src/main/java/net/packets/items/PacketSpawnItem.java:48 | A payload of only `║` splits into no fields at all |
| ItemPackets.StampAsWritten | src/main/java/net/packets/items/PacketSpawnItem.java:48-49 | The written assignment throws exactly on an empty split, and wherever it does not throw it gives the same fields as the guarded stamp |
| ItemPackets.StampAsWrittenThrows | src/main/java/net/packets/items/PacketSpawnItem.java:48-49 | As written, that payload makes the constructor throw an index-out-of-bounds exception |
| ItemPackets.SenderPayloadChecked | src/main/java/net/packets/items/PacketSpawnItem.java:44-52 | With the guard, every sender payload without five fields, including an empty split, is rejected with the single data error |
| GameStatusPackets.LobbiesAfterReady | src/main/java/net/packets/gamestatus/PacketReady.java:46-62 | READY never adds or removes a lobby |
| GameStatusPackets.ReadyPacket.constructor | src/main/java/net/packets/gamestatus/PacketReady.java:22-27 | A packet from a client has its id and no errors |
| GameStatusPackets.ReadyPacket.Validate | src/main/java/net/packets/gamestatus/PacketReady.java:40-43 | Validation never records an error |
| GameStatusPackets.ReadyPacket.ProcessData | src/main/java/net/packets/gamestatus/PacketReady.java:46-62 | Nothing happens unless the sender is logged in and in a lobby. The creator's READY sets its lobby to "running" and sends a start-round packet to it. Anyone else's READY changes nothing and sends nothing |
| GameStatusPackets.ReadyTouchesOnlyOwnLobby | src/main/java/net/packets/gamestatus/PacketReady.java:48-56 | Every lobby other than the sender's own is left as it was |
| GameStatusPackets.ReadyStartsExactly | src/main/java/net/packets/gamestatus/PacketReady.java:47-60 | The lobby becomes "running" iff a logged-in creator in a lobby sends READY |
| GameStatusPackets.ReadyIdempotent | src/main/java/net/packets/gamestatus/PacketReady.java:53 | A second READY leaves the lobby list as the first one left it |
| GameStatusPackets.ReadyTwice | src/main/java/net/packets/gamestatus/PacketReady.java:52-56 | After two READY packets from the creator, the lobby is running |
| FontMeshCreator.MetaFile.constructor | src/main/java/engine/render/fontmeshcreator/MetaFile.java:44-52 | A new reader is at the first line with no values and no characters |
| FontMeshCreator.MetaFile.ProcessNextLine | src/main/java/engine/render/fontmeshcreator/MetaFile.java:67-85 | The values are cleared first. At the end of input the result is false with no values. Otherwise the values are the pairs of the next line, a later duplicate key winning, and the reader advances one line |
| FontMeshCreator.StoreAllLastWins | src/main/java/engine/render/fontmeshcreator/MetaFile.java:78-83 | A key maps to the value of its last pair on the line |
| FontMeshCreator.StoreAllOnlyPairs | src/main/java/engine/render/fontmeshcreator/MetaFile.java:79-82 | Only tokens that split at `=` into exactly two parts are stored |
| FontMeshCreator.MetaFile.GetValueOfVariable | src/main/java/engine/render/fontmeshcreator/MetaFile.java:93-95 | A present variable gives exactly what `Integer.parseInt` gives for its text; a missing one gives null |
| FontMeshCreator.IntList | src/main/java/engine/render/fontmeshcreator/MetaFile.java:104-111 | A successful parse gives one int per comma-separated part |
| FontMeshCreator.MetaFile.GetValuesOfVariable | src/main/java/engine/render/fontmeshcreator/MetaFile.java:104-111 | A missing variable throws a null-pointer exception, and a non-int part a number-format exception. Otherwise the result is a fresh array of the parts' ints, in order |
| FontMeshCreator.IntListRoundTrip | src/main/java/engine/render/fontmeshcreator/MetaFile.java:104-111 | Ints written out comma-separated are read back as the same list |
| FontMeshCreator.IntListOfParsed | src/main/java/engine/render/fontmeshcreator/MetaFile.java:107-109 | When every part parses as an int, the array holds exactly those ints in their order |
| FontMeshCreator.NoSeparatorInInt | src/main/java/engine/render/fontmeshcreator/MetaFile.java:106 | An int's decimal text is non-empty and contains no comma, so the split keeps it whole |
| FontMeshCreator.MetaFile.LoadPaddingData | src/main/java/engine/render/fontmeshcreator/MetaFile.java:137-142 | Reads the first line's padding. It succeeds iff there are at least four ints. Then `paddingWidth` is left plus right and `paddingHeight` is top plus bottom, in 32-bit arithmetic |
| FontMeshCreator.MetaFile.ReadPadding | src/main/java/engine/render/fontmeshcreator/MetaFile.java:139-141 | Succeeds exactly when the padding variable holds at least four ints. Then `padding` holds those ints, and the width and height are the int sums of the left and right and of the top and bottom sides |
| FontMeshCreator.MetaFile.LoadLineSizes | src/main/java/engine/render/fontmeshcreator/MetaFile.java:148-153 | Reads the next line. It succeeds iff `lineHeight` is an int, and the line height in pixels is that value minus `paddingHeight` |
| FontMeshCreator.CharacterLine | src/main/java/engine/render/fontmeshcreator/MetaFile.java:178-209 | A missing or non-int id yields no entry. A glyph's width and height are reduced by the padding minus 6 |
| FontMeshCreator.GlyphSizeExact | src/main/java/engine/render/fontmeshcreator/MetaFile.java:194-195 | A glyph's width is `width - (paddingWidth - 6)` and its height `height - (paddingHeight - 6)`, exactly, when no 32-bit overflow can occur |
| FontMeshCreator.MetaFile.LoadCharacter | src/main/java/engine/render/fontmeshcreator/MetaFile.java:178-209 | No id gives nothing. The space character records its advance and is not returned. Any other id gives its glyph. A non-int field throws |
| FontMeshCreator.MetaFile.StoreCharacter | src/main/java/engine/render/fontmeshcreator/MetaFile.java:164-167 | One loop step stores the current line's glyph, or records the space advance, exactly as the specification of the remaining lines says |
| FontMeshCreator.MetaFile.LoadCharacterData | src/main/java/engine/render/fontmeshcreator/MetaFile.java:160-169 | Skips two lines, then consumes every remaining line to the end of input, storing characters by id |
| FontMeshCreator.MetaFile.LoadCharacters | src/main/java/engine/render/fontmeshcreator/MetaFile.java:163-168 | The loop fails exactly when reading the remaining lines in order fails. On success it has reached the end of the file, and the table and space advance are the ones those lines produce |
| FontMeshCreator.SpaceNeverStored | src/main/java/engine/render/fontmeshcreator/MetaFile.java:163-189 | The space character is never put in the character table |
| FontMeshCreator.LastGlyphWins | src/main/java/engine/render/fontmeshcreator/MetaFile.java:163-168 | The glyph of any character line is the table's entry for its id when no later line describes the same id |
| FontMeshCreator.EntryKept | src/main/java/engine/render/fontmeshcreator/MetaFile.java:163-168 | An entry whose id no line describes is kept unchanged |
| FontMeshCreator.MetaFile.LoadHeader | src/main/java/engine/render/fontmeshcreator/MetaFile.java:47-49 | Succeeds iff the first line has at least four padding ints and the second line's line height and atlas width are ints. Then two lines have been read, the padding is the first line's, the totals are its sums, and the line height in pixels is the second line's minus the vertical padding |
| FontMeshCreator.MetaFile.Load | src/main/java/engine/render/fontmeshcreator/MetaFile.java:44-52 | Succeeds iff the header does and the lines after the first four load with the header's padding. Then every line has been read, the padding totals and line height are the header's, and the table and space advance are those of the character lines |
| NetworkOnlyClient.PortOf | Buddler-Joe/src/main/java/net/StartNetworkOnlyClient.java:152-159 | The port is always in 1..65535 |
| NetworkOnlyClient.ClientSettings.constructor | Buddler-Joe/src/main/java/net/StartNetworkOnlyClient.java:127-128 | The defaults are 127.0.0.1 and 11337 |
| NetworkOnlyClient.CheckAddress | Buddler-Joe/src/main/java/net/StartNetworkOnlyClient.java:138-148 | The loop over the parts accepts iff there are four parts, each an int from 0 to 255 |
| NetworkOnlyClient.ClientSettings.ParseArguments | Buddler-Joe/src/main/java/net/StartNetworkOnlyClient.java:125-161 | Without exactly one argument that splits at ':' into two parts, both defaults stay. Otherwise the address is kept iff it passes the IPv4 check, else 127.0.0.1. The port is kept iff it parses as an int in 1..65535, else 11337 |
| NetworkOnlyClient.PortIndependentOfIp | Buddler-Joe/src/main/java/net/StartNetworkOnlyClient.java:135-159 | The port does not depend on the address part, whatever happens to it |
| NetworkOnlyClient.IpAccepted | Buddler-Joe/src/main/java/net/StartNetworkOnlyClient.java:137-148 | The intended address check: four parts between literal dots, each an int from 0 to 255 |
| NetworkOnlyClient.IpAcceptedAsWritten | Buddler-Joe/src/main/java/net/StartNetworkOnlyClient.java:137-148 | The address check as written: the parts come from the regular-expression split `split(".")` |
| NetworkOnlyClient.AsWrittenRejectsEverything | Buddler-Joe/src/main/java/net/StartNetworkOnlyClient.java:136-150 | As written, with `split(".")`, no address passes, so the address is always 127.0.0.1 |
| NetworkOnlyClient.DottedQuadRejectedAsWritten | Buddler-Joe/src/main/java/net/StartNetworkOnlyClient.java:137 | Every dotted quad of numbers from 0 to 255, such as 10.0.0.1, passes the intended check and fails the written one |
| NetworkOnlyClient.DottedQuadAccepted | Buddler-Joe/src/main/java/net/StartNetworkOnlyClient.java:137-148 | The intended check accepts every dotted quad of numbers from 0 to 255 |
| NetworkOnlyClient.Classify | Buddler-Joe/src/main/java/net/StartNetworkOnlyClient.java:53-116 | A prefix command is recognised only with a non-empty argument |
| NetworkOnlyClient.ClassifyCommandText | Buddler-Joe/src/main/java/net/StartNetworkOnlyClient.java:53-100 | Typing a command's text, with a non-empty argument for prefix commands, is classified as that command |
| NetworkOnlyClient.ClassifiedLineIsCommandText | Buddler-Joe/src/main/java/net/StartNetworkOnlyClient.java:53-100 | A recognised line is exactly its command's text: the exact word, or the prefix followed by the non-empty argument |
| NetworkOnlyClient.Act | Buddler-Joe/src/main/java/net/StartNetworkOnlyClient.java:70-116 | A command sends a packet iff it has one of its own, or it is "connect" on a closed socket that reconnects; that packet is the first login's. A typed argument is sent verbatim. "disconnect" closes the socket, and a failed reconnection exits |
| NetworkOnlyClient.PacketLines | Buddler-Joe/src/main/java/net/StartNetworkOnlyClient.java:53-116 | A line sends a packet iff it is `lobbies`, `leave`, `info` or `disconnect`, a prefix command with an argument, or `connect` while the socket is closed and reconnection succeeds. Any other input sends nothing |
| NetworkOnlyClient.BarePrefixIgnored | Buddler-Joe/src/main/java/net/StartNetworkOnlyClient.java:70-93 | A prefix with nothing after it is no command |
| NetworkOnlyClient.LoginName | Buddler-Joe/src/main/java/net/StartNetworkOnlyClient.java:191-197 | A yes answer logs in with the system user name; any other answer is sent verbatim |
| NetworkOnlyClient.YesExamples | Buddler-Joe/src/main/java/net/StartNetworkOnlyClient.java:191 | " Yes " and "YES" count as yes, "yess" does not |
| NetworkOnlyClient.IsYesIgnoresSurroundingBlanks | Buddler-Joe/src/main/java/net/StartNetworkOnlyClient.java:191 | Blanks around an answer do not change whether it is a yes |

## Left out

- Sockets, `ServerSocket.accept`, the reader and writer streams and the write in `sendToClient`. Outbound packets are the `outbox` log, and the socket reads of a client thread are an input sequence.
- Threads, the `PingManager`, and unsynchronised access to the shared maps. The model is sequential.
- `waitForPlayers` loops forever. The model runs it for a given number of accepted connections; the id counter's 32-bit wrap-around is modelled.
- Floating point. This covers `Float.parseFloat` (the parameter `isFloat`), positions, and every `double` of the font reader (aspect ratio, per-pixel sizes, texture coordinates, offsets, advances). `imageWidth` is read only to feed these values.
- Classes whose code is not part of this model become parameters or plain state: `Lobby`, `ServerLobbyList`, `ServerPlayerList`, and the `Packet` base class (`lookupPacket` is the table `codes`; `isLoggedIn` and `isInALobby` are booleans). `Util.getFormattedTimestamp` and `getTopTen` become string parameters. `History`, `ItemMaster`, `Game` and the high-score serialiser are left out.
- `Lobby.removePlayer` is taken to drop the id from the members and nothing more: an empty lobby is not deleted. `ServerPlayer.getLobby` is taken to look up `curLobbyId` in the lobby map.
- The second `closeSocket` in `removePlayer` looks up a thread entry that has just been removed, so it never closes anything, and the model does not record it. A close that fails is not modelled.
- Item generation and the torch and dynamite effects of a spawned item. A client-side spawn is the outcome `Spawned(owner, type)`.
- The space character's code is taken as 32 (the ASCII code of ' '); the constant's own file is not part of this model.
- An `IOException` while reading a font line is not modelled: the file is a sequence of lines. Opening and closing the file are left out.
- The font reader's constructor reads the file as it is built. The model does this in `MetaFile.Load`, called after the constructor, and the constructor's exceptions are its `Threw` results.
- `Integer.parseInt` accepts ASCII digits only; Unicode digits are not modelled. Lower-casing is ASCII only.
- The console read loop of the client, the reconnection itself (whether it succeeds is the parameter `reconnected`), `System.exit`, and all logging and printing. At end of input `readLine` gives null and the command chain would throw; this is not modelled.
- NetworkOnlyClient.Act: an exception inside the repeated first login (the caught `IOException` or `StringIndexOutOfBoundsException`) is not modelled, nor is sending on a closed socket; the console answer is the parameter `answer`.
- This version of the client thread never calls `removePlayer` when the connection fails: it closes the socket and ends. The model follows the code.
- What the packets built by the client thread do is not part of this model. Whether a packet's constructor or `processData` throws a NullPointerException, which the loop catches, is the parameter `throws`. The loop catches only `IOException` and `NullPointerException` (ClientThread.java:148); any other runtime exception from a packet, such as the index-out-of-bounds exception of the SPAWN_ITEM constructor in Findings, escapes `run()` and ends the thread with its socket still open. The model does not have that outcome.
- PlayerHandling.ClientThread.Run: a `socket.close()` that itself throws keeps the source loop going (ClientThread.java:153-155); the model takes every close to succeed and end the loop.
- PlayerHandling.Frame: lengths and indices count characters, where Java counts UTF-16 code units. The two agree for text in the Basic Multilingual Plane, which the model assumes. A line with characters outside it, such as emoji, may be framed differently, and `substring(6)` could split a surrogate pair.
- After the end of the stream, `readLine` returns null on every call, so the source loop never ends and never closes its socket. The model's reads are any sequence, so lines may follow a null read. `NullReadsNeverClose` states that null reads alone never close the socket.
- ItemPackets.SpawnItemPacket.FromSender: uses the corrected stamp (see Findings). A payload that splits into no fields is recorded as "Invalid item data.", where the source throws an index-out-of-bounds exception; that behaviour is `StampAsWritten`.
- ItemPackets.SpawnItemPacket.StampSender: leaves an empty array as it is, where the written assignment throws (see Findings and `StampAsWritten`).
- ItemPackets.Stamp: the corrected stamp. It returns an empty split unchanged where the source throws (see Findings); the written behaviour is `StampAsWritten`.
- NetworkOnlyClient.ClientSettings.ParseArguments: uses the corrected address check (literal dots; see Findings), so it does not reproduce the written behaviour of always falling back to 127.0.0.1. That behaviour is `AsWrittenRejectsEverything`.

## Findings

| source | as written | input that shows it | evidently intended | confidence | as-written member | corrected member |
|---|---|---|---|---|---|---|
| src/main/java/net/packets/items/PacketSpawnItem.java:48-49 | The sender's payload is split at `║` and `dataArray[0]` is overwritten without checking that the split has a field | payload `║`, which splits to an empty array, so the assignment throws an index-out-of-bounds exception | reject the payload with "Invalid item data." like every other wrong field count | high, not executed | ItemPackets.StampAsWrittenThrows | ItemPackets.SenderPayloadChecked |
| Buddler-Joe/src/main/java/net/StartNetworkOnlyClient.java:137 | `serverIP.split(".")` uses the regular expression `.`, which matches any character, so the parts never hold digits and no address passes | argument `10.0.0.1:11337`: the address falls back to 127.0.0.1 | split at literal dots (`"\\."`), so that a dotted quad of 0..255 is accepted | high, not executed | NetworkOnlyClient.AsWrittenRejectsEverything | NetworkOnlyClient.DottedQuadAccepted |
