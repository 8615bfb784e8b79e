# GoWorld: verified model

GoWorld is a distributed game server: games hold entities, a dispatcher relays packets between
games and gates, gates serve clients. This project models its hardest parts in Dafny and proves
what they promise. `dafny verify dfyconfig.toml` checks all of it.

## What is modelled

- **The snappy codec.** `SnappyFormat` gives the tag stream of the Snappy format description
  (sections 2.1 to 2.2.3) a pure meaning, as a function from tags to bytes. `SnappyDecode` and
  `SnappyEncode` are the decoder and the compressor, imperative and on arrays, proved against that
  meaning separately; `Uvarint` is the length preamble (section 1); `SnappyStream` has the chunk
  writer and reader (chunk types of sections 4.2 and 4.3 of the framing format, without checksums)
  and composes everything into `CompressThenDecompress`.
- **Entity migration.** `Migration` is a step system of games and one dispatcher with FIFO channels
  between them; time is an input of each step. `MigrationView` cuts out what concerns one entity,
  and `MigrationProof` shows one inductive invariant and, from it, `MigrationIsSafe`: nothing is
  doubled or lost. `MigrationArrival` shows where entities go: `ArrivesAtSpace`, and `MigrationCompletes`.
  `Dispatcher` (module `DispatcherState`) and `Game` (module `Games`) are the imperative handlers,
  each proved to do what the step system says; they also cover what the step system leaves out:
  freezing, disconnected and downed games, spaces, clients and restoring. `EntityQueue` accounts
  for every packet of one entity, time-outs included. `RefCounts` balances the reference counts of
  packets against their holders; `DispatcherSteps` is the step relation of the whole dispatcher, on
  the tables and functions of `DispatcherState`, and `CountedDispatcher` the handlers that keep to it,
  with packets as objects: `References` says which references each of them loses.
  `ServiceRegistry` is the games' replica of the service registry, and a dispatcher with its games
  over any run.
- **The packet layer.** `Packet` has capacity classes, pooled buffers, fields and compression;
  `PacketConnection` has sending and the resumable receiver, over any fragmentation; `Transport`
  puts both together, from payload to payload.
- **Index structures.** `LbcHeap` (load balancing), `PubSub` (publish and subscribe),
  `FilterTree` (filtered broadcast of the gate), `Attributes` (the attribute tree).

Loops, in-place updates and objects of the source are loops, arrays and classes here; what is
proved about them is stated over pure functions of their contents. Map iteration order, fragment
sizes of reads and writes, and the times of steps are arbitrary.

## What the proofs brought to light

- `Encode` hands `encodeBlock` less room than the comment above `encodeBlock` asks for
  (room for `MaxEncodedLen` of the block, encode_other.go:109-111): the room left in `dst` after earlier blocks.
  It suffices, because a block takes at most n + n/64 + 3 bytes (`SnappyEncode.EncodeBlock`).
- A packet that finds its entity's block expired is neither handed on nor queued
  (DispatcherService.go:59-63). `EntityQueue.ExpiredBlockLoses` is such a run,
  `EntityQueue.OneLostPerBlock` bounds the loss, and `MigrationProof.MigrationIsSafe` therefore
  speaks of runs without time-outs.
- An entity that migrates arrives with the position it had: `realMigrateTo` does not use the position
  it is given (Entity.go:1093-1100), unlike entering a space of the same game. `Games.Migrate` says so.
- A game whose freeze runs out while it is connected gets new packets ahead of its queued ones;
  `DispatcherState.OrderKeptExactly` says exactly when the order is kept, and
  `DispatcherState.OvertakingRun` is a run in which it is not.
- `unblock` of a game does not reset `isBlocked`. Its queue is sent all the same
  (`DispatcherState.DispatcherService.ConnectGame`), but a restored game that disconnects before any
  packet was dispatched to it is taken for a frozen one (DispatcherService.go:611-616): its entities
  stay mapped to it until the next packet for it (`DispatcherState.MistakenRun`,
  `DispatcherState.MistakenIsDoomed`). `HandleGameDisconnected` has the exact condition.
- A tick that finds a position packet cached for a game that is not known panics in the middle
  (DispatcherService.go:823): the cache keeps packets that were given back already. An entity has no
  known game after a migrate request for an entity without an entry, for instance.
  `CountedDispatching.CountedDispatcher.SendEntitySyncInfosToGames` has the exact condition, and
  `CountedDispatching.RecycledWhileCached` is a run that ends with a recycled packet in the cache.
- `WriteAll` writes again after a time-out (gwioutil.go:29-42), but a buffered connection, which all
  connections of games, gates and dispatchers are, keeps the first error of its buffered writer
  (BufferedConnection.go:29-39): once the network reports a write as timed out, `Flush` does not
  return any more. `PacketConnections.Sink.Flush` has the exact outcomes; the errors of single writes
  that it does not look at (PacketConnection.go:146-152) come back from the flush at its end.
- A chunk length beyond the reader's buffer ends the process (decode.go:159, `gwlog.Fatalf`) instead of
  giving an error. `SnappyStream.ExitExactly` is the exact condition, and
  `SnappyStream.Writer.NeverExits` says that no stream of a writer meets it.
- `handleGameDown` broadcasts the news to the downed game too, where it is queued for the next
  connection.
- `handleClearClientFilterProps` takes the client out of all trees but leaves its `filterProps`, so
  `filterProps` alone does not say who is reached; the model keeps what each client shows beside it.
- Restoring an entity into a space other than the nil space sets both of its synchronisation flags
  (Space.go:205, before the check of `isRestore`); everything else comes back unchanged.
- Deleting an entity's dispatch entry drops its queue without releasing the packets in it
  (`CountedDispatching.CountedDispatcher.CleanupEntityInfo`); the same happens to every blocked entity
  of a game that is found to be down.
- The publish/subscribe service gets its subscriptions back over leftover attributes because nodes of
  the trie are never removed; `PubSub.FreezeRestore` is the exact condition.

## Model

| member | source | states |
|---|---|---|
| SnappyEncode.Encode | engine/lib/gwsnappy/encode.go:21-44 | succeeds exactly within the size limit; what it returns decodes to the source on 64-bit machines, and on 32-bit ones up to 2^31-1 bytes; the output stays under `MaxEncodedLen` and in `dst` when that has the room |
| SnappyEncode.EncodeBlock | engine/lib/gwsnappy/encode_other.go:112-238 | the tags emitted mean exactly the source, appended to any output so far, whatever collides in the hash table, in at most n + n/64 + 3 bytes, nothing else of `dst` touched |
| SnappyEncode.FindMatch | engine/lib/gwsnappy/encode_other.go:163-179 | a match found has four equal bytes at an earlier position and lies before the margin; the table keeps positions below the one looked up |
| SnappyEncode.EmitMatches | engine/lib/gwsnappy/encode_other.go:194-231 | each round keeps the tags meaning the source up to `nextEmit` within the amortised bound 64 len(w) <= 65 nextEmit, so that every copy refers back to bytes already produced |
| SnappyEncode.Rehash | engine/lib/gwsnappy/encode_other.go:219-230 | both table entries made after a match are below the next position, and a second match at once really agrees |
| SnappyEncode.ShiftedWord | engine/lib/gwsnappy/encode_other.go:219-228 | the 64-bit load shifted by 8 and 16 bits is the 32-bit load one and two bytes on |
| SnappyEncode.TableShift | engine/lib/gwsnappy/encode_other.go:122-125 | the table size chosen is the least one that holds the block, capped at 2^14 |
| SnappyEncode.EmitRemainder | engine/lib/gwsnappy/encode_other.go:233-237 | the literal at the end completes the meaning to the whole block within the bound |
| SnappyEncode.EmitLiteral | engine/lib/gwsnappy/encode_other.go:25-42 | writes one literal tag, in the form its length calls for, that reads back as the literal |
| SnappyEncode.EmitCopy | engine/lib/gwsnappy/encode_other.go:50-88 | the one to many copy tags written mean one copy of the whole length, in fewer bytes than the length |
| SnappyEncode.ExtendMatch | engine/lib/gwsnappy/encode_other.go:95-99 | the end returned is the first disagreement or the end of the source |
| SnappyEncode.EncodeBlocks | engine/lib/gwsnappy/encode.go:29-43 | the blocks of a source together mean the source, in at most n + n/6 + 4 bytes |
| SnappyEncode.BlockOf | engine/lib/gwsnappy/decode.go:38-78 | a length preamble and tags that mean a source of that length form a block with that meaning, on both word sizes |
| SnappyFormat.MeaningAppend | engine/lib/gwsnappy/decode_other.go:14-101 | the meaning of a tag stream is compositional: a stream after a stream continues its output |
| SnappyFormat.ExtendFollows | engine/lib/gwsnappy/decode_other.go:86-98 | a forward copy of agreeing bytes continues the source, also where the copy overlaps itself |
| SnappyFormat.ExtendAt | engine/lib/gwsnappy/decode_other.go:86-98 | byte k of a copy is the byte `offset` before it, itself perhaps copied |
| SnappyDecode.DecodeTags | engine/lib/gwsnappy/decode_other.go:14-101 | for every input and any old contents of `dst`: code 0 exactly when the tags are well formed and mean a string of just the room given, which `dst` then holds; bytes beyond the room are untouched; the unsupported-length code comes up on 32-bit machines only |
| SnappyDecode.LiteralHeader | engine/lib/gwsnappy/decode_other.go:18-51 | a literal header is accepted exactly as the format reads it, for all five header lengths |
| SnappyDecode.CopyHeader | engine/lib/gwsnappy/decode_other.go:60-84 | the offset and length of all three copy forms are those of the format |
| SnappyDecode.ForwardCopy | engine/lib/gwsnappy/decode_other.go:86-98 | the byte-wise loop produces the copy of the format, with length beyond the offset included |
| SnappyDecode.Decode | engine/lib/gwsnappy/decode.go:61-78 | fails exactly when the block has no meaning, and otherwise returns the meaning, in `dst` when that is long enough and in a new buffer when it is not |
| Uvarint.GetPut | engine/lib/gwsnappy/decode.go:38-49 | a length preamble reads back as itself, whatever follows |
| SnappyStream.Writer.WriteChunk | engine/lib/gwsnappy/encode.go:210-291 | a chunk adds exactly its bytes to the content of the stream; it is stored raw, or compressed with 512 bytes or more and a gain of over 12.5%, so it never takes more than four bytes beyond its data |
| SnappyStream.Writer.Write | engine/lib/gwsnappy/encode.go:175-208 | everything is accepted, in the sink at once or in `ibuf`, in order, for a buffered and an unbuffered writer |
| SnappyStream.Writer.WriteThrough | engine/lib/gwsnappy/encode.go:210-291 | any length is split into chunks of at most 65536 bytes whose contents make up the input |
| SnappyStream.Writer.Flush | engine/lib/gwsnappy/encode.go:294-304 | afterwards the stream holds everything accepted |
| SnappyStream.Writer.Close | engine/lib/gwsnappy/encode.go:307-314 | afterwards the stream holds everything accepted, and no more is |
| SnappyStream.OneChunk | engine/lib/gwsnappy/decode.go:132-260 | a chunk header and body read back as the bytes they stand for |
| SnappyStream.ContentAppend | engine/lib/gwsnappy/decode.go:132-260 | a stream after a stream that ends cleanly yields both contents, and ends as the second does |
| SnappyStream.Reader.ReadBody | engine/lib/gwsnappy/decode.go:145-229 | a chunk body is accepted exactly when the chunk is valid, and `decoded` then holds its bytes |
| SnappyStream.Reader.Refill | engine/lib/gwsnappy/decode.go:132-260 | moving on to the next chunk changes neither what is left to read nor how it ends, be it with an error or with the process |
| SnappyStream.Reader.Read | engine/lib/gwsnappy/decode.go:132-260 | for any destination size: what is delivered and what remains make up what remained, and the end is the one of the stream: an error, or the end of the process at a chunk length beyond the buffer |
| SnappyStream.ReadAll | engine/gwioutil/gwioutil.go:46-64 | succeeds exactly when the stream has enough bytes, and has then read its first ones, however `Read` splits them |
| SnappyStream.GWSnappyCompressor.Compress | engine/netutil/compress/gwsnappy.go:26-39 | appends a stream whose content is the input |
| SnappyStream.GWSnappyCompressor.Decompress | engine/netutil/compress/gwsnappy.go:41-44 | fills the buffer with the content of the stream, or fails as the stream ends; it ends the process if and only if an oversized chunk length comes before enough bytes do |
| SnappyStream.ExitExactly | engine/lib/gwsnappy/decode.go:157-162 | a stream ends the reader's process exactly when a chunk length beyond the buffer follows some complete chunks |
| SnappyStream.CompleteNeverExits | engine/lib/gwsnappy/decode.go:157-162 | no beginning of a complete stream does, wherever it is cut |
| SnappyStream.Writer.NeverExits | engine/lib/gwsnappy/encode.go:210-291 | so nothing that a writer wrote, in whole or in part, ends a reader's process |
| SnappyStream.CompressThenDecompress | engine/netutil/compress/gwsnappy.go:26-44 | decompressing what was compressed gives it back, with no error, for every input |
| MigrationProof.MigrationIsSafe | components/dispatcher/DispatcherService.go:41-80 | in every state of every run without time-outs: each created entity is in one table or in one REAL_MIGRATE packet, never both, with the effect of exactly the calls executed; calls taken in are executed in order, on their way, or queued; each call finds its entity; an unblocked entity is where the dispatcher sends its calls, or about to arrive there |
| MigrationProof.StepKeepsInv | components/dispatcher/DispatcherService.go:763-910 | every step of a game or the dispatcher keeps the invariant of all entities |
| MigrationProof.ExactlyOneCopy | engine/entity/Entity.go:1093-1116 | a created entity has exactly one copy |
| MigrationProof.CallFindsEntity | engine/entity/EntityManager.go:465-478 | a call that reaches a game finds its entity there |
| MigrationProof.DataTravels | engine/entity/Entity.go:1093-1116 | wherever the copy of an entity is, it carries the effect of exactly the calls executed so far |
| MigrationProof.PhaseAccounts | components/dispatcher/DispatcherService.go:41-80 | calls taken in are, in order, those executed, those on their way down, and those queued |
| MigrationProof.PhaseKnows | components/dispatcher/DispatcherService.go:896-910 | the game of an unblocked entry holds the entity or has its REAL_MIGRATE packet coming |
| MigrationProof.RealMigrateTakenView | components/dispatcher/DispatcherService.go:896-910 | the REAL_MIGRATE packet goes to the target game ahead of all calls queued for the entity |
| MigrationProof.PostedPhase | engine/entity/Entity.go:976-999 | a posted entry into a space of the same game ends the request and sends nothing |
| MigrationProof.NoCancel | engine/entity/Entity.go:1015-1024 | without time-outs no CANCEL_MIGRATE packet is ever sent |
| MigrationArrival.RunDirected | components/dispatcher/DispatcherService.go:853-881 | in every state of every run without time-outs, for a space that is created at some game and never asks to move: each QUERY_SPACE and MIGRATE_REQUEST packet about it, up or down, names no game or that one, and no game while the space does not exist |
| MigrationArrival.HandleFits | components/dispatcher/DispatcherService.go:853-910 | whatever packet the dispatcher handles, what it sends about entering the space names the game of the space |
| MigrationArrival.Answer | components/dispatcher/DispatcherService.go:853-867 | a question about the space is answered, on the same connection, with its game if the dispatcher knows of the space, and with 0 otherwise |
| MigrationArrival.KnownOnceTold | components/dispatcher/DispatcherService.go:646-653 | it knows of it once it has handled NOTIFY_CREATE_ENTITY of the space |
| MigrationArrival.KnownPlace | components/dispatcher/DispatcherService.go:646-653 | what it knows is true: the entry of the space is at its game |
| MigrationArrival.LeavesForSpace | engine/entity/Entity.go:1062-1102 | an entity that leaves on an answer about the space is on its way to the game of the space |
| MigrationArrival.StepTravels | components/dispatcher/DispatcherService.go:896-910 | an entity on its way to a game stays so with every step, or is put into the table of that game |
| MigrationArrival.ArrivesAtSpace | engine/entity/Entity.go:1062-1116 | over every such run: an entity that leaves a game on an answer about the space is on its way to the game of the space until it is in a table, and the game of that table holds the space |
| MigrationArrival.MigrationCompletes | engine/entity/Entity.go:957-1116 | an entity that asks to enter a space of another game gets there in ten steps, and a call made while it is between the games is executed there |
| Games.Game.CancelEnterSpace | engine/entity/Entity.go:1015-1024 | the request is cleared, and a CANCEL_MIGRATE packet sent exactly when a migrate request had been |
| Games.Game.EnterSpace | engine/entity/Entity.go:957-1013 | follows the protocol step for spaces here and elsewhere: the request and, for a space here, the entry in the post queue say space, position and time, and for one elsewhere the question is sent; entering the space one is in, or while another request runs, changes nothing |
| Games.Game.ServePosted | engine/entity/Entity.go:976-999 | the entity is in the posted space, at the posted position, if that still exists, and the request is over; no other entity changes |
| Games.Game.OnQuerySpaceGameIDForMigrateAck | engine/entity/Entity.go:1027-1059 | follows the protocol step, late and stale answers included |
| Games.Game.OnMigrateRequestAck | engine/entity/Entity.go:1062-1102 | follows the protocol step; the entity leaves exactly when the request is for this space, runs, and a game is given; the packet then has its kind, attributes, client, position, timers and flags, each as they were, and the space asked for; no other entity changes |
| Games.Game.OnRealMigrate | engine/entity/Entity.go:1105-1116 | follows the protocol step; the entity has the kind, attributes, client, position and timers of the packet, no request, and is in the space asked for, or in the nil space; an existing entity is refused; no other entity changes |
| Games.Migrate | engine/entity/Entity.go:1062-1116 | two games, the packet of one handled by the other: the entity is gone from the first, and in the second has the kind, attributes, client, timers and position it had, in the space asked for if that is there; it goes exactly when its request runs and is for that space, a game is given and the second game does not have it |
| Games.Game.DestroyEntity | engine/entity/Entity.go:137-158 | the entity leaves its space and the table, and no other entity changes |
| Games.Game.Enter | engine/entity/Space.go:188-226 | space, position and flags of the entity and the member set of the space change together; the nil space is not entered |
| Games.Game.Leave | engine/entity/Space.go:228-251 | the entity is in the nil space and in no member set |
| Games.EnteredOk | engine/entity/Space.go:188-226 | entering a space keeps every entity in the set of exactly its space |
| Games.LeftOk | engine/entity/Space.go:228-251 | leaving a space does too |
| Games.Game.OnCall | engine/entity/EntityManager.go:465-478 | follows the protocol step: a call is executed on its entity, or lost without one |
| Games.Game.Freeze | engine/entity/EntityManager.go:551-589 | succeeds exactly when there is one nil space; what is stored of each entity are its kind, attributes, client, position, timers, flags and space |
| Games.Game.RestoreEntity | engine/entity/EntityManager.go:276-336 | one more entity is restored as it was frozen, in its space |
| Games.Game.RestorePass | engine/entity/EntityManager.go:592-638 | a pass restores exactly the entities of its kind and puts their clients aside |
| Games.Game.Restore | engine/entity/EntityManager.go:592-653 | the three passes rebuild each entity exactly once, with its attributes, client, position, timers and space; only the synchronisation flags of entities outside the nil space are set |
| Games.FreezeThenRestore | engine/entity/EntityManager.go:551-653 | freezing a game and restoring it gives the same entities back in a consistent game, each with the kind, attributes, client, position, timers and space it had; its synchronisation flags stay in the nil space and are set elsewhere |
| Games.PassStep | engine/entity/EntityManager.go:612-638 | every space is restored before its members |
| Games.SnapshotGood | engine/entity/EntityManager.go:551-589 | frozen data of a consistent game has one nil space, and a space for every entity |
| Games.Game.OnSpaceCreated | engine/entity/Space.go:127-140 | a space is registered, and the nil space is in itself |
| DispatcherState.DispatcherService.DispatchPacket | components/dispatcher/DispatcherService.go:119-141 | in every state of all games: the packet is sent, queued or dropped as its game stands; if its game turns out to be down, all games whose freeze ran out unconnected are cleaned up |
| DispatcherState.DispatcherService.CheckBlocked | components/dispatcher/DispatcherService.go:105-123 | a freeze that ran out is over, and a game gone meanwhile is cleaned up |
| DispatcherState.DispatcherService.HandleGameDown | components/dispatcher/DispatcherService.go:620-643 | the mutual recursion ends; no entity is mapped to the game afterwards, nor to any game found to be down on the way; when none is, every game is dispatched the news just once, frozen or not |
| DispatcherState.DispatcherService.BroadcastToGames | components/dispatcher/DispatcherService.go:912-916 | ends in whatever order games are visited; no freeze that ran out is left; with no game found to be down each game is sent the packet, or has it queued during a freeze or without a connection, just once; what was sent before is never taken back |
| DispatcherState.DispatcherService.DispatchPacketToGame | components/dispatcher/DispatcherService.go:515-522 | in every state of the games: the message is sent, queued or dropped as its game stands and no other game is touched; nothing happens for an unknown game; with all games up it is the protocol step |
| DispatcherState.DispatcherService.UnblockEntity | components/dispatcher/DispatcherService.go:66-80 | in every state of the games the entry is clean and its whole queue is sent to its game, in order, or waits there as far as there is room; entries go only with games found to be down; with all games up it is the protocol step |
| DispatcherState.DispatcherService.BlockEntity | components/dispatcher/DispatcherService.go:34-39 | the deadline only grows |
| DispatcherState.DispatcherService.DispatchPacketToEntity | components/dispatcher/DispatcherService.go:41-64 | in every state of the games: handed on, queued, refused at 1000, or lost to an expired block, exactly as the queue specification says, and what is handed on is sent to its game or waits there |
| DispatcherState.DispatcherService.HandleCallEntityMethod | components/dispatcher/DispatcherService.go:763-776 | in every state of the games: nothing without an entry, and otherwise what the queue specification says, with what is handed on sent to the game of the entity or queued for it; with all games up, the protocol step |
| DispatcherState.DispatcherService.HandleQuerySpaceGameIDForMigrate | components/dispatcher/DispatcherService.go:853-867 | in every state of the games: the answer goes back on the same connection, with the game of the space asked for, or 0 when there is no entry for the space, whatever entity asks |
| DispatcherState.DispatcherService.HandleMigrateRequest | components/dispatcher/DispatcherService.go:869-881 | in every state of the games: the entity is blocked for 60 seconds or longer, with its game and queue as they were, and the request goes back on its connection |
| DispatcherState.DispatcherService.HandleCancelMigrate | components/dispatcher/DispatcherService.go:883-894 | in every state of the games: the whole queue of an entry is handed on in order, and is sent to its game or waits there; with all games up, the protocol step |
| DispatcherState.DispatcherService.HandleRealMigrate | components/dispatcher/DispatcherService.go:896-910 | in every state of the games: the packet and after it the whole queue are sent to the target game, or wait there in this order, and the entry is clean; with all games up, the protocol step |
| DispatcherState.DispatcherService.HandleNotifyCreateEntity | components/dispatcher/DispatcherService.go:646-653 | in every state of the games: the entity is on the game that created it and its queue is sent there, or waits there; with all games up, the protocol step |
| DispatcherState.FrozenQueues | components/dispatcher/DispatcherService.go:119-141 | while a freeze lasts, any number of packets for the game leave what was sent as it is, and wait in order as far as the queue has room, all of them up to a million |
| DispatcherState.PassedMore | components/dispatcher/DispatcherService.go:66-80 | messages handed on to a game in several groups fare as those handed on together: all are sent, or they wait in order as far as there is room |
| DispatcherState.DispatcherService.HandleStartFreezeGame | components/dispatcher/DispatcherService.go:478-494 | the game is told to freeze; until the time-out every packet for it is queued, or dropped by a full queue, and none is sent |
| DispatcherState.DispatcherService.HandleGameDisconnected | components/dispatcher/DispatcherService.go:595-618 | the entities of the game keep their entries if and only if it is marked as frozen, and then its queue stays too; otherwise each game is dispatched the news just once when none is found to be down, and entries of other games go only with such a game |
| DispatcherState.MistakenRun | components/dispatcher/DispatcherService.go:595-618 | a run in which a restored game disconnects before any packet was dispatched to it, and is taken for a frozen one: its entity stays mapped to it with no freeze going on |
| DispatcherState.MistakenIsDoomed | components/dispatcher/DispatcherService.go:105-125 | such a game is cleaned up by the next packet for it, at whatever time |
| DispatcherState.DispatcherService.ConnectGame | components/dispatcher/DispatcherService.go:92-161 | the whole queue is always sent, in order and ahead of anything else, frozen or not; the mark of a freeze is not reset |
| DispatcherState.DispatcherService.NotifyGameConnected | components/dispatcher/DispatcherService.go:417-421 | with no game found to be down, each game but the new one is dispatched the news just once |
| DispatcherState.DispatcherService.RestoreEntities | components/dispatcher/DispatcherService.go:376-392 | exactly the entities that other games hold are rejected; the others are unblocked entities of this game; what waited for them is sent in order, once, and no other game is touched |
| DispatcherState.DispatcherService.HandleSetGameID | components/dispatcher/DispatcherService.go:327-402 | the game is connected and an earlier connection dropped; each entity it holds is taken in, unblocked, or rejected because another game holds it. A game without a connection, restored after a freeze or new, is sent what was queued for it, then what waited for its entities, and then the answer with the games connected, the rejected entities and the registry; each other game is dispatched the news once. With no game frozen, what was sent still amounts to the registry for every connected game |
| DispatcherState.OrderKeptExactly | components/dispatcher/DispatcherService.go:119-141 | a packet comes after all earlier ones for its game if and only if it is not sent past a queue left by a freeze (of other packets), and not dropped by a full queue |
| DispatcherState.OvertakingRun | components/dispatcher/DispatcherService.go:105-141 | a run in which a packet is sent past one that was queued during a freeze |
| EntityQueue.NothingElseIsLost | components/dispatcher/DispatcherService.go:41-80 | over any operations, packets handed on and packets queued are the arrivals in order, without those refused at the limit and those lost to an expired block |
| EntityQueue.OneLostPerBlock | components/dispatcher/DispatcherService.go:59-63 | an expired block loses at most one packet |
| EntityQueue.ExpiredBlockLoses | components/dispatcher/DispatcherService.go:59-63 | a run in which the packet that finds a block expired is lost, and the one queued before it handed on |
| EntityQueue.QueueInvariant | components/dispatcher/DispatcherService.go:41-80 | an unblocked entity has an empty queue, and no queue exceeds 1000 |
| EntityQueue.ThousandWait | components/dispatcher/DispatcherService.go:41-64 | up to 1000 packets that arrive while a block lasts all wait, in order, and nothing is handed on |
| EntityQueue.MoreIsRefused | components/dispatcher/DispatcherService.go:41-64 | with 1000 waiting, whatever arrives during the block is refused |
| EntityQueue.DeadlineGrows | components/dispatcher/DispatcherService.go:34-39 | the block deadline only grows until the block ends |
| EntityQueue.ReleaseGoesHome | components/dispatcher/DispatcherService.go:66-80 | whatever ends a block, the whole queue goes in order to the game the entity has by then |
| DispatcherState.DispatcherService.HandleSrvdisRegister | components/dispatcher/DispatcherService.go:737-751 | taken when forced or when nothing is registered; then each game is dispatched it just once when none is found to be down, frozen or not; otherwise nothing happens; with no game frozen, what every connected game was sent still amounts to the registry |
| DispatcherState.FirstWins | components/dispatcher/DispatcherService.go:737-751 | among unforced registrations of a service the first one that says anything wins for good |
| DispatcherState.ForcedReplaces | components/dispatcher/DispatcherService.go:737-751 | a forced registration replaces whatever there is, and stays until another one is taken |
| DispatcherState.DeliveredSteady | components/dispatcher/DispatcherService.go:737-751 | a broadcast keeps what every connected game was sent equal to the registry |
| ServiceRegistry.ReplicaAgrees | components/game/GameService.go:348-376 | a game that handled its last SET_GAME_ID_ACK and everything after it agrees with the dispatcher, whatever it held before and whatever earlier connections lost |
| ServiceRegistry.GamesAgree | components/game/GameService.go:348-376 | so the share of every connected game equals the dispatcher's registry, in every state that its handlers keep |
| ServiceRegistry.CaughtNext | components/game/GameService.go:348-376 | a game that handles packets one by one has, from its last answer to SET_GAME_ID on, what the packets so far amount to |
| ServiceRegistry.Cluster.ValidAgrees | engine/srvdis/srvdis.go:31-54 | a connected game that is done with everything sent to it has exactly the services registered at the dispatcher |
| ServiceRegistry.Cluster.Connect | components/dispatcher/DispatcherService.go:327-402 | a game that connects, or connects again, with any replica and any entities, is connected and was answered last; the registry and all other connections are as before, and the invariant holds |
| ServiceRegistry.Cluster.HandleNext | components/game/GameService.go:293-301 | so does a game that handles the next packet |
| ServiceRegistry.Run | components/dispatcher/DispatcherService.go:327-402 | from an empty dispatcher, after any run of connections, disconnections, registrations and entity packets: the registry is the replay of the registrations, the games connected are those the events leave connected, and each of them that is done with its packets agrees with the registry |
| ServiceRegistry.Happen | components/dispatcher/DispatcherService.go:327-402 | each event changes registry and connections as it says, and nothing else does |
| ServiceRegistry.Cluster.CatchUp | components/game/GameService.go:293-301 | a game that handles all its packets ends with the registry as its share |
| ServiceRegistry.RunAndCatchUp | components/game/GameService.go:348-376 | after any run, once they handled their packets, all games that should be connected have exactly what the registrations ask for |
| ServiceRegistry.FirstIsKnown | components/dispatcher/DispatcherService.go:737-751 | so the first registration of a service that says anything, when none is forced, is what every connected game knows |
| ServiceRegistry.OthersUntouched | engine/srvdis/srvdis.go:31-54 | a packet of one dispatcher leaves the shares of others alone |
| ServiceRegistry.Srvdis.ClearByDispatcher | engine/srvdis/srvdis.go:40-54 | the share of one dispatcher goes, all others stay |
| ServiceRegistry.Srvdis.HandleSetGameIDAck | components/game/GameService.go:372-376 | the share of the dispatcher is replaced by what it sent |
| ServiceRegistry.Srvdis.HandlePackets | components/game/GameService.go:293-301 | packets one after another do to the replica what the specification says |
| RefCounts.PacketCounts.Release | engine/netutil/Packet.go:196-218 | the count never goes below zero, and at zero nobody holds the packet |
| RefCounts.PacketCounts.Share | engine/netutil/PacketConnection.go:98-114 | a packet that somebody holds may always be sent |
| RefCounts.PacketCounts.NewPacket | engine/netutil/Packet.go:97-119 | a packet out of the pool is held by nobody |
| RefCounts.HeldIsLive | engine/netutil/Packet.go:196-218 | a packet that is held anywhere has a positive count |
| RefCounts.RecycledExactly | engine/netutil/Packet.go:196-218 | apart from deleted entity entries a packet is recycled exactly when its last holder lets go |
| RefCounts.HeldOf | components/dispatcher/DispatcherService.go:51-78 | the references held in all queues are those of one queue and of the others |
| RefCounts.PacketCounts.Flush | engine/netutil/PacketConnection.go:117-163 | flushing takes exactly one reference off for each pending packet, and no other |
| RefCounts.PacketCounts.Forget | components/dispatcher/DispatcherService.go:662-664 | what is dropped without a release is lost, and nothing else |
| CountedDispatching.CountedDispatcher.DispatchPacket | components/dispatcher/DispatcherService.go:119-141 | a packet that the caller holds is sent, queued or dropped as in `DispatcherState`; the references lost are exactly those in the queues of the entries that go |
| CountedDispatching.CountedDispatcher.HandleGameDown | components/dispatcher/DispatcherService.go:620-643 | the entries of the game and of every game found down on the way go with their queues, nothing else is lost, and the news is given back; when no game is found down it is sent on the connection of each game, or held by its queue, just once where connections are not shared |
| CountedDispatching.CountedDispatcher.CleanupEntityInfo | components/dispatcher/DispatcherService.go:662-664 | the entry goes, and exactly the references in its queue are lost |
| CountedDispatching.CountedDispatcher.CleanupEntitiesOfGame | components/dispatcher/DispatcherService.go:630-643 | exactly the references in the queues of the game's entities are lost |
| CountedDispatching.CountedDispatcher.ClearPendingPackets | components/dispatcher/DispatcherService.go:163-169 | the queue of a downed game is given back, nothing is lost |
| CountedDispatching.CountedDispatcher.BroadcastToGames | components/dispatcher/DispatcherService.go:912-928 | in whatever order games are visited, exactly the queues of entries that go are lost; with no game found down, the packet is sent on the connection of each game, or held by its queue, and nothing else is sent or queued |
| CountedDispatching.CountedDispatcher.TellGames | components/dispatcher/DispatcherService.go:917-920 | a new packet for all games but some, which nothing held, is given back, whatever went down on the way; with no game found down it is sent on the connection of each other game, or held by its queue |
| CountedDispatching.CountedDispatcher.DispatchPacketToEntity | components/dispatcher/DispatcherService.go:41-64 | the packet waits, is handed on or dropped as the queue specification says; a queue handed on is sent or queued at its game in order and given back, one that goes with its entry is lost |
| CountedDispatching.CountedDispatcher.UnblockEntity | components/dispatcher/DispatcherService.go:66-80 | the queue is handed on and given back: its packets are sent on the connection of the game, or held by its queue as far as there is room, in order; other entries may go with their queues, with games found down |
| CountedDispatching.CountedDispatcher.HandleCallEntityMethod | components/dispatcher/DispatcherService.go:763-776 | the entry is as the queue specification says; without a block the message is sent, queued or dropped as its game stands, or its game is cleaned up; a queue that a block held back is sent to its game, or waits there; exactly the queues of entries that go are lost |
| CountedDispatching.CountedDispatcher.HandleMigrateRequest | components/dispatcher/DispatcherService.go:869-881 | the message is on its connection once more, and nothing is lost |
| CountedDispatching.CountedDispatcher.HandleCancelMigrate | components/dispatcher/DispatcherService.go:883-894 | the queue is sent on the connection of the entity's game, in order, or held by the queue of the game; exactly the queues of other entries that go are lost |
| CountedDispatching.CountedDispatcher.HandleRealMigrate | components/dispatcher/DispatcherService.go:896-910 | the message and then the entity's whole queue are sent on the connection of the target game, or held by its queue in this order; the queue is handed on even when its entry goes; exactly the queues of other entries that go are lost |
| CountedDispatching.CountedDispatcher.HandleNotifyCreateEntity | components/dispatcher/DispatcherService.go:646-653 | the entity is on the game, and its queue is sent there, in order, or waits there; exactly the queues of other entries that go are lost |
| CountedDispatching.CountedDispatcher.HandleNotifyDestroyEntity | components/dispatcher/DispatcherService.go:655-664 | exactly the references in the queue of the entity are lost |
| CountedDispatching.CountedDispatcher.HandleLoadEntitySomewhere | components/dispatcher/DispatcherService.go:682-711 | an entity without a game is mapped to the game chosen and blocked, and the message goes there; otherwise only an entry is made; exactly the queues of entries that go are lost |
| CountedDispatching.CountedDispatcher.HandleSrvdisRegister | components/dispatcher/DispatcherService.go:737-751 | a registration that is taken goes, as the same packet, to every game when none is found down: on its connection, or into its queue; one that is not changes nothing; exactly the queues of entries that go are lost |
| CountedDispatching.CountedDispatcher.HandleStartFreezeGame | components/dispatcher/DispatcherService.go:478-494 | the message goes back as the answer; for an unknown game the handler panics and nothing changes |
| CountedDispatching.CountedDispatcher.HandleSetGameID | components/dispatcher/DispatcherService.go:327-402 | it panics exactly for game 0 or a connection that has said who it is, having done nothing; otherwise the game has the connection and its entities, unblocked, but for those that another game holds, and all other entries left are as before; what is lost are the queues of entries that go with an earlier connection or with games found down |
| CountedDispatching.CountedDispatcher.HandleSyncPositionYawFromClient | components/dispatcher/DispatcherService.go:789-814 | each game concerned has one packet in the cache; a new one is held by the cache alone |
| CountedDispatching.CountedDispatcher.SendEntitySyncInfosToGames | components/dispatcher/DispatcherService.go:816-827 | the tick completes if and only if every game with a cached packet is known, and clears the cache; the packets are dispatched each to its own game, sent on its connection or held by its queue, and given back; at an unknown game exactly the packets before it were, the cache still has them, and counts still agree with queues |
| CountedDispatching.RecycledWhileCached | components/dispatcher/DispatcherService.go:816-827 | a run in which such a tick leaves a recycled packet in the cache |
| CountedDispatching.CountedDispatcher.HandleMessage | components/dispatcher/DispatcherService.go:214-277 | a new packet that nothing held is handled as its kind asks for (`DispatcherSteps.Handled`), or its handler panics having done nothing (`DispatcherSteps.Panics`), and is then released, or not; counts, queues, tables and cache agree afterwards |
| CountedDispatching.CountedDispatcher.Step | components/dispatcher/DispatcherService.go:214-285 | every operation is one of the step relation (`DispatcherSteps.StepOf`); it fails exactly at a tick with a packet cached for an unknown game, with counts and queues in agreement, and with the cache too when that was the first packet |
| CountedDispatching.CountedDispatcher.Run | components/dispatcher/DispatcherService.go:214-285 | a run does its operations one after another, each by the step relation, and stops exactly at a tick that fails; whether or not it does, a packet that anything holds has a positive count, and one that was not lost is recycled exactly when nothing holds it |
| DispatcherSteps.TraceAmounts | components/dispatcher/DispatcherService.go:214-285 | over any such run the registry is the replay of the registrations, and the games known are those before and those that said who they are |
| DispatcherSteps.HandledAmounts | components/dispatcher/DispatcherService.go:214-277 | no other message touches registry or known games |
| DispatcherSteps.TickFails | components/dispatcher/DispatcherService.go:816-827 | a tick sends everything if and only if each game with a cached packet is known |
| DispatcherSteps.PassedMoreTo | components/dispatcher/DispatcherService.go:66-80 | packets handed on to a game in several groups are sent or queued as those handed on together |
| References.SpreadOne | components/dispatcher/DispatcherService.go:912-928 | a packet dispatched to one more game, in whatever order, is on its connection or in its queue, with all before it where they were |
| References.MovedTrans | components/dispatcher/DispatcherService.go:620-643 | what is lost in one dispatch after another is what was in the queues of all entries that went |
| References.GoneTogether | components/dispatcher/DispatcherService.go:327-402 | also across the two rounds of a reconnection |
| References.UncachedMore | components/dispatcher/DispatcherService.go:816-827 | taking packets out of the cache one by one loses exactly the queues of entries that went |
| References.MidwayOne | components/dispatcher/DispatcherService.go:912-916 | in the middle of a broadcast, entries of games that a clean-up has reached are gone |
| Packets.InitCapacities | engine/netutil/Packet.go:55-76 | the loop computes the capacity classes, each four times the one before |
| Packets.CapOfLen | engine/netutil/Packet.go:78-85 | the least class that holds the length, or the greatest one |
| Packets.Pools.AssureCapacity | engine/netutil/Packet.go:126-150 | the payload is kept; there is room afterwards, or the buffer is of the greatest class; no buffer is in a pool and in a packet, or in two packets |
| Packets.Pools.AppendBytes | engine/netutil/Packet.go:323-329 | the payload grows by the bytes, unless it would exceed the limit |
| Packets.Pools.Release | engine/netutil/Packet.go:196-218 | the last release empties the packet and returns its buffer, which no packet has any more |
| Packets.Pools.Alloc | engine/netutil/Packet.go:97-119 | a packet with one reference, no payload and a buffer of its own |
| Packets.Pools.Compress | engine/netutil/Packet.go:534-571 | with 512 bytes or more and a gain of more than four bytes the payload is replaced by its compressed form and length, in a buffer of the same size; otherwise nothing changes |
| Packets.Pools.Decompress | engine/netutil/Packet.go:573-597 | succeeds exactly when the compressed form is sound, and restores payload and bit |
| Packets.PackUnpack | engine/netutil/Packet.go:534-597 | for any compressor that round-trips, compression followed by decompression is the identity and never makes a packet longer |
| Packets.PackedMeans | engine/netutil/Packet.go:534-571 | the compressed form is what the compressor gives, and after it the length of the payload in four bytes, least first |
| Packets.Packet.PopUint32 | engine/netutil/Packet.go:272-277 | the four last bytes come off as the number they are |
| Packets.ReadBack | engine/netutil/Packet.go:227-508 | any sequence of appended fields reads back as itself, whatever follows |
| Packets.WrittenMeans | engine/netutil/Packet.go:227-508 | a number takes its width in bytes, least first; a byte string is written after its length in four bytes |
| PacketConnections.Sink.WriteAll | engine/gwioutil/gwioutil.go:25-43 | on a plain or buffered connection: all bytes are taken in order, however it splits them, unless it fails; then a prefix was and the error is reported. A time-out that a buffered connection keeps makes the call go on for ever |
| PacketConnections.Sink.Flush | engine/netutil/PacketConnection.go:117-163 | the pending packets are on the wire in order, each as its length word and payload, when no error was met; it returns without one if and only if none was met or, on a plain connection only, there were several packets; a prefix was taken in any case |
| PacketConnections.Receiver.RecvPacket | engine/netutil/PacketConnection.go:171-223 | over any fragmentation: each call takes bytes off the network unless it stalls or is broken, which is reported exactly then; a packet is exactly the next bytes on the wire, a packet that is not complete loses no byte, and a length word is refused only when it is out of range |
| PacketConnections.Receiver.HeldBack | engine/netutil/PacketConnection.go:171-223 | the bytes kept are never enough for the next packet: one that is complete was returned |
| PacketConnections.Receiver.RecvNext | engine/netutil/PacketConnection.go:171-230 | fed with what was sent, it returns just the next packet sent, or takes more off the network and reports that it is not complete |
| PacketConnections.Poll | engine/netutil/PacketConnection.go:171-230 | any number of calls returns a prefix of the packets sent, with the rest still to be read; once the network has delivered everything, all of them |
| PacketConnections.ReceiveAll | engine/netutil/PacketConnection.go:171-230 | calling until n packets came, or the network is broken, ends over any fragmentation, with the first n sent, or the first ones |
| Transport.SendAndReceive | engine/netutil/PacketConnection.go:98-230 | payloads that are packed, compressed or not, flushed, split by the network, received and decompressed come out as they were when neither end fails; otherwise the first ones do |
| Transport.FrameBack | engine/netutil/Packet.go:534-597 | the frame of a payload is one that a receiver accepts, is compressed exactly when that gains more than four bytes from 512 bytes on, and unpacks to the payload |
| PacketConnections.DataUnique | engine/netutil/PacketConnection.go:117-163 | what is on the wire can be read in one way only |
| PacketConnections.DataBytes | engine/netutil/PacketConnection.go:117-163 | a packet on the wire is the payload after its length in four bytes, least first, with the top bit set exactly for a compressed one |
| PacketConnections.WireValid | engine/netutil/PacketConnection.go:171-223 | packets sent never make a length word that is refused |
| LbcHeap.Heap.ChooseGame | components/dispatcher/DispatcherService.go:529-542 | the game chosen has the least load of all; its load grows by 0.1 unless it is 10 or more above what the game reported, and no other load changes; the heap has the same games, in order, each at its index |
| LbcHeap.Heap.ChooseEach | components/dispatcher/DispatcherService.go:529-542 | as many choices as there are games, all with the same load, choose each game once |
| LbcHeap.Heap.Chosen | components/dispatcher/lbcheap.go:72-78 | the load grows by 0.1, unless it is 10 or more above what the game reported; nothing else changes but the order of the heap |
| LbcHeap.Heap.Report | components/dispatcher/DispatcherService.go:950-960 | a reported load takes its place |
| LbcHeap.Heap.NewGame | components/dispatcher/lbcheap.go:39-43 | a new game is added once, with load 0 |
| LbcHeap.Heap.Swap | components/dispatcher/lbcheap.go:33-37 | two entries change places and indexes |
| LbcHeap.Heap.Fix | components/dispatcher/DispatcherService.go:950-960 | a heap disturbed at one index is one again, with the same entries |
| LbcHeap.TopIsLeast | components/dispatcher/lbcheap.go:29-31 | the top of a heap is the least of all |
| LbcHeap.DownStep | components/dispatcher/lbcheap.go:25-37 | a step down moves the disturbance to the child it swapped with |
| LbcHeap.UpStep | components/dispatcher/lbcheap.go:25-37 | a step up moves the disturbance to the parent it swapped with |
| PubSub.PublishSubscribeService.Publish | ext/pubsub/PublishSubscribeService.go:69-100 | one call to each subscriber for each of its matching subscriptions, in whatever order, and no other; a subject with a star is refused |
| PubSub.PublishSubscribeService.PublishInTree | ext/pubsub/PublishSubscribeService.go:80-100 | the walk from a node calls for exactly the matching subscriptions from there on |
| PubSub.PublishSubscribeService.Subscribe | ext/pubsub/PublishSubscribeService.go:124-161 | the relation gains the subscription, an ill-formed subject is refused; trie and inverse maps stay inverse |
| PubSub.PublishSubscribeService.Unsubscribe | ext/pubsub/PublishSubscribeService.go:164-201 | the relation loses the subscription; trie and inverse maps stay inverse |
| PubSub.PublishSubscribeService.UnsubscribeAll | ext/pubsub/PublishSubscribeService.go:204-218 | the relation loses exactly the subscriptions of the subscriber |
| PubSub.PublishSubscribeService.OnFreeze | ext/pubsub/PublishSubscribeService.go:221-237 | the attributes hold exactly the relation, over whatever was left in them |
| PubSub.PublishSubscribeService.OnRestored | ext/pubsub/PublishSubscribeService.go:240-264 | the relation gains exactly what the attributes hold |
| PubSub.FreezeRestore | ext/pubsub/PublishSubscribeService.go:221-264 | freezing and restoring gives the relation back if and only if no subscriber is left in the attributes under a subject that the trie does not know |
| PubSub.FreezeThenRestore | ext/pubsub/PublishSubscribeService.go:221-264 | in every state that the operations reach, it does |
| PubSub.Run | ext/pubsub/PublishSubscribeService.go:124-264 | after any sequence of operations and reloads the relation is the one they ask for |
| PubSub.ReplayExactly | ext/pubsub/PublishSubscribeService.go:124-218 | what a run asks for, read off its operations: a subscription holds at the end if and only if some operation asks for it and none after that ends it |
| PubSub.ParsedMatches | ext/pubsub/PublishSubscribeService.go:120-140 | a subject with a star at its end reaches what starts with its stem, another one itself only |
| PubSub.ParsedInjective | ext/pubsub/PublishSubscribeService.go:124-140 | two subjects stand for the same subscription only when they are the same |
| FilterTrees.NextLargerKeyIsNext | engine/gwutils/gwutils.go:40-42 | t > s if and only if t >= s with a zero byte appended, in byte order |
| FilterTrees.LtExactly | components/gate/FilterTree.go:27-30 | the order of the trees is the byte order of strings: they agree up to some place, where the first ends or has the smaller byte |
| FilterTrees.SatisfiesExactly | components/gate/FilterTree.go:51-102 | what each of the six operators means in that order |
| FilterTrees.FilterTree.Insert | components/gate/FilterTree.go:32-37 | the tree gains the item and stays ascending |
| FilterTrees.FilterTree.Remove | components/gate/FilterTree.go:39-49 | the tree loses the item if it has it |
| FilterTrees.FilterTree.Visit | components/gate/FilterTree.go:51-102 | for each of the six operators, exactly the items whose value compares so in byte order, in ascending order |
| FilterTrees.Parts | components/gate/FilterTree.go:51-102 | the ranges visited for an operator make up the satisfying items |
| FilterTrees.VisitedOnce | components/gate/FilterTree.go:51-102 | no client is visited twice |
| FilterTrees.ShownVisited | components/gate/GateService.go:387-410 | a client is reached if and only if it shows a value that compares so in byte order |
| FilterTrees.GateService.HandleSetClientFilterProp | components/gate/GateService.go:317-341 | the client shows the new value and no other under the key; trees and properties agree |
| FilterTrees.GateService.HandleClearClientFilterProps | components/gate/GateService.go:343-357 | the client shows nothing any more |
| FilterTrees.GateService.OnClientProxyClose | components/gate/GateService.go:233-250 | a closed client is in no tree |
| FilterTrees.GateService.OnNewClientProxy | components/gate/GateService.go:226-231 | a new client shows nothing |
| FilterTrees.GateService.HandleCallFilteredClientProxies | components/gate/GateService.go:387-410 | each client that shows a value that compares in byte order as the operator says is called once and nobody else; an empty key means every client |
| Attributes.UniformTwice | engine/entity/attr.go:39-75 | making a document uniform a second time changes nothing |
| Attributes.MeaningKept | engine/entity/attr.go:39-75 | making a value uniform keeps its truth value, text, real number or integer, unsigned 64-bit integers taken as signed ones; the result is a bool, string, float64 or int64 |
| Attributes.UniformMeans | engine/entity/attr.go:39-75 | so a uniform document has the keys, the items and, at each leaf, the meaning of the original |
| Attributes.MapAttr.Set | engine/entity/MapAttr.go:83-116 | the value is under the key and linked to the map; a value that has a parent already is refused, after it was stored |
| Attributes.MapAttr.Pop | engine/entity/MapAttr.go:294-310 | the key is gone and its value has no parent |
| Attributes.MapAttr.AssignMap | engine/entity/MapAttr.go:434-449 | the tree holds what it held with the document over it, made uniform, with the meaning of every value kept and properly linked; refused exactly when the document has a value of an unsupported type |
| Attributes.MapAttr.ToMap | engine/entity/MapAttr.go:398-411 | the document the tree holds |
| Attributes.ListAttr.Append | engine/entity/ListAttr.go:265-292 | the value follows the others and is linked to the list |
| Attributes.ListAttr.AssignList | engine/entity/ListAttr.go:342-357 | the items, made uniform with their meaning kept, follow those the list had |
| Attributes.ListAttr.ToList | engine/entity/ListAttr.go:325-339 | the items the list holds |
| Attributes.TwoRounds | engine/entity/MapAttr.go:398-449 | a round through a fresh tree gives back a document with the same keys, items and values by meaning, and a second one changes nothing |
| Attributes.GetPathFromOwner | engine/entity/attr.go:12-36 | the keys up to the root, read backwards, lead from the root to the value |
| Attributes.LeadsUp | engine/entity/attr.go:12-36 | one step along the parent link is one step back along the path |

## Left out

- SnappyEncode.EncodeBlock: does not state how well it compresses; the skip heuristic and the table size decide which matches are found, and any choice is correct.
- SnappyDecode.Decode: the `or` of disjoint bit fields is written as addition, and shifts as division; lengths are unbounded numbers wrapped where a 32-bit `int` would wrap.
- SnappyStream.Writer.WriteThrough: sinks do not fail; the source ends the process when one does. A closed writer is the one error state.
- SnappyStream.Reader.Read: sources do not time out, the one that the compressor reads from being a buffer in memory; 64-bit machines only, while `Decode` covers both word sizes; checksums and the stream identifier are not checked, as in the source, which skips chunks of types 0x80 to 0xff.
- SnappyStream.ReadAll: sources that return nothing without an error any number of times.
- MigrationProof.MigrationIsSafe: no time-outs, crashes, freezes or destroyed entities; entities come from their games, not by CREATE_ENTITY_SOMEWHERE or LOAD_ENTITY_SOMEWHERE; one dispatcher, and calls through the dispatcher only, not the shortcut for local entities; calls refused by a full queue do not count as taken in.
- MigrationArrival.RunDirected: speaks of spaces that never ask to enter another one; a request may name any entity, and is answered with its game in the same way.
- MigrationArrival.MigrationCompletes: one schedule of steps, in which the channels between the two games are empty at first; that messages are delivered at all is not part of this model.
- Games.Game.EnterSpace: an entry posted again while an earlier one still waits in the post queue replaces it; user callbacks change nothing; areas of interest and client messages are not part of this model.
- Games.Game.OnRealMigrate: packing and unpacking of migration data is the identity; attributes are opaque here, `Attributes.TwoRounds` is about their conversion.
- Games.Game.Restore: takes data that a consistent game froze, which `Games.SnapshotGood` shows is what `Freeze` stores.
- DispatcherState.DispatcherService.HandleSetGameID: boot games, the load-balancing entry (see `LbcHeap`) and the deployment-ready broadcast.
- DispatcherState.DispatcherService.HandleGameDown: one reading of the clock serves a whole cascade of clean-ups, while the source reads it again at each dispatch inside; the same holds for `CountedDispatching.CountedDispatcher.HandleGameDown`.
- DispatcherState.DispatcherService.HandleRealMigrate: the protocol step is stated for games that are all up; with a game found down on the way the entry may vanish, and its queue is sent all the same.
- ServiceRegistry.Run: no game freezes, which `Steady` asks of the states of `ServiceRegistry.GamesAgree` too; messages lost with a connection were sent before the next answer to SET_GAME_ID.
- CountedDispatching.CountedDispatcher.Run: counts are exact at every step, but the payloads of packets and their pools are those of `Packet`; what a connection that is closed still had pending is never flushed, and stays held.
- CountedDispatching.CountedDispatcher.HandleMessage: the tables of gates and boot games and the load-balancing heap are not part of this class; what they choose comes with the message, and the deployment-ready broadcast is an operation of its own.
- CountedDispatching.CountedDispatcher.HandleRealMigrate: the entity's queue is taken ahead of dispatching the packet, which the source does after it; nothing in between looks at it.
- Packets.Pools.Alloc: a packet from the pool is a new object in the state `Release` leaves it in; the length word is a number beside the payload.
- Packets.Pools.Compress: the compressor is any function; `SnappyStream.CompressThenDecompress` shows that the one used round-trips.
- PacketConnections.Sink.Write: a plain connection stalls only finitely often, and one that failed stays broken; when a buffered one passes on what it holds is arbitrary.
- PacketConnections.Receiver.Read: a connection delivers nothing only finitely often.
- CountedDispatching.CountedDispatcher.DispatchPacket: the handlers are written once for the contents of packets (`DispatcherState`) and once for packets as objects; the two share the functions and predicates of their contracts, not their code.
- LbcHeap.Heap.Report: loads are real numbers, and the random factor is part of the reported load.
- FilterTrees.FilterTree.Visit: the balanced tree library is an ascending sequence with its ranges; clients are numbers that are never reused.
- PubSub.PublishSubscribeService.PublishInTree: the trie library is a map from the paths of its nodes, with a record of two sets at each.
- Attributes.MapAttr.Set: owners, attribute flags and messages to clients are not modelled.
- Attributes.ListAttr.Append: the same.
- Attributes.MapAttr.AssignMap: owners, flags and the cached path of attributes, and messages to clients; a native value is one of the kinds that the conversion distinguishes, floats as the numbers they are.
- Goroutines: one step at a time; sockets, timers, logging, configuration, storage, gates other than their filter trees, and the command-line tools.
- The assembly versions of the codec and the unused checksum.
