# MegaVolts server core: a Dafny model

The project models the parts of the MegaVolts server code whose correctness rests on state that several
operations share, and proves what those parts are for.

| file | models |
|---|---|
| `Words.dfy`, `Cipher.dfy`, `KeySchedule.dfy`, `CipherMachine.dfy` | the packet ciphers: rotations, the three block ciphers and the chain between them, the key schedules, and the cipher object over its static tables |
| `Headers.dfy`, `Codec.dfy`, `PacketBuffer.dfy` | the 32-bit headers and their mixing, building and taking apart a packet, and the packet object that does both in its buffer |
| `Framing.dfy`, `Receiving.dfy`, `Sending.dfy` | cutting a byte stream into packets or IPC frames, the read handlers, and the single-writer send queue with the disconnect step |
| `LogDrain.dfy` | the log queue: producers, the flag that decides who submits the drain task, and the task |
| `RateKeys.dfy`, `RateLimit.dfy`, `RateHistory.dfy`, `RateSafety.dfy`, `RateEvents.dfy` | the packet rate limiter: text keys, the tables and the session index, the ledger that never forgets, the proof that both decide alike, and the answers as a function of the events before |
| `Sessions.dfy`, `SessionTables.dfy` | session ids, the registry, and adopting another session's id with its unlocked gap |
| `AccountLines.dfy`, `AccountPatches.dfy`, `ItemPatches.dfy`, `Mailbox.dfy` | the merged updates and the mailbox of the MariaDB backend |
| `Connection.dfy`, `Transactions.dfy`, `Worker.dfy` | the thread-local connection with its cache of prepared statements, and the one-transaction batch update |
| `TableFile.dfy`, `TableBytes.dfy`, `TableLoader.dfy` | the binary table format, and which bytes are tables |
| `Options.dfy` | values that may be absent |

Each stateful component comes as a specification on values (functions, runs of atomic steps, and lemmas over
all runs) and as a class whose methods are proved to be those functions. The reference definitions are
independent of the code's own data structures: a full history against pruned deques and lazily erased
tables, a one-pass scan against incremental readers, patches one by one against one merged statement, who
has ever deleted a mail against two flags and a purge. A function that a specification and a method share is
described once more in the terms of its inputs: bytes by position, senders by their fields, runs by their events,
calls by what their connection checks meet.

What the model takes as given:

- Every section under one mutex, and every handler on one strand, is one atomic step. Cipher objects are
  used one after another.
- Rate-limiter clock readings are not negative and do not decrease in the order in which the mutex is
  taken (the code reads the clock before it locks), and a rule's limit and windows are fixed for each key.
- Only `AdoptSid` changes the id of a session object.
- The database executes a statement as its text says, transactions are serial, ROLLBACK restores the data
  the transaction started from, the server rolls back the transaction of a session that goes away, and the
  count an update returns is the number of rows it matched. Values fit their columns.

What the proofs found where the code does less than its names or comments suggest:

- The size field of a packet has eleven bits: a packet of 2048 bytes or more is not recovered
  (`Codec.Recovery`).
- `GenerateMessage` mixes the header of an encrypted packet and `ProcessMessage` does not undo the mixing. No header
  is mixed to itself (`Headers.MixingMoves`), so for a key that is not negative `ProcessMessage` recovers no
  generated packet (`Codec.EncryptedNotRecovered`). It recovers packets whose headers are encrypted but not mixed
  (`Codec.UnmixedRecovery`), and behind a step that peels the mixing off generated ones too (`Codec.Recovery`).
- On an encrypted session with a negative key a frame is read past its end exactly if its header as it came asks
  for more (`Codec.FramedPacketInBounds`). No caller sets such a key: encrypted sessions start with zero
  (`common/NetEngine/CSession.cpp:15-17`) and get keys from 100000000 to 999999999
  (`src/Main/handlers/Core/Connect.h:13`, `src/Front/handlers/Core/Connect.h:15`), so it takes a direct call of
  `SetEncryptionKey`.
- The length field of an IPC frame has 32 bits (`Framing.IpcFrameExact`), and a final empty frame waits for
  another byte (`Framing.IpcEmptyFrameWaits`).
- Clearing a session can erase an entry that is not its own, exactly if the two keys share a text and the session's
  was recorded (`RateSafety.ForeignKeyCleared`). Such an entry blacklists an identity that reads as zero, a bar and
  the session id, or has order zero (`RateKeys.TwinOfOwned`, `RateSafety.PosingIdentityIsForgiven`). The identities
  the servers build are addresses, account numbers, session ids and hardware ids in hexadecimal
  (`src/Main/handlers/Player/Core/Authorize.h:120-134`), so both take a direct call of the public methods.
- A live session stays registered, and keeps its id to itself, exactly in proper runs (`Sessions.SessionsKept`).
  Three things are not proper and nothing in the code rules them out: a disconnect handler that removes an id
  which another session has adopted meanwhile, an adoption that comes back from its gap to an id that was taken
  in it, and the adoption of an id the allocator may still issue (`Sessions.LateRemovalOfVictim`,
  `Sessions.AdoptedUnissuedId`). The only caller of `AdoptSid` (`src/Cast/handlers/Core/Ipc/MainAuthorize.h:45`)
  adopts ids that the allocator of another server issued, over the same range, so its adoptions are proper only
  as far as this server's allocator has passed those ids too.
- What was not committed can have an effect: a transaction can be left open by a ROLLBACK whose failure is swallowed,
  or by an exception that is not an SQL exception (`Transactions.AllOrNothing`), and the next call commits it exactly
  if it finds the connection valid and its START TRANSACTION works (`Transactions.LeftoverIsCommitted`,
  `Transactions.FailedWorkIsCommitted`). `Transactions.RunsAreAllOrNothing` says what every run comes to.
- A load that fails can leave the fields of the new file beside the rows of the old one (`TableLoader.CDBM.LoadCDB`).
- The RC5 key setup mixes only two of the 26 words of its table; the others are the same under every serial key
  (`KeySchedule.Rc5WordsWithoutKey`).
- `PersistItemPatches` reports every patched serial, also those for which it found no item.

## Model

| member | source | states |
|---|---|---|
| Words.Rotation32 | common/NetEngine/CCrypt.h:12-24 | `rotr(rotl(x, s), s) == x` for every 32-bit word and every amount, data-dependent ones included |
| Words.Rotation32Forth | common/NetEngine/CCrypt.h:12-24 | the other way round: `rotl(rotr(x, s), s) == x` |
| Words.Rotation16 | common/NetEngine/CCrypt.h:12-24 | the same for 16-bit words |
| Words.ByteOrder | common/NetEngine/CCrypt.h:256-257 | words are read from and written to bytes with the lowest byte first |
| Cipher.Decrypt16OfEncrypt16 | common/NetEngine/CCrypt.h:200-220 | the 4-byte block cipher, modulo 2^16: decrypting a block undoes encrypting it, under any tables and serial key |
| Cipher.DecryptPairOfEncryptPair | common/NetEngine/CCrypt.h:224-242 | the same for the 8-byte block of the RC5 shape |
| Cipher.DecryptQuadOfEncryptQuad | common/NetEngine/CCrypt.h:347-376 | the same for the 16-byte block of the RC6 shape, with its word rotation and its whitening |
| Cipher.DecryptRc5OfEncryptRc5 | common/NetEngine/CCrypt.h:244-247 | byte strings of any length through the 8-byte blocks, the 4-byte block and the untouched rest: decryption undoes encryption |
| Cipher.DecryptRc6OfEncryptRc6 | common/NetEngine/CCrypt.h:347-412 | the same for the 16-byte blocks with the RC5 tail chain |
| Cipher.Rc5BlocksInClear | common/NetEngine/CCrypt.h:248-302 | both RC5 blocks add table words 0 and 1, run twelve rounds, and mask with the serial key |
| Cipher.Rc6BlockInClear | common/NetEngine/CCrypt.h:376-412 | the RC6 block adds table words 0 and 1 to the second and fourth word, runs forty rounds, adds words 82 and 83 to the first and third, and masks all four with the serial key |
| Cipher.RoundSamples | common/NetEngine/CCrypt.h:261-406 | one round of each of the three blocks on one input, by number, which fixes rotations, order of the words and the quadratic mixing |
| Cipher.BlocksOfWords | common/NetEngine/CCrypt.h:284-412 | a block of bytes is its words in order, and so is its encryption |
| Cipher.RunsInClear | common/NetEngine/CCrypt.h:284-412 | a string is encrypted in 16-byte blocks (RC6), then in 8-byte blocks, then in one 4-byte block, and up to three bytes stay |
| KeySchedule.KeysOfIsExpansion | common/NetEngine/CCrypt.h:165-188 | the keys that belong to a serial key are the two expansions and nothing else |
| KeySchedule.TableStart | common/NetEngine/CCrypt.h:175-177 | a table of 26 (84) words starts as the progression from 20835 by 31161 (from 3084996963 by 2654435769) |
| KeySchedule.KeyWordsInClear | common/NetEngine/CCrypt.h:167-173 | a key word takes four bytes of the base key, the last first, each with a byte of the serial key, the first first |
| KeySchedule.MixSample | common/NetEngine/CCrypt.h:180-187 | one mixing step on one input, by number |
| KeySchedule.SlotsMixed | common/NetEngine/CCrypt.h:180-187 | the RC5 setup mixes table words 0 and 13 in turn and the RC6 setup goes round its table; both go round their key words |
| KeySchedule.Rc5WordsWithoutKey | common/NetEngine/CCrypt.h:177-187 | 24 of the 26 words of the RC5 table are those of the initial progression under every serial key |
| KeySchedule.RoundTrip | common/NetEngine/CCrypt.h:200-412 | for every cipher family, serial key and byte string, `Decrypt` after `Encrypt` gives the string back |
| KeySchedule.TailPassesThrough | common/NetEngine/CCrypt.h:200-301 | the last zero to three bytes leave the cipher as they came, encrypting and decrypting |
| CipherMachine.PromotedHalfValue | common/NetEngine/CCrypt.h:261-272 | a half round done on promoted 32-bit words and truncated is the half round modulo 2^16 |
| CipherMachine.Tables.PackKey | common/NetEngine/CCrypt.h:167-173 | the packed key words, byte by byte from the end, are the specified ones, sign extension and carries included |
| CipherMachine.Tables.KeySetup5 | common/NetEngine/CCrypt.h:165-188 | the RC5 setup overwrites both RC5 tables whatever they held: they become the schedule of the serial key, the 16-bit one equal to the 32-bit one modulo 2^16; the RC6 table is untouched |
| CipherMachine.Tables.KeySetup6 | common/NetEngine/CCrypt.h:311-334 | the RC6 setup overwrites its table with the schedule of the serial key |
| CipherMachine.Crypt.constructor | common/NetEngine/CCrypt.h:79-90 | a new cipher object is ready: an index without an entry falls back to RC5, and the tables its family needs belong to its key |
| CipherMachine.Crypt.ChangeType | common/NetEngine/CCrypt.h:103-121 | an index beyond the five entries of the dispatch table is an error and changes nothing; any other, index zero with its RC5 functions included, sets up the entry's family under the new key |
| CipherMachine.Crypt.Setup | common/NetEngine/CCrypt.h:95-100 | after the setup the tables of the object's family are those of the new serial key |
| CipherMachine.Crypt.Run5 | common/NetEngine/CCrypt.h:224-242 | the loop over 8-byte blocks with its tail, in place or out of place, writes the specified bytes and nothing else |
| CipherMachine.Crypt.Run6 | common/NetEngine/CCrypt.h:347-412 | the loop over 16-byte blocks; rebuilding the RC5 tables for the tail leaves RC5 tables that were up to date as they were |
| CipherMachine.Crypt.Encrypt | common/NetEngine/CCrypt.h:124-131 | once set up, the output is a function of family, serial key and bytes alone, for any buffers that are equal or apart, and tables that were ready stay ready for later calls |
| CipherMachine.Crypt.Decrypt | common/NetEngine/CCrypt.h:134-141 | the same for decryption |
| Headers.ReadTcpOfTcpBytes | common/NetEngine/Protocols/BaseProtocol.h:12-23 | a TCP header whose fields are in range survives packing into four bytes and reading back |
| Headers.TcpBytesOfReadTcp | common/NetEngine/Protocols/BaseProtocol.h:12-23 | any four bytes are the packing of the header read from them, so the layout is a bijection |
| Headers.ReadCommandOfCommandBytes | common/NetEngine/Protocols/BaseProtocol.h:37-47 | the same round trip for the command header |
| Headers.CommandBytesOfReadCommand | common/NetEngine/Protocols/BaseProtocol.h:37-47 | and its inverse |
| Headers.TcpLayout | common/NetEngine/Protocols/BaseProtocol.h:12-23 | where the fields of the TCP header lie in its four bytes: 4, 14, 11 and 3 bits from the lowest on |
| Headers.CommandLayout | common/NetEngine/Protocols/BaseProtocol.h:37-47 | where the fields of the command header lie in its four bytes: 4, 2, 10, 8 and 8 bits from the lowest on |
| Headers.DecryptOfEncryptTcpHeader | common/NetEngine/CCrypt.h:41-66 | `decrypt_tcp_header` undoes `encrypt_tcp_header` on every 32-bit word |
| Headers.EncryptOfDecryptTcpHeader | common/NetEngine/CCrypt.h:41-66 | and the other way round, so the header mixing is a bijection |
| Headers.MixingMoves | common/NetEngine/CCrypt.h:41-55 | `encrypt_tcp_header` maps no 32-bit word to itself |
| Headers.MixedHeaderSample | common/NetEngine/CCrypt.h:41-53 | the mixing of one header, by number, through all its steps |
| Codec.WireInClear | common/NetEngine/CMessage.cpp:123-160 | in the terms of the ciphers: with encryption the header is mixed and encrypted under key zero, and the body goes under RC5 below 16 bytes and RC6 from there on, with the session key for `User`, with zero for `Default`, and as its header says without a method; without encryption nothing but size and cipher zero is stamped |
| Codec.ProcessInClear | common/NetEngine/CMessage.cpp:77-117 | for all received bytes: which bytes the header is read from, which sizes and ciphers are dropped or run past the end, and, for each cipher field from 0 to 4, which cipher and which key open the body |
| Codec.Recovery | common/NetEngine/CMessage.cpp:77-160 | behind a step that peels the header mixing off, a generated packet is recovered (session, command, payload) for every payload, key and method if and only if its size is below 2048 and its cipher field is at most 4 |
| Codec.EncryptedNotRecovered | common/NetEngine/CMessage.cpp:77-160 | for every key that is not negative `ProcessMessage` recovers no packet that `GenerateMessage` built: the header it reads is never the one that was stamped |
| Codec.UnmixedRecovery | common/NetEngine/CMessage.cpp:77-117 | under every key `ProcessMessage` recovers a packet whose header was not mixed (without encryption every generated one, with it one whose header is encrypted only) if and only if its size is below 2048 and its cipher field is at most 4 |
| Codec.PlainRecovery | common/NetEngine/CMessage.cpp:77-160 | for a negative key `ProcessMessage` itself recovers the packet if and only if its size is below 2048 |
| Codec.WrappedSize | common/NetEngine/CMessage.cpp:142-142 | a packet of 2048 bytes or more never announces its own body size to a receiver that would accept it, because the size field has eleven bits |
| Codec.WireInjective | common/NetEngine/CMessage.cpp:123-160 | packets of any size with equal bytes on the wire have equal session, low nibble, command and payload |
| Codec.FramedPacketInBounds | common/NetEngine/CSession.cpp:145-149 | a frame cut by `DoRead` is read past its end if and only if the session is encrypted with a negative key, where `DoRead` decrypts the header and `ProcessMessage` does not, and the header as it came asks for more than the frame; on other sessions it is dropped only for its cipher field |
| PacketBuffer.Packet.SetData | common/NetEngine/CMessage.cpp:34-40 | the payload becomes the data; both headers stay |
| PacketBuffer.Packet.SetCommand | common/NetEngine/Protocols/BaseProtocol.h:37-47 | each field of the command header keeps its low bits and the others do not change |
| PacketBuffer.Packet.GenerateMessage | common/NetEngine/CMessage.cpp:123-160 | encrypting the buffer in place yields exactly the specified wire bytes of the packet the buffer stood for |
| PacketBuffer.Packet.ProcessMessage | common/NetEngine/CMessage.cpp:77-117 | taking received bytes apart in the buffer gives the specified outcome, whichever branch it leaves by, and does not change the received bytes |
| Framing.ScanAppend | common/NetEngine/CSession.cpp:243-270 | scanning a stream is scanning its first part and then what was left of it together with the second part |
| Framing.ScanKeepsBytes | common/NetEngine/CSession.cpp:243-270 | frames followed by the rest are the scanned bytes: none is lost or invented |
| Framing.Chunking | common/NetEngine/CSession.cpp:232-271 | for packets and for IPC, any split of a stream into reads delivers the frames of one pass over the whole stream and stops at the same bad header |
| Framing.SplitsAgree | common/NetEngine/CSession.cpp:232-319 | two splits of one stream deliver the same frames, close alike, and while the session is open keep the same rest |
| Framing.ReadLoop | common/NetEngine/CSession.cpp:238-271 | on every stream and split, encrypted or not: four bytes or less wait; a size below 8 or from 2047 on closes and delivers nothing more; a packet that is not all there waits; one that is there is delivered and the loop goes on behind it |
| Framing.ReadLoopIpc | common/NetEngine/CSession.cpp:297-319 | on every stream and split: the IPC loop never closes, waits on eight bytes or less and on a message that is not all there, and else delivers the first message and goes on behind it |
| Framing.StreamOfPackets | common/NetEngine/CSession.cpp:240-267 | on sessions with and without encryption: packets whose headers are not mixed, without encryption those that `GenerateMessage` builds, concatenated and split in any way, are delivered one by one and processed back to what was sent |
| Framing.ReadIpcOfIpcBytes | common/NetEngine/CSession.cpp:70-77 | an IPC frame reads back as its message |
| Framing.IpcFrameExact | common/NetEngine/CSession.cpp:302-315 | a frame followed by more bytes is cut off exactly if and only if its payload is below 2^32 bytes, because the length field has 32 bits |
| Framing.IpcEmptyFrameWaits | common/NetEngine/CSession.cpp:302-302 | a final frame with an empty payload is held until another byte arrives |
| Framing.ScanOfIpcFrames | common/NetEngine/CSession.cpp:70-77 | concatenated frames come back exactly, except that a last frame with an empty payload is left over |
| Receiving.Receiver.HeaderSize | common/NetEngine/CSession.cpp:243-254 | the size read from a header, decrypted first on an encrypted session |
| Receiving.Receiver.OnRead | common/NetEngine/CSession.cpp:238-271 | the read handler, with its offset into the growing buffer, does to the session what the framing specification says; it ends because every pass takes at least eight bytes |
| Receiving.Receiver.OnReadIpc | common/NetEngine/CSession.cpp:297-319 | the same for the IPC read handler, which never closes |
| Sending.StepKeepsInv | common/NetEngine/CSession.cpp:28-119 | every send, completion, error and close keeps the invariant of the send queue |
| Sending.SendQueueSafety | common/NetEngine/CSession.cpp:28-119 | in every run at most one write is in flight, exactly when the queue is not empty, and it carries the front; written packets are a prefix of the accepted ones and the queue is the rest until the session closes; the disconnect callback fires at most once |
| Sending.AcceptedAreSent | common/NetEngine/CSession.cpp:58-68 | accepted packets are a prefix of the packets handed to `Send` |
| Sending.RunByEvents | common/NetEngine/CSession.cpp:28-119 | by the events of a run alone: the session is open exactly until a write fails or it is closed, which fires the callback; it accepts exactly what was sent before that; and exactly as many packets are written as writes completed well, the first accepted ones |
| Sending.PipelineDelivers | common/NetEngine/CSession.cpp:52-119 | queue, wire, framing and codec together, for sessions with and without encryption whose packets have no mixed header (without encryption those that `GenerateMessage` builds): whatever errors and closes happen and however reads split the bytes, the peer gets the first packets sent, intact, in order, without repetition, as many as writes completed well |
| Sending.IpcPipelineDelivers | common/NetEngine/CSession.cpp:70-119 | the same for IPC messages: the peer gets the first messages sent, as they were and in order, as many as writes completed well, a last one without payload alone still being held back |
| Sending.SendQueue.Send | common/NetEngine/CSession.cpp:58-68 | the handler of a send is the step of the model |
| Sending.SendQueue.OnWritten | common/NetEngine/CSession.cpp:107-118 | the completion handler is the step of the model |
| Sending.SendQueue.Disconnect | common/NetEngine/CSession.cpp:28-43 | the disconnect step is that of the model |
| LogDrain.StepKeepsInv | common/BaseLib/CLog.h:62-163 | every atomic step keeps the protocol's invariant |
| LogDrain.Safety | common/BaseLib/CLog.h:60-163 | in every interleaving at most one drain task is between submission and clearing the flag; a non-empty queue has a drain on the way or an activity about to arm; handled entries, the one in hand and the queue are the pushed entries in order |
| LogDrain.NothingIsStranded | common/BaseLib/CLog.h:121-163 | no wakeup is lost: when nothing runs any more, the queue is empty and everything pushed was handled in order |
| LogDrain.QuietRunsAreBounded | common/BaseLib/CLog.h:137-163 | without new pushes a run ends after a number of steps bounded by the state and the exceptions in it |
| LogDrain.NeverStuck | common/BaseLib/CLog.h:121-163 | while an activity is left, one of them can move |
| LogDrain.FinishedRunsHandledEverything | common/BaseLib/CLog.h:121-163 | a run that can only go on with a new push has handled everything |
| LogDrain.Log.Arm | common/BaseLib/CLog.h:121-128 | exchanging the flag and submitting if it was clear, as steps of the model |
| LogDrain.Log.DrainQueue | common/BaseLib/CLog.h:137-163 | the task with its loop and guard, run alone, handles the queue in order, clears the flag and leaves the queue empty |
| RateKeys.StoulOfDecimal | common/NetEngine/CServer.cpp:83-83 | the decimal text of a number holds no bar and stands for the number |
| RateKeys.SessionOfDecimal | common/NetEngine/CServer.cpp:1152-1153 | `stoul`, with its blanks, sign, trailing text and exceptions, reads the text of a session id back as the id |
| RateKeys.SameShapeInjective | common/NetEngine/CServer.cpp:16-24 | two order keys, or two identity keys, with the same text are the same key, for every identity string |
| RateKeys.ShapesMeet | common/NetEngine/CServer.cpp:16-24 | an order key and an identity key share a text if and only if the order is the scope number and the identity is the order key's scope, a bar and its identity |
| RateKeys.SharedText | common/NetEngine/CServer.cpp:16-24 | two keys share a text if and only if they are the same or twins: the one key of the other shape, if there is one, that an order number read as a scope number and the rest read as an identity stand for |
| RateKeys.TwinOfOwned | common/NetEngine/CServer.cpp:16-24 | the twin of a key is a session's own key if and only if the key is an identity that reads as zero, a bar and a text read as the session id, or has order zero and the scope whose number is the session id |
| RateLimit.RateLimiter.PruneWindow | common/NetEngine/CServer.cpp:35-41 | the pruning loop is the specified one |
| RateLimit.RateLimiter.TryReject | common/NetEngine/CServer.cpp:1048-1093 | one pass over the scopes with lazy erasure, ended by the first live entry |
| RateLimit.RateLimiter.ShouldProcessPacket | common/NetEngine/CServer.cpp:1017-1135 | the method's tables and reply are those of the specified step, branch by branch |
| RateLimit.RateLimiter.ApplyPacketRateLimitCooldown | common/NetEngine/CServer.cpp:1136-1154 | extend-only update of the cooldown table and its index entry, for every identity text; where `stoul` throws, the table has changed and nothing is listed |
| RateLimit.RateLimiter.ApplyPacketRateLimitBlacklist | common/NetEngine/CServer.cpp:1155-1172 | the same for the blacklist table |
| RateLimit.RateLimiter.AddPacketRateLimitStrike | common/NetEngine/CServer.cpp:1173-1192 | prune, push, count, and the index entry of a first strike |
| RateLimit.RateLimiter.ClearPacketRateLimitSessionState | common/NetEngine/CServer.cpp:1193-1211 | the loop erases every listed key from all four tables, and the list |
| RateEvents.AnswersByEvents | common/NetEngine/CServer.cpp:1017-1211 | after every run the answer to the next event is a function of the events before it, with no tables: who is banned or cooling down and for how many milliseconds, by the fields of the sender, which attempts and strikes count, and which actions throw |
| RateEvents.RefusedIfMatched | common/NetEngine/CServer.cpp:1070-1096 | a packet under an enabled rule is refused as blacklisted if and only if its session, address, hardware id or account has a whole millisecond left of its longest blacklisting, and else as cooling down if and only if one has of its longest cooldown for the order |
| RateEvents.RefusalIsFelt | common/NetEngine/CServer.cpp:1048-1172 | a blacklisting or cooldown of a text the sender matches refuses its packets at once and until less than a millisecond is left |
| RateEvents.RefusalHasCause | common/NetEngine/CServer.cpp:1048-1172 | a packet is refused only because of an earlier blacklisting, or cooldown of its order, of a text its sender matches, with a whole millisecond left |
| RateEvents.EndHasCause | common/NetEngine/CServer.cpp:1136-1172 | the end of a blacklisting or cooldown on record is the time and duration of one event |
| RateHistory.PruneIsRecent | common/NetEngine/CServer.cpp:35-41 | on timestamps in order, dropping old ones off the front is filtering out the old ones |
| RateHistory.PushKeepsDeques | common/NetEngine/CServer.cpp:1102-1105 | after one more attempt the pruned deque is still the filter over the full history |
| RateHistory.SweepIsFirstActive | common/NetEngine/CServer.cpp:1048-1093 | lazy erasure finds the same first active entry, with the same whole milliseconds left, as a table that never forgets |
| RateHistory.ListedIsForgotten | common/NetEngine/CServer.cpp:1193-1211 | a recorded key is listed under a session if and only if it is the session's own, or the twin of a recorded key of the session |
| RateSafety.StepSim | common/NetEngine/CServer.cpp:1017-1211 | every operation, with any identity text, gives the ledger's reply, exceptions included, and keeps the simulation and the index invariant |
| RateSafety.DecidesByHistory | common/NetEngine/CServer.cpp:1017-1211 | in every run, all replies (accept, refuse, limit, waiting times, packet and strike counts, and which actions throw) are those of a ledger that never prunes, never expires and keeps the longest expiry |
| RateSafety.ClearIsExact | common/NetEngine/CServer.cpp:1193-1211 | after any run, clearing a session removes from every table exactly what the ledger forgets, all of the session's own keys included, and leaves every other entry as it was |
| RateSafety.ForeignKeyCleared | common/NetEngine/CServer.cpp:1193-1211 | after any run, clearing a session erases an entry that is not its own if and only if the entry's twin is the session's own, and an attempt, strike, cooldown or blacklisting of the twin happened since the session was last cleared |
| RateSafety.RecordedIsHappened | common/NetEngine/CServer.cpp:1017-1211 | what the ledger records of a session's own key is what happened in the run, by its events and replies |
| RateSafety.CleanRunsForgetOwn | common/NetEngine/CServer.cpp:1193-1211 | as long as no blacklisted identity begins with a scope number and a bar, clearing a session forgets the session's own keys and nothing else |
| RateSafety.PosingIdentityIsForgiven | common/NetEngine/CServer.cpp:1155-1211 | two runs: such an identity loses its blacklisting when the session has a cooldown, and keeps it when it has none |
| RateSafety.SlidingWindow | common/NetEngine/CServer.cpp:1098-1114 | after any run, no interval as long as the window holds more accepted packets of a key than its limit, until a session is cleared that the key or its twin is about |
| RateSafety.BlacklistsComeFirst | common/NetEngine/CServer.cpp:1070-1096 | a packet is refused as blacklisted if and only if one of its identities has a whole millisecond left of its longest blacklisting, whatever its cooldowns and window say, and then no attempt is recorded |
| Sessions.IssueKeepsPartition | common/NetEngine/CServer.h:58-74 | `getNext` issues only an id nobody holds, below the maximum, and keeps the partition of issued ids into free and held |
| Sessions.FreeKeepsPartition | common/NetEngine/CServer.h:75-79 | `free` keeps the partition if and only if the id is not one still to be issued, from the counter up to the maximum |
| Sessions.ExhaustedMeansAllHeld | common/NetEngine/CServer.h:58-74 | `getNext` fails if and only if every id from the minimum up to, not including, the maximum is held |
| Sessions.RegistrySafety | common/NetEngine/CServer.cpp:555-1010 | over every interleaving of accepts, adds, removals and adoptions, the unlocked eviction gap included, every registry entry holds a session with the entry's non-zero id, and no session is registered twice |
| Sessions.AdoptionComesTo | common/NetEngine/CServer.cpp:957-1010 | an adoption changes nothing for zero, the same id, an unknown session, or a taken id without eviction; moves exactly one session to an id that is not taken, with its old id given back; and otherwise unregisters exactly the holder |
| Sessions.ResumptionComesTo | common/NetEngine/CServer.cpp:993-1010 | an adoption that comes back from its gap moves the session if it is still registered, and nothing otherwise |
| Sessions.LifeOfSession | common/NetEngine/CServer.cpp:298-304 | accepted, added and removed: a session is registered under its issued id unless that is zero or taken, nobody else is touched, and after its removal the id can be issued again |
| Sessions.StaysRegistered | common/NetEngine/CServer.cpp:555-1010 | a registered session stays registered over an event if and only if the event is no removal of its id, no eviction of its id, and no adoption that comes back to the id |
| Sessions.StepKeepsExactly | common/NetEngine/CServer.cpp:555-1010 | after an event all live sessions are registered, the ids partitioned and no registered id issuable, if and only if the event is proper: a removal hits its own session's entry, an adoption does not come back to a live session's id, and an id that gets registered cannot be issued any more |
| Sessions.SessionsKept | common/NetEngine/CServer.cpp:555-1010 | in every run from a new server that holds at all times if and only if every event is proper |
| Sessions.AllocatorSafety | common/NetEngine/CServer.cpp:569-1008 | in every proper run the free and the held ids partition the issued ones, no id that can be issued next is held, registered or carried by a live session, and issuing fails exactly when all are held |
| Sessions.AdoptedUnissuedId | common/NetEngine/CServer.cpp:957-1010 | a run from a new server in which an adopted id that was never issued is issued again and the adopter loses its registration |
| Sessions.LateRemovalOfVictim | common/NetEngine/CServer.cpp:987-1008 | a run from a new server in which the late removal of an evicted session unregisters the session that adopted its id, and the id is issued again |
| SessionTables.IdGenerator.GetNext | common/NetEngine/CServer.h:58-74 | any free id first, then the counter, failure exactly when exhausted |
| SessionTables.IdGenerator.GiveBack | common/NetEngine/CServer.h:75-79 | the free list gains the id if it is in range |
| SessionTables.Registry.AcceptSession | common/NetEngine/CServer.cpp:298-304 | a session object is created with an id of the allocator, or none if it is exhausted |
| SessionTables.Registry.AddSession | common/NetEngine/CServer.cpp:555-568 | registers the session under its own id, refused for zero and for an id that is taken |
| SessionTables.Registry.RemoveSession | common/NetEngine/CServer.cpp:569-585 | unregisters and frees the id, if it is registered and not zero, and then clears its rate-limit state |
| SessionTables.Registry.AdoptSid | common/NetEngine/CServer.cpp:957-1015 | the first lock section: success with the rate-limit state of both ids cleared, refusal, or the gap with the victim to disconnect |
| SessionTables.Registry.ResumeAdoptSid | common/NetEngine/CServer.cpp:993-1015 | the second lock section, which looks the moving session up again, and the clearing after it |
| AccountLines.PassagesAgree | common/BaseLib/CMariaDatabase.cpp:1587-1770 | in each of the 42 lines of the four passages that merge, test, name and bind, a member's value goes through one local of its own and is bound for the column the member is for |
| AccountLines.ColumnReached | common/BaseLib/CMariaDatabase.cpp:1683-1724 | every column has a line, so the statement can set all of them |
| AccountLines.FieldReached | common/BaseLib/CMariaDatabase.cpp:1587-1628 | every member of a patch has a line, so none is dropped |
| AccountPatches.MergedAppliesAll | common/BaseLib/CMariaDatabase.cpp:1585-1629 | applying patches one by one is applying their merge |
| AccountPatches.ParametersMatch | common/BaseLib/CMariaDatabase.cpp:1682-1770 | for every subset of present members, the k-th bound value is that of the member the k-th named column is for, and exactly the present members' columns are named |
| AccountPatches.StatementAppliesMerge | common/BaseLib/CMariaDatabase.cpp:1674-1772 | for any lines that keep a member to its own local and column and leave none out, as the 42 lines do, the statement with its bound parameters applies the merge to the one account and counts its row |
| AccountPatches.AccountTable.PersistAccountInfoPatches | common/BaseLib/CMariaDatabase.cpp:1537-1777 | nothing to set succeeds and changes nothing; a missing account is an error and changes nothing; otherwise the account is what the patches give one by one |
| ItemPatches.ApplyAllIsMerged | common/BaseLib/CMariaDatabase.cpp:1817-1828 | applied one by one, patches give every item of the account its merged patch and leave all others |
| ItemPatches.CaseFinds | common/BaseLib/CMariaDatabase.cpp:1850-1874 | whatever order the items are listed in, a CASE yields the item's own value or keeps the column |
| ItemPatches.UpdateAppliesAll | common/BaseLib/CMariaDatabase.cpp:1845-1886 | the single CASE update does to the table what the patches do one by one, in any order of the listed items |
| ItemPatches.ItemTable.PersistItemPatches | common/BaseLib/CMariaDatabase.cpp:1811-1898 | the table is what the patches give one by one; the error means that there was something to set and no such item; the reported serials are all that were patched for, and the row count is that of the items found |
| Mailbox.DeletesAgree | common/BaseLib/CMariaDatabase.cpp:2302-2345 | purge then flag, for either side, records exactly that side's deletions of the mails that exist |
| Mailbox.CountedPatches | common/BaseLib/CMariaDatabase.cpp:2256-2284 | which patches count: marks that set a mail read and deletions that name a side, with an id that is not zero |
| Mailbox.MarksNothing | common/BaseLib/CMariaDatabase.cpp:2285-2301 | a batch ends at once, without change, if and only if it marks mails and none of them is there |
| Mailbox.NoteByPatches | common/BaseLib/CMariaDatabase.cpp:2256-2345 | a batch notes as deleted by a side, or read, exactly the mails that exist and that its patches name with that side, or as read |
| Mailbox.RefusalInClear | common/BaseLib/CMariaDatabase.cpp:2346-2380 | a letter is refused if and only if nobody has the nickname, its owner has blocked the sender, or its owner sees a hundred mails, in that order |
| Mailbox.LettersInserted | common/BaseLib/CMariaDatabase.cpp:2346-2408 | letters are inserted one after the other, each welcome at its turn, up to the first that is refused, whose refusal is the outcome |
| Mailbox.RowsInserted | common/BaseLib/CMariaDatabase.cpp:2381-2407 | the row of an inserted letter: from the account to the account of the nickname, as written, with its date, under consecutive ids, and no other row changes |
| Mailbox.MailsLiveUntilBothDelete | common/BaseLib/CMariaDatabase.cpp:2250-2413 | in every run of transactions over any batches, ending well or not, committed or rolled back, a mail is in the table if and only if it was sent and not both sides have deleted it, in any order or in one batch; it is what was sent, read if ever marked, and never flagged by both sides |
| Mailbox.MailboxesStayWithinLimit | common/BaseLib/CMariaDatabase.cpp:2346-2408 | in every such run no receiver sees more than a hundred mails |
| Mailbox.MailTable.SortPatches | common/BaseLib/CMariaDatabase.cpp:2256-2284 | the classification loop collects the ids to mark, the ids each side deletes and the letters, skipping incomplete patches |
| Mailbox.MailTable.PersistMailboxPatches | common/BaseLib/CMariaDatabase.cpp:2250-2413 | table and outcome of a batch, refusals in the order of the code, and new mails under consecutive new ids |
| Connection.PrepSafety | common/BaseLib/CMariaDatabase.cpp:1375-1456 | through any mix of reconnects, failed connects, requests and transactions, a returned statement has the asked text and belongs to the session the thread is on; at most 512 are cached; inside a transaction the session is not swapped |
| Connection.GetsSession | common/BaseLib/CMariaDatabase.cpp:1375-1428 | `GetConnection` yields a session if and only if the thread is in a transaction, has one that answers or reconnects, or connects; it is the old one if that answers or is in a transaction, and a new one if not |
| Connection.PrepReturns | common/BaseLib/CMariaDatabase.cpp:1430-1456 | `Prep` returns a statement if and only if there is a session and the text is cached for it or can be prepared; asked again on the same session it returns the same one; cached texts stay cached unless the session is replaced or the limit is reached |
| Connection.TransactionKeepsSession | common/BaseLib/CMariaDatabase.cpp:1356-1406 | any number of requests inside a transaction leave the session alone |
| Transactions.RequestsStayInTransaction | common/BaseLib/CMariaDatabase.cpp:2828-2877 | every request of every stage of every account works on the transaction's own copy and nothing else, in order, up to the first that does not end well |
| Transactions.WrittenIsRead | common/BaseLib/CMariaDatabase.cpp:2820-2877 | what a session writes it reads, and nobody else does while it is in a transaction |
| Transactions.OpenedIfBegins | common/BaseLib/CMariaDatabase.cpp:2815-2821 | a call begins its transaction if and only if the connection checks yield a session both times (there already and valid, reconnected, or connected), statement objects work and START TRANSACTION works |
| Transactions.ApplyAllOfBoth | common/BaseLib/CMariaDatabase.cpp:2828-2877 | requests run in order: a second batch of them goes on from what the first made, if that ended well |
| Transactions.CallIsBooked | common/BaseLib/CMariaDatabase.cpp:2811-2887 | whatever an earlier call left open: a call that does not begin changes no data; one that begins, which the connection checks alone decide, works on the leftover if it outlived the beginning and on the committed data if not, commits the base first, then all of its requests or none, and reports success or an escaping exception exactly then; only its own session can have a transaction open afterwards |
| Transactions.AllOrNothing | common/BaseLib/CMariaDatabase.cpp:2811-2887 | a call on a clean connection commits the work of all requests of all accounts in order, or leaves the data as it was; it reports success only if it committed; and it leaves a transaction open, with its work so far in it, if and only if an exception escaped, or a stage and the ROLLBACK after it failed, or COMMIT was lost and ROLLBACK failed on a connection that still answers |
| Transactions.RunsAreAllOrNothing | common/BaseLib/CMariaDatabase.cpp:2811-2887 | over every run of calls, the committed data and the work left open are what the calls book one after the other; and unless some call begins on top of a leftover, the data is the work of whole committed calls and nothing else |
| Transactions.LeftoverIsCommitted | common/BaseLib/CMariaDatabase.cpp:2820-2824 | whatever a call left in its open transaction, a lost COMMIT included, is committed as the next call begins if and only if that finds the connection valid both times and its START TRANSACTION works; otherwise the data stays as it was |
| Transactions.FailedWorkIsCommitted | common/BaseLib/CMariaDatabase.cpp:2820-2885 | a call from a new client that fails at its second stage, with a ROLLBACK that fails, and an empty call behind it that commits the first stage |
| Worker.Thread.GetConnection | common/BaseLib/CMariaDatabase.cpp:1375-1428 | the method follows the specified branches, and the server drops what a lost session had open |
| Worker.Thread.Prep | common/BaseLib/CMariaDatabase.cpp:1430-1456 | the method follows the specified branches, cache clearing included |
| Worker.Thread.UpdateAccounts | common/BaseLib/CMariaDatabase.cpp:2811-2887 | the method, with its loop over requests, its guard and its handlers, is the specified call |
| TableFile.RereadType | common/BaseLib/CDBM.cpp:17-28 | a type survives as far as its size: uint8 comes back as bool, enum as uint32, the others as they were |
| TableFile.LoadOfSave | common/BaseLib/CDBM.cpp:177-269 | loading what was saved restores every name, offset, size and row byte, types up to their size, and saving again gives the same bytes |
| TableFile.SaveOfLoad | common/BaseLib/CDBM.cpp:177-269 | saving a loaded file reproduces it if and only if its names are null-padded and its type words are sizes |
| TableFile.LoadedTiles | common/BaseLib/CDBM.cpp:204-251 | in every file that loads, with or without rows, the fields lie side by side across a row if and only if their sizes sum up to less than 2^32, and then the cells row by row are all of the data |
| TableFile.RowsPreventWrap | common/BaseLib/CDBM.cpp:204-251 | a file under 4 GiB with at least one row meets that condition, because otherwise a field would end behind the data |
| TableFile.RowLookup | common/BaseLib/CDBM.cpp:233-250 | looking a name up in a row finds the bytes of the last field of that name |
| TableBytes.LoadsExactly | common/BaseLib/CDBM.cpp:177-252 | under 4 GiB a file loads if and only if it has a field count that is not zero, a whole header, and data that is a multiple of the sum of the sizes (or, if that sum does not fit 32 bits, no data and a sum that does not wrap to zero) |
| TableBytes.LoadedInClear | common/BaseLib/CDBM.cpp:177-230 | a loaded table has the field count, the names up to a null byte in their 30-byte slots, the types and sizes of the type words at their places, and the bytes behind them |
| TableBytes.CellInClear | common/BaseLib/CDBM.cpp:136-143 | the cell of a field of a row is the bytes behind the header at the row's start plus the sizes of the fields before it |
| TableLoader.CDBM.GetData | common/BaseLib/CDBM.cpp:136-143 | the bytes of a field of a row, or nothing if the data ends before them |
| TableLoader.CDBM.LoadCDB | common/BaseLib/CDBM.cpp:177-252 | succeeds exactly on the files the specification loads, and then holds that table and, for every row, the bytes of its fields by name; what a failed load leaves in the object is stated for every way to fail |
| TableLoader.CDBM.SaveCDB | common/BaseLib/CDBM.cpp:255-266 | the bytes written are those of the specification |

## Left out

- Sockets, Asio scheduling, DNS, TLS, the heartbeat, files and JSON: only the steps they trigger are modelled.
- Races of several threads on the static cipher tables.
- The persistent IPC connections and their reconnect flags.
- The PostgreSQL backend, which commits per account.
- Currency, mission, reward, playtime, battle-pass, match-history, session and social patches, item inserts
  and deletes, account loading and schema creation; in `UpdateAccounts` every request of a stage is an arbitrary
  function of the data.
- Base64, `BucketQueue`, caches, lockers and the duration and string helpers, which would add easy members.
- Log formatting and colouring; an entry is its text, source, message and colour.
- RC5 and RC6 conformance: the key schedules and the final masks are not the standard ones, so inverses and
  refinement are stated instead.
- CipherMachine.Crypt.Run5: the 4-byte cipher is modelled on the one block its callers leave for it; the
  server's loop over several blocks has no caller.
- Codec.Recovery: for a key that is not negative it speaks of the packet behind a step that undoes the header
  mixing, which the server code does not contain; `Codec.EncryptedNotRecovered` and `Codec.UnmixedRecovery` are
  about the code as it stands.
- Sending.PipelineDelivers: packets with mixed headers are left out, because neither the read loop nor
  `ProcessMessage` undoes the mixing; their reader is the game client, which is not part of this model.
- PacketBuffer.Packet.ProcessMessage: its precondition excludes data shorter than its header announces, where
  the server reads past the end of the data; `Codec.FramedPacketInBounds` says which frames of the read loop
  meet it.
- PacketBuffer.Packet.constructor: the two random nibbles of a new packet are parameters.
- LogDrain.Log.DrainQueue: the method is proved without other threads between its steps; the interleavings are
  those of `LogDrain.Safety`.
- RateSafety.DecidesByHistory: identity texts are read as by an `unsigned long` of 64 bits.
- RateLimit.RateLimiter.ShouldProcessPacket: the rule's resolvers have run, the callbacks `on_rejected` and
  `on_limit` are the caller's, packet counts do not reach 2^32 and times do not overflow.
- SessionTables.Registry.AdoptSid: sessions are handles and the ids they carry are a map beside the registry;
  disconnecting the victim is the caller's step between the two sections.
- AccountPatches.AccountTable.PersistAccountInfoPatches: the statement is its list of columns rather than its
  text, and constraints between columns or rows are not modelled.
- ItemPatches.ItemTable.PersistItemPatches: the statement is its clauses rather than its text; the query that only
  counts items for the log is left out.
- Mailbox.MailTable.PersistMailboxPatches: blocks and nicknames are looked up in a fixed state of the other
  tables during one batch.
- Connection.PrepSafety: the connection generation does not wrap around 2^64, and the connector's own automatic
  reconnect inside a statement is not modelled; nor is the lifetime of a statement after a later `Prep`.
- Worker.Thread.UpdateAccounts: a null connection at the second request for it, on which the server would crash,
  counts as an exception.
- TableLoader.CDBM.LoadCDB: files have less than 4 GiB.
