# Verified model of the game server's concurrent core

This project models, in Dafny 4.11, the data and concurrency core of a C++ IOCP game server and of
the load client that drives it, and proves properties of the model for every input and every run.

* **Receive path** (`RingBuffer.dfy`, `Framing.dfy`, `FramingBounds.dfy`, `Session.dfy`). The ring
  buffer is a class over a byte array with modular positions and split copies; its methods refine
  append, take and drop on a byte sequence. A session's receive handler is proved to compute
  `Framing.Receive`, and the laws of the receive path are proved about that function: one parse of
  the accepted bytes whatever the chunk borders, the exact capacity bound, and exactly which
  sessions can still deliver.
* **Send protocol** (`SendProtocol.dfy`, `SendInvariant.dfy`, `SendHistory.dfy`, `SendTheorems.dfy`,
  `SendCalls.dfy`). A transition system with any number of posters and workers. Getting the lock, pushing, releasing,
  exchanging the flag, testing the queue, WSASend, clearing the flag, completing, delivering and
  popping are separate steps; in particular the flag is cleared after a failed WSASend in a step of
  its own. `Session.PostSend` and `Session.SendCompleted` are the same calls without other threads, and
  each carries on a run of the protocol.
* **Completion port** (`Iocp.dfy`, `IocpInvariant.dfy`, `IocpHistory.dfy`, `IocpTheorems.dfy`,
  `IocpRegistry.dfy`). Any number of workers,
  posters and sessions, from accept to disconnect. The OS overwrites a session's one receive buffer
  and the handler reads it later, so that exclusivity is what makes delivery correct.
* **Write-behind cache** (`WriteBehind.dfy`, `WriteBehindInvariant.dfy`, `WriteBehindTheorems.dfy`,
  `WriteBehindTime.dfy`, `WriteBehindExpiry.dfy`, `WriteBehindStop.dfy`, `RedisKeys.dfy`, `RedisManager.dfy`,
  `SyncWorker.dfy`). A timed transition system in which stat writes, deletes and expiries fall between
  any two steps of the flusher, with failures, error replies and Stop, started on whatever an earlier
  process left in the cache; and classes for the cache, its keys, the scan loop and one quiescent flush.
* **Load client** (`StatPacket.dfy`, `DummyClient.dfy`, `EndToEnd.dfy`, `ConnectLatch.dfy`). The
  packed packet, the partial-send loop, their composition with the receive path, and the slices and
  latch that separate connecting from sending.
* **Smaller machines** (`ConnectionPool.dfy`, `DbManager.dfy`, `AsyncLogger.dfy`). The connection
  pool under any interleaving, the exit paths of the query functions, and the logger's queue.

A machine is a `State`, a `Step`, a partial function `Next` and `Exec`, the state after a sequence of
steps; a theorem about every run is a lemma about every sequence for which `Exec` is defined.

Results where the code does less than one might expect, with the exact condition:

* A failed WSASend leaves the queue idle until the next PostSend, which then sends all of it
  (`SendCalls.FailureStrandsTheQueue`, `SendCalls.NextPostSendsEverything`). A send completion without
  bytes leaves the flag set, and nothing is ever sent again (`SendCalls.ZeroBytesStrandTheQueue`,
  `SendTheorems.LostStaysLost`). At rest the queue is empty exactly when the last WSASend did not fail
  and no send completed without bytes (`SendTheorems.AtRestAllIsSent`).
* GetCharacterStat takes an error reply to GET for a stat, and the flush writes its text into the row of
  whatever id the text spells. A row can be traced to cached stats exactly if no error text spells its id
  (`WriteBehindTheorems.TracedIffNoErrorNames`, `WriteBehindTheorems.BusyReplyGarbles`).
* The comment at `game_server/Session.h:18` promises that a session lives until its completion; in
  the code nothing ever clears `keepAlive`, so the session owns itself and no session is ever
  destroyed (`IocpTheorems.SessionsStayAlive`). The model follows the code.
* A well-formed stream can overflow the ring buffer exactly when it has packets above 8193 bytes
  (`FramingBounds.ServerCapacityBound`). The largest packet struct has 359 bytes.
* A session whose buffered size field is below 4 or above 16384 never delivers again, and every
  other session can (`FramingBounds.CanStillDeliver`).
* If nothing fails after it was written, a cached stat can expire without ever having been in its row exactly
  when a flush may take 1785 seconds or more, and if one flush may fail, 1180 or more; what failed before
  it was written does not matter (`WriteBehindExpiry.ServerExpiryBound`; `WriteBehindExpiry.ExpiryBoundIsExact`
  for any number of failing flushes). With a wait and flushes that take no time at all the modelled clock
  stands still; otherwise it does not (`WriteBehindTime.TimeStandsStill`, `WriteBehindTime.TimePasses`).
* Stop is followed by a last flush exactly when the flag drops during the timed wait; when it drops
  during a flush a stat cached before Stop can be left behind, and a later process can save it
  (`WriteBehindStop.LastFlushIffDroppedInWait`, `WriteBehindStop.StopDuringFlushLosesWrites`,
  `WriteBehindStop.NextProcessSaves`).

Assumptions about the outside, all visible as enabling conditions of steps or as parameters: a send
completes for its whole buffer or without bytes; a receive writes at most the size of the receive
buffer; a successful SCAN returns every key that is there throughout; an UPDATE changes only an
existing row, and may have done so even when it reports failure; a stat write or deletion is one step of the
cache; the game server is the only writer of `character:stat:` keys (the route at
`node_server/routes/character.js:32` stores JSON under the same keys and breaks this); size fields
and packed structs are little-endian; atomics and locks are sequentially consistent.

## Model

| member | source | states |
|---|---|---|
| Framing.ParseIsTheSplit | game_server/RingBuffer.cpp:67-89 | cutting packets until none is complete is the one split of the bytes into whole packets and a tail without a complete one: both directions |
| Framing.ParseAppend | game_server/Session.cpp:113-114 | draining early and continuing with the rest gives the packets of draining once |
| Framing.RunIsOneParse | game_server/Session.cpp:107-115 | any run of receives, refused ones included, leaves the handler and the buffer with one parse of the accepted bytes |
| Framing.Conservation | game_server/Session.cpp:107-115 | on arbitrary bytes, handled packets followed by buffered bytes are the bytes of the accepted receives, all others are counted as refused, and the buffer holds no complete packet and at most its capacity |
| Framing.BoundedRest | game_server/RingBuffer.cpp:79-83 | what a drain leaves of a well-formed stream is shorter than a largest packet |
| Framing.CapacitySuffices | game_server/RingBuffer.cpp:5-7 | no receive is refused if largest packet minus one plus receive size fits the capacity |
| Framing.ChunkingIndependence | game_server/Session.cpp:107-115 | for well-formed packets and any split into receives: nothing refused, exactly the completed packets handled in order, exactly the bytes of the incomplete one buffered |
| FramingBounds.OverflowingRun | game_server/RingBuffer.cpp:5-7 | beyond the bound a stream of well-formed packets and a split of it exist that overflow |
| FramingBounds.CapacityBoundIsExact | game_server/RingBuffer.cpp:5-7 | for every packet, receive and buffer size: no overflow on well-formed input if and only if the bound holds |
| FramingBounds.ServerCapacityBound | game_server/RingBuffer.h:10 | with 8192-byte receives and 16384 bytes of buffer the largest safe packet has 8193 bytes |
| FramingBounds.DoomedStaysDoomed | game_server/RingBuffer.cpp:79-83 | once the head declares an impossible size, no later receives hand over anything |
| FramingBounds.CanStillDeliver | game_server/RingBuffer.cpp:69-83 | after any run, some further receives hand over a packet if and only if the head does not declare an impossible size |
| FramingBounds.ServerCanStillDeliver | game_server/RingBuffer.cpp:69-83 | with the server's buffer: exactly a size field below 4 or above 16384 ends all deliveries |
| RingBuffers.WriteInTwoPieces | game_server/RingBuffer.cpp:14-18 | the split copy extends the circular content |
| RingBuffers.ReadInTwoPieces | game_server/RingBuffer.cpp:34-38 | the split read yields the oldest bytes in order |
| RingBuffers.RingBuffer.constructor | game_server/RingBuffer.h:23-26 | a new buffer is empty |
| RingBuffers.RingBuffer.ReadableSize | game_server/RingBuffer.cpp:59-61 | the number of bytes held |
| RingBuffers.RingBuffer.WritableSize | game_server/RingBuffer.cpp:63-65 | free plus held bytes are the capacity, full and empty told apart |
| RingBuffers.RingBuffer.Write | game_server/RingBuffer.cpp:5-23 | succeeds if and only if the data fits, then appends exactly it, else changes nothing |
| RingBuffers.RingBuffer.Peek | game_server/RingBuffer.cpp:25-41 | copies the oldest bytes and changes nothing; refuses if there are fewer |
| RingBuffers.RingBuffer.Read | game_server/RingBuffer.cpp:43-50 | takes exactly the oldest bytes, or nothing if there are fewer |
| RingBuffers.RingBuffer.Ignore | game_server/RingBuffer.cpp:52-57 | drops the oldest bytes, all of them if there are fewer |
| RingBuffers.RingBuffer.PeekSize | game_server/RingBuffer.cpp:72-77 | the size is the header's at the head, wherever it wraps |
| RingBuffers.RingBuffer.TryAssemblePacket | game_server/RingBuffer.cpp:67-89 | a packet if and only if a complete one is at the head; then it carries its own length and is cut off exactly; else nothing changes |
| Sessions.Session.OnRecvCompleted | game_server/Session.cpp:107-115 | the handler computes one step of the receive specification on its buffer, overflow included |
| Sessions.Session.Drain | game_server/Session.cpp:113-114 | the loop ends and hands over exactly the parse of what was buffered |
| Sessions.Session.ServeReceives | game_server/IocpCore.cpp:99-102 | receive after receive computes the run specification |
| Sessions.Session.PostSend | game_server/Session.cpp:51-60 | the message goes to the end of the queue whoever is sending; with the flag clear the front is handed to WSASend; the call continues a run of the protocol |
| Sessions.Session.RegisterSend | game_server/Session.cpp:62-98 | clears the flag on an empty queue or a failure, else hands the front to WSASend, from wherever the protocol stands |
| Sessions.Session.SendCompleted | game_server/Session.cpp:100-106 | with a send in flight there is a message to pop; it is popped, the next is handed to WSASend and the flag stays set if there is one, continuing the run |
| SendInvariant.RunKeeps | game_server/Session.cpp:51-106 | the invariant holds after every run, with one owner of the flag |
| SendHistory.PushedAreThePosts | game_server/Session.cpp:51-56 | over every run the messages pushed are those of the posts whose push has happened, in push order |
| SendHistory.EveryPostIsPushed | game_server/Session.cpp:51-56 | where no thread is under way these are exactly the messages posted |
| SendTheorems.OneSendAtATimeInOrder | game_server/Session.cpp:51-106 | at most one send in flight, its buffer the front, and until its completion is taken no thread is about to register another; completed, handed over and queued messages are pieces of the order in which the run has pushed, each once, one per successful WSASend and one per pop |
| SendTheorems.NoLostWakeup | game_server/Session.cpp:51-68 | in every state where no send is in flight, about to be registered or about to be decided by an exchange, something is queued if and only if the last WSASend of the run failed or a send completed without bytes |
| SendTheorems.NoFailureNoStall | game_server/Session.cpp:90-97 | neither is so in a run without failing steps |
| SendTheorems.LostStaysLost | game_server/IocpCore.cpp:86-92 | after a zero-byte send completion nothing is sent or completed in any further run; the queue only grows |
| SendTheorems.RunsAreBounded | game_server/Session.cpp:51-106 | every run has at most 36 steps per post |
| SendTheorems.SomethingCanHappen | game_server/Session.cpp:51-106 | no deadlock: while anything is going on a step other than a post is enabled |
| SendTheorems.AtRestAllIsSent | game_server/Session.cpp:62-106 | at rest the queue is empty if and only if the last WSASend of the run did not fail and no send completed without bytes; then all messages were sent and completed in push order, and those pushed are those posted |
| SendTheorems.EverythingIsSent | game_server/Session.cpp:51-106 | every run whose failed sends were retried with success goes on, without further posts, to a rest where everything posted has been sent and completed |
| SendTheorems.EveryWaySends | game_server/Session.cpp:51-106 | and every way of running on without posts and failures is bounded and ends only there |
| SendCalls.PostSendIsARun | game_server/Session.cpp:51-98 | a PostSend alone is a run of the protocol with the effect of the method |
| SendCalls.SendCompletedIsARun | game_server/Session.cpp:100-106 | so is a SendCompleted alone |
| SendCalls.FailureStrandsTheQueue | game_server/Session.cpp:90-97 | a run in which a failed WSASend leaves a message queued at rest with nobody due to send it |
| SendCalls.NextPostRestarts | game_server/Session.cpp:57-59 | after every run at rest with no send lost, a post with a working socket sends the front of the queue |
| SendCalls.NextPostSendsEverything | game_server/Session.cpp:51-106 | and from there every stranded message is sent in push order, before the new one |
| SendCalls.ZeroBytesStrandTheQueue | game_server/IocpCore.cpp:86-92 | a run in which a completion without bytes leaves the flag set and the message queued at rest |
| IocpInvariant.RunKeeps | game_server/Acceptor.cpp:110-130 | it holds after every run, from accept on |
| IocpTheorems.ReceiveIsExclusive | game_server/IocpCore.cpp:94-102 | at most one receive of a session is outstanding, queued or in a thread's hands, for any number of workers |
| IocpTheorems.ReceivingGoesOn | game_server/IocpCore.cpp:85-102 | and there is one if and only if no WSARecv of the session failed and no receive completion without bytes was taken |
| IocpTheorems.SessionsStayAlive | game_server/SessionManager.cpp:9-12 | every outstanding or queued operation refers to a live session; no session ever created reaches a reference count of zero |
| IocpRegistry.RegisteredUntilDisconnected | game_server/IocpCore.cpp:85-92 | over every run a session is in the registry if and only if no completion of it without bytes, receive or send, was taken, except while a thread is adding or removing it |
| IocpTheorems.ChunksAreProcessedInOrder | game_server/Session.cpp:24-49 | after n runs of the handler the receiver is what the first n chunks the OS received make of it, at most one behind |
| IocpTheorems.StreamIsDelivered | game_server/IocpCore.cpp:99-102 | under every interleaving a well-formed stream is handed over packet by packet, nothing refused, nothing lost |
| IocpTheorems.EveryStreamCanBeServed | game_server/IocpCore.cpp:99-102 | and for any chunks there is a run that serves them |
| IocpTheorems.EveryThreadCanGoOn | game_server/IocpCore.cpp:51-116 | no deadlock: in every reachable state every thread at work on a session can take its next step |
| IocpTheorems.SendMayRunBesideReceive | game_server/IocpCore.cpp:98-105 | a reachable state in which a receive and a send completion of one session are handled at once |
| StatPackets.EncodedIntIsLittleEndian | game_server/Packet.h:31-34 | byte i of an integer is its digit i in base 256 |
| StatPackets.DecodeEncodedInt | game_server/Packet.h:70-81 | every integer that fits its width survives |
| StatPackets.EncodeDecodedInt | game_server/Packet.h:70-81 | every byte string is the wire form of its value |
| StatPackets.FieldAtOffset | game_server/Packet.h:28-81 | packed fields lie directly behind each other |
| StatPackets.StatLayout | game_server/Packet.h:71-81 | the ten fields lie at offsets 0, 2, 4, 12, 16, 20, 24, 28, 32 and 33 |
| StatPackets.StatRoundTrip | game_server/Packet.h:71-81 | every field of every stat packet survives the wire, and every 37 bytes are some packet |
| StatPackets.SizeFieldIsFirst | game_server/Packet.h:31-34 | the framing layer reads the size field the sender wrote |
| DummyClients.DummyClient.SendPacket | dummy_client/DummyClient.cpp:30-40 | for any partial counts the whole packet is on the wire, or failure is reported and a proper prefix of it is |
| DummyClients.DummyClient.SendAll | dummy_client/main.cpp:92-102 | for any list of packets the wire has exactly those counted as sent and a proper part of the one that failed |
| DummyClients.DummyClient.SendStats | dummy_client/main.cpp:81-103 | the same for the hundred packets of a connection |
| DummyClients.StatOf | dummy_client/main.cpp:83-95 | packet i in all its fields: id 1003, the ids from the client, level i+1, 10 i below full hp and 5 i below full mp |
| EndToEnd.StatsArrive | game_server/Session.cpp:107-115 | however the bytes arrive, one handled packet per 37 bytes received, each decoding to the stat sent |
| EndToEnd.SentArrives | dummy_client/DummyClient.cpp:30-40 | whatever the send loop has put on the wire, and however what has arrived of it was cut, exactly the whole packets that arrived are handled with all their fields, and all that were counted once everything arrived |
| EndToEnd.ClientToServer | dummy_client/main.cpp:92-102 | the client's loop and then the server's, run on each other: any packets, any partial sends, any failure, any receives |
| ConnectLatch.SlicesAreIntervals | dummy_client/main.cpp:55-57 | slices are intervals in range, each ending where the next begins |
| ConnectLatch.SlicesPartition | dummy_client/main.cpp:55-57 | every connection lies in exactly one slice |
| ConnectLatch.SlicesAreEven | dummy_client/main.cpp:55-57 | all slices but the last have the quotient as their size, the last takes what is left over |
| ConnectLatch.ConnectSlice | dummy_client/main.cpp:63-77 | a worker keeps exactly the accepted connections of its slice, in order, and counts down once per attempt |
| ConnectLatch.LatchIsABarrier | dummy_client/main.cpp:47-79 | the latch is the total less the count-downs, never below zero, and zero if and only if all attempts are made and counted; nobody sends before, and then connected plus failed, which count the attempts that came out either way, is the total |
| ConnectLatch.NobodyWaitsForever | dummy_client/main.cpp:76-79 | until all workers are done some step is enabled, and runs have bounded length |
| RedisKeys.ValueOfPrinted | game_server/Redismanager.cpp:26-28 | the printed digits have the printed value |
| RedisKeys.KeyRoundTrip | game_server/Redismanager.cpp:131-132 | parsing a stat key from offset 15 gives the id that printed it |
| RedisKeys.KeysAreDistinct | game_server/Redismanager.cpp:26-32 | keys are injective and no stat key is a session key |
| RedisKeys.ScanReturnsItsKeys | game_server/Redismanager.cpp:114-138 | a scan returns the ids of exactly the keys on its pages, order and repetitions included, also when a failed reply cuts it short |
| RedisKeys.ScanThrowsIff | game_server/Redismanager.cpp:114-138 | it throws if and only if a cursor or a key that it would read does not parse |
| RedisKeys.ScanCoversKeys | game_server/Redismanager.cpp:114-138 | an id is returned if and only if its key was on some page |
| RedisManagers.RedisManager.SetCharacterStat | game_server/Redismanager.cpp:34-48 | caches exactly this stat for this id with a fresh expiry and disturbs no other id |
| RedisManagers.RedisManager.OnCharacterStat | game_server/Packethandler.cpp:75-82 | caches the packet under its own id; every cached packet keeps naming its key's id |
| RedisManagers.RedisManager.GetCharacterStat | game_server/Redismanager.cpp:50-63 | the cached stat field by field, none for nil or no reply, and the text of an error reply taken for a stat |
| RedisManagers.RedisManager.DeleteCharacterStat | game_server/Redismanager.cpp:65-72 | removes that id's stat and no other |
| RedisManagers.RedisManager.SetSession | game_server/Redismanager.cpp:74-88 | disturbs no stat |
| RedisManagers.RedisManager.GetAllCachedCharacterIds | game_server/Redismanager.cpp:114-138 | the cursor loop computes the scan specification, early end and unparsable numbers included |
| RedisManagers.RedisManager.Age | game_server/RedisManager.h:33 | time passes: a stat stays cached while the time is before its expiry and no longer |
| RedisManagers.RedisManager.SetAgeGet | game_server/Redismanager.cpp:34-63 | a stat that is set is brought back for 3600 seconds and then not |
| SyncWorkers.CharacterTable.UpdateCharacterStat | game_server/Dbmanager.cpp:114-158 | each column of the existing row of the id in the packet gets the field of its name, no other row changes, and it succeeds without a row; an update that reports failure may have been applied |
| SyncWorkers.SyncWorker.FlushAll | game_server/SyncWorker.cpp:45-62 | with a complete scan and no failure every row has the fields of the cached stat of its id, or is unchanged without one, in any order and with repetitions; otherwise each row is as it was, as cached, or the text of an error reply that names it; the success count is the number of updates that succeeded |
| SyncWorkers.SyncWorker.CopyAll | game_server/SyncWorker.cpp:51-57 | the loop brings the rows of the listed ids to the cached stats |
| SyncWorkers.SyncWorker.FlushTwice | game_server/SyncWorker.cpp:45-62 | a second flush changes nothing |
| WriteBehindInvariant.RunKeeps | game_server/SyncWorker.cpp:30-57 | over every run rows, entries and the stat in hand are traceable, the worker keeps its time, and unless something has failed since the last flush began every live entry not in its row was written since or is about to be copied |
| WriteBehindTheorems.LogIsTheWrites | game_server/Packethandler.cpp:75-82 | versions count the stats cached for a character: the one found at the start and those written in the run |
| WriteBehindTheorems.RowsComeFromWrites | game_server/SyncWorker.cpp:45-57 | under every interleaving, with any failures, each row is its initial one, the projection of the version-th stat cached for that character, or the text of an error reply of the run that names it |
| WriteBehindTheorems.TracedIffNoErrorNames | game_server/Redismanager.cpp:55-60 | a row can always be traced to stats if and only if no possible error text has the character's id in bytes 4 to 11 |
| WriteBehindTheorems.BusyReplyGarbles | game_server/Redismanager.cpp:55-60 | with the reply Redis gives while a script keeps it busy, one character's row is overwritten by text |
| WriteBehindTheorems.RowsNeverGoBack | game_server/SyncWorker.cpp:51-57 | the version last copied into a row never decreases |
| WriteBehindTheorems.EachIdIsReadOnce | game_server/SyncWorker.cpp:51-57 | each id of a scan is read once, in order, whatever the replies are |
| WriteBehindTheorems.ScanMayMiss | game_server/Redismanager.cpp:114-138 | a successful scan may miss exactly the keys that were not there throughout or are dead by its end |
| WriteBehindExpiry.CleanFlushSaves | game_server/SyncWorker.cpp:45-57 | a flush in which nothing failed has brought every live stat written before it began into its row, whatever failed before and however long it took |
| WriteBehindExpiry.ReachesItsRow | game_server/SyncWorker.cpp:30-57 | from any state, whatever failed before it: if never more than k later flushes in a row fail, a cached stat that is neither overwritten nor deleted has been in its row exactly as cached, or is still alive and no more than a flush and k + 1 waits and flushes have passed |
| WriteBehindExpiry.LateFlush | game_server/SyncWorker.cpp:33-41 | a run with k failing flushes in which it takes exactly that long |
| WriteBehindExpiry.ExpiryBoundIsExact | game_server/RedisManager.h:33 | with at most k flushes in a row failing after the write, every stat left alone is in its row before its life ends if and only if a flush and k + 1 waits and flushes take less than that life |
| WriteBehindExpiry.ServerExpiryBound | game_server/SyncWorker.h:20 | with 30 and 3600 seconds: if and only if flushes take at most 1784 seconds when none fails after the write, 1179 when no two in a row do |
| WriteBehindExpiry.StatIsLost | game_server/SyncWorker.cpp:30-57 | beyond the bound a run after which a stat is neither cached nor in its row |
| WriteBehindExpiry.WrittenLivesForTtl | game_server/Packethandler.cpp:75-82 | a stat that is written and left alone is cached for exactly the configured life |
| WriteBehindExpiry.LostIsLost | game_server/Redismanager.cpp:50-63 | a stat that has expired or been deleted never gets into its row |
| WriteBehindTime.TimePasses | game_server/SyncWorker.cpp:30-43 | from every state of a running worker a run of worker steps without failure goes beyond any moment |
| WriteBehindTime.FlushesAreApart | game_server/SyncWorker.cpp:33-41 | while the flag is up, flushes begin at least the interval apart |
| WriteBehindExpiry.GetsSaved | game_server/SyncWorker.cpp:30-57 | so from every state of a running worker, whatever failed before, a cached stat with time enough has a run of worker steps without failure that puts it into its row |
| WriteBehindExpiry.StaysSaved | game_server/SyncWorker.cpp:51-57 | and it stays there, also past its expiry, until it is overwritten, deleted or named by an error reply |
| WriteBehindStop.LastFlushIffDroppedInWait | game_server/SyncWorker.cpp:31-42 | the worker leaves by a last flush if and only if the flag dropped during the wait |
| WriteBehindStop.FinalFlushSaves | game_server/SyncWorker.cpp:36-42 | however the worker leaves and whatever failed before: if nothing failed in its last flush, every live stat written before that flush began is in its row; if the flag dropped in the wait, every live stat written before it dropped |
| WriteBehindStop.StopComesBack | game_server/SyncWorker.cpp:22-28 | once the flag is down the worker comes to its end without waiting for time to pass |
| WriteBehindStop.StopDuringFlushLosesWrites | game_server/SyncWorker.cpp:41 | a run without failure in which a stat cached before Stop is left behind |
| WriteBehindStop.NextProcessSaves | game_server/SyncWorker.cpp:24-43 | started again in time, the server has a run that saves what was left behind |
| ConnectionPool.ConnectionsAreConserved | game_server/Dbmanager.cpp:46-64 | pooled and held connections partition those of Init, none held twice, statements open exactly while used; at rest the pool is whole |
| DbManagers.DbManager.GetConnection | game_server/Dbmanager.cpp:46-56 | takes the last pooled connection, or none from an empty pool |
| DbManagers.DbManager.ReturnConnection | game_server/Dbmanager.cpp:58-64 | puts it back last |
| DbManagers.DbManager.Execute | game_server/Dbmanager.cpp:114-158 | every exit path of the five writing queries is a run of the pool that gives back the connection and closes the statement; success if and only if every call succeeded |
| DbManagers.DbManager.SelectOne | game_server/Dbmanager.cpp:160-235 | the same for the two single-row queries, with the row if and only if one was fetched |
| DbManagers.DbManager.SelectMany | game_server/Dbmanager.cpp:278-337 | the same for the inventory query, appending the rows, truncated or not, of the fetches up to the first at the end or in error |
| AsyncLogger.NothingIsLost | game_server/AsyncLogger.cpp:14-71 | written, in-hand and queued lines are those of all Log calls in order; no missed wakeup; exit only after shutdown with every line logged before it written |
| AsyncLogger.ShutdownDrains | game_server/AsyncLogger.cpp:41-71 | after the flag drops the consumer comes to its exit by itself in a bounded number of steps |
| AsyncLogger.EverythingIsWritten | game_server/AsyncLogger.cpp:14-71 | for any lines there is a run that logs them, shuts down and exits with exactly them written |

## Left out

- The Winsock, IOCP, MySQL and hiredis calls themselves: nondeterministic steps or parameters stand for them.
- Packet handlers other than the stat handler: logging and single inserts; packets are taken to have the length of the struct their id names.
- SQL text, parameter binding and string truncation: only acquisition, release and the stat projection matter here.
- Rooms and the room pool: a size check and map operations.
- The registry and room maps themselves: a posting thread is taken to hold a reference to its session.
- Accept-slot counting, listening, process start-up and tear-down, and the workers' exit on shutdown.
- The end of the process when a cursor or key cannot be parsed: std::stoll and std::stoull throw and nothing in SyncLoop catches; FlushAll then returns Threw, and the transition system has no such step.
- Exceptions inside a worker: a handler that throws leaves its session without a receive.
- Values of another length under a stat key: the game server writes only whole packets there, and is taken to be the only writer.
- An error text of fewer than 37 bytes: it stands with whatever follows it in memory, as 37 arbitrary bytes.
- Sign and white space before a number in std::stoull and std::stoll: keys printed by the server have neither.
- Delays in waking the synchronisation thread: they count as part of the flush time.
- All of the Node server except the assumption about cache keys.
- Timestamps, file names, console and file output, monitoring and throughput figures.
- The in-place form of PostSend and SendCompleted under contention: the classes model single calls, the transition systems the interleavings.
