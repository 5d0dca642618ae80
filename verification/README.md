# A verified model of the livelock lock server and its client

`livelock` is a lock server without lock lifetimes: a client keeps a lock until it releases it or until its connection has been
gone for a timeout. The project models the server's store and connection protocol, the wire format with both parsers, the
shutdown machine and the client's retry loops, and proves what they promise.

- **The store.** `LockTable` says what the store means: one map from a lock to its owner, time, deadline and signals.
  `LockIndexes` and `MemoryStorage` are the three cross-linked dictionaries over shared, mutable lock objects. Every operation
  is proved to be one step on the map that may also collect expired locks.
- **The server.** `Commands` says what a command does to the map and what is replied, and `CommandLaws` spells it out for each
  command name; `LockServer` has the adaptor and the connection objects, each method proved against it. `Runs` is the state machine over connections, clients, losses, sweeps and
  restarts; `ServerRuns` shows that the objects, called in any order over any number of processes, produce its runs;
  `Guarantees` and `Holdings` prove its whole-run theorems, and `Counterexamples` gives concrete runs for their conditions.
- **Shutdown.** `Shutdown` lets a signal arrive between any two small steps of the main thread. In the middle of a guarded
  write the indexes may be anything; what clients were told is kept beside the store. `Interruptions` composes a command that a
  signal interrupts with the restart after it.
- **The wire.** `ByteStrings`, `Wire`, `Printer` and `RoundTrips` have the printer, a parser over plain byte strings and the
  round trip between them; `SocketBuffers` and `ClientParser` have the client's buffer and parser, `Replies` the short replies,
  `ServerWire`, `CommandEncodings` and `ServerParser` the server's own parser and the two forms of a command.
- **The client's loops.** `ClientLoops` has the deadline loop of `acquire`; `ClientConnection` has the handshake and the
  resending loop of `_send_command`, and `Discipline` derives from what they put on the wire that clients leave no orphans.

Times are real numbers. A `Clock` lets any amount of time pass before each reading. An operation that reads the clock several
times takes effect at its last reading. A random order, an iteration order and a random id are parameters, and so are the
text decoder and the pattern test of `find`.

Where the code and its documentation differ, the model follows the code:

- A lost connection marks locks with the adaptor's own default of 5 seconds, not with the operator's `release_all_timeout`
  (livelock/server.py:41, livelock/server.py:108); a dump load does use the operator's value.
- The sweep multiplies a time in milliseconds by 1000 where it should divide (livelock/memory_storage.py:202). The sweep is
  proved safe wherever it stops, and nothing is claimed about how long it takes.
- A refused password and a second CONN are answered with an error, and the command is then carried out all the same
  (livelock/server.py:407-413).
- A repeated plain AQ is answered '0' to the client that holds the lock; only AQR can be resent without harm.
- A dictionary keyed by a tuple is printed, and the client then fails to read it back.

## Model

| member | source | states |
|---|---|---|
| LockIndexes.DeleteKeepsCoherence | livelock/memory_storage.py:58-61 | taking a lock out of all three indexes keeps them coherent: equal domains, every object exactly once and only on its owner's list; so `_delete_lock` never raises |
| LockIndexes.InsertKeepsCoherence | livelock/memory_storage.py:76-80 | entering a new object for an unheld lock in all three indexes keeps them coherent |
| LockIndexes.EmptyListKeepsCoherence | livelock/memory_storage.py:53 | an empty list that the default dictionary adds, or that a sweep drops, does not matter |
| LockIndexes.ListsCountLocks | livelock/memory_storage.py:52-56 | the number of locks is the sum of the lengths of all clients' lists |
| LockIndexes.SearchAgreesWithOwner | livelock/memory_storage.py:86-91 | the linear search of a client's list finds a lock exactly when the owner index names that client |
| LockIndexes.Remark | livelock/memory_storage.py:99-100 | writing one deadline to the shared objects of a client's list gives it to exactly that client's holdings |
| LockIndexes.Resignal | livelock/memory_storage.py:32-42 | changing the signals of one shared object changes no other lock |
| LockIndexes.SnapshotIsCoherent | livelock/memory_storage.py:156-167 | a dump of coherent indexes is coherent |
| LockIndexes.SnapshotSavesTable | livelock/memory_storage.py:159-163 | a dump saves the owner, time, deadline and signals of every lock |
| LockIndexes.RestoredStandsFor | livelock/memory_storage.py:173-180 | the indexes rebuilt from a coherent dump are coherent, share their objects again and stand for the saved table |
| LockIndexes.MemoryLockInfo.Expired | livelock/memory_storage.py:26-30 | a lock has expired once its deadline is reached; no deadline never is |
| LockIndexes.MemoryLockInfo.AddSignal | livelock/memory_storage.py:32-35 | adds to the set, which is made on first use |
| LockIndexes.MemoryLockInfo.HasSignal | livelock/memory_storage.py:41-42 | the object answers for the holding it stands for, whoever owns it; a set never made is an empty one |
| MemoryStorage.InMemoryLockStorage.DeleteLock | livelock/memory_storage.py:58-61 | removes one lock from the table and touches no other client's list |
| MemoryStorage.InMemoryLockStorage.Acquire | livelock/memory_storage.py:64-83 | grants exactly when the lock is free, expired, or re-entered by its owner; a grant makes a fresh entry and a re-entry changes nothing |
| MemoryStorage.InMemoryLockStorage.Release | livelock/memory_storage.py:85-95 | succeeds exactly for the owner, expired or not, and removes that lock alone |
| MemoryStorage.InMemoryLockStorage.ReleaseAll | livelock/memory_storage.py:97-101 | gives every lock of the client, and no other, the same deadline; a zero timeout stands for the store's own |
| MemoryStorage.InMemoryLockStorage.UnreleaseAll | livelock/memory_storage.py:103-106 | clears the deadline of every lock of the client, expired ones too |
| MemoryStorage.InMemoryLockStorage.SetMarks | livelock/memory_storage.py:99-105 | the marking loop over the shared objects changes the deadlines of exactly that client's locks |
| MemoryStorage.InMemoryLockStorage.LocksOf | livelock/memory_storage.py:53 | looking a client up adds an empty list and changes no holding |
| MemoryStorage.InMemoryLockStorage.Locked | livelock/memory_storage.py:108-116 | answers whether the lock is held and unexpired, and collects it if it has expired |
| MemoryStorage.InMemoryLockStorage.Find | livelock/memory_storage.py:124-129 | lists each unexpired matching lock once, with its time, and nothing else |
| MemoryStorage.InMemoryLockStorage.AddSignal | livelock/memory_storage.py:131-136 | adds the signal to that lock alone, or reports that the lock does not exist |
| MemoryStorage.InMemoryLockStorage.HasSignal | livelock/memory_storage.py:138-142 | tells whether the lock has the signal, or reports that the lock does not exist |
| MemoryStorage.InMemoryLockStorage.RemoveSignal | livelock/memory_storage.py:144-154 | removes the signal from that lock alone and tells whether it was there |
| MemoryStorage.InMemoryLockStorage.SweepClient | livelock/memory_storage.py:210-213 | removes only expired locks, and of this client's every one that had expired when the sweep began |
| MemoryStorage.InMemoryLockStorage.SweepOrDrop | livelock/memory_storage.py:209-216 | a client and its address are dropped exactly when the sweep leaves it without locks; other clients' lists stay |
| MemoryStorage.InMemoryLockStorage.Maintenance | livelock/memory_storage.py:201-218 | for any client order and stopping point only expired locks go and all others stay as they are; dropped clients lose their address; if it finishes, nothing expired at the start and no empty list is left |
| MemoryStorage.InMemoryLockStorage.Dump | livelock/memory_storage.py:156-167 | the dump is coherent and holds the whole table and all addresses |
| MemoryStorage.InMemoryLockStorage.LoadDump | livelock/memory_storage.py:169-191 | every saved lock that had not expired is back with its owner, time and signals and a deadline of load time plus timeout plus 1; an unreadable file leaves an empty store |
| MemoryStorage.InMemoryLockStorage.Restore | livelock/memory_storage.py:173-180 | after unpickling, new shared objects stand for the saved table |
| MemoryStorage.InMemoryLockStorage.MarkEveryone | livelock/memory_storage.py:185-186 | every lock gets a deadline between the loop's start and its end, each plus the timeout, and nothing else changes |
| MemoryStorage.InMemoryLockStorage.CollectAndMark | livelock/memory_storage.py:182-186 | the sweep and the marking together drop only expired locks and mark all others |
| MemoryStorage.InMemoryLockStorage.CleanAllData | livelock/memory_storage.py:52-56 | leaves coherent, empty indexes |
| LockServer.StorageAdaptor.OnStorageOperationEnd | livelock/server.py:49-56 | the counter stays at zero or above, and the last operation after a signal writes exactly one dump of the present table |
| LockServer.StorageAdaptor.OnCommandEnd | livelock/server.py:65-70 | the last command after a signal exits, with a dump if none was written |
| LockServer.StorageAdaptor.OnKillRequested | livelock/server.py:72-83 | a signal dumps at once outside storage operations and exits at once outside commands |
| LockServer.StorageAdaptor.Die | livelock/server.py:91-96 | exits, with one dump if none was written before |
| LockServer.StorageAdaptor.GuardEnter | livelock/server.py:597-603 | storage operations are refused once a signal has arrived |
| LockServer.StorageAdaptor.Acquire | livelock/server.py:98-100 | the guarded operation is the table's acquire, or is refused with nothing changed, and leaves the counters as they were |
| LockServer.StorageAdaptor.Release | livelock/server.py:102-104 | the guarded operation is the table's release, or is refused with nothing changed |
| LockServer.StorageAdaptor.UnreleaseAll | livelock/server.py:110-112 | clears the client's deadlines, or is refused with nothing changed |
| LockServer.StorageAdaptor.SetClientLastAddress | livelock/server.py:117-119 | records the address, or is refused with nothing changed |
| LockServer.StorageAdaptor.AddSignal | livelock/server.py:121-123 | adds the signal, or is refused with nothing changed |
| LockServer.StorageAdaptor.RemoveSignal | livelock/server.py:128-130 | removes the signal, or is refused with nothing changed |
| LockServer.StorageAdaptor.ReleaseAll | livelock/server.py:106-108 | marks the client's locks with the adaptor's own timeout of 5 seconds |
| LockServer.LiveLockProtocol.ConnectionLost | livelock/server.py:359-374 | marks the client's locks exactly when the recorded address is absent or this connection's, and changes nothing else |
| LockServer.LiveLockProtocol.Connect | livelock/server.py:410-425 | CONN clears the client's deadlines, records the peer address and replies the id; a second CONN is complained about and served |
| LockServer.LiveLockProtocol.Execute | livelock/server.py:430-541 | every other command has the effect and the reply that the command semantics gives it |
| LockServer.LiveLockProtocol.Acquire | livelock/server.py:445-455 | AQ and AQR: wrong or undecodable arguments change nothing; otherwise the store's acquire and its answer |
| LockServer.LiveLockProtocol.Release | livelock/server.py:456-466 | RELEASE: the same for release |
| LockServer.LiveLockProtocol.IsLocked | livelock/server.py:467-477 | LOCKED: the same for the unguarded test, with its lazy collection |
| LockServer.LiveLockProtocol.SetSignal | livelock/server.py:478-489 | SIGSET, with the signal in lower case |
| LockServer.LiveLockProtocol.SignalExists | livelock/server.py:490-501 | SIGEXISTS, with the signal in lower case |
| LockServer.LiveLockProtocol.DeleteSignal | livelock/server.py:502-513 | SIGDEL, with the signal in lower case |
| LockServer.LiveLockProtocol.Handle | livelock/server.py:399-541 | the command's body with its password gate: a complaint does not end the command |
| LockServer.LiveLockProtocol.ProcessCommand | livelock/server.py:387-545 | a whole command, with password gate, counters and shutdown, agrees with the command semantics in store, session and replies |
| CommandLaws.NamesMean | livelock/server.py:394-513 | the request of a run that each command name stands for |
| CommandLaws.AcquireDoes | livelock/server.py:445-455 | "aq" and "aqr" grant a lock that nobody holds, with a fresh entry, and answer '1'; a held lock is refused with '0', but for "aqr" by its holder, and nothing changes |
| CommandLaws.ReleaseDoes | livelock/server.py:456-466 | "release" by the holder takes the lock out of the table and answers '1'; by anyone else it answers '0' and changes nothing |
| CommandLaws.LockedDoes | livelock/server.py:467-477 | "locked" answers '1' exactly for a held lock that has not run out, and takes away only one that has |
| CommandLaws.SignalsDo | livelock/server.py:478-513 | "sigset", "sigexists" and "sigdel" add, look up and remove the lower-case signal of one lock, or report that the lock does not exist |
| CommandLaws.ConnDoes | livelock/server.py:410-425 | "conn" names the connection, replies the id, records the peer and clears the deadlines of exactly the id's locks, after a complaint if the connection was named before; without an id a new one is handed out |
| CommandLaws.WrongConnDoes | livelock/server.py:413-417 | "conn" with an empty id is complained about, with one that is not text it fails; nothing changes |
| CommandLaws.UnnamedDoes | livelock/server.py:427-429 | before its CONN a connection is told to send one, and nothing changes |
| CommandLaws.WrongArgumentsDo | livelock/server.py:430-525 | missing, empty, surplus or unreadable arguments are complained about, and nothing changes |
| CommandLaws.OthersDo | livelock/server.py:514-541 | the commands that leave the store alone, and unknown ones, get their replies |
| CommandLaws.PasswordDoes | livelock/server.py:399-408 | exactly the right password admits the connection; anything else is complained about and then carried out as if admitted |
| CommandLaws.StopsIff | livelock/server.py:528-531 | "shutdown" by a named connection stops the server where it is supported, whatever the password gate says, and nothing else does |
| CommandLaws.LossDoes | livelock/server.py:359-374 | a loss gives exactly the client's locks five seconds if its peer is on record or nobody is, and changes nothing otherwise |
| Runs.ProcessingIsAStep | livelock/server.py:397-543 | what a processed command does is a request step of the state machine, also after a complaint by the password gate; where the gate ends the command, nothing changes |
| Runs.DeferredCollection | livelock/memory_storage.py:108-116 | LOCKED answers the same for a store that has collected expired locks and for a dump that still has them, so that a command interrupted by a signal and the restart after it are steps from the dumped world |
| ServerRuns.Server.Open | livelock/server.py:345-350 | a new connection object extends the run by its opening |
| ServerRuns.Server.Command | livelock/server.py:387-545 | a command on a real connection object over the real store extends the run by that request and is answered as the run has it, after the gate's complaint if there is one; or it adds nothing where the password gate ends it |
| ServerRuns.Server.Lose | livelock/server.py:359-374 | a lost connection object extends the run by the loss |
| ServerRuns.Server.Sweep | livelock/server.py:629-632 | a sweep of the real store extends the run by a maintenance step; it leaves nothing that had expired, unless its time is up |
| ServerRuns.Server.Terminate | livelock/server.py:72-96 | a signal between commands leaves an exited process whose last dump holds all that the store held, and the run as it was |
| ServerRuns.Server.Restart | livelock/server.py:674-684 | the next process, however much later, loads that dump and extends the run by a restart counted from the load; so whatever is called, the objects always produce a run of the state machine |
| Interruptions.ActionsServe | livelock/server.py:410-513 | the writes of an uninterrupted command, one after the other, have the effect that the command has in a run |
| Interruptions.WriteReaches | livelock/server.py:98-130 | after each write of a command the store is where the command as a whole leads, or where a CONN has cleared the deadlines and not yet recorded the address |
| Interruptions.InterruptedCommandRestarts | livelock/server.py:72-96 | wherever in a command a signal arrives, the process that loads the last dump goes on as after a run in which the command happened as a whole or not at all and the restart came next |
| Runs.OnlyGrantsCreate | livelock/memory_storage.py:64-83 | in any step, a lock comes to be held only by a fresh grant, with a new time, no deadline and no signals |
| Runs.HoldingEnds | livelock/memory_storage.py:64-116 | in any step, a holding ends only by its owner's successful RELEASE or because it has expired |
| Runs.HoldingGoesOn | livelock/memory_storage.py:97-106 | in any step, a holding that goes on keeps owner and time; its deadline is set only by a loss or a load and cleared only by its owner's CONN; its signals change only by signal commands for it |
| Guarantees.DisciplinedStepKeepsNoOrphans | livelock/server.py:359-373 | the invariant step behind the next row: recorded addresses are absent or those of the latest CONN |
| Guarantees.NoOrphanedLocks | livelock/server.py:410-425 | in every run of clients that send one CONN a connection and acquire only while their latest connection is open, a lock without a deadline has an owner whose latest connection is open |
| Guarantees.GrantOrphansIff | livelock/client.py:126-133 | a grant leaves no orphan if and only if the grantee's latest connection is open |
| Guarantees.LossOrphansIff | livelock/server.py:365-372 | in any world without orphans, a loss leaves one if and only if a client whose latest connection it is holds an unmarked lock and the connection carries another id by then |
| Guarantees.StepOrphansIff | livelock/server.py:359-373 | in every run, a step leaves an orphan if and only if it grants to a client without an open latest connection or loses a connection named anew |
| Guarantees.OrphanFreeIff | livelock/server.py:359-425 | a run is free of orphans if and only if no event of it is of these two kinds |
| Guarantees.SecondConnOrphansIff | livelock/server.py:410-425 | after a second CONN, under an id given or handed out, losing the connection orphans exactly when it was the first id's latest and that id holds an unmarked lock |
| Discipline.RequestIsDisciplined | livelock/client.py:140-151 | whatever properly opened connections put on the wire, if each client's requests arrive in order, keeps the discipline that the guarantee against orphans asks for |
| Discipline.LibraryClientsLeaveNoOrphans | livelock/client.py:94-151 | however clients that use the library connect, fail, resend and are cut off, a lock without a deadline has an owner whose latest connection is open |
| Guarantees.PeersAlwaysDiffer | livelock/server.py:365-372 | in every run open connections keep different peers and recorded addresses are those of the latest CONN |
| Guarantees.Retention | livelock/server.py:365-372 | a client that held a lock at its CONN keeps all its locks unmarked while it keeps that lock and that connection is its latest and open, whatever stale losses, sweeps and other clients do |
| Guarantees.StaleLossMarksIff | livelock/memory_storage.py:214-216 | the loss of a stale connection marks the client's locks if and only if a sweep has forgotten its address |
| Counterexamples.AcquireOnStaleConnectionOrphans | livelock/server.py:365-372 | a run in which AQ over an older connection leaves an unmarked lock with every connection closed |
| Counterexamples.StaleLossMarksWithoutAHolding | livelock/memory_storage.py:214-216 | a run in which a client that held nothing at its CONN has a lock marked while its latest connection is open |
| Holdings.MutualExclusion | livelock/memory_storage.py:64-116 | between two fresh grants of a lock one event ends the first holding, which lasts up to then: its holder's release, or a removal or regrant by which the last mark of its locks has stood for the full timeout, counted from the loss or from the load of the dump, with no CONN from the holder between the mark and the removal |
| Holdings.StalenessBound | livelock/memory_storage.py:26-30 | after the loss of a client's latest connection its lock can be acquired from the full timeout on, swept or not, and by no one else before, unless released |
| Holdings.LockedAgreesWithAcquire | livelock/memory_storage.py:108-116 | LOCKED is answered '1' exactly when an AQ or AQR by anyone but the owner would be refused then and there |
| Holdings.LockedWhileHeld | livelock/memory_storage.py:108-116 | a lock that was granted, not released and kept by timely reconnects is reported as locked |
| Holdings.UnlockedAfterRelease | livelock/memory_storage.py:108-116 | a released lock that nobody was granted since is reported as free |
| Holdings.SignalsBelongToOneHolding | livelock/memory_storage.py:131-154 | in every run a held lock has a signal if and only if it was set after the present grant and not deleted since |
| Holdings.TimelyHolding | livelock/memory_storage.py:103-106 | a holder each of whose marks is followed by a CONN, or by the next mark, within its timeout keeps its lock, unmarked |
| Holdings.RepeatedAcquire | livelock/client.py:291-299 | a repeated acquire changes nothing, through any losses with timely reconnects; it is answered '1' if it is an AQR and '0' if it is a plain AQ |
| Holdings.RepeatedRelease | livelock/server.py:456-466 | one RELEASE frees the lock however many AQRs succeeded; a repeated one is answered '0' and never removes another client's holding |
| Holdings.RestartThenReconnect | livelock/memory_storage.py:169-191 | across an orderly restart of any length a lock that had not expired at the load keeps owner and time, has a deadline of load time plus timeout, and a CONN before then recovers it unmarked, with the signals nobody changed meanwhile |
| Shutdown.DroppingKeepsCoherence | livelock/memory_storage.py:58-61 | the lazy deletion in `locked` leads from coherent indexes to coherent ones |
| Shutdown.StampingKeepsCoherence | livelock/memory_storage.py:97-101 | marking any part of a client's lock objects in place leaves the indexes coherent; marking all of them is the store's `release_all` |
| Shutdown.PerformingKeeps | livelock/server.py:98-130 | every guarded write keeps what earlier answers promised and what its own answer promises |
| Shutdown.AnswersPromise | livelock/server.py:98-104 | a grant or re-entry answered '1' is a promise, and only a release answered '1' ends it |
| Shutdown.PromisesLast | livelock/server.py:106-130 | no other operation takes a promise away that has not run out, and marks change the deadlines of one client's promises alone |
| Shutdown.NextKeepsInv | livelock/server.py:46-96 | counters, flags, place, store, promises and dumps stay sound in every small step and under a signal anywhere |
| Shutdown.FinalDumpIsCoherentAndComplete | livelock/server.py:46-96 | wherever signals land, every dump is of coherent indexes, and the last one before the exit has every lock whose grant was answered '1', was not released since and has not expired; it has all that the store holds and beyond that only expired locks |
| Shutdown.KilledProcessExits | livelock/server.py:65-70 | after a signal every step brings the process closer to its exit, but for the small steps inside a write already under way |
| Shutdown.HandlerExitsOnlyBetweenCommands | livelock/server.py:72-83 | the handler itself exits only outside commands, so an interrupted command still replies |
| ByteStrings.DigitsParse | livelock/shared.py:99-100 | reading a decimal number gives back the number printed |
| ByteStrings.IntTextParses | livelock/client.py:153-155 | the same for negative numbers, which print without a line feed |
| ByteStrings.StripTrims | livelock/client.py:155 | stripping takes off the white space around a text and nothing else |
| ByteStrings.NumberParses | livelock/client.py:155 | digits with an optional sign, between white space, are that number |
| ByteStrings.OnlyNumbersParse | livelock/client.py:155 | nothing else is a number |
| ByteStrings.BareLineFeedIsNoEnd | livelock/connection.py:108-114 | a line feed without a carriage return does not end a line; the reader waits until the stream ends |
| ByteStrings.CountedReads | livelock/client.py:170-183 | a counted byte string reads back whole, whatever bytes are in it and after it |
| Printer.PackArray | livelock/shared.py:107-111 | the loop prints the count and then all items, and fails exactly when an item does |
| Printer.PackDict | livelock/shared.py:114-123 | the loop prints the count and then keys and values in turn, and fails exactly on a key type it does not let through or an unprintable part |
| Printer.PackResp | livelock/shared.py:132-151 | the recursive printer is the printing function that the round trip is about |
| Wire.PrintsIff | livelock/shared.py:114-151 | a value prints if and only if nothing in it is of an unsupported type and every dictionary key is a sequence, a number or a text |
| Wire.ScalarSamples | livelock/shared.py:81-105 | one encoding of each scalar kind, byte by byte |
| Wire.ContainerSamples | livelock/shared.py:107-123 | one array and one dictionary, byte by byte |
| RoundTrips.RoundTrip | livelock/shared.py:81-151 | parsing an encoding followed by any bytes gives the value, tuples as lists, and exactly those bytes, if no dictionary has a sequence for a key, and fails if one has |
| RoundTrips.RoundTripPairs | livelock/client.py:191-202 | the same for the pairs of a dictionary, in order |
| RoundTrips.TupleKeyIsRefused | livelock/client.py:191-202 | a concrete dictionary that prints and cannot be read |
| RoundTrips.PutReplaces | livelock/client.py:200 | storing under an old key replaces its value in place, under a new one it comes last, and keys stay apart |
| RoundTrips.NegativeCountIsNull | livelock/client.py:170-173 | any negative count stands for null, for text and for bytes |
| RoundTrips.CountedNeedsItsEnd | livelock/client.py:174-178 | counted bytes must be there and end with a line end |
| RoundTrips.OnlyTwoBools | livelock/client.py:157-164 | only `t` and `f` are truth values |
| RoundTrips.NegativeArrayFails | livelock/client.py:204-212 | an array with a negative count reads on until the stream ends or fails |
| RoundTrips.NegativeDictFails | livelock/client.py:191-202 | so does a dictionary |
| RoundTrips.NormPrintsAlike | livelock/shared.py:139-140 | what comes back prints as the same bytes |
| RoundTrips.SameStream | livelock/shared.py:81-151 | equal streams begin with encodings of like values and go on alike, also where a dictionary keyed by a sequence keeps the reader from reading them |
| RoundTrips.SelfDelimiting | livelock/shared.py:132-151 | for all printable values, two encodings with what follows them are the same bytes if and only if the values are alike and the same bytes follow |
| RoundTrips.PrefixFree | livelock/shared.py:132-151 | no encoding of a printable value is a proper prefix of another |
| SocketBuffers.Socket.Recv | livelock/connection.py:64 | the socket hands out its chunks in order, at most the asked size at a time, and nothing only at the end |
| SocketBuffers.CompleteLine | livelock/connection.py:105-124 | a buffered line that ends with CR LF is the line of the whole stream, whatever arrives later |
| SocketBuffers.SocketBuffer.ReadFromSocket | livelock/connection.py:56-81 | moves bytes from the socket to the buffer and loses none; reads until it has enough, fails only at the end of the stream, and ends |
| SocketBuffers.SocketBuffer.Read | livelock/connection.py:83-103 | returns the next bytes of the stream and leaves the rest, however they are chunked, or fails if there are too few |
| SocketBuffers.SocketBuffer.ReadLine | livelock/connection.py:105-124 | returns the bytes up to the next line feed if CR precedes it, without the two, and leaves the rest; otherwise waits until the stream ends |
| SocketBuffers.SocketBuffer.Purge | livelock/connection.py:126-130 | emptying a consumed buffer loses nothing |
| ClientParser.LiveLockConnection.ReadBytes | livelock/client.py:170-183 | reads a counted string from the chunked stream as the plain reader does |
| ClientParser.LiveLockConnection.ReadInt | livelock/client.py:153-155 | reads a number from the chunked stream as the plain reader does |
| ClientParser.LiveLockConnection.ReadBool | livelock/client.py:157-164 | reads exactly `t` or `f` |
| ClientParser.LiveLockConnection.ReadFloat | livelock/client.py:166-168 | reads one trimmed line |
| ClientParser.LiveLockConnection.ReadDict | livelock/client.py:191-202 | the dictionary loop agrees with the plain parser in value and remaining stream |
| ClientParser.LiveLockConnection.ReadArray | livelock/client.py:204-212 | the array loop agrees with the plain parser in value and remaining stream |
| ClientParser.LiveLockConnection.ReceiveResp | livelock/client.py:214-230 | the recursive parser agrees with the plain parser in value and remaining stream, and ends on every stream |
| ClientParser.LiveLockConnection.ReadResponse | livelock/client.py:232-249 | a reply is read as a value, a text or the exception that carries its code |
| ClientParser.ReadsBack | livelock/client.py:153-236 | for every printable value and every split of its encoding and what follows into non-empty chunks, the client reads the value and leaves the stream right behind it, or fails exactly when a dictionary in it is keyed by a sequence |
| Replies.TextArrivesIff | livelock/server.py:554-566 | a text reply arrives whole and alone if and only if it has no line feed |
| Replies.ErrorArrives | livelock/client.py:240-247 | an error reply raises an exception with the code and the message the server looked up |
| Replies.YesAndNoArrive | livelock/client.py:403-406 | the server's yes arrives as the text '1' that a lock object tests for, its no as '0' |
| Replies.AllOccurrencesGo | livelock/client.py:245 | every occurrence of the code is taken out of an error line |
| Replies.ErrorLineReads | livelock/client.py:241-247 | the first word of an error line is its code: none, a number, or a failure of the client itself |
| Replies.UnknownReplyFails | livelock/client.py:248-249 | a reply that starts with no known mark is refused |
| Replies.DataArrivesIff | livelock/server.py:547-549 | a data reply arrives as the value sent, and the reader stops right behind it, if and only if no dictionary in it is keyed by a sequence |
| ServerWire.ServerRoundTrip | livelock/server.py:238-289 | the server reads exactly what the client printed if and only if the value has no null, boolean, byte string or dictionary in it; otherwise it fails or runs over a line end that belongs to what follows |
| ServerWire.NullTakesTwoMore | livelock/server.py:250-260 | reading a null takes two more bytes off the stream, which must be a line end |
| ServerWire.UntilReads | livelock/server.py:241 | a line goes up to the first CR LF, over single carriage returns and line feeds |
| ServerWire.NegativeArrayFails | livelock/server.py:265-275 | an array with a negative count reads on until the stream ends or fails |
| CommandEncodings.InlineReads | livelock/server.py:302-304 | arguments without white space, on one line that starts with none of `:*$,`, are read back exactly, and the line is consumed exactly |
| CommandEncodings.MarkedIsPacked | livelock/server.py:298-301 | a command that starts with one of these four is read as a packed value, an array standing for its items |
| CommandEncodings.EncodingsAgree | livelock/server.py:291-304 | the inline line and the packed array decode to the same arguments and are consumed exactly, for arguments free of white space and a name that does not begin like a packed value |
| CommandEncodings.PipelineSplits | livelock/server.py:291-309 | any mix of both forms is split back into the commands sent, in order, whatever follows |
| CommandEncodings.SplitIsUnique | livelock/server.py:291-309 | the bytes of a pipeline determine its commands |
| ServerParser.CommandProtocol.ReadBytes | livelock/server.py:250-263 | reads a counted string, and a line end even after a negative count |
| ServerParser.CommandProtocol.ReadArray | livelock/server.py:265-275 | the array loop agrees with the plain parser in value and remaining stream |
| ServerParser.CommandProtocol.ReadNumber | livelock/server.py:238-242 | reads a number up to the next CR LF |
| ServerParser.CommandProtocol.ReceiveResp | livelock/server.py:277-289 | the recursive parser agrees with the plain parser in value and remaining stream, and ends on every stream |
| ServerParser.CommandProtocol.ReceiveCommands | livelock/server.py:291-309 | the reading loop delivers exactly the commands of the stream, until it closes or fails |
| ServerParser.DeliversPipeline | livelock/server.py:291-309 | a pipeline is delivered as it was sent |
| ClientLoops.LiveLock.AcquireBlocking | livelock/client.py:349-383 | AQR is sent for a reentrant lock and AQ for any other, and '1' alone is a grant; between attempts it sleeps a second, or half of what is left, so that no sleep outlasts the deadline; the timeout exception comes only at or after the deadline with every attempt refused; the first granted attempt ends the loop; with a positive timeout there are at most 1 + n + timeout / interval attempts, where n halvings bring the interval below what an attempt takes |
| ClientLoops.LiveLock.AcquireOnce | livelock/client.py:384-386 | the non-blocking form makes one attempt and never sleeps |
| ClientConnection.LiveLockConnection.Connect | livelock/client.py:94-133 | refused exactly when the network refuses; with a handshake the connection comes up only over a socket that has heard CONN and then CONNINFO, without one it has heard neither; sockets are used one after the other and CONN is said at most once on each |
| ClientConnection.LiveLockConnection.SendConnect | livelock/client.py:140-151 | the password first where there is one, then CONN, then CONNINFO, up to the first that does not come out well; it comes up only if all do, CONN with the id that the client named, or with one that the client then takes; a lost connection fails it, and any complaint rejects it |
| ClientConnection.DeliveryIsGreeted | livelock/client.py:273-283 | every delivery over a connection opened for it comes after CONN and CONNINFO on that socket |
| ClientConnection.LiveLockConnection.SendCommand | livelock/client.py:259-301 | every event is what the network made of it; the answer returned is that of the last delivery and all earlier ones had none; each resend goes out over a connection opened and greeted right before it; it gives up after exactly three failures, or one without reconnecting; a payload over the limit is never sent; after a failure a command without reconnecting never reaches the wire |
| ClientConnection.DeliversAtMostThrice | livelock/client.py:273-301 | a command reaches the wire at most three times, and at most once without reconnecting |

## Left out

- Sockets, keepalive, asyncio, metrics, settings, logging, Sentry, fork handling and process ids: plumbing.
- The event that makes commands wait for the first sweep, and commands that arrive in a connection's buffer after its loss: a connection's commands precede its loss.
- Signals that interrupt the lazy deletion in `locked`, a sweep, a dump, or a dump load: none of them is guarded, and a dump made there can be incoherent.
- A crash: `Restart` loads the final dump of an orderly stop. What an older dump restores is `MemoryStorage.InMemoryLockStorage.LoadDump` alone.
- LockServer.LiveLockProtocol.Execute: does not state the contents of FIND and STATS replies (`MemoryStorage.InMemoryLockStorage.Find` does for the search), leaves out the debug verb `dump`, and forgets the text of CONNINFO.
- ClientParser.LiveLockConnection.ReadFloat: takes any trimmed line for a number, because floating-point text is opaque here; `float` may raise on it.
- Arguments that are not byte strings (numbers, lists, null) once they reach `process_command`, where they raise.
- What the password gate is for: it is modelled as it is and no secrecy is claimed.
- Text: UTF-8 is carried as bytes, so undecodable text and white space beyond ASCII are not modelled; float text is an opaque trimmed line; `int` takes an optional sign and decimal digits, without underscores.
- Dictionary keys that are equal across types (1, 1.0 and true) count as different.
- Pickle is an exact copy that keeps sharing; a snapshot names a lock object by its lock's id.
- Read timeouts, thread checks, reader size limits and the shutdown flag inside the server's parser.
- The unused `_pack_str`.
- ClientLoops.LiveLock.AcquireBlocking: termination needs attempts of a least duration, or for a zero timeout a granted attempt, since the loop otherwise need not end; an exception raised by an attempt is not modelled.
- LockServer.LiveLockProtocol.ProcessCommand: takes the command's name decoded and in lower case.
- ClientConnection.LiveLockConnection.SendCommand: leaves out the length of the pauses, errors other than connection errors and the handshake's complaints, and a caller that sends CONN by itself; connecting a socket, with its own three tries, is one step.
- Discipline.RequestIsDisciplined: takes it that a client's requests reach the server in the order sent, over all its sockets, and that no two clients go by one id.
- Interruptions.InterruptedCommandRestarts: does not cover a signal while a lost connection's locks are being marked; `Shutdown.FinalDumpIsCoherentAndComplete` does, but the dump may then have some of the marks, which is no single step.
- Wire.ParseBody: what a client makes of a malformed encoding is that it fails, without the exception's type.
