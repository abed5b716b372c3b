# GPS tracker server: models and proofs

This project models the parts of the GPS tracker server whose correctness does
not show in any one function: a table-driven CRC-16, two double-buffered batch
publishers, the concurrent protocols around a device connection, the GT06 frame
codec, and a few indexed structures that must agree with a simple
specification. Every module is named after what it models and its header cites
the package.

| module | models |
|---|---|
| `CrcBits`, `CrcWords`, `Crc16`, `Crc16Checksum`, `CrcParity`, `CrcValues` | bit-serial polynomial division; 16-bit words as registers in either bit order; the tables and byte-at-a-time updaters; configurations, digest, checksum; errors in an odd number of bits; check values and the initial register |
| `BatchWriter` | the write side shared by broker and store: a write buffer published when full or old |
| `BrokerPickup`, `StorePickup` | what consumers waiting on a condition variable pick up, over every interleaving |
| `CloseHandshake` | the closer/runner handshake of the older device type |
| `ConnHandoff`, `ConnHistory`, `ConnService`, `ConnRest` | serving loops, `ReplaceConn` and `Stop` of the newer device type; what becomes of each connection handed over; that every adopted connection is served; that a stopped device comes to rest |
| `CommandSlot`, `DeltaLog` | its command slot with server flags; which reports its serving loop handles and which it saves as events |
| `FrameCodec` | GT06 frames, built in place and read from a stream into a reused buffer |
| `Subscriptions` | subscriber sets shared through copied handles, each client's own index, and the locks both can be left with |
| `EventRing` | the downward-writing ring of latest events |
| `HistoryWriter` | the chunked location-history response |
| `DeviceRegistry` | the packed serial key, login keys, and the two-map device registry |
| `Options`, `Octets` | shared types |

How to read it:

- **Concurrent code is a step system.** A state holds the shared fields, the
  owners of the locks, the notify list of the condition variable and one program
  counter per goroutine. `Next` performs one step and leaves the state alone when
  the step is not enabled, so the lists of actions are exactly the
  interleavings, and a lemma about every list is a lemma about every run.
  `sync.Cond` has no spurious wake-ups: `Wait` joins the notify list before it
  releases the lock.
- **What can happen is stated with what must.** Next to the laws of every run stand
  lemmas that from every reachable state of some kind a run can go on to its goal:
  a woken consumer to its batch, a flush or an operation to its end, an adopted
  connection to its pass, a stopped device to rest, a caller to its answer.
- **Code that updates objects is a class** whose methods are proved against a
  specification function or against the lemmas next to it. Published batches are
  handles to shared arrays, message payloads are views into the buffer, and
  subscriber sets are shared objects. A method whose operation waits for ever
  for a lock returns `done == false`, with the locks it holds left taken.
- **Times, floating-point values and JSON** are integers, bit patterns and byte
  strings given from outside. Frame bytes and keys are numbers; the CRC works on
  bit vectors.

What the proofs bring to light about the code, each stated by a lemma below:

- a checksum configuration detects every 16-bit burst exactly when its polynomial
  has the X^0 term, and every odd number of flipped bits exactly when the
  polynomial word has an odd number of set bits; the predefined ones do both. Zero
  bytes in front of the data go unnoticed exactly when as many division steps leave
  the initial register alone, as they do for XMODEM and KERMIT;
- in the store the signal is sent after unlocking, so a batch can be picked up
  twice (never three times) and another never. A repeat needs a pick made between
  unlocking and signalling, and every such pick can be repeated; without such picks
  and lost signals the picks are 0, 1, 2 and so on. The broker picks up at most once;
- a caller of `TryCloseWait` that looks before the runner has set `running`
  leaves somebody asleep for ever, and nobody is left asleep otherwise;
- if `ReplaceConn` looks at a paused device before the last spawned loop has
  marked it running, two loops can serve it, and the read lock taken inside a pass
  can then deadlock: a run from the initial state gets there;
- in careful runs every adopted connection gets exactly one pass, in the order of
  adoption, and a device can always be stopped;
- `ReplaceConn` may close the very connection it handed over: unless another call
  handed over since, exactly when `c_next` no longer holds that connection;
- an offered connection is adopted, replaced by a later offer, or still waiting;
  it is adopted exactly when a loop looks at `c_next` while it is there, so one
  offered after the last look is neither served nor closed;
- a push to a closed stream client keeps the client's lock, so a second push to it
  never returns: a client that asks for a seventh subscription is never read again,
  and of two sends to a closed client under different keys at most one completes;
- a sender that marks its command as sent after the answer was handled blocks
  later unforced commands;
- a read timeout dispatches the previous message again, which only the alarm
  events show;
- frames with more than 250 payload bytes (commands with more than 245) are not
  read back, because the length field is one byte;
- simplejson serials that agree in the low 60 bits share a key, and two keys that
  share a tracker id lose a device in the registry.

## Model

| member | source | states |
|---|---|---|
| CrcBits.StepLinear | internal/util/crc16/crc16.go:103-109 | one division step is XOR-linear in the register |
| CrcBits.DivideLinear | internal/util/crc16/crc16.go:99-155 | bit-serial division is XOR-linear in register and data jointly |
| CrcBits.DivideAppend | internal/util/crc16/crc16.go:185-188 | dividing a concatenation is dividing one part after the other |
| CrcBits.IterInjective | internal/util/crc16/crc16.go:103-109 | with the X^0 term a step can be undone: different registers stay different |
| CrcBits.BurstChangesRegister | internal/util/crc16/crc16.go:99-155 | two bit strings that differ only inside one 16-bit window never leave the same register |
| Crc16.Reverse | internal/util/crc16/crc16.go:66-77 | the loop returns the word whose bit i is bit 15-i of the argument |
| Crc16.MakeTable | internal/util/crc16/crc16.go:99-113 | every entry is eight bit-serial division steps of its index, bit-reversed order |
| Crc16.MakeTableNBR | internal/util/crc16/crc16.go:118-132 | the same for the non-reversed order |
| Crc16.TableRunDivides | internal/util/crc16/crc16.go:138-155 | table look-ups, byte by byte, compute bit-serial division in either order, for every polynomial, register and data |
| Crc16.Update | internal/util/crc16/crc16.go:138-143 | with a correct table the loop returns the register of bit-serial division |
| Crc16.UpdateNBR | internal/util/crc16/crc16.go:150-155 | the same for the non-reversed order |
| Crc16Checksum.Conf.PrepareOnce | internal/util/crc16/crc16.go:81-89 | the table is made once, from the reversed polynomial when BitRev is set, and matches the chosen updater |
| Crc16Checksum.Conf.Checksum | internal/util/crc16/crc16.go:203-206 | the result is the checksum defined by bit-serial division of the data |
| Crc16Checksum.ChecksumUnique | internal/util/crc16/crc16.go:203-206 | that definition determines one value |
| Crc16Checksum.Digest.constructor | internal/util/crc16/crc16.go:174-177 | a new digest holds the register of the empty string |
| Crc16Checksum.Digest.Write | internal/util/crc16/crc16.go:185-188 | the digest holds the register of everything written so far |
| Crc16Checksum.Digest.Reset | internal/util/crc16/crc16.go:183 | nothing is remembered after Reset |
| Crc16Checksum.Digest.Sum16 | internal/util/crc16/crc16.go:190 | the one-shot checksum of everything written |
| Crc16Checksum.Digest.Sum | internal/util/crc16/crc16.go:192-199 | appends that checksum in the byte order of the configuration and leaves the digest as it was |
| Crc16Checksum.StreamingIsOneShot | internal/util/crc16/crc16.go:174-206 | however the data is cut into writes the register is that of one pass |
| Crc16Checksum.TableRunLinear | internal/util/crc16/crc16.go:138-155 | both table updaters are XOR-linear in register and data jointly |
| Crc16Checksum.ReflectionDuality | internal/util/crc16/crc16.go:66-155 | reversing register, polynomial register and every data byte turns one updater into the other with its result reversed |
| Crc16Checksum.ReflectedTables | internal/util/crc16/crc16.go:66-155 | for a polynomial word P and its reversal Q, the table for P in direct order and the one for Q in reversed order give reversed results on reversed registers and bytes |
| Crc16Checksum.ReflectedUpdates | internal/util/crc16/crc16.go:66-155 | the same with Q from `reverse`, both tables generated and both updaters run |
| Crc16Checksum.ReversalInvolutive | internal/util/crc16/crc16.go:66-77 | reversal is an involution and exchanges the two readings of a word |
| Crc16Checksum.BurstDetected | internal/util/crc16/crc16.go:99-155 | data that differ by a burst of at most 16 bits have different checksums, for any initial and final value and any surroundings |
| Crc16Checksum.DetectsBurstsIff | internal/util/crc16/crc16.go:55-63 | a configuration has that guarantee if and only if its polynomial has the X^0 bit |
| Crc16Checksum.PredefinedDetectBursts | internal/util/crc16/crc16.go:99-155 | all predefined configurations, PPP included, have it |
| Crc16Checksum.ResidueCheck | internal/util/crc16/crc16.go:192-206 | data followed by its own checksum leaves one fixed register, and with the X^0 bit no other two bytes do, when BigEnd is the opposite of BitRev |
| Crc16Checksum.X25Residue | internal/util/crc16/crc16.go:192-206 | for X25 that register is 0xF0B8, the good FCS of RFC 1662 Appendix C.2 |
| CrcValues.X25CheckValue | internal/util/crc16/crc16.go:24-29 | the X25 checksum of the digits 1 to 9 is the published 0x906E |
| CrcValues.ModbusCheckValue | internal/util/crc16/crc16.go:30-34 | that of MODBUS is 0x4B37 |
| CrcValues.XmodemCheckValue | internal/util/crc16/crc16.go:35-39 | that of XMODEM is 0x31C3 |
| CrcValues.KermitCheckValue | internal/util/crc16/crc16.go:40-44 | that of KERMIT is 0x2189 |
| CrcValues.LeadingZeros | internal/util/crc16/crc16.go:174-206 | with the X^0 term, zero bytes in front of any data leave the checksum register unchanged if and only if that many division steps leave the initial register unchanged |
| CrcValues.PredefinedLeadingZero | internal/util/crc16/crc16.go:24-44 | X25, PPP and MODBUS notice a leading zero byte in front of any data, XMODEM and KERMIT do not |
| CrcValues.PredefinedTrailer | internal/util/crc16/crc16.go:192-206 | for every predefined configuration, data followed by its own checksum as emitted leaves the residue |
| CrcParity.DivideParity | internal/util/crc16/crc16.go:99-155 | with an odd number of set bits in the polynomial word, division keeps the parity of register and data together |
| CrcParity.OddDetected | internal/util/crc16/crc16.go:99-155 | data that differ in an odd number of bits then have different checksums |
| CrcParity.DetectsOddIff | internal/util/crc16/crc16.go:55-63 | a configuration detects every odd number of flipped bits if and only if its polynomial word has an odd number of set bits |
| CrcParity.PredefinedDetectOdd | internal/util/crc16/crc16.go:24-48 | all predefined configurations do |
| BatchWriter.Batcher.constructor | internal/broker/broker.go:42-52 | starts with an empty buffer numbered 0 |
| BatchWriter.Batcher.Append | internal/broker/broker.go:90-100 | appends to the write buffer, publishes it when full, and never writes an array published before |
| BatchWriter.Batcher.TimerTick | internal/store/impl/pgstore/pgstore.go:75-84 | publishes a non-empty buffer older than the maximum age |
| BatchWriter.Batcher.FlushBuffer | internal/store/impl/pgstore/pgstore.go:99-108 | hands the current array over as the new batch and continues on a fresh array with the next number |
| BatchWriter.ApplySound | internal/store/impl/pgstore/pgstore.go:75-108 | each put or tick keeps numbers contiguous, batches non-empty and within the buffer size, and the history intact |
| BatchWriter.RunConserves | internal/store/impl/pgstore/pgstore.go:75-108 | over every history, published batches followed by the write buffer are exactly the puts in order, numbered consecutively modulo 2^64 |
| BatchWriter.NoRecordWaits | internal/store/impl/pgstore/pgstore.go:75-108 | with ideal ticks no record waits longer than the maximum age plus one tick |
| BatchWriter.RunDue | internal/store/impl/pgstore/pgstore.go:75-108 | over every history a batch is published only full, by the put of its last record, or older than the limit, at a tick; its first time is that of the put of its first record |
| BatchWriter.WorkKeepsRefining | internal/broker/broker.go:79-100 | putting or ticking under the lock, with the flush still to come, refines one step of the sequential writer |
| BatchWriter.RefiningConserves | internal/broker/broker.go:79-112 | a writer in the middle of any flush that refines the sequential one has published consecutive numbers, lost, doubled or reordered nothing, and published no batch before it was full or too old |
| BrokerPickup.StepsKeep | internal/broker/broker.go:102-138 | over every interleaving: the invariant of one connection, and the write side is the sequential writer run on the operations in lock order |
| BrokerPickup.PublishedNumbered | internal/broker/broker.go:79-112 | batches published by any interleaving are numbered consecutively modulo 2^64, nothing put is lost, doubled or reordered, and none leaves before it is full or too old |
| BrokerPickup.BrokerPickups | internal/broker/broker.go:102-138 | a connection picks up strictly increasing batches, each exactly as published; every broadcast since acceptance is picked, pending or missed; without misses nothing is skipped |
| BrokerPickup.BroadcastWakes | internal/broker/broker.go:105-135 | a broadcast takes a connection that has joined the notify list off it and leaves it woken, with its batch still to pick up |
| BrokerPickup.WaitingPicksAll | internal/broker/broker.go:102-138 | over every run in which a connection is back in Wait at each broadcast since its acceptance, it picks up every batch since then, in order, up to the one it has been woken for |
| BrokerPickup.WokenPicks | internal/broker/broker.go:133-138 | from every reachable state a woken connection can go on to pick up the latest batch |
| BrokerPickup.FlushCompletes | internal/broker/broker.go:102-112 | from every reachable state in the middle of a flush, whatever the connections are doing, the run can go on to its end, with exactly the records of the write buffer published |
| BrokerPickup.OperationCompletes | internal/broker/broker.go:79-112 | from every reachable state with the write lock free, any put or timer turn can be carried through and is then that operation of the sequential writer |
| BrokerPickup.BackToWait | internal/broker/broker.go:133-135 | a connection that has sent its batch gets back into Wait |
| BrokerPickup.AcceptJoins | internal/broker/broker.go:59-71 | a connection can be accepted in any reachable state, and what it is due begins with the next broadcast |
| BrokerPickup.FailedPicksNothing | internal/broker/broker.go:139-144 | after a write error a connection picks up nothing any more |
| StorePickup.StepsKeep | internal/store/impl/pgstore/pgstore.go:99-136 | over every interleaving: the invariant of the single consumer, and the write side is the sequential writer |
| StorePickup.PublishedNumbered | internal/store/impl/pgstore/pgstore.go:75-108 | the same over every interleaving of the store |
| StorePickup.StorePickups | internal/store/impl/pgstore/pgstore.go:99-136 | picked numbers never go back and no batch is picked more than twice; picks, pending and lost signals add up to the signals sent, at most the flushes; a batch is repeated only after a pick made between unlocking and signalling; with no such pick and no lost signal the picks are 0, 1, 2 and so on |
| StorePickup.AtMostTwice | internal/store/impl/pgstore/pgstore.go:99-136 | in a non-decreasing list that never repeats over a distance of two, every value occurs at most twice |
| StorePickup.BatchPickedTwice | internal/store/impl/pgstore/pgstore.go:102-105 | a run from the start in which one batch is picked twice and the one before it never |
| StorePickup.EarlyRepeats | internal/store/impl/pgstore/pgstore.go:99-136 | from every reachable state just after a pick made between unlocking and signalling, the run can go on to pick the same batch again |
| StorePickup.TimelyPicksAll | internal/store/impl/pgstore/pgstore.go:99-136 | over every run in which the consumer is back in Wait at each signal and picks nothing up between unlocking and signalling, it picks up every batch in order, up to the one it has been woken for |
| StorePickup.SignalDelivers | internal/store/impl/pgstore/pgstore.go:102-136 | from every reachable state a signal to a waiting consumer can be followed by its pick of the latest batch |
| StorePickup.FlushCompletes | internal/store/impl/pgstore/pgstore.go:99-108 | from every reachable state in the middle of a flush, whatever the consumer is doing, the run can go on to its end, with exactly the records of the write buffer published |
| CloseHandshake.StepsKeep | internal/gps/gt06/gt06.go:117-159 | the invariant of runner, callers and notify list over every interleaving |
| CloseHandshake.Handshake | internal/gps/gt06/gt06.go:117-159 | a true return saw closed; two callers wait at once only if one came early; after the runner is done somebody sleeps if and only if some caller came before running was set |
| CloseHandshake.Answers | internal/gps/gt06/gt06.go:117-135 | over every run, exactly the callers that found the state closing are answered false; those that found it closed, and the early caller and the closer if they return, are answered true |
| CloseHandshake.ClosedStays | internal/gps/gt06/gt06.go:120-122 | closed is absorbing |
| CloseHandshake.SleepsForever | internal/gps/gt06/gt06.go:129-131 | a caller listed when the runner is done never returns |
| CloseHandshake.LateCallersReturn | internal/gps/serverimpl/server.go:261-269 | once running is set, at most one caller waits at any time and every caller can still return: with false if it has been refused or is about to find the state closing, otherwise with true |
| CloseHandshake.EarlyCallerSleeps | internal/gps/gt06/gt06.go:126-131 | a run in which an early caller is left asleep |
| ConnHandoff.StepsKeep | internal/gpsv2/device/gt06/gt06.go:194-346 | the invariant of loops, calls and locks over every interleaving |
| ConnHandoff.PassServesOneConn | internal/gpsv2/device/gt06/gt06.go:461-514 | during a pass the connection does not change, and after it the connection it served is closed |
| ConnHandoff.AdoptedOnce | internal/gpsv2/device/gt06/gt06.go:306-346 | no connection is adopted twice, and only given ones are |
| ConnHandoff.OnePassAfterStop | internal/gpsv2/device/gt06/gt06.go:194-237 | a loop begins at most one pass after Stop |
| ConnHandoff.StepsDrive | internal/gpsv2/device/gt06/gt06.go:212-346 | when calls look only after spawned loops have marked themselves, one loop or call is in charge throughout |
| ConnHandoff.SingleLoop | internal/gpsv2/device/gt06/gt06.go:265-346 | then at most one loop is live and the nested read lock of a command is granted at once |
| ConnHandoff.CarelessTwoLoops | internal/gpsv2/device/gt06/gt06.go:333-345 | whenever a call on a paused device looks too early, two loops can result |
| ConnHandoff.TwoLoopsDeadlock | internal/gpsv2/device/gt06/gt06.go:287-330 | with two loops the nested read lock can deadlock with use_next_conn |
| ConnHandoff.DeadlockStays | internal/gpsv2/device/gt06/gt06.go:287-330 | that deadlock is permanent |
| ConnHandoff.CallClosesItsOwn | internal/gpsv2/device/gt06/gt06.go:335-339 | ReplaceConn can close the connection it has just handed over |
| ConnHistory.WatchAllKeeps | internal/gpsv2/device/gt06/gt06.go:287-346 | the account of every connection handed over, kept over every interleaving |
| ConnHistory.ClosesItsOwnIff | internal/gpsv2/device/gt06/gt06.go:306-339 | in every reachable state, a call about to close a connection does not close its own if c_next holds that, and if no other call handed over since it closes its own if and only if c_next no longer holds it |
| ConnHistory.OfferFate | internal/gpsv2/device/gt06/gt06.go:306-346 | in every reachable state an offered connection is in exactly one place: adopted, waiting in c_next, or replaced by a later offer; once nobody holds c_next_mu it is adopted if and only if a loop looked at c_next while it was there |
| ConnHistory.OwnClosed | internal/gpsv2/device/gt06/gt06.go:335-339 | a run from the initial state in which a call closes its own connection |
| ConnHistory.OfferStranded | internal/gpsv2/device/gt06/gt06.go:333-346 | a run from the initial state after which everything is over and an offered connection is neither adopted nor closed |
| ConnHistory.CarelessReached | internal/gpsv2/device/gt06/gt06.go:333-345 | a careful run from the initial state after which a call can look too early |
| ConnHistory.DeadlockReached | internal/gpsv2/device/gt06/gt06.go:287-345 | a run from the initial state into the deadlock of nested read lock and use_next_conn |
| ConnService.ServedInOrder | internal/gpsv2/device/gt06/gt06.go:212-346 | over every careful run the passes serve the adopted connections, each once and in order of adoption, only the last possibly still to come; a loop about to pause the device has served its connection, and so has the last loop of a paused device |
| ConnService.EndedLoopServed | internal/gpsv2/device/gt06/gt06.go:218-236 | a loop that ended has served the device connection, until another one is handed over |
| ConnService.AdoptedByLoop | internal/gpsv2/device/gt06/gt06.go:218-232 | from every reachable state just after a loop has adopted a connection, the run can go on to that loop serving it |
| ConnService.AdoptedByCall | internal/gpsv2/device/gt06/gt06.go:340-346 | the same for a call on a paused device and the loop it spawns |
| ConnService.OwedGetsServed | internal/gpsv2/device/gt06/gt06.go:212-346 | in every careful run, while the last adopted connection has not been served, the run can go on to the pass that serves it |
| ConnService.CommandInPass | internal/gpsv2/device/gt06/gt06.go:287-304 | a command sent inside a pass leaves the pass and everything else as it was |
| ConnService.ReplacedAlone | internal/gpsv2/device/gt06/gt06.go:306-331 | over every run nobody reads the device connection while it is being replaced |
| ConnService.BorrowedStays | internal/gpsv2/device/gt06/gt06.go:287-331 | a connection that somebody reads stays the device connection until a reader leaves, whatever happens |
| ConnService.PassesAfterStop | internal/gpsv2/device/gt06/gt06.go:194-237 | after Stop every loop begins at most one more pass, over every continuation of every run |
| ConnService.StopCloses | internal/gpsv2/device/gt06/gt06.go:194-197 | Stop closes the connection in place when it gets to it, however much happens in between |
| ConnRest.StopComesToRest | internal/gpsv2/device/gt06/gt06.go:194-346 | from every state of a careful run a stop can be carried through: no loop is left, the device is paused, and its connection has been served and closed |
| CommandSlot.CommandState.SendCommand | internal/gpsv2/device/gt06/gt06.go:265-285 | busy exactly for an unforced command on an occupied slot; otherwise the command is recorded and gets its number modulo 2^32 as flag |
| CommandSlot.CommandState.MarkSent | internal/gpsv2/device/gt06/gt06.go:294-300 | marks the slot as sent, whatever happened since the submission |
| CommandSlot.CommandState.HandleResponse | internal/gpsv2/device/gt06/gt06.go:430-453 | matches exactly the flag of the latest command, changes nothing otherwise, and names an attribute to store exactly when that command upper-cases to one of the two names |
| CommandSlot.AttributeKey | internal/gpsv2/device/gt06/gt06.go:421-428 | a command that folds to an attribute name is stored under exactly that name |
| CommandSlot.AttributeIff | internal/gpsv2/device/gt06/gt06.go:421-428 | the attribute commands are exactly those whose upper case is one of the two names |
| CommandSlot.FlagsNumberCommands | internal/gpsv2/device/gt06/gt06.go:265-304 | over every interleaving flags number the commands, and every attribute key is the upper-cased text of the command issued under the response's flag |
| CommandSlot.FlagsDistinct | internal/gpsv2/device/gt06/gt06.go:275-279 | flags are pairwise different if and only if at most 2^32 commands were issued |
| CommandSlot.UnforcedNeedsAnswer | internal/gpsv2/device/gt06/gt06.go:266-274 | an unforced command is accepted if and only if none was issued, or the latest was answered and not marked as sent since |
| CommandSlot.StaleFlagIgnored | internal/gpsv2/device/gt06/gt06.go:435-442 | a response under any other flag leaves the slot as it was |
| CommandSlot.AttributeStored | internal/gpsv2/device/gt06/gt06.go:430-453 | over every interleaving the answer to an attribute command is stored under its name, and nothing else is |
| CommandSlot.LateMarkBlocks | internal/gpsv2/device/gt06/gt06.go:295-300 | a late mark refuses later unforced commands although the latest was answered |
| DeltaLog.Gt06.HandleHeartbeat | internal/gpsv2/device/gt06/gt06.go:348-364 | saves the status only if it differs from the current one |
| DeltaLog.Gt06.HandleAlarm | internal/gpsv2/device/gt06/gt06.go:366-374 | always saves the status |
| DeltaLog.Gt06.HandleLocation | internal/gpsv2/device/gt06/gt06.go:386-407 | stores and sends as configured and saves changed cell information |
| DeltaLog.Gt06.Handle | internal/gpsv2/device/gt06/gt06.go:508-535 | alarms are handled as a location and then an alarm |
| DeltaLog.LogIsLossless | internal/gpsv2/device/gt06/gt06.go:348-407 | after any reports the current status is that of the last saved event, the saved statuses go through exactly the reported changes, no heartbeat event repeats its predecessor, and the saved cells are the reported ones without repeats |
| DeltaLog.AlarmsSaved | internal/gpsv2/device/gt06/gt06.go:366-374 | every alarm handled is saved once, in order |
| DeltaLog.ServePass | internal/gpsv2/device/gt06/gt06.go:461-535 | one pass of the serving loop after any earlier passes, with the dispatch of the old message after a first timeout and the heartbeat whose response cannot be written |
| DeltaLog.HandledAlmostReceived | internal/gpsv2/device/gt06/gt06.go:469-495 | over any passes the reports handled are those received with at most one of them repeated in each pass, and at most one heartbeat in each pass is missed |
| DeltaLog.LateHeartbeat | internal/gpsv2/device/gt06/gt06.go:469-516 | a heartbeat whose response could not be written is handled after all when the next pass first meets a timeout |
| DeltaLog.RepeatOnlyAlarms | internal/gpsv2/device/gt06/gt06.go:348-407 | handling a report twice in a row changes status, cell and log by nothing but one more alarm event |
| DeltaLog.OnlyAlarmsRepeat | internal/gpsv2/device/gt06/gt06.go:461-535 | timeouts leave status, cell and all events but alarms as if each received report had been handled once; of the alarms at most one more a pass is saved |
| FrameCodec.NewFrame | internal/gpsv2/device/gt06/parser.go:255-270 | the array filled in place is the frame of its arguments, with the serial modulo 2^16 and the X25 checksum of what it covers, high byte first |
| FrameCodec.NewCommand | internal/gpsv2/device/gt06/parser.go:272-279 | the frame of a server command |
| FrameCodec.LoginAck | internal/gpsv2/device/gt06/frame.go:15-18 | the acknowledgement of a login with serial 1, byte for byte, check bytes included |
| FrameCodec.CommandOnWire | internal/gpsv2/device/gt06/parser.go:272-279 | a command as it goes out: start bytes, lengths, protocol, server flag, text and serial in their places |
| FrameCodec.Conn.Read | internal/gpsv2/device/gt06/frame.go:28-31 | a read delivers any positive number of the bytes that follow, or the final error |
| FrameCodec.Conn.ReadFull | internal/gpsv2/device/gt06/frame.go:28-31 | over any short reads the wanted bytes arrive in place, or the right error when they are not there |
| FrameCodec.Message.ReadBody | internal/gpsv2/device/gt06/frame.go:48-67 | the rest of a frame after its header, with every error case |
| FrameCodec.Message.ReadMessage | internal/gpsv2/device/gt06/frame.go:20-68 | outcome, bytes consumed and fields are those of parsing the bytes that follow; the payload is a view into the buffer; after an error the old fields stay |
| FrameCodec.ShortOnWire | internal/gpsv2/device/gt06/frame.go:32-67 | the bytes of a short frame as they arrive, and what is read from them |
| FrameCodec.LongOnWire | internal/gpsv2/device/gt06/frame.go:37-67 | the same for an extended frame with its two length bytes |
| FrameCodec.FrameParses | internal/gpsv2/device/gt06/frame.go:32-67 | a short or extended frame at the head of the stream is read back exactly, whatever its check bytes and whatever follows |
| FrameCodec.ShortFrameIff | internal/gpsv2/device/gt06/parser.go:255-270 | a frame of newFrame is read back with its payload if and only if that has at most 250 bytes |
| FrameCodec.CommandIff | internal/gpsv2/device/gt06/parser.go:272-279 | a command is read back if and only if its text has at most 245 bytes |
| FrameCodec.ReadAll | internal/gpsv2/device/gt06/gt06.go:470-495 | repeated reading into one buffer yields the messages of the stream up to its first error; an error between two frames leaves the last message in the buffer |
| FrameCodec.ReadPass | internal/gpsv2/device/gt06/gt06.go:469-497 | after a first timeout the message in the buffer is handed on again and reading goes on; between two frames that is the last message received |
| FrameCodec.StreamRoundTrip | internal/gpsv2/device/gt06/frame.go:20-68 | the frames of any list of messages are read back in order with serials modulo 2^16, ending exactly at the end of the input |
| FrameCodec.PassRoundTrip | internal/gpsv2/device/gt06/gt06.go:469-497 | of whole frames before and after a timeout a pass hands on every message in order, and the last one before the timeout twice |
| FrameCodec.ResponsesCarryFlag | internal/gpsv2/device/gt06/parser.go:140-152 | both response layouts give back the flag and text that a terminal echoes |
| Subscriptions.SublistMap.GetSublist | internal/gpsv2/sublist/sublist.go:79-100 | every handle is a new copy that denotes the one set of its key, and the set of a key never changes |
| Subscriptions.Sublist.Subscribe | internal/gpsv2/sublist/sublist.go:102-108 | adds the subscriber to the shared set and pushes what this handle holds; returns if and only if the set's mutex and the client's lock are free and the client is open, and otherwise leaves the mutex taken |
| Subscriptions.Sublist.Unsubscribe | internal/gpsv2/sublist/sublist.go:110-114 | removes the subscriber from the shared set if and only if its mutex is free |
| Subscriptions.Sublist.Send | internal/gpsv2/sublist/sublist.go:183-192 | completes if and only if the mutex is free and no member's lock was left taken; then every member was pushed to once and exactly the closed ones are removed, their locks left taken; otherwise the mutex stays taken and nobody got more than one copy |
| Subscriptions.Sublist.SendLocation | internal/gpsv2/sublist/sublist.go:116-128 | the same for a location, remembered in this handle |
| Subscriptions.Sublist.SendEvent | internal/gpsv2/sublist/sublist.go:130-141 | the same for an event |
| Subscriptions.Client.Push | internal/webapp/tracker/webstream/webstream.go:263-271 | an open client buffers the message; a closed one reports itself gone and its lock stays taken, so that the next push never returns |
| Subscriptions.Connect | internal/webapp/tracker/webstream/webstream.go:109-113 | a new client keeps the two indexes in agreement |
| Subscriptions.Close | internal/webapp/tracker/webstream/webstream.go:165-170 | so does closing one, which needs the client's lock |
| Subscriptions.AddSub | internal/webapp/tracker/webstream/webstream.go:172-193 | is processed to its end if and only if the mutexes of the new keys are free and an open client reaches at most six keys, a closed one asks for none; the client then has exactly the old and the new ids and is closed from the sixth on; in any case every open client is in exactly the sets of its map and none has more than five |
| Subscriptions.CompletesIff | internal/webapp/tracker/webstream/webstream.go:177-193 | reading ids one by one gets to the end of a message exactly under that condition |
| Subscriptions.DelSub | internal/webapp/tracker/webstream/webstream.go:194-210 | the same with the given ids removed, processed to its end if and only if the mutexes of the keys given up are free |
| Subscriptions.Broadcast | internal/gpsv2/sublist/sublist.go:116-128 | a location completes if and only if the mutex is free and no member's lock was left taken; it then reached, once, exactly the open clients whose own map has the key, and the closed clients have left the set |
| Subscriptions.SevenSubscriptions | internal/webapp/tracker/webstream/webstream.go:177-193 | a new client that asks for seven ids is never read again |
| Subscriptions.SecondSender | internal/gpsv2/sublist/sublist.go:183-192 | in every state, of two sends under different keys to a closed member of both sets at most one completes |
| Subscriptions.ClosedWithTwo | internal/webapp/tracker/webstream/webstream.go:263-271 | a client closed with two subscriptions: the first send completes, the second never |
| EventRing.TimeEvent.constructor | internal/gps/stat/stat.go:85-90 | an empty ring of any size |
| EventRing.TimeEvent.Log | internal/gps/stat/stat.go:66-76 | the ring read from the write index on is the history, newest first |
| EventRing.TimeEvent.GetAsList | internal/gps/stat/stat.go:19-28 | the newest events up to the ring size, newest first, if and only if the ring is not full or its oldest event is not zero; always a prefix of them |
| EventRing.TimeEvent.GetLastEvent | internal/gps/stat/stat.go:30-40 | the newest event, zero when there is none |
| EventRing.ListFromRotation | internal/gps/stat/stat.go:19-28 | how the two slices of the ring relate to the history |
| HistoryWriter.WriteRows | internal/webapp/tracker/tracker.go:461-506 | for every chunk size the bytes of all rows are written, in pieces of a chunk each and one rest, and the counts are those of the rows; on any failure what was written is a prefix |
| HistoryWriter.WriteHistory | internal/webapp/tracker/tracker.go:460-523 | the whole response is the same for every chunk size: 48 bytes a row, the metadata, its length; the chunk size only decides the sizes of the writes |
| HistoryWriter.Response.Write | internal/webapp/tracker/tracker.go:487-495 | a write delivers everything or fails after a prefix |
| HistoryWriter.RowRoundTrip | internal/webapp/tracker/tracker.go:475-481 | the 48 bytes of a row determine its fields |
| HistoryWriter.RowsRoundTrip | internal/webapp/tracker/tracker.go:466-497 | the row block determines the rows |
| HistoryWriter.CountsMeasureBlock | internal/webapp/tracker/tracker.go:482-510 | the row block is 48 times the sum of the group counts long |
| HistoryWriter.TailLocates | internal/webapp/tracker/tracker.go:510-519 | the last four bytes locate metadata and rows if and only if the metadata is shorter than 2^32 bytes |
| HistoryWriter.HistoryRoundTrip | internal/webapp/tracker/tracker.go:460-523 | rows, metadata and the measure of the counts are recovered from the response |
| DeviceRegistry.SplitCombine | internal/gpsv2/device/device.go:44-91 | splitting undoes combining, and the two constructors agree, if and only if the type is 0 to 15 and the serial below 2^60 |
| DeviceRegistry.CombineSplit | internal/gpsv2/device/device.go:85-91 | combining undoes splitting on every 64-bit key |
| DeviceRegistry.KeysEqual | internal/gpsv2/device/device.go:85-87 | keys are equal if and only if type and serial agree in the bits kept |
| DeviceRegistry.WordsCombine | internal/gpsv2/device/device.go:85-87 | mask, shift and or on 64-bit words give the number that CombineSn gives for the low four bits of the type |
| DeviceRegistry.WordsSplit | internal/gpsv2/device/device.go:89-91 | shift and mask on a 64-bit word give the numbers that SplitSn gives |
| DeviceRegistry.LoginFits | internal/gpsv2/device/gt06/parser.go:154-156 | an accepted GT06 serial is below 2^60, so its key is the serial with type 0 |
| DeviceRegistry.LoginSnIff | internal/gpsv2/server/server.go:314-335 | a login carries the serial sn if and only if its first eight bytes hold the sixteen decimal digits of sn, the high digit of each byte first |
| DeviceRegistry.LoginExample | internal/gpsv2/device/gt06/parser.go:154-156 | the eight bytes of the IMEI 123456789012345 |
| DeviceRegistry.LoginKeysEqual | internal/gpsv2/server/server.go:314-335 | two accepted GT06 logins have the same key if and only if their eight identity bytes are equal |
| DeviceRegistry.ProtocolsApart | internal/gpsv2/server/server.go:387-404 | a GT06 key is never a simplejson key |
| DeviceRegistry.JsonKeysEqual | internal/gpsv2/server/server.go:387-404 | simplejson keys are equal if and only if the logins are of one type and the serials agree in the low 60 bits |
| DeviceRegistry.TypeKept | internal/gpsv2/device/device.go:89-107 | the type name shown for a key is the one the device logged in with: imei, mac, aid, or other |
| DeviceRegistry.TypeNamesApart | internal/gpsv2/device/device.go:93-107 | every type below 5 has a name of its own |
| DeviceRegistry.DeviceList.AddDevice | internal/gpsv2/server/server.go:63-68 | records the addition in both maps |
| DeviceRegistry.DeviceList.DeviceNsn | internal/gpsv2/server/server.go:49-61 | finds a device if and only if the key was ever added |
| DeviceRegistry.HandleLogin | internal/gpsv2/server/server.go:335-358 | a known key hands the connection to its device, a new one adds a device when allowed |
| DeviceRegistry.LookupResult | internal/gpsv2/server/server.go:49-68 | a key resolves to the device last added for the key's latest tracker |
| DeviceRegistry.UniqueResolves | internal/gpsv2/server/server.go:49-68 | with unique tracker ids every added key resolves to a device with that serial |
| DeviceRegistry.ResolvesIff | internal/gpsv2/server/server.go:49-68 | with stable tracker ids this holds for all keys if and only if no two keys share a tracker id |

## Left out

- SQL, HTTP routing, WebSocket and TCP calls, JSON encoding, logging, cookies and password hashing: libraries that are not part of this model.
- Delivery of a picked-up batch (`net.Buffers.WriteTo`, `CopyFrom`): the batch models end at the snapshot the consumer takes.
- BrokerPickup.BrokerPickups: readers held up by a pending writer are not told apart from others, so the model allows some interleavings that `sync.RWMutex` does not.
- BatchWriter.NoRecordWaits: each put or tick has one time, although the source reads the clock twice, and ticks are exact.
- ConnHandoff.SingleLoop: `ReplaceConn` on a device still in `created` is excluded; it returns without releasing its mutex.
- ConnHandoff.PassServesOneConn: what is read and dispatched during a pass is not part of the step system; `DeltaLog` and `CommandSlot` model it as lists of inputs and responses.
- Fairness of the scheduler and of the locks: the lemmas about going on say that a run can reach its goal from where it is, not that it does.
- The `use_next_conn` of the simplejson device, which never clears the next connection.
- CommandSlot.CommandState.HandleResponse: `SaveCommandResponse` reads the slot after unlocking, so the command it is given may be a later one; only the attribute is modelled.
- CommandSlot.AttributeKey: upper-casing of characters that fold to no ASCII letter is not modelled, since they cannot occur in an attribute command.
- FrameCodec.Message.ReadMessage: the check bytes are ignored because the source ignores them, and `Extended` is never cleared. A length field below 5 makes the source panic, which is the outcome `OutOfRange`.
- FrameCodec.ReadPass, DeltaLog.ServePass: after a timeout in the middle of a frame the buffer holds the old fields over partly new bytes; which report that is read as is not stated.
- DeltaLog.ServePass: the status request sent at a first timeout is not modelled; a failure to send it is an error that ends the pass.
- FrameCodec.ResponsesCarryFlag: the payload layouts a terminal sends are those the two parsers read.
- GPS, cell and status field parsing, speed conversion and time zones: each is settled by reading one line.
- Subscriptions.Sublist.Subscribe: what is replayed is the data of this handle only, as in the source; no property is claimed of it.
- Subscriptions.AddSub: one operation is one step, and one that waits for a lock nobody will release does not return; interleaving inside an operation, and the encoding of locations and events, are not modelled. Ids that do not parse are dropped before.
- The write loop of a stream client and its delay counters.
- HistoryWriter.WriteHistory: an error of the query that only ends the rows early looks like the end of the rows, as in the source.
- DeviceRegistry.CombineSn: written with remainder, product and sum; WordsCombine and WordsSplit relate it to 64-bit words, where a type number stands for its low four bits.
- DeviceRegistry.HandleLogin: two logins with the same new key may both be added by the source; the lemmas on the registry allow any list of additions, the method is one login at a time. `PurgeDevice`, which edits a copy, is not modelled.
- Parsing of the hexadecimal simplejson serial: its value is given.
