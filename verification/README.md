# 352 local protocol: a verified model

This project models the local UDP stack for 352 purifiers and proves properties of it in Dafny.
`dafny verify dfyconfig.toml` checks all of it.

## What is modelled

- **The client** (`transport.py`). `CommandQueue` is the coalescing queue with the worker that
  serves it, `Requests` the reply waits, the duplicate cache and the learned header identity.
  Both are state machines whose steps are what runs between two awaits or in one region under the
  queue lock; futures are numbers. `Transport` joins them and holds the end-to-end results;
  `RequestSafety`, `Confirmation`, `Answering`, `Endings`, `Delivery`, `Coalescing`,
  `Availability`, `Confirmability` and `DuplicateCache` hold the others. `LocalDeviceClient` is the object itself: a class with the source's fields, loops
  included. It carries the trace of what has happened to it, and `Valid` says that the object is
  where the system's run of that trace is; every step method keeps that and appends its event, so
  the results about runs are read off the object (`ResultOf`, `Available`, `State`).
- **CoAP** (sections 3 and 3.1 of RFC 7252). `Coap` is the printer and parser of the ALCS client,
  `CoapDiscovery` and `CoapProbe` the two other, independently written readers, each related to
  the first by an if-and-only-if. `CoapFormat` states the format of the standard in its own terms
  and shows that the printer and the parser are exactly that; `DiscoveryFormat` and `ProbeFormat`
  do so for the two others. `Blocks` is the Block2 assembly (sections 2.2 and 2.4 of RFC
  7959), `BlockRules` its verdicts on any server's packets, `LinkSplitter` the link-format splitter
  (section 2 of RFC 6690) and `LinkGrammar` what its flags mean.
- **Framing, checksum and codecs.** `Crc16` is CRC-16/GENIBUS with its burst detection at any
  message length, `Framing` the outer envelope and the two frame checks, `F072`, `A5A0` and `M25`
  the codecs, `Codecs` what they promise to the client, `PassiveDiscovery` the second validator.
  `CrcNumbers` ties the register to the source's arithmetic. `Commands` says octet by octet what is
  sent, `Reports` is the device's side of the states, field after field in the order of the wire,
  and `Obedience` says which reports confirm which commands.
- **Write-then-verify protocols against an adversarial network.** `AlcsPower` (with `AlcsCipher`,
  its split cipher block chaining over any invertible block function), `Schedule` and `PowerProbe`
  take a script that says what every send and every await meets: loss, delay, duplication, forged
  datagrams, failed sends, cancellation or an interrupt. Each keeps a log, and the results are
  statements about the log. The run of `set_power` is a function of its script, which the methods
  compute; `AlcsChecks` says what its checks come to, `AlcsParts` what its parts leave, `AlcsResults`
  and `AlcsRuns` what holds of every run, and `AlcsEscapes` has concrete runs that end
  unclassified. `ScheduleRuns` tells a cleanup from the outside, by what the network does to it.
  `Logs` counts log entries.
- **The shared endpoint** (`udp.py`). `SharedEndpoint` is the reference count over any run of
  acquires and releases, and the objects that carry it; `EndpointRuns` covers the runs that are not
  balanced.

`Bytes` and `Models` hold the shared types.

## How it is modelled

- Locks are never contended in the source, because no region under them awaits. The queue and wait
  machines nevertheless let other steps in at every lock acquisition and between the parts of
  `close`, so the results also cover schedules that the source cannot produce.
- Time is a real number that does not decrease. A timeout may fire at any moment, also when the
  future is already done.
- The checksum register is a sequence of sixteen bits, the message bits are fed in wire order.
- JSON is a datatype; its parser and printer, Python's `str` and `int` on text, HMAC and AES are
  functions about which nothing is assumed, except that the two directions of the block cipher
  undo each other in the round-trip results. No claim about cryptographic strength is made.
- In `set_power` the parser may escape, that is raise what nobody catches, such as RecursionError,
  and so may `str` on a nested id; comparing a proof that is not ASCII raises TypeError.
- `PowerProbe.NextSequence` draws until a number is unused; that this ends needs an unused draw to
  come, which is its precondition; fair draws give one while a number is free
  (`PowerProbe.FairDrawsFindFree`).

## What the proofs found

- X50 `SPEED` 0 passes the encoder's range check but no decoded X50 state ever shows it, so such a
  command always times out. It is the only encodable command of any family that cannot be
  confirmed (`Confirmability.ConfirmableUnlessSpeedZero`).
- A confirmation does not always tell which value was commanded. Two different values of one
  operation can be confirmed by one and the same datagram exactly for filter operations, for PTC
  (on the G30 family by a PTC byte that is none of the three settings, which the decoder drops),
  for percentages of one airflow, and for percentage 0 beside any other
  (`Confirmability.SharedConfirmationIff`).
- One ciphertext is accepted that no payload has: a single block of full padding decrypts to the
  empty payload, which the encryption refuses (`AlcsCipher.EmptyPayloadIff`).
- `available` is documented as "at least one validated state has arrived since start"
  (`transport.py:143-146`); in the code a request that times out for good resets it although a
  state has arrived. The flag is true exactly when a state was heard after the last such timeout
  (`Availability.AvailableIff`), the documented meaning holds of a run exactly when none was heard
  or no such timeout came after the last one (`Availability.AvailableMeansHeardIff`), and
  `Availability.HeardButUnavailable` is a run on which it fails.
- `set_power` is meant to end in a value, a cancellation, or one of its two errors. An exception
  outside the list at `alcs_experimental.py:383` passes through unclassified, also after the write
  was sent: RecursionError of the parser or of `str` on the reply's id, and TypeError from
  comparing a proof that is not ASCII (line 300). It does so exactly when a reply that passed the
  filter has such a text (`AlcsResults.SetPowerClassifies`); `AlcsEscapes` has an input for each.

## Model

| member | source | states |
|---|---|---|
| Transport.CommandSuccessIsConfirmed | custom_components/352air_legacy_local/transport.py:248-272 | On every run of the client, a caller that got a state for its command got it because one datagram, received after the wait was registered, from the configured MAC, of the expected kind, showed by its own decoded fields the value of the command that represents the caller and that the wait had when the datagram arrived |
| Transport.RankNeverGrows | custom_components/352air_legacy_local/transport.py:296-409 | On an open client every step that carries on the work strictly lowers each undecided caller's rank; no arrival, other caller or timeout of another wait raises it |
| Transport.ServedWithinItsRank | custom_components/352air_legacy_local/transport.py:296-409 | On every run of an open client, from any point on, a caller stays undecided for no more steps that carry on the work than its rank said, whatever the network and other callers do |
| Transport.WorkCanGoOn | custom_components/352air_legacy_local/transport.py:296-333 | While a caller of an open client is undecided, some step of the worker or of the wait it runs is enabled, also right after an append during the worker's exit |
| Transport.RunIsBothRuns | custom_components/352air_legacy_local/transport.py:248-409 | Every interleaving of the whole client is a run of the command queue and a run of the reply waits, so what is proved of each holds of the client |
| Transport.RunKeepsInv | custom_components/352air_legacy_local/transport.py:296-362 | On every run the worker waits for a wait of its own command that only the worker's cancellation can cancel, and every success of an entry was returned by such a wait |
| CommandQueue.NoCallerIsLost | custom_components/352air_legacy_local/transport.py:253-272 | On every interleaving an undecided future is in exactly one place, exactly once: one queue entry or the entry being executed |
| CommandQueue.AWorkerStepIsEnabled | custom_components/352air_legacy_local/transport.py:296-333 | An open client with an undecided caller has a live worker with a step to make |
| CommandQueue.RankNeverGrows | custom_components/352air_legacy_local/transport.py:296-333 | Each worker step brings an undecided caller nearer to its outcome and no other step takes it away |
| CommandQueue.ServedWithinItsRank | custom_components/352air_legacy_local/transport.py:296-333 | On every run of an open client a caller stays undecided for no more worker steps than its rank said |
| CommandQueue.ExecutedInOrder | custom_components/352air_legacy_local/transport.py:254-267 | Executed commands are accepted commands in strictly increasing order of acceptance |
| CommandQueue.DroppedIsSuperseded | custom_components/352air_legacy_local/transport.py:256-265 | In every entry, taken, still queued or discarded by closing, an accepted command that the entry does not carry was coalescible, and the very next accepted command is coalescible and in the same entry |
| CommandQueue.FateOfACommand | custom_components/352air_legacy_local/transport.py:185-195 | Every accepted command was superseded by the next one in its entry, or exactly one entry carries it, which has been taken by the worker, is still queued, or, on a closed client, was discarded |
| CommandQueue.BoundaryStandsAlone | custom_components/352air_legacy_local/transport.py:256-267 | A command that is not coalescible is executed alone: nothing is merged with it or across it |
| CommandQueue.CallersGetTheirEntrysOutcome | custom_components/352air_legacy_local/transport.py:302-317 | A caller's outcome, unless it is the closing error, is the outcome of the entry that represents its command |
| CommandQueue.OutcomeReachesAllCallers | custom_components/352air_legacy_local/transport.py:624-637 | Once an entry has an outcome, every caller it represents has it, was cancelled by itself, or was closed |
| CommandQueue.DecidedForGood | custom_components/352air_legacy_local/transport.py:624-637 | A caller's future is completed at most once |
| CommandQueue.NothingWaitsWhenDrained | custom_components/352air_legacy_local/transport.py:185-195 | After closing has drained the queue no accepted command is undecided |
| CommandQueue.ClosedForGood | custom_components/352air_legacy_local/transport.py:175-207 | After closing, whatever still happens, no caller changes, no command is accepted or executed, and no worker is started |
| CommandQueue.WorkerEndsAfterClosing | custom_components/352air_legacy_local/transport.py:196-207 | After closing every step of the last worker, its cancellation included, takes it nearer to its end |
| CommandQueue.RunKeepsInv | custom_components/352air_legacy_local/transport.py:248-333 | Every step, the append during the worker's exit and closing at any point included, keeps the queue a partition of the accepted commands with at most one live worker |
| CommandQueue.TilesInOrder | custom_components/352air_legacy_local/transport.py:256-267 | An entry stands for a consecutive run of accepted commands, carries the last of them, and shares a run only among coalescible ones |
| RequestSafety.SentAtMost | custom_components/352air_legacy_local/transport.py:390-394 | At most 6 datagrams are sent for a command, 2 for a refresh, 4 for an M25 refresh |
| RequestSafety.CompletedAtMostOnce | custom_components/352air_legacy_local/transport.py:386-409 | Across all orders of reply, timeout, cancellation and close a wait's future is completed at most once and its end is final |
| RequestSafety.PendingIsWhatWaits | custom_components/352air_legacy_local/transport.py:405-409 | A wait that ended has left the pending list; one that has not is in it exactly once until the client closes |
| RequestSafety.ClosedLeavesNobodyWaiting | custom_components/352air_legacy_local/transport.py:592-596 | On a closed client every wait is decided and the pending list is empty |
| RequestSafety.EveryWaitEnds | custom_components/352air_legacy_local/transport.py:386-409 | A wait that has not ended has a step of its own to make, each lowers its rank, and no other step raises it |
| RequestSafety.DisjointSequences | custom_components/352air_legacy_local/transport.py:558-568 | Two waits share no outer or inner sequence unless 65536 contexts were issued since the older one began |
| RequestSafety.SendsItsMessages | custom_components/352air_legacy_local/transport.py:335-362 | What a wait sends is the encoding of its own command and of the confirming query, or the queries of a refresh, each under its own sequence |
| RequestSafety.RunKeepsInv | custom_components/352air_legacy_local/transport.py:364-409 | Every interleaving keeps the counters, pending list, sequences and replies of all waits consistent |
| Confirmation.ConfirmationIsSound | custom_components/352air_legacy_local/transport.py:479-508 | On every run an answered wait was confirmed by one datagram that arrived after its registration, matched its sequence or was a broadcast, came from the configured MAC, had the expected kind and by its own fields shows the command |
| Confirmation.SuccessIsConfirmed | custom_components/352air_legacy_local/transport.py:395-398 | A wait returns a state only if it was confirmed, and returns the client's state of that moment |
| Confirmation.AnsweredOnlyWhenConfirmed | custom_components/352air_legacy_local/transport.py:492-508 | No step but a confirming datagram answers a wait; Answering.AnsweredIff is the equivalence |
| Confirmation.OwnStateConfirms | custom_components/352air_legacy_local/transport.py:460-464 | The merge with older state never supplies the confirming field: the packet's own state confirms too |
| Confirmation.ReportedFieldsAreTheLatest | custom_components/352air_legacy_local/transport.py:640-654 | On every run each field of the reported M25 state is the latest value received for it, and for the other families the state is the last packet's |
| Confirmation.MergeGet | custom_components/352air_legacy_local/transport.py:646-654 | A merged field is the incoming value if there is one, else the previous one, for each of the 23 modelled fields |
| Confirmation.AvailabilityStep | custom_components/352air_legacy_local/transport.py:401-404 | The client becomes available and notes the time exactly when a validated state arrives, and unavailable exactly when a request times out for good, still holding its last state |
| Availability.AvailableIff | custom_components/352air_legacy_local/transport.py:142-146 | On every run the client is available if and only if some step heard a validated state and no later request timed out for good |
| Availability.AvailableMeansHeardIff | custom_components/352air_legacy_local/transport.py:142-146 | The documented meaning, a state has arrived since the start, holds of a run if and only if none has arrived or no request has timed out for good since the last one |
| Availability.HeardButUnavailable | custom_components/352air_legacy_local/transport.py:401-404 | On a concrete run of an A5A0 purifier, a broadcast followed by a refresh that gets no answer to either attempt, a state has arrived and the client is unavailable |
| Availability.HeardGrowsWhenHearing | custom_components/352air_legacy_local/transport.py:420-477 | A state is heard exactly from a datagram of the configured port that is no duplicate, decodes, has the configured MAC and carries a state |
| Confirmation.LearnsOnlyFromTheDevice | custom_components/352air_legacy_local/transport.py:449-456 | The address and header fields change only to those of a validated packet with the configured MAC from the configured port |
| Confirmation.MacNeverChanges | custom_components/352air_legacy_local/transport.py:449-454 | No run changes the configured MAC |
| Confirmation.SpeedZeroNeverSucceeds | custom_components/352air_legacy_local/transport.py:516-517 | No run ever confirms an X50 speed-zero command |
| Confirmation.ClientRunsTheCache | custom_components/352air_legacy_local/transport.py:428-435 | The client's recent datagrams are the bounded duplicate cache run on what was offered to it, on a clock that never runs backwards |
| Confirmability.ConfirmableUnlessSpeedZero | custom_components/352air_legacy_local/transport.py:510-556 | A command that can be encoded can be confirmed by some datagram of the device if and only if it is not X50 speed zero |
| Confirmability.SpeedZeroIsSent | custom_components/352air_legacy_local/protocols/f072.py:469-486 | X50 speed zero is encodable |
| Confirmability.NoStateShowsSpeedZero | custom_components/352air_legacy_local/protocols/f072.py:243-323 | No decoded X50 state shows speed zero |
| Confirmability.AnyStateConfirms | custom_components/352air_legacy_local/transport.py:518-522 | Filter operations, and PTC on A5A0 and X50, are confirmed by any decoded state |
| Confirmability.OneValuePerState | custom_components/352air_legacy_local/transport.py:510-556 | Any other state confirms at most one sendable value of an operation; only percentages of one airflow, and zero beside them, share a state |
| Confirmability.SharedConfirmationIff | custom_components/352air_legacy_local/transport.py:510-556 | Two different sendable values of an operation are confirmed by one datagram if and only if the operation is a filter operation or PTC, or they are percentages of one airflow, or one of them is percentage zero |
| Confirmability.G30SharedPtc | custom_components/352air_legacy_local/protocols/f072.py:405 | A G30 state whose PTC byte is none of the three settings confirms every PTC command |
| DuplicateCache.RunKeepsInv | custom_components/352air_legacy_local/transport.py:428-435 | With a clock that does not run backwards the cache holds at most 512 entries, in time order, without repetition |
| DuplicateCache.SuppressionIsSound | custom_components/352air_legacy_local/transport.py:429-431 | A suppressed datagram has a processed identical copy at most 3.0 s old |
| DuplicateCache.CacheRefinesHistory | custom_components/352air_legacy_local/transport.py:429-435 | Unless a copy still within the window was evicted by size, a datagram is processed exactly when the unbounded history has no copy within the window |
| DuplicateCache.EvictionNeedsAFlood | custom_components/352air_legacy_local/transport.py:433-435 | An eviction by size means that 512 different datagrams were processed within the window |
| LocalDeviceClient.LocalDeviceClient.constructor | custom_components/352air_legacy_local/transport.py:76-128 | A new client is the initial system, open, not started, nothing queued or pending, with an empty trace |
| LocalDeviceClient.LocalDeviceClient.ResultOf | custom_components/352air_legacy_local/transport.py:272 | What a caller of the object is told: a state only if it is backed by a confirming datagram on the object's trace; a caller who is told nothing yet is in exactly one place of an open client whose work can go on |
| LocalDeviceClient.LocalDeviceClient.Available | custom_components/352air_legacy_local/transport.py:142-146 | The property holds exactly when, on the object's trace, a state was heard after the last request that timed out for good |
| LocalDeviceClient.LocalDeviceClient.State | custom_components/352air_legacy_local/transport.py:130-134 | The property is, on the object's trace, the last state heard, and for an M25 field by field the latest value |
| LocalDeviceClient.LocalDeviceClient.Start | custom_components/352air_legacy_local/transport.py:154-173 | Starting takes the object along its run by the transition of that name: the endpoint is there and nothing else changes; a closed client refuses |
| LocalDeviceClient.LocalDeviceClient.SubmitCommand | custom_components/352air_legacy_local/transport.py:248-272 | Submitting does to the object exactly the queue's transition: coalesce or append, and a worker if none is alive; a closed client refuses |
| LocalDeviceClient.LocalDeviceClient.CancelCaller | custom_components/352air_legacy_local/transport.py:272 | Cancelling an awaiting caller changes only its own future |
| LocalDeviceClient.LocalDeviceClient.TakeNext | custom_components/352air_legacy_local/transport.py:299-303 | The top of the worker loop takes the head of the queue, or leaves the loop when it is empty |
| LocalDeviceClient.LocalDeviceClient.ExecuteCommand | custom_components/352air_legacy_local/transport.py:335-362 | The worker registers the wait of its command before anything is sent, or reports the encoding error |
| LocalDeviceClient.LocalDeviceClient.TakeOutcome | custom_components/352air_legacy_local/transport.py:312-317 | What the wait returned completes all callers of the entry that are not done |
| LocalDeviceClient.LocalDeviceClient.ClearActive | custom_components/352air_legacy_local/transport.py:318-321 | The inner finally region forgets the active waiters only if they are still this entry's |
| LocalDeviceClient.LocalDeviceClient.LeaveWorker | custom_components/352air_legacy_local/transport.py:322-333 | The worker's last region starts a new worker if a command was appended meanwhile and the client is open |
| LocalDeviceClient.LocalDeviceClient.SetAll | custom_components/352air_legacy_local/transport.py:624-637 | The loop over the waiters completes exactly those of them that are not done |
| LocalDeviceClient.LocalDeviceClient.NextContext | custom_components/352air_legacy_local/transport.py:558-568 | A context takes the current identity and sequences, and both sequences advance modulo 65536 |
| LocalDeviceClient.LocalDeviceClient.Refresh | custom_components/352air_legacy_local/transport.py:209-231 | A refresh registers a wait for one query, or two for an M25, before sending |
| LocalDeviceClient.LocalDeviceClient.SendDatagrams | custom_components/352air_legacy_local/transport.py:390-394 | The sending loop stops at the pause between two datagrams, at a closed client, at a missing endpoint and at a failed send, as the specification's recursion says |
| LocalDeviceClient.LocalDeviceClient.RemovePending | custom_components/352air_legacy_local/transport.py:405-407 | Removing a wait takes its first occurrence out of the pending list and ignores a missing one |
| LocalDeviceClient.LocalDeviceClient.FinishWait | custom_components/352air_legacy_local/transport.py:405-409 | Leaving a wait removes it from the pending list and cancels an undecided future |
| LocalDeviceClient.LocalDeviceClient.ResumeSending | custom_components/352air_legacy_local/transport.py:391-394 | After the pause the rest of the attempt is sent |
| LocalDeviceClient.LocalDeviceClient.TimeOut | custom_components/352air_legacy_local/transport.py:399-404 | A timed-out attempt starts the next one, or marks the device unavailable and ends with the timeout error |
| LocalDeviceClient.LocalDeviceClient.Wake | custom_components/352air_legacy_local/transport.py:395-398 | A wait whose future is done returns or raises what it holds |
| LocalDeviceClient.LocalDeviceClient.CancelWait | custom_components/352air_legacy_local/transport.py:405-409 | A cancelled caller of refresh leaves no pending entry |
| LocalDeviceClient.LocalDeviceClient.PruneDuplicates | custom_components/352air_legacy_local/transport.py:598-602 | The pruning loop drops exactly the entries older than the window |
| LocalDeviceClient.LocalDeviceClient.Remember | custom_components/352air_legacy_local/transport.py:429-435 | A datagram is new if it is not in the pruned cache; then it is added and the oldest entry leaves a full cache |
| LocalDeviceClient.LocalDeviceClient.ResolveMatchingPending | custom_components/352air_legacy_local/transport.py:479-508 | The loop over the pending waits answers exactly those that match the packet |
| LocalDeviceClient.LocalDeviceClient.DatagramReceived | custom_components/352air_legacy_local/transport.py:420-477 | A received datagram does to the object exactly the transition of the waits: checks, cache, decode, identity, merge, resolve, in that order |
| LocalDeviceClient.LocalDeviceClient.FailPending | custom_components/352air_legacy_local/transport.py:592-596 | Every pending undecided wait fails and the list is emptied |
| LocalDeviceClient.LocalDeviceClient.Close | custom_components/352air_legacy_local/transport.py:175-200 | Closing takes the object along its run by two transitions: waits failed, then queue and active callers failed, queue emptied and the worker's cancellation requested; closing again does nothing |
| LocalDeviceClient.LocalDeviceClient.CancelWorker | custom_components/352air_legacy_local/transport.py:306-311 | A cancelled worker cancels its wait, fails its callers with the closing error and goes to its finally regions |
| Coap.ParseOfPrint | custom_components/352air_legacy_local/protocols/alcs_experimental.py:96-146 | Every message that can be printed within the datagram limit is read back exactly |
| Coap.PrintOfParse | custom_components/352air_legacy_local/protocols/alcs_experimental.py:125-146 | Every accepted datagram is, byte for byte, the print of what was read from it: deltas, lengths and the marker have one encoding |
| Coap.DecodeIsInjective | custom_components/352air_legacy_local/protocols/alcs_experimental.py:125-146 | Two datagrams with the same decoding are equal: gathering options by number loses nothing |
| Coap.RequestReadsBack | custom_components/352air_legacy_local/protocols/alcs_experimental.py:96-146 | Any request within the limit decodes to its message id, token and body, and for every option number to the values given for it in the order given, path segments first |
| Coap.RequestExistsIff | custom_components/352air_legacy_local/protocols/alcs_experimental.py:84-111 | A request is printed exactly for a valid id, an eight-byte token, an absolute path and options whose sorted deltas and lengths can be encoded |
| Coap.PrintableIff | custom_components/352air_legacy_local/protocols/alcs_experimental.py:84-93 | Options are printable exactly when their numbers ascend and each delta and length is at most 65804 |
| Coap.StableSortIsStable | custom_components/352air_legacy_local/protocols/alcs_experimental.py:104-106 | Sorting orders by number and keeps the order of the values of each number |
| Coap.GatherListsValues | custom_components/352air_legacy_local/protocols/alcs_experimental.py:136-141 | The dictionary lists for every number exactly its values in wire order |
| Coap.Encode | custom_components/352air_legacy_local/protocols/alcs_experimental.py:96-111 | The printing loop produces the specified request or refuses as specified |
| Coap.DecodeDatagram | custom_components/352air_legacy_local/protocols/alcs_experimental.py:125-146 | The parsing loop over positions produces the specified decoding or refuses as specified |
| CoapDiscovery.ReadersAgree | custom_components/352air_legacy_local/protocols/coap_discovery.py:115-163 | Any datagram of at most 16384 bytes that the discovery reader accepts is a message of the general parser with the same token, id and payload, and it accepts exactly the permitted ones |
| CoapDiscovery.ResponseLoopIsAFilter | custom_components/352air_legacy_local/protocols/coap_discovery.py:124-154 | The discovery option loop is the general option loop with a filter on the options |
| CoapDiscovery.DecodeResponseDatagram | custom_components/352air_legacy_local/protocols/coap_discovery.py:115-163 | The loop produces the specified response or refuses as specified |
| CoapDiscovery.EncodeDiscoveryRequest | custom_components/352air_legacy_local/protocols/coap_discovery.py:80-102 | The loop over the segments prints the specified message |
| CoapDiscovery.DiscoveryRequestReadsBack | custom_components/352air_legacy_local/protocols/coap_discovery.py:80-102 | A discovery request is read back as just that message |
| CoapDiscovery.AckReadsBack | custom_components/352air_legacy_local/protocols/coap_discovery.py:166-168 | The acknowledgement is an empty ACK to the general parser and is no response to the discovery reader |
| CoapProbe.ReadersAgree | tools/352_plus_probe.py:329-372 | The tool reads a datagram within the general limit exactly when the general parser does, no single option is repeated and the option limit is kept; it sees the same message with the last value of each option |
| CoapProbe.AcceptedIff | tools/352_plus_probe.py:361-367 | The refusals of the option loop in closed form: only the numbers before the last option count against the limit |
| CoapProbe.DecodeDatagram | tools/352_plus_probe.py:329-372 | The loop produces the specified message or refuses as specified |
| CoapProbe.UintReadsBack | tools/352_plus_probe.py:283-284 | The shortest big-endian form of a number reads back as the number |
| CoapProbe.BlockRequestReadsBack | tools/352_plus_probe.py:297-326 | A continuation request carries exactly one Block2 option with the given value, under the request's token, in at most three octets if and only if the value is below 2^24 |
| Blocks.TransferIsFaithful | tools/352_plus_probe.py:375-431 | For any sequence of true blocks of one body, mixed in size and repeated, the bytes are always a prefix of the body within 32768 bytes and 128 blocks, and completion means that they are the body |
| Blocks.TrueBlockStep | tools/352_plus_probe.py:384-431 | One true block keeps the prefix; a returned option names the next missing offset exactly; an accepted non-duplicate block with more to come strictly grows the buffer |
| Blocks.NextNamesTheGap | tools/352_plus_probe.py:412-431 | The returned option names the first missing byte in blocks of the size just received |
| Blocks.AnsweredRequestAdvances | tools/352_plus_probe.py:412-431 | The block that answers a continuation request is accepted and advances the assembly |
| Blocks.TransferCompletes | tools/352_plus_probe.py:375-431 | A transfer in which each packet is the block that the option before asked for, in sizes of the server's choice, completes with the whole body in no more packets than the body has blocks of the least size, if the body is within both limits |
| Blocks.Assembly.Add | tools/352_plus_probe.py:384-431 | The method changes the four fields and returns as the specified transition does |
| LinkSplitter.NothingIsLost | tools/352_plus_probe.py:698-720 | Joining the entries with commas gives the first 32768 characters less at most one trailing top-level comma, and rescanning an entry finds no separator in it |
| LinkSplitter.JoinedEntriesComeBack | tools/352_plus_probe.py:698-720 | Entries without inner separators, closed before each comma, come back unchanged when joined |
| LinkSplitter.SplitEntries | tools/352_plus_probe.py:698-720 | The loop over the characters returns the specified entries |
| Framing.ParseOfBuild | custom_components/352air_legacy_local/protocols/base.py:50-123 | Every envelope with a payload of at most 248 bytes and a one-byte operation is built, and read back exactly |
| Framing.BuildOfParse | custom_components/352air_legacy_local/protocols/base.py:83-123 | Every accepted datagram is, byte for byte, the envelope of what was read from it |
| Framing.ResponseCheckDetectsBursts | custom_components/352air_legacy_local/protocols/base.py:170-180 | If a frame passes the response check, no other frame of its length that differs only within sixteen adjacent bits passes it, at any length and wherever they lie |
| Framing.ResponseCheckDetectsTwoBytes | custom_components/352air_legacy_local/protocols/base.py:170-180 | In particular no change inside two adjacent bytes passes |
| Framing.SealedFramePasses | custom_components/352air_legacy_local/protocols/base.py:158-180 | Appending the checksum of everything after the prefix makes a frame that both checks accept |
| CrcNumbers.Crc16Genibus | custom_components/352air_legacy_local/protocols/base.py:139-149 | The nested loop over bytes and bits computes the specified checksum |
| Crc16.StepLinear | custom_components/352air_legacy_local/protocols/base.py:144-148 | The register step is linear over exclusive-or |
| Crc16.StepInjective | custom_components/352air_legacy_local/protocols/base.py:144-148 | The register step is injective |
| Crc16.FeedIsBitSerial | custom_components/352air_legacy_local/protocols/base.py:143-148 | Feeding bytes is feeding their bits one at a time |
| Crc16.BurstDetected | custom_components/352air_legacy_local/protocols/base.py:139-149 | Two sealed messages of one length that differ only within sixteen adjacent bits are equal |
| Codecs.F072CommandReadsBack | custom_components/352air_legacy_local/protocols/f072.py:92-117 | Every encoded F072 command parses back to its outer and inner sequences, command byte and value, with a valid request checksum |
| Codecs.A5A0CommandIsItsAck | custom_components/352air_legacy_local/protocols/a5a0.py:56-121 | An encoded A5A0 command sent back unchanged decodes to an ACK with its identity and sequence, and the query to nothing |
| Codecs.EchoIsNoState | custom_components/352air_legacy_local/protocols/f072.py:83-194 | No query or command of any codec, echoed back to any codec, decodes to a device state |
| Codecs.DecodedPackets | custom_components/352air_legacy_local/protocols/m25.py:60-119 | A decoded packet is of the codec's family, carries a state exactly for state and backlight kinds, a backlight kind always the backlight value, and the identity and sequence of its envelope |
| Codecs.EncodedCommands | custom_components/352air_legacy_local/protocols/f072.py:92-117 | A command that was encoded is one that its family documents: backlight for the M25 only, percentage for the G30 family only and at most 100 |
| PassiveDiscovery.ValidatorsAgree | custom_components/352air_legacy_local/discovery.py:104-170 | For operation 0x04 and matching source, MAC and wire type the passive validator accepts a datagram if and only if the family codec decodes it to a state packet |
| PassiveDiscovery.PassiveAcceptanceIsSound | custom_components/352air_legacy_local/discovery.py:104-170 | Whatever else it is sent, the passive validator accepts only what some codec decodes to a state, and learns that packet's identity |
| PassiveDiscovery.UnknownWireTypes | custom_components/352air_legacy_local/discovery.py:126-162 | A wire type outside 1..4 is accepted by neither side |
| AlcsCipher.DecryptOfEncrypt | custom_components/352air_legacy_local/protocols/alcs_experimental.py:64-81 | For any invertible block function, decrypting an encrypted non-empty payload gives the payload |
| AlcsCipher.EncryptOfDecrypt | custom_components/352air_legacy_local/protocols/alcs_experimental.py:64-81 | A ciphertext that decrypts to a non-empty payload is exactly the encryption of it, despite the chain restart before the last block |
| AlcsCipher.EmptyPayloadIff | custom_components/352air_legacy_local/protocols/alcs_experimental.py:74-81 | Exactly one accepted ciphertext decrypts to the empty payload, which cannot be encrypted: a single block of full padding |
| AlcsCipher.CiphertextLength | custom_components/352air_legacy_local/protocols/alcs_experimental.py:64-71 | A ciphertext has the next multiple of sixteen above its payload's length |
| AlcsResults.SetPowerWritesSafely | custom_components/352air_legacy_local/protocols/alcs_experimental.py:362-388 | On any script: at most one write datagram, none before the write step began, for the requested value, and both only after a read of the other value that passed all checks of the session |
| AlcsResults.SetPowerReturnsWhatItRead | custom_components/352air_legacy_local/protocols/alcs_experimental.py:376-380 | A return means a session-checked read of the requested value, after any write |
| AlcsResults.SetPowerClassifies | custom_components/352air_legacy_local/protocols/alcs_experimental.py:381-388 | On any script: cancelled exactly when a cancellation was met; an unclassified exception exactly when an accepted reply escapes the parser, the text of its id or the comparison of proofs; otherwise a failure is outcome-unknown exactly when the write step had begun, and the other error exactly when it had not |
| AlcsEscapes.AuthenticationCanEscape | custom_components/352air_legacy_local/protocols/alcs_experimental.py:276-300 | A concrete authentication reply for each of the three ways to escape ends the transaction unclassified before any write: deeply nested text, an id nested too deeply for its text, a proof that is not ASCII |
| AlcsEscapes.TheWriteCanEscape | custom_components/352air_legacy_local/protocols/alcs_experimental.py:331-334 | A concrete run sends the write datagram and then ends unclassified, because the answer to the write is nested too deeply for the parser |
| AlcsPower.SetPower | custom_components/352air_legacy_local/protocols/alcs_experimental.py:362-388 | The method, step by step as the source, has the result, log and rest of the script of the specified run |
| AlcsPower.WriteAndRead | custom_components/352air_legacy_local/protocols/alcs_experimental.py:374-380 | The method, a write and then a fresh read, has the specified run |
| AlcsPower.Property | custom_components/352air_legacy_local/protocols/alcs_experimental.py:316-341 | The method has the specified run |
| AlcsPower.Auth | custom_components/352air_legacy_local/protocols/alcs_experimental.py:248-314 | The method has the specified run |
| AlcsPower.Exchange | custom_components/352air_legacy_local/protocols/alcs_experimental.py:197-246 | The receiving loop has the specified run |
| AlcsParts.AuthLeaves | custom_components/352air_legacy_local/protocols/alcs_experimental.py:248-314 | Authentication sends no write, opens a session only if it succeeds, as its last entry, and fails as cancelled or unclassified exactly when a cancellation was met or a reply escaped |
| AlcsParts.PropertyLeaves | custom_components/352air_legacy_local/protocols/alcs_experimental.py:316-341 | A property request sends one encrypted request under the session and succeeds only with an accepted reply to it whose id, code and data pass |
| AlcsParts.ExchangeLeaves | custom_components/352air_legacy_local/protocols/alcs_experimental.py:197-246 | One request datagram first, then only acknowledgements; a success ends with an accepted datagram that has the token, code, session and options required of it |
| AlcsParts.WriteLeaves | custom_components/352air_legacy_local/protocols/alcs_experimental.py:374-380 | The write step sends the write request of the requested value first, and succeeds only with a later read in the same session that shows it |
| AlcsPower.SessionReadsBack | custom_components/352air_legacy_local/protocols/alcs_experimental.py:203-204 | The session number put into a request is the number read from the option |
| Schedule.ClearLocalSchedules | custom_components/352air_legacy_local/schedule.py:68-132 | On any script: at most ten datagrams with consecutive sequences, one of them a write, sent only after a validated reply; the specified result; success only with two later validated empty reads, each with its own drain and query after the write; the count is that of the read before the write |
| Schedule.QuerySchedules | custom_components/352air_legacy_local/schedule.py:135-166 | At most three queries, one per attempt, and no write; the specified answer; slots are returned only from a validated reply that arrived after its attempt's drain and query, all empty if that is required |
| Schedule.ConfirmEmpty | custom_components/352air_legacy_local/schedule.py:107-120 | Two reads of four empty slots, the second drained, requested and answered after the first |
| Schedule.ScheduleReceiver.DatagramReceived | custom_components/352air_legacy_local/schedule.py:52-55 | Only a validated reply is queued |
| Schedule.ScheduleReceiver.Drain | custom_components/352air_legacy_local/schedule.py:57-61 | Draining empties the queue, and only later arrivals can be taken |
| Schedule.ScheduleReceiver.Receive | custom_components/352air_legacy_local/schedule.py:63-65 | What is received is the oldest queued validated reply since the last drain |
| Schedule.EncodeScheduleWrite | custom_components/352air_legacy_local/schedule.py:197-213 | The in-place frame filling produces the specified write datagram |
| Schedule.EncodeScheduleQuery | custom_components/352air_legacy_local/schedule.py:187-194 | The in-place frame filling produces the specified query datagram |
| Schedule.WriteReadsBack | custom_components/352air_legacy_local/schedule.py:197-213 | A schedule write is read back from the wire with its sequences and slots under a valid request checksum |
| Schedule.ReplyReadsBack | custom_components/352air_legacy_local/schedule.py:216-255 | The slots that a device puts into a reply are the slots that are read from it |
| Schedule.EchoIsNoReply | custom_components/352air_legacy_local/schedule.py:178-255 | The client's own query and write, echoed back, are not taken for replies |
| Schedule.WhatIsWrittenIsEmpty | custom_components/352air_legacy_local/schedule.py:258-260 | The slots that the cleanup writes count as empty |
| PowerProbe.TestPower | tools/352_local_probe.py:455-508 | On any script: sequences are never reused, at most three writes; nothing is written without an initial reading; once the toggle was attempted a restore was attempted and every later write carries the original power; and every status holds if and only if the script, by what was read, shown and interrupted in each part, says so |
| PowerProbe.EarlierAnswersCannotConfirm | tools/352_local_probe.py:377-382 | A frame that answers an earlier request or the discovery cannot confirm a later write |
| PowerProbe.Restore | tools/352_local_probe.py:481-496 | One or two restore writes of the original power: the second is tried exactly if the first neither was confirmed nor interrupted, and the restore is confirmed exactly if one of them was |
| PowerProbe.SetPower | tools/352_local_probe.py:438-452 | One write of the desired power first; confirmed if and only if it was sent and its reading loop ends with a state of that power in answer to it or a later query; it raises exactly what broke it |
| PowerProbe.ReadPower | tools/352_local_probe.py:409-435 | At most three queries under unused sequences and no write; every counted state answers one of them or the command, and the loop ends with a power, or fails, if and only if the first round that says so does |
| PowerProbe.NextSequence | tools/352_local_probe.py:377-382 | The first unused draw is taken, and is used from then on |
| PowerProbe.PowerStateAgrees | tools/352_local_probe.py:385-406 | The probe reads a power state exactly when the A5A0 codec decodes the datagram to a state of that power, device and sequence |
| PowerProbe.SameFramesAsTheClient | tools/352_local_probe.py:364-374 | The probe's query and power command are byte for byte those of the A5A0 codec |
| SharedEndpoint.CountIsExact | custom_components/352air_legacy_local/udp.py:71-127 | On every balanced run, with any bind failures, an endpoint's count equals its live subscribers and its callbacks, and it is open exactly while it has one |
| SharedEndpoint.OneSocketPerKey | custom_components/352air_legacy_local/udp.py:78-107 | No key ever has two open sockets |
| SharedEndpoint.ClosesWithTheLast | custom_components/352air_legacy_local/udp.py:113-127 | A step closes a socket exactly when it releases the socket's last subscriber |
| SharedEndpoint.SharedUdpEndpoint.Dispatch | custom_components/352air_legacy_local/udp.py:36-41 | Every subscriber gets the datagram exactly once |
| SharedEndpoint.Endpoints.Acquire | custom_components/352air_legacy_local/udp.py:71-110 | Acquiring reuses the key's endpoint, or opens one on the port or any port in its place, or fails leaving everything unchanged; port 0 has no fallback |
| SharedEndpoint.Endpoints.Release | custom_components/352air_legacy_local/udp.py:113-127 | Releasing drops the callback and the count, never below zero, and at zero forgets and closes the endpoint |
| Answering.AnsweredIff | custom_components/352air_legacy_local/transport.py:479-508 | A wait is answered by a step if and only if the step delivers a datagram of which the client remembers no copy from the last 3.0 s, and which confirms the wait: by sequence or as a broadcast, from the configured MAC, of the expected kind, with the command's value in its own fields |
| Answering.AnsweredIffShown | custom_components/352air_legacy_local/transport.py:479-508 | On every run exactly those waits are answered to which some step showed the value of their command |
| Answering.LearnsIff | custom_components/352air_legacy_local/transport.py:420-456 | A step changes the header and address exactly if it delivers a new decodable datagram of the configured MAC from the configured port, to that packet's |
| Answering.HeaderIsTheLast | custom_components/352air_legacy_local/transport.py:449-456 | On every run the header and the address are those of the last such packet |
| Endings.HowAWaitEnds | custom_components/352air_legacy_local/transport.py:386-409 | A wait ends only by its own steps, each with its own outcome: refused sending, the last timeout, cancellation, or waking up to what its future holds |
| Endings.HowAWaitGoesOn | custom_components/352air_legacy_local/transport.py:390-404 | While sending is possible a command sends one datagram, pauses and sends the second, a refresh sends all at once, and a timeout before the last attempt starts the next attempt |
| Endings.HowAWaitBegins | custom_components/352air_legacy_local/transport.py:364-394 | A new wait is undecided at its first attempt and has sent one datagram of a command, or all of a refresh |
| Endings.TimedOutAfterAllAttempts | custom_components/352air_legacy_local/transport.py:388-404 | On every run a wait that timed out for good has sent six datagrams for a command, two for a refresh, four for an M25 refresh |
| Endings.FailedByClosing | custom_components/352air_legacy_local/transport.py:592-596 | On every run a wait's future fails only with the closing error of a closed client |
| Endings.ShownInTime | custom_components/352air_legacy_local/transport.py:395-404 | On every run a waiting request to which its value is shown, and which is neither cancelled nor timed out afterwards, has returned what was shown or waits for nothing but its task |
| Delivery.ShownCommandSucceeds | custom_components/352air_legacy_local/transport.py:296-321 | From every reachable state in which a worker waits for a command: a new datagram that shows the command, then the wake-up of the wait, then the worker's next step give every caller of the entry that is still waiting the state from that datagram |
| Transport.OutcomeIsExplained | custom_components/352air_legacy_local/transport.py:302-362 | On every run a decided caller was closed with the client, or has an outcome that its entry can have: what a wait of its command returned, the closing error of a closed client, or the refusal of a command that cannot be encoded |
| Coalescing.NothingLeftToCoalesce | custom_components/352air_legacy_local/transport.py:254-265 | On no run are two PERCENTAGE or SPEED commands queued one behind the other |
| Coalescing.QueuedWriteIsReplaced | custom_components/352air_legacy_local/transport.py:256-265 | A PERCENTAGE or SPEED command submitted on any run to an open client whose last queued entry is PERCENTAGE or SPEED takes that entry over: it carries the new command and both callers wait for it |
| Coalescing.OtherwiseQueuedAlone | custom_components/352air_legacy_local/transport.py:254-267 | Any other command is queued behind all that is there, in an entry of its own |
| Coalescing.ReplacedShareTheOutcome | custom_components/352air_legacy_local/transport.py:256-265 | Whatever happens afterwards, the callers of a replaced command get the outcome of its replacement, unless they are cancelled or closed |
| CrcNumbers.StepIsSource | custom_components/352air_legacy_local/protocols/base.py:144-148 | One step of the register is, as a number, the shift to the left, with 0x1021 added by exclusive-or if the top bit was set, masked to sixteen bits |
| CrcNumbers.RegisterIsRemainder | custom_components/352air_legacy_local/protocols/base.py:139-148 | After every byte the register is the number that starts at 0xFFFF, adds the byte shifted by eight and takes eight such steps |
| CrcNumbers.CrcIsRemainder | custom_components/352air_legacy_local/protocols/base.py:139-149 | The checksum is that number inverted by exclusive-or with 0xFFFF |
| CrcNumbers.ResidueIsConstant | custom_components/352air_legacy_local/protocols/base.py:139-155 | A message of at least two bytes ends in its checksum if and only if the register after all of it is 0x1D0F |
| Reports.X50ReportIsPublished | custom_components/352air_legacy_local/protocols/f072.py:243-323 | Whatever an X50 reports, field after field in the order of the wire, is published as exactly those values |
| Reports.G30ReportIsPublished | custom_components/352air_legacy_local/protocols/f072.py:325-418 | Whatever a G30 or G45 reports, its air quality board and airflow included, is published as exactly those values |
| Reports.A5A0ReportIsPublished | custom_components/352air_legacy_local/protocols/a5a0.py:74-206 | Whatever an A5A0 purifier reports, in a single record or behind an older one, is published as exactly those values |
| Reports.SensorsArePublished | custom_components/352air_legacy_local/protocols/m25.py:60-119 | Whatever a detector reports of its sensors is published as exactly those values |
| Reports.BacklightIsPublished | custom_components/352air_legacy_local/protocols/m25.py:60-119 | Both forms of the detector's backlight report are published with the value that they carry |
| Reports.ResponseIsRead | custom_components/352air_legacy_local/protocols/f072.py:119-194 | Every response of an F072 device is read by the length of its data area alone, as an acknowledgement, a state or nothing |
| Reports.AcceptedIsAResponse | custom_components/352air_legacy_local/protocols/f072.py:119-194 | Whatever an F072 codec accepts is, octet by octet, such a response of a device of its wire type |
| Reports.A5A0StateIsAReport | custom_components/352air_legacy_local/protocols/a5a0.py:74-206 | Whatever the A5A0 codec accepts as a state is, octet by octet, such a report |
| Reports.M25PacketIsAReport | custom_components/352air_legacy_local/protocols/m25.py:60-119 | Whatever the M25 codec accepts is one of the detector's reports |
| Framing.EnvelopeLayout | custom_components/352air_legacy_local/protocols/base.py:50-76 | What stands where in an envelope: marker 0xA1, operation, MAC, length plus seven, zero, sequence, company, wire type, authentication field, payload |
| Commands.CommandOnTheWire | custom_components/352air_legacy_local/protocols/f072.py:83-117 | A command is encoded if and only if it is documented for the model and the identity has the model's wire type, and then to exactly the documented octets |
| Commands.QueryOnTheWire | custom_components/352air_legacy_local/protocols/a5a0.py:50-72 | A query is encoded if and only if the identity has the model's wire type, to exactly the documented octets |
| Commands.BacklightQueryOnTheWire | custom_components/352air_legacy_local/protocols/m25.py:39-58 | The detector's backlight query, likewise |
| Commands.FlowIsNearest | custom_components/352air_legacy_local/protocols/f072.py:196-232 | The airflow of a percentage is the multiple of five nearest to the point that divides the model's range as the percentage divides 1 to 100, the higher of two; 1 and 100 are the ends of the range |
| Obedience.X50ReportConfirms | custom_components/352air_legacy_local/transport.py:510-556 | A report of an X50 confirms a documented command if and only if it is from the commanded MAC and its octet at the operation's place is the commanded one; PTC by any report, speed zero by none |
| Obedience.G30ReportConfirms | custom_components/352air_legacy_local/transport.py:510-556 | The same for a G30 or G45, its PTC octet and airflow included: a percentage by the airflow that it stands for, zero by power off |
| Obedience.A5A0ReportConfirms | custom_components/352air_legacy_local/transport.py:510-556 | The same for an A5A0 purifier, which reports as 0x00 and 0x11 the power that 0x35 and 0x11 command |
| Obedience.BacklightReportConfirms | custom_components/352air_legacy_local/transport.py:510-556 | A backlight report confirms a backlight command exactly if its MAC and value are those commanded |
| Codecs.RefusalsAreInvalid | custom_components/352air_legacy_local/protocols/f072.py:92-117 | A command that is not encoded is refused as an invalid value or command, nothing else |
| AlcsChecks.AcceptedIff | custom_components/352air_legacy_local/protocols/alcs_experimental.py:205-246 | The receiving loop accepts a datagram if and only if it has the CoAP format of a content response with the request's token, for an acknowledgement its id, in a session exactly one session option of one to four octets with its number, at most one content format of the right kind, and no other critical option |
| AlcsChecks.ReceivingIs | custom_components/352air_legacy_local/protocols/alcs_experimental.py:205-246 | An exchange passes over everything up to the first such response of the device, the first failure, timeout or cancellation, and ends with that; a confirmable response is acknowledged first |
| AlcsChecks.SessionIff | custom_components/352air_legacy_local/protocols/alcs_experimental.py:276-314 | An authentication reply opens a session if and only if its text is an object with this id, code 200 and data whose randomKey is fifteen letters or digits, whose sign is the proof of that randomKey, whose opt is absent, 0 or 1, and whose sessionId is a number of 1 to 0xFFFFFFFF; the key is that of both nonces |
| AlcsChecks.PowerIff | custom_components/352air_legacy_local/protocols/alcs_experimental.py:331-350 | A reply shows a power if and only if its decrypted text is an object with this id, code 200 and data whose PowerSwitch, or the value inside it, is 0 or 1 |
| AlcsChecks.RequestAsks | custom_components/352air_legacy_local/protocols/alcs_experimental.py:197-204 | A request, read by its receiver: its id, token, path segments, body format, and in a session the session number |
| AlcsChecks.PropertyRequestAsks | custom_components/352air_legacy_local/protocols/alcs_experimental.py:316-330 | A property request, read by its receiver: the set path for a write and the get path for a read, in the session, with the text for its own id under the session key |
| AlcsRuns.SetPowerTrustsOnlyTheDevice | custom_components/352air_legacy_local/protocols/alcs_experimental.py:248-314 | On any script: every reply that counts is a datagram of the script from the device that responds to its own request; and a session is opened right behind an authentication reply that proves the device, and behind every such reply |
| AlcsRuns.SetPowerReturnsIff | custom_components/352air_legacy_local/protocols/alcs_experimental.py:362-380 | On any script set_power returns if and only if the last thing that happened is a reply to a read in its session that shows the requested power, and it returns the request |
| AlcsRuns.SetPowerAuthenticates | custom_components/352air_legacy_local/protocols/alcs_experimental.py:248-275 | The first datagram is the authentication request of the first draw |
| AlcsRuns.SetPowerGoesOn | custom_components/352air_legacy_local/protocols/alcs_experimental.py:362-380 | On any script: behind an opened session stands the read request; behind a first read of the other power the write step with the write request of the requested value; and behind a write that was answered with data the fresh read request |
| AlcsCipher.CiphertextBlocks | custom_components/352air_legacy_local/protocols/alcs_experimental.py:58-71 | Block by block what a ciphertext is: each full block the block cipher of the payload's block added to the ciphertext before it, the first and the last from the constant vector, the last padded with its count |
| AlcsCipher.KeyIsItsFirstSixteen | custom_components/352air_legacy_local/protocols/alcs_experimental.py:58-61 | Only the first sixteen octets of a key are used |
| AlcsCipher.XorByteIsBitXor | custom_components/352air_legacy_local/protocols/alcs_experimental.py:58-71 | The addition of two bytes is the exclusive-or of their binary digits |
| CoapFormat.ParsedIff | custom_components/352air_legacy_local/protocols/alcs_experimental.py:125-146 | A datagram of at most 16384 bytes is parsed to a message if and only if it has the format of RFC 7252, section 3, of that message |
| CoapFormat.FormatIsPrint | custom_components/352air_legacy_local/protocols/alcs_experimental.py:84-111 | Octets have the format of a message if and only if they are what is printed for it |
| CoapFormat.SegmentsReadBack | custom_components/352air_legacy_local/protocols/alcs_experimental.py:99-103 | A path is split at its slashes into its segments |
| DiscoveryFormat.TakenIff | custom_components/352air_legacy_local/protocols/coap_discovery.py:115-163 | A discovery response is taken from a datagram, at any length, if and only if it has at most 32768 bytes and the format of a confirmable or non-confirmable success with an eight-octet token, a payload, at most one content format, of text or JSON, at most one Block2 option, of a whole body, and no unknown critical option |
| DiscoveryFormat.RequestHasTheFormat | custom_components/352air_legacy_local/protocols/coap_discovery.py:80-102 | A discovery request has the format of a non-confirmable GET of the segments of its mechanism's path, in order, then JSON as content format, then the payload |
| ProbeFormat.ReadIff | tools/352_plus_probe.py:329-372 | The tool reads a datagram of any length if and only if it has the format of a message without a repeated entity tag, content format, Block2 or Size2 and with fewer than 64 option numbers before the last option; it keeps the last value of each number |
| ProbeFormat.GetHasTheFormat | tools/352_plus_probe.py:283-326 | A GET has the format of its type, the path's segments in order, the content format only with a body, the accepted format and the block, each in its shortest form, and the body |
| ProbeFormat.GetExistsIff | tools/352_plus_probe.py:287-326 | A GET is refused only for a path without a leading slash, a token that is not eight octets, or an option value beyond 65804 octets |
| BlockRules.BlockVerdict | tools/352_plus_probe.py:408-431 | For any server: the verdict on a block and what it leaves, each verdict both ways, from NUM, M and SZX with a size of 2^(SZX+4), the repeat of the last block, contiguity, and the limits of 32768 bytes and 128 blocks |
| BlockRules.OtherRepresentations | tools/352_plus_probe.py:384-402 | A packet is refused as another representation if and only if its code or entity tag differs or both content formats are known and differ, and then nothing changes; otherwise the signature is this packet's |
| BlockRules.WholeBody | tools/352_plus_probe.py:403-410 | A packet without a block option is the whole body, refused behind a block or beyond 32768 bytes |
| BlockRules.AssembledFromWhatWasTaken | tools/352_plus_probe.py:375-431 | Whatever a server sends, the bytes are the payloads of the packets that were taken, in order, within both limits |
| BlockRules.OneRepresentation | tools/352_plus_probe.py:384-402 | Whatever a server sends, all packets that were not refused as another representation have one code and one entity tag, and their content formats agree |
| LinkGrammar.SeparatesIff | tools/352_plus_probe.py:702-717 | Entries end exactly at the commas where no quote and no angle bracket is open, a quote being opened and closed by every quotation mark except those inside it behind an odd number of backslashes |
| ScheduleRuns.ClearedIff | custom_components/352air_legacy_local/schedule.py:68-132 | A cleanup reports success if and only if the family has schedules, the endpoint was acquired, the device's own reply ended the read within three attempts, the write was sent, and after the pause two more reads each ended, within three attempts, with the device's own reply of four free slots, and the caller was not cancelled at the end; the count is that of the slots occupied in the first reply |
| ScheduleRuns.CleanupFails | custom_components/352air_legacy_local/schedule.py:121-128 | A cleanup that stops early, in the read, at the write, in the pause or in one of the last reads, is reported as what stopped it: a cancellation, an uncaught error, or the cleanup error |
| ScheduleRuns.QueryEnds | custom_components/352air_legacy_local/schedule.py:135-166 | How a query ends from what happens to it, for all its endings, with one datagram per attempt |
| ScheduleRuns.ReadIffTold | custom_components/352air_legacy_local/schedule.py:216-255 | Slots are read from a datagram if and only if it is, octet by octet, the device's own reply with those slots, from port 11530 of its host |
| ScheduleRuns.DatagramsOnTheWire | custom_components/352air_legacy_local/schedule.py:169-213 | The query and the write octet by octet, the write's sum and both checksums included |
| ScheduleRuns.ConfiguredIsOccupied | custom_components/352air_legacy_local/schedule.py:129-132 | The count is the number of slots that are not free: neither six zeros nor four 0xFF behind the first octet |
| EndpointRuns.AcquiresIff | custom_components/352air_legacy_local/udp.py:71-110 | On any run an acquire gets an endpoint if and only if its key has an open one, or its port can be bound, or a port other than 0 was asked for and any port can be bound; it gets the open one if there is one; a failure changes nothing and nothing else changes |
| EndpointRuns.RunKeeps | custom_components/352air_legacy_local/udp.py:71-127 | On any run, double subscriptions and unmatched releases included: an endpoint is open exactly while it is counted and the dictionary has it, an open one's count is how often it was given out less how often it was given back, and a callback is subscribed exactly if the latest event about it and the endpoint gave the endpoint to it |
| BlockRules.LongOption | tools/352_plus_probe.py:411-413 | A block option is refused as malformed if and only if it has more than three octets |
| ScheduleRuns.ClearingOnTheWire | custom_components/352air_legacy_local/schedule.py:102-112 | The only write of a cleanup, octet by octet: four slots that are off and hold no time, and the sum 0x14 |
| Coalescing.WorkersStartIff | custom_components/352air_legacy_local/transport.py:254-333 | A worker is started exactly by an open client: for a command when none is alive, and by its own leaving worker while something is queued |
| Coalescing.ActiveIsAtWorker | custom_components/352air_legacy_local/transport.py:299-321 | On every run that closing has not drained, the active callers are those of the entry at the worker, and there are none between two entries |
| Framing.ResponseCheckIff | custom_components/352air_legacy_local/protocols/base.py:170-180 | A response passes its check if and only if it is the prefix, a body of five octets or more, and the checksum of the body |
| Framing.RequestCheckIff | custom_components/352air_legacy_local/protocols/base.py:158-167 | A request passes its check if and only if it is such a frame with eleven octets or more in its body, which begins with the length of body and checksum |
| Delivery.CancelledWorkerEndsItsWait | custom_components/352air_legacy_local/transport.py:306-311 | A worker that is cancelled while it waits for its command ends that wait, takes it out of the pending list, and fails the callers of the entry that are still waiting with the closing error |
| Endings.ClosedIsDisconnected | custom_components/352air_legacy_local/transport.py:175-195 | On every run a closed client has no endpoint and no pending wait |
| Coalescing.ClosingCancelsTheWorker | custom_components/352air_legacy_local/transport.py:185-200 | Draining a closed client asks the live worker to stop, whatever it is at |
| Coalescing.CancelledCaller | custom_components/352air_legacy_local/transport.py:272 | A cancelled caller is told so and nothing else changes |
| Commands.ContextModelCounts | custom_components/352air_legacy_local/protocols/f072.py:196-232 | A model of the codec's family in the context counts in place of the codec's own |

## Left out

- Home Assistant entities, config flow, diagnostics, translations and `runtime.py`: framework glue with per-branch claims.
- Sockets, event loop internals, interface enumeration, packet capture and ARP: sends and receives are steps of the environment that may fail.
- `local_discovery.py` and the scan timing of `discovery.py`: mostly waiting; only the passive validator is modelled.
- `tools/352air_schedule_manager.py`: its framing repeats `schedule.py`, and its passive validator uses other offsets, so it is not part of the agreement result.
- JSON text, redaction, HMAC and AES internals: see above; discovery requests are modelled for any non-empty JSON text.
- Diagnostics: `raw_values` of a state, packet metadata other than the outer operation, rejection reasons, logging and its rate limit.
- State and identity listeners: a callback does not change the client.
- Starting: `start` is one step after the endpoint was acquired; its failure raises to the caller and changes nothing. `refresh_if_stale` only decides whether to refresh.
- A codec given by the caller: the client is modelled with the codec of its model, and a peer tuple is well formed.
- Text to bytes: URI paths and their segments are taken as their UTF-8 bytes.
- PowerProbe.TestPower: an interrupt arrives at a call into the operating system; one that arrives between two Python statements, or inside an exception handler, is not modelled.
- PowerProbe.NextSequence: does not model a run on which no later draw is unused, where the source draws forever.
- AlcsPower.SetPower: waiting for the client's own lock, and a cancellation there, happens before anything that is modelled.
- Reading the power without writing, and the property probes of the tools around the modelled functions, add only easy members.
