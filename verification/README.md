# Verification model of the Victron solar collector

This project models the parts of the collector that carry its guarantees and proves them with Dafny 4.11. It has three
strands.

* **Acquisition, energy and delivery.** One cycle reads the energy anchor, applies the integration policy and commits
  energy, identity and one spool batch in one transaction; batches are leased in order, retried, completed, dropped or
  pruned; a run loop repeats this over a graph of phases and counts what happened.
* **The VE.Smart wire.** A bounded CBOR decoder and shortest encodings (RFC 8949, sections 3 and 4.1; RFC 8742,
  section 2), response records, requests, chunking, reassembly, control messages, and the session with its receive
  credit, its correlation of answers and its reuse between cycles.
* **Two text algorithms.** The Prometheus encoder (sort, drop duplicates, escape) and the HTTP body reader (RFC 9112,
  sections 6.3 and 7.1).

`dafny verify dfyconfig.toml` checks everything.

## How it is built

Each stateful component is a class whose methods are proved equal to a function of its old state, and the laws are
lemmas about that function.

| modules | what they hold |
|---|---|
| `Energy`, `Integrators`, `Rounding` | the integration policy, what runs add up to, the second integrator, rounded watts |
| `Database`, `Storage`, `SpoolRuns`, `Pruning`, `Collectors` | the tables and transactions, the store object, runs of operations, the adapter and interleaved collectors |
| `Health`, `Delivery`, `Cycle`, `CycleLaws`, `Runner` | counters, the drain loop, one cycle and what its outcome says, the run loop |
| `Cbor`, `CborLaws`, `WireForms`, `WireErrors`, `StreamDecoding`, `Sequences` | items, heads, decoding functions and encodings, their laws, every form an item may be written in and what is refused, the decoder object; facts about concatenation used throughout |
| `Records`, `RecordLaws`, `Requests`, `Frames`, `Control` | response records, requests, chunks and reassembly, control messages |
| `Sessions`, `SessionLaws`, `SessionAnswers`, `Client` | a session as a function of what the link does, what it keeps, what it answers, the session object |
| `HttpBody`, `HttpLaws` | the response reader and what its result is as a function of the bytes |
| `Metrics`, `MetricLaws`, `Prometheus`, `PrometheusLaws`, `PrometheusText` | metric points, what their names may be, the encoder, its laws, a parser of its text |

Time is nanoseconds in the service and milliseconds in the store; power and energy are reals; the clock, the network,
the port results and every failure are parameters or scripts that the theorems quantify over.

## What the proofs found

* The stored energy total never falls, but the published yield can: when a native counter disappears, the local
  accumulator takes over from zero (`Energy.PublishedYieldCanFall`). `Energy.PublishedYieldHolds` gives the exact
  condition.
* Storing anchors in whole milliseconds makes integrated and reported durations exceed the span of a run by the
  fractions cut off, and by nothing else (`Energy.TimeIsAccountedFor`).
* The early duplicate test of a cycle misses exactly those duplicates that differ from the recorded success by a
  fraction of a millisecond; the store catches them (`Collectors.EarlyTestIsSound`).
* A batch whose last permitted claim is interrupted is never claimed again and leaves the table only by pruning or by
  an explicit call with its id (`SpoolRuns.SpentRowStays`). Leases are identified by row id alone.
* The two integrators leave the same row exactly when neither takes a reading because it is no later than the anchor, or
  the store accepts the reading, the total stays within the column's bounds, and it is not the case that the anchor lacks
  power while the reading is not zero (`Integrators.AgreeExactly`).
* A request that falls back on values kept from the subscription succeeds even when what failed was the write of a
  receive credit, and the session is then kept (`SessionLaws.LostCreditIsKept`; `SessionLaws.CreditCanBeLost` reaches
  this from a closed session in one cycle). From then on at most 63 chunks are granted while the next credit waits for
  65: a peer that keeps to its credit is never granted another chunk, however many cycles keep the session
  (`SessionLaws.LostCreditStarves`). Only the disconnect after a failed cycle ends this. The window stays within 64 and
  128 exactly as long as no credit write was lost (`SessionLaws.WindowIffNothingLost`).
* The result of reading a chunked body does not depend on how the bytes arrive as long as each line's newline is among
  its first 129 bytes. Beyond that it can: a line read from an empty buffer depends on its arrival exactly when its
  newline is at an index above 128 and below 384, where one more read can still bring it (`HttpLaws.LineArrivalMatters`).
  For a whole body the condition is that some line is over the limit, and that reading on with every line found that the
  reads can have brought near enough comes to anything but a malformed response (`HttpLaws.BodyArrivalMatters`). An empty
  body whose size line is padded with 127 to 381 spaces is read or refused, by how it arrives
  (`HttpLaws.PaddedBodyDiffers`). Heads have such a range of their own (`HttpLaws.HeadArrivalMatters`).
* A two-byte control error is a message on its own. In a concatenated buffer it is refused only when nothing follows it;
  otherwise it takes the first byte of the next message as the upper half of its code, so that a clear-buffer message
  behind it is lost (`Control.ShortErrorSwallows`, `Control.ClearBufferIsLost`).

## Model

| member | source | states |
|---|---|---|
| Energy.TotalIsSumOfTrapezoids | crates/victron-service/src/energy.rs:68-167 | the stored total of any committed run is the sum of trapezoids over neighbouring anchors with confirmed power no further apart than the maximal gap |
| Energy.StepNeverLowersTotal | crates/victron-service/src/energy.rs:68-167 | no step of the policy lowers the stored total |
| Energy.TotalNeverDecreases | crates/victron-service/src/energy.rs:157-166 | over any run of valid samples the stored total at an earlier point is at most the final one, and never negative |
| Energy.TimeIsAccountedFor | crates/victron-service/src/energy.rs:68-178 | without native yield, integrated plus reported skipped time is the span from first to last confirmed sample plus the stored remainders |
| Energy.WholeMillisecondsAreExact | crates/victron-service/src/energy.rs:68-178 | on whole milliseconds that accounting has no remainder |
| Energy.PublishedYieldCanFall | crates/victron-service/src/energy.rs:68-85 | a concrete pair of samples whose published yield falls |
| Energy.PublishedYieldHolds | crates/victron-service/src/energy.rs:68-167 | the published yield does not fall over two steps if and only if a stated comparison of the native figure holds |
| Energy.PublishedIsStored | crates/victron-service/src/energy.rs:68-167 | a step publishes the native counter or else the total it stores, and reports a gap exactly when a confirmed later sample is too far from a powered anchor |
| Rounding.NearestTiesToEven | crates/victron-protocol/src/vreg/round.rs:11-27 | an integer is the rounded value if and only if it is nearest, or equally near and even, for every input |
| Rounding.RoundingIsOdd | crates/victron-protocol/src/vreg/round.rs:11-27 | rounding commutes with negation |
| Rounding.RoundingIsMonotone | crates/victron-protocol/src/vreg/round.rs:11-27 | rounding keeps order |
| Rounding.RoundingStaysInRange | crates/victron-protocol/src/vreg/round.rs:11-27 | no 64-bit input overflows |
| Rounding.RoundingErrorIsBounded | crates/victron-service/src/energy.rs:157-166 | over any run the total from rounded watts is within half a watt times the integrated time of the total from raw hundredths, and both integrate the same time |
| Integrators.AgreeExactly | crates/victron-storage/src/energy.rs:75-202 | from any row and any reading, one step of the transactional integrator equals one step of the policy if and only if the reading is no later than the anchor, or it is accepted, keeps the total in bounds, and the anchor has power or the reading is zero |
| Integrators.IntegratorsAgree | crates/victron-storage/src/energy.rs:75-202 | from an empty state, over any in-range readings at whole milliseconds, both integrators reach the same row |
| Integrators.ReportIsTrue | crates/victron-storage/src/energy.rs:75-202 | what the store reports of a reading is what it did: the trapezoid added, the new total and time bridged, or the reason nothing was added, and whether the reading became the anchor |
| Integrators.ResetStartsAfresh | crates/victron-storage/src/energy.rs:75-267 | a reset succeeds if and only if its arguments are in range, and the next usable reading after it anchors anew at that total |
| Storage.Store.EnqueueBatch | crates/victron-storage/src/spool.rs:81-106 | a batch is accepted if and only if it names a device, has a payload and a positive time; it is appended with the next id, unclaimed and due at once; a refusal changes nothing |
| Storage.Store.PeekOldestBatch | crates/victron-storage/src/spool.rs:108-119 | a ready row than which every other ready row is newer by creation time and id, or none when no row is ready; nothing changes |
| Storage.Store.ClaimOldestBatch | crates/victron-storage/src/spool.rs:121-163 | the whole new state of a claim; every row but the one leased stays as it is |
| Storage.Store.MarkBatchDelivered | crates/victron-storage/src/spool.rs:165-177 | if the id is there and the time is positive, exactly the row with that id is deleted, and counted as delivered; otherwise nothing changes |
| Storage.Store.DropSpoolBatch | crates/victron-storage/src/spool.rs:179-191 | if the id is there and the time is positive, exactly the row with that id is deleted, and counted as dropped; otherwise nothing changes |
| Storage.Store.RecordBatchRetry | crates/victron-storage/src/spool.rs:193-243 | the row is due again after its backoff with its attempts kept, or deleted and counted when they are spent, or missing; no other row changes |
| Storage.Store.PruneSpool | crates/victron-storage/src/spool.rs:245-283 | the whole new state of a prune and its figures |
| Storage.Store.CommitAcquisitionBatch | crates/victron-storage/src/acquisition.rs:47-99 | a commit records energy, identity and one batch ready at once, only over the expected row and sparing other devices; a sample no later than the identity is already committed; nothing else changes anything |
| Storage.Store.IntegrateEnergy | crates/victron-storage/src/energy.rs:75-202 | the whole new state of the transactional integrator, sparing other devices |
| Storage.Store.ResetDeviceEnergy | crates/victron-storage/src/energy.rs:235-267 | a reset within range leaves the total without an anchor, sparing other devices; any other changes nothing |
| SpoolRuns.Conservation | crates/victron-storage/src/spool.rs:81-283 | in every reachable state, batches ever queued are those queued, delivered, dropped or pruned, and the counters agree with what was reported |
| SpoolRuns.IdsAreNeverReused | crates/victron-storage/src/spool.rs:81-106 | the k-th batch ever queued gets id k |
| SpoolRuns.AttemptsCountClaims | crates/victron-storage/src/spool.rs:121-163 | a queued row's attempt count is the number of times it was claimed, and at most the maximum |
| SpoolRuns.ClaimLeasesOldest | crates/victron-storage/src/spool.rs:64-163 | a claim takes the least (creation time, id) ready row, the one a look shows, one attempt up, and changes no other row |
| SpoolRuns.ClaimsFollowCreation | crates/victron-storage/src/spool.rs:64-163 | of two ready rows the one created earlier, or at the same time and queued earlier, is claimed first |
| SpoolRuns.LeaseIsExclusive | crates/victron-storage/src/spool.rs:121-243 | until its deadline a leased row is claimed by nobody, whatever else happens, unless a retry of it is recorded |
| SpoolRuns.ClaimStartsLease | crates/victron-storage/src/spool.rs:121-163 | a claim starts such a lease of the configured length |
| SpoolRuns.LeasedRowIsUnchanged | crates/victron-storage/src/spool.rs:121-283 | over anything that happens between a claim and the end of its lease, except a retry of the row, a surviving row stays as the claim left it: due when the lease ends, one attempt up |
| SpoolRuns.CrashedLeaseIsRecovered | crates/victron-storage/src/spool.rs:121-283 | after such a run a surviving row is ready exactly from the end of the lease on while attempts are left, and any claim made then gets it or an older row |
| SpoolRuns.SpentRowStays | crates/victron-storage/src/spool.rs:121-283 | a row with no attempts left is never claimed and stays until pruned or removed by id |
| Pruning.PruneKeepsNewestWithinBounds | crates/victron-storage/src/spool.rs:245-283 | a row survives a prune if and only if it is within the age and attempt bounds and fewer than the maximum of such rows are newer; removed plus remaining is what was there |
| Pruning.OldestAreDropped | crates/victron-storage/src/spool.rs:266-283 | of the rows within the bounds, those a prune drops were created, or at the same time queued, before those it keeps |
| Pruning.AgeIsMeasured | crates/victron-storage/src/spool.rs:253-262 | on times the store can hold, the saturating cutoff of a prune is the age of a row against its bound |
| Collectors.RowRoundTrip | apps/victron-collector/src/adapters/storage.rs:164-192 | a stored state reads back as itself cut to whole milliseconds |
| Collectors.MillisecondOf | apps/victron-collector/src/adapters/storage.rs:172-192 | a time is stored as the last whole millisecond not after it, if that is positive and fits, and read back as that millisecond |
| Collectors.ExactlyOnce | crates/victron-storage/src/acquisition.rs:47-142 | for any interleaving of collectors with replays and crashes, committed times per device strictly increase and the stored energy is the policy folded over exactly the committed samples |
| Collectors.CommitQueuesOneBatch | crates/victron-storage/src/acquisition.rs:47-99 | a commit queues exactly its own batch and any other outcome changes nothing |
| Collectors.OneBatchPerCommit | crates/victron-storage/src/acquisition.rs:47-99 | over a run, batches queued by collectors and samples committed are equally many |
| Collectors.EarlyTestIsSound | crates/victron-service/src/cycle.rs:353-445 | the early duplicate test never skips a sample the store would commit, and which duplicates it leaves to the store |
| Collectors.AnchorNeverAhead | crates/victron-storage/src/acquisition.rs:154-193 | in every reachable state the anchor is no later than the last success |
| Collectors.FreshSampleCommits | crates/victron-storage/src/acquisition.rs:47-193 | from any reachable state a newer valid sample commits if and only if the new total is within its bound |
| Delivery.ClaimSpendsOne | crates/victron-storage/src/spool.rs:121-163 | every claim spends one unit of the attempts left over all rows |
| Delivery.StatusFollowsAttempt | crates/victron-service/src/delivery.rs:48-134 | a claim is reported delivered if and only if its attempt was accepted and recorded; dropped only when refused for good or its attempts are spent; and put back, due later with its attempts, if and only if the failure was retryable with attempts left |
| Delivery.BackoffDoubles | crates/victron-storage/src/spool.rs:224-232 | the first retry waits for the base and each further one twice as long, up to the ceiling and the twenty-first |
| Delivery.SettleIsWhatItSays | crates/victron-service/src/delivery.rs:48-134 | the status of a settled claim says what left the table and which counter moved, and nothing adds attempts |
| Delivery.Courier.DeliverClaim | crates/victron-service/src/delivery.rs:48-115 | the new store state, status and delivery counters of one claim for every result of the attempt, by the settling of which `Delivery.StatusFollowsAttempt` speaks |
| Delivery.Courier.DropClaim | crates/victron-service/src/delivery.rs:119-134 | a claim is dropped and counted, or reported as failed |
| Delivery.Courier.ClaimNext | apps/victron-collector/src/adapters/storage.rs:96-120 | the claim through the port, refused when lease lengths disagree or the clock cannot be stored |
| Delivery.Courier.DrainOne | crates/victron-service/src/delivery.rs:141-175 | one claim is settled as its attempt says, spending attempts, or nothing is due, or nothing changes |
| Delivery.CompletedAreAccepted | crates/victron-service/src/delivery.rs:138-176 | over any turns no more batches are completed than were accepted, and none where none was |
| Delivery.Courier.DrainSpool | crates/victron-service/src/delivery.rs:138-176 | draining ends for any clock and any results after at most the attempts left in claims; its figure and the delivered total count exactly the claims accepted and recorded, the health counters every claim by its attempt, and what is left is not due |
| Health.Counters.RecordCycle | crates/victron-service/src/health.rs:72-81 | a cycle counts once, a success clears the failing streak, the streak saturates |
| Health.Counters.SetLastSuccess | crates/victron-service/src/health.rs:65-70 | the last success never falls, is at least the time given, and is that time or what it was |
| Cycle.StateMachine.Transition | crates/victron-service/src/state.rs:106-116 | a transition happens if and only if the graph allows it |
| CycleLaws.GraphIsOneWay | crates/victron-service/src/state.rs:57-76 | a cycle only moves on to its next phase, breaks off, or shuts down for good |
| Cycle.Context.Acquire | crates/victron-service/src/cycle.rs:278-350 | the acquisition phases in order, ending with the first failing port and its error |
| Cycle.Context.Persist | crates/victron-service/src/cycle.rs:353-445 | the persisting phase for every port result: a new sample passes only through its own commit and as new only if the store took it; a gap is noted exactly when a sample became durable across one |
| Cycle.Context.RecordFailure | crates/victron-service/src/cycle.rs:255-269 | a failed cycle is charged to exactly one counter |
| Cycle.Context.TeardownAfterFailure | crates/victron-service/src/cycle.rs:224-230 | teardown reaches backoff from every phase a cycle can fail in |
| Cycle.Context.TeardownToShutdown | crates/victron-service/src/cycle.rs:249-253 | teardown reaches shutdown without a rejected transition |
| Cycle.Context.RunCycle | crates/victron-service/src/cycle.rs:201-253 | for every sequence of port results the outcome is the first failure, the success or the interruption; a new sample succeeds only through its own commit; the phase after it is backoff, idle or shutting down, and the gap counter moves by exactly the durable gap |
| CycleLaws.CommitDecides | crates/victron-service/src/cycle.rs:278-492 | when a cycle succeeds with a new sample, succeeds with a duplicate, ends in a graceful shutdown and notes a gap, each if and only if its ports answer so |
| CycleLaws.ReplayTouchesNothing | crates/victron-service/src/cycle.rs:376-386 | a sample no later than the last success ends the same whatever the spool, the renderer and the commit would answer, and notes no gap |
| CycleLaws.FailsAtFirstPort | crates/victron-service/src/cycle.rs:278-492 | a cycle fails in a phase with an error if and only if everything before went well and that port failed |
| CycleLaws.ChargedByPhase | crates/victron-service/src/cycle.rs:255-269 | the counter a failed cycle moves is the one of the phase it failed in, planning failures being protocol errors |
| CycleLaws.CycleTestIsEarlyTest | crates/victron-service/src/cycle.rs:368-380 | on the last success the store holds, the cycle tests for a replay as `Collectors.EarlyTestIsSound` says |
| CycleLaws.CycleCommitsWhatStoreCommits | crates/victron-service/src/cycle.rs:353-445 | against the store, a cycle succeeds with a new sample only if the store commits it, and does whenever the store would and no other port fails |
| Runner.CyclesArePartitioned | crates/victron-service/src/health.rs:72-101 | cycles are successes plus failures of exactly one of the five kinds |
| Runner.Run | crates/victron-service/src/runner.rs:44-187 | no transition is ever rejected, the first cycle waits for nothing, the run stops exactly where a shutdown is noticed, and the counters tally the cycles performed; the skipped seconds are the saturated sum over durable gaps |
| StreamDecoding.StreamDecoder.ItemAt | crates/victron-protocol/src/cbor.rs:108-235 | the recursive decoder takes off the input what the decoding function gives, with the same error; `WireForms.DecodingIsExact` says what that is |
| StreamDecoding.StreamDecoder.NextItem | crates/victron-protocol/src/cbor.rs:101-106 | the next item, or truncation at the end |
| StreamDecoding.DecodeAll | crates/victron-protocol/src/cbor.rs:243-250 | the decoding loop computes the stream function |
| CborLaws.ItemRespects | crates/victron-protocol/src/cbor.rs:108-235 | an accepted item is encodable, within the levels and sizes left, and costs one unit a node |
| CborLaws.AcceptedStreamsAreBounded | crates/victron-protocol/src/cbor.rs:23-32 | an accepted stream respects the node, depth and size limits |
| CborLaws.ItemIsStable | crates/victron-protocol/src/cbor.rs:108-235 | an accepted item decodes the same before any bytes and under any budget that covers its nodes |
| CborLaws.ItemRoundTrip | crates/victron-protocol/src/cbor.rs:108-286 | an item tree within the limits decodes from its shortest encoding, leaving the rest |
| CborLaws.StreamRoundTrip | crates/victron-protocol/src/cbor.rs:243-286 | the concatenated encodings of item trees decode to them if and only if they are within the limits |
| CborLaws.EnoughBudget | crates/victron-protocol/src/cbor.rs:108-250 | a budget gives the same result if and only if it covers the nodes |
| CborLaws.StreamsConcatenate | crates/victron-protocol/src/cbor.rs:243-250 | two streams back to back decode to both lists if and only if their nodes fit the budget together |
| WireForms.FormDecodes | crates/victron-protocol/src/cbor.rs:108-235 | any well-formed form of an item, with arguments of any width, strings in chunks and containers closed by a break, decodes to what it says before any bytes |
| WireForms.DecodingIsExact | crates/victron-protocol/src/cbor.rs:108-235 | decoding gives an item and a rest if and only if the bytes begin with a well-formed form of it within the levels and the budget |
| WireForms.StreamsAreExact | crates/victron-protocol/src/cbor.rs:243-250 | a stream is accepted as a list if and only if it spells that list in some forms within the limits |
| WireForms.OpenContainerDecodes | crates/victron-protocol/src/cbor.rs:174-220 | encodings between the head of an open array or map and its break are its elements, in order |
| WireErrors.FormCutIsTruncated | crates/victron-protocol/src/cbor.rs:101-235 | a well-formed form cut short anywhere is called truncated |
| WireErrors.StreamCutIsTruncated | crates/victron-protocol/src/cbor.rs:243-250 | an accepted stream cut anywhere is truncated, or where an item ends gives the items before the cut |
| WireErrors.FormTooBig | crates/victron-protocol/src/cbor.rs:108-125 | a well-formed form beyond the limits is refused for its depth or its number of items, whichever it exceeds |
| Cbor.ArgumentOfHead | crates/victron-protocol/src/cbor.rs:254-272 | a shortest head reads back as its major type and argument |
| Records.ParseItems | crates/victron-protocol/src/response.rs:181-339 | the scanning loop computes the scan function |
| RecordLaws.ScanReadsWindows | crates/victron-protocol/src/response.rs:176-339 | what a scan emits is what its windows give one by one |
| RecordLaws.WindowsPartition | crates/victron-protocol/src/response.rs:176-339 | the windows increase, touch and cover all items |
| RecordLaws.ParametersAreNeverOpcodes | crates/victron-protocol/src/response.rs:176-193 | whatever stands behind an opcode in its window, the opcodes are looked for in the same places |
| RecordLaws.ScanFailsExactly | crates/victron-protocol/src/response.rs:237-272 | a scan fails if and only if some value or value response names a register beyond 16 bits |
| RecordLaws.ScanConcatenates | crates/victron-protocol/src/response.rs:181-339 | behind complete records the scan starts afresh |
| RecordLaws.RecordRoundTrip | crates/victron-protocol/src/response.rs:15-63 | a serialised record of any of the eight opcodes is recognised as itself if and only if its code is canonical |
| RecordLaws.RecognitionIsExact | crates/victron-protocol/src/response.rs:181-339 | a record is recognised if and only if the items begin with its own items and its code is canonical |
| RecordLaws.OpcodeGivesRecord | crates/victron-protocol/src/response.rs:176-339 | each of the eight opcodes gives a record, an unknown one of that opcode if the shape is wrong; any other item gives none |
| RecordLaws.JunkIsSkipped | crates/victron-protocol/src/response.rs:176-192 | items that are no opcodes in front of records change nothing |
| RecordLaws.RecordStreamRoundTrip | crates/victron-protocol/src/response.rs:169-172 | within the decoder's limits the concatenated encoding of records parses to them if and only if their codes are canonical |
| RecordLaws.PayloadsConcatenate | crates/victron-protocol/src/response.rs:169-172 | payloads of whole records back to back parse to both lists when they fit the budget |
| Requests.Encoder.Write | crates/victron-protocol/src/request.rs:78-139 | a request within its limit appends the encoding of its items; one over it leaves only its opcode behind |
| Requests.RequestRoundTrip | crates/victron-protocol/src/request.rs:71-139 | decoding an accepted request gives its opcode, instance and list |
| Requests.RequestsAreDistinct | crates/victron-protocol/src/request.rs:71-139 | different accepted requests have different payloads |
| Requests.FirstByteIsOpcode | crates/victron-protocol/src/request.rs:60-139 | the first byte on the wire tells the kind of request |
| Frames.SplitRequest | crates/victron-protocol/src/outbound.rs:63-93 | full chunks to Data and a non-empty last one to LastData, in order, or the error for an empty payload or size zero |
| Frames.SplitCount | crates/victron-protocol/src/outbound.rs:45-62 | a split has as many chunks as the length over the size, rounded up |
| Frames.SplitIsUnique | crates/victron-protocol/src/outbound.rs:63-93 | there is one way to split |
| Frames.Reassembler.Append | crates/victron-protocol/src/frame.rs:106-119 | a fitting chunk is appended, one that does not fit empties the buffer |
| Frames.Reassembler.Push | crates/victron-protocol/src/frame.rs:66-84 | what each notification returns and leaves in the buffer |
| Frames.MessageReassembles | crates/victron-protocol/src/frame.rs:66-119 | a split message comes out whole behind what is buffered if and only if it fits the capacity |
| Frames.RequestArrives | crates/victron-protocol/src/outbound.rs:63-93 | every accepted request, split to any size, arrives whole at a default reassembler, once, on its last chunk, and decodes to its items |
| Frames.MessagesComeOutInOrder | crates/victron-protocol/src/frame.rs:66-119 | messages back to back come out in order, each on its own |
| Frames.FeedAll | crates/victron-protocol/src/frame.rs:66-119 | feeding chunks one after the other gives those payloads |
| Control.ParseStream | crates/victron-protocol/src/control.rs:167-189 | the parsing loop computes the message list |
| Control.MessageRoundTrip | crates/victron-protocol/src/control.rs:89-158 | one message parses back if and only if it stands for itself |
| Control.ParseIsExact | crates/victron-protocol/src/control.rs:110-158 | on its own a message is accepted if and only if it is in its full form, an error without its upper half, or an unknown opcode with any operands |
| Control.StreamRoundTrip | crates/victron-protocol/src/control.rs:89-189 | a list of messages parses back from its encoding if and only if each stands for itself |
| Control.MessagesCoverBuffer | crates/victron-protocol/src/control.rs:160-189 | the bytes of the parsed messages are the accepted buffer |
| Control.MessagesContinue | crates/victron-protocol/src/control.rs:167-189 | behind an accepted buffer parsing starts afresh |
| Control.ShortErrorSwallows | crates/victron-protocol/src/control.rs:160-189 | behind any accepted buffer a two-byte error is refused if and only if nothing follows it, and otherwise takes the next byte whatever it began |
| Control.ClearBufferIsLost | crates/victron-protocol/src/control.rs:160-189 | a clear-buffer message behind a two-byte error is lost |
| SessionLaws.NotificationKeepsStep | crates/victron-client/src/flow.rs:13-27 | every recorded notification keeps the credit of the peer, what was lost and the pending count adding up to 128 |
| SessionLaws.WindowIffNothingLost | crates/victron-client/src/flow.rs:5-32 | the peer may send between 64 and 128 chunks if and only if no credit write was lost |
| SessionLaws.LostCreditIsKept | crates/victron-client/src/session.rs:393-441 | every request that succeeds on a connection that lost a credit keeps the session with a window below 64 |
| SessionLaws.LostCreditStarves | crates/victron-client/src/flow.rs:13-27 | over any run of cycles that keep such a session, a peer that keeps to its credit is granted nothing more |
| SessionLaws.CreditCanBeLost | crates/victron-client/src/session.rs:323-453 | one cycle from a closed session reaches such a state, whatever values were kept |
| SessionLaws.KeptValuesExist | crates/victron-client/src/flow.rs:34-43 | for every instance there is a payload that is kept |
| SessionLaws.FlagsAreOrdered | crates/victron-client/src/session.rs:32-41 | reusable implies subscribed implies negotiated implies opened |
| SessionLaws.NegotiateKeepsValid | crates/victron-client/src/session.rs:340-364 | a completed negotiation opens the window of 128 chunks |
| SessionLaws.SubscribeKeepsValid | crates/victron-client/src/session.rs:366-391 | subscribing keeps the session's invariant and leaves only values of the instance to fall back on |
| SessionLaws.RequestAnswersForInstance | crates/victron-client/src/session.rs:393-441 | every payload a request returns, fresh or kept, has a value of the instance, after at most two request writes |
| SessionLaws.ValuesAreThere | crates/victron-client/src/flow.rs:34-43 | correlation means that some record is a value of the instance |
| SessionLaws.DisconnectComesToRest | crates/victron-client/src/session.rs:455-465 | disconnecting closes any session, whatever was cut off before it |
| SessionLaws.RunsAnswerForInstance | crates/victron-service/src/cycle.rs:278-335 | over any run of cycles and any link the session comes to rest after each and every payload answers for the instance |
| SessionAnswers.RequestIsSent | crates/victron-client/src/session.rs:57-66 | where writes succeed, the chunks that split the request are sent in order and nothing else |
| SessionAnswers.AnswerIsFound | crates/victron-client/src/session.rs:86-316 | the wait returns the first whole payload with values of the instance, joined from its chunks since the buffer was last cleared, whatever unrelated payloads and control messages come before it; a malformed one ends it |
| SessionAnswers.OverflowEndsWait | crates/victron-client/src/session.rs:119-139 | a chunk that does not fit ends any wait or drain with an error and drops what was buffered |
| SessionAnswers.FailedGrantEndsWait | crates/victron-client/src/session.rs:68-84 | the 65th chunk is answered with a grant, and a grant that cannot be written ends any wait or drain with its error |
| SessionAnswers.FailureEndsDrain | crates/victron-client/src/session.rs:158-239 | a transport failure other than a timeout fails a drain with its own error |
| SessionAnswers.AnswerIsReturned | crates/victron-client/src/session.rs:393-441 | a fresh answer is returned after one request, even while kept values are held |
| SessionAnswers.KeptValuesStandIn | crates/victron-client/src/session.rs:413-425 | when the wait ends in any error, kept values are returned, once |
| SessionAnswers.FailureIsReported | crates/victron-client/src/session.rs:426-437 | without kept values, anything but a timeout ends the request with its own error after one request |
| SessionAnswers.SecondRequestIsAnswered | crates/victron-client/src/session.rs:393-441 | after a timeout without kept values the request is sent once more, whole, and the answer to that is returned |
| SessionAnswers.SecondFailureIsReported | crates/victron-client/src/session.rs:393-441 | there is no third request: what ends the second wait is reported |
| SessionAnswers.FailedWriteEndsRequest | crates/victron-client/src/session.rs:402-404 | a request whose first write fails waits for nothing and leaves kept values alone |
| SessionAnswers.DrainKeepsLast | crates/victron-client/src/session.rs:158-239 | a drain goes on until it is quiet and keeps the last payload with values of the instance, whatever else arrives |
| SessionAnswers.FailedWriteEndsSubscription | crates/victron-client/src/session.rs:366-391 | a first subscription whose first write fails ends with that error and leaves the session as it was |
| SessionAnswers.SubscriptionKeepsLast | crates/victron-client/src/session.rs:366-391 | a first subscription is written whole and keeps the last values that follow; the same one again only drains |
| SessionAnswers.NegotiationSends | crates/victron-client/src/session.rs:340-364 | a negotiation succeeds if and only if the control information has seven bytes, and then sends the two opening frames in order |
| Client.ReceiveCredit.Record | crates/victron-client/src/flow.rs:13-27 | the count and the credit of one notification |
| Client.VeSmartSession.WriteRequest | crates/victron-client/src/session.rs:57-66 | the chunks of the request are written in order until one fails |
| Client.VeSmartSession.NextPayload | crates/victron-client/src/session.rs:86-156 | the next complete payload or what ended the wait, with the whole new state |
| Client.VeSmartSession.DrainCompletedPayloads | crates/victron-client/src/session.rs:158-239 | the drain to a quiet period and the payload it keeps |
| Client.VeSmartSession.WaitForValues | crates/victron-client/src/session.rs:241-316 | the wait with its whole new state, as `SessionAnswers.AnswerIsFound` describes it: unrelated payloads are passed over, the first with values is returned, malformed ones end the wait |
| Client.VeSmartSession.Negotiate | crates/victron-client/src/session.rs:340-364 | the whole new state of a negotiation |
| Client.VeSmartSession.Subscribe | crates/victron-client/src/session.rs:366-391 | the whole new state of a subscription |
| Client.VeSmartSession.RequestValues | crates/victron-client/src/session.rs:393-441 | the two attempts, the fallback and the whole new state |
| Client.VeSmartSession.FinishCycle | crates/victron-client/src/session.rs:443-453 | a reusable session is kept as it is, any other is closed |
| Client.VeSmartSession.Disconnect | crates/victron-client/src/session.rs:455-465 | everything is reset |
| HttpBody.ResponseReader.ReadHead | crates/victron-metrics/src/response.rs:44-64 | the head, or the failure, and what is left, for every buffer and every way of arriving |
| HttpBody.ResponseReader.ReadBody | crates/victron-metrics/src/response.rs:73-120 | the body for every buffer and every way of arriving; a function of the bytes alone unless it is chunked |
| HttpBody.ResponseReader.ReadChunked | crates/victron-metrics/src/response.rs:122-162 | the chunked body for every buffer and every way of arriving, with the body within its limit at every loop head |
| HttpBody.ResponseReader.ReadLine | crates/victron-metrics/src/response.rs:164-178 | the line, or the failure, and what is left, for every buffer and every way of arriving |
| HttpBody.ResponseReader.ReadMore | crates/victron-metrics/src/response.rs:187-200 | a read moves bytes from the stream to the buffer and loses none |
| HttpLaws.LineReading | crates/victron-metrics/src/response.rs:164-178 | however it arrives, a line is what the bytes say, or is called too long, which needs a newline beyond the limit |
| HttpLaws.SettledLine | crates/victron-metrics/src/response.rs:164-178 | a line the bytes settle reads as they say, with what follows it, however it arrives |
| HttpLaws.LineArrivalMatters | crates/victron-metrics/src/response.rs:164-200 | two ways of arriving differ on a line if and only if its newline lies beyond the limit and within what one more read, or what was buffered, can bring |
| HttpLaws.HeadArrivalMatters | crates/victron-metrics/src/response.rs:44-64 | two ways of arriving differ on a head if and only if its end lies beyond the limit and within what one more read, or what was buffered, can bring |
| HttpLaws.HeadLeavesLittle | crates/victron-metrics/src/response.rs:44-64 | at most 511 bytes stay buffered behind a head |
| HttpLaws.SettledBody | crates/victron-metrics/src/response.rs:122-162 | where the bytes settle a chunked body, it is theirs however it arrives |
| HttpLaws.BodyArrivalMatters | crates/victron-metrics/src/response.rs:122-200 | two ways of arriving differ on a chunked body if and only if some line is over the limit and the widest reading of the bytes is not malformed |
| HttpLaws.PaddedBodyDiffers | crates/victron-metrics/src/response.rs:122-178 | a concrete family of bodies that are read or refused, by how they arrive |
| HttpLaws.BodyRoundTrip | crates/victron-metrics/src/response.rs:122-162 | a chunked body with short lines reads as the first bytes of its data up to the limit, whatever follows |
| HttpLaws.BadSizeIsMalformed | crates/victron-metrics/src/response.rs:122-133 | behind good chunks a short line that is no size makes the body malformed |
| HttpLaws.MissingLineEndIsMalformed | crates/victron-metrics/src/response.rs:151-158 | a chunk whose data is not followed by a line end makes the body malformed |
| HttpLaws.BrokenChunkFails | crates/victron-metrics/src/response.rs:143-152 | a chunk that breaks off is a failure of the stream, not a shorter body |
| HttpLaws.SizedBodyIsExact | crates/victron-metrics/src/response.rs:94-104 | a body of announced length is exactly those bytes, whatever follows, up to the limit, or a failure when the stream ends before |
| HttpLaws.ClosedBodyIsExact | crates/victron-metrics/src/response.rs:105-119 | a body up to the end of the connection is all of it if the peer closed, or its first bytes once the limit is passed |
| HttpLaws.ChunkedIsBounded | crates/victron-metrics/src/response.rs:122-162 | no chunked body exceeds the limit |
| HttpLaws.SizeRoundTrip | crates/victron-metrics/src/response.rs:126-133 | a size printed in hexadecimal is read back, alone or before an extension |
| HttpLaws.SizeIsExact | crates/victron-metrics/src/response.rs:126-133 | a size is read if and only if it is hexadecimal digits behind at most one plus, of a number within 64 bits |
| HttpLaws.PaddingIsIgnored | crates/victron-metrics/src/response.rs:124-133 | spaces around a size, and whatever follows a semicolon, do not matter |
| HttpLaws.StrippedIsExact | crates/victron-metrics/src/response.rs:167-171 | what is taken off a line is its line ends, all of them and nothing else |
| Metrics.ValidateLabels | crates/victron-metrics/src/metric.rs:438-454 | labels pass if and only if few, good and distinct, and come back sorted with nothing lost |
| Metrics.NewPoint | crates/victron-metrics/src/metric.rs:95-120 | a point is made if and only if every check passes, and is then valid |
| MetricLaws.NamesAreExact | crates/victron-metrics/src/metric.rs:378-424 | a metric name is up to 128 letters, digits, underscores or colons, a label name up to 64 without colons, neither beginning with a digit or two underscores |
| MetricLaws.ValuesAreExact | crates/victron-metrics/src/metric.rs:424-436 | a label value is any text of up to 128 bytes of UTF-8 without control bytes other than line ends |
| MetricLaws.LengthIsUtf8 | crates/victron-metrics/src/metric.rs:378-436 | the length that is limited is that of the well-formed UTF-8 of the text |
| Prometheus.EncodeInto | crates/victron-metrics/src/encode.rs:40-66 | the encoder appends the lines of the points of which `PrometheusLaws.EmittedExactly` says which they are |
| Prometheus.TextBuffer.PushLine | crates/victron-metrics/src/encode.rs:68-85 | one line, field by field |
| Prometheus.TextBuffer.PushEscaped | crates/victron-metrics/src/encode.rs:95-104 | the escaped value |
| PrometheusLaws.SortingIsStable | crates/victron-metrics/src/encode.rs:46-51 | sorting orders the keys and keeps the points of each key in the order they came |
| PrometheusLaws.EmittedAreLatest | crates/victron-metrics/src/encode.rs:40-66 | emitted keys strictly increase and each carries the last valid point given for it |
| PrometheusLaws.EmittedExactly | crates/victron-metrics/src/encode.rs:40-66 | a point is emitted if and only if it is finite with a positive timestamp and no later finite point has its series and time |
| PrometheusLaws.ValidPointsSurvive | crates/victron-metrics/src/encode.rs:40-66 | from valid points every series and time comes out once, with the last point given for it |
| PrometheusLaws.LinesAreInOrder | crates/victron-metrics/src/encode.rs:49-51 | lines come by metric name, then by labels, each in the order of characters, then by ascending time |
| PrometheusLaws.FiniteBits | crates/victron-metrics/src/encode.rs:41-44 | the finite doubles are exactly those whose bits without the sign are below infinity |
| PrometheusLaws.OnlyLatestMatter | crates/victron-metrics/src/encode.rs:40-66 | two batches emit the same points if and only if they give the same last point for every key |
| PrometheusLaws.ReorderingIsInvisible | crates/victron-metrics/src/encode.rs:40-66 | reordering that keeps the order of equal keys changes no line |
| PrometheusText.ValueReads | crates/victron-metrics/src/encode.rs:95-104 | an escaped value reads back up to its closing quote |
| PrometheusText.EscapeHasNoLineEnd | crates/victron-metrics/src/encode.rs:95-104 | escaping leaves no line end in a value |
| PrometheusText.OneLineEach | crates/victron-metrics/src/encode.rs:40-104 | the text of valid points has exactly one line end for each emitted point |
| PrometheusText.TextRoundTrip | crates/victron-metrics/src/encode.rs:40-104 | the text of valid points parses back to exactly the emitted ones |
| PrometheusText.TextDeterminesPoints | crates/victron-metrics/src/encode.rs:40-104 | batches with the same text emit the same series, times and values |

## Left out

- SQLite itself: transactions are atomic steps on plain tables with increasing ids; durability, pragmas and migrations are not modelled, nor the `updated_at` columns and the general key-value state.
- Lease fencing: the code identifies a leased row by id alone, and the model does the same.
- Counters of pruning: a prune moves no counter in the code; the model reports the figures it returns.
- 64-bit overflow of a clock near its end plus a lease length: times are unbounded integers.
- IEEE rounding of power and energy: reals; the bit-level comparison of anchors (negative zero, NaN) becomes equality.
- Widening of CBOR floats: an item keeps the bytes of the wire; minicbor is not part of this model, and heads follow RFC 8949. A simple value in two bytes is accepted with any second byte, and a map is the alternating list of its keys and values.
- Error texts: errors are their kinds.
- Backoff and poll interval of the run loop: they only choose how long to wait; waits appear as whether one took place and what came with it.
- Observers other than the one that records phases, logging, and the systemd watchdog.
- Runner.Run: the loop is followed over any finite list of iterations, with the run still going when the list ends.
- Cycle.Context.RunCycle: what a delivery does to the counters inside a cycle is arbitrary here; the drain loop is proved in `Delivery`.
- Client.VeSmartSession.RequestValues: cancellation of a phase halfway is modelled as whatever state it left, followed by the disconnect that every failure takes (`SessionLaws.DisconnectComesToRest`); notification counts, which only feed logs, are left out.
- Client.VeSmartSession.Subscribe: after a failed subscription to a different instance, without the disconnect the cycle makes, kept values may belong to the new instance; the laws are for one instance, which is how the collector runs.
- The transport behind the session: BlueZ, discovery and the diagnostic mode; a link is a script of what its operations do.
- HttpBody.ResponseReader.ReadBody: header parsing is left out, so the kind of body is a parameter; Unicode white space around a chunk size and the lossy decoding of a line that is no text are not modelled.
- Records.ParseItems: the names and the opcode lookup of responses, and the decoding of register contents except the rounding of hundredths.
- Prometheus.EncodeInto: the library's stable sort is a function, and how a value prints is any function that is injective on finite values and free of spaces and line ends.
- Metrics.NewPoint: the batch builder around it adds the device label and the batch time; state metrics and the register of metric names are left out.
- The command line, configuration files, URLs, unit and enum tables.
