# The telemetry pipeline, modelled and proved

A Dafny model of how the agent gets telemetry from an application to the collector and to
an OTLP receiver, with proofs of what its comments promise. `dafny verify dfyconfig.toml`
checks all of it.

The modules follow the program's own parts.

- **The OTLP protobuf writer**: `Wire` (varints, fixed-width integers, hex), `ProtoWriting`
  (the class with the growing buffer, the reserved prefixes and the stack of open
  messages), `OtlpEncoding` (the pure encoding and the writer's procedures, proved equal to
  it) and `OtlpDecoding` (a decoder written from `trace.proto`, and the round trips). The
  formats are those of the Protocol Buffers encoding document ("Base 128 Varints",
  "Length-Delimited Records").
- **The wire contract**: `WireContract` (the schema language, the validator and the repairer
  as functions), `TelemetryShapes` (the contract itself), `ContractMeaning` (what the contract
  lets through, said of values alone, and the validator proved equal to it) and
  `SectionMeaning` (requests, jobs and metrics spelt out), `WireRepair` and `RepairMeaning`
  (what the repairer does, judged by the validator and against what can be kept, over
  arbitrary values and shapes), `TelemetryValidator` and `TelemetrySanitizer` (the loops as
  they run, and whole batches), `BatchChanged` (what a repaired batch's `changed` says).
- **The two-thread slot**: `SharedSlot`, a state machine whose steps are single accesses of
  either thread, down to the byte copied; `Atomics` are taken as sequentially consistent.
- **The main thread's buffer**: `Ingest` (executions, trees, billed units, what each mode
  leaves), `LogBacklog`, `SharedBuffer` (the class), `IngestMeaning` (what is kept of a request
  or a job, by its own status, error and duration), `IngestRuns` (what holds over whole runs),
  `ProducerLimits` (what is produced fits the contract), `ShutdownDrain` (flush, message
  handler and the shutdown's polling loop).
- **Metrics**: `MetricWindows`, `CounterMetric`, `SummaryMetric` (the classes) and
  `MetricDelivery` (windows through batches that are written or fail to be).
- **The worker thread**: `WorkerLines` (the string protocol), `DetachedWorker` (backoff,
  pauses, what is posted; its class carries its whole history) and `WorkerMessages` (both
  sides composed).
- **The OTLP exporter**: `Backoff`, `TraceExporter` (the queue's class), `SpanMapper`.
- **Objectives**: the bounded breadth-first search and the restatement clock.

Where the source updates fields step by step there is a class; each method is tied to a
function of the old state, and the lemmas are about those functions and about runs of
them. What lies outside is a parameter: a collector's reply, the clock, a random slot, what
the worker thread does between two looks.

## Where the code and its comments differ

The model follows the code.

- `SanitizeBatchResult.changed` is documented as false only for a batch in contract. It is
  false exactly when the section entries and the runtime sample hold nothing worse than
  explicit nulls (`ChangedIsExact`). Such a batch was in contract exactly when its root was,
  its array sections were arrays within their limits, and, as the wire takes it, no declared
  key held a null (`UnchangedMeansInContractExactly`). Three batches for which it is not
  so: `UnchangedWithANull`, `UnchangedWithAnUndeclaredKey`, `UnchangedWithoutAnArray`.
- `markFlushed` is documented to lose nothing when a write fails. Nothing is lost exactly
  when each successful write held, as it then stood, every window it closed
  (`WindowsAreConservedExactlyWhenCovered`). Three runs in which one did not: a write that
  failed and then one that succeeded before the metric changed again
  (`LostAfterAFailedWrite`); a counter asked for again with an initial value, which sets it
  without its change handler (`LostWhenSeeded`, `SeedIsNeverReported`); a name over a
  hundred characters, cut to another metric's name (`LostUnderOneName`).
- `hasBatchAwaitingWorker` relies on the worker zeroing the length and freeing the lock on
  every path. It does on every path of its own (`LettingGoLeavesTheSlotEmpty`,
  `BatchGoesOut`), but a worker that dies inside (`DyingInsideOrphans`) leaves the lock taken
  for good, and nothing else does (`OrphanedExactlyWhenForGood`).
- The not-ingested line's comment says a batch that got in says so with its verdict. It does
  exactly when its own status is 2xx (`HeardAsAcceptedExactlyByItsOwnStatus`): one refused
  with a 400, repaired and then accepted is not heard of (`RepairedGoesUnheard`), and does
  not end the credentials backoff (`SendOne`).
- The exporter's comment says a tree is never dropped in part. An operation is refused whole
  at the door, but one that spans two batches is taken apart when a batch to be retried
  finds no room in the queue, and of such batches only then (`RetryCutsExactly`,
  `CutByARetry`). An encoding that fails, a reply that turns a batch away and a connection
  cut at the close do the same to a tree whose other batch fares otherwise (`SendEnds`,
  `FaredDifferently`, `CutByARefusal`).
- A key named like something every object inherits (`toString`, say) is never reported as
  undeclared and stays in a repaired batch (`InheritedNamesStay`).

## Model

| member | source | states |
|---|---|---|
| `Wire.VarintRoundTrip` | src/otlp/otlp-encoders.ts:123-131 | A varint reads back as its value, whatever follows it, for every natural number |
| `Wire.VarintIsMinimal` | src/otlp/otlp-encoders.ts:123-131 | No byte string a reader takes for the value is shorter than the varint written for it |
| `Wire.VarintFits` | src/otlp/otlp-encoders.ts:93-95 | A varint takes at most n bytes exactly when the value is below 128 to the n |
| `Wire.SafeVarintLength` | src/otlp/otlp-encoders.ts:123-131 | A number up to 2^53 takes at most 8 bytes, within the ten reserved |
| `Wire.Int64RoundTrip` | src/otlp/otlp-encoders.ts:134-146 | A signed integer reads back through its 64-bit two's complement; a negative one takes exactly ten bytes |
| `Wire.FixedRoundTrip` | src/otlp/otlp-encoders.ts:148-160 | A fixed-width integer reads back from its little-endian bytes |
| `Wire.HexRoundTrip` | src/otlp/otlp-encoders.ts:179-186 | The bytes of an id, written from its hex form, give the same hex form back |
| `ProtoWriting.PrefixFits` | src/otlp/otlp-encoders.ts:196-215 | A length fits the five bytes reserved for it exactly when it is below 2^35 |
| `ProtoWriting.ClosingIsExact` | src/otlp/otlp-encoders.ts:188-215 | Closing a message leaves key, minimal length and body exactly when the body is below 2^35 bytes; past it the write of the length runs into the body |
| `ProtoWriting.PatchedAndClosedUp` | src/otlp/otlp-encoders.ts:196-215 | Filling in the length and sliding the body left together leave what is before the prefix, the varint, and the body |
| `ProtoWriting.ProtoWriter.constructor` | src/otlp/otlp-encoders.ts:108-111 | A new writer is valid, empty, and has no message open |
| `ProtoWriting.ProtoWriter.Reserve` | src/otlp/otlp-encoders.ts:217-228 | Growing the buffer keeps every byte written and every open prefix, and there is room afterwards |
| `ProtoWriting.ProtoWriter.PutVarint` | src/otlp/otlp-encoders.ts:123-131 | Appends exactly the varint to what is written and disturbs no open message |
| `ProtoWriting.ProtoWriter.PutInt64` | src/otlp/otlp-encoders.ts:134-146 | Appends exactly the two's complement varint, negative or not |
| `ProtoWriting.ProtoWriter.PutFixed64` | src/otlp/otlp-encoders.ts:148-153 | Appends the eight little-endian bytes |
| `ProtoWriting.ProtoWriter.PutFixed32` | src/otlp/otlp-encoders.ts:155-160 | Appends the four little-endian bytes |
| `ProtoWriting.ProtoWriter.PutString` | src/otlp/otlp-encoders.ts:169-176 | Appends the length as a varint and then the bytes |
| `ProtoWriting.ProtoWriter.PutHex` | src/otlp/otlp-encoders.ts:179-186 | Appends the length and the bytes the hex form stands for |
| `ProtoWriting.ProtoWriter.BeginMessage` | src/otlp/otlp-encoders.ts:188-194 | Appends the key and the reserved gap, and notes where the prefix is, on top of the messages already open |
| `ProtoWriting.ProtoWriter.EndMessage` | src/otlp/otlp-encoders.ts:196-215 | Fails exactly when no message is open; else closes the innermost one and leaves every outer prefix and byte where it was |
| `ProtoWriting.ProtoWriter.Finish` | src/otlp/otlp-encoders.ts:113-116 | Gives exactly the bytes written |
| `OtlpEncoding.MessageConcat` | src/otlp/otlp-encoders.ts:240-337 | The bytes of two stretches of fields are the bytes of the first followed by those of the second |
| `OtlpEncoding.WriteKeyValues` | src/otlp/otlp-encoders.ts:314-337 | Every attribute, with its value one level deeper, comes out as the pure encoding of the list |
| `OtlpEncoding.WriteSpan` | src/otlp/otlp-encoders.ts:274-312 | A span written in place is the pure encoding of its fields, defaults left out, at any depth |
| `OtlpEncoding.EncodeOtlpProtobuf` | src/otlp/otlp-encoders.ts:240-272 | The back-patching writer's bytes equal the recursive encoding (key, length, body) of resource, scope and spans, for every batch below 2^35 bytes |
| `OtlpDecoding.FieldRoundTrip` | src/otlp/otlp-encoders.ts:118-186 | Any field a writer can make is read back from the front of any byte string, by a reader with the wire types of the encoding document: 0, 1, 2 and 5 |
| `OtlpDecoding.KnownBytes` | src/otlp/otlp-encoders.ts:83-186 | Fields down to the byte: keys of one and two bytes, a varint of two groups, little-endian fixed integers, a length before its bytes, the largest safe integer and minus one |
| `OtlpDecoding.MessageRoundTrip` | src/otlp/otlp-encoders.ts:188-215 | A message's bytes parse to exactly its fields |
| `OtlpDecoding.AnyValueRoundTrip` | src/otlp/otlp-encoders.ts:323-334 | Every attribute value is told apart again, zero, false and the empty string included |
| `OtlpDecoding.EventRoundTrip` | src/otlp/otlp-encoders.ts:293-299 | An event is read back, its time, name and attributes |
| `OtlpDecoding.StatusRoundTrip` | src/otlp/otlp-encoders.ts:300-308 | A status is read back, with an empty message read as none |
| `OtlpDecoding.SpanRoundTrip` | src/otlp/otlp-encoders.ts:274-312 | A decoder written from trace.proto recovers the span, omitted fields read as their defaults |
| `OtlpDecoding.RequestRoundTrip` | src/otlp/otlp-encoders.ts:240-272 | The decoder recovers resource, scope and all the spans, in order, from an export request |
| `OtlpDecoding.PlainSpansComeBack` | src/otlp/otlp-encoders.ts:240-312 | Spans whose times fit 64 bits and that hold no empty text come back from an export request exactly as they were |
| `OtlpDecoding.CanonicalEncodesAlike` | src/otlp/otlp-encoders.ts:274-312 | A span as read back has exactly the fields, and so the bytes, of the span written |
| `OtlpDecoding.EncodedAlikeExactlyWhenCanonical` | src/otlp/otlp-encoders.ts:240-272 | Two requests encode alike exactly when they differ in nothing but what proto3 does not tell apart |
| `WireContract.CheckLaxer` | src/agent/telemetry-wire-contract.ts:371-465 | A value without problems under stricter options has none under laxer ones, at any path |
| `WireContract.LengthShortcutIsExact` | src/agent/telemetry-wire-contract.ts:473-480 | Counting characters only once the length passes the limit gives the answer of the whole count, for every text |
| `ContractMeaning.CharactersOneMore` | src/agent/telemetry-wire-contract.ts:473-480 | The count, unit by unit: a variation selector is no character, a high surrogate none of its own before a low one, every other unit is one |
| `ContractMeaning.FlatIsTaken` | src/agent/telemetry-wire-contract.ts:432-465 | Of one value that is no modelled object: validator and repairer take a text, a number, a boolean or an object just where the field's type says so, within its words and its length; the repairer never alters it |
| `ContractMeaning.ObjectIsExact` | src/agent/telemetry-wire-contract.ts:371-465 | For any value, shape and options the validator reports nothing exactly when the value is what the contract lets through, spelt out on values alone, to any depth |
| `ContractMeaning.LogEntryMeans` | src/agent/telemetry-wire-contract.ts:249-257 | A log entry is in contract exactly when its time is a number, its text a text, its level one of six words, its ids and context at most 255 characters, and it has no other key |
| `ContractMeaning.SpanMeans` | src/agent/telemetry-wire-contract.ts:87-104 | A span is in contract exactly when it and every span under it are: an origin of two, a class and a method, and an error that is an object or a boolean |
| `SectionMeaning.RequestMeans` | src/agent/telemetry-wire-contract.ts:132-148 | A request is in contract exactly when it has a trace id and an operation, its spans are all in contract, its attributes are four named ones, and it has no other key than those spelt out |
| `SectionMeaning.JobMeans` | src/agent/telemetry-wire-contract.ts:151-166 | The same for a job |
| `SectionMeaning.MetricMeans` | src/agent/telemetry-wire-contract.ts:231-247 | A custom metric is in contract exactly when its name is at most 100 characters, its type one of three, its labels at most a thousand of at most 255 characters, and its readings objects |
| `ContractMeaning.LooserThanTheWire` | src/agent/telemetry-wire-contract.ts:514-517 | The validator lets NaN and a null through where the wire takes neither |
| `WireRepair.EntriesCheck` | src/agent/telemetry-wire-contract.ts:383-393 | An object's entries raise no problem exactly when no entry does |
| `WireRepair.EntriesRepair` | src/agent/telemetry-wire-contract.ts:562-610 | After the repair of an object each declared key is what its own entry says and every other key is as it was |
| `WireRepair.FieldIsExact` | src/agent/telemetry-wire-contract.ts:613-688 | For any value, field and path: nothing is reported exactly when the strict validator finds nothing but explicit nulls, nothing is changed besides exactly when it finds nothing at all, and what is given up on is reported |
| `WireRepair.ShapeIsExact` | src/agent/telemetry-wire-contract.ts:562-610 | The same for whole objects, over arbitrary well-formed shapes, recursive ones included |
| `WireRepair.FieldIsSound` | src/agent/telemetry-wire-contract.ts:613-688 | A field repaired and kept has no problem under the strict validator |
| `WireRepair.ShapeIsSound` | src/agent/telemetry-wire-contract.ts:562-610 | A value the repairer calls usable has no problem under the validator, undeclared keys, nulls and non-finite numbers included |
| `WireRepair.RepairIsIdempotent` | src/agent/telemetry-wire-contract.ts:562-610 | A second pass reports nothing and changes nothing |
| `WireRepair.CleanExactlyWhenUntouched` | src/agent/telemetry-wire-contract.ts:562-610 | A value is returned as it is with no report exactly when it is in contract |
| `WireRepair.ReportsAreMutations` | src/agent/telemetry-wire-contract.ts:562-610 | For one object: a report means it was changed or given up on; it is changed without a report exactly when explicit nulls are all that is wrong |
| `WireRepair.QuietShape` | src/agent/telemetry-wire-contract.ts:593-596 | A repair without a report has taken out keys that held nothing, at any depth, and changed nothing else |
| `RepairMeaning.FieldIsKept` | src/agent/telemetry-wire-contract.ts:613-688 | A field is usable exactly when something of it can be kept, and then it is just that: of an array the elements that can be kept, in order, up to the limit |
| `RepairMeaning.ObjectIsKept` | src/agent/telemetry-wire-contract.ts:562-610 | An object is usable exactly when everything required can be kept or has a fallback; then it holds each declared key that can be kept, an inherited name as it was, and nothing else |
| `WireRepair.StrictIsNullFree` | src/agent/telemetry-wire-contract.ts:383-393 | An object is as the wire takes it exactly when it validates otherwise and no declared key in it, at any depth, holds an explicit null |
| `TelemetryShapes.SectionShapesAreOk` | src/agent/telemetry-wire-contract.ts:87-344 | The contract's own section shapes are well formed: distinct keys, and every fallback in contract itself |
| `TelemetryValidator.ValidateShape` | src/agent/telemetry-wire-contract.ts:371-401 | The procedure that pushes onto the error list adds exactly the problems of the object, in order |
| `TelemetryValidator.ValidateField` | src/agent/telemetry-wire-contract.ts:403-465 | The same for a field, arrays and nested shapes included |
| `TelemetryValidator.ValidateTelemetryPayload` | src/agent/telemetry-wire-contract.ts:362-369 | The list for a batch is the problems of its root shape and no more |
| `TelemetrySanitizer.SanitizeShape` | src/agent/telemetry-wire-contract.ts:562-610 | The deleting loop computes the key-by-key repair, though each step sees the object already changed |
| `TelemetrySanitizer.SanitizeField` | src/agent/telemetry-wire-contract.ts:613-688 | The same for one field, its type checks in the order of the source |
| `TelemetrySanitizer.SanitizeItems` | src/agent/telemetry-wire-contract.ts:620-648 | The backward splicing loop keeps each usable element, repaired, in order, and cuts to the limit |
| `TelemetrySanitizer.SanitizeBatch` | src/agent/telemetry-wire-contract.ts:704-741 | The section loops compute the repair of a batch: arrays entry by entry, the runtime sample as a whole |
| `TelemetrySanitizer.RepairedBatchIsInContract` | src/agent/telemetry-wire-contract.ts:704-741 | A repaired batch validates exactly when the root fields it does not repair did, no root key is undeclared, and each array section is an array within its limit |
| `TelemetrySanitizer.BatchRepairIsIdempotent` | src/agent/telemetry-wire-contract.ts:704-741 | Repairing a repaired batch changes, drops and reports nothing |
| `RepairMeaning.BatchIsKept` | src/agent/telemetry-wire-contract.ts:704-741 | For every batch each array section holds just the entries that can be kept, repaired, in order; the runtime sample is kept where it can be; no other key is touched |
| `TelemetrySanitizer.InheritedNamesStay` | src/agent/telemetry-wire-contract.ts:395-400 | The undeclared keys a usable repair leaves are exactly those named like something every object inherits |
| `TelemetrySanitizer.SilentNull` | src/agent/telemetry-wire-contract.ts:593-596 | One log entry whose only fault is an explicit null is changed without a report |
| `BatchChanged.ChangedIsExact` | src/agent/telemetry-wire-contract.ts:704-741 | For every batch: called unchanged exactly when its sections hold nothing worse than explicit nulls; so called and unchanged exactly when they are in contract; called changed it is changed, and nothing is dropped unsaid |
| `BatchChanged.InContractBySection` | src/agent/telemetry-wire-contract.ts:362-401 | A batch validates exactly when its root fields do, no root key is undeclared, each array section is an array within its limit, and every section entry and the runtime sample validates |
| `BatchChanged.UnchangedMeansInContractExactly` | src/agent/telemetry-wire-contract.ts:488-494 | For every batch: one called unchanged was in contract exactly when its root was, its array sections were arrays within their limits, and (as the wire takes it) no declared key held an explicit null; one in contract is never called changed |
| `BatchChanged.UnchangedWithANull` | src/agent/telemetry-wire-contract.ts:488-494 | A batch with one log entry, its only fault an explicit null: called unchanged, changed, and not in contract before |
| `BatchChanged.UnchangedWithAnUndeclaredKey` | src/agent/telemetry-wire-contract.ts:488-494 | A batch with an undeclared root key: called unchanged, and not in contract |
| `BatchChanged.UnchangedWithoutAnArray` | src/agent/telemetry-wire-contract.ts:488-494 | A batch with a section that is no array: called unchanged, and not in contract |
| `SharedSlot.RunInv` | src/agent/detached-observe-worker.ts:263-282 | Every step of either thread, byte by byte, keeps the slot's invariant, under every interleaving |
| `SharedSlot.BatchesArriveWholeAndInOrder` | src/agent/detached-observe-worker.ts:515-541 | Never both sides inside; what the worker decodes is one whole written batch, in write order, none twice; each written batch is taken, replaced before that, or still in the slot |
| `SharedSlot.LettingGoLeavesTheSlotEmpty` | src/agent/detached-observe-worker.ts:762-765 | Whenever the worker lets go, the length is zero and the lock free, whatever the exit path |
| `SharedSlot.FailedWriteTouchesNothing` | src/agent/observe-agent.shared-buffer.ts:850-882 | From the lock being taken, through a write that throws at whatever point or for its size, and anything the worker does before and after, until the lock is let go: length, bytes, batches written and replaced are as they were, and the lock is free |
| `SharedSlot.DrainReplacesNothing` | src/agent/observe-agent.worker.ts:470-482 | A drain that writes only into a slot it saw empty replaces no batch, however the worker interleaves |
| `SharedSlot.ReplacedExactlyWhenOverwritten` | src/agent/observe-agent.worker.ts:907-949 | A batch is replaced exactly when a write begins while one is still in the slot |
| `SharedSlot.OrphanedLockIsForever` | src/agent/detached-observe-worker.ts:515-541 | If the worker died holding the lock, no batch is written or taken ever again, over any run, restarts included |
| `SharedSlot.OrphanedExactlyWhenForGood` | src/agent/detached-observe-worker.ts:762-765 | From any state there can be, no run frees the lock exactly when the worker died inside |
| `SharedSlot.DyingInsideOrphans` | src/agent/detached-observe-worker.ts:515-541 | It can come to that: a worker that takes the lock and dies |
| `SharedSlot.WorkerLetsGo` | src/agent/detached-observe-worker.ts:515-541 | A worker inside takes what is in the slot, whole, empties it and frees the lock in an exact number of steps, at most the batch's bytes and five |
| `SharedSlot.BatchGoesOut` | src/agent/detached-observe-worker.ts:515-541 | Unless the worker died inside, a batch in the slot with the main thread idle is decoded, whole, within its bytes and six steps of the worker, a restart aside; then the slot is empty and the lock free |
| `SharedSlot.FlushWrites` | src/agent/observe-agent.worker.ts:932-949 | From any state, a flush with the main thread idle and the lock free writes its batch whole in as many steps as its bytes and four, last in order, and frees the lock; with the lock taken, or a batch too large, nothing changes |
| `SharedSlot.DrainWrites` | src/agent/observe-agent.worker.ts:470-482 | A drain that sees the slot empty and the lock free writes its batch likewise; one that sees it taken does nothing |
| `SharedSlot.FlushedBatchArrives` | src/agent/detached-observe-worker.ts:515-541 | End to end: a batch flushed while the lock is free is decoded by the worker byte for byte, and the slot is empty and the lock free after it |
| `Ingest.CountTraceNodes` | src/agent/degraded-ingest.protocol.ts:256-267 | The recursive loop counts every node of an encoded forest, children included |
| `Ingest.EncodingKeepsTheCount` | src/encoders/trace.encoder.ts:66-93 | An encoded forest has as many nodes as the one encoded |
| `Ingest.GradingConservesUnits` | src/agent/observe-agent.shared-buffer.ts:584-594 | Sent and withheld units of an execution add up to what full ingest bills, in every mode |
| `LogBacklog.DroppedOnlyWhenBothAreFull` | src/agent/observe-agent.shared-buffer.ts:774-803 | Lines are dropped only once the batch holds 250 and the backlog 2000; they are the newest of the call, and none between is lost |
| `LogBacklog.PushAll` | src/agent/observe-agent.shared-buffer.ts:783-802 | The loop with its early return puts each line where the closed form says |
| `LogBacklog.FitMeans` | src/agent/observe-agent.shared-buffer.ts:788-791 | A line over 4096 characters keeps its head, ends in the suffix that says it was cut, and comes to 4096; nothing else of an entry changes |
| `LogBacklog.DrainTakesAllItCan` | src/agent/observe-agent.shared-buffer.ts:822-841 | A drain empties the backlog or fills the batch to 250; the last one empties it |
| `LogBacklog.LinesAreConserved` | src/agent/observe-agent.shared-buffer.ts:774-841 | Over any run every line is in exactly one of batch, backlog, handed off or dropped; the backlog is first in, first out; a batch holds at most 250 lines, or 2000 once a final flush has drained |
| `SharedBuffer.Buffer.constructor` | src/agent/observe-agent.shared-buffer.ts:205-240 | A new buffer has no batch, no backlog, nothing withheld, and no answer of the collector's |
| `SharedBuffer.Buffer.SendsWhileErrorsOnly` | src/agent/observe-agent.shared-buffer.ts:584-594 | Sends exactly an execution whose status is 500 or above, or that has no status and an error, without its tree, and counts the rest in billed units |
| `SharedBuffer.Buffer.InsertRequestSnapshot` | src/agent/observe-agent.shared-buffer.ts:242-338 | Fallback name, grant, cap, grading and export together: the batch, the withheld counts and what is exported are those of the state functions, and nothing else changes |
| `SharedBuffer.Buffer.InsertJobSnapshot` | src/agent/observe-agent.shared-buffer.ts:340-396 | The same for a job, graded on its error and duration |
| `IngestMeaning.RequestMeans` | src/agent/observe-agent.shared-buffer.ts:242-321 | Any request in any state, by its own status, error and duration: under errors-only it is sent without its tree exactly when it failed; otherwise degraded, with its tree exactly when it failed or took over a second; else whole; with the cap, the name it falls back on and the units reported as withheld |
| `IngestMeaning.JobMeans` | src/agent/observe-agent.shared-buffer.ts:340-396 | The same for a job |
| `IngestMeaning.RequestAfterAVerdict` | src/agent/observe-agent.shared-buffer.ts:449-452 | Over any run: after a verdict is read, whatever else happens but another, requests are kept as it says for five minutes and whole from then on |
| `IngestMeaning.TreesComeBack` | src/encoders/trace.encoder.ts:66-93 | An encoded tree reads back as the tree, every span under its own parent, and carries no empty list of children |
| `SharedBuffer.Buffer.SetIngestMode` | src/agent/observe-agent.shared-buffer.ts:449-452 | Each verdict replaces the last whole, and holds five minutes |
| `SharedBuffer.Buffer.OtlpExportGrant` | src/agent/observe-agent.shared-buffer.ts:564-572 | The grant holds only while ingesting, and a capped one only until it lapses |
| `SharedBuffer.Buffer.SetOtlpExport` | src/agent/observe-agent.shared-buffer.ts:553-556 | Records a grant; a capped one holds five minutes from its line |
| `SharedBuffer.Buffer.PushLogs` | src/agent/observe-agent.shared-buffer.ts:774-803 | Lines fill the batch, then the backlog; the rest of the buffer is untouched |
| `SharedBuffer.Buffer.DrainPendingLogs` | src/agent/observe-agent.shared-buffer.ts:822-841 | Moves the oldest backlog lines the batch has room for, and makes a batch only if there are any |
| `SharedBuffer.Buffer.EncodeAndWrite` | src/agent/observe-agent.shared-buffer.ts:850-882 | Withholds the lines of a paused account, then writes the batch exactly when it fits |
| `SharedBuffer.Buffer.ResetMainThreadBuffer` | src/agent/observe-agent.shared-buffer.ts:895-899 | Forgets the batch and its withheld counts, and keeps the backlog and the collector's answers |
| `SharedBuffer.Buffer.RecordStarted` | src/agent/observe-agent.shared-buffer.ts:510-514 | A start turns reporting on only from off |
| `IngestRuns.UnitsAreConserved` | src/agent/observe-agent.shared-buffer.ts:272-321 | For any run, whatever the collector answered and when: the same executions come under the cap as in full mode, and every batch, with its truncatedSpans, bills the same; only trees and executions that are no server error are missing |
| `IngestRuns.InFullAllAdmittedIsSent` | src/agent/observe-agent.shared-buffer.ts:259-321 | In full, over any run, what the batches carry is every execution that came under the cap, each once, and nothing else |
| `IngestRuns.ThinningKeepsServerErrors` | src/agent/observe-agent.shared-buffer.ts:584-594 | Every execution of the full run with a status of 500 or above, or with no status and an error, is in the thinned batch, its tree aside |
| `IngestRuns.RunStaysUnderTheCap` | src/agent/observe-agent.shared-buffer.ts:644-649 | Sent and withheld together never pass the cap, which never passes what the collector accepts in a section |
| `IngestRuns.LinesOfARunAreConserved` | src/agent/observe-agent.shared-buffer.ts:774-841 | The buffer's own runs keep the book of log lines balanced and bounded |
| `IngestRuns.RequestExportFollowsTheBatch` | src/agent/observe-agent.shared-buffer.ts:259-321 | Under a capped grant a request is exported exactly when the batch takes it, and with its tree exactly when the batch keeps the tree; under a full grant always and whole; else never |
| `IngestRuns.JobExportFollowsTheBatch` | src/agent/observe-agent.shared-buffer.ts:343-394 | The same for a job |
| `IngestRuns.CappedExportNeverExceedsTheBatch` | src/agent/observe-agent.shared-buffer.ts:533-572 | Over any run, whatever grants it reads: what was exported under a capped grant is in some batch, with its tree only if the batch has it |
| `IngestRuns.CappedGrantLapsesFirst` | src/agent/observe-agent.shared-buffer.ts:539-572 | Once both lines of the last reply are read, a live capped grant finds the agent degraded, unless that verdict was full |
| `IngestRuns.BetweenTheLines` | src/agent/observe-agent.worker.ts:676-692 | Between a reply's two lines it can be otherwise: a run where the capped grant is live and the agent not yet degraded |
| `IngestRuns.IngestingMeansLastAccepted` | src/agent/observe-agent.shared-buffer.ts:491-529 | Ingesting exactly when the latest of accepted, refused and stopped was accepted; reporting then or after a start since |
| `ShutdownDrain.AgentWorker.Flush` | src/agent/observe-agent.worker.ts:907-949 | Tops the batch up, writes it exactly when something is to be sent, the lock is free and it fits, and lets go of it whether or not it was written |
| `ShutdownDrain.AgentWorker.WriteNext` | src/agent/observe-agent.worker.ts:472-480 | A turn that finds the slot empty tops the batch up and writes what is to be sent whenever the lock is free and it fits; what it leaves of batch, backlog, slot and written batches is stated whole |
| `ShutdownDrain.AgentWorker.HandleMessage` | src/agent/observe-agent.worker.ts:655-702 | The first branch that knows a line takes it, and only that one's effect on the buffer and the pause happens |
| `ShutdownDrain.AgentWorker.WorkerExits` | src/agent/observe-agent.worker.ts:636-652 | A worker that exits has stopped, and is started again after an error, unless the agent is terminating |
| `ShutdownDrain.AgentWorker.FlushBeforeShutdown` | src/agent/observe-agent.worker.ts:426-514 | Ends within timeoutMs / 5 + 4 turns and overwrites no batch; a first look that can write does, before anything else, and that alone where it takes all there is; while nothing new comes in, a drain not done has found the worker ready at most once (twice with a last sample), so a worker that keeps finishing ends it done; done only with slot, batch, backlog and registry all empty; what is written is every batch handed off that fits; what comes in meanwhile reaches the buffer |
| `ShutdownDrain.DoneLeavesNoLineBehind` | src/agent/observe-agent.worker.ts:481-491 | After a drain that is done every line ever pushed was handed off or dropped for want of room; handed off counts the lines of a batch too large to write or discarded, and those withheld as it was written |
| `CounterMetric.Counter.constructor` | src/custom-metrics/counter.ts:217-249 | The initial value is the first thing recorded, replaced by nought where it is not finite |
| `CounterMetric.Counter.AdmitsSeries` | src/custom-metrics/counter.ts:52-90 | The latch changes no answer: a series is admitted exactly when it exists, or its key is short enough and there is room |
| `CounterMetric.Counter.Increment` | src/custom-metrics/counter.ts:316-352 | Throws, refuses or records in exactly the source's cases, and records exactly the amount, on top of the initial value for a new series |
| `CounterMetric.Counter.Increase` | src/custom-metrics/counter.ts:153-159 | The increase of each series is the sum of what was recorded since the last written report |
| `CounterMetric.Counter.MarkFlushed` | src/custom-metrics/counter.ts:168-170 | Closes the window and leaves the cumulative values |
| `CounterMetric.Counter.SeedAgain` | src/services/tracer.service.ts:192-211 | A counter asked for again with an initial value takes it exactly when it has no labels and reads nought; its window then holds what no handler reported |
| `MetricWindows.SumConcat` | src/custom-metrics/counter.ts:140-159 | The increases of two windows add up to the increase over both |
| `MetricWindows.TallyDifference` | src/custom-metrics/counter.ts:153-159 | The difference of two cumulative readings is the sum of what came between |
| `MetricWindows.LargestBounds` | src/custom-metrics/summary.ts:215-218 | The maximum reported is one of the observations and none is larger |
| `SummaryMetric.Summary.Observe` | src/custom-metrics/summary.ts:196-225 | Count, sum and maximum stay exact for every label; the sample stays a part of the observations and as large as it may be, whichever slot is drawn |
| `SummaryMetric.Summary.MarkFlushed` | src/custom-metrics/summary.ts:234-239 | Starts an empty window for every label |
| `SummaryMetric.SampledIsASample` | src/custom-metrics/summary.ts:249-259 | Replacing a slot keeps the sample within the observations, each as often as it was observed at most |
| `SummaryMetric.QuantileHoldsItsShare` | src/custom-metrics/summary.ts:264-275 | A quantile is one of the sample; at least its share of the sample is no larger and less than its share is smaller |
| `SummaryMetric.DistributionsMerge` | src/custom-metrics/summary.ts:112-140 | Counts and sums of two windows add, and the larger maximum is the maximum of both |
| `MetricDelivery.MetricBuffer.UpsertCustomMetric` | src/agent/observe-agent.shared-buffer.ts:727-755 | The search and replace on the list is a map update by name as sent, and the metric awaits a written batch |
| `MetricDelivery.ConservedExactlyWhenCovered` | src/agent/observe-agent.shared-buffer.ts:850-899 | From any state that has lost nothing, a run, seeding from outside included, loses nothing exactly when each write that succeeds holds, as it stands, every window it closes |
| `MetricDelivery.WindowsAreConservedExactlyWhenCovered` | src/agent/observe-agent.shared-buffer.ts:850-899 | Windows written and the one open add up to all a metric ever recorded, for every metric, exactly when each successful write held the window of every metric awaiting it as it then stood: not lost with a batch that failed, not replaced under its name, not seeded since |
| `MetricDelivery.IncreasesAddUp` | src/custom-metrics/counter.ts:140-170 | Then the increases reported and the one pending equal the cumulative value, series by series |
| `MetricDelivery.DistributionsAddUp` | src/custom-metrics/summary.ts:227-239 | Then the counts reported add up, and the largest of the maxima the batches reported and the pending one is the largest observation there ever was, label by label, empty sides included |
| `MetricDelivery.MaximumReportedIsDelivered` | src/custom-metrics/summary.ts:215-239 | Merging the maxima reported batch by batch gives the maximum of everything delivered |
| `MetricDelivery.LostAfterAFailedWrite` | src/agent/observe-agent.shared-buffer.ts:876-892 | Two metrics of any two names: a failed write, then a successful one without the first having changed in between, loses its window |
| `MetricDelivery.CoveredWhenApart` | src/agent/observe-agent.shared-buffer.ts:727-755 | With names apart as sent, a write covers what it closes exactly when each awaiting metric is in the batch and has not been seeded since it was put there |
| `MetricDelivery.ShortNamesStayApart` | src/utils/fit-to-length.util.ts:23-50 | Metrics apart in name stay apart as sent where no name is over a hundred characters |
| `MetricDelivery.CutNames` | src/utils/fit-to-length.util.ts:23-50 | A longer name is cut to a hundred characters at most: its own head, no half of a pair, a tilde and the hash |
| `MetricDelivery.LostWhenSeeded` | src/services/tracer.service.ts:192-211 | A counter put into the batch and then seeded loses the seed to the next successful write, whatever else there is |
| `MetricDelivery.SeedIsNeverReported` | src/services/tracer.service.ts:192-211 | A counter at nought, put into the batch, seeded to five, written, counted up by one and written: one reported in all, reading six |
| `MetricDelivery.LostUnderOneName` | src/encoders/custom-metrics.encoder.ts:155-157 | Two metrics of different names, one over a hundred characters and cut on the way out to the name of the other: writing the later closes, and loses, the earlier's window |
| `Backoff.NextIsAfter` | src/agent/detached-observe-worker.ts:580-584 | Doubling the wait that was kept, cut to the ceiling, is base times 2^(n-1) cut to the ceiling, for every n |
| `Backoff.AfterGrows` | src/agent/detached-observe-worker.ts:200-214 | The wait never shrinks along a row of failures and never passes the ceiling |
| `TraceExporter.Exporter.constructor` | src/otlp/otlp-trace-exporter.service.ts:120-131 | A new exporter holds nothing and waits for nothing |
| `TraceExporter.Exporter.Flush` | src/otlp/otlp-trace-exporter.service.ts:271-288 | Starts an export exactly when none is under way, something is queued and no retry is waiting; takes the front of the queue, a thousand at most |
| `TraceExporter.Exporter.Enqueue` | src/otlp/otlp-trace-exporter.service.ts:295-312 | An operation's spans are queued together, in order, or refused together and counted, the queue never passing 10,000 |
| `TraceExporter.Exporter.RetryLater` | src/otlp/otlp-trace-exporter.service.ts:378-395 | The batch goes back in front of the queue if it fits, else is dropped and counted; the next wait is the receiver's or the backoff of the failures in a row |
| `TraceExporter.Exporter.Receive` | src/otlp/otlp-trace-exporter.service.ts:318-372 | Each reply settles the batch with its fate or puts it back whole in front, and counts for the row of failures as it should |
| `TraceExporter.Exporter.SendEnds` | src/otlp/otlp-trace-exporter.service.ts:280-287 | After any reply every accepted span is settled, in flight or queued, in the order accepted; an operation is cut by what then leaves exactly when the batch leaves and one of its ends lies inside the operation; the next export starts only if no retry waits |
| `TraceExporter.Exporter.ExportedInOrder` | src/otlp/otlp-trace-exporter.service.ts:271-395 | The spans exported are a subsequence of those accepted, retries to the front notwithstanding |
| `TraceExporter.StatusesTriedAgain` | src/otlp/otlp-trace-exporter.service.ts:352-372 | 429, 502, 503 and 504 are tried again, 2xx is exported, anything else turned away |
| `TraceExporter.DelayMeans` | src/otlp/otlp-trace-exporter.service.ts:389-394 | The receiver's own wait counts from its first millisecond, up to five minutes; else the backoff |
| `TraceExporter.CutExactlyAtABoundary` | src/otlp/otlp-trace-exporter.service.ts:271-288 | A stretch of the accepted spans holds part of an operation and not all of it exactly when one of its ends lies inside the operation |
| `TraceExporter.RetryCutsExactly` | src/otlp/otlp-trace-exporter.service.ts:378-395 | A batch to be tried again takes an operation apart for good exactly when the queue has no room to take it back and one of its ends lies inside the operation |
| `TraceExporter.Exporter.FaredDifferently` | src/otlp/otlp-trace-exporter.service.ts:318-372 | Over the exporter's whole history, wherever two spans of one operation fared differently (dropped, turned away, not encoded, cut off at the close, exported) a batch ended inside the operation, between them |
| `TraceExporter.CutByARetry` | src/otlp/otlp-trace-exporter.service.ts:378-395 | A tree astride the thousandth span, a 503, and a queue too full by then: its first part is dropped and its last still queued |
| `TraceExporter.CutByARefusal` | src/otlp/otlp-trace-exporter.service.ts:318-372 | A tree astride the thousandth span whose first part is exported and whose last is turned away |
| `TraceExporter.Exporter.ShutDown` | src/otlp/otlp-trace-exporter.service.ts:513-535 | Drains for as long as it may and then closes; nothing left means an empty queue and nothing in flight; where every send is accepted all that has gone is exported, in order, and given two turns a batch all goes |
| `TraceExporter.Exporter.Drain` | src/otlp/otlp-trace-exporter.service.ts:537-574 | Ends for the deadline, a failed send, or with nothing queued, in flight or awaited; where every send is accepted what has gone since is exported, in order, and only the deadline ends it early, within two turns a batch |
| `SpanMapper.AppendNodeSpans` | src/otlp/otlp-span.mapper.ts:247-303 | The recursive pushes add a node and all below it in preorder, and nothing of a node still open |
| `SpanMapper.OperationSpans` | src/otlp/otlp-span.mapper.ts:122-174 | The operation's own span, and under it its forest, or that one span alone without the tree |
| `SpanMapper.ParentsComeFirst` | src/otlp/otlp-span.mapper.ts:247-303 | All spans are on one trace, and each is under the operation's span or under one that comes before it |
| `SpanMapper.ForestRebuilds` | src/otlp/otlp-span.mapper.ts:299-302 | Given distinct ids, rebuilding a forest by parent id out of a longer list gives exactly it, less the open nodes |
| `SpanMapper.FlatteningIsInvertible` | src/otlp/otlp-span.mapper.ts:122-303 | Given distinct ids, rebuilding by parentSpanId gives the operation with exactly the recorded forest, open nodes and their subtrees pruned, times and contents included |
| `SpanMapper.RecordedIsReadBack` | src/otlp/otlp-span.mapper.ts:122-303 | From the list of spans a reader makes out every finished node under its own parent, with its id, content, start and length, a negative one as nought |
| `SpanMapper.ToAttributes` | src/otlp/otlp-span.mapper.ts:401-428 | The first 128 attributes that hold something are carried, in order, and every other of them is counted |
| `WorkerLines.DecimalRoundTrip` | src/agent/degraded-ingest.protocol.ts:146-152 | A time posted in decimal reads back to the digit |
| `WorkerLines.NoMessageIsTwo` | src/agent/degraded-ingest.protocol.ts:97-175 | No text at all is accepted by two of the four parsers |
| `WorkerLines.VerdictReadsBack` | src/agent/detached-observe-worker.ts:719-736 | Whatever the reply says, its verdict's text reads back as errors-only over trimmed over paced over reduced, and full unless degraded |
| `WorkerLines.ReasonReadsBack` | src/agent/degraded-ingest.protocol.ts:121-132 | The pause's reason reads back exactly for an errors-only verdict |
| `WorkerLines.GrantReadsBack` | src/otlp/otlp-export-grant.ts:37-43 | A posted grant reads back as itself |
| `WorkerLines.LinesReadBack` | src/agent/observe-agent.worker.ts:655-702 | Every line the worker can post, its line at start-up included, is claimed by the branch meant for it and means what was meant |
| `WorkerLines.KnownLines` | src/agent/degraded-ingest.protocol.ts:15-175 | A line of each kind, letter by letter |
| `DetachedWorker.PausesAreBounded` | src/agent/detached-observe-worker.ts:193-198 | No pause outlasts an hour, whatever Retry-After asks |
| `DetachedWorker.PauseMeans` | src/agent/detached-observe-worker.ts:579-632 | 401 and 403 pause for the backoff, 429 for five minutes, either for what a Retry-After above nought asks, up to an hour; nothing else pauses |
| `DetachedWorker.Worker.constructor` | src/agent/detached-observe-worker.ts:184-224 | A new worker is not paused and has no backoff, and its history is empty |
| `DetachedWorker.Worker.Take` | src/agent/detached-observe-worker.ts:579-661 | What each answer does to backoff, count and pause, and the lines it leaves, branch by branch |
| `DetachedWorker.Worker.SendOne` | src/agent/detached-observe-worker.ts:515-766 | Over the worker's whole history: the backoff is min(base * 2^(n-1), one hour) for the n refusals since the last accepted batch, Retry-After or not, 429s leave it alone, and no send ever starts within a pause |
| `WorkerMessages.SendsAreHeard` | src/agent/detached-observe-worker.ts:690-743 | Printed, told apart and acted on, the lines of any send come to a grant, an acceptance and a verdict in that order, or a refusal, or nothing |
| `WorkerMessages.HeardAsAcceptedExactlyByItsOwnStatus` | src/agent/detached-observe-worker.ts:614-665 | Of a batch that got in the main thread hears so exactly when its own status was 2xx; of one that did not, never |
| `WorkerMessages.RepairedGoesUnheard` | src/agent/detached-observe-worker.ts:643-645 | A batch refused with 400, repaired and then accepted: it got in, and nothing at all is heard |
| `WorkerMessages.HistoryInOrder` | src/agent/detached-observe-worker.ts:690-736 | After any history of sends the main thread has read grants and verdicts in pairs, and the last verdict is the last accepted batch's |
| `WorkerMessages.AliveWhileDegraded` | src/agent/observe-agent.shared-buffer.ts:533-572 | After any history of sends a live capped grant finds the agent degraded, unless the last accepted batch was answered full |
| `WorkerMessages.IngestedWhileLastAccepted` | src/agent/observe-agent.shared-buffer.ts:467-529 | By what happened to the worker: ingested exactly while the latest of accepted, refused and stopped was accepted; no other outcome changes whether the app reports |
| `Objectives.QueueIsLevelOrder` | src/objectives/objectives.registry.ts:263-279 | A queue that takes children in at the back gives a forest out in level order |
| `Objectives.FirstIsShallowest` | src/objectives/objectives.registry.ts:259-262 | The first to declare in level order has no declaring span on any level above it |
| `Objectives.HandlerOf` | src/objectives/objectives.registry.ts:263-279 | Finds a declaring handler of minimum depth in the whole forest whenever one is among the first 200 spans in level order, and nothing otherwise |
| `Objectives.Registry.DeclarationFor` | src/objectives/objectives.registry.ts:208-257 | A declaration only for a named, not renamed, not too long route that is due: the shallowest declaring handler's, under its own verb or else the request's, and stated for that very route; over the registry's history statements of one route are an hour apart at least |
| `Objectives.RoutesApart` | src/objectives/objectives.registry.ts:236 | Routes are the same exactly when handler, verb and operation are |
| `Objectives.Registry.Declare` | src/agent/observe-agent.shared-buffer.ts:328-337 | A batch holds at most a hundred declarations; one at most is added, a declaring handler's under the request's operation, and the route marked stated is its own; none is added only with the batch full, nothing to declare, no handler found or the route not due; nothing is stated that the batch does not take |
| `ProducerLimits.EveryBatchFits` | src/agent/telemetry-wire-contract.ts:70-74 | Over any run every batch handed off holds no more requests, jobs or lines than the contract takes in their sections, the final flush of a whole backlog included |
| `ProducerLimits.EveryMetricNameFits` | src/encoders/custom-metrics.encoder.ts:4-13 | A metric's name as sent is one the contract takes, whatever it was |
| `ProducerLimits.DeclarationsFit` | src/agent/observe-agent.shared-buffer.ts:119-125 | A batch's declarations, and the route of each, are within what the contract takes |

## Left out

- Text as UTF-8: a string is its byte sequence in the OTLP encoding, its UTF-16 code units in the wire contract, and a sequence of characters elsewhere; encoding between them is not modelled.
- Floating point: a double is its 64-bit pattern in the OTLP encoding and a real elsewhere; a sum that overflows to infinity is not modelled, nor rounding. NaN and the infinities are their own cases where the code tests for them.
- HTTP, sockets, keep-alive, gzip and JSON text: a batch's encoded size is an arbitrary function of the batch, and a reply is any reply.
- JSON objects are finite maps, without the order of their keys, so the undeclared keys of one object are one report; getters and proxies are not modelled. The repair is on values: an entry aliased twice in one batch is not modelled.
- `encodeOtlpJson` and the protobuf of anything but traces: easy members beside the protobuf writer.
- The batch's optional fields: absent and empty (or nought) are one in the model. Its custom metrics are kept by `MetricDelivery.MetricBuffer`, apart from `SharedBuffer.Buffer`, and its objectives by `Objectives.Registry`.
- DetachedWorker.Worker.SendOne: a fault of the worker's own comes in place of an answer, not after part of one was acted on.
- What a span says: names, tags, errors and conventions are one opaque content; `w3cSpanIdOf` and `w3cTraceIdOf` are not part of this model, a node carries the id its span gets. `fitSpanText` and its latch are left out.
- `jobSnapshotSpans` builds its span otherwise and its list the same way as `requestSnapshotSpans`; `OperationSpans` stands for both.
- Clocks: each call reads the clock once, in whole milliseconds, so a mode that lapses within one call is not modelled; a Retry-After counts in whole milliseconds too, and where it is read off the header is a parameter.
- WorkerLines.DecimalRoundTrip: numbers are decimal digits, as the worker writes them; the other spellings `Number` accepts are not modelled.
- ShutdownDrain.AgentWorker.FlushBeforeShutdown: the worker thread finishes with the slot before a look or after the write, not between two accesses of one look; `SharedSlot` has every interleaving of those.
- TraceExporter.Exporter.Drain: time is taken to reach the deadline at some turn, since a reply may come in no measurable time.
- Summary sampling: which slot is drawn is arbitrary, so membership and size are proved and uniformity is not.
- Notices: wording, once-only warnings and debug lines, except where a latch decides an answer (the series cap, the reminder after 720 refusals).
- Gauges; the metric encoder's cutting of descriptions, labels and series keys. A name is cut as the source cuts it, with the hash it ends in a parameter.
- A metric's change handler is taken to put the metric into the batch at once (`src/services/tracer.service.ts:477-500`); setting a counter that is asked for again runs no handler, and is an action of its own.
- CounterMetric.Counter.SeedAgain: the initial value is finite, and the labels a metric has are those it was made with, though one asked for again may be given others.
- Objectives at boot: which handlers declare, the checks of each declaration and the refusal of handlers on several routes.
- `src/instrument`, `src/outgoing`, `src/cli`, profiling and option resolution: configuration, or code over libraries that are not part of this model.
