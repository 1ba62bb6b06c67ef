# Verified model of the Go connector's stateful parts

Reindexer is a document database; this project models the parts of its Go connector that
keep state between calls, and the two pieces of the C++ client that speak the same formats,
and proves what they promise. `dafny verify dfyconfig.toml` checks all of it.

| files | what they model |
|---|---|
| `EventsSpec`, `EventsQueue`, `EventsStream` | the events fan-out: one writer, up to 32 streams over a linked list of 1024-slot nodes with reference counts, and the goroutine that feeds a stream's channel |
| `ConnectionSlot`, `ConnectionProof`, `ConnectionTheorems`, `ConnectionRuns`, `ConnectionLimits`, `ConnectionErrors`, `ConnectionPool`, `ConnectionWriter` | the request multiplexer of a cproto connection: 512 request slots, recycled sequence numbers, calls, reader, deadline ticker and error sweep as an interleaving of atomic steps, and the write path |
| `CjsonTags`, `CjsonVarint`, `CjsonWire`, `CjsonTypes`, `CjsonFloats`, `CjsonCodec`, `CjsonRoundTrip`, `CjsonSame`, `CjsonProjection` | CJSON on document trees: tags, numbers, Go types and values, what encoding and decoding do, and when a value comes back |
| `CjsonCache`, `CjsonSerializer`, `CjsonWriter`, `CjsonDecoder`, `CjsonEncoder`, `CjsonFrame`, `CjsonState`, `CjsonTrip` | CJSON on bytes: the serializer, the encoder and the decoder as they work in place, their caches, the frame that carries new names, the state that holds it all, and the whole trip |
| `TxAsync`, `TxTheorems` | asynchronous modifications of a transaction: counter, completion channel, retries, latched error, commit |
| `DslTypes`, `DslCompiler` | JSON filters compiled to a bracketed operation stream through the query builder |
| `Paging`, `ObjectCache`, `Uuid` | paged results in Go and C++, the cache of decoded objects, UUID texts |

Three kinds of model occur. Code that updates objects in place is a class whose methods have
loops and frames of their own, proved against a specification function (the events queue, the
serializer, the decoder and encoder, the query builder, the iterators, UUID formatting). Code
whose point is interleaving is a transition system: a datatype of states, one action for each
atomic load or store, lock section or channel operation, and theorems over all finite runs
(the connection, its writer, transactions, the object cache, the wait for events). Arithmetic
and formats are functions with lemmas.

## What turned out otherwise than promised

Each point is a lemma that exhibits it, next to the exact condition under which the code does
what it says.

- A stream can sleep over an event, or over its own closing: `awaitEvent` gives up the queue
  locks before it counts itself as a waiter (`WakeUpCanBeLost`; it happens exactly when a push or
  the removal falls into that window, `StuckExactlyWhenMissed`, and over a closed stream it lasts
  until another stream comes, `ClosedSleepsForEver`).
- An asynchronous call that passes the error check before `onError` and registers after its
  sweep is never completed, whatever its deadline, because the deadline ticker ends with the
  first tick after the error (`AsyncCallCanBeStranded`, `StrandedForEver`). Once a connection is
  dead, every call is answered, then or ever, but for exactly those that stored their flag too
  late for the sweep and were not taken by the reader or the ticker (`AnsweredExactly`).
- A reply that is a full cycle of 1000000 uses of its slot late is returned by another call
  (`ReplyOneCycleLateIsMisrouted`), and only such a one can be (`MisroutedByWholeCycles`).
- Encoding panics on a nil slice of scalars behind a pointer without `omitempty`
  (`NilScalarsPanic`), and on nothing else in a covered type: `Encodes` is the exact condition.
- CJSON loses pointers to empty values and the sign of zero floats under `omitempty`, map
  entries whose value is nil, unsigned numbers other than 0 in arrays of fixed size, signaling
  NaNs of float32 outside slices, fields it passes over, and the fields of embedded structs with
  a `json` tag (`RoundTrip` is an equivalence with the predicate `ComesBack`;
  `TaggedEmbeddingIsLost`). When such a struct has a field named like the tag, decoding can even
  fail (`TagAsInnerNameFails`).
- An asynchronous operation started by another goroutine after the wait inside `Commit` is
  committed around (`LateOperationIsCommittedAround`).
- A synchronous modification in a transaction reports success after two invalidated states
  (`ModifyInternal`).
- A subquery with a `count_cached` aggregation passes the first check and is refused by the
  second (`SubqueryAccepted` says exactly which subqueries are accepted).
- The version of an item in the object cache can go down when two calls unpack the same item at
  once (`InterruptedLowers`): exactly when another call put a newer version between the lookup and
  the insertion of a call and it is still there (`LowersExactly`), so never in runs whose calls on
  one key do not overlap (`NeverLowersInTurn`).
- The reference counts of the events queue over-count after a stream is removed before its
  cursor was ever resolved; the model carries the surplus as `leaked`, and the links that readers
  need are there all the same (`NeededLinks`).

## Model

| member | source | states |
|---|---|---|
| `EventsSpec.StepCursor` | events/eventshandler.go:140-279 | no step shortens the log or moves the cursor of a stream other than by that stream's own read, and a new stream starts at the end of the log |
| `EventsSpec.ExactlyOnceDelivery` | events/eventshandler.go:230-279 | over every interleaving of push, create, remove and read, the slices a live stream has read concatenate to the log from its creation to its cursor: each event once, in order |
| `EventsSpec.LogOnlyGrows` | events/eventshandler.go:398-449 | whatever happens after a run, the log of accepted events before is a prefix of the log after |
| `EventsSpec.DeliverableConcat` | events/eventsstream.go:107-127 | filtering by mask and cutting at the first visible error gives the same chunk by chunk as on the whole stretch of the log |
| `EventsSpec.ErrorsReachEveryStream` | events/eventshandler.go:398-449 | over every run, an error in the log is visible to every stream id, since pushing one sets every bit of its mask |
| `EventsQueue.EventsHandler.PushEventToQueue` | events/eventshandler.go:398-449 | an error, or an event that could be parsed, is appended to the log exactly when somebody is subscribed, the error with a mask for all streams; the invariant on nodes, links and counts is kept |
| `EventsQueue.EventsHandler.LinkNewNode` | events/eventshandler.go:420-447 | at a multiple of 1024 a node is linked in front of the others and still implements the longer log |
| `EventsQueue.EventsHandler.Attach` | events/eventshandler.go:437-445 | the old tail and the new one are linked exactly when the old tail is still referred to |
| `EventsQueue.EventsHandler.CreateStream` | events/eventshandler.go:140-179 | the lowest free id is taken and the stream begins at the present end of the log; full or refused, nothing changes |
| `EventsQueue.EventsHandler.RemoveStream` | events/eventshandler.go:181-216 | the stream is gone exactly when the handle is the registered one, other streams keep everything they had to read |
| `EventsQueue.EventsHandler.DropAll` | events/eventshandler.go:204-208 | walking from the cursor to the tail gives up one reference on each node passed, and cuts a back link where it was the last |
| `EventsQueue.EventsHandler.RemoveRef` | events/eventshandler.go:281-290 | one reference less, and the way back into the node is cut when none is left |
| `EventsQueue.EventsHandler.ReadEvents` | events/eventshandler.go:230-279 | a registered live stream gets the rest of its node from its cursor or has nothing to read; the answer "invalid next event id" never comes out |
| `EventsQueue.EventsHandler.Resume` | events/eventshandler.go:248-279 | after a wait the stream finds out that it was closed, or reads as before |
| `EventsQueue.EventsHandler.Recover` | events/eventshandler.go:257-265 | walking the back links from the tail ends at the node that holds the cursor |
| `EventsQueue.EventsHandler.TakeSlice` | events/eventshandler.go:267-276 | what is left of the node is copied out, and a full node is given up for the next |
| `EventsQueue.NeededLinks` | events/eventshandler.go:205-212 | every node from a live stream's cursor on is referred to, and linked in both directions up to the tail |
| `EventsQueue.StoredLink` | events/eventshandler.go:433-446 | linking a node keeps the counting invariant: refs is the number of streams yet to pass, plus a surplus |
| `EventsQueue.StoredCreate` | events/eventshandler.go:163-174 | a new stream is counted on the tail exactly when it has to pass it |
| `EventsQueue.StoredRemove` | events/eventshandler.go:203-210 | removal keeps the counting invariant, with the cursor resolved or not |
| `EventsQueue.StoredRead` | events/eventshandler.go:267-274 | a read keeps the counting invariant, across the edge of a node or not |
| `EventsQueue.NodeOfCursor` | events/eventshandler.go:257-274 | a cursor with something to read stands in an existing node, and its read is the rest of that node |
| `EventsStreamLoop.BgRoutine` | events/eventsstream.go:107-127 | what is sent is the visible events read so far, cut at the first visible error or where the stream was closed, and the loop ends for that reason |
| `EventsStreamLoop.SendChunk` | events/eventsstream.go:113-126 | the same of one slice of events |
| `EventsStreamLoop.UserSeesFilteredLog` | events/eventsstream.go:107-127 | end to end over every run: what the goroutine sends, run on the reads of its stream, and why it ends, are those of the stream's part of the log, filtered, in order, each event once |
| `EventsStreamLoop.Serve` | events/eventsstream.go:107-127 | the goroutine itself, run on the reads of its stream |
| `EventsWait.StuckExactlyWhenMissed` | events/eventshandler.go:181-228 | in every run of reader, pusher, removals and other streams, a sleeping reader has been forgotten, over an event or over its closing, exactly when a push or a removal fell between giving up the locks and falling asleep |
| `EventsWait.ClosedSleepsForEver` | events/eventshandler.go:205-214 | forgotten over its closing it sleeps for ever while no other stream is subscribed |
| `EventsWait.WakeUpCanBeLost` | events/eventshandler.go:181-228 | a run in which a push is lost and one in which the closing is |
| `SeqNums.ClosedForm` | bindings/cproto/connection.go:499-505 | the number a slot uses the n-th time is slot + 512 * (n mod 1000000) |
| `SeqNums.SameNumber` | bindings/cproto/connection.go:499-505 | numbers never change their slot, and two uses share a number exactly when they are of one slot and a multiple of 1000000 uses apart |
| `ConnectionInvariant.SyncKeepsTokens` | bindings/cproto/connection.go:599-647 | every step of a synchronous call that has its number keeps the one token of the slot in exactly one place |
| `ConnectionInvariant.EntryKeepsTokens` | bindings/cproto/connection.go:535-576 | so does asking for a number, getting it, and giving up, for both kinds of call |
| `ConnectionInvariant.AsyncKeepsLocks` | bindings/cproto/connection.go:578-594 | starting an asynchronous call keeps completion, flag and lock in step |
| `ConnectionInvariant.ReaderKeepsShown` | bindings/cproto/connection.go:413-427 | the reader keeps the shown number equal to the slot's current one for as long as a call may be answered |
| `ConnectionInvariant.TickerKeepsTokens` | bindings/cproto/connection.go:240-260 | an expired deadline takes the token over and hands on its successor |
| `ConnectionInvariant.SweepKeepsTokens` | bindings/cproto/connection.go:687-704 | so does the error sweep |
| `ConnectionTheorems.SameNumberMatches` | bindings/cproto/connection.go:385-395 | comparing numbers proves that reply and call are a multiple of 1000000 uses apart, and the same call if the reply is recent |
| `ConnectionRuns.StepGood` | bindings/cproto/connection.go:222-711 | every atomic step of every party keeps the whole invariant of a slot |
| `ConnectionRuns.ReplyMatching` | bindings/cproto/connection.go:385-430 | over every run in which no reply is held for a full cycle, a reply returned by a call or handed to a completion answers that call, despite timeouts, slot reuse and repeated answers |
| `ConnectionRuns.MisroutedByWholeCycles` | bindings/cproto/connection.go:385-430 | without that proviso a reply, returned or handed to a completion, can only reach a call a whole number of cycles away |
| `ConnectionRuns.TokenConserved` | bindings/cproto/connection.go:535-553 | in every reachable state exactly one place has the slot's number, and in the channel it is the next unused one |
| `ConnectionRuns.CompletionsFireOnce` | bindings/cproto/connection.go:413-427 | across reader, ticker and sweep a completion is called at most once, and after its number went back |
| `ConnectionRuns.EveryCallIsAnswered` | bindings/cproto/connection.go:562-647 | a call that came to a slot has its result, or holds the number, or is about to have its completion called |
| `ConnectionRuns.StuckHasDrainer` | bindings/cproto/connection.go:428-430 | a reader facing a full reply channel before any error is still in the current use of the slot, whose holder has yet to empty the channel and can go on |
| `ConnectionRuns.StuckReaderIsFreed` | bindings/cproto/connection.go:428-430 | no step puts that off, and every step of the holder brings it nearer |
| `ConnectionLimits.ReplyOneCycleLateIsMisrouted` | bindings/cproto/connection.go:499-505 | a run in which call 1000000 returns the reply to call 0: the proviso of reply matching is needed |
| `ConnectionErrors.StepNoted` | bindings/cproto/connection.go:222-711 | every step keeps the accounting of which calls stored their flag in time for the sweep and which the reader or the ticker took |
| `ConnectionErrors.AnsweredExactly` | bindings/cproto/connection.go:226-233 | over every run: once reader, ticker and sweep have ended, a call that came to the slot is answered, now or at any later time, if and only if it is not one that stored its flag too late for the sweep and was taken by neither reader nor ticker |
| `ConnectionErrors.StrandedForEver` | bindings/cproto/connection.go:687-706 | a call registered behind the sweep is never completed, and the number of its slot never comes back |
| `ConnectionErrors.AsyncCallCanBeStranded` | bindings/cproto/connection.go:562-596 | a run that leads there, for every deadline |
| `ConnectionPool.SlotsRunAlone` | bindings/cproto/connection.go:138-138 | each of the 512 slots goes through a run of its own, so the theorems on one slot hold of all |
| `ConnectionPool.SendsNeverBlock` | bindings/cproto/connection.go:535-553 | over every run of the 512 slots, a send into the channel of numbers finds room |
| `ConnectionPool.TakesTheSlotsNumber` | bindings/cproto/connection.go:578-579 | a number taken from the channel is the one its slot has out |
| `ConnectionWriter.PacketsInLockOrder` | bindings/cproto/connection.go:462-497 | socket, buffer being written and buffer waiting are together the packets in the order write had the lock |
| `ConnectionWriter.NoLostWakeUp` | bindings/cproto/connection.go:462-486 | waiting bytes and no error mean that a kick is pending or some goroutine is about to see to them |
| `ConnectionWriter.IdleMeansWritten` | bindings/cproto/connection.go:472-497 | without an error, when nothing is left to do everything has been written |
| `CTags.OrDisjoint` | cjson/ctag.go:74-76 | bitwise or of fields that do not overlap is their sum, for fields of any width |
| `CTags.CTagFields` | cjson/ctag.go:31-76 | type, name and field put into a tag come out again |
| `CTags.NameComesBack` | cjson/ctag.go:31-76 | without a field number the name comes back exactly when it is below 4096 |
| `CTags.CArrayTagFields` | cjson/ctag.go:85-95 | count below 2^24 and element tag of an array come out again |
| `Varint.ReadsFrom` | cjson/serializer.go:475-485 | reading a number from the middle of its bytes, with what was read before, gives the number and the length |
| `Varint.ReadsBack` | cjson/serializer.go:331-351 | every 64-bit number is read back from its bytes, whatever follows |
| `Varint.ZigZagInverse` | cjson/serializer.go:307-329 | the zig-zag map is undone by the reader's |
| `CjsonWire.TagOf` | cjson/ctagsmatcher.go:47-64 | a name has a tag exactly when it is in the dictionary, and the tag leads to the name |
| `CjsonWire.TagStays` | cjson/ctagsmatcher.go:47-64 | names added later do not move the tags of names there before |
| `CjsonWire.LEInverse` | cjson/serializer.go:88-131 | fixed-width numbers are read back |
| `CjsonSerializer.Serializer.Reserve` | cjson/serializer.go:50-56 | room for more bytes, none of the old ones changed |
| `CjsonSerializer.Serializer.Grow` | cjson/serializer.go:58-65 | the buffer is longer and begins with what it held |
| `CjsonSerializer.Serializer.Write` | cjson/serializer.go:228-234 | the bytes are appended |
| `CjsonSerializer.Serializer.PutUvarint` | cjson/serializer.go:350-351 | writing digit by digit in place leaves the bytes of the number, at most ten |
| `CjsonSerializer.Serializer.PutVarUInt` | cjson/serializer.go:331-356 | the fast paths for one, two and three bytes and the slow path append the same encoding |
| `CjsonSerializer.Serializer.PutVarInt` | cjson/serializer.go:307-329 | likewise for signed numbers, zig-zagged |
| `CjsonSerializer.Serializer.PutVString` | cjson/serializer.go:370-378 | length and text are appended |
| `CjsonSerializer.Serializer.GetVarUInt` | cjson/serializer.go:475-485 | the fast path and the library call read the same, errors and their position included |
| `CjsonSerializer.Serializer.GetVarInt` | cjson/serializer.go:497-531 | the fast paths for one, two and three bytes agree with the slow one |
| `CjsonSerializer.Serializer.GetLE` | cjson/serializer.go:397-439 | a fixed-width number, or a refusal that leaves the position |
| `CjsonSerializer.Serializer.SkipVString` | cjson/serializer.go:462-468 | the position moves over length and text exactly when they are there |
| `CjsonSerializer.Serializer.GetVString` | cjson/serializer.go:533-542 | the text is the bytes between its length and its end, and is refused exactly when they are not in the buffer |
| `CjsonSerializer.Serializer.MoveUp` | cjson/encoder.go:952-954 | the overlapping copy moves the payload up by five bytes unchanged |
| `CjsonSerializer.Serializer.Frame` | cjson/encoder.go:951-956 | end tag and offset come to stand in front of the untouched payload |
| `CTagsCache.AddChangesNothing` | cjson/ctagscache.go:37-54 | making room for a path in the trie changes the answer for no path |
| `CTagsCache.StoreChangesOne` | cjson/ctagscache.go:26-54 | storing under a path changes the answer for that path only |
| `Floats.NarrowWiden` | cjson/encoder.go:852-860 | every float32 bit pattern survives being widened to float64 and narrowed again, but for signaling NaNs, which come back quiet |
| `GoTypes.Locate` | cjson/decoder.go:33-53 | a name is found exactly when some field answers to it through embedding, and the index path leads to a field |
| `CjsonRoundTrip.ElemTrip` | cjson/encoder.go:634-825 | scalars of slices and arrays through the codec, unsigned ones and signaling NaNs of fixed arrays changed as they are |
| `CjsonRoundTrip.ValueTrip` | cjson/encoder.go:827-935 | for every value of every covered type, what its document decodes to in a zero value |
| `CjsonRoundTrip.FieldsTrip` | cjson/encoder.go:127-212 | the fields of a struct, embedded structs flattened, each come back to their own place, and those of a tagged embedded struct to none |
| `CjsonRoundTrip.EntriesTrip` | cjson/encoder.go:231-262 | the entries of a map, without those that are written as null |
| `CjsonRoundTrip.DecAppend` | cjson/decoder.go:746-748 | documents decode one after another into the same object, counters carried on |
| `CjsonSame.SameContent` | cjson/encoder.go:827-935 | the content of a value comes back, up to nil versus empty containers, exactly when the value is kept |
| `CjsonSame.RoundTrip` | cjson/encoder.go:963-979 | encoding a struct succeeds exactly when no nil slice of scalars is written behind a pointer; decoding into a zero value then succeeds, and gives the original content if and only if `ComesBack` holds |
| `CjsonSame.NilScalarsPanic` | cjson/encoder.go:671-677 | a pointer to a nil slice of scalars, for any type of scalar, is a value the encoder panics on |
| `CjsonSame.TaggedEmbeddingIsLost` | cjson/decoder.go:39-47 | whatever a tagged embedded struct holds, its fields are encoded in place and not found again: it comes back zero |
| `CjsonSame.TagAsInnerNameFails` | cjson/decoder.go:39-47 | with a field named like the tag, decoding what was encoded fails |
| `CjsonDecoder.Decoder.SkipStruct` | cjson/decoder.go:67-108 | skipping a value leaves the position behind it and each counter where decoding leaves it |
| `CjsonDecoder.Decoder.SkipTag` | cjson/decoder.go:109-127 | skipping one scalar |
| `CjsonDecoder.Decoder.SkipFields` | cjson/decoder.go:88-90 | skipping the values of an object up to its end tag |
| `CjsonDecoder.Decoder.SkipElems` | cjson/decoder.go:91-102 | skipping the elements of an array of objects |
| `CjsonDecoder.Decoder.Resolve` | cjson/decoder.go:671-699 | whatever the caches hold, a name is resolved as fieldByTag resolves it |
| `CjsonDecoder.Decoder.AddNewTag` | cjson/decoder.go:604-618 | the answer goes into the trie or the set of missing paths, and all answers stay right |
| `CjsonDecoder.Decoder.DecodeValue` | cjson/decoder.go:628-845 | decoding bytes in place is decoding the document they stand for: value, success, position and counters |
| `CjsonDecoder.Decoder.DecodeNamed` | cjson/decoder.go:654-702 | a named value goes to its map entry or field, or is skipped when the type lacks it |
| `CjsonDecoder.Decoder.DecodeEntry` | cjson/decoder.go:824-842 | a map entry gets the decoded value, and the address of a zero value where an empty array leaves a pointer nil |
| `CjsonDecoder.Decoder.PutValue` | cjson/decoder.go:703-745 | pointers are allocated on the way, and an empty array leaves zero in what is no list |
| `CjsonDecoder.Decoder.PutIndexed` | cjson/decoder.go:716-737 | a value kept in the payload is taken at the counter of its field, which moves on |
| `CjsonDecoder.Decoder.DecodeSlice` | cjson/decoder.go:344-602 | a list goes behind what a slice has or over the start of a fixed array, or is refused |
| `CjsonDecoder.Decoder.DecodeElems` | cjson/decoder.go:597-601 | the elements one by one, counters carried from each to the next |
| `CjsonDecoder.Decoder.DecodeFields` | cjson/decoder.go:746-748 | the values of an object up to its end tag |
| `CjsonDecoder.Decoder.Decode` | cjson/decoder.go:903-945 | the result is that of decoding the tree, for any right caches, and the caches stay right even on failure |
| `CjsonProjection.Projection` | cjson/decoder.go:654-702 | for every narrower type, fields removed at any depth through structs, embedding, pointers, slices, arrays and maps: what decodes into the wider type decodes into the narrower one, to the projection of the value, payload positions included |
| `CjsonProjection.AllNarrowed` | cjson/decoder.go:746-748 | the same of a run of documents decoded into one object |
| `CjsonProjection.LocateNarrowed` | cjson/decoder.go:33-53 | names that stay are found in the narrower type at the corresponding index path, and names that went are not found |
| `CjsonProjection.NarrowTrip` | cjson/decoder.go:903-945 | encoding a struct and decoding it into any narrower struct gives the projection of what decoding it into its own type gives |
| `CjsonEncoder.LearnExtends` | cjson/encoder.go:214-229 | looking names up adds them to the dictionary and moves none |
| `CjsonEncoder.SameBytes` | cjson/encoder.go:214-229 | bytes written under a dictionary are the bytes under any dictionary grown from it |
| `CjsonEncoder.LookupField` | cjson/ctagscache.go:67-79 | the cache grows by empty entries up to the field and keeps the others |
| `CjsonEncoder.Encoder.Name2Tag` | cjson/encoder.go:214-229 | the tag of the name, in a copy of the dictionary once a name is new |
| `CjsonEncoder.Encoder.FieldInfo` | cjson/encoder.go:134-181 | from the cache or from reflection, the same is known of a field; only tags of the committed dictionary go into the cache |
| `CjsonEncoder.Encoder.EncodeStruct` | cjson/encoder.go:127-212 | the bytes are those of the struct's documents whatever the cache holds, and the cache stays right |
| `CjsonEncoder.Encoder.EncodeValue` | cjson/encoder.go:827-935 | the same of any value of a covered type, or the panic, exactly when it is due |
| `CjsonEncoder.Encoder.EncodeScalar` | cjson/encoder.go:839-888 | the same of a scalar, left out when zero under omitempty |
| `CjsonEncoder.Encoder.EncodeMap` | cjson/encoder.go:231-262 | the same of a map's entries, their keys learnt in order |
| `CjsonEncoder.Encoder.EncodeSlice` | cjson/encoder.go:634-825 | the same of slices and arrays, scalars packed under one subtag from the memory of the list, which a nil slice does not have |
| `CjsonEncoder.Encoder.EncodeElems` | cjson/encoder.go:754-764 | the same of the elements of an array of objects |
| `CjsonEncoder.Encoder.EncodeRaw` | cjson/encoder.go:963-979 | bytes and new dictionary depend on value and old dictionary only, not on the cache |
| `CjsonEncoder.Encoder.Encode` | cjson/encoder.go:937-961 | likewise, with new names in a frame behind the payload and the dictionary left as it was |
| `CjsonEncoder.Encoder.WriteUpdated` | cjson/ctagsmatcher.go:28-33 | the whole dictionary is appended, in order |
| `CjsonFrame.SameFrame` | cpp_src/client/itemimplbase.cc:159-178 | the C++ writer, which patches the offset in afterwards, produces the frame the Go writer produces |
| `CjsonFrame.FrameRecovered` | cpp_src/client/itemimplbase.cc:23-57 | the reader gets back exactly the payload and the dictionary that were framed |
| `CjsonFrame.UnframedIsPayload` | cpp_src/client/itemimplbase.cc:23-34 | bytes that start with a document are never taken for a frame |
| `CjsonFrame.ReadTags` | cjson/ctagsmatcher.go:10-26 | a dictionary that was written is read back, or passed over |
| `CjsonState.State.ReadPayloadType` | cjson/state.go:39-58 | a known version keeps dictionary and caches, any other replaces the one and drops the others |
| `CjsonState.State.Decode` | cjson/state.go:87-109 | with the cache found for the type, or an empty one, decoding gives what it gives without any; the cache is kept and stays right |
| `CjsonState.State.EncodeRaw` | cjson/encoder.go:963-979 | committing new names leaves every read cache of the state right |
| `CjsonState.State.Encode` | cjson/encoder.go:937-961 | encoding leaves the dictionary of the state alone |
| `CjsonState.State.Copy` | cjson/state.go:30-37 | a copy shares the data |
| `CjsonState.CachesStay` | cjson/encoder.go:975-977 | cached index paths right under a dictionary are right under any that has more names |
| `CjsonState.ReplacedDictionaryNeedsNewCaches` | cjson/state.go:46-54 | under a replaced dictionary a cached path can be wrong, so the caches have to go |
| `CjsonTrip.ThereAndBack` | cjson/encoder.go:963-979 | through bytes: EncodeRaw then Decode under one state with any dictionary and caches; encoding succeeds exactly when it does not panic, and the content is there again exactly when `ComesBack` holds |
| `CjsonTrip.ReadItem` | cpp_src/client/itemimplbase.cc:23-57 | a reader with the dictionary from before, given an item in a frame or without, decodes the document under the dictionary the item was written with |
| `CjsonTrip.ThereAndBackInFrame` | cjson/encoder.go:937-961 | Encode and that reader: the same guarantee as under a shared state, the writer's dictionary untouched |
| `TxAsync.StepGood` | tx.go:488-627 | every atomic step of callers, completion routine and commit keeps the invariant |
| `TxTheorems.AsyncAccounting` | tx.go:527-584 | the counter is the number of requests under way and at most 500, and bounds the completion channel of 1000, so no send into it waits |
| `TxTheorems.CompletedOnce` | tx.go:498-525 | a request goes out at most twice, its completion is called at most once, and for every accepted request when the counter is zero |
| `TxTheorems.NeverStuck` | tx.go:498-584 | while requests are under way some step other than a new request is possible |
| `TxTheorems.AtomicCommit` | tx.go:587-609 | at CommitTx every accepted modification that came in before the wait ended has completed, none of those with an error, whatever came in later; RollbackTx only with a latched error |
| `TxTheorems.FailureDecides` | tx.go:488-524 | one of those completed with an error makes the commit fail, whatever came in later |
| `TxTheorems.LateOperationIsCommittedAround` | tx.go:412-421 | a run in which an accepted operation is still under way at CommitTx |
| `TxTheorems.ModifyInternal` | tx.go:444-476 | success is reported exactly when an attempt succeeded or both found the state invalidated |
| `DslTypes.ReadBack` | query.go:530-625 | the operation stream of any condition tree reads back as that tree, nested subqueries and equal positions at their brackets included |
| `DslTypes.ToksConcat` | query.go:555-612 | entries are numbered in preorder, so that streams of lists of entries concatenate |
| `DslCompiler.Query.Where` | query.go:408-559 | the condition takes the pending operator and the next entry number, and the operator is AND again |
| `DslCompiler.Query.WhereQuery` | query.go:565-590 | likewise for a subquery |
| `DslCompiler.Query.OpenBracket` | query.go:605-612 | the bracket takes operator and number and is pushed |
| `DslCompiler.Query.CloseBracket` | query.go:615-625 | the last bracket is popped; the requires is that neither panic of the code is reached |
| `DslCompiler.Query.EqualPosition` | query.go:1616-1628 | the fields are tied to the innermost open bracket by its number |
| `DslCompiler.HandleFilters` | reindexer_impl.go:1173-1262 | succeeds exactly when the filters have a meaning, and then appends the stream of it, with operator and brackets as before |
| `DslCompiler.EachFilter` | reindexer_impl.go:1177-1255 | the loop over the filters of one bracket, and what it notes for equal positions |
| `DslCompiler.HandleGroup` | reindexer_impl.go:1219-1237 | nested filters between brackets; closing never panics |
| `DslCompiler.AddFilter` | reindexer_impl.go:1007-1024 | a condition without a value is skipped and leaves no operator behind |
| `DslCompiler.AddSubquery` | reindexer_impl.go:1082-1171 | all checks in their order, step by step, and the subquery compiled on its own |
| `DslCompiler.SubqueryAccepted` | reindexer_impl.go:1082-1151 | what the checks come to: for existence nothing but filters, otherwise exactly one column, a selected field, the total or one numeric or count aggregation; count_cached never |
| `DslCompiler.AddAggregations` | reindexer_impl.go:1305-1337 | the aggregations are added in order, or the first fault is reported |
| `DslCompiler.ProcessEqualPositions` | reindexer_impl.go:1264-1303 | equal positions only for fields with AND conditions in the same bracket, first fault first |
| `DslCompiler.QueryFrom` | reindexer_impl.go:1339-1371 | for every join-free request: accepted exactly when namespace, aggregations and filters have no fault, with the first fault otherwise, and the stream then reads as the meaning of the filters, with no bracket open and no operator pending |
| `Paging.Iterator.FetchResults` | iterator.go:433-473 | the page that starts where the iterator stands, or an error and nothing changed |
| `Paging.Iterator.Next` | iterator.go:330-347 | the next of the flat results, until there are none, and an error exactly when a needed fetch fails or the item cannot be decoded |
| `Paging.Iterator.FetchAll` | iterator.go:596-609 | all results in order over any pages; after a failure those before it and empty places |
| `Paging.CoroIterator.ReadNext` | cpp_src/client/coroqueryresults.cc:514-551 | the item read is the one the index stands for |
| `Paging.CoroIterator.Advance` | cpp_src/client/coroqueryresults.cc:553-568 | one step forward keeps the page window, and the status is bad exactly when a needed fetch failed |
| `Paging.CoroIterator.FetchNext` | cpp_src/client/coroqueryresults.cc:109-140 | a usable answer becomes the window at the index |
| `Paging.CoroIterator.Traverse` | cpp_src/client/coroqueryresults.cc:553-568 | the loop ends after exactly qcount steps whatever fails, with each item once and in order up to the first failure |
| `ObjectCache.CacheAgrees` | bindings.go:132-203 | over every interleaving of lookups, insertions, evictions and changes by callers, a result is what decoding afresh gives, and no cached object goes to a caller without unsafe access |
| `ObjectCache.LowersExactly` | bindings.go:145-172 | over the run between its lookup and its insertion: an insertion that puts lowers the cached version if and only if another call put a newer one of the same sharding version in between that is still there |
| `ObjectCache.NeverLowersInTurn` | bindings.go:145-172 | in every run whose calls on one key do not overlap between lookup and insertion, no step lowers a cached version |
| `ObjectCache.InterruptedLowers` | bindings.go:145-172 | a run in which it happens |
| `FFByte.HasFFExact` | cjson/parse_uuid_fast_fallback.go:36-39 | the bit trick finds a byte ff exactly when there is one |
| `Uuid.PairTable` | cjson/parse_uuid_fast_fallback.go:15-34 | the table has the value of each pair of hex digits, and ff for every other pair |
| `Uuid.FastAgrees` | cjson/parse_uuid_fast_fallback.go:5-80 | for every text, result and error of the parser by pairs of digits with the slow one behind it are those of the slow one alone, which works digit by digit |
| `Uuid.NibblesAreWords` | cjson/encoder.go:292-632 | the 32 steps that or one digit each into the number give the number made of the pairs of digits, and stop at the first character that is no digit |
| `Uuid.FormatThenParse` | cjson/encoder.go:292-632 | parsing what was formatted gives the number back, without error exactly when it is zero or its top variant bit is set |
| `Uuid.ParseThenFormat` | cjson/encoder.go:292-632 | formatting what was parsed gives the canonical lower-case form with dashes |
| `Uuid.PutHexByte` | cjson/creflect.go:204-208 | one byte becomes its two digits in place |
| `Uuid.CreateUuid` | cjson/creflect.go:210-233 | the buffer filled byte by byte is the text of the UUID |

## Left out

- Decoder.GetVarUInt: a number that is cut off or has more than 64 bits ends decoding, where the code reads 0 and goes on; theorems speak of well-formed tuples.
- ReplyMatching: with the proviso that no reply is held for 1000000 uses of its slot, which is needed (`ReplyOneCycleLateIsMisrouted`).
- ThereAndBack: for the types of `GoTypes.Covered` and lists below 2^24 elements under fewer than 4096 names.
- ThereAndBackInFrame: likewise, for payloads below 4 GiB.
- State.Decode: creating a decoder and decoding with it are one step, and the lock is held throughout, where the code gives up the read lock for a moment to add a tag.
- State.ReadPayloadType: the dictionary only; the payload type behind it in the bytes is not read.
- Events queue: the 1024 slots of a node are a sequence in the node; locks are taken as given, one method for each critical section, with one writer; recovering from a panic in `bgRoutine` and parsing events are left out.
- Subscription options sent to the server when streams come and go.
- Connection: sockets, TLS, login, compression, pooled buffers and the closing of results whose reply is dropped; time is a step that may happen at any moment.
- CJSON: base64 byte slices, `time.Time`, interface values, map keys other than strings, strings tagged as UUIDs inside items, conversions between integers and floats, rounding of doubles that are no float32 into float32 fields, float-vector payload fields, pointers to pointers and embedded pointers, recursive Go types (their finite unfoldings are types here).
- Maps: entries are in some fixed order, which stands for whatever order Go picks.
- The payload of an item is a map from fields to scalars, not raw memory; JSON string views and cgo pointers are left out.
- Caches and dictionaries are values that are stored back, so that sharing of backing arrays between copies of a dictionary is not modelled; the write cache of a state serves one item type.
- Transactions: the panic of the completion routine on a resend that panics, sends into the closed completion channel by operations after the end, Rollback.
- Query builder: joins, sorting, explain and rank flags, the deprecated distinct, aggregation texts and the bytes of tokens and values; operator and condition texts are classified beforehand.
- Paging: what an item holds, joined items, lazy mode; positions in a page of the C++ client are counted in items, and a server's pages are not empty.
- Object cache: decoding itself, and which item types can be copied deeply; the least recently used order is any eviction at any time.
- UUID: the two 64-bit words are modelled by their sixteen bytes; the assembly parser for amd64 is not part of this model.
- Reconnecting, load balancing, DSN parsing, JSON schema, metrics and tracing: no state that a theorem here would be about.
