# Verified model of a Kafka client

A Dafny model of the hard parts of this Go client for Apache Kafka, with proofs. Values are
datatypes and functions; whatever the client changes step by step is a class with methods, or a
state machine whose steps are the atomic actions of the goroutines. `dafny verify dfyconfig.toml`
checks everything.

## What is modelled

**The wire** (`Wire`, `Snappy`, `MessageSet`, `MixedSets`, `Responses`, `Frames`, `Cuts`, with
`Formats` for what stands where in the bytes, the imperative readers and writers in `MessageSetIO`
and `ResponsesIO`, and one request on a connection in `Requests`). It follows "A Guide To The Kafka
Protocol", sections "Protocol Primitive Types", "Common Request and Response Structure", "Message
sets" and "Compression". Every reader exists twice: as a function from bytes to a result, about
which the round trips are proved, and as a method on a stream with limits, a sticky error and reused
buffers, which is proved to compute that function and to leave the stream where the function says. CRC-32, gzip and block snappy are
function parameters (`Codec.Codecs`); the only facts used about them are in `Codec.Lawful`:
decompression undoes compression, and plain snappy output does not start with the snappy-java
magic number. Panics of the original are outcomes, not preconditions.

**The connection pool** (`Pool` for every interleaving, `Closing` for the backend's Close,
`Backends` for the objects, `Exchange` and `Calls` for the functions that use connections,
`Clients` to put the two together). The pool is safe as long as each goroutine closes and hands
back only what it holds. That the request loops of the broker do this on every exit path is proved
with a ledger whose methods may only be called on a held connection; what the ledger takes from
the pool, that it never gives out what is held, is proved of the pool (`Clients.PoolIsExclusive`),
and `Clients.ClientsAreSafe` is the composition. Idle and getNewConnection of the objects compute
undisturbed runs of the machine.

**The error-averse round robin** (`Partitions`, `Distribution`, `Schedules`, `CallOrder`, `RoundRobin`):
tokens, channel generations, re-enqueueing goroutines with every one of their steps, failure
counters and reset signals.

**Metadata** (`Refresh` for the epoch protocol, `Clusters` for installing a response, `Failover`
for finding a leader while other goroutines install metadata and forget endpoints).

**The consumer** (`Consumers`, `Delivery`) against an arbitrary broker, against the log of the
test server (`LogServer`), and over the wire from one to the other (`EndToEnd`).

## Where the code does not do what it says

Each of these is a lemma with the exact condition, or a concrete run.

- A string longer than 32767 bytes does not survive (`Wire.StringRoundTripIff`), nor does an
  empty byte slice that is not nil (`Wire.BytesRoundTripIff`).
- Behind a bad checksum the rest of the set is not drained (`Cuts.BadCrcKeepsInStepIff`).
- `backend.Close` zeroes the count and keeps the list. With goroutines still at work on the
  backend the connection limit survives if and only if every tracked connection was in use when
  it came (`Closing.CloseIsSafeIff`). The branch of `Idle` that "can never happen" is unreachable
  even so (`Closing.NeverExcess`); nothing is stated about a backend that is created again for
  the same address.
- `RefreshMetadata` can return nil although no metadata was installed during the call: when the
  call begins between another one's installation and its store of the epoch
  (`Refresh.NilMeansInstalledIff`), and when `cache` refuses a response without brokers
  (`Refresh.NilAfterRefusal`).
- Distribute goes round the partitions in order if and only if tokens are put back in the order in
  which they left (`RoundRobin.RoundRobinIff`, and `RoundRobin.ClosedFormIff` with failing
  partitions). It is so when each is back before the next call begins
  (`CallOrder.HandedOutInOrder`), and not in general (`CallOrder.LatePutBackDisorders`).
- `fetch` can return no messages and no error after it has run out of tries
  (`Consumers.SilentIff`), and a commit that is not allowed a single try reports success
  (`Calls.Commit`).
- `Produce` takes the offset that the test server reports for the first one; it is the last one
  (`LogServer.StampsAgreeIff`).
- `ConsumeBatch` ignores buffered messages, so mixing it with `Consume` can deliver records again
  (`Delivery.MixingIff`, `Delivery.InOrderIffCareful`).
- The trim in `connection.Fetch` panics if a response has more topics or partitions than the
  request (`Consumers.Trim`).

## Model

| member | source | states |
|---|---|---|
| `Wire.IntRoundTrip` | proto/serialization.go:25-108 | every value of a k-byte signed type comes back from its big-endian bytes, two's complement included |
| `Wire.StringRoundTripIff` | proto/serialization.go:110-138 | a string survives encoder and decoder if and only if it has at most 32767 bytes, because the length is written as uint16 and read as int16 |
| `Wire.BytesRoundTripIff` | proto/serialization.go:144-167 | a byte slice survives if and only if it is not empty-but-present, which is read back as nil |
| `Wire.Decoder.Read` | proto/serialization.go:59-74 | a read under a limit consumes what TakeFull says, sets the sticky error on a short read, and never touches a byte behind the limit |
| `Wire.Decoder.DecodeInt` | proto/serialization.go:25-108 | the stateful decoder computes the cursor function: after an error it returns 0 and consumes nothing |
| `Wire.Decoder.DecodeUint32` | proto/serialization.go:76-91 | the same for the unsigned checksum field |
| `Wire.Decoder.DecodeString` | proto/serialization.go:110-138 | the same for strings, with the empty string for lengths below 1 |
| `Wire.Decoder.DecodeBytes` | proto/serialization.go:144-167 | the same for byte slices, with nil for lengths below 1 |
| `Codec.LawfulIsPossible` | proto/snappy.go:23-26 | the hypotheses about the codecs are consistent: there are codecs that meet them |
| `Snappy.DecodeFramed` | proto/snappy.go:23-50 | for any list of blocks behind the eight bytes 0x82 "SNAPPY" 0x00, a version of 1 and four more bytes, the result is the concatenation of the decoded blocks; it fails exactly when some block does not decode |
| `Snappy.DecodeRefuses` | proto/snappy.go:23-33 | behind the magic number any version other than 1 is refused, and an end inside the version, or inside the length of the first block, is a panic |
| `Snappy.DecodePlain` | proto/snappy.go:23-26 | data without the magic number is handed to block snappy whole |
| `Snappy.SnappyDecode` | proto/snappy.go:23-50 | the imperative decoder with its reused chunk buffer returns that same result: reuse never corrupts earlier output |
| `Snappy.DecodeLoop` | proto/snappy.go:36-49 | one pass of the chunk loop: everything decoded so far is kept while the chunk buffer is overwritten |
| `MessageSet.WholeIsLongest` | proto/messages.go:128-197 | `Whole` is the longest prefix of messages whose entries fit in k bytes (both directions) |
| `MessageSet.ReadCutSet` | proto/messages.go:239-334 | reading the first k bytes of an uncompressed set returns without error exactly the messages wholly inside k bytes, checksum recomputed, and leaves none of the k bytes unread, for every k |
| `MessageSet.ReadPackedSet` | proto/messages.go:300-329 | under all three compression modes a written set is read back as the original messages with their own offsets; the wrapper itself does not show |
| `MessageSet.ReadCutPackedSet` | proto/messages.go:239-334 | a cut compressed set yields no message and no error |
| `MessageSet.DepthIrrelevant` | proto/messages.go:325-329 | the bound on the nesting of compressed sets only matters when it is hit |
| `MessageSet.SizePanicsIff` | proto/messages.go:254-270 | the entry sizes on which a fresh reader panics: negative ones, those that overflow with the 10240 bytes added to them, and complete ones of less than four bytes |
| `MixedSets.WholeItemsIsLongest` | proto/messages.go:239-334 | `WholeItems` is the longest prefix of plain and compressed entries that fits in k bytes (both directions) |
| `MixedSets.ReadCutItems` | proto/messages.go:239-334 | for any mix of plain and compressed entries cut after any k bytes: exactly the contents of the entries wholly inside k bytes come back, in order, without error, and none of the k bytes is left unread |
| `MixedSets.StopAtBadCrc` | proto/messages.go:282-286 | with the first checksum mismatch behind any mix of plain and compressed entries, the reader returns exactly their contents whatever bytes follow, and leaves what follows unread |
| `MixedSets.RefusedEntry` | proto/messages.go:288-332 | an entry with a right checksum but compression method 3, a body too short for its fields, or a value that does not decompress fails the whole set, and the messages in front of it are lost; a framed snappy value that ends inside its version is a panic |
| `MixedSets.RefusedInside` | proto/messages.go:325-329 | a compressed entry whose own set is refused fails the set around it in the same way |
| `MixedSets.WrittenIs` | proto/messages.go:128-163 | the sets writeMessageSet makes are such mixes, with the same bytes and the same messages |
| `MessageSet.Split` | proto/messages.go:245-299 | a turn of the read loop that goes on has used up at least 16 bytes of the set, which is why the loop ends |
| `MessageSetIO.SliceWriter.Write` | proto/messages.go:212-219 | a write appends all of its bytes or, if they do not fit, none |
| `MessageSetIO.SliceWriter.Reset` | proto/messages.go:221-227 | after a reset nothing of the reused buffer's old contents is part of what is written |
| `MessageSetIO.SliceWriter.Patch` | proto/messages.go:185-187 | the checksum is patched in place and every other byte stays |
| `MessageSetIO.WriteEntry` | proto/messages.go:166-190 | an entry put together in the reused buffer, with its checksum filled in afterwards, is the entry of the format |
| `MessageSetIO.WriteMessageSet` | proto/messages.go:128-197 | the bytes appended to the destination, and the size reported, are those of the message-set format under each compression mode |
| `MessageSetIO.ReadHead` | proto/messages.go:246-286 | the fields of an entry read through the growing, reused buffer are those of the stream alone: no stale byte shows |
| `MessageSetIO.ReadMessageSet` | proto/messages.go:239-334 | the loop over the stream with a reused buffer gives exactly the result of the value function, and leaves the stream exactly where that function says |
| `Responses.ReadAnyPart` | proto/messages.go:676-695 | whatever a partition's set holds, reading goes on where the set reader stopped, with the partition's own ID, error and tip offset |
| `Responses.ReadTopicsOfBytes` | proto/messages.go:660-702 | topics and partitions whose sets are read cleanly come back in order, and the reader ends behind the last one |
| `Frames.RefusedFetch` | proto/messages.go:660-702 | a partition whose fields are cut off, or whose set is refused, fails the whole response, whatever clean topics and partitions stand in front of it |
| `Frames.NegativeFetch` | proto/messages.go:670-674 | a negative number of topics or of partitions is a panic |
| `Frames.ReadFrameOfFramed` | proto/messages.go:67-102 | a frame in front of any stream is read back whole, with its tag, and nothing behind it is consumed |
| `Frames.StreamSplits` | proto/messages.go:67-102 | any concatenation of requests (or responses) is split back into exactly those frames, in order, each with the kind or correlation ID at its front; ProduceTag and FetchTag say which that is |
| `Frames.ProduceTag` | proto/messages.go:1194-1200 | ReadReq finds kind 0 at the front of every produce request |
| `Frames.FetchTag` | proto/messages.go:626-632 | ReadResp finds the correlation ID at the front of every fetch response |
| `Frames.ParseFetchOfBytes` | proto/messages.go:660-702 | a fetch response is read back from its bytes to the last byte |
| `Frames.ParseProduceOfBytes` | proto/messages.go:1154-1192 | a produce request with any timeout is read back from its bytes to the last byte, header fields included, the timeout truncated to 32-bit milliseconds |
| `Frames.TimeoutSurvivesIff` | proto/messages.go:1165-1205 | a timeout comes back as it was if and only if it is a whole number of milliseconds that fits in 32 bits |
| `Frames.MillisTruncates` | proto/messages.go:1205-1205 | a timeout is sent as its whole milliseconds, rounded toward zero |
| `Formats.IntBytes` | proto/serialization.go:255-283 | four bytes, most significant first, two's complement |
| `Formats.StringBytes` | proto/serialization.go:316-328 | a length of two bytes, cut to 16 bits, then all of the string |
| `Formats.SliceBytes` | proto/serialization.go:295-314 | a nil slice is four bytes 0xff; any other is its length in four bytes and its contents |
| `Formats.EntryBytes` | proto/messages.go:166-190 | byte by byte: offset, the number of bytes that follow, the checksum of all behind it, magic byte 0, attributes, key, value |
| `Formats.PackedBytes` | proto/messages.go:128-163 | a compressed set is one such entry with the last message's offset, attributes 1 for gzip and 2 for snappy, no key, and the compressed entries as its value |
| `Formats.PartitionBytes` | proto/messages.go:637-652 | ID, in a fetch response error code and tip offset, set size, set |
| `Formats.ErrorCodes` | proto/errors.go:39-95 | 0 is no error; -1, 1 to 12 and 14 to 30 are known and come back as they went; any other number is unknown |
| `Formats.FrameBytes` | proto/messages.go:656-656 | a frame is the number of bytes that follow, and those |
| `Formats.FrameRefused` | proto/messages.go:67-102 | a frame whose size does not cover its tag, or overflows with the size field, is a panic, and a stream that ends before the frame does is an error; any other is read |
| `Formats.ProduceBytes` | proto/messages.go:1194-1228 | kind 0, version 0, correlation ID, client ID, acknowledgements, a timeout of whole milliseconds as that number, topics |
| `Formats.FetchBytes` | proto/messages.go:626-640 | correlation ID, number of topics, topics |
| `Cuts.CutSetArrives` | proto/messages.go:239-334 | a set of plain and compressed entries in any order, cut anywhere, is read without error as exactly the contents of its complete entries |
| `Cuts.CutFetchResponse` | proto/messages.go:660-702 | every partition of a fetch response with any mix of plain and compressed entries, cut independently at any point: each ID, error and tip offset and the messages of the complete entries are recovered, field by field, each with its topic's name, its partition's ID and its partition's tip offset, so a cut tail never desynchronises the next partition |
| `Cuts.CutProduceRequest` | proto/messages.go:1154-1192 | the same for produce requests, whose messages keep these three unset; the timeout comes back truncated to 32-bit milliseconds |
| `Cuts.FetchRespRoundTrip` | proto/messages.go:626-702 | ReadFetchResp undoes FetchResp.Bytes: every message comes back with its offset, key, value and checksum, and with the topic, partition and tip offset it was sent under |
| `Cuts.ProduceReqRoundTrip` | proto/messages.go:1194-1228 | ReadProduceReq undoes ProduceReq.Bytes under each compression mode, up to the truncated timeout; topic, partition and tip offset of the messages stay unset |
| `Cuts.BadCrcKeepsInStepIff` | proto/messages.go:282-286 | behind a bad checksum, with any mix of plain and compressed entries in front of it, the next partition is read from where it starts if and only if nothing follows the bad entry in its own set |
| `ResponsesIO.WritePart` | proto/messages.go:636-649 | the set size patched into the buffer is the number of bytes the set took |
| `ResponsesIO.FetchRespBytes` | proto/messages.go:626-658 | FetchResp.Bytes produces the framed format of the value level, or panics exactly for an error that has no code |
| `ResponsesIO.ProduceReqBytes` | proto/messages.go:1194-1228 | the same for ProduceReq.Bytes |
| `ResponsesIO.ReadFetchResp` | proto/messages.go:660-702 | the imperative parser on a stream computes the value-level parser, failures included |
| `ResponsesIO.ReadProduceReq` | proto/messages.go:1154-1192 | the same for ReadProduceReq |
| `ResponsesIO.ReadFrameFrom` | proto/messages.go:67-102 | ReadReq and ReadResp on a stream: the whole frame or an error, and what is left unread; a size that makes them panic is told apart |
| `Requests.SendRequestHelper` | connection.go:99-117 | a frame with another correlation ID closes the connection and is not a response |
| `Requests.SendRequest` | connection.go:78-95 | a response is the next frame and has this request's ID, in time; after any other outcome the connection is closed, and the transport is closed at most once, late helper included |
| `Requests.AnsweredInOrder` | connection.go:99-117 | whatever frames arrive, the i-th request of a connection is answered with the i-th frame and only if its ID fits, up to the first that does not |
| `Pool.StepKeeps` | connection_pool.go:34-189 | every atomic step of every goroutine, other than closing the backend, keeps the pool's invariant |
| `Pool.PoolIsSafe` | connection_pool.go:119-189 | in every interleaving before the backend is closed: counter equals the length of conns and is within the limit, so are the open connections plus a dial under way; every open connection is tracked; idle ones are distinct, open and nobody's; the excess-connections branch is unreachable |
| `Pool.RoomToSend` | connection_pool.go:171-189 | a goroutine about to return an open connection always finds room in the idle channel |
| `Pool.IdleIsFifo` | connection_pool.go:34-47 | the idle channel is first in, first out: after any run before the close it holds what it held and what was put in, in order, but for as many at the front as were taken |
| `Pool.TakenIsOpen` | connection_pool.go:34-47 | a connection received from the idle channel is open, so its removal there never happens before the backend is closed |
| `Pool.RefusedOnlyWhenFull` | connection_pool.go:119-153 | a dial is refused only if the limit's worth of connections were all seen open |
| `Closing.CloseIsSafeIff` | connection_pool.go:200-208 | a pool closed in a reachable state stays within its limit, in every continuation by goroutines that already have hold of the backend, if and only if every tracked connection is in use at that moment: any other one is counted down from zero |
| `Closing.UnsafeIsReachable` | connection_pool.go:171-208 | states in which closing is not safe are reached: one connection dialed, used and handed back |
| `Closing.NeverExcess` | connection_pool.go:179-188 | the branch for excess connections is unreachable in every run of a backend, its closing and everything after it included |
| `Closing.NothingLeaks` | connection_pool.go:398-408 | after the close a connection is open only while somebody holds it, in every continuation: when all are handed back, every connection ever dialed is closed |
| `Pool.HandBack` | connection_pool.go:171-189 | an undisturbed Idle is a run of the machine: an open connection goes into the channel, where there is room, a closed one leaves the list and the count |
| `Pool.ClosedLeaves` | connection_pool.go:171-189 | a held connection that was closed is in no list, channel or count after it is handed back |
| `Pool.CleanOut` | connection_pool.go:119-145 | an undisturbed getNewConnection at the limit: nothing changes if every tracked connection is open, otherwise exactly the open ones stay and a dial follows |
| `Pool.NewConnection` | connection_pool.go:119-153 | an undisturbed getNewConnection is a run of the machine: refused at the limit with nothing to clean out, otherwise cleaned out if need be and dialed |
| `Backends.Connection.Close` | connection.go:68-75 | the transport is closed by the first call only |
| `Backends.Backend.RemoveConnection` | connection_pool.go:157-168 | the first occurrence leaves the list, and the counter follows exactly if there was one |
| `Backends.Backend.GetIdleConnection` | connection_pool.go:34-47 | the first open connection of the channel, in order; the closed ones before it, and no others, leave the list, and counter follows |
| `Backends.Backend.GetNewConnection` | connection_pool.go:119-153 | refused if and only if the limit is reached and nothing tracked is closed; otherwise the closed ones are cleaned out and the dialed one is added; counter stays the length of conns and within the limit; the result is that of the machine's undisturbed getNewConnection |
| `Backends.Backend.Idle` | connection_pool.go:171-189 | closed connections leave the list, open ones enter the channel, one too many is removed and closed once; counter follows the list; on a state that the pool machine sees, the result is that of the machine's undisturbed Idle |
| `Backends.Backend.Close` | connection_pool.go:200-208 | every tracked connection is closed, exactly those that were open reach the transport |
| `Backends.ConnectionPool.InitializeAddrs` | connection_pool.go:343-366 | afterwards the pool has exactly the given addresses; surviving backends are the same objects; every connection tracked by a dropped one is closed |
| `Backends.ConnectionPool.Idle` | connection_pool.go:398-408 | the backend is looked up again by address; without one the connection is closed and nothing else happens |
| `Clients.ClientsAreSafe` | connection_pool.go:34-189 | any number of goroutines that close and hand back only what they hold, interleaved in any way with the pool's steps: every record replays, every close and hand-back is enabled, the pool stays safe, and no connection is held by two |
| `Clients.PoolIsExclusive` | connection_pool.go:34-153 | the pool never hands out a connection that some goroutine holds, which is what the request loops take from it |
| `Exchange.HandedBackOnce` | broker.go:380-438 | in a record that replays, each connection is handed to Idle exactly as often as it was acquired, those still held excepted |
| `Exchange.ClosedWhileHeld` | broker.go:380-438 | in such a record every close lies between an acquisition and its hand-back |
| `Exchange.Ledger.RunDeferred` | broker.go:390-390 | the deferred calls hand back exactly the connections acquired in the call, and do nothing else |
| `Exchange.Ledger.Ask` | connection.go:78-95 | one request on a new connection: acquired, closed as its reply demands, handed back later |
| `Exchange.ClosedIff` | broker.go:392-402 | a connection is closed during its request if and only if sending failed or the error is of a kind its caller takes to be fatal: any error for fetch; a network error, an end of file or a broken pipe for offset, produce and commit |
| `Exchange.Pick` | broker.go:404-410 | the two nested search loops find the first entry, by index, with the name of our topic and our partition's ID, and none if and only if there is none |
| `Exchange.FindsFirst` | broker.go:404-410 | the search function that the other contracts name finds exactly that entry |
| `Calls.OffsetIsOurs` | broker.go:381-437 | the first attempt that is not to be tried again decides: a missing leader or a failed request with its error, a response with the first offset listed for our partition, 0 if none is, and the error of that entry; tried again are dead connections, responses without our partition and the four failover codes; after the limit there is always an error |
| `Calls.Offset` | broker.go:360-438 | offset computes OffsetFrom; its connection events are exactly those of its attempts, then hand-backs; on every exit path each connection acquired is handed back once and closed only while held |
| `Calls.Produce` | broker.go:535-597 | result and connection events of the one attempt: the offset and error of the first entry for our partition, or an error if there is none; without acknowledgements no error if the write succeeded |
| `Calls.SearchClosesIff` | broker.go:340-349 | the connection asked for the coordinator is closed if and only if the request was not sent, and handed back in either case |
| `Calls.GetGroupCoordinator` | broker.go:317-356 | success if and only if some connection was found and its answer has no error; the connection goes back in either case |
| `Calls.CoordinatorConnection` | broker.go:295-314 | exactly one more connection is held afterwards if the coordinator was found and reached, and none otherwise |
| `Calls.Commit` | broker.go:942-1007 | attempts are made until one is answered or the limit is reached, with exactly their connection events; nil if and only if the first entry for our partition in the last answer has no error, or the limit allowed no attempt at all |
| `Calls.CommittedOffset` | broker.go:1015-1079 | the same for Offset, whose value is then that entry's offset and metadata; only an end of file or a broken pipe makes it close the connection itself |
| `Failover.InterfereKeeps` | cluster.go:239-257 | whatever other goroutines install and forget, an absent endpoint only comes back with new metadata |
| `Failover.LeaderSound` | broker.go:187-230 | a leader found is the one the tables then name, none is found only if they name none, only other goroutines change the tables meanwhile, and a forgotten endpoint has come back only with newer metadata |
| `Failover.LeaderIff` | broker.go:187-230 | a leader is found if and only if the tables name one at once, or after a refresh that succeeds, or, where topics may be created, after a creation that succeeds too |
| `Failover.InstalledLeader` | broker.go:187-192 | after the tables of a response were installed, the leader found is the one in the response's last entry for the partition, and the address on record for it is host, colon and port of the last entry for that node |
| `Failover.NodeSound` | broker.go:259-281 | an attempt goes to the address on record for the node; if there is none or the dial fails the endpoint is forgotten and stays away until newer metadata, and otherwise the call leaves the tables as they are |
| `Failover.LeaderConnection` | broker.go:241-287 | with any interference and any outcomes of the dials: every attempt goes to the address recorded for the leader looked up; after an unknown node or a failed dial the endpoint is forgotten and no attempt is made until metadata newer than the failure is installed; a full pool, and everything else the call does, leaves the tables to the others; the first dial that connects ends the call with exactly that connection; a failure is reported only after all tries, with the last one's reason |
| `Clusters.NodeTable` | cluster.go:124-129 | the node table has exactly the IDs of the response, each with host, colon and a decimal that reads back as the port of its last entry; every broker has such an address |
| `Clusters.PortsDiffer` | cluster.go:125-128 | brokers on one host with different ports have different addresses |
| `Clusters.TopicTables` | cluster.go:130-136 | the endpoint table has, for exactly the topics and partitions of the response, the leader in the last entry for each, and the partition counts those of the last entry for each topic |
| `Clusters.PoolCache.Reinitialize` | connection_cache.go:45-51 | every registered pool gets exactly the new addresses, keeps its surviving backends as objects, and closes what the others tracked |
| `Clusters.Cluster.Cache` | cluster.go:108-138 | a response with at least one broker replaces all three tables by what its last entries say, and every pool then has exactly the brokers' addresses; one without brokers changes nothing |
| `Refresh.RefreshIsCoalesced` | cluster.go:148-188 | in every interleaving: one successful refresh fetch for each epoch value, without gap or repeat, each installed or refused; the plain store of the counter loses no update; at most one refresh is under way; a nil return means the epoch grew strictly since entry |
| `Refresh.EpochIsMonotone` | cluster.go:148-188 | the epoch never decreases |
| `Refresh.SomebodyElseRefreshed` | cluster.go:148-188 | a call that finds an epoch newer than the one it read ends with nil, has fetched nothing and frees the lock |
| `Refresh.OwnRefresh` | cluster.go:148-188 | one that does not can, by steps of its own, fetch, install, publish the next epoch, end with nil and free the lock |
| `Refresh.FailedRefresh` | cluster.go:148-188 | one whose fetch fails ends with the error, has installed and published nothing, and frees the lock |
| `Refresh.NilMeansInstalledIff` | cluster.go:159-175 | as long as all responses have brokers, nil guarantees metadata installed since the call began if and only if no other refresher is between handing its response to cache and storing the epoch when it begins |
| `Refresh.NilWithoutInstall` | cluster.go:159-175 | otherwise there is a run, all its responses with brokers, in which nil is returned and nothing was installed since |
| `Refresh.NilAfterRefusal` | cluster.go:109-112 | a response without brokers is refused, the epoch is stored all the same, and the call returns nil although nothing was installed |
| `Refresh.HalfPublishedIsReachable` | cluster.go:170-175 | from every state with the lock free, so from the start, the state in between is reached |
| `Partitions.TokensConserved` | distributing_producer.go:161-263 | for every channel generation and every interleaving: its queue and its pending goroutines hold each partition exactly once and no token of another generation, and the programmer-error branch of reEnqueue is unreachable |
| `Partitions.RoomForToken` | distributing_producer.go:177-182 | a goroutine about to re-enqueue finds room |
| `Partitions.QueueIsFifo` | distributing_producer.go:161-263 | what was handed out and what is left is what was there and what came in, in order |
| `Partitions.HandedOutInTurn` | distributing_producer.go:244-263 | a token at position i of a queue is handed out by the (i+1)-st successful GetPartition under any schedule, and i is less than the partition count |
| `Partitions.BackoffEnds` | distributing_producer.go:161-184 | in every reachable state, when the timer of a token in backoff fires or its reset is taken, the token leaves the backoff and its goroutine can send it; the reset is used up and no queue changes |
| `Partitions.SuccessEndsBackoff` | distributing_producer.go:135-148 | a success clears the failures and lets a goroutine in backoff take the reset at once |
| `Partitions.FailureCounts` | distributing_producer.go:150-152 | a failure counts one up on its own partition, modulo 2 to the 64th |
| `Partitions.SuspendedComesBack` | distributing_producer.go:161-263 | a suspended partition comes back: whatever happens after its backoff has ended, its goroutine can send it, and after the send it is handed out by one of the next cap successful gets, under any schedule, timers included |
| `Partitions.SetCountRenews` | distributing_producer.go:212-240 | a new count makes a channel of exactly that many partitions in order, with none suspended; the same count, and the other topics, leave everything as it was |
| `Partitions.PartitionManager.SetPartitionCount` | distributing_producer.go:212-240 | the call is the machine's step: nothing happens unless the count changes |
| `Partitions.PartitionManager.GetPartition` | distributing_producer.go:244-263 | the call is the machine's get and spawn; it fails exactly when the queue is empty or unknown |
| `Partitions.PartitionManager.Distribute` | distributing_producer.go:86-110 | the partition at the head is tried and the outcome recorded on its token; an unknown topic counts as one partition; nothing to hand out means NoPartitionsAvailable |
| `Distribution.AtMostTwice` | distributing_producer.go:86-184 | one caller, any partition count, any set of failing partitions, any schedule in which no backoff timer fires: a failing partition is handed out at most twice |
| `Schedules.TwiceBeforeSuspension` | distributing_producer.go:150-184 | in every schedule, however concurrent, in which counters are read before failures are recorded: a failing partition in backoff has been tried exactly twice |
| `Schedules.AllFailing` | distributing_producer.go:86-110 | if all n partitions fail, then in every schedule at most 2n calls get a partition, and once 2n have, the next one gets NoPartitionsAvailable |
| `Schedules.EmptyMeansTwice` | distributing_producer.go:150-184 | if counters are read first, an empty queue with nothing on its way back means that all partitions fail and each was tried exactly twice |
| `Distribution.CallsInOrder` | distributing_producer.go:86-184 | the ring (queue and failure counts of a single caller, one call at a time) in closed form: 2n calls go round all partitions twice, then the live ones cycle in order, and with none alive every further call gets none; CallOrder.HandedOutInOrder says which schedules of the machine this describes |
| `CallOrder.HandedOutInOrder` | distributing_producer.go:86-263 | for every schedule in which calls begin with no token on its way back and counters are read before failures are recorded: the k-th handout is the k-th of the closed form, and a call gets a partition if and only if the closed form has one for it; RoundRobin.ClosedFormIff gives the exact condition for the order in all schedules |
| `CallOrder.PromptRoundRobin` | distributing_producer.go:161-263 | with nothing failing and tokens put back promptly, the k-th call of every such schedule gets partition k mod n, in whatever order outcomes are recorded |
| `CallOrder.OrderlyRunsExist` | distributing_producer.go:86-263 | there are such schedules for any number of calls, and after 2n of them each failing partition has been tried exactly twice |
| `CallOrder.LatePutBackDisorders` | distributing_producer.go:161-184 | reading counters first is not enough for the order: a run in which a token comes back late and the third call gets partition 1 instead of 0 |
| `RoundRobin.QueueLaw` | distributing_producer.go:161-263 | in every schedule without a timer, whatever fails: the partitions that waited and those put back are those handed out and those waiting now, in order |
| `RoundRobin.NextInLine` | distributing_producer.go:244-263 | at any point of such a schedule a call gets a partition if and only if fewer than n more were handed out than put back, and then the next of the n at the start and those put back since |
| `RoundRobin.RoundRobinIff` | distributing_producer.go:161-263 | in every such schedule the k-th handout is partition k mod n throughout if and only if the j-th token put back is that of the j-th handout, for every put-back that was handed out again |
| `RoundRobin.ClosedFormIff` | distributing_producer.go:86-263 | in every such schedule, for any failing partitions, the handouts are those of the closed form if and only if the put-backs that were handed out again came in the order of the handouts, those of failing partitions once |
| `RoundRobin.PromptPutsBackInOrder` | distributing_producer.go:86-263 | tokens come back in that order whenever calls begin with no token on its way back and counters are read before failures are recorded |
| `LogServer.ProduceAppends` | kafkatest/server.go:369-411 | after a produce request every partition's log is the old log followed by all messages the request has for it, in order, with the offsets that follow, repeated topics and partitions included |
| `LogServer.ReplyIsLast` | kafkatest/server.go:406-407 | the offset reported for a partition is that of its last message so far |
| `LogServer.RepliesInOrder` | kafkatest/server.go:369-411 | the same over a whole request: the reply to each partition of each topic, in the order of the request, reports the last message so far, those of earlier topics and partitions of the same name included |
| `LogServer.StoredFields` | kafkatest/server.go:385-404 | the log keeps what it had, and every new message is stored with the next offset, its topic's name, its key and its value |
| `LogServer.StampsAgreeIff` | broker.go:509-518 | the client's reading of the reported offset as the first one agrees with the log if and only if the batch has at most one message |
| `LogServer.Server.AddMessages` | kafkatest/server.go:142-166 | exactly the named log grows, by the messages stamped with their places; missing partitions up to the named one are created; offset i stays at index i |
| `LogServer.AddedFields` | kafkatest/server.go:142-166 | each of these messages is stored with its topic, its partition, the next offset, its key and its value |
| `LogServer.Server.Produce` | kafkatest/server.go:369-411 | the handler computes the value-level function and keeps offset i at index i in every log |
| `LogServer.Server.Fetch` | kafkatest/server.go:413-455 | the handler answers every topic and partition in the order of the request, and panics exactly on a negative offset within an existing partition |
| `Consumers.Trim` | connection.go:177-192 | exactly the leading messages below each partition's requested offset go; a response with more topics or partitions than the request makes it panic, and only that does |
| `Consumers.Consumer.Fetch` | broker.go:808-884 | the retry loop computes FetchFrom; its connection events are exactly those of its attempts, then hand-backs; every connection it took is handed back once on every path |
| `Consumers.Consumer.TryOnce` | broker.go:830-881 | one attempt: its verdict, and its connection is closed on any error and on no other occasion |
| `Consumers.AttemptMeans` | broker.go:836-881 | what the verdict of an attempt is, from the raw answer: another try after a missing leader, a failed request or one of the codes 3, 5, 6 and 8 on the first entry for our partition; else that entry's messages from the requested offset on, with its error; an error if there is no such entry, and the panic if the response has more than was requested |
| `Consumers.SilentIff` | broker.go:827-883 | when every try is retried, fetch returns no messages and the last try's error, which is nil if and only if there was no try or the last one was answered with a failover code |
| `Consumers.FirstDecides` | broker.go:830-881 | otherwise the first try that is not one of these decides the result |
| `Consumers.FetchReturns` | broker.go:830-881 | if that try is a response whose first entry for our partition has none of the four failover codes, fetch returns exactly that entry's messages from the first offset at or above the requested one on, with nil if and only if the entry has no error |
| `Consumers.FetchRefuses` | broker.go:852-881 | if it is a response without our partition fetch returns an error, and it panics if the response has more topics or partitions than the request |
| `Consumers.ConsumeReturns` | broker.go:734-755 | after any fetches that came back empty, as far as the limit allows, and any tries that were tried again, a response with our partition ends consume, with its messages from the cursor on or with its error |
| `Consumers.ConsumeGivesUp` | broker.go:744-748 | one empty fetch more than the limit allows is the no-data error, after exactly those fetches |
| `Consumers.Consumer.FetchBatch` | broker.go:734-755 | consume computes ConsumeFrom, with the retry limit and without |
| `Consumers.Consumer.Consume` | broker.go:757-774 | Consume moves the consumer as the function One says |
| `Consumers.Consumer.ConsumeBatch` | broker.go:776-787 | ConsumeBatch moves the cursor and leaves the buffer |
| `Delivery.TrimIsFrom` | connection.go:173-192 | the trim turns any stretch of the log that begins at or below the requested offset into the log from that offset |
| `Delivery.OneDelivers` | broker.go:757-774 | Consume delivers the record at the cursor and moves past it, or fails and leaves the cursor; with something buffered it needs no fetch and cannot fail |
| `Delivery.ManyDelivers` | broker.go:776-787 | ConsumeBatch delivers the records from the cursor on and moves past them, whatever is buffered |
| `Delivery.RecordIsDelivered` | broker.go:734-787 | liveness: once an allowed try is answered with a stretch of the log that holds the record at the cursor, Consume returns that record and buffers the rest of the stretch, and ConsumeBatch returns all of it from the cursor on |
| `Delivery.SteadyDelivers` | broker.go:734-774 | such answers exist: a broker that always answers with the whole log delivers each record at the first try |
| `Delivery.MixingIff` | broker.go:776-787 | a successful ConsumeBatch leaves a state fit for Consume if and only if nothing was buffered before it |
| `Delivery.StaleRedelivers` | broker.go:757-774 | in the other case the next Consume hands out an old record again and turns the cursor back |
| `Delivery.InOrderIffCareful` | broker.go:734-787 | any run of Consume and ConsumeBatch calls, with errors, empty fetches and retries, delivers exactly the log from the cursor on if and only if Consume is never called in such a state |
| `Delivery.DeliversTheLog` | broker.go:734-787 | a client that only calls Consume, or only ConsumeBatch, gets exactly log[s], log[s+1], ... from its start offset s, while the log grows |
| `EndToEnd.HonestArrives` | proto/messages.go:660-702 | stretches of the log, compressed or not and cut anywhere, are still stretches of the log when read back |
| `EndToEnd.ServerIsHonest` | kafkatest/server.go:413-455 | what a consumer reads of an answer from the server's log is a stretch of that log, when the log is kept in any compressed batches, the first of which may begin below the requested offset, and the answer is cut anywhere |
| `EndToEnd.HandlerHolds` | kafkatest/server.go:413-455 | the test server's own answers are among these |
| `EndToEnd.ServerRefuses` | kafkatest/server.go:432-441 | a consumer tries again when the server does not know its partition (code 3), and gets the error of code 1 when its offset is beyond the end of the log |
| `EndToEnd.HistoryGrows` | kafkatest/server.go:142-166 | over every history of produce requests and AddMessages calls each log only grows, with offset i at index i |
| `EndToEnd.ConsumerGetsServerLog` | broker.go:734-884 | the whole path: while others produce, a consumer gets exactly the server's log from its start offset, through batches that begin below the requested offset, compression, response bytes, cuts, parser, trim, retries and cursor |
| `EndToEnd.ServedRecordIsConsumed` | broker.go:734-884 | liveness over the whole path: once a try is answered by the server and the cut leaves the message at the cursor, Consume returns that message of the server's log, whatever was tried in vain before |

## Left out

- Dialing, timers, sleeps, backoff durations and jitter: the outcomes of dials, waits and timeouts are steps or inputs that may go either way.
- Internals of gzip, block snappy and CRC-32: function parameters, with the stated facts about them as hypotheses.
- Nesting of compressed sets: the reader takes a bound on the depth, as the original has no measure for it; a set nested deeper gives `TooDeep`.
- Allocation failure, and reads of the underlying stream that fail other than by ending.
- Shared messages: messages are values, so what another holder of the same message object sees is not modelled; `LogServer.Server.AddMessages` returns the stamped messages instead, and a message that occurs twice in one call counts as two.
- LogServer.Server.AddMessages: requires a partition number below 2147483647, for which the original's loop variable wraps around and the call does not return.
- Fetch responses and produce requests share one parser and one printer with a `fetch` flag: their partitions differ in two header fields and in the stamps.
- The other request and response codecs (metadata, offset, coordinator, commit): the same shape with fewer features.
- `EncodeError` on errors without a Kafka code is the panic of `FetchResp.Bytes`; that it overwrites an earlier encoder error is not modelled, as the buffers it writes to do not fail.
- `backend.GetConnection`: its select loop is any order of the pool machine's take, scan and dial steps; the waiting times and the overall timeout are not modelled.
- `backend.Close` is one step of the pool machine; the closes of single connections in its loop, seen by goroutines that test them meanwhile, are not told apart.
- Backends created again for an address while connections of the old one are still out: a connection returned then meets the new backend, and nothing is stated about it.
- `getOrCreateConnectionPool`, the metadata cache and the cluster's own `Fetch` of metadata: get-or-create maps and a loop over nodes.
- Refresh.RefreshIsCoalesced: a caller that gives up waiting after the timeout returns an error while its goroutine goes on; only the goroutine is modelled, so its nil is the nil the caller would see.
- Calls.Offset: which leader is asked, and the refresh after a failover code, are inputs; finding the leader is `Failover.LeaderConnection`.
- Partitions.PartitionManager.Distribute: the call runs with nothing in between; interleavings of callers, outcomes and goroutines are steps of the machine.
- Failover.LeaderConnection: a refresh that succeeds installs its metadata as one of the other goroutines' actions, because it may be somebody else's refresh that it waited for.
- Consumers.Consumer.Consume: a call whose fetches never end it is `Pending` for every patience; whether it ends at all is not claimed.
- The lookup of the start offset when a consumer is created: it is `Calls.Offset`, and the constructor takes the offset.
- Requests.SendRequest: what the helper goroutine reads after the timeout is read at once, since its result is dropped and the connection is closed already.
- Order of map iteration and random permutations: arbitrary, or an input.
- Logging, debug counters, configuration constructors, and the rest of the test server (listeners, middlewares, group coordination, JSON dump).
