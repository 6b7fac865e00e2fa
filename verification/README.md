# A model of go-vitess

Dafny models of the parts of go-vitess where state, protocol and arithmetic meet, with proofs of what
those parts promise. Code that the repository writes as loops and updates is modelled by methods, loops and
classes, each proved against a specification function; the promises are then proved about those functions.
Concurrent code is modelled as a state machine whose steps are the channel operations and atomic updates,
and proved over every interleaving.

* **Replication positions.** MySQL 5.6 GTID sets as canonical interval lists (`Mysql56GtidSet`, `SidOrder`),
  their binary and text forms (`GtidBinary`, `GtidText`) and positions (`Position`). A set is identified with
  the transactions it denotes, and every operation is stated on those.
* **The binlog streamer.** The event loop that turns a stream of events into transactions (`Streamer`), and
  what holds over whole streams (`StreamerProperties`): statements are conserved, transactions are whole,
  tokens are exact and do not go back.
* **Filtered replication.** The key range filter (`KeyRangeFilter`): over a partition of the key space every
  routed statement and every row of a split insert reaches exactly one shard.
* **The resource pool.** `ResourcePool` gives the steps of any number of sessions, SetCapacity calls and the
  idle sweep; `ResourcePoolProperties` proves the invariant of every disciplined run, and `ResourcePoolCalls` what
  each call does, in what order slots come back and what becomes of every resource.
* **The MySQL wire protocol.** Length-encoded values (`Encoding`), packet framing (`Framing`), the packets of a
  result (`ResultPackets`), server and client (`ResultServer`, `ResultClient`), and the end-to-end theorem
  `QueryResult.ResultSetRoundTrip`.
* **Row events.** Cells (`Cells`) and what each of their types stores (`CellFormats`), bitmaps (`Bitmaps`), packets and checksums (`BinlogPackets`), table maps
  (`TableMaps`), rows events (`RowsEvents`, `RowsWriter`, `RowsReader`), the agreement between the code that
  skips cells and the code that decodes them (`RowWalk`), and what decoding prints (`CellWalk`).
* **Caches and batching.** The LRU cache (`LruSpec`, `LruCache`), the batcher (`Batcher`) and the bucketed buffer
  pool (`BucketPool`).
* **The automation scheduler.** Task plans (`AutomationTasks`), operations that grow while they run
  (`ClusterOperation`) and the scheduler (`Scheduler`).

`Prelude`, `Bytes`, `Slices`, `Text` and `Sums` hold what these share. A Go run-time panic is an outcome of the model
(`Panicked`, a false `ok`, a `panicked` state), not a precondition. Binlog events are Go slices with spare
capacity, as stripping a checksum leaves it, and slice expressions may reach into it (`Slices`).

Some properties one would expect do not hold of the code. The model keeps the code as it is and states when the
property does hold:

* An OK packet with the EOF header ends a result only when both of its numbers are below 251
  (`ResultPackets.OkRoundTrip`, `QueryResult.EndParsed`). Both callers of writeEndResult pass zeros.
* The parser that reads only the type of a column accepts packets on which the full one panics, when a name
  announces a length of 2^63 or more (`ResultPackets.TypeOnlyAgrees`, `ResultPackets.TypeOnlyAcceptsMore`).
* Where a checksum was stripped, a truncated row is not an error but takes the checksum for its last bytes
  (`RowsEvents.ListRoundTrip`, `RowsEvents.ChecksumReadAsCell`).
* A non-NULL cell in a column of the NULL type arrives as NULL (`QueryResult.CellSurvives`).
* A position with GTIDs is not at least the nil position, so the first token after a start without position does
  not count as an advance (`Position.AtLeast`, `StreamerProperties.TokensAdvance`).
* The skipped and the decoded length of a timestamp or datetime cell differ when its metadata announces more than
  six fractional digits (`Cells.LengthsAgree`).
* Names, columns or metadata of 256 bytes or more do not survive a table map, since their lengths take one byte
  (`TableMaps.TableMapRoundTrip`); the same for 256 columns in a rows event (`RowsEvents.RowsRoundTrip`).
* The row loop does not end on an event with bytes left and no column present (`RowsEvents.LoopEnds`).
* The pool can panic when SetCapacity calls overlap, or when SetCapacity(0) meets the idle sweep
  (`ResourcePoolProperties.OverlappingSetCapacityPanics`, `ResourcePoolProperties.ClosingUnderSweepPanics`).
* A buffer whose capacity is no bucket size lands in a bucket of larger buffers, and one put twice is in the pool
  twice (`BucketPool.Pool.Put`).
* An operation whose leaf failed without an error text ends without an error and with tasks not run
  (`Scheduler.Scheduler.ProcessClusterOperation`, `Scheduler.SilentFailure`).
* A negative LRU capacity panics exactly when not even dropping entries makes the rest fit
  (`LruCache.LRUCache.CheckCapacity`).

## Model

| member | source | states |
|---|---|---|
| Mysql56GtidSet.ContainsGtid | mysql/mysql56_gtid_set.go:178-196 | reports a transaction exactly when it is in the set the intervals denote |
| Mysql56GtidSet.InsertAt | mysql/mysql56_gtid_set.go:292-319 | one pass over an interval keeps the loop invariant: the result is canonical and holds exactly the intervals passed, and the new number once its place was reached |
| Mysql56GtidSet.InsertSequence | mysql/mysql56_gtid_set.go:290-319 | the loop over one server leaves a canonical list of the old numbers, plus the new one unless it belongs after the last interval |
| Mysql56GtidSet.MergeOrAppendCanonical | mysql/mysql56_gtid_set.go:310-318 | touching intervals are merged: a canonical list extended by a later interval stays canonical and gains exactly its numbers |
| Mysql56GtidSet.CopyInserting | mysql/mysql56_gtid_set.go:281-326 | every other server is copied unchanged while the number is placed in the list of its own server |
| Mysql56GtidSet.InsertedDenotes | mysql/mysql56_gtid_set.go:269-335 | a set whose one list gained one number denotes the old transactions and that one, and is canonical |
| Mysql56GtidSet.AddGtid | mysql/mysql56_gtid_set.go:269-335 | the result is canonical and denotes the old set with exactly the one transaction added; a GTID of another flavor changes nothing |
| Mysql56GtidSet.CoversAll | mysql/mysql56_gtid_set.go:206-228 | the single pass over two interval lists decides inclusion of their numbers, both ways |
| Mysql56GtidSet.Contains | mysql/mysql56_gtid_set.go:199-232 | true exactly when the denoted set of the argument is a subset |
| Mysql56GtidSet.Equal | mysql/mysql56_gtid_set.go:235-266 | true exactly when both denote the same transactions, although only intervals are compared |
| Mysql56GtidSet.CanonicalListUnique | mysql/mysql56_gtid_set.go:255-261 | two canonical interval lists with the same numbers are the same list |
| Mysql56GtidSet.CanonicalUnique | mysql/mysql56_gtid_set.go:235-266 | two canonical sets denote the same transactions if and only if they are the same map |
| Mysql56GtidSet.MutualInclusion | mysql/mysql56_gtid_set.go:199-266 | inclusion both ways is equality |
| SidOrder.Sids | mysql/mysql56_gtid_set.go:130-137 | the servers of the set in increasing byte order |
| SidOrder.SortedEnumerates | mysql/mysql56_gtid_set.go:130-148 | the sorted list is strictly increasing and has exactly the servers of the set |
| SidOrder.IncreasingUnique | mysql/mysql56_gtid_set.go:139-148 | only one increasing list has given servers, so output does not depend on map order |
| GtidBinary.WriteServer | mysql/mysql56_gtid_set.go:348-359 | the nested loops write the identifier, the count and the half-open intervals |
| GtidBinary.SidBlock | mysql/mysql56_gtid_set.go:341-363 | the whole block: the number of servers, then each in sorted order |
| GtidBinary.SetFromSidBlock | mysql/mysql56_gtid_set.go:377-408 | the reading loops compute the specified parse, with an error at every short read |
| GtidBinary.IntervalsRoundTrip | mysql/mysql56_gtid_set.go:350-405 | any list of intervals, whatever follows it, is read back and nothing more is consumed |
| GtidBinary.ServersRoundTrip | mysql/mysql56_gtid_set.go:377-408 | the servers written in order are collected back one by one |
| GtidBinary.BlockRoundTrip | mysql/mysql56_gtid_set.go:341-408 | parsing the block of a canonical set gives back exactly that set |
| GtidText.SidRoundTrip | mysql/mysql56_gtid.go:58-95 | a server identifier parses back from its dashed hexadecimal form |
| GtidText.ParseSidIs | mysql/mysql56_gtid.go:69-95 | a text is read as a server identifier exactly when it is the printed form of that identifier, in either case of its letters |
| GtidText.ParseIntervalIs | mysql/mysql56_gtid_set.go:49-71 | an interval is one number of at least one, or two with a dash between; every other text is an error |
| GtidText.SortsByStart | mysql/mysql56_gtid_set.go:118-120 | the parsed intervals come in the order of their starts, and are a permutation of what was parsed |
| GtidText.IntervalTextRoundTrip | mysql/mysql56_gtid_set.go:49-71 | an interval parses back from either of its printed forms, which contain no separator |
| GtidText.SortCanonical | mysql/mysql56_gtid_set.go:118-120 | sorting the parsed intervals changes nothing when they come from a canonical list |
| GtidText.PrintServer | mysql/mysql56_gtid_set.go:158-168 | the printing loop over one server |
| GtidText.PrintSet | mysql/mysql56_gtid_set.go:151-172 | servers in sorted order, separated by commas |
| GtidText.ParseGtidSet | mysql/mysql56_gtid_set.go:76-124 | the parsing loops compute the specified parse, with its trimming, its error cases and its empty parts |
| GtidText.ServersTextRoundTrip | mysql/mysql56_gtid_set.go:76-172 | splitting the printed servers and parsing each collects them back |
| GtidText.TextRoundTrip | mysql/mysql56_gtid_set.go:76-172 | parsing what String prints gives back the set |
| Text.TrimSpaceIs | mysql/mysql56_gtid_set.go:81 | white space at both ends is taken off, and nothing else |
| Text.ParseIntIs | mysql/mysql56_gtid_set.go:52-62 | digits behind at most one sign are read as their decimal value, or as an error when that does not fit into 64 bits |
| Text.ParseIntOnly | mysql/mysql56_gtid_set.go:52-62 | nothing else is read as a number |
| Text.HexDecodeIs | mysql/mysql56_gtid.go:69-95 | decoding accepts exactly what encoding writes and its upper-case forms |
| Position.PositionEqual | mysql/replication_position.go:62-67 | true exactly when the positions are the same value |
| Position.AtLeast | mysql/replication_position.go:70-75 | decides inclusion of what was seen, except that a set is never at least nil and nil is at least only nil |
| Position.AppendGtid | mysql/replication_position.go:93-101 | exactly the one GTID is added to what was seen, starting from nil too |
| Position.PositionUnique | mysql/replication_position.go:62-67 | a position that is not nil is determined by the transactions seen |
| Position.EncodePosition | mysql/replication_position.go:116-121 | the flavor, a slash and the printed set; nothing for nil |
| Position.PositionRoundTrip | mysql/replication_position.go:116-151 | every position, nil and the empty set included, decodes back from its encoding |
| Position.DecodesOnly | mysql/replication_position.go:126-151 | a text that is not empty decodes exactly when it is the flavor, a slash and a text that parses as a set |
| Streamer.HandleEvent | vt/binlog/binlog_streamer.go:337-598 | for every event type: the error condition, the table cache, the statements, the position and whether commit is called, as functions of the events read so far |
| Streamer.ProcessEvent | vt/binlog/binlog_streamer.go:287-599 | one turn of the loop with its format and checksum handling, from the state after n events to the state after n+1 |
| Streamer.ParseEvents | vt/binlog/binlog_streamer.go:244-603 | where the loop stops and why, what it sent until then, and the position it returns, for every stream, every answer to sendTransaction and every time of cancellation |
| Streamer.InTransactionStep | vt/binlog/binlog_streamer.go:253-285 | the autocommit flag is false exactly between an event that opens a transaction and one that closes it |
| Streamer.PendingStep | vt/binlog/binlog_streamer.go:253-285 | the statement buffer is emptied by an opening event or a commit, and otherwise extended by what the event contributes |
| Streamer.PositionStep | vt/binlog/binlog_streamer.go:338-456 | the position tracks exactly the GTIDs read |
| Streamer.AppendChanges | vt/binlog/binlog_streamer.go:338-352 | a pseudo-GTID changes the position exactly when it was not seen before, which decides whether a token is sent |
| Streamer.CommitFacts | vt/binlog/binlog_streamer.go:257-285 | an opening event never commits, every closing event does, and a commit happens at the end of a transaction or outside of one |
| Streamer.CategoryBySaying | vt/binlog/binlog_streamer.go:50-88 | a statement has a category exactly when its text up to the first blank is a keyword of that category, in any letter case; every other text is unrecognized |
| Streamer.TimestampStatement | vt/binlog/binlog_streamer.go:413-416 | the SET TIMESTAMP statement of an event |
| Streamer.QueryStatements | vt/binlog/binlog_streamer.go:408-433 | a query of this database contributes its timestamp and itself, both with the charset when it differs from that of the client; a query of another database contributes nothing |
| StreamerProperties.Conservation | vt/binlog/binlog_streamer.go:244-603 | over any stream, the statements of all batches followed by the pending ones are exactly the statements contributed, in order: none lost, repeated or moved |
| StreamerProperties.SentBatches | vt/binlog/binlog_streamer.go:268-285 | the sent batches are the transactions sent, one for one and in order, apart from the empty ones that rollbacks send |
| StreamerProperties.SentStatements | vt/binlog/binlog_streamer.go:268-285 | a batch sent at an event has exactly the statements of the transaction sent there |
| StreamerProperties.SendPointsIncrease | vt/binlog/binlog_streamer.go:268-285 | no event sends two transactions, and they are sent in the order of the events |
| StreamerProperties.NothingSentInside | vt/binlog/binlog_streamer.go:257-285 | nothing is sent between the event that opens a transaction and the one that closes it |
| StreamerProperties.WholeTransaction | vt/binlog/binlog_streamer.go:257-439 | the transaction sent at its close is exactly what was contributed since it was opened, or empty after a rollback |
| StreamerProperties.TextTransaction | vt/binlog/binlog_streamer.go:257-439 | between a query that says begin and the next that says commit, in any letter case, exactly the statements contributed are sent, as one transaction; if it says rollback, one without statements is sent |
| StreamerProperties.SeenIsStartPlusRead | vt/binlog/binlog_streamer.go:338-362 | without PREVIOUS_GTIDS, what was seen is the start position and the GTIDs read |
| StreamerProperties.SentConserved | vt/binlog/binlog_streamer.go:244-603 | the transactions actually sent hold exactly the statements not dropped, in order; with the pending ones they are all that was contributed if and only if no nested BEGIN, rollback or timestamp dropped one |
| StreamerProperties.TokenExact | vt/binlog/binlog_streamer.go:268-285 | every token sent decodes to exactly the start set plus all the GTIDs read up to its event |
| StreamerProperties.TokensAdvance | vt/binlog/binlog_streamer.go:268-285 | a later token is at least an earlier one if and only if it is not the step from no position to a first one |
| StreamerProperties.TokensNeverGoBack | vt/binlog/binlog_streamer.go:244-285 | from a start position that is not nil, every token is at least every earlier one |
| KeyRangeFilter.GetValidRangeQuery | vt/binlog/keyrange_filter.go:119-165 | the statement cut down to the rows in the range, the empty statement, or an error |
| KeyRangeFilter.FilterDml | vt/binlog/keyrange_filter.go:49-102 | what one shard keeps of one DML statement in every case of the switch |
| KeyRangeFilter.KeyRangeFilterFunc | vt/binlog/keyrange_filter.go:38-117 | what one shard receives for a transaction: the kept statements, or the token alone when none but SETs was kept |
| KeyRangeFilter.RangeByFirstByte | vt/key/key.go:123-129 | a range between two one-byte ends holds an id exactly when its first byte is at least the low end and below the high one |
| KeyRangeFilter.RangeAtFirstDifference | vt/key/key.go:123-129 | in general, the first byte at which an id differs from an end of the range decides |
| KeyRangeFilter.ContiguousPartition | vt/key/key.go:123-129 | ranges cut at increasing points hold every keyspace id exactly once |
| KeyRangeFilter.ReachesOneShard | vt/binlog/keyrange_filter.go:38-117 | over a partition, a routed DML statement is kept whole by exactly one shard, which delivers it, and by no other |
| KeyRangeFilter.UnannotatedDml | vt/binlog/keyrange_filter.go:63-78 | without a usable id an insert reaches no shard, an update or delete reaches every shard |
| KeyRangeFilter.MultiRowInsert | vt/binlog/keyrange_filter.go:88-165 | an insert with one row per annotated id is rewritten to the rows in the range; anything else with several ids is dropped |
| KeyRangeFilter.RowOnce | vt/binlog/keyrange_filter.go:138-165 | a row whose id lies in one range is kept exactly once over all shards |
| KeyRangeFilter.RowsSplit | vt/binlog/keyrange_filter.go:138-165 | over a partition the shards together keep exactly the rows of the insert, as a multiset |
| KeyRangeFilter.RowsInOrder | vt/binlog/keyrange_filter.go:138-165 | a shard keeps its rows in their order: those with the increasing numbers in its range |
| KeyRangeFilter.KeptCarries | vt/binlog/keyrange_filter.go:38-165 | in every case of the switch, what a shard keeps of a statement is the statement that carries its units of it: the whole, or the rows in its range |
| KeyRangeFilter.DeliveredIsAssembled | vt/binlog/keyrange_filter.go:38-117 | a shard is delivered the carriers of its units and the SETs between them, in the order of the transaction, or the token alone when it has no unit |
| KeyRangeFilter.TransactionSplit | vt/binlog/keyrange_filter.go:38-165 | over a partition, the shards together receive of a whole transaction each routed statement and each row of a split insert exactly once, and each update or delete without an id once per shard, as a multiset |
| ResourcePoolProperties.NewPoolInv | pools/resource_pool.go:82-102 | a new pool satisfies the invariant |
| ResourcePoolProperties.ClientKeeps | pools/resource_pool.go:159-222 | every step of Get and Put keeps the conservation of slots, the counter equations and the ownership of resources |
| ResourcePoolProperties.ResizerKeeps | pools/resource_pool.go:230-270 | every step of SetCapacity, and so of Close, keeps it |
| ResourcePoolProperties.SweeperKeeps | pools/resource_pool.go:121-143 | every step of the idle sweep keeps it |
| ResourcePoolProperties.StepKeeps | pools/resource_pool.go:82-270 | every step of any party keeps the invariant |
| ResourcePoolProperties.RunKeeps | pools/resource_pool.go:82-270 | so does every run, by any number of sessions and calls interleaved in any order |
| ResourcePoolProperties.ReachedInv | pools/resource_pool.go:82-270 | every state reached from a new pool satisfies it |
| ResourcePoolProperties.RoomForClient | pools/resource_pool.go:208-222 | a session with a slot in hand finds the channel open and with room |
| ResourcePoolProperties.RoomForSweeper | pools/resource_pool.go:121-143 | so does the sweep |
| ResourcePoolProperties.RoomForFill | pools/resource_pool.go:260-265 | so does a SetCapacity that grows the pool |
| ResourcePoolProperties.NeverPanics | pools/resource_pool.go:121-270 | no reachable state has panicked, and a send by Put, by a failed Get, by the sweep or by a growing SetCapacity neither panics nor blocks |
| ResourcePoolProperties.ClosedMeansEmpty | pools/resource_pool.go:251-268 | the channel is closed only when every slot is gone and no session holds one |
| ResourcePoolProperties.CountersAtRest | pools/resource_pool.go:304-322 | between calls inUse is the number of sessions holding a resource, available and inUse add up to the capacity, and active does not exceed it |
| ResourcePoolProperties.HoldersAreExclusive | pools/resource_pool.go:159-222 | a held resource is held by one session only, is not queued, and was not closed |
| ResourcePoolProperties.OverlappingSetCapacityPanics | pools/resource_pool.go:230-270 | without the rule that SetCapacity calls do not overlap, a run that panics exists |
| ResourcePoolProperties.ClosingUnderSweepPanics | pools/resource_pool.go:121-143 | without the rule that the timer is stopped before the capacity goes to zero, a run that panics exists |
| ResourcePoolCalls.GetReuses | pools/resource_pool.go:159-202 | a Get that is not interrupted and finds a resource at the front of the channel returns that resource; none is made |
| ResourcePoolCalls.GetMakes | pools/resource_pool.go:159-202 | a Get that finds an empty slot returns a new resource of the factory |
| ResourcePoolCalls.GetFails | pools/resource_pool.go:159-202 | a Get whose factory call fails puts the slot back and changes nothing else |
| ResourcePoolCalls.PutQueues | pools/resource_pool.go:208-222 | Put leaves the resource in the last slot of the channel, open and in circulation |
| ResourcePoolCalls.PutNilQueues | pools/resource_pool.go:208-222 | Put(nil) gives up the held resource and leaves an empty slot in the last place |
| ResourcePoolCalls.SetCapacityGrows | pools/resource_pool.go:230-270 | growing adds empty slots behind those there, as many as the capacity gained |
| ResourcePoolCalls.SetCapacityShrinks | pools/resource_pool.go:230-270 | shrinking takes as many slots off the front, closes exactly the resources in them, and closes the channel at capacity zero |
| ResourcePoolCalls.SweepPass | pools/resource_pool.go:121-143 | a sweep that is not interrupted looks at as many slots as are available and puts each back behind the others, empty where it closed the resource |
| ResourcePoolCalls.Fifo | pools/resource_pool.go:121-270 | over every run, all that was received, followed by the channel, is what the channel held at first, followed by all that was sent: slots come out in the order they were put |
| ResourcePoolCalls.NeverOverfull | pools/resource_pool.go:208-222 | a send waits for room or panics: no run, disciplined or not, puts more into the channel than it can hold |
| ResourcePoolCalls.ClientFate | pools/resource_pool.go:159-222 | no step of a session closes a resource; a session parts with one only by Put(nil), and a new one comes only from the factory, to the session that asked |
| ResourcePoolCalls.RunFate | pools/resource_pool.go:121-270 | over every run, the resources closed are exactly those a drain or the sweep took out and closed, those given up exactly those held at a Put(nil), and as many were made as factory calls succeeded |
| ResourcePoolCalls.KeepsHold | pools/resource_pool.go:159-222 | a session that received or made a resource has it until it puts it back, whatever the others do |
| Encoding.WriteLenEncInt | mysql/encoding.go:49-77 | writes exactly the encoding of the number at the position, in lenEncIntSize bytes, and changes nothing else |
| Encoding.WriteLenEncString | mysql/encoding.go:130-133 | writes exactly the length and the bytes, and changes nothing else |
| Encoding.WriteUint16 | mysql/encoding.go:99-103 | writes the two little-endian bytes and nothing else |
| Encoding.WriteUint32 | mysql/encoding.go:105-111 | writes the four little-endian bytes and nothing else |
| Encoding.WriteUint64 | mysql/encoding.go:113-123 | writes the eight little-endian bytes and nothing else |
| Encoding.WriteEofString | mysql/encoding.go:89-92 | writes the bytes and nothing else |
| Encoding.ReadLenEncInt | mysql/encoding.go:204-239 | a successful read stays within the data, advances, and fits 64 bits |
| Encoding.ReadLenEncString | mysql/encoding.go:241-251 | a successful read stays within the data and advances past the string; a length that is negative as an int or overflows is a panic |
| Encoding.SkipOrRead | mysql/encoding.go:241-263 | a string that can be skipped can be read, up to the same position, if and only if its length is below 2^63 and does not overflow; skipping never panics on it |
| Encoding.LenEncIntRoundTrip | mysql/encoding.go:36-239 | every 64-bit number is read back, whatever stands before and after it |
| Encoding.LenEncStringRoundTrip | mysql/encoding.go:125-275 | every string is read back, whatever stands before and after it |
| Encoding.FirstByte | mysql/encoding.go:49-77 | an encoded number never starts with the NULL or error marker, starts with 0 only for zero, and with 0xfe only from 2^24 on |
| Framing.FrameLayout | mysql/conn.go:452-505 | a payload below 2^24 - 1 bytes is one frame, and a longer one starts with a full frame and goes on with the next number |
| Framing.ChunkRoundTrip | mysql/conn.go:234-396 | one chunk is read back if and only if the stream starts with its header and bytes |
| Framing.FramesRoundTrip | mysql/conn.go:273-507 | framing is a bijection: a read returns a payload of any length if and only if the stream starts with its frames |
| Framing.AfterCounts | mysql/conn.go:452-507 | sequence numbers count chunks modulo 256, with the empty chunk after a multiple of the maximum |
| Framing.StreamRoundTrip | mysql/conn.go:273-507 | any list of payloads is read back, what follows is untouched, and both sides agree on the next sequence number |
| Framing.AllFramesAppend | mysql/conn.go:452-507 | the frames of two batches of packets written one after the other are the frames of both |
| Framing.Conn.ReadHeader | mysql/conn.go:234-263 | the length, an error at a short or out-of-sequence header, and the connection state after each |
| Framing.Conn.ReadOnePacket | mysql/conn.go:379-396 | one chunk |
| Framing.Conn.ReadRemaining | mysql/conn.go:308-323 | the loop over further chunks appends exactly the rest of the payload |
| Framing.Conn.ReadPacket | mysql/conn.go:401-432 | reads exactly one payload of the framing |
| Framing.Conn.ReadEphemeralPacket | mysql/conn.go:273-326 | the buffered read returns the same payload as ReadPacket and claims the buffer |
| Framing.Conn.RecycleReadPacket | mysql/conn.go:365-376 | releases the buffer claimed by a read |
| Framing.Conn.WritePacket | mysql/conn.go:452-507 | the chunk loop appends exactly the frames of the payload, for every length |
| Framing.Conn.StartEphemeralPacket | mysql/conn.go:509-518 | hands out a buffer of exactly the asked length and claims it |
| Framing.Conn.WriteEphemeralPacket | mysql/conn.go:522-536 | appends exactly the frames of the buffer and releases it |
| ResultPackets.TypeRoundTrip | sqltypes/type.go:156-288 | a column type survives the two tables if and only if it is neither Tuple nor Expression; stray flags never make a type NULL |
| ResultPackets.ColumnDefinitionRoundTrip | mysql/query.go:76-569 | a column definition is understood exactly when its type is mapped, and gives back every field, with the stated truncations |
| ResultPackets.TypeOfIs | sqltypes/type.go:156-288 | the type the client computes from the sent type number and flags, flag by flag |
| ResultPackets.DescribedIs | mysql/query.go:76-170 | the parsed field has each name, the charset, the length, the decimals and the flags of the field sent, and the type its flags show |
| ResultPackets.SkipOrReadStrings | mysql/query.go:82-210 | the same for any number of strings in a row |
| ResultPackets.TypeOnlyAgrees | mysql/query.go:76-245 | the full parser accepts a packet if and only if the fast one does, the decimals byte is there and no name announces a length of 2^63 or more; the type is then the same |
| ResultPackets.TypeOnlyAcceptsMore | mysql/query.go:175-245 | a packet of 14 bytes that the fast parser accepts, going back over the same name five times, and on which the full one panics |
| ResultPackets.RowRoundTrip | mysql/query.go:249-599 | any row is read back cell by cell, NULL as NULL and bytes as the same bytes |
| ResultPackets.EofRoundTrip | mysql/conn.go:678-923 | flags and warnings of an EOF packet are read back, and it is recognised as one |
| ResultPackets.OkRoundTrip | mysql/conn.go:604-954 | an OK packet is read back; with the EOF header it passes for the end of a result if and only if both numbers are below 251 |
| ResultPackets.ErrorRoundTrip | mysql/conn.go:646-986 | code, state and message of an error packet are read back |
| ResultPackets.RowIsNoControlPacket | mysql/query.go:399-434 | no row of at least one column, whatever its bytes, is mistaken for an end or an error |
| ResultPackets.ColumnCountIsNoControlPacket | mysql/query.go:469-498 | a column count is never mistaken for an OK, error or local-infile packet |
| QueryResult.ResultSetRoundTrip | mysql/query.go:340-657 | end to end: the client returns exactly the rows, NULLs, warnings and more flag the server wrote and leaves what follows, unless a type is unmapped or the row limit is exceeded, and then fails as stated |
| QueryResult.NamesArrive | mysql/query.go:89-110 | every column of the answer has the five names of the column sent, each in its place |
| QueryResult.ColumnsRoundTrip | mysql/query.go:360-374 | the columns are read back one by one |
| QueryResult.UnmappedColumn | mysql/query.go:360-374 | one column of an unmapped type anywhere makes the client give up |
| QueryResult.RowsRoundTrip | mysql/query.go:398-449 | the rows up to the end packet are read back, within the limit |
| QueryResult.RowsOver | mysql/query.go:434-442 | beyond the limit the client reads to the exact end of the result and reports it |
| QueryResult.DrainRoundTrip | mysql/query.go:452-467 | draining stops exactly after the end of the result, whatever the rows hold |
| QueryResult.EndParsed | mysql/query.go:405-433 | the end of a result is recognised exactly when the EOF form is used or both numbers fit one byte |
| QueryResult.CellSurvives | mysql/query.go:249-267 | a cell arrives as it was sent if and only if it is NULL or its column is not of the NULL type |
| QueryResult.OkReplyRoundTrip | mysql/query.go:340-498 | the reply to a statement without rows gives back its numbers |
| QueryResult.ErrorReplyRoundTrip | mysql/query.go:469-498 | a failed statement is reported with the code, state and message of the server |
| ResultServer.SendColumnCount | mysql/query.go:517-522 | sends exactly the packet of the count |
| ResultServer.WriteColumnDefinition | mysql/query.go:524-569 | the size computed beforehand is exact and the packet sent is the definition |
| ResultServer.RowLength | mysql/query.go:572-580 | the size added up beforehand is exactly that of the row packet |
| ResultServer.WriteCell | mysql/query.go:584-592 | one cell, and nothing else in the buffer |
| ResultServer.WriteRow | mysql/query.go:571-599 | sends exactly the row packet |
| ResultServer.WriteColumns | mysql/query.go:609-614 | sends the columns in order |
| ResultServer.WriteFields | mysql/query.go:603-624 | sends the count, the columns and the EOF marker unless it is deprecated |
| ResultServer.WriteRows | mysql/query.go:627-634 | sends the rows in order |
| ResultServer.WriteEndResult | mysql/query.go:638-657 | sends the end packet of either form with the more flag |
| ResultServer.WriteResult | mysql/query.go:603-657 | the three calls send exactly the packets of the result |
| ResultServer.WriteEofPacket | mysql/conn.go:678-687 | sends exactly the EOF packet |
| ResultServer.WriteOkPacket | mysql/conn.go:604-641 | sends exactly the OK packet, with either header |
| ResultServer.WriteErrorPacket | mysql/conn.go:646-664 | sends exactly the error packet, with the unknown state when none is given |
| ResultClient.ReadComQueryResponse | mysql/query.go:469-498 | the first packet of a reply in all its cases, and the connection state after it |
| ResultClient.ReadColumnDefinition | mysql/query.go:76-245 | one column by either parser |
| ResultClient.ParseRow | mysql/query.go:249-267 | the cell loop computes the specified parse, with its panics on short data |
| ResultClient.ReadFields | mysql/query.go:360-374 | the loop over the columns |
| ResultClient.ReadEofMarker | mysql/query.go:376-396 | the EOF packet after the columns, or the error in its place |
| ResultClient.ReadResultRows | mysql/query.go:398-449 | the row loop in all its cases |
| ResultClient.DrainResults | mysql/query.go:452-467 | the drain loop in all its cases |
| ResultClient.ReadQueryResult | mysql/query.go:340-449 | the whole reply as a function of the stream, for any bytes the peer sends |
| Cells.MetadataRead | mysql/binlog_event_rbr.go:139-162 | a successful read takes exactly the bytes of the type and yields a value that fits it |
| Cells.MetadataWrite | mysql/binlog_event_rbr.go:165-193 | writes exactly the metadata bytes of the type, in place, and nothing else |
| Cells.MetadataRoundTrip | mysql/binlog_event_rbr.go:139-193 | metadata is read back if and only if it fits the type |
| Cells.LengthsAgree | mysql/binlog_event_rbr.go:199-906 | whenever CellValue succeeds, into spare capacity or not, so does cellLength, with the same length if and only if the cell is no timestamp or datetime of more than six fractional digits |
| Cells.LengthIsLocal | mysql/binlog_event_rbr.go:199-314 | cellLength looks at no byte beyond the cell it measures |
| Cells.LengthSeen | mysql/binlog_event_rbr.go:199-314 | with only the front of a cell within the length of the data, cellLength gives the same if and only if the front has the bytes that state the length |
| Cells.LengthIsNatural | mysql/binlog_event_rbr.go:199-314 | a measured length is never negative |
| Cells.SizeIsNatural | mysql/binlog_event_rbr.go:244-269 | not even for a decimal whose scale exceeds its precision |
| CellFormats.LengthIsStored | mysql/binlog_event_rbr.go:199-314 | a cell is skipped as a whole exactly when it has the length its type and metadata give it: two, three, four or eight bytes of a number, a counted text, the packed digits of a decimal, the fraction of a time |
| CellFormats.IntegerCells | mysql/binlog_event_rbr.go:199-216 | numbers of two, three, four and eight bytes are skipped as that many bytes, whatever follows |
| CellFormats.StoredSkip | mysql/binlog_event_rbr.go:1008-1031 | cells that each hold a value of their column are skipped one after the other, to the end of the last |
| CellFormats.StoredImage | mysql/binlog_event_rbr.go:1003-1033 | they form the image of a row, whichever columns are NULL or absent |
| CellFormats.StoredRows | mysql/binlog_event_rbr.go:967-1036 | rows of such images are sliced into exactly these rows, whatever lies behind the event |
| CellFormats.MetadataByType | mysql/binlog_event_rbr.go:104-163 | the metadata of each type has its length and its byte order |
| CellFormats.CharMetadata | mysql/binlog_event_rbr.go:293-312 | the length of a CHAR column that does not fit one byte is recovered from the bits packed into the type |
| CellWalk.StoredValue | mysql/binlog_event_rbr.go:335-906 | CellValue decodes a stored value, to its whole length, exactly when it can be printed: not of the NULL type, at most six fractional digits, an ENUM of one or two bytes, a decimal with a digit, a JSON document that is valid |
| CellWalk.StoredWalk | vt/binlog/binlog_streamer.go:723-840 | the walk over such values succeeds and prints exactly these values, each for its column, and NULL for the others present |
| Bitmaps.BitOfIs | mysql/binlog_event.go:271-275 | bit i of a byte is its i-th binary digit |
| Bitmaps.NewBitmap | mysql/binlog_event.go:248-254 | the bitmap is the exact storage its bits need, taken from the data and the spare bytes behind it; it panics exactly when the capacity is too small |
| Bitmaps.Set | mysql/binlog_event.go:278-286 | in place, one bit gets the value and every other bit keeps its own |
| Bitmaps.SetBitOf | mysql/binlog_event.go:278-286 | adding or removing the mask of one bit changes that bit and no other |
| Bitmaps.BitCount | mysql/binlog_event.go:291-299 | the loop counts the set bits |
| Bitmaps.OnesIsCardinality | mysql/binlog_event.go:291-299 | the count is the size of the set of set bits |
| BinlogPackets.Packetize | mysql/binlog_event_make.go:95-113 | the header, the body and the room for a checksum |
| BinlogPackets.PacketRoundTrip | mysql/binlog_event_make.go:95-113 | for both flavors, stripping the checksum, which stays behind the length, and the header shows the body if and only if the checksum algorithm is a known one |
| BinlogPackets.StripsLastFour | mysql/binlog_event_mysql56.go:71-88 | stripping cuts off exactly the last four bytes, which stay within the capacity, and panics on an event with fewer |
| TableMaps.MetadataTotalLength | mysql/binlog_event_rbr.go:130-136 | the sum of the metadata sizes |
| TableMaps.WriteMetadata | mysql/binlog_event_make.go:328-334 | the loop writes the metadata of every column in order and nothing else |
| TableMaps.WriteColumns | mysql/binlog_event_make.go:323-336 | the columns part, in place |
| TableMaps.BuildBody | mysql/binlog_event_make.go:284-343 | the length computed beforehand is exact and the body is the specified one |
| TableMaps.NewTableMapEvent | mysql/binlog_event_make.go:284-343 | the packet of that body |
| TableMaps.ReadAllMetadata | mysql/binlog_event_rbr.go:83-92 | the loop over the metadata |
| TableMaps.ReadColumns | mysql/binlog_event_rbr.go:72-98 | types, metadata and null bits, the last of which may reach into spare capacity |
| TableMaps.ReadTableMap | mysql/binlog_event_rbr.go:53-101 | the parse of any slice, with any spare capacity, for both sizes of table id |
| TableMaps.ParsedIsWellFormed | mysql/binlog_event_rbr.go:53-101 | whatever bytes are parsed, the result is a well-formed table map |
| TableMaps.TableMapRoundTrip | mysql/binlog_event_make.go:284-343 | a written table map parses back to itself if and only if it is well formed: short names, fewer than 256 columns, fitting metadata |
| TableMaps.EventRoundTrip | mysql/binlog_event_rbr.go:53-101 | the same through packet, header and the checksum stripping of both flavors |
| RowsEvents.ImagesByType | mysql/binlog_event_rbr.go:927-933 | which of the six event types carry the old row, the new row or both, and which have extra data, by their numbers |
| RowsEvents.SkipIsLocal | mysql/binlog_event_rbr.go:977-999 | skipping cells looks at no byte beyond them |
| RowsEvents.SkipExtends | mysql/binlog_event_rbr.go:977-999 | so the cells skip alike whatever follows them |
| RowsEvents.SkipSeen | mysql/binlog_event_rbr.go:977-999 | cells that reach behind the length of the data are skipped like others if and only if the bytes that state their lengths do not |
| RowsEvents.ImageRoundTrip | mysql/binlog_event_rbr.go:973-1001 | an image is parsed if and only if it fits, its encoding is what the data and the spare bytes start with, and its lengths are stated before the spare ones |
| RowsEvents.RowRoundTrip | mysql/binlog_event_rbr.go:970-1034 | the same for a row of one or two images |
| RowsEvents.LoopEnds | mysql/binlog_event_rbr.go:969-1034 | the row loop never ends if and only if bytes are left and no column is present |
| RowsEvents.ListRoundTrip | mysql/binlog_event_rbr.go:969-1034 | rows are parsed if and only if they fit, the bytes followed by some of the spare ones are their encoding, and each starts and states its lengths before the spare bytes |
| RowsEvents.WholeList | mysql/binlog_event_rbr.go:969-1034 | written rows are read back whatever is spare; with nothing spare, bytes are read as rows if and only if they are their encoding |
| RowsEvents.ChecksumReadAsCell | mysql/binlog_event_rbr.go:1003-1031 | a truncated row whose four missing bytes are read from the stripped checksum, and which panics without one |
| RowsEvents.ParsedIsWellFormed | mysql/binlog_event_rbr.go:927-1037 | whatever bytes are parsed, the rows are well formed for the table |
| RowsEvents.RowsRoundTrip | mysql/binlog_event_make.go:364-426 | a version 2 rows event parses back to itself if and only if it is well formed for the table |
| RowsWriter.RowsLength | mysql/binlog_event_make.go:369-380 | the size added up beforehand |
| RowsWriter.BodyExact | mysql/binlog_event_make.go:369-422 | which is exactly that of the body for well-formed rows |
| RowsWriter.WriteRow | mysql/binlog_event_make.go:413-422 | one row is written after the others and nothing else changes |
| RowsWriter.BuildBody | mysql/binlog_event_make.go:364-426 | the body, followed by zeroes where the precomputed size was too large |
| RowsWriter.NewRowsEvent | mysql/binlog_event_make.go:364-426 | the packet of that body, with no zeroes for well-formed rows |
| RowsWriter.EventRoundTrip | mysql/binlog_event_make.go:364-426 | what is written for a version 2 event, stripped as either flavor does, parses back to the rows if and only if they are well formed |
| RowsReader.ReadExtra | mysql/binlog_event_rbr.go:943-948 | the extra data of a version 2 event is skipped by its own length, with a panic where the slice is too short |
| RowsReader.ReadContents | mysql/binlog_event_rbr.go:951-1037 | the bitmaps the event type calls for, then the row loop |
| RowsReader.SkipCells | mysql/binlog_event_rbr.go:977-999 | the column loop skips exactly the columns present and not NULL |
| RowsReader.ReadImage | mysql/binlog_event_rbr.go:973-1001 | one image |
| RowsReader.ReadRow | mysql/binlog_event_rbr.go:970-1034 | one row |
| RowsReader.ReadList | mysql/binlog_event_rbr.go:969-1034 | the row loop, in which a row of no bytes stands for a loop that never ends |
| RowsReader.ReadRows | mysql/binlog_event_rbr.go:927-1037 | the parse of any event slice, with any spare capacity, versions 1 and 2 |
| RowWalk.WriteImageAsSql | vt/binlog/binlog_streamer.go:723-840 | the loop that turns an image into SQL, cell by cell, with its error cases and the panics of short data and of a schema with fewer columns |
| RowWalk.WalkAgrees | vt/binlog/binlog_streamer.go:723-840 | over cells that Rows sliced, a decoding walk that succeeds ends exactly at their end, decodes exactly their bytes and meets exactly the columns present |
| RowWalk.ImageAgrees | vt/binlog/binlog_streamer.go:723-840 | so for every well-formed image |
| RowWalk.ParsedRowsWalk | vt/binlog/binlog_streamer.go:723-840 | and for every row of any event that Rows parsed |
| LruSpec.EvictKeepsLongest | cache/lru_cache.go:274-284 | eviction keeps the longest prefix of most recent items that fits, and fits exactly when some prefix does |
| LruSpec.AfterGood | cache/lru_cache.go:80-164 | every operation keeps the keys distinct, the order of use and the total within the capacity |
| LruSpec.FromBefore | cache/lru_cache.go:80-164 | an item after an operation is the one it used, dated now, or one from before it did not use |
| LruSpec.RunGood | cache/lru_cache.go:80-164 | after any run from the empty cache the items stand in the order of the last operation that used their key, within the capacity |
| LruCache.LRUCache.constructor | cache/lru_cache.go:70-76 | an empty cache of the given capacity |
| LruCache.LRUCache.Get | cache/lru_cache.go:80-90 | returns the stored value, and makes exactly that item the most recent |
| LruCache.LRUCache.Peek | cache/lru_cache.go:93-102 | returns the stored value and changes nothing |
| LruCache.LRUCache.Set | cache/lru_cache.go:105-114 | the new item is the most recent, the longest fitting prefix stays, and the evictions are counted; it panics only under a negative capacity |
| LruCache.LRUCache.SetIfAbsent | cache/lru_cache.go:118-127 | an existing item is only touched, an absent one is set |
| LruCache.LRUCache.Delete | cache/lru_cache.go:130-143 | removes exactly the item and reports whether there was one |
| LruCache.LRUCache.Clear | cache/lru_cache.go:146-153 | empties the cache and keeps the capacity |
| LruCache.LRUCache.SetCapacity | cache/lru_cache.go:158-164 | evicts down to the new capacity |
| LruCache.LRUCache.Keys | cache/lru_cache.go:226-235 | the keys, most recently used first |
| LruCache.LRUCache.UpdateInplace | cache/lru_cache.go:251-259 | the size follows the new value |
| LruCache.LRUCache.MoveToFront | cache/lru_cache.go:261-264 | list, table and sizes stay consistent |
| LruCache.LRUCache.AddNew | cache/lru_cache.go:266-272 | list, table and sizes stay consistent |
| LruCache.LRUCache.CheckCapacity | cache/lru_cache.go:274-284 | the loop drops from the back exactly until the rest fits, and panics exactly when nothing fits |
| Batcher.WaitsReturn | sync2/batcher.go:62-89 | over every run, every call of Wait returns exactly once, or is still under way |
| Batcher.BatchServes | sync2/batcher.go:71-89 | over every run, a batch answers with its own id exactly as many callers as waited when it took the counter, but for those it still owes |
| Batcher.ConsecutiveIds | sync2/batcher.go:71-77 | ids are given in the order the intervals end, without gaps |
| Batcher.BooksKept | sync2/batcher.go:62-89 | every step keeps the account: ids owed by batches are exactly the callers waiting for one, and one batch at most is being gathered |
| Batcher.NumbersKept | sync2/batcher.go:71-89 | batch numbers stay distinct and below the counter |
| Batcher.RunKeeps | sync2/batcher.go:62-89 | so does every run |
| Batcher.Reached | sync2/batcher.go:39-89 | so every state reached from a new batcher, by any number of callers, balances |
| Batcher.NobodyForgotten | sync2/batcher.go:62-89 | once no batch is pending or sending, no caller waits |
| Batcher.NeverOwesTooMuch | sync2/batcher.go:71-89 | a batch never has more ids to send than there are callers to take them |
| BucketPool.IndexFits | bucketpool/bucketpool.go:68-80 | a size has a bucket if and only if it is at most the maximum, and then the smallest one that holds it |
| BucketPool.IndexOfBucket | bucketpool/bucketpool.go:68-80 | the size of a bucket leads back to that bucket |
| BucketPool.StrayCapacity | bucketpool/bucketpool.go:68-80 | a capacity between two bucket sizes leads to the larger bucket |
| BucketPool.Pool.constructor | bucketpool/bucketpool.go:49-66 | buckets of doubling sizes up to the maximum, all empty |
| BucketPool.Pool.FindPool | bucketpool/bucketpool.go:68-80 | none exactly above the maximum, otherwise the smallest bucket that holds the size |
| BucketPool.Pool.Get | bucketpool/bucketpool.go:84-92 | a buffer of the asked length and the capacity of its bucket, no longer in the pool |
| BucketPool.Pool.Put | bucketpool/bucketpool.go:95-102 | the buffer goes to the bucket of its capacity or is dropped; the pool stays valid if and only if the capacity is above the maximum, or is a bucket size and the buffer is not pooled already |
| AutomationTasks.HorizontalStages | vt/automation/horizontal_resharding_task.go:31-113 | the plan by position: schemas copied from the first source to every destination, then every source cloned, every destination waited for, the destinations compared one after the other, then read-only, replica and master traffic moved, each task with the parameters of its shard |
| AutomationTasks.VerticalStages | vt/automation/vertical_split_task.go:32-113 | the plan by position: the tables copied from the source keyspace to the destination keyspace, cloned, waited for, compared one after the other, then read-only, replica and master traffic moved |
| AutomationTasks.ValidateParameters | vt/automation/scheduler.go:281-304 | accepts exactly the parameters that are all required or optional and miss none of the required |
| AutomationTasks.RunHorizontalResharding | vt/automation/horizontal_resharding_task.go:31-114 | the loops over the shards build the plan |
| AutomationTasks.RunVerticalSplit | vt/automation/vertical_split_task.go:32-114 | the loops over the shards build the plan |
| AutomationTasks.HorizontalProper | vt/automation/horizontal_resharding_task.go:31-114 | every task of the plan is a known leaf with valid parameters, for any shards |
| AutomationTasks.VerticalProper | vt/automation/vertical_split_task.go:32-114 | every task of the plan is a known leaf with valid parameters, for any shards |
| AutomationTasks.PlansAreProper | vt/automation/scheduler.go:149-158 | so the check of emitted tasks never fails for the built-in plans |
| ClusterOperation.NumberedIs | vt/automation/task_containers.go:47-55 | numbering changes nothing but missing ids, which become consecutive |
| ClusterOperation.InsertedIds | vt/automation/cluster_operation_instance.go:47-55 | ids stay distinct when new tasks are inserted anywhere |
| ClusterOperation.FlatInserted | vt/automation/cluster_operation_instance.go:47-55 | inserting containers inserts exactly their tasks, between those before and those after |
| ClusterOperation.ClusterOperationInstance.constructor | vt/automation/cluster_operation_instance.go:33-44 | one numbered container, not started |
| ClusterOperation.ClusterOperationInstance.GetNextId | vt/automation/id_generator.go:30-32 | a new decimal number |
| ClusterOperation.ClusterOperationInstance.AddMissing | vt/automation/task_containers.go:47-55 | the inner loop numbers the tasks that lack an id |
| ClusterOperation.ClusterOperationInstance.AddMissingTaskIds | vt/automation/task_containers.go:47-55 | the outer loop, container by container |
| ClusterOperation.ClusterOperationInstance.InsertTaskContainers | vt/automation/cluster_operation_instance.go:47-55 | the numbered containers stand at the position, the others keep their order |
| Scheduler.SuccessKeepsPrefix | vt/automation/scheduler.go:136-166 | after the success of the next task, inserted work included, the done tasks are still a prefix, one longer |
| Scheduler.FailureKeepsPrefix | vt/automation/scheduler.go:141-144 | after a failure nothing before it failed and nothing after it has run |
| Scheduler.StepKeeps | vt/automation/scheduler.go:136-166 | everything the loops rely on survives a success |
| Scheduler.FailureKeeps | vt/automation/scheduler.go:141-144 | everything the loops rely on survives a failure |
| Scheduler.UnfoldedNext | vt/automation/scheduler.go:136-166 | the work done, followed by the work to come, is always the work there was at the start |
| Scheduler.PlanExpands | vt/automation/scheduler.go:149-160 | a plan behind its container adds just itself to the work |
| Scheduler.SilentFailure | vt/automation/tasks.go:26-36 | a leaf that fails without an error text is marked like one that succeeded |
| Scheduler.RequestedWork | vt/automation/scheduler.go:307-337 | the whole work of a request: the requested composite, then its plan |
| Scheduler.Scheduler.constructor | vt/automation/scheduler.go:76-94 | both operations are registered, nothing is queued |
| Scheduler.Scheduler.Run | vt/automation/scheduler.go:104-110 | requests are accepted from now on |
| Scheduler.Scheduler.RunTask | vt/automation/scheduler.go:182-205 | the result for every task state; one that is done is not run again; an error without text comes only from a leaf |
| Scheduler.Scheduler.ValidateTaskContainers | vt/automation/scheduler.go:207-217 | accepts exactly the containers of known tasks with valid parameters |
| Scheduler.Scheduler.Checkpoint | vt/automation/scheduler.go:358-363 | records a copy of the operation |
| Scheduler.Scheduler.RunAt | vt/automation/scheduler.go:139-165 | one task is run and marked, and what it emits is inserted behind its container |
| Scheduler.Scheduler.RunContainer | vt/automation/scheduler.go:138-165 | every checkpoint shows the done tasks as a prefix, distinct ids and no stale error; a failure stops the container |
| Scheduler.Scheduler.RunContainers | vt/automation/scheduler.go:136-166 | the loops terminate although tasks add containers; without a failure every task is done without error and the tasks are exactly the expanded work; no error is reported exactly then, or when a leaf failed without a text |
| Scheduler.Scheduler.ProcessClusterOperation | vt/automation/scheduler.go:128-180 | an operation that is not done is run to its end and moved from active to finished: all clean and exactly the expanded work, or failed at one task, whose error it has, with nothing run after it; ids distinct |
| Scheduler.Scheduler.EnqueueClusterOperation | vt/automation/scheduler.go:307-337 | accepted if and only if running, registered and valid; then it has a new id and is active and queued, otherwise nothing changes |
| Scheduler.Scheduler.Admit | vt/automation/scheduler.go:324-336 | the new id is in use nowhere |
| Scheduler.Scheduler.ProcessNext | vt/automation/scheduler.go:119-126 | exactly the first operation is moved from active to finished; without an error, and unless a leaf failed without a text, its tasks are exactly its request and the plan of that, all done without error |
| Scheduler.Scheduler.FindClusterOp | vt/automation/scheduler.go:340-354 | an id is found if and only if it was handed out |

## Left out

- MariaDB GTIDs and positions: only the MySQL 5.6 flavor of positions is modelled; DecodePosition treats any other flavor as an error.
- GTID sets that are not canonical (overlapping, touching or empty intervals, as a hand-written text can produce), sequence numbers below 1, and int64 wrap-around at the largest sequence number.
- TextRoundTrip: holds for canonical sets; what parsing does to other texts is given by ParseGtidSet and the laws of its parts. Sorting of equal starts is taken as stable.
- AddGtid: that the original set stays as it was holds here because sets are values; sharing of interval slices between the old and the new set is not modelled.
- The SQL parser, the keyspace-id annotations, schema, resolver and the text of row statements: parameters of Streamer and KeyRangeFilter.
- KeptCarries: as MultiRowInsert.
- DeliveredIsAssembled: as MultiRowInsert.
- MultiRowInsert: assumes that a formatted insert is not the empty text.
- TokenExact: for streams that do not use PREVIOUS_GTIDS; with it a token follows the position that event carries.
- TokensAdvance: as TokenExact.
- Sockets, TLS, timeouts, write errors and buffering: a connection is the bytes unread and the bytes written.
- Reuse and aliasing of the ephemeral read buffer: packets are returned as values, and StartEphemeralPacket returns a fresh buffer.
- WriteErrorPacket: states of no or five bytes; the formatting of the message is not modelled.
- Authentication, prepared statements and the dispatch of commands.
- The decoded text of cells: CellValue is modelled by success and length, and the validity of a JSON cell is a parameter.
- LengthIsStored: decimals whose scale is at most their precision, as the server declares them.
- StoredRows: as LengthIsStored.
- RowsRoundTrip: version 2 events only, since the writer always emits the extra-data length that version 1 readers do not skip.
- EventRoundTrip: event headers of at least 13 bytes, as Packetize needs.
- The capacity of slices outside of binlog events: there the code compares with the length before it slices.
- Packetize: log positions and lengths that overflow 32 bits.
- NeverPanics: the rules for callers (SetCapacity calls do not overlap, and the capacity goes to zero only with the timer stopped) are shown sufficient, and each is shown needed by a run that panics; not every run that breaks them panics. A caller that puts back more than it got is not modelled.
- Wait statistics, context cancellation and the idle time of resources in the pool: whether a swept resource is old is free, and a Get that waits is a Get that has not happened yet.
- Batcher: int32 wrap-around of the counters; which caller gets which id of several batches is left to the channel.
- RunGood: sizes are not negative; after Delete of an item of negative size the total may exceed the capacity.
- AfterGood: as RunGood.
- The mutex of the LRU cache, and Items, Stats and Oldest, which only read.
- FindPool: the logarithm in floating point is modelled as the least index that fits; a minimum size of zero is excluded.
- Get of the bucket pool: which pooled buffer sync.Pool returns, if any, is a parameter.
- Leaf tasks: their outcome is a parameter. Task and parameter names are a datatype whose constructors stand for the names the code knows, and one more for any other text.
- Sharing of task records between an operation and its checkpoints: tasks are values, so a checkpoint is a copy.
- EnqueueClusterOperation: the bounded queue, concurrent callers and shutdown are not modelled.
- Query planning, the topology service, VTGate, VTTablet, statistics and the remaining packages.
