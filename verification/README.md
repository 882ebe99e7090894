# Verification of the vehicle-tracking core

This project models, in Dafny 4.11, the parts of the vehicle-tracking platform that carry invariants over unbounded
inputs or runs, and proves what those parts are for. `dafny verify dfyconfig.toml` checks everything.

| Part of the system | Files |
|---|---|
| Concox frames: checksum, parsing, per-socket reassembly, encoders | `ConcoxCrc`, `ConcoxFraming`, `ConcoxPackets`, `ConcoxParser`, `ConcoxStream`, `ConcoxCodec` |
| What the server reads from any Concox packet | `ConcoxWire` |
| Concox sessions: overlapping asynchronous handlers on one socket | `ConcoxSession`, `ConcoxSessionLog`, `ConcoxSessionSafety`, `ConcoxPublished`, `ConcoxAwaits` |
| The simulated Concox device and what the server makes of its packets | `ConcoxDevice` |
| Text protocols: delimiter framing with an overflow clear | `TextFraming`, `TextPackets` |
| Coordinates as digits and bytes, there and back | `Coordinates`, `Numbers` |
| Stream writer: Redis consumer group, batches, flushes, crashes | `RedisStreams`, `GpsTable`, `WriterBuffers`, `WriterProtocol`, `WriterMemory`, `WriterSafety`, `WriterRetention`, `WriterRefusal`, `WriterRecovery` |
| Rate limiter | `TokenBuckets`, `RateLimit`, `RateLimitRuns`, `RateLimitBudget`, `RateLimitEviction`, `RateLimitReplies` |
| Reports: window-function queries | `SqlLogic`, `Islands`, `Reports`, `Activity`, `Consolidated` |
| Geofence test | `Geofence` |
| Helpers | `Bytes`, `Wrappers` |

Code that works step by step (the CRC loop, the parser loop, the socket handlers, the writer's buffers, batch inserts,
the token buckets and their map, the polygon loop) is written as methods and classes, each proved equal to a
specification function about which the theorems are then proved. Protocols with awaits are state machines cut at
every await, in which every call to the database or to Redis may fail. Bytes are 8-bit vectors and CRC registers
16-bit vectors; floating-point numbers are real numbers; stream ids, times in milliseconds and counters are integers.
Time is a parameter, and so is the outcome of every external call.

Results worth knowing when changing the code:

- How TCP cuts a Concox stream is invisible when every ASCII message in it has arrived in full by the time the parser
  reaches it (`Robust`), and for streams of up to 10240 bytes only then; frames with unprintable bytes between them
  never depend on it. Extended frames longer than the 10240-byte buffer can never be received.
- For the text protocols the cut is invisible exactly when no segment that holds a packet has more than 10000
  characters before its delimiter; beyond that packets are lost but never corrupted.
- An alarm packet shorter than 31 info bytes passes the parser's own length guard of 26 but then makes it throw, so
  no packet results; the model follows the code.
- A comment in the writer says that entries not acknowledged are read again by the next XREADGROUP. The code reads
  them again only in `readPending` when it starts, and at most 1000 of them; the theorems say exactly that.
- An alarm's acknowledgement, alert and location are published across awaits: each carries the IMEI of the login
  that was last when it went out.
- One row that PostgreSQL refuses, such as one with a fractional speed from the AIS140 parser or without a device time,
  and equally two entries of one vehicle, make a flush fail for ever: the batch is put back and everything that is
  batched with it waits, unacknowledged, for as long as the process lives. The refused row itself is never
  acknowledged by any process.
- An entry whose JSON is null throws out of the batch every time it is tried; the rest of the batch waits for a restart.
- Pruning the bucket map can never be noticed; evicting from it can, exactly when the bucket has not refilled. A key
  keeps to its budget exactly as long as its own bucket is never evicted before it has refilled; what happens to other
  keys does not matter.
- Two points of one vehicle in one read are enough for a batch that can never be flushed.
- Concox positions south or west, as the device simulator encodes them, come back north or east: it always sets the
  two hemisphere bits that way. A position that rounds to zero degrees and minutes comes back as null.
- Points with an unknown or negative speed are in no activity category; their time is what the report is short of.

## Model

| member | source | states |
|---|---|---|
| ConcoxCrc.CrcItu | tcp-server/parser/concoxCrc.js:53-59 | the table-driven loop computes the bit-by-bit FCS of appendix C.2 of RFC 1662, for every byte string |
| ConcoxCrc.TableIsEightShifts | tcp-server/parser/concoxCrc.js:8-51 | all 256 table entries are eight shifts of their index through polynomial 0x8408 |
| ConcoxCrc.BurstChangesRegister | tcp-server/parser/concoxCrc.js:53-59 | bit strings that differ only inside a 16-bit window leave different registers, from any start |
| ConcoxCrc.BurstDetected | tcp-server/parser/concoxCrc.js:53-59 | every error burst of up to 16 bits, anywhere in a string of any length, changes the CRC |
| ConcoxCrc.AdjacentBytesDetected | tcp-server/parser/concoxCrc.js:53-59 | changing one byte or two adjacent bytes changes the CRC |
| ConcoxCrc.DifferencePersists | tcp-server/parser/concoxCrc.js:53-59 | equal input never brings two different registers back together |
| ConcoxFraming.ParseIsSound | tcp-server/parser/concoxParser.js:694-876 | pieces and remainder concatenate to the buffer, every frame has its start, length, stop bytes and CRC, every ASCII piece starts printable and ends at its first CR LF, the remainder waits |
| ConcoxFraming.RemainderIsFinal | tcp-server/parser/concoxParser.js:875-876 | parsing the remainder again finds nothing and keeps it unchanged |
| ConcoxFraming.FrameIsLocal | tcp-server/parser/concoxParser.js:745-797 | a string is a well-formed frame exactly when the parser takes all of it as one, whatever follows |
| ConcoxFraming.FrameShape | tcp-server/parser/concoxParser.js:745-797 | byte by byte what an accepted frame is: start and stop bytes, what its one or two length bytes count, and the CRC of what |
| ConcoxFraming.TextShape | tcp-server/parser/concoxParser.js:706-737 | and what an ASCII message is |
| ConcoxFraming.ShortNeverMatches | tcp-server/parser/concoxParser.js:775-797 | length bytes 0 and 1 never pass the CRC of the empty slice |
| ConcoxFraming.SmallestFrame | tcp-server/parser/concoxParser.js:800-814 | accepted frames have at least 7 bytes (10 if extended), so the serial number is always inside |
| ConcoxFraming.DamagedFrameIsRejected | tcp-server/parser/concoxParser.js:784-797 | a frame hit by one burst of up to 16 bits between length and CRC is never accepted at its position |
| ConcoxPackets.DecodeImei | tcp-server/parser/concoxParser.js:103-110 | the loop appends both nibbles of each byte and drops one leading zero |
| ConcoxPackets.ParseFields | tcp-server/parser/concoxParser.js:501-585 | the sub-field loop of information packets, with its truncation exits, computes the recursive reading |
| ConcoxPackets.FieldsRoundTrip | tcp-server/parser/concoxParser.js:501-585 | any list of sub-fields, written one after the other with a fuel text last, is read back |
| ConcoxPackets.AlarmNeedsItsCode | tcp-server/parser/concoxParser.js:388-424 | an alarm gives a packet exactly from 31 info bytes on, although the guard says 26 |
| ConcoxWire.GpsWireRead | tcp-server/parser/concoxParser.js:154-197 | any position block reads back: satellites, signed units, speed, ten bits of heading, the fixed bit and the course word, whatever the other bits are |
| ConcoxWire.HemispheresRoundTrip | tcp-server/parser/concoxParser.js:154-197 | every position on the globe, in all four hemispheres and under every heading, decodes to itself within the format's rounding, and is on the globe |
| ConcoxWire.LoginRead | tcp-server/parser/concoxParser.js:224-245 | a login is accepted exactly when its first eight bytes are sixteen decimal digits, and its IMEI is these, without a leading 0 |
| ConcoxWire.HeartbeatRead | tcp-server/parser/concoxParser.js:255-292 | heartbeats of both kinds give ignition, battery and signal percentages by the documented tables, and language word |
| ConcoxWire.LocationRead | tcp-server/parser/concoxParser.js:314-372 | locations give their position, ignition and liveness, and the nearest kilometre of their mileage if they have one |
| ConcoxWire.AlarmRead | tcp-server/parser/concoxParser.js:388-472 | alarms give code, ignition, levels and position, and fence and mileage as their kind has them |
| ConcoxWire.NothingRead | tcp-server/parser/concoxParser.js:816-872 | contents too short for their kind, or of no kind, give no packet |
| ConcoxWire.OthersRead | tcp-server/parser/concoxParser.js:842-866 | information, time checks and command answers come under their protocol numbers |
| ConcoxParser.FindCrlf | tcp-server/parser/concoxParser.js:712-719 | the scan finds the first CR LF of the rest of the buffer, or none |
| ConcoxParser.TakeText | tcp-server/parser/concoxParser.js:708-737 | outside frames the parser takes a printable message up to its CR LF or skips one byte |
| ConcoxParser.TakeFrame | tcp-server/parser/concoxParser.js:740-872 | on start bytes it waits, moves on one byte, or takes the frame and its packet |
| ConcoxParser.ParseConcoxBuffer | tcp-server/parser/concoxParser.js:690-877 | the loop over positions terminates, stays inside the buffer, and returns the packets and remainder of the specified parse |
| ConcoxStream.ParseInTwo | tcp-server/server.js:477-495 | parsing a prefix, then its remainder with the rest, is parsing everything at once |
| ConcoxStream.RunIsParse | tcp-server/server.js:471-497 | any run whose buffer never overflows ends as one parse of the whole stream |
| ConcoxStream.RobustCutsDoNotMatter | tcp-server/server.js:471-497 | for a stream of any length whose ASCII messages are complete when reached, all ways of cutting it that fit into the buffer give the one-shot parse |
| ConcoxStream.ChunkingTheorem | tcp-server/server.js:471-497 | and among the streams of at most 10240 bytes, for those only |
| ConcoxStream.CleanRun | tcp-server/server.js:471-497 | for frames with unprintable bytes between them: exactly the frames, in order, and exactly the unfinished tail |
| ConcoxStream.UnfinishedFrameWaits | tcp-server/parser/concoxParser.js:745-772 | every proper prefix of a frame waits for more |
| ConcoxStream.ShortChunksDeliver | tcp-server/server.js:474-482 | with frames up to a limit and chunks up to 10240 minus that limit, the buffer never overflows and nothing is lost |
| ConcoxStream.NormalFrameIsShort | tcp-server/parser/concoxParser.js:745-760 | normal frames have at most 260 bytes |
| ConcoxStream.LongFramesAreLost | tcp-server/server.js:478-482 | a frame longer than 10240 bytes is never reported, however it arrives |
| ConcoxStream.OverflowForgets | tcp-server/server.js:477-482 | after an overflow the rest of the stream is read as by a new connection |
| ConcoxCodec.FrameFits | scripts/deviceSimulator.js:361-378 | an encoded frame is well formed exactly for up to 250 info bytes |
| ConcoxCodec.FrameFields | scripts/deviceSimulator.js:361-378 | protocol, info and serial are read back from an encoded frame |
| ConcoxCodec.EncodeParse | scripts/deviceSimulator.js:361-378 | any list of messages, encoded and concatenated, parses back to that list with nothing left |
| ConcoxCodec.ExtendedFits | tcp-server/parser/concoxParser.js:762-797 | a frame of the extended kind is well formed exactly when its length fits two bytes |
| ConcoxCodec.ExtendedFields | tcp-server/parser/concoxParser.js:800-814 | and its protocol, info and serial are read back |
| ConcoxCodec.AckIsFrame | tcp-server/parser/concoxParser.js:590-670 | every acknowledgement is one well-formed empty frame with the given protocol number and serial |
| ConcoxCodec.DocumentedAcks | tcp-server/parser/concoxParser.js:582-670 | the three acknowledgements are the documented examples, byte by byte, CRC included |
| ConcoxCodec.PackImei | scripts/deviceSimulator.js:344-351 | the loop packs sixteen padded digits, two a byte |
| ConcoxCodec.ImeiRoundTrip | scripts/deviceSimulator.js:344-351 | decoding a packed IMEI gives it back exactly for 15 digits, or 16 that do not start with 0 |
| ConcoxCodec.LoginRoundTrip | tcp-server/parser/concoxParser.js:224-245 | a login with a packed 15-digit IMEI is accepted under that IMEI |
| ConcoxSession.Connection.OnData | tcp-server/server.js:471-494 | a data event appends, clears on overflow, parses under the session's IMEI and carries the remainder over |
| ConcoxSessionSafety.PublishedUnderLogin | tcp-server/server.js:529-688 | in every interleaving, locations and alerts go out under the last login before them, never before one; locations have a fix in range; raw copies go out under an earlier login or their own |
| ConcoxSessionSafety.OneAckEach | tcp-server/server.js:542-650 | the acknowledgements sent are one for each login, heartbeat and post-login alarm, in order, well formed, echoing protocol number and serial |
| ConcoxPublished.PositionsConserved | tcp-server/server.js:556-688 | in every interleaving the positions published, those of alarms whose alert is unanswered and those of alarms whose alert failed are exactly the publishable positions of the locations and alarms handled after a login, each once |
| ConcoxPublished.PublishedAtOnce | tcp-server/server.js:593-650 | a publishable location goes out the moment it is handled, under the last login, and an alarm's alert right after its acknowledgement, with the packet's own position and code |
| ConcoxPublished.OneAlertEach | tcp-server/server.js:626-658 | the alerts published are one for each alarm handled after a login, in order, under that login |
| ConcoxPublished.InvalidAreDroppedOrFailed | tcp-server/server.js:557-742 | the invalid count is the packets dropped, before a login or without a publishable position, plus the publications that failed |
| ConcoxPublished.RawCopiesAsDue | tcp-server/server.js:529-538 | raw copies go out when a packet is begun, under its own IMEI or else the session's, in order, and only then |
| ConcoxPublished.HandlersAdvance | tcp-server/server.js:497-509 | every answer to an awaited call brings its handler nearer to the end of its packets |
| ConcoxAwaits.AllAreAwaited | tcp-server/server.js:529-688 | the publications made are exactly those answered and those a handler is waiting for: none goes unawaited |
| ConcoxSessionSafety.PacketsConserved | tcp-server/server.js:497-509 | the packets handled and those waiting are exactly those that arrived |
| ConcoxSessionSafety.ArrivedIsRun | tcp-server/server.js:452-509 | whatever the handlers do meanwhile, the packets that reach them are those of the socket loop over the chunks, in order, apart from the session IMEI they carry |
| ConcoxSessionSafety.ArrivedIsParse | tcp-server/server.js:452-509 | from the bytes to the handlers: for a stream that may be cut anywhere, the packets that arrive are those of one parse of the whole stream |
| ConcoxSessionSafety.CountsAddUp | tcp-server/server.js:497-742 | received = parsed + invalid + in progress |
| ConcoxSessionSafety.StepKeeps | tcp-server/server.js:452-743 | every data event and every step of a handler to its next await keeps the invariant |
| ConcoxDevice.Device.NextSerial | scripts/deviceSimulator.js:353-356 | serial numbers go up by one and wrap after 0xFFFF |
| ConcoxDevice.Device.MakeLogin | scripts/deviceSimulator.js:381-387 | a frame that the server reads as the login of the device's 15-digit IMEI under its next serial number |
| ConcoxDevice.Device.MakeLocation | scripts/deviceSimulator.js:400-456 | a frame that the server reads as a live location with ignition, mileage and next serial number and a fix within rounding, in the published range when the device is on the globe; it throws, using no serial number, exactly when a coordinate does not fit 32 bits |
| ConcoxDevice.Device.MakeHeartbeat | scripts/deviceSimulator.js:390-398 | a frame that the server reads as a heartbeat with the ignition, 80 % battery, 75 % signal and the next serial number |
| ConcoxDevice.Device.MakeAlarm | scripts/deviceSimulator.js:459-502 | a frame that the server reads as an alarm with its code and the next serial number and such a fix, or a throw on the same condition |
| ConcoxDevice.LoginArrives | tcp-server/parser/concoxParser.js:224-245 | the server reads one login under the device's IMEI, with its serial number |
| ConcoxDevice.HeartbeatArrives | tcp-server/parser/concoxParser.js:255-292 | the server reads one heartbeat with the ignition, 80 % battery, 75 % signal and the serial number |
| ConcoxDevice.LocationArrives | tcp-server/parser/concoxParser.js:314-372 | the server reads one live location with ignition, mileage, speed, satellites and serial number, and a valid fix within rounding that on the globe is in the range it publishes |
| ConcoxDevice.AlarmArrives | tcp-server/parser/concoxParser.js:388-472 | the server reads one alarm with its code, levels, mileage and serial number, and such a fix |
| ConcoxDevice.SpeedIsNear | scripts/deviceSimulator.js:417-425 | the speed byte is the nearest whole speed, or 255 |
| ConcoxDevice.FrameArrives | tcp-server/parser/concoxParser.js:800-872 | an encoded frame alone in the buffer gives exactly the packet its contents call for and leaves nothing |
| TextFraming.TextSocket.Receive | tcp-server/server.js:174-215 | the handler with its indexOf loop reports the packets of buffer and data, keeps the tail, clears it above 10000, and refuses a first chunk that starts like Concox |
| TextFraming.DollarIsLast | tcp-server/server.js:195-200 | a packet is the segment from its last dollar sign on |
| TextFraming.Resume | tcp-server/server.js:186-193 | what came before the last delimiter is done with: only the tail matters for what follows |
| TextFraming.ChunkingTheorem | tcp-server/server.js:174-215 | every cut reports the stream's packets if and only if no packet's segment has more than 10000 characters before its delimiter |
| TextFraming.CalmRun | tcp-server/server.js:174-215 | a run without an overflow reports exactly the stream's packets and holds exactly its tail |
| TextFraming.NeverCorrupts | tcp-server/server.js:211-215 | with overflow clears, what is reported is still an in-order part of the stream's packets |
| TextFraming.MarkedIsRefused | tcp-server/server.js:175-185 | a connection whose first data starts with the Concox markers never reports anything |
| TextPackets.PacketsArrive | tcp-server/server.js:189-204 | any list of packets, with any noise before each, is reported exactly as sent, and an unfinished line waits |
| TextPackets.LinesArrive | tcp-server/server.js:174-215 | from the bytes: lines of at most 10000 characters before the delimiter arrive however the stream is cut |
| TextPackets.ConcoxIsRefused | tcp-server/server.js:175-185 | a connection whose first data event starts with 78 78 or 79 79 reports nothing, ever |
| TextPackets.TextIs | tcp-server/server.js:186 | each byte becomes the character of its low seven bits |
| Numbers.ToFixedIsNear | tcp-server/utils/gpsConverter.js:27 | toFixed moves a number by at most half of its last decimal |
| Coordinates.DdmText | scripts/deviceSimulator.js:103-109 | the digits written are read back as 100 times the degrees plus the rounded minutes, 60.0000 included |
| Coordinates.DdmRoundTrip | tcp-server/utils/gpsConverter.js:14-28 | decoding an encoded coordinate is null exactly when it rounds to zero, and otherwise off by at most 0.00005/60 + 0.00000005 |
| Coordinates.RemainderIs | tcp-server/utils/gpsConverter.js:19 | the remainder keeps the number's sign, is smaller than the divisor and a multiple of it away |
| Coordinates.DdmReads | tcp-server/utils/gpsConverter.js:14-29 | any text of degrees and decimal minutes is read as the degrees it says, negative for south and west, within half of the seventh decimal, and null exactly for zero |
| Coordinates.NotANumber | tcp-server/utils/gpsConverter.js:15-16 | and what starts neither with a digit nor with a point and a digit is no number |
| Coordinates.DirectionIs | scripts/deviceSimulator.js:146-149 | the hemisphere letters the simulator writes |
| Coordinates.UnitsRoundTrip | scripts/deviceSimulator.js:417-430 | a Concox position decodes within 1/3600000 + 0.00000005 degree of its absolute values, and of itself exactly when north and east |
| Coordinates.UInt32RoundTrip | tcp-server/parser/concoxParser.js:158-161 | four big-endian bytes are read back |
| RedisStreams.ReadPendingIsXPending | backend/streams/redisStreams.js:77-90 | reading the range and filtering gives back exactly the ids XPENDING listed |
| RedisStreams.RecoveryIsComplete | backend/streams/redisStreams.js:77-90 | recovery reads the oldest pending entries, all of them exactly when there are at most 1000 |
| GpsTable.InsertAllLookup | backend/models/gpsModel.js:20-43 | old rows stay, and of the new ones each vehicle and device time, as PostgreSQL reads them, keeps its first |
| GpsTable.RepeatsDoNotMatter | backend/models/gpsModel.js:20-83 | however often rows are inserted, the table is that of each distinct row once, first come first |
| GpsTable.BuildInsert | backend/models/gpsModel.js:54-73 | the running placeholder counter binds every row to its own values |
| GpsTable.FractionIsRefused | database/schema.sql:126-146 | a row with speed 45.5, or without a device time, is refused however texts are read |
| GpsTable.NumbersStored | database/schema.sql:126-146 | for rows of plain numbers, exactly which ones the columns take |
| GpsTable.MissingColumns | database/schema.sql:126-146 | only vehicle, latitude, longitude and device time must be there |
| GpsTable.KindsStored | database/schema.sql:126-146 | booleans are refused where numbers go, and of numbers only 0 and 1 are taken for booleans |
| GpsTable.TextsStored | database/schema.sql:126-146 | a text is taken as what PostgreSQL reads in it, and refused if it reads nothing |
| GpsTable.AcceptableIs | backend/models/gpsModel.js:50-83 | PostgreSQL takes a statement of storable rows up to 4681 of them |
| GpsTable.BatchIsRowByRow | backend/models/gpsModel.js:50-83 | the multi-row insert does what savePoint does row by row if and only if every row is storable and there are at most 4681, or savePoint would have added nothing |
| GpsTable.OneRefusedRowLosesAll | backend/models/gpsModel.js:50-83 | a row without a device time takes the good row before it down with it |
| GpsTable.GpsModel.SavePoint | backend/models/gpsModel.js:20-43 | it throws exactly when the columns refuse the row; otherwise the row is added unless its key is taken |
| GpsTable.GpsModel.SavePointsBatch | backend/models/gpsModel.js:50-83 | it throws, storing nothing, exactly when a row is refused or there are too many; otherwise the rows are added in order |
| WriterBuffers.Writer.Buffer | writer/server.js:126-145 | one entry goes into all three buffers: a row that records its reading column by column, a state row that agrees with it, and its id; the flush is due on rows or time |
| WriterBuffers.AlignedRecords | writer/server.js:126-137 | at every index of aligned buffers both rows record the reading of the entry whose id is there |
| WriterBuffers.Writer.TakeAll | writer/server.js:164-172 | a flush takes all three buffers and leaves them empty |
| WriterBuffers.Writer.PutBack | writer/server.js:193-196 | a failed flush goes back in front of all three buffers |
| WriterBuffers.FailedFlushIsUndone | writer/server.js:188-199 | after a failed flush the buffers are as if it had not been tried, whatever came in meanwhile |
| WriterProtocol.FlushIsDue | writer/server.js:139-145 | a flush begins exactly when the new row fills the buffer or the time is up, and takes everything buffered |
| WriterProtocol.TimerFlushes | writer/server.js:205-224 | the timer can flush whatever is buffered, all of it |
| WriterProtocol.StopsAndReadsOn | backend/streams/redisStreams.js:133-152 | a process asked to stop reads nothing more, and the one started after it reads on from Redis' cursor |
| WriterBuffers.PushAligned | writer/server.js:126-137 | buffering keeps the buffers aligned with the stream index by index |
| WriterBuffers.RequeueAligned | writer/server.js:193-196 | requeueing keeps them aligned |
| WriterProtocol.StepInv | writer/server.js:93-224 | every step of the protocol keeps the invariant: alignment at every await, and only safe ids on their way to XACK |
| WriterProtocol.RunInv | backend/streams/redisStreams.js:110-152 | so does every run, with crashes, failures and late replies anywhere |
| WriterMemory.Conservation | writer/server.js:93-224 | every step conserves the entries: what was in memory and what comes in is what stays and what goes to XACK, or is given up by an exit or an exception |
| WriterMemory.StepOnePlace | writer/server.js:93-224 | every step keeps each entry in one place only, and only delivered ones |
| WriterSafety.AcknowledgedIsStored | writer/server.js:93-224 | in every run an acknowledged entry makes a storable row whose key is in gps_points, or was malformed, or had an unregistered IMEI |
| WriterSafety.AcknowledgedHasRow | writer/server.js:93-224 | in terms of the table alone: unless malformed or unregistered, an acknowledged entry's vehicle has a row of its device time |
| WriterSafety.RefusedIsNeverAcknowledged | writer/server.js:161-201 | an entry whose row the columns refuse under every vehicle it was resolved to is never acknowledged |
| WriterSafety.RedisAccounts | backend/streams/redisStreams.js:110-152 | Redis keeps each delivered entry as pending or acknowledged |
| WriterRetention.OnlyTheseStrand | writer/server.js:93-224 | a step makes the process let go of an entry it has not sent if and only if it ends the process or is an exception out of processBatch while that holds the entry |
| WriterRetention.NothingIsLost | writer/server.js:188-199 | in every run without crash, signal, such an exception or failed read, a delivered entry is acknowledged, or pending and in the writer's memory or sent; this needs the requeue |
| WriterRetention.RecoveredIsSent | backend/streams/redisStreams.js:77-127 | after any run, a crash and a recovery of at most 1000 entries: in every such continuation all of them stay in hand until sent, and have been sent whenever the loop is idle with nothing buffered or in flight |
| WriterSafety.TableIsFirstCommits | backend/models/gpsModel.js:20-83 | gps_points equals each distinct committed row inserted once in first-commit order, and every row is storable and comes from a delivered entry |
| WriterSafety.TableRecords | writer/server.js:126-130 | in every run each row of gps_points records, column by column, the reading of a delivered entry under a vehicle it was resolved to |
| WriterSafety.MemoryRecords | writer/server.js:126-137 | so does every row that is buffered or in a flush, and the state row beside it agrees on every column they share |
| WriterSafety.OneRowAnInstant | database/schema.sql:144 | the table never has two rows of one vehicle and one instant |
| WriterSafety.NoEntryTwice | writer/server.js:161-201 | no entry is ever in two of: a batch in work, its ids to return, the buffer and the flushes |
| WriterSafety.RestartRecovers | backend/streams/redisStreams.js:77-127 | after any run and a crash, recovery hands over all pending entries exactly when there are at most 1000 |
| WriterRetention.LookupFailureStrands | writer/server.js:97-111 | a failing vehicle lookup, or an entry whose JSON is null, drops the batch in work from memory and leaves it pending |
| WriterRetention.LostReadStrands | backend/streams/redisStreams.js:55-61 | entries whose delivery reply is lost are pending and not in memory |
| WriterRetention.OnlyRecoveryRetries | backend/streams/redisStreams.js:55-75 | a dropped entry is not tried again in any run without a recovery |
| WriterRefusal.RefusedBatchSticks | writer/server.js:188-200 | in every run without crash or shutdown, each entry of a batch that PostgreSQL does not take (one refused row, too many rows, or a vehicle twice) stays in such a batch and is not sent to XACK |
| WriterRefusal.RefusedIsNotCommitted | backend/models/gpsModel.js:75-82 | meanwhile no entry of a batch with a refused row is in a statement that is committed |
| WriterRefusal.OrdinaryBatchesStick | backend/models/gpsModel.js:89-134 | two entries of one vehicle, or one speed of 45.5, make such a batch |
| WriterRefusal.OrdinaryRunEndsStuck | writer/server.js:93-224 | from the start, with nothing failing: two points of one vehicle in one read end in such a batch |
| WriterRefusal.OrdinaryRunSticks | writer/server.js:188-200 | and neither is acknowledged in any continuation without crash or shutdown |
| WriterRecovery.OnlyClearableIsAcknowledged | writer/server.js:93-224 | with a fixed registry, in every run, crashes and failures included, only clearable entries are acknowledged: malformed, unregistered, or storable under the registered vehicle |
| WriterRecovery.UnclearableStays | writer/server.js:93-224 | an entry that is not clearable stays in the writer's memory in every calm run |
| WriterRecovery.RecoveryClearsExactly | backend/streams/redisStreams.js:110-131 | after any run with at most 1000 entries pending, a crash and a recovery can be carried on calmly until nothing is left to do if and only if every pending entry is clearable |
| WriterRecovery.PendingCanBeCleared | writer/server.js:161-201 | and then some calm continuation leaves nothing pending and everything acknowledged |
| TokenBuckets.TokenBucket.Take | backend/middleware/rateLimit.js:34-44 | refill up to capacity, then grant or refuse |
| TokenBuckets.TokenBucket.RetryAfterSec | backend/middleware/rateLimit.js:45-48 | the rounded-up deficit over the rate |
| TokenBuckets.TakeKeepsSound | backend/middleware/rateLimit.js:34-44 | tokens stay between 0 and the capacity |
| TokenBuckets.RetryAfterIsLeast | backend/middleware/rateLimit.js:45-48 | waiting a whole number of seconds suffices exactly when it is at least retryAfterSec |
| TokenBuckets.RefusalWaits | backend/middleware/rateLimit.js:45-48 | after a refusal the wait is at least a second |
| TokenBuckets.WindowBound | backend/middleware/rateLimit.js:27-49 | any stretch of any history is granted at most capacity plus refill |
| TokenBuckets.ConformingIsNeverRefused | backend/middleware/rateLimit.js:27-49 | starting full, no call is refused if and only if no stretch asks for more than that bound |
| RateLimit.Limiter.GetBucket | backend/middleware/rateLimit.js:65-78 | the key's bucket, made full if new, in place of the oldest when the map is full |
| RateLimit.Limiter.Handle | backend/middleware/rateLimit.js:144-173 | reads pay by user and then by address, writes by user; a refusal carries Retry-After |
| RateLimit.Limiter.Prune | backend/middleware/rateLimit.js:56-63 | deleting idle entries while iterating leaves exactly those used within half an hour, in order |
| RateLimitReplies.RefusalTells | backend/middleware/rateLimit.js:45-48 | a refusal comes from a key with less than a token, and its Retry-After is at least a second and the least number of whole seconds after which a charge of that key is granted |
| RateLimitReplies.RunRefusals | backend/middleware/rateLimit.js:144-173 | so in every run from start, for reads by user, reads by address and writes |
| RateLimitReplies.BudgetInNumbers | backend/middleware/rateLimit.js:139-170 | at start exactly 100 reads of a user, 600 of an address and 30 writes pass at one instant, and a minute refills them |
| RateLimitReplies.PrunedIs | backend/middleware/rateLimit.js:56-63 | a pruning forgets exactly the keys untouched for more than 1800000 ms and keeps the others in order |
| RateLimitRuns.PruningIsInvisible | backend/middleware/rateLimit.js:56-78 | the bounded and pruned map gives the same replies, Retry-After included, as one that keeps every bucket for ever, as long as no eviction throws away a bucket that has not refilled, however many keys come and go |
| RateLimitRuns.NoEvictionsSpare | backend/middleware/rateLimit.js:69-73 | so in particular while the pruned map is never full when a new key comes |
| RateLimitEviction.EvictionShowsNow | backend/middleware/rateLimit.js:144-173 | after a request that evicts a bucket that has not refilled, requests can be found by whose replies the map is told from one that keeps every bucket |
| RateLimitEviction.EvictionShows | backend/middleware/rateLimit.js:65-78 | the converse of PruningIsInvisible: any run that evicts such a bucket has a part after which requests can be found whose replies differ |
| RateLimitBudget.BudgetKept | backend/middleware/rateLimit.js:139-174 | in any stretch of any run that does not evict a key's own bucket before it has refilled, whatever else it evicts, at most capacity plus refill of the key's tokens are taken, and no more requests let through at its expense |
| RateLimitBudget.LetThroughIsTaken | backend/middleware/rateLimit.js:144-173 | a request let through has taken a token of each key it pays for; only a user's reads take one and can still be refused |
| RateLimitBudget.EvictionBreaksBudget | backend/middleware/rateLimit.js:69-73 | if a run evicts a key's bucket before it has refilled, a burst right after breaks the key's bound in some stretch |
| RateLimitBudget.BudgetKeptExactly | backend/middleware/rateLimit.js:65-78 | for writes and for reads by address: every stretch of the run, and of a burst after any part of it, keeps the bound if and only if the run never evicts that key's bucket before it has refilled |
| RateLimitEviction.BudgetBroken | backend/middleware/rateLimit.js:69-73 | whatever the map's size, one user can get 60 writes through at one instant, twice the budget |
| RateLimitEviction.EvictionForgives | backend/middleware/rateLimit.js:69-73 | with the map full, a new key makes the oldest key's next request succeed, even one refused before |
| Islands.SameIsland | backend/modules/reports/repositories/reportRepository.js:18-31 | two flagged rows have the same island id exactly when every row between them is flagged |
| Islands.RunsAreMaximal | backend/modules/reports/repositories/reportRepository.js:44-45 | the runs listed are exactly the maximal ones, from left to right |
| Islands.RunsAreDisjoint | backend/modules/reports/repositories/reportRepository.js:44-45 | maximal runs neither overlap nor touch |
| Islands.GroupIsRun | backend/modules/reports/repositories/reportRepository.js:44-45 | the group of a run's island id is that run |
| Islands.GroupsAreRuns | backend/modules/reports/repositories/reportRepository.js:10-47 | grouping by island id is listing the maximal runs, NULL flags included |
| Reports.TripsAreMovingRuns | backend/modules/reports/repositories/reportRepository.js:8-51 | getTrips returns exactly the maximal runs of points with ignition on or a speed above 0 that last longer than a minute, in time order and apart, with the ends' times and places, the greatest and the average known speed and the distance by odometer |
| Reports.StoppagesAreStoppedRuns | backend/modules/reports/repositories/reportRepository.js:178-211 | getStoppages returns exactly the maximal runs of points with speed 0 and ignition not on that last longer than a minute |
| Reports.OverspeedingAreFastRuns | backend/modules/reports/repositories/reportRepository.js:139-173 | getOverspeeding returns exactly the maximal runs above the limit of more than one point, with greatest and average speed |
| SqlLogic.AvgIs | backend/modules/reports/repositories/reportRepository.js:34-42 | AVG is the value around which the known values balance; NULLs count for nothing |
| SqlLogic.ThreeValued | backend/modules/reports/repositories/reportRepository.js:13 | OR and AND with NULLs |
| Activity.TimeConserved | backend/modules/reports/repositories/reportRepository.js:76-97 | running, idle and stopped seconds never exceed the elapsed time and add up to it exactly when every speed but the last is known and not negative |
| Activity.ActivityIs | backend/modules/reports/repositories/reportRepository.js:76-97 | running, idle and stopped are each the time after the points with speed above 0, with speed 0 and ignition on, and with speed 0 otherwise |
| Activity.NeverMovedNeverIdle | backend/modules/reports/repositories/reportRepository.js:89-90 | without a speed above 0 there is no running time, and without ignition no idle time |
| Activity.OverspeedingFitsInRunning | backend/modules/reports/repositories/reportRepository.js:76-173 | the time above any limit fits in the running seconds |
| Activity.TripsAndStoppagesFit | backend/modules/reports/repositories/reportRepository.js:8-97 | total stoppage time fits in the stopped seconds, total trip time in what they leave |
| Activity.TripsFitInRunningAndIdle | backend/modules/reports/repositories/reportRepository.js:8-97 | with known speeds, total trip time fits in the running and idle seconds |
| Consolidated.ConsolidatedIsActivity | backend/modules/reports/repositories/reportRepository.js:216-239 | whatever order the table has, each vehicle's row of the partitioned query is getActivity over that vehicle's points in device-time order |
| Activity.EventsStartRuns | backend/modules/reports/repositories/reportRepository.js:117-135 | a row is reported exactly when a maximal run of its ignition value starts there |
| Activity.EventsAre | backend/modules/reports/repositories/reportRepository.js:117-135 | the events are those rows, one each and in order, with their time, place and new ignition |
| Activity.EventsRebuildIgnition | backend/modules/reports/repositories/reportRepository.js:117-135 | the events rebuild the ignition column at every point where it is known |
| Geofence.IsPointInPolygon | backend/subscribers/locationSubscriber.js:54-64 | the loop over i and j computes the parity of the crossed edges around the polygon |
| Geofence.CrossesBySide | backend/subscribers/locationSubscriber.js:59-60 | the quotient test is a test of the side of the edge the point lies on |
| Geofence.OutsideTheBox | backend/subscribers/locationSubscriber.js:54-64 | a point outside the vertices' bounding box is outside |
| Geofence.BoxIsHalfOpen | backend/subscribers/locationSubscriber.js:54-64 | a box holds exactly the points within it, its southern and western sides included, the northern and eastern excluded |
| Geofence.RotationInvariant | backend/subscribers/locationSubscriber.js:54-64 | starting the vertex list elsewhere does not change the answer |
| Geofence.ReversalInvariant | backend/subscribers/locationSubscriber.js:54-64 | nor does listing it backwards |
| Geofence.ExtraVertexInvariant | backend/subscribers/locationSubscriber.js:54-64 | nor does a further vertex on an edge |
| Geofence.CutAlongChord | backend/subscribers/locationSubscriber.js:54-64 | cut along any chord, the point is in exactly one piece if it is in the polygon, and in both or none if not |
| Geofence.PolygonIsFan | backend/subscribers/locationSubscriber.js:54-64 | a polygon's answer is the parity of the answers of its fan of triangles |
| Geofence.MixIsInside | backend/subscribers/locationSubscriber.js:54-64 | every proper mixture of a triangle's corners is inside |
| Geofence.InsideIsMix | backend/subscribers/locationSubscriber.js:54-64 | every point reported inside a triangle is a mixture of its corners |

## Left out

- Floating-point rounding: coordinates, tokens and aggregates are real numbers; only the roundings the code asks for (`Math.round`, `toFixed`, `Math.ceil`) are modelled.
- `processPacket` for the text protocols (tcp-server/server.js:268-413): it refers to a socket that is not among its parameters, so its cap and resume branches give no usable reference. The model ends where a packet is handed to it.
- Concox backpressure: the pause test reads a counter that nothing in the file increments, so the branch is never taken.
- Device date and time fields, alarm name tables, terminal-status text and log output: values that are passed on and decide nothing.
- The other fields of a published location or alert (ignition, mileage, levels, texts, times) ride along with the position and are not in the session's events.
- Cell tower blocks, and status bits other than the ignition's: the simulator sends them and the parser keeps them as metadata that nothing uses.
- Socket closing in the Concox session: `connectedDevices` bookkeeping and timeouts.
- `updateLatestStatesBatch`: modelled as a call that may fail, and must when a vehicle occurs twice; which row `vehicle_latest_state` ends up with is not.
- How PostgreSQL reads texts as numbers, booleans, timestamps and UUIDs, and which vehicles exist, are parameters (`Reader`) that do not change during a run; deleting a vehicle meanwhile is not modelled.
- Stored rows are kept as they were sent; that the DECIMAL columns round them to their scale is only in what they accept.
- RateLimitBudget.BudgetKeptExactly: not stated for a user's reads, whose burst also charges an address and may by that evict the user itself; BudgetKept and EvictionBreaksBudget hold for them as for all keys, in tokens taken.
- Recovery: a restarted writer is taken to have the consumer name it had before; when neither HOSTNAME nor CONSUMER_NAME is set the name contains the process id, and then nothing is recovered.
- Trimming: the stream is taken to keep its entries; the publisher trims it to about STREAM_MAXLEN, and an entry trimmed while pending is not recovered.
- ConcoxStream.ChunkingTheorem: for streams longer than the buffer only the direction from `Robust` is stated; whether a cut that shows the difference also fits into the buffer depends on the lengths of the frames around it.
- In the writer's state machine a statement whose reply was lost may commit any number of times later, which is more than PostgreSQL allows; the theorems hold all the same.
- Liveness of the writer: what a continuation has achieved once nothing is left to do is stated, and that this point can be reached; how long retries take is not.
- ParseFloat: only texts that start with an unsigned decimal number; signs, blanks and exponents do not occur in what is encoded.
- `rateLimit` as a configurable middleware and its three pre-built instances: the server only installs `applyAuto`.
- The route history, daily distance and position queries: selections without a property beyond their text.
- ORDER BY v.name of the consolidated report and its plate and name columns.
- Haversine distances, alert diffing, geocoding, Express controllers, permissions, audit, billing, metrics, migrations and the frontend.
