# AsyncWebRTCWriter, modelled in Dafny

This project models the outgoing frame writer of the cwipc Unity package
(`AsyncWebRTCWriter`). The writer sends tiled, multi-quality point-cloud
streams. Each requested stream is a (tile, quality, input queue) triple.
At construction the writer builds a stream table, and every stream gets a
channel index. The lowest indices go to the first quality level of every
tile, the next block to the next quality level, and so on. Each stream then
gets one pusher. A pusher drains its queue and puts a 16-byte header in front
of every frame: the fourcc as uint32, the payload length as int32 and the
timestamp as int64, each little-endian, and copies the payload out of native
memory. The transport itself is still a placeholder that only logs "should
transmit" (line 106), so the model records transmitting as appending the
(header, payload) packet to the sequence of packets sent. Stopping the writer closes every input queue
its producer left open, then stops and joins the pushers.

Modules, one per file:

- `BoundedInts` (`bounded_ints.dfy`): the C# integer widths, plus the
  wrap-around of unchecked `int` arithmetic.
- `Wrappers` (`wrappers.dfy`): `Option` models a null reference and `Result`
  models a thrown exception.
- `LittleEndian` (`little_endian.dfy`): what `BitConverter.GetBytes` produces
  on a little-endian host, and the matching decoders.
- `FrameHeader` (`frame_header.dfy`): the 16-byte header, the packet, and the
  receiver's decoder.
- `Queues` (`queues.dfy`): frames in native memory and the closable frame
  queue.
- `DecimalText` (`decimal_text.dfy`): decimal rendering of an `int`, used in
  pusher names.
- `StreamTable` (`stream_table.dfy`): the maximum tile number, ports per
  quality, channel indices and the table.
- `Sequences` (`sequences.dfy`): two facts about sequences that the
  drain-loop proofs use.
- `PushThread` (`push_thread.dfy`): the pusher's name, the framing of one frame
  and the drain loop.
- `Writer` (`writer.dfy`): the constructor, `Start`, and `AsyncOnStop`.

Threads are not modelled. Queues are shared by reference, so they live in a
store keyed by reference (`QueueStore`), and a description holds only the
reference. A queue is seen from its single consumer. `entries` lists the
values that successive `Dequeue` calls return before the pusher sees
`IsClosed()` true; an entry is `None` when a dequeue returned null. `closed`
says whether the queue is then closed. Frames still queued when the pusher
notices the close are never dequeued, so they are not among the entries.
`PushThread.Run` is the loop run over
those entries. It returns the packets built for sending, in order, and
how the loop ended. There are three ways: it saw the queue closed, it is
still blocked in `Dequeue`, or an exception ended it (the non-editor `catch`
logs the exception and returns).

On these points the model follows the code:

- The code checks the description list before the fourcc (lines 171-178).
- Any exception inside the loop ends that pusher's loop. The `catch` is
  outside the `while` (lines 85-120). Nothing recovers and carries on with the
  next frame.
- The header's fourcc is written as a little-endian uint32 by `BitConverter`
  (line 98).
- Stopping a pusher only logs (lines 73-76). No transport resource exists to
  release.

## Model

| member | source | states |
|---|---|---|
| BoundedInts.WrapInt32 | nl.cwi.dis.cwipc/Runtime/Scripts/Async/AsyncWebRTCWriter.cs:188-195 | the value an unchecked `int` cast or sum stores: an int32 congruent to the exact value modulo 2^32, and the exact value whenever that fits |
| LittleEndian.ToLE | nl.cwi.dis.cwipc/Runtime/Scripts/Async/AsyncWebRTCWriter.cs:98-103 | the n-byte little-endian encoding has n bytes and reads back to the encoded value |
| LittleEndian.ToFromLE | nl.cwi.dis.cwipc/Runtime/Scripts/Async/AsyncWebRTCWriter.cs:98-103 | every n-byte string is the encoding of the value it reads as, so the encoding is a bijection onto n-byte strings |
| LittleEndian.ToLEByte | nl.cwi.dis.cwipc/Runtime/Scripts/Async/AsyncWebRTCWriter.cs:98-103 | byte i of the encoding is base-256 digit i of the value, least significant first |
| LittleEndian.EncodeUInt32 | nl.cwi.dis.cwipc/Runtime/Scripts/Async/AsyncWebRTCWriter.cs:98 | `GetBytes((UInt32)fourcc)` is 4 bytes that decode back to the fourcc |
| LittleEndian.EncodeInt32 | nl.cwi.dis.cwipc/Runtime/Scripts/Async/AsyncWebRTCWriter.cs:100 | `GetBytes((Int32)length)` is 4 two's-complement bytes that decode back to the length, negative lengths included |
| LittleEndian.EncodeInt64 | nl.cwi.dis.cwipc/Runtime/Scripts/Async/AsyncWebRTCWriter.cs:102 | `GetBytes(timestamp)` is 8 two's-complement bytes that decode back to the timestamp |
| LittleEndian.EncodeDecodeFields | nl.cwi.dis.cwipc/Runtime/Scripts/Async/AsyncWebRTCWriter.cs:98-103 | each 4- or 8-byte field is the encoding of exactly the value it decodes to |
| FrameHeader.EncodeHeader | nl.cwi.dis.cwipc/Runtime/Scripts/Async/AsyncWebRTCWriter.cs:97-103 | the header is exactly 16 bytes and decodes back to (fourcc, length, timestamp) |
| FrameHeader.DecodeHeaderPrefix | nl.cwi.dis.cwipc/Runtime/Scripts/Async/AsyncWebRTCWriter.cs:97-105 | the payload that follows the header does not disturb the header's decoding |
| FrameHeader.EncodeDecodeHeader | nl.cwi.dis.cwipc/Runtime/Scripts/Async/AsyncWebRTCWriter.cs:97-103 | any 16 bytes are the header of exactly one (fourcc, length, timestamp) |
| FrameHeader.HeaderLayout | nl.cwi.dis.cwipc/Runtime/Scripts/Async/AsyncWebRTCWriter.cs:97-103 | bytes 0-3 are the fourcc's base-256 digits, bytes 4-7 the length's two's-complement digits, bytes 8-15 the timestamp's, each least significant first |
| FrameHeader.PacketRoundTrip | nl.cwi.dis.cwipc/Runtime/Scripts/Async/AsyncWebRTCWriter.cs:97-106 | header plus payload, when the length field equals the payload length, decodes back to that header and payload |
| DecimalText.IntToDecimal | nl.cwi.dis.cwipc/Runtime/Scripts/Async/AsyncWebRTCWriter.cs:65 | the decimal text of an int parses back to the int |
| DecimalText.IntToDecimalInjective | nl.cwi.dis.cwipc/Runtime/Scripts/Async/AsyncWebRTCWriter.cs:65 | two ints render alike exactly when they are equal |
| StreamTable.ScanMaxTile | nl.cwi.dis.cwipc/Runtime/Scripts/Async/AsyncWebRTCWriter.cs:185-189 | when every tile number fits an int, the running-maximum scan ends at the largest of the start value and all tile numbers |
| StreamTable.MaxTileNumber | nl.cwi.dis.cwipc/Runtime/Scripts/Async/AsyncWebRTCWriter.cs:185-189 | when every tile number fits an int: -1 for no descriptions, otherwise one of the tile numbers that no tile number exceeds |
| StreamTable.PortsPerQuality | nl.cwi.dis.cwipc/Runtime/Scripts/Async/AsyncWebRTCWriter.cs:185-190 | with tile numbers below the int maximum: every tile number is below it, it is one more than a tile number, and it is at least 1 for a non-empty list |
| StreamTable.StreamIndex | nl.cwi.dis.cwipc/Runtime/Scripts/Async/AsyncWebRTCWriter.cs:195 | the index is congruent modulo 2^32 to tile + portsPerQuality * quality, and equals it when no step overflows |
| StreamTable.BuildTable | nl.cwi.dis.cwipc/Runtime/Scripts/Async/AsyncWebRTCWriter.cs:182-202 | one entry per description, in order, each with the shared fourcc, its own queue reference and its computed index |
| StreamTable.TableIndexDecodes | nl.cwi.dis.cwipc/Runtime/Scripts/Async/AsyncWebRTCWriter.cs:183-195 | without overflow, index mod portsPerQuality is the tile and index div portsPerQuality the quality, so quality q occupies indices [q*ppq, (q+1)*ppq) |
| StreamTable.TableIndicesUnique | nl.cwi.dis.cwipc/Runtime/Scripts/Async/AsyncWebRTCWriter.cs:183-195 | without overflow, two streams share an index if and only if they request the same tile at the same quality |
| StreamTable.TwoTilesTwoQualities | nl.cwi.dis.cwipc/Runtime/Scripts/Async/AsyncWebRTCWriter.cs:183-195 | tiles 0,1 at qualities 0,1 give portsPerQuality 2 and indices 0, 1, 2, 3 |
| PushThread.Name | nl.cwi.dis.cwipc/Runtime/Scripts/Async/AsyncWebRTCWriter.cs:63-66 | the pusher's name is the writer's name, a dot, and text that parses back to the stream index |
| PushThread.NamesDistinct | nl.cwi.dis.cwipc/Runtime/Scripts/Async/AsyncWebRTCWriter.cs:63-66 | two pushers of one writer have the same name exactly when their indices are equal |
| PushThread.CopyPayload | nl.cwi.dis.cwipc/Runtime/Scripts/Async/AsyncWebRTCWriter.cs:104-105 | the copy succeeds exactly when 0 <= length <= available bytes, and then holds exactly `length` leading bytes of the frame; otherwise the negative-size or read-past error |
| PushThread.BuildPacket | nl.cwi.dis.cwipc/Runtime/Scripts/Async/AsyncWebRTCWriter.cs:97-105 | a dequeued frame becomes a packet exactly when its declared length can be allocated and copied out of the chunk; otherwise the copy's exception |
| PushThread.BuildPacketFrames | nl.cwi.dis.cwipc/Runtime/Scripts/Async/AsyncWebRTCWriter.cs:97-106 | a frame is framed exactly when its payload can be copied; the packet is 16 header bytes plus `length` payload bytes and decodes to (fourcc, length, timestamp) and the frame's bytes |
| PushThread.Run | nl.cwi.dis.cwipc/Runtime/Scripts/Async/AsyncWebRTCWriter.cs:85-120 | the loop sends at most one packet per dequeued value; it is left blocked only on a queue that is open and reports the queue closed only when it is, so on a closed queue it never stays blocked |
| PushThread.RunSpec | nl.cwi.dis.cwipc/Runtime/Scripts/Async/AsyncWebRTCWriter.cs:85-120 | the loop sends one packet per non-null frame in dequeue order, up to the first frame that cannot be copied; that frame's error ends the loop, and otherwise the loop ends exactly when the queue is closed |
| PushThread.RunPacketsDecode | nl.cwi.dis.cwipc/Runtime/Scripts/Async/AsyncWebRTCWriter.cs:92-106 | the j-th packet sent decodes to the fourcc and to the j-th frame's length, timestamp and payload |
| PushThread.RunDependsOnlyOnFrames | nl.cwi.dis.cwipc/Runtime/Scripts/Async/AsyncWebRTCWriter.cs:92-93 | what is sent depends only on the non-null frames and the closed flag |
| PushThread.RunSkipsNull | nl.cwi.dis.cwipc/Runtime/Scripts/Async/AsyncWebRTCWriter.cs:93 | a null dequeue anywhere changes nothing that is sent |
| PushThread.RunInBatches | nl.cwi.dis.cwipc/Runtime/Scripts/Async/AsyncWebRTCWriter.cs:89-108 | draining a first batch until the loop blocks and then the rest sends exactly what draining everything at once sends (FIFO order) |
| Writer.Start | nl.cwi.dis.cwipc/Runtime/Scripts/Async/AsyncWebRTCWriter.cs:206-224 | exactly one pusher per description, pusher i bound to description i, named after its index, and running |
| Writer.Construct | nl.cwi.dis.cwipc/Runtime/Scripts/Async/AsyncWebRTCWriter.cs:168-204 | a null or empty list fails first, then a null fourcc or one whose length in UTF-16 code units is not 4, then an unparsable address; otherwise the table has the shared fourcc code, each stream's own queue and index, and one running pusher per stream, named, as `Start` names it, after the writer and the stream's index |
| Writer.FourccCountsCodeUnits | nl.cwi.dis.cwipc/Runtime/Scripts/Async/AsyncWebRTCWriter.cs:175-179 | "ab" followed by one character outside the Basic Multilingual Plane is 4 UTF-16 code units, passes the length check, and its surrogate pair is packed into the stream table's fourcc |
| Writer.ConstructedPushersDistinct | nl.cwi.dis.cwipc/Runtime/Scripts/Async/AsyncWebRTCWriter.cs:183-215 | without overflow, streams with different (tile, quality) get different indices and different pusher names |
| Writer.CloseOpenQueues | nl.cwi.dis.cwipc/Runtime/Scripts/Async/AsyncWebRTCWriter.cs:229-237 | the closing loop keeps every queue of the store and warns at most once per position |
| Writer.CloseOpenQueuesFlags | nl.cwi.dis.cwipc/Runtime/Scripts/Async/AsyncWebRTCWriter.cs:229-237 | after the closing loop every queue a description reads is closed, closed queues stay closed, the values each pusher goes on to dequeue before it notices the close are unchanged, and unreferenced queues are untouched |
| Writer.CloseOpenQueuesWarnings | nl.cwi.dis.cwipc/Runtime/Scripts/Async/AsyncWebRTCWriter.cs:229-237 | the loop warns, in increasing order, exactly for the positions whose queue was still open and not read by an earlier position; with no open queue it warns about nothing |
| Writer.AsyncOnStop | nl.cwi.dis.cwipc/Runtime/Scripts/Async/AsyncWebRTCWriter.cs:226-247 | after stopping, every input queue is closed, already-closed queues are not closed again, only closed flags change, the warnings name exactly the first reader of each queue still open, and every pusher is stopped while the writer's name, address, table and the pushers' names and descriptions stay as they were |
| Writer.StopEndsEveryPusher | nl.cwi.dis.cwipc/Runtime/Scripts/Async/AsyncWebRTCWriter.cs:229-245 | after the queues are closed no pusher's loop stays blocked, so every join returns |
| Writer.StopWarnsForOpenQueues | nl.cwi.dis.cwipc/Runtime/Scripts/Async/AsyncWebRTCWriter.cs:229-237 | with one queue per stream, stream k gets a warning exactly when its producer had not closed its queue |
| Writer.StopTwice | nl.cwi.dis.cwipc/Runtime/Scripts/Async/AsyncWebRTCWriter.cs:229-237 | stopping again changes no queue and warns about nothing |

## Left out

- Threads, `Thread.Start`, `Join` and blocking `Dequeue`: the loop is modelled as a sequential drain over what the queue delivers. `StopEndsEveryPusher` stands in for "every join returns".
- `QueueThreadSafe`, `NativeMemoryChunk` and `OutgoingStreamDescription` are not part of this model. Their field types are inferred from how the code uses them: `tileNumber` is an unsigned 32-bit value (it is cast with `(int)`), `qualityIndex` and `length` are `int`, and `timestamp` is `Int64`.
- The transport placeholders (`XxxjackPeerConnection`, the `trackOrStream` field, the "should initialize/close/transmit" log lines) are not modelled. Transmitting is appending the (header, payload) packet to the sent sequence.
- `new Uri(_url)` is a platform call. Its verdict is the `urlParses` parameter of `Writer.Construct`.
- `StreamSupport.VRT_4CC` is not part of this model. It is the `fourccCode` parameter, a function from four UTF-16 code units (C# `char`s) to a uint32. The fourcc argument is a sequence of UTF-16 code units, as a C# string is; `Writer.Utf16` gives the code units of a text.
- The base class `AsyncWriter` is not part of this model. This covers `Name()` (the `name` parameter), `base.Start`, `base.AsyncOnStop`, `NoUpdateCallsNeeded` and `AsyncUpdate`, and the instance counter used only for naming.
- `Marshal.Copy` from a native pointer reads the chunk's `memory` sequence. Reading past the chunk's allocation is undefined behaviour at run time. The model treats it as an exception (`ReadPastChunk`) that ends the loop.
- `BitConverter` is assumed to run on a little-endian host.
- `int.ToString()` is assumed to use a culture whose negative sign is "-".
- The `VRT_WITH_STATS` statistics: double accumulators, wall-clock intervals and formatted output.
- The `UNITY_EDITOR` branch of the `catch`, which rethrows. The model follows the other build, which logs and ends the loop. The disabled `GetSyncInfo` block is also left out.
- Frames still waiting in a queue when its pusher notices the close are dropped by the writer: line 89 tests `IsClosed()` before every `Dequeue`. A queue's `entries` are the values its pusher dequeues before it notices the close. How many frames are still queued at that moment depends on thread timing, so closing a queue (by its producer or by `AsyncOnStop`) leaves `entries` as they are, and the frames the pusher never dequeues are not represented.
- Log and warning messages are not modelled. The positions that `AsyncOnStop` warns about are returned as `warnings`.
- A null queue reference in a description would throw in `AsyncOnStop`. The model requires every referenced queue to exist in the store instead.
- StreamTable.TableIndicesUnique: proved only when no step of the index computation overflows an int (`IndicesFit`). With overflow the wrapped indices can collide. `StreamIndex` still models the wrapped value.
- StreamTable.TableIndexDecodes: same overflow bound as `TableIndicesUnique`.
- StreamTable.MaxTileNumber: its maximum is stated only when every tile number fits an int. Beyond that, the `(int)` cast can make the scan's result negative or smaller than the true maximum (tiles 2^31 and 5 scan to 5), and the model computes that value without characterising it.
- StreamTable.ScanMaxTile: same bound as `MaxTileNumber`.
- StreamTable.PortsPerQuality: stated only when every tile number is below the int maximum, for the same reason.
- Writer.ConstructedPushersDistinct: same overflow bound as `TableIndicesUnique`.
- Writer.CloseOpenQueues: its own contract states only that the store keeps its queues and that there is at most one warning per position. `CloseOpenQueuesFlags` and `CloseOpenQueuesWarnings` state what it closes and where it warns, so the recursion's contract stays small.
- PushThread.Run: its own contract bounds the packets and ties the exit to the closed flag. `RunSpec` states which packets are sent and how the loop ends; putting that on `Run` itself made every proof that unfolds the loop too expensive.
- PushThread.BuildPacket: its own contract states only when a packet is built. `BuildPacketFrames` states the error and the packet's contents, so that unfolding the drain loop does not carry the header encoding.
