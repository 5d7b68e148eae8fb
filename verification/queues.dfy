/** The frame queues the writer consumes. A queue is shared by reference
    between its producer and the writer, so queues live in a store indexed by
    reference and descriptions hold only the reference. */
module Queues {
  import opened BoundedInts
  import opened Wrappers

  type QueueRef = nat

  /** One encoded frame in native memory: `memory` is what can be read at the
      chunk's pointer, `length` the byte count the producer declared. */
  datatype NativeMemoryChunk = NativeMemoryChunk(memory: seq<byte>, length: int32, timestamp: int64)

  /** A closable FIFO seen from its single consumer: `entries` are the values
      successive dequeues return before the consumer sees the queue closed
      (None for a dequeue that returned null), `closed` whether it then is. */
  datatype FrameQueue = FrameQueue(entries: seq<Option<NativeMemoryChunk>>, closed: bool)

  type QueueStore = map<QueueRef, FrameQueue>
}
