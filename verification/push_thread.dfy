/** One pusher: the loop that drains a stream's queue and builds, for every
    frame, the 16-byte header and a copy of the payload. The transport is a
    placeholder in the writer, so transmitting is modelled as appending the
    packet to the sequence of packets sent. Running
    the loop to the point where it stops or blocks is modelled as a pure
    function of what the queue delivers. */
module PushThread {
  import opened BoundedInts
  import opened Wrappers
  import opened FrameHeader
  import opened Queues
  import opened StreamTable
  import opened DecimalText
  import opened Sequences

  /** The exceptions copying a frame can raise; each ends the loop. */
  datatype PushError =
    | NegativeLength(length: int32)                 // allocating a buffer of negative size
    | ReadPastChunk(length: int32, available: nat)  // copying more bytes than the chunk holds

  /** How the loop ended: it saw the queue closed, it is still blocked in a
      dequeue, or an exception ended it (and was logged). */
  datatype Exit = QueueClosed | Waiting | Crashed(error: PushError)

  /** The packets built for sending, in order, and how the loop ended. */
  datatype RunOutcome = RunOutcome(sent: seq<Packet>, exit: Exit)

  datatype PusherState = Running | Stopped

  /** A pusher is bound to one stream description for its whole life. */
  datatype Pusher = Pusher(name: string, description: WebRTCStreamDescription, state: PusherState)

  /** The pusher's diagnostic name: the writer's name, a dot, and the
      stream's channel index in decimal. */
  function Name(parentName: string, index: int32): (r: string)
    ensures |r| > |parentName| && r[..|parentName| + 1] == parentName + "."
    ensures ParseInt(r[|parentName| + 1..]) == Some(index as int)
  {
    var r := parentName + "." + IntToDecimal(index);
    assert r[|parentName| + 1..] == IntToDecimal(index);
    r
  }

  /** Pushers of one writer have distinct names exactly when their channel
      indices differ. */
  lemma NamesDistinct(parentName: string, a: int32, b: int32)
    ensures Name(parentName, a) == Name(parentName, b) <==> a == b
  {
  }

  /** The chunk's declared length can be allocated and copied from it. */
  predicate Copyable(mc: NativeMemoryChunk) {
    0 <= mc.length <= |mc.memory|
  }

  /** Allocates a buffer of the declared length and copies that many bytes
      out of native memory. */
  function CopyPayload(mc: NativeMemoryChunk): (r: Result<seq<byte>, PushError>)
    ensures r.Success? <==> Copyable(mc)
    ensures r.Success? ==> |r.value| == mc.length && r.value <= mc.memory
    ensures mc.length < 0 ==> r == Failure(NegativeLength(mc.length))
    ensures 0 <= mc.length && !Copyable(mc) ==> r == Failure(ReadPastChunk(mc.length, |mc.memory|))
  {
    if mc.length < 0 then Failure(NegativeLength(mc.length))
    else if mc.length > |mc.memory| then Failure(ReadPastChunk(mc.length, |mc.memory|))
    else Success(mc.memory[..mc.length])
  }

  /** The header and payload buffers built for one dequeued frame: built
      exactly when the payload can be copied, and otherwise the copy's
      exception (`BuildPacketFrames` states the packet's contents). */
  function BuildPacket(fourcc: uint32, mc: NativeMemoryChunk): (r: Result<Packet, PushError>)
    ensures r.Success? <==> Copyable(mc)
  {
    var hdr := EncodeHeader(Header(fourcc, mc.length, mc.timestamp));
    match CopyPayload(mc)
    case Failure(e) => Failure(e)
    case Success(buf) => Success(Packet(hdr, buf))
  }

  /** A frame is framed exactly when its payload can be copied; the packet is
      a 16-byte header and `length` payload bytes, and the receiver decodes
      it back to the writer's fourcc, the frame's length and timestamp, and
      the first `length` bytes of the frame's memory. */
  lemma BuildPacketFrames(fourcc: uint32, mc: NativeMemoryChunk)
    ensures BuildPacket(fourcc, mc).Success? <==> Copyable(mc)
    ensures BuildPacket(fourcc, mc).Failure? ==> BuildPacket(fourcc, mc).error == CopyPayload(mc).error
    ensures BuildPacket(fourcc, mc).Success? ==>
      var p := BuildPacket(fourcc, mc).value;
      && |p.header| == HEADER_SIZE && |p.payload| == mc.length
      && DecodePacket(p.Wire()) == Some((Header(fourcc, mc.length, mc.timestamp), mc.memory[..mc.length]))
  {
    if Copyable(mc) {
      PacketRoundTrip(Header(fourcc, mc.length, mc.timestamp), mc.memory[..mc.length]);
    }
  }

  /** The frames among the dequeued values, nulls dropped, order kept. */
  function Frames(entries: seq<Option<NativeMemoryChunk>>): (r: seq<NativeMemoryChunk>)
    ensures |r| <= |entries|
  {
    if |entries| == 0 then []
    else
      var rest := Frames(entries[1..]);
      match entries[0]
      case None => rest
      case Some(mc) => [mc] + rest
  }

  /** The position of the first frame that cannot be copied, or the number
      of frames when all can. */
  function FirstUncopyable(frames: seq<NativeMemoryChunk>): (k: nat)
    ensures k <= |frames|
    ensures forall j :: 0 <= j < k ==> Copyable(frames[j])
    ensures k < |frames| ==> !Copyable(frames[k])
  {
    if |frames| == 0 || !Copyable(frames[0]) then 0
    else 1 + FirstUncopyable(frames[1..])
  }

  /** The pusher loop over a queue: a null dequeue is skipped, a frame
      becomes one packet, an exception while copying a frame ends the loop,
      and with nothing more dequeued the loop ends if it sees the queue closed
      and keeps waiting while it is open. */
  function Run(fourcc: uint32, queue: FrameQueue): (r: RunOutcome)
    ensures |r.sent| <= |queue.entries|
    ensures r.exit == Waiting ==> !queue.closed
    ensures r.exit == QueueClosed ==> queue.closed
    decreases |queue.entries|
  {
    if |queue.entries| == 0 then
      RunOutcome([], if queue.closed then QueueClosed else Waiting)
    else
      var rest := queue.(entries := queue.entries[1..]);
      match queue.entries[0]
      case None => Run(fourcc, rest)
      case Some(mc) =>
        match BuildPacket(fourcc, mc)
        case Failure(e) => RunOutcome([], Crashed(e))
        case Success(p) =>
          var tail := Run(fourcc, rest);
          RunOutcome([p] + tail.sent, tail.exit)
  }

  /** What the loop sends, stated over the frames alone: one packet per frame
      in dequeue order, up to the first frame that cannot be copied; that
      frame's error ends the loop, and if there is none the loop ends exactly
      when the queue is closed. */
  predicate RunMeets(fourcc: uint32, queue: FrameQueue, r: RunOutcome) {
    var frames := Frames(queue.entries);
    var k := FirstUncopyable(frames);
    && |r.sent| == k
    && (forall j :: 0 <= j < k ==> BuildPacket(fourcc, frames[j]) == Success(r.sent[j]))
    && (k < |frames| ==> r.exit == Crashed(BuildPacket(fourcc, frames[k]).error))
    && (k == |frames| ==> r.exit == if queue.closed then QueueClosed else Waiting)
  }

  lemma {:induction false} RunSpec(fourcc: uint32, queue: FrameQueue)
    ensures RunMeets(fourcc, queue, Run(fourcc, queue))
    decreases |queue.entries|
  {
    if |queue.entries| > 0 {
      var rest := queue.(entries := queue.entries[1..]);
      RunSpec(fourcc, rest);
      match queue.entries[0]
      case None =>
        assert Frames(queue.entries) == Frames(rest.entries);
      case Some(mc) =>
        assert Frames(queue.entries) == [mc] + Frames(rest.entries);
        assert BuildPacket(fourcc, mc).Success? <==> Copyable(mc);
        if Copyable(mc) {
          RunSpecFrame(fourcc, queue);
        }
    }
  }

  /** The inductive step of RunSpec for a frame that can be copied. */
  lemma RunSpecFrame(fourcc: uint32, queue: FrameQueue)
    requires |queue.entries| > 0 && queue.entries[0].Some? && Copyable(queue.entries[0].value)
    requires RunMeets(fourcc, queue.(entries := queue.entries[1..]), Run(fourcc, queue.(entries := queue.entries[1..])))
    ensures RunMeets(fourcc, queue, Run(fourcc, queue))
  {
    var mc := queue.entries[0].value;
    var rest := queue.(entries := queue.entries[1..]);
    var frames, restFrames := Frames(queue.entries), Frames(rest.entries);
    assert frames == [mc] + restFrames;
    assert frames[1..] == restFrames;
    assert BuildPacket(fourcc, mc).Success?;
    RunFrameStep(fourcc, queue);
    var tail := Run(fourcc, rest);
    var p := BuildPacket(fourcc, mc).value;
    var r := Run(fourcc, queue);
    assert r.sent == [p] + tail.sent;
    assert FirstUncopyable(frames) == 1 + FirstUncopyable(restFrames);
    PacketsShift(fourcc, mc, restFrames, p, tail.sent);
  }

  /** Prepending a frame and its packet keeps frames and packets paired. */
  lemma PacketsShift(fourcc: uint32, mc: NativeMemoryChunk, frames: seq<NativeMemoryChunk>,
                     p: Packet, sent: seq<Packet>)
    requires BuildPacket(fourcc, mc) == Success(p) && |sent| <= |frames|
    requires forall j :: 0 <= j < |sent| ==> BuildPacket(fourcc, frames[j]) == Success(sent[j])
    ensures forall j :: 0 <= j < |sent| + 1 ==>
      BuildPacket(fourcc, ([mc] + frames)[j]) == Success(([p] + sent)[j])
  {
    PairedShift((m, q) => BuildPacket(fourcc, m) == Success(q), mc, p, frames, sent);
  }

  /** Every packet sent carries, in order, the header and payload of the
      corresponding dequeued frame, as the receiver decodes them. */
  lemma RunPacketsDecode(fourcc: uint32, queue: FrameQueue, j: nat)
    requires j < |Run(fourcc, queue).sent|
    ensures j < |Frames(queue.entries)| && Copyable(Frames(queue.entries)[j])
    ensures var mc := Frames(queue.entries)[j];
      DecodePacket(Run(fourcc, queue).sent[j].Wire())
        == Some((Header(fourcc, mc.length, mc.timestamp), mc.memory[..mc.length]))
  {
    RunSpec(fourcc, queue);
    BuildPacketFrames(fourcc, Frames(queue.entries)[j]);
  }

  lemma {:induction false} FramesAppend(a: seq<Option<NativeMemoryChunk>>, b: seq<Option<NativeMemoryChunk>>)
    ensures Frames(a + b) == Frames(a) + Frames(b)
  {
    if |a| > 0 {
      assert (a + b)[0] == a[0];
      assert (a + b)[1..] == a[1..] + b;
      FramesAppend(a[1..], b);
      match a[0]
      case None =>
      case Some(mc) =>
        assert Frames(a + b) == [mc] + Frames(a[1..] + b);
    } else {
      assert a + b == b;
    }
  }

  /** Only the frames matter: two queues whose dequeues yield the same frames
      and that are closed alike make the loop send the same packets. */
  lemma RunDependsOnlyOnFrames(fourcc: uint32, q1: FrameQueue, q2: FrameQueue)
    requires Frames(q1.entries) == Frames(q2.entries) && q1.closed == q2.closed
    ensures Run(fourcc, q1) == Run(fourcc, q2)
  {
    var r1, r2 := Run(fourcc, q1), Run(fourcc, q2);
    RunSpec(fourcc, q1);
    RunSpec(fourcc, q2);
    forall j | 0 <= j < |r1.sent| ensures r1.sent[j] == r2.sent[j] {
      assert BuildPacket(fourcc, Frames(q1.entries)[j]) == Success(r1.sent[j]);
    }
  }

  /** A null dequeue anywhere in the stream changes nothing that is sent. */
  lemma RunSkipsNull(fourcc: uint32, before: seq<Option<NativeMemoryChunk>>, after: seq<Option<NativeMemoryChunk>>, closed: bool)
    ensures Run(fourcc, FrameQueue(before + [None] + after, closed)) == Run(fourcc, FrameQueue(before + after, closed))
  {
    FramesAppend(before + [None], after);
    FramesAppend(before, [None]);
    FramesAppend(before, after);
    assert Frames([None]) == [];
    RunDependsOnlyOnFrames(fourcc, FrameQueue(before + [None] + after, closed), FrameQueue(before + after, closed));
  }

  /** FIFO across time: draining a first batch until the loop blocks, then
      the rest, sends exactly what draining everything at once sends. */
  lemma {:induction false} RunInBatches(fourcc: uint32, first: seq<Option<NativeMemoryChunk>>, later: seq<Option<NativeMemoryChunk>>, closed: bool)
    requires Run(fourcc, FrameQueue(first, false)).exit == Waiting
    ensures Run(fourcc, FrameQueue(first + later, closed))
         == RunOutcome(Run(fourcc, FrameQueue(first, false)).sent + Run(fourcc, FrameQueue(later, closed)).sent,
                       Run(fourcc, FrameQueue(later, closed)).exit)
    decreases |first|, 1
  {
    if |first| == 0 {
      assert first + later == later;
    } else if first[0].None? {
      var whole := FrameQueue(first + later, closed);
      assert whole.entries[0] == first[0];
      assert whole.entries[1..] == first[1..] + later;
      RunNullStep(fourcc, FrameQueue(first, false));
      RunNullStep(fourcc, whole);
      RunInBatches(fourcc, first[1..], later, closed);
    } else {
      RunInBatchesFrame(fourcc, first, later, closed);
    }
  }

  /** RunInBatches when the first batch starts with a frame: that frame's
      packet leads both sides. */
  lemma {:induction false} RunInBatchesFrame(fourcc: uint32, first: seq<Option<NativeMemoryChunk>>, later: seq<Option<NativeMemoryChunk>>, closed: bool)
    requires |first| > 0 && first[0].Some?
    requires Run(fourcc, FrameQueue(first, false)).exit == Waiting
    ensures Run(fourcc, FrameQueue(first + later, closed))
         == RunOutcome(Run(fourcc, FrameQueue(first, false)).sent + Run(fourcc, FrameQueue(later, closed)).sent,
                       Run(fourcc, FrameQueue(later, closed)).exit)
    decreases |first|, 0
  {
    var whole := FrameQueue(first + later, closed);
    assert whole.entries[0] == first[0];
    assert whole.entries[1..] == first[1..] + later;
    var mc := first[0].value;
    assert BuildPacket(fourcc, mc).Success?;
    RunFrameStep(fourcc, FrameQueue(first, false));
    RunFrameStep(fourcc, whole);
    RunInBatches(fourcc, first[1..], later, closed);
    var h, l := Run(fourcc, FrameQueue(first[1..], false)), Run(fourcc, FrameQueue(later, closed));
    ConsAppend(BuildPacket(fourcc, mc).value, h.sent, l.sent);
  }

  /** One step of the loop on a null dequeue. */
  lemma RunNullStep(fourcc: uint32, queue: FrameQueue)
    requires |queue.entries| > 0 && queue.entries[0].None?
    ensures Run(fourcc, queue) == Run(fourcc, queue.(entries := queue.entries[1..]))
  {
  }

  /** One step of the loop on a frame that can be copied. */
  lemma RunFrameStep(fourcc: uint32, queue: FrameQueue)
    requires |queue.entries| > 0 && queue.entries[0].Some?
    requires BuildPacket(fourcc, queue.entries[0].value).Success?
    ensures var tail := Run(fourcc, queue.(entries := queue.entries[1..]));
      Run(fourcc, queue) == RunOutcome([BuildPacket(fourcc, queue.entries[0].value).value] + tail.sent, tail.exit)
  {
  }
}
