/** The writer façade: construction validates the arguments and builds the
    stream table, starting creates one pusher per stream, and stopping closes
    every input queue still open and stops the pushers. */
module Writer {
  import opened BoundedInts
  import opened Wrappers
  import opened Queues
  import opened StreamTable
  import opened PushThread

  /** Why construction throws; no writer exists afterwards. */
  datatype ConstructError =
    | DescriptionsNullOrEmpty
    | FourccNull                          // reading the length of a null string
    | FourccNotFourCharacters(length: nat)
    | UrlInvalid                          // the URI parser rejected the address

  /** A C# `char`: one UTF-16 code unit. A C# string is a sequence of them
      and its `Length` counts code units, so a character outside the Basic
      Multilingual Plane counts twice (as a surrogate pair). */
  type Utf16Unit = x: int | 0 <= x < 0x1_0000

  /** The UTF-16 code units of a text, as a C# string literal holds it. */
  function Utf16(s: string): (r: seq<Utf16Unit>)
    ensures |r| >= |s|
    ensures (forall i :: 0 <= i < |s| ==> s[i] as int < 0x1_0000) ==> |r| == |s|
  {
    if |s| == 0 then []
    else
      var c := s[0] as int;
      var head: seq<Utf16Unit> :=
        if c < 0x1_0000 then [c]
        else [0xD800 + (c - 0x1_0000) / 0x400, 0xDC00 + (c - 0x1_0000) % 0x400];
      head + Utf16(s[1..])
  }

  datatype AsyncWebRTCWriter = AsyncWebRTCWriter(
    name: string,
    url: string,
    descriptions: seq<WebRTCStreamDescription>,
    pushers: seq<Pusher>)

  /** One running pusher per stream, in table order. */
  function Start(name: string, descriptions: seq<WebRTCStreamDescription>): (r: seq<Pusher>)
    ensures |r| == |descriptions|
    ensures forall i :: 0 <= i < |r| ==> r[i].description == descriptions[i] && r[i].state == Running
    ensures forall i :: 0 <= i < |r| ==> r[i].name == PushThread.Name(name, descriptions[i].index)
  {
    seq(|descriptions|, i requires 0 <= i < |descriptions| =>
      Pusher(PushThread.Name(name, descriptions[i].index), descriptions[i], Running))
  }

  /** The constructor: the description list is checked first, then the
      fourcc, then the address; a valid request yields the stream table for
      the fourcc's 32-bit code and starts one pusher per stream.
      `urlParses` is the verdict of the platform's URI parser and
      `fourccCode` the platform's packing of four UTF-16 code units into a
      code. */
  function Construct(
    name: string,
    url: string,
    urlParses: bool,
    fourcc: Option<seq<Utf16Unit>>,
    descriptions: Option<seq<OutgoingStreamDescription>>,
    fourccCode: (Utf16Unit, Utf16Unit, Utf16Unit, Utf16Unit) -> uint32): (r: Result<AsyncWebRTCWriter, ConstructError>)
    ensures r == Failure(DescriptionsNullOrEmpty) <==> descriptions.None? || |descriptions.value| == 0
    ensures descriptions.Some? && |descriptions.value| > 0 && fourcc.None? ==> r == Failure(FourccNull)
    ensures descriptions.Some? && |descriptions.value| > 0 && fourcc.Some? && |fourcc.value| != 4
            ==> r == Failure(FourccNotFourCharacters(|fourcc.value|))
    ensures descriptions.Some? && |descriptions.value| > 0 && fourcc.Some? && |fourcc.value| == 4 && !urlParses
            ==> r == Failure(UrlInvalid)
    ensures r.Success? <==>
      descriptions.Some? && |descriptions.value| > 0 && fourcc.Some? && |fourcc.value| == 4 && urlParses
    ensures r.Success? ==>
      var descs, w := descriptions.value, r.value;
      var code := fourccCode(fourcc.value[0], fourcc.value[1], fourcc.value[2], fourcc.value[3]);
      && w.name == name && w.url == url
      && |w.descriptions| == |descs| == |w.pushers|
      && (forall i :: 0 <= i < |descs| ==>
            && w.descriptions[i].fourcc == code
            && w.descriptions[i].inQueue == descs[i].inQueue
            && w.descriptions[i].index
               == StreamIndex(descs[i].tileNumber, descs[i].qualityIndex, PortsPerQuality(descs)))
      && (forall i :: 0 <= i < |descs| ==>
            w.pushers[i].description == w.descriptions[i] && w.pushers[i].state == Running)
      && w.pushers == Start(name, w.descriptions)
  {
    if descriptions.None? || |descriptions.value| == 0 then Failure(DescriptionsNullOrEmpty)
    else if fourcc.None? then Failure(FourccNull)
    else if |fourcc.value| != 4 then Failure(FourccNotFourCharacters(|fourcc.value|))
    else if !urlParses then Failure(UrlInvalid)
    else
      var f := fourcc.value;
      var table := BuildTable(descriptions.value, fourccCode(f[0], f[1], f[2], f[3]));
      Success(AsyncWebRTCWriter(name, url, table, Start(name, table)))
  }

  /** The streams of a successfully constructed writer from distinct
      (tile, quality) requests have pairwise distinct channel indices, so
      their pushers have pairwise distinct names. */
  lemma ConstructedPushersDistinct(
    name: string, url: string, fourcc: seq<Utf16Unit>, descs: seq<OutgoingStreamDescription>,
    fourccCode: (Utf16Unit, Utf16Unit, Utf16Unit, Utf16Unit) -> uint32, i: nat, j: nat)
    requires |descs| > 0 && |fourcc| == 4 && IndicesFit(descs)
    requires i < |descs| && j < |descs|
    requires descs[i].tileNumber != descs[j].tileNumber || descs[i].qualityIndex != descs[j].qualityIndex
    ensures var w := Construct(name, url, true, Some(fourcc), Some(descs), fourccCode).value;
      w.descriptions[i].index != w.descriptions[j].index && w.pushers[i].name != w.pushers[j].name
  {
    var code := fourccCode(fourcc[0], fourcc[1], fourcc[2], fourcc[3]);
    var w := Construct(name, url, true, Some(fourcc), Some(descs), fourccCode).value;
    assert w.descriptions == BuildTable(descs, code);
    TableIndicesUnique(descs, code, i, j);
    NamesDistinct(name, w.descriptions[i].index, w.descriptions[j].index);
  }

  /** A fourcc with one character outside the Basic Multilingual Plane has
      three characters but four UTF-16 code units, so the length check
      accepts it and the surrogate pair reaches the code packing. */
  lemma FourccCountsCodeUnits(
    name: string, url: string, descs: seq<OutgoingStreamDescription>,
    fourccCode: (Utf16Unit, Utf16Unit, Utf16Unit, Utf16Unit) -> uint32)
    requires |descs| > 0
    ensures Utf16("ab\U{1F600}") == [0x61, 0x62, 0xD83D, 0xDE00]
    ensures var r := Construct(name, url, true, Some(Utf16("ab\U{1F600}")), Some(descs), fourccCode);
      r.Success? && r.value.descriptions[0].fourcc == fourccCode(0x61, 0x62, 0xD83D, 0xDE00)
  {
    var s := "ab\U{1F600}";
    assert |s| == 3 && s[0] == 'a' && s[1] == 'b' && s[2] as int == 0x1F600;
    assert s[1..][1..] == [s[2]];
    assert s[1..][1..][1..] == [];
  }

  predicate QueuesKnown(descs: seq<WebRTCStreamDescription>, store: QueueStore) {
    forall i :: 0 <= i < |descs| ==> descs[i].inQueue in store
  }

  /** Description k is the first, from position `from` on, that reads its queue. */
  predicate FirstReader(descs: seq<WebRTCStreamDescription>, from: nat, k: nat)
    requires k < |descs|
  {
    forall j :: from <= j < k ==> descs[j].inQueue != descs[k].inQueue
  }

  /** The closing loop from position `from` on: each description's queue that
      is still open is closed and its position logged with a warning; a queue
      already closed (by its producer or by this loop) is left alone. */
  function CloseOpenQueues(descs: seq<WebRTCStreamDescription>, store: QueueStore, from: nat): (r: (QueueStore, seq<nat>))
    requires QueuesKnown(descs, store) && from <= |descs|
    ensures r.0.Keys == store.Keys
    ensures |r.1| <= |descs| - from
    decreases |descs| - from
  {
    if from == |descs| then (store, [])
    else
      var q := descs[from].inQueue;
      if store[q].closed then
        CloseOpenQueues(descs, store, from + 1)
      else
        var rest := CloseOpenQueues(descs, store[q := store[q].(closed := true)], from + 1);
        (rest.0, [from] + rest.1)
  }

  /** Only closed flags change: every queue read from position `from` on ends
      closed, a closed queue stays closed, the values its pusher goes on to
      dequeue before noticing the close are unchanged, and a queue no
      description reads is untouched. */
  lemma {:induction false} CloseOpenQueuesFlags(descs: seq<WebRTCStreamDescription>, store: QueueStore, from: nat)
    requires QueuesKnown(descs, store) && from <= |descs|
    ensures var r := CloseOpenQueues(descs, store, from).0;
      && (forall q :: q in store ==> r[q].entries == store[q].entries)
      && (forall j :: from <= j < |descs| ==> r[descs[j].inQueue].closed)
      && (forall q :: q in store && store[q].closed ==> r[q].closed)
      && (forall q :: q in store && (forall j :: from <= j < |descs| ==> descs[j].inQueue != q) ==> r[q] == store[q])
    decreases |descs| - from
  {
    if from < |descs| {
      var q := descs[from].inQueue;
      if store[q].closed {
        CloseOpenQueuesFlags(descs, store, from + 1);
      } else {
        CloseOpenQueuesFlags(descs, store[q := store[q].(closed := true)], from + 1);
      }
    }
  }

  /** The warnings name, in increasing order, exactly the positions whose
      queue was open and not read by an earlier position. */
  lemma {:induction false} CloseOpenQueuesWarnings(descs: seq<WebRTCStreamDescription>, store: QueueStore, from: nat)
    requires QueuesKnown(descs, store) && from <= |descs|
    ensures var w := CloseOpenQueues(descs, store, from).1;
      && (forall k :: k in w <==> from <= k < |descs| && !store[descs[k].inQueue].closed && FirstReader(descs, from, k))
      && (forall a, b :: 0 <= a < b < |w| ==> w[a] < w[b])
      && ((forall j :: from <= j < |descs| ==> store[descs[j].inQueue].closed) ==> w == [])
    decreases |descs| - from
  {
    if from < |descs| {
      var q := descs[from].inQueue;
      if store[q].closed {
        CloseOpenQueuesWarnings(descs, store, from + 1);
      } else {
        var store' := store[q := store[q].(closed := true)];
        CloseOpenQueuesWarnings(descs, store', from + 1);
        var w := CloseOpenQueues(descs, store, from).1;
        var rest := CloseOpenQueues(descs, store', from + 1).1;
        assert w == [from] + rest;
        forall b | 0 <= b < |rest| ensures rest[b] > from {
          assert rest[b] in rest;
        }
        forall k | from < k < |descs|
          ensures (!store'[descs[k].inQueue].closed && FirstReader(descs, from + 1, k))
              <==> (!store[descs[k].inQueue].closed && FirstReader(descs, from, k))
        {
        }
      }
    }
  }

  datatype StopOutcome = StopOutcome(writer: AsyncWebRTCWriter, queues: QueueStore, warnings: seq<nat>)

  /** Stopping: close every queue still open (warning once per queue), then
      stop and join every pusher. */
  function AsyncOnStop(w: AsyncWebRTCWriter, store: QueueStore): (r: StopOutcome)
    requires QueuesKnown(w.descriptions, store)
    ensures r.writer == w.(pushers := r.writer.pushers) && |r.writer.pushers| == |w.pushers|
    ensures forall i :: 0 <= i < |w.pushers| ==> r.writer.pushers[i] == w.pushers[i].(state := Stopped)
    ensures r.queues.Keys == store.Keys
    ensures forall i :: 0 <= i < |w.descriptions| ==> r.queues[w.descriptions[i].inQueue].closed
    ensures forall q :: q in store ==> r.queues[q].entries == store[q].entries
    ensures forall q :: q in store && store[q].closed ==> r.queues[q].closed
    ensures forall q :: q in store && (forall i :: 0 <= i < |w.descriptions| ==> w.descriptions[i].inQueue != q)
                        ==> r.queues[q] == store[q]
    ensures forall k :: k in r.warnings <==>
      0 <= k < |w.descriptions| && !store[w.descriptions[k].inQueue].closed && FirstReader(w.descriptions, 0, k)
    ensures forall a, b :: 0 <= a < b < |r.warnings| ==> r.warnings[a] < r.warnings[b]
    ensures (forall i :: 0 <= i < |w.descriptions| ==> store[w.descriptions[i].inQueue].closed) ==> r.warnings == []
  {
    CloseOpenQueuesFlags(w.descriptions, store, 0);
    CloseOpenQueuesWarnings(w.descriptions, store, 0);
    var closing := CloseOpenQueues(w.descriptions, store, 0);
    var stopped := seq(|w.pushers|, i requires 0 <= i < |w.pushers| => w.pushers[i].(state := Stopped));
    StopOutcome(w.(pushers := stopped), closing.0, closing.1)
  }

  /** After stopping, no pusher is left blocked on its queue: every pusher's
      loop over what its queue delivers ends, so every join returns. */
  lemma StopEndsEveryPusher(w: AsyncWebRTCWriter, store: QueueStore, i: nat)
    requires QueuesKnown(w.descriptions, store) && i < |w.descriptions|
    ensures var d := w.descriptions[i];
      Run(d.fourcc, AsyncOnStop(w, store).queues[d.inQueue]).exit != Waiting
  {
  }

  /** With one queue per stream, exactly the streams whose producer had not
      closed its queue get a warning. */
  lemma StopWarnsForOpenQueues(w: AsyncWebRTCWriter, store: QueueStore, k: nat)
    requires QueuesKnown(w.descriptions, store)
    requires forall i, j :: 0 <= i < j < |w.descriptions| ==> w.descriptions[i].inQueue != w.descriptions[j].inQueue
    requires k < |w.descriptions|
    ensures k in AsyncOnStop(w, store).warnings <==> !store[w.descriptions[k].inQueue].closed
  {
  }

  /** Stopping a second time closes nothing and warns about nothing. */
  lemma StopTwice(w: AsyncWebRTCWriter, store: QueueStore)
    requires QueuesKnown(w.descriptions, store)
    ensures var first := AsyncOnStop(w, store);
      var second := AsyncOnStop(first.writer, first.queues);
      second.queues == first.queues && second.warnings == []
  {
  }
}
