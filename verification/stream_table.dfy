/** The stream table the writer builds once at construction: every requested
    (tile, quality) stream gets a channel index, the writer's media type and
    its producer's queue. The lowest indices go to the first quality level of
    every tile, the next block to the next quality level, and so on. */
module StreamTable {
  import opened BoundedInts
  import opened Queues

  /** One requested output stream: which tile, at which quality, fed from
      which queue. */
  datatype OutgoingStreamDescription = OutgoingStreamDescription(tileNumber: uint32, qualityIndex: int32, inQueue: QueueRef)

  /** One stream as the writer keeps it. */
  datatype WebRTCStreamDescription = WebRTCStreamDescription(index: int32, fourcc: uint32, inQueue: QueueRef)

  function TileNumbers(descs: seq<OutgoingStreamDescription>): set<int> {
    set i | 0 <= i < |descs| :: descs[i].tileNumber as int
  }

  /** Every tile number survives C#'s `(int)` cast unchanged. */
  predicate TilesFit(descs: seq<OutgoingStreamDescription>) {
    forall i :: 0 <= i < |descs| ==> descs[i].tileNumber <= INT32_MAX
  }

  /** The running-maximum scan: each tile number is compared exactly with
      the maximum so far and, when larger, stored through an `(int)` cast. */
  function ScanMaxTile(descs: seq<OutgoingStreamDescription>, acc: int32): (r: int32)
    ensures TilesFit(descs) ==> r >= acc && r in TileNumbers(descs) + {acc as int}
    ensures TilesFit(descs) ==> forall t :: t in TileNumbers(descs) ==> t <= r
  {
    if |descs| == 0 then acc
    else
      var t := descs[0].tileNumber;
      var acc' := if t > acc then WrapInt32(t) else acc;
      assert TileNumbers(descs) == {t as int} + TileNumbers(descs[1..]) by {
        forall x | x in TileNumbers(descs) ensures x in {t as int} + TileNumbers(descs[1..]) {
          var i :| 0 <= i < |descs| && descs[i].tileNumber == x;
          if i > 0 {
            assert descs[1..][i - 1] == descs[i];
          }
        }
      }
      ScanMaxTile(descs[1..], acc')
  }

  /** The largest tile number, or -1 for an empty list. */
  function MaxTileNumber(descs: seq<OutgoingStreamDescription>): (r: int32)
    ensures TilesFit(descs) && |descs| == 0 ==> r == -1
    ensures TilesFit(descs) && |descs| > 0 ==> r in TileNumbers(descs)
    ensures TilesFit(descs) ==> forall t :: t in TileNumbers(descs) ==> t <= r
  {
    var r := ScanMaxTile(descs, -1);
    if |descs| > 0 then
      assert descs[0].tileNumber as int in TileNumbers(descs);
      r
    else r
  }

  /** Every tile number is below the largest int, so one more than the
      maximum is still an int. */
  predicate TilesBelowIntMax(descs: seq<OutgoingStreamDescription>) {
    forall i :: 0 <= i < |descs| ==> descs[i].tileNumber < INT32_MAX
  }

  /** The number of channel indices reserved for each quality level. */
  function PortsPerQuality(descs: seq<OutgoingStreamDescription>): (r: int32)
    ensures TilesBelowIntMax(descs) ==> r >= 0 && (|descs| > 0 ==> r >= 1)
    ensures TilesBelowIntMax(descs) ==> forall i :: 0 <= i < |descs| ==> descs[i].tileNumber < r
    ensures TilesBelowIntMax(descs) && |descs| > 0 ==> r - 1 in TileNumbers(descs)
  {
    var m := MaxTileNumber(descs);
    assert forall i :: 0 <= i < |descs| ==> descs[i].tileNumber as int in TileNumbers(descs);
    WrapInt32(m + 1)
  }

  /** `(int)tileNumber + portsPerQuality * qualityIndex` in unchecked int
      arithmetic: the int32 congruent to the exact value modulo 2^32, and
      the exact value itself when every step fits. */
  function StreamIndex(tileNumber: uint32, qualityIndex: int32, portsPerQuality: int32): (r: int32)
    ensures (r - (tileNumber + portsPerQuality * qualityIndex)) % TWO_TO_THE_32 == 0
    ensures IsInt32(tileNumber) && IsInt32(portsPerQuality * qualityIndex)
            && IsInt32(tileNumber + portsPerQuality * qualityIndex)
            ==> r == tileNumber + portsPerQuality * qualityIndex
  {
    var product := portsPerQuality * qualityIndex;
    var t := WrapInt32(tileNumber);
    var s := WrapInt32(product);
    var r := WrapInt32(t + s);
    CongruentSum(tileNumber, product, t, s, r);
    r
  }

  /** The table the constructor builds: same length and order as the
      request, one shared media type, each stream's own queue. */
  function BuildTable(descs: seq<OutgoingStreamDescription>, fourcc: uint32): (r: seq<WebRTCStreamDescription>)
    ensures |r| == |descs|
    ensures forall i :: 0 <= i < |r| ==> r[i].fourcc == fourcc && r[i].inQueue == descs[i].inQueue
    ensures forall i :: 0 <= i < |r| ==>
      r[i].index == StreamIndex(descs[i].tileNumber, descs[i].qualityIndex, PortsPerQuality(descs))
  {
    var ppq := PortsPerQuality(descs);
    seq(|descs|, i requires 0 <= i < |descs| =>
      WebRTCStreamDescription(StreamIndex(descs[i].tileNumber, descs[i].qualityIndex, ppq), fourcc, descs[i].inQueue))
  }

  /** No step of the index computation overflows. */
  predicate IndicesFit(descs: seq<OutgoingStreamDescription>) {
    && TilesBelowIntMax(descs)
    && forall i :: 0 <= i < |descs| ==>
         && IsInt32(PortsPerQuality(descs) * descs[i].qualityIndex)
         && IsInt32(descs[i].tileNumber + PortsPerQuality(descs) * descs[i].qualityIndex)
  }

  /** A receiver recovers tile and quality from a channel index alone:
      the index is tile + portsPerQuality * quality, its remainder modulo
      portsPerQuality is the tile and its quotient the quality, so quality q
      occupies the block [q * portsPerQuality, (q + 1) * portsPerQuality). */
  lemma TableIndexDecodes(descs: seq<OutgoingStreamDescription>, fourcc: uint32, i: nat)
    requires IndicesFit(descs) && i < |descs|
    ensures var ppq := PortsPerQuality(descs); var idx := BuildTable(descs, fourcc)[i].index;
      && idx == descs[i].tileNumber + ppq * descs[i].qualityIndex
      && idx % ppq == descs[i].tileNumber
      && idx / ppq == descs[i].qualityIndex
      && ppq * descs[i].qualityIndex <= idx < ppq * (descs[i].qualityIndex + 1)
  {
    var ppq := PortsPerQuality(descs);
    var idx := BuildTable(descs, fourcc)[i].index;
    DivModUnique(idx, ppq, descs[i].qualityIndex, descs[i].tileNumber);
  }

  /** Two streams share a channel index exactly when they ask for the same
      tile at the same quality. */
  lemma TableIndicesUnique(descs: seq<OutgoingStreamDescription>, fourcc: uint32, i: nat, j: nat)
    requires IndicesFit(descs) && i < |descs| && j < |descs|
    ensures var table := BuildTable(descs, fourcc);
      table[i].index == table[j].index <==>
        descs[i].tileNumber == descs[j].tileNumber && descs[i].qualityIndex == descs[j].qualityIndex
  {
    TableIndexDecodes(descs, fourcc, i);
    TableIndexDecodes(descs, fourcc, j);
  }

  /** Two tiles at two qualities, listed tile-major: the four streams get
      channels 0 to 3, the first quality the two lowest. */
  lemma TwoTilesTwoQualities(descs: seq<OutgoingStreamDescription>, fourcc: uint32)
    requires |descs| == 4
    requires descs[0].tileNumber == 0 && descs[0].qualityIndex == 0
    requires descs[1].tileNumber == 1 && descs[1].qualityIndex == 0
    requires descs[2].tileNumber == 0 && descs[2].qualityIndex == 1
    requires descs[3].tileNumber == 1 && descs[3].qualityIndex == 1
    ensures PortsPerQuality(descs) == 2
    ensures forall i :: 0 <= i < 4 ==> BuildTable(descs, fourcc)[i].index == i
  {
    MaxOfTwoTiles(descs);
    var table := BuildTable(descs, fourcc);
    assert StreamIndex(0, 0, 2) == 0 && StreamIndex(1, 0, 2) == 1;
    assert StreamIndex(0, 1, 2) == 2 && StreamIndex(1, 1, 2) == 3;
    assert table[0].index == 0 && table[1].index == 1 && table[2].index == 2 && table[3].index == 3;
  }

  lemma MaxOfTwoTiles(descs: seq<OutgoingStreamDescription>)
    requires |descs| == 4
    requires descs[0].tileNumber == 0 && descs[1].tileNumber == 1
    requires descs[2].tileNumber == 0 && descs[3].tileNumber == 1
    ensures PortsPerQuality(descs) == 2
  {
  }
}
