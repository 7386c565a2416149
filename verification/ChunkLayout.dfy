/** How a chunk is cut into numbered segments (code/chunk.h, code/bt_server.c). */
module ChunkLayout {
  import opened Common

  const BT_CHUNK_SIZE: nat := 512 * 1024
  const DATA_SIZE: nat := 1000
  const MAX_SEQ_NUM: nat := BT_CHUNK_SIZE / DATA_SIZE + 1

  type ChunkData = s: seq<byte> | |s| == BT_CHUNK_SIZE witness seq(BT_CHUNK_SIZE, _ => 0)

  /** Sequence numbers of DATA packets run from 1 to MAX_SEQ_NUM. */
  predicate IsSeqNum(k: int) { 1 <= k <= MAX_SEQ_NUM }

  function SegmentStart(k: nat): (start: nat)
    requires IsSeqNum(k)
  {
    (k - 1) * DATA_SIZE
  }

  /** Every segment is full except the last one, which holds the remaining 288 bytes. */
  function SegmentEnd(k: nat): (end: nat)
    requires IsSeqNum(k)
    ensures SegmentStart(k) < end <= BT_CHUNK_SIZE
    ensures end == if k < MAX_SEQ_NUM then SegmentStart(k + 1) else BT_CHUNK_SIZE
    ensures k < MAX_SEQ_NUM ==> end - SegmentStart(k) == DATA_SIZE
  {
    Min(SegmentStart(k) + DATA_SIZE, BT_CHUNK_SIZE)
  }

  function Segment(data: ChunkData, k: nat): seq<byte>
    requires IsSeqNum(k)
  {
    data[SegmentStart(k)..SegmentEnd(k)]
  }

  /** The segment that holds a given byte of the chunk. */
  function SegmentOf(i: nat): (k: nat)
    requires i < BT_CHUNK_SIZE
    ensures IsSeqNum(k) && SegmentStart(k) <= i < SegmentEnd(k)
  {
    i / DATA_SIZE + 1
  }

  /** Two chunks that agree on all 525 segments are the same chunk. */
  lemma EqualSegmentsEqualChunks(a: ChunkData, b: ChunkData)
    requires forall k :: IsSeqNum(k) ==> Segment(a, k) == Segment(b, k)
    ensures a == b
  {
    forall i | 0 <= i < BT_CHUNK_SIZE
      ensures a[i] == b[i]
    {
      var k := SegmentOf(i);
      assert Segment(a, k)[i - SegmentStart(k)] == Segment(b, k)[i - SegmentStart(k)];
    }
  }
}
