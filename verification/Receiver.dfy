/** The receiving side of a chunk: bitmap, counter and validation (code/bt_client.c). */
module Receiver {
  import opened Common
  import opened ChunkLayout
  import opened Fips180
  import Sha1Stream

  /** A digest function for chunks; the peers use ChunkSha1. */
  type Digest = ChunkData -> seq<byte>

  function ChunkSha1(data: ChunkData): seq<byte> { Sha1(data) }

  type Bitmap = s: seq<bool> | |s| == MAX_SEQ_NUM witness seq(MAX_SEQ_NUM, _ => false)

  /** `chunk_data`, `bits` and `bits_count` of a chunk. */
  datatype Store = Store(data: ChunkData, bits: Bitmap, count: nat)

  function EmptyStore(): Store { Store(seq(BT_CHUNK_SIZE, _ => 0), seq(MAX_SEQ_NUM, _ => false), 0) }

  /** A well-formed DATA packet: a sequence number in range and a payload of the segment's length. */
  predicate WellFormed(k: nat, payload: seq<byte>) {
    IsSeqNum(k) && |payload| == SegmentEnd(k) - SegmentStart(k)
  }

  // ----- Counting bits -----

  function CountBits(bits: seq<bool>): nat {
    if bits == [] then 0 else (if bits[0] then 1 else 0) + CountBits(bits[1..])
  }

  /** How many leading bits are set. */
  function Prefix(bits: seq<bool>): (p: nat)
    ensures p <= |bits|
    ensures forall i :: 0 <= i < p ==> bits[i]
    ensures p < |bits| ==> !bits[p]
  {
    if bits == [] || !bits[0] then 0 else 1 + Prefix(bits[1..])
  }

  lemma {:induction false} CountBitsSet(bits: seq<bool>, i: nat)
    requires i < |bits| && !bits[i]
    ensures CountBits(bits[i := true]) == CountBits(bits) + 1
  {
    if i == 0 {
      assert bits[0 := true][1..] == bits[1..];
    } else {
      assert bits[i := true][1..] == bits[1..][i - 1 := true];
      CountBitsSet(bits[1..], i - 1);
    }
  }

  lemma {:induction false} CountBitsNone(bits: seq<bool>)
    requires forall i :: 0 <= i < |bits| ==> !bits[i]
    ensures CountBits(bits) == 0
  {
    if bits != [] {
      CountBitsNone(bits[1..]);
    }
  }

  /** The counter test for completion agrees with the cumulative scan. */
  lemma {:induction false} FullCountIsFullPrefix(bits: seq<bool>)
    ensures CountBits(bits) <= |bits|
    ensures CountBits(bits) == |bits| <==> Prefix(bits) == |bits|
  {
    if bits != [] {
      FullCountIsFullPrefix(bits[1..]);
    }
  }

  /** Setting bits never shortens the prefix. */
  lemma {:induction false} PrefixMonotone(a: seq<bool>, b: seq<bool>)
    requires |a| == |b| && forall i :: 0 <= i < |a| && a[i] ==> b[i]
    ensures Prefix(a) <= Prefix(b)
  {
    if a != [] && a[0] {
      PrefixMonotone(a[1..], b[1..]);
    }
  }

  // ----- Specification -----

  /** `chunk_data` after the payload has been copied to its place. */
  function Overwrite(data: ChunkData, k: nat, payload: seq<byte>): ChunkData
    requires WellFormed(k, payload)
  {
    data[..SegmentStart(k)] + payload + data[SegmentEnd(k)..]
  }

  lemma OverwriteSegments(data: ChunkData, k: nat, payload: seq<byte>, j: nat)
    requires WellFormed(k, payload) && IsSeqNum(j)
    ensures Segment(Overwrite(data, k, payload), j) == if j == k then payload else Segment(data, j)
  {
    var o := Overwrite(data, k, payload);
    var start, end := SegmentStart(k), SegmentEnd(k);
    var from, to := SegmentStart(j), SegmentEnd(j);
    if j < k {
      assert to <= start;
      assert o[..start] == data[..start];
      SliceOfPart(o, start, from, to);
      SliceOfPart(data, start, from, to);
    } else if k < j {
      assert end <= from;
      assert o[end..] == data[end..];
      SliceOfPart(o, end, from, to);
      SliceOfPart(data, end, from, to);
    } else {
      assert o[start..end] == payload;
    }
  }

  function Keep(s: Store, k: nat, payload: seq<byte>): Store
    requires WellFormed(k, payload)
  {
    if s.bits[k - 1] then s
    else Store(Overwrite(s.data, k, payload), s.bits[k - 1 := true], s.count + 1)
  }

  datatype Verdict = Pending | Valid | Invalid

  /** The chunk after a DATA packet, the cumulative ACK it is answered with, and the verdict on the chunk. */
  datatype Reception = Reception(store: Store, ack: nat, verdict: Verdict)

  function Receive(sha: Digest, s: Store, hash: seq<byte>, k: nat, payload: seq<byte>): Reception
    requires WellFormed(k, payload)
  {
    var kept := Keep(s, k, payload);
    var ack := Prefix(kept.bits);
    if kept.count != MAX_SEQ_NUM then Reception(kept, ack, Pending)
    else if sha(kept.data) == hash then Reception(kept, ack, Valid)
    else Reception(EmptyStore(), ack, Invalid)
  }

  /** The counter counts the set bits. */
  ghost predicate StoreInv(s: Store) {
    s.count == CountBits(s.bits)
  }

  /** Bookkeeping under new segments, duplicates and failed validation: the counter stays the number
      of set bits, and a verdict is reached exactly when the ACK is the last one. */
  lemma ReceiveInv(sha: Digest, s: Store, hash: seq<byte>, k: nat, payload: seq<byte>)
    requires StoreInv(s) && WellFormed(k, payload)
    ensures StoreInv(Receive(sha, s, hash, k, payload).store)
    ensures Receive(sha, s, hash, k, payload).verdict != Pending <==> Receive(sha, s, hash, k, payload).ack == MAX_SEQ_NUM
  {
    var kept := Keep(s, k, payload);
    if !s.bits[k - 1] {
      CountBitsSet(s.bits, k - 1);
    }
    FullCountIsFullPrefix(kept.bits);
    CountBitsNone(EmptyStore().bits);
  }

  /** The data hold the payload in place of segment k if that was new, and are otherwise those of s. */
  ghost predicate TookIn(s: Store, k: nat, payload: seq<byte>, data: ChunkData)
    requires WellFormed(k, payload)
  {
    forall j: nat :: IsSeqNum(j) ==>
      Segment(data, j) == if j == k && !s.bits[k - 1] then payload else Segment(s.data, j)
  }

  ghost predicate AllSet(bits: Bitmap) { forall i :: 0 <= i < MAX_SEQ_NUM ==> bits[i] }

  /** What one DATA packet does to a chunk. With the packet's bit set, the ACK is the number of leading
      bits, and the chunk is judged exactly when all bits are set: valid if the bytes taken in have the
      digest, and else wiped. A segment that is already there is not overwritten. */
  lemma ReceiveLaw(sha: Digest, s: Store, hash: seq<byte>, k: nat, payload: seq<byte>)
    requires StoreInv(s) && WellFormed(k, payload)
    ensures var r, bits := Receive(sha, s, hash, k, payload), s.bits[k - 1 := true];
            && r.ack <= MAX_SEQ_NUM && (forall i :: 0 <= i < r.ack ==> bits[i]) && (r.ack < MAX_SEQ_NUM ==> !bits[r.ack])
            && (r.verdict == Pending <==> !AllSet(bits))
            && (r.verdict != Invalid ==> r.store.bits == bits && TookIn(s, k, payload, r.store.data))
            && (r.verdict == Valid ==> sha(r.store.data) == hash)
            && (r.verdict == Invalid ==>
                  && r.store.count == 0
                  && (forall i :: 0 <= i < MAX_SEQ_NUM ==> !r.store.bits[i])
                  && (forall i :: 0 <= i < BT_CHUNK_SIZE ==> r.store.data[i] == 0)
                  && exists data: ChunkData :: TookIn(s, k, payload, data) && sha(data) != hash)
  {
    var kept := Keep(s, k, payload);
    KeepTakesIn(s, k, payload);
    if !s.bits[k - 1] {
      CountBitsSet(s.bits, k - 1);
    }
    assert kept.bits == s.bits[k - 1 := true];
    FullCountIsFullPrefix(kept.bits);
  }

  lemma KeepTakesIn(s: Store, k: nat, payload: seq<byte>)
    requires WellFormed(k, payload)
    ensures TookIn(s, k, payload, Keep(s, k, payload).data)
  {
    if !s.bits[k - 1] {
      forall j: nat | IsSeqNum(j)
        ensures Segment(Overwrite(s.data, k, payload), j) == if j == k then payload else Segment(s.data, j)
      {
        OverwriteSegments(s.data, k, payload, j);
      }
    }
  }

  // ----- Honest contents -----

  /** Every set bit stands for bytes equal to those of `source`. */
  ghost predicate Agrees(s: Store, source: ChunkData) {
    forall k: nat :: IsSeqNum(k) && s.bits[k - 1] ==> Segment(s.data, k) == Segment(source, k)
  }

  /** A full chunk that agrees with the source is the source. */
  lemma FullIsSource(s: Store, source: ChunkData)
    requires StoreInv(s) && Agrees(s, source) && s.count == MAX_SEQ_NUM
    ensures s.data == source
  {
    FullCountIsFullPrefix(s.bits);
    EqualSegmentsEqualChunks(s.data, source);
  }

  lemma KeepAgrees(s: Store, source: ChunkData, k: nat)
    requires Agrees(s, source) && IsSeqNum(k)
    ensures Agrees(Keep(s, k, Segment(source, k)), source)
  {
    forall j: nat | IsSeqNum(j)
      ensures Segment(Overwrite(s.data, k, Segment(source, k)), j) == if j == k then Segment(source, k) else Segment(s.data, j)
    {
      OverwriteSegments(s.data, k, Segment(source, k), j);
    }
  }

  /** A genuine segment keeps the chunk honest and never shortens the prefix, and the chunk is then
      never found invalid. */
  lemma ReceiveGenuine(sha: Digest, s: Store, source: ChunkData, k: nat)
    requires StoreInv(s) && Agrees(s, source) && IsSeqNum(k)
    ensures var r := Receive(sha, s, sha(source), k, Segment(source, k));
            && StoreInv(r.store)
            && Agrees(r.store, source)
            && r.verdict != Invalid
            && r.ack == Prefix(r.store.bits)
            && Prefix(s.bits) <= r.ack
            && (r.store.count == MAX_SEQ_NUM <==> r.verdict == Valid)
  {
    var kept := Keep(s, k, Segment(source, k));
    ReceiveInv(sha, s, sha(source), k, Segment(source, k));
    KeepAgrees(s, source, k);
    PrefixMonotone(s.bits, kept.bits);
    if !s.bits[k - 1] {
      CountBitsSet(s.bits, k - 1);
    }
    if kept.count == MAX_SEQ_NUM {
      FullIsSource(kept, source);
    }
  }

  // ----- The object whose fields the code updates -----

  class Chunk {
    const binHash: seq<byte>
    const chunkData: array<byte>
    const bits: array<bool>
    var bitsCount: nat

    ghost predicate Shape()
      reads this
    {
      chunkData.Length == BT_CHUNK_SIZE && bits.Length == MAX_SEQ_NUM
    }

    ghost function View(): Store
      requires Shape()
      reads this, chunkData, bits
    {
      Store(chunkData[..], bits[..], bitsCount)
    }

    /** `create_chunk`: zeroed storage. */
    constructor (binHash: seq<byte>)
      ensures Shape() && this.binHash == binHash && View() == EmptyStore()
      ensures fresh(chunkData) && fresh(bits)
    {
      this.binHash := binHash;
      chunkData := new byte[BT_CHUNK_SIZE](_ => 0);
      bits := new bool[MAX_SEQ_NUM](_ => false);
      bitsCount := 0;
    }

    /** `data_store`. */
    method DataStore(k: nat, payload: seq<byte>)
      requires Shape() && WellFormed(k, payload)
      modifies this`bitsCount, chunkData, bits
      ensures View() == Store(Overwrite(old(View()).data, k, payload), old(View()).bits[k - 1 := true], old(bitsCount) + 1)
    {
      var start := (k - 1) * DATA_SIZE;
      forall i | 0 <= i < |payload| {
        chunkData[start + i] := payload[i];
      }
      assert chunkData[..] == Overwrite(old(chunkData[..]), k, payload);
      bits[k - 1] := true;
      bitsCount := bitsCount + 1;
    }

    /** `data_find_largest_consec_seq`. */
    method LargestConsecSeq() returns (i: nat)
      requires Shape()
      ensures i == Prefix(bits[..])
    {
      i := 0;
      assert bits[0..] == bits[..];
      while i < MAX_SEQ_NUM && bits[i]
        invariant i <= MAX_SEQ_NUM
        invariant Prefix(bits[..]) == i + Prefix(bits[i..])
      {
        assert bits[i..][1..] == bits[i + 1..];
        i := i + 1;
      }
    }

    /** `validate_chunk`: a chunk with the wrong digest is wiped. */
    method Validate() returns (valid: bool)
      requires Shape()
      modifies this`bitsCount, chunkData, bits
      ensures valid <==> Sha1(old(View()).data) == binHash
      ensures View() == if valid then old(View()) else EmptyStore()
    {
      var digest := Sha1Stream.ShaHash(chunkData[..]);
      valid := digest == binHash;
      if !valid {
        forall i | 0 <= i < chunkData.Length { chunkData[i] := 0; }
        forall i | 0 <= i < bits.Length { bits[i] := false; }
        bitsCount := 0;
        assert chunkData[..] == EmptyStore().data && bits[..] == EmptyStore().bits;
      }
    }

    /** The part of `receive_DATA` that concerns the chunk. */
    method ReceiveData(k: nat, payload: seq<byte>) returns (ack: nat, verdict: Verdict)
      requires Shape() && WellFormed(k, payload)
      modifies this`bitsCount, chunkData, bits
      ensures Reception(View(), ack, verdict) == Receive(ChunkSha1, old(View()), binHash, k, payload)
    {
      if !bits[k - 1] {
        DataStore(k, payload);
      }
      ack := LargestConsecSeq();
      verdict := Pending;
      if bitsCount == MAX_SEQ_NUM {
        var valid := Validate();
        verdict := if valid then Valid else Invalid;
      }
    }
  }
}
