/** What the searches and removals of the session mean for the order of its lists (code/chunk.c,
    code/bt_client.c, code/linkedlist.c). */
module SessionLists {
  import opened Common
  import opened Session

  /** No chunk before the one found has the hash. */
  lemma {:induction false} FindHashIsFirst(heap: seq<ChunkRec>, refs: seq<Ref>, hash: seq<byte>, j: nat)
    requires RefsIn(refs, heap)
    ensures FindHash(heap, refs, hash) == Some(j) <==>
            j < |refs| && heap[refs[j]].hash == hash && forall i :: 0 <= i < j ==> heap[refs[i]].hash != hash
  {
    if refs != [] && heap[refs[0]].hash != hash && j > 0 {
      FindHashIsFirst(heap, refs[1..], hash, j - 1);
      assert forall i :: 0 <= i < |refs| - 1 ==> refs[1..][i] == refs[i + 1];
      assert forall i :: 1 <= i < |refs| ==> refs[i] == refs[1..][i - 1];
    }
  }

  /** The peer at position i is found exactly if it is available and none before it is. */
  lemma {:induction false} FirstAvailableIsFirst(peers: seq<PeerId>, available: map<PeerId, bool>, i: nat)
    requires i < |peers| && forall j :: 0 <= j < i ==> peers[j] != peers[i]
    ensures FirstAvailable(peers, available) == Some(peers[i]) <==>
            forall j :: 0 <= j <= i ==> (peers[j] in available && available[peers[j]] <==> j == i)
  {
    if i > 0 {
      if !(peers[0] in available && available[peers[0]]) {
        FirstAvailableIsFirst(peers[1..], available, i - 1);
        assert forall j :: 0 <= j <= i - 1 ==> peers[1..][j] == peers[j + 1];
        assert forall j :: 1 <= j <= i ==> peers[j] == peers[1..][j - 1];
      }
    }
  }

  /** Taking a peer off a list, part by part: the others stay, in their order. */
  lemma {:induction false} RemovePeerParts(a: seq<PeerId>, b: seq<PeerId>, p: PeerId)
    ensures RemovePeer(a + b, p) == RemovePeer(a, p) + RemovePeer(b, p)
    ensures p !in a ==> RemovePeer(a, p) == a
  {
    if a == [] {
      assert a + b == b;
    } else {
      assert (a + b)[1..] == a[1..] + b;
      RemovePeerParts(a[1..], b, p);
    }
  }
}
