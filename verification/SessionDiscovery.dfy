/** Finding out who has what: WHOHAS in batches, IHAVE in reply (code/bt_client.c, code/bt_server.c). */
module SessionDiscovery {
  import opened Common
  import opened Congestion
  import opened Sender
  import opened Receiver
  import opened HexCodec
  import opened Session
  import opened SessionSafety
  import opened SessionRuns

  /** The WHOHAS packets partition the list: in order, at most 74 hashes and 1500 bytes each, none
      empty, and all but the last are full. */
  lemma {:induction false} BatchesPartition(hashes: seq<seq<byte>>)
    ensures Flatten(Batches(hashes)) == hashes
    ensures forall b :: b in Batches(hashes) ==> 1 <= |b| <= 74 && 16 + 4 + 20 * |b| <= 1500
    ensures forall i :: 0 <= i < |Batches(hashes)| - 1 ==> |Batches(hashes)[i]| == 74
  {
    if |hashes| > PacketCodec.MAX_HASH_IN_PACKET {
      BatchesPartition(hashes[PacketCodec.MAX_HASH_IN_PACKET..]);
      assert hashes == hashes[..PacketCodec.MAX_HASH_IN_PACKET] + hashes[PacketCodec.MAX_HASH_IN_PACKET..];
    } else if hashes != [] {
      assert Flatten([hashes]) == hashes + Flatten([]);
    }
  }

  lemma {:induction false} InFlatten(batches: seq<seq<seq<byte>>>, h: seq<byte>)
    ensures h in Flatten(batches) <==> exists b :: b in batches && h in b
  {
    if batches != [] {
      InFlatten(batches[1..], h);
      assert forall b :: b in batches <==> b == batches[0] || b in batches[1..];
    }
  }

  // ----- What a server answers -----

  ghost predicate Owns(heap: seq<ChunkRec>, have: seq<Ref>, h: seq<byte>)
    requires RefsIn(have, heap)
  {
    exists i :: 0 <= i < |have| && heap[have[i]].hash == h
  }

  lemma {:induction false} InMatches(heap: seq<ChunkRec>, have: seq<Ref>, hash: seq<byte>, h: seq<byte>)
    requires RefsIn(have, heap)
    ensures h in Matches(heap, have, hash) <==> h == hash && Owns(heap, have, h)
  {
    if have != [] {
      InMatches(heap, have[1..], hash, h);
      if Owns(heap, have, h) && heap[have[0]].hash != h {
        var i :| 0 <= i < |have| && heap[have[i]].hash == h;
        assert heap[have[1..][i - 1]].hash == h;
      }
      if Owns(heap, have[1..], h) {
        var i :| 0 <= i < |have[1..]| && heap[have[1..][i]].hash == h;
        assert heap[have[i + 1]].hash == h;
      }
    }
  }

  /** The reply names exactly the hashes asked for that the server has. */
  lemma {:induction false} InOwned(heap: seq<ChunkRec>, have: seq<Ref>, hashes: seq<seq<byte>>, h: seq<byte>)
    requires RefsIn(have, heap)
    ensures h in Owned(heap, have, hashes) <==> h in hashes && Owns(heap, have, h)
  {
    if hashes != [] {
      InMatches(heap, have, hashes[0], h);
      InOwned(heap, have, hashes[1..], h);
    }
  }

  lemma {:induction false} NoMatches(heap: seq<ChunkRec>, have: seq<Ref>, hash: seq<byte>)
    requires RefsIn(have, heap) && forall i :: 0 <= i < |have| ==> heap[have[i]].hash != hash
    ensures Matches(heap, have, hash) == []
  {
    if have != [] {
      NoMatches(heap, have[1..], hash);
    }
  }

  /** The reply fits in a packet: at most one answer per hash asked, if no two chunks share a hash. */
  lemma {:induction false} MatchesAtMostOne(heap: seq<ChunkRec>, have: seq<Ref>, hash: seq<byte>)
    requires RefsIn(have, heap)
    requires forall i, j :: 0 <= i < j < |have| ==> heap[have[i]].hash != heap[have[j]].hash
    ensures |Matches(heap, have, hash)| <= 1
  {
    if have != [] {
      if heap[have[0]].hash == hash {
        NoMatches(heap, have[1..], hash);
      } else {
        MatchesAtMostOne(heap, have[1..], hash);
      }
    }
  }

  lemma {:induction false} OwnedFits(heap: seq<ChunkRec>, have: seq<Ref>, hashes: seq<seq<byte>>)
    requires RefsIn(have, heap)
    requires forall i, j :: 0 <= i < j < |have| ==> heap[have[i]].hash != heap[have[j]].hash
    ensures |Owned(heap, have, hashes)| <= |hashes|
  {
    if hashes != [] {
      MatchesAtMostOne(heap, have, hashes[0]);
      OwnedFits(heap, have, hashes[1..]);
    }
  }

  // ----- What the client notes -----

  /** Peers of one chunk after IHAVE: the sender is added to the missing chunks named, and nothing
      else changes. */
  lemma {:induction false} NoteAllExact(heap: seq<ChunkRec>, missing: seq<Ref>, hashes: seq<seq<byte>>, from: PeerId, r: Ref)
    requires RefsIn(missing, heap) && r < |heap|
    ensures var after := NoteAll(heap, missing, hashes, from)[r];
            && after == heap[r].(peers := after.peers)
            && after.peers == if r in missing && heap[r].hash in hashes && from !in heap[r].peers
                              then [from] + heap[r].peers else heap[r].peers
    decreases |hashes|
  {
    if hashes != [] {
      NoteAllExact(Note(heap, missing, hashes[0], from), missing, hashes[1..], from, r);
    }
  }

  // ----- What each step does to the peers of a chunk -----

  /** A transfer from the peer is about to be given up. */
  ghost predicate Dies(incoming: seq<Incoming>, p: PeerId, at: Time) {
    exists i :: 0 <= i < |incoming| && incoming[i].peer == p && GivesUp(incoming[i], at)
  }

  ghost predicate GivesUp(t: Incoming, at: Time) {
    HasTimedOut(t.timestamp, at) && t.timeoutCount + 1 >= MAX_TO_COUNTS
  }

  /** Peers are only taken off the list, and only those whose transfer is given up. */
  ghost predicate Thinned(before: seq<PeerId>, after: seq<PeerId>) {
    && (forall p :: p in after ==> p in before)
    && (Distinct(before) ==> Distinct(after))
  }

  lemma ThinnedTwice(a: seq<PeerId>, b: seq<PeerId>, c: seq<PeerId>)
    requires Thinned(a, b) && Thinned(b, c)
    ensures Thinned(a, c)
  {
  }

  lemma {:induction false} RemovePeerDistinct(peers: seq<PeerId>, p: PeerId)
    requires Distinct(peers)
    ensures Distinct(RemovePeer(peers, p))
  {
    if peers != [] {
      RemovePeerDistinct(peers[1..], p);
      var rest := RemovePeer(peers[1..], p);
      forall j | 0 <= j < |rest| ensures rest[j] != peers[0] { assert rest[j] in rest; }
    }
  }

  lemma DiedPeers(s: State, i: nat, r: Ref)
    requires Shape(s) && i < |s.incoming| && r < |s.heap|
    ensures Thinned(s.heap[r].peers, Died(s, i).heap[r].peers)
    ensures forall p :: p != s.incoming[i].peer && p in s.heap[r].peers ==> p in Died(s, i).heap[r].peers
  {
    if Distinct(s.heap[r].peers) {
      RemovePeerDistinct(s.heap[r].peers, s.incoming[i].peer);
    }
  }

  /** From position i on, no transfer from p is about to be given up. */
  ghost predicate Safe(incoming: seq<Incoming>, i: nat, p: PeerId, at: Time) {
    forall j :: i <= j < |incoming| && incoming[j].peer == p ==> !GivesUp(incoming[j], at)
  }

  lemma {:induction false} SweepThins(s: State, i: nat, at: Time, r: Ref)
    requires Shape(s) && i <= |s.incoming| && r < |s.heap|
    ensures Thinned(s.heap[r].peers, SweepIncoming(s, i, at).state.heap[r].peers)
    decreases |s.incoming| - i
  {
    if i < |s.incoming| {
      if !HasTimedOut(s.incoming[i].timestamp, at) {
        SweepThins(s, i + 1, at, r);
      } else if s.incoming[i].timeoutCount + 1 >= MAX_TO_COUNTS {
        DiedPeers(s, i, r);
        SweepThins(Died(s, i), i, at, r);
        ThinnedTwice(s.heap[r].peers, Died(s, i).heap[r].peers, SweepIncoming(s, i, at).state.heap[r].peers);
      } else {
        SweepThins(AskAgain(s, i, at).state, i + 1, at, r);
      }
    }
  }

  lemma {:induction false} SweepSpares(s: State, i: nat, at: Time, r: Ref, p: PeerId)
    requires Shape(s) && i <= |s.incoming| && r < |s.heap| && Safe(s.incoming, i, p, at)
    ensures r < |SweepIncoming(s, i, at).state.heap|
    ensures p in s.heap[r].peers ==> p in SweepIncoming(s, i, at).state.heap[r].peers
    decreases |s.incoming| - i
  {
    if i < |s.incoming| {
      if !HasTimedOut(s.incoming[i].timestamp, at) {
        SweepSpares(s, i + 1, at, r, p);
      } else if s.incoming[i].timeoutCount + 1 >= MAX_TO_COUNTS {
        var t := Died(s, i);
        DiedSpares(s, i, at, r, p);
        SweepSpares(t, i, at, r, p);
      } else {
        var t := AskAgain(s, i, at).state;
        AskAgainSpares(s, i, at, p);
        SweepSpares(t, i + 1, at, r, p);
      }
    }
  }

  lemma DiedRemoves(s: State, i: nat, r: Ref)
    requires Shape(s) && i < |s.incoming| && r < |s.heap| && r in s.missing
    ensures s.incoming[i].peer !in Died(s, i).heap[r].peers
  {
  }

  lemma DiedShifts(s: State, i: nat, j: nat)
    requires Shape(s) && i < j < |s.incoming|
    ensures Died(s, i).incoming[j - 1] == s.incoming[j]
  {
  }

  /** A peer whose transfer is given up goes off the list of every missing chunk. */
  lemma {:induction false} SweepRemoves(s: State, i: nat, at: Time, r: Ref, p: PeerId, j: nat)
    requires Shape(s) && i <= j < |s.incoming| && r < |s.heap| && r in s.missing
    requires s.incoming[j].peer == p && GivesUp(s.incoming[j], at)
    ensures p !in SweepIncoming(s, i, at).state.heap[r].peers
    decreases |s.incoming| - i
  {
    if !HasTimedOut(s.incoming[i].timestamp, at) {
      SweepRemoves(s, i + 1, at, r, p, j);
    } else if s.incoming[i].timeoutCount + 1 >= MAX_TO_COUNTS {
      if s.incoming[i].peer == p {
        DiedRemoves(s, i, r);
        SweepThins(Died(s, i), i, at, r);
      } else {
        DiedShifts(s, i, j);
        SweepRemoves(Died(s, i), i, at, r, p, j - 1);
      }
    } else {
      AskAgainTouches(s, i, at, j);
      SweepRemoves(AskAgain(s, i, at).state, i + 1, at, r, p, j);
    }
  }

  /** Asking again restarts the clock of no later transfer. */
  lemma AskAgainTouches(s: State, i: nat, at: Time, j: nat)
    requires Shape(s) && i < j < |s.incoming|
    ensures AskAgain(s, i, at).state.incoming[j] == s.incoming[j]
  {
    var t := s.incoming[i];
    var counted := s.incoming[i := t.(timeoutCount := t.timeoutCount + 1)];
    assert counted[i].peer == t.peer;
    assert IncomingFrom(counted, t.peer) <= i;
  }

  lemma DiedSpares(s: State, i: nat, at: Time, r: Ref, p: PeerId)
    requires Shape(s) && i < |s.incoming| && r < |s.heap| && Safe(s.incoming, i, p, at) && GivesUp(s.incoming[i], at)
    ensures Shape(Died(s, i)) && |Died(s, i).heap| == |s.heap| && |Died(s, i).incoming| == |s.incoming| - 1
    ensures Safe(Died(s, i).incoming, i, p, at)
    ensures p in s.heap[r].peers ==> p in Died(s, i).heap[r].peers
  {
    DiedPeers(s, i, r);
    var rest := Died(s, i).incoming;
    assert forall j :: i <= j < |rest| ==> rest[j] == s.incoming[j + 1];
  }

  lemma AskAgainSpares(s: State, i: nat, at: Time, p: PeerId)
    requires Shape(s) && i < |s.incoming| && Safe(s.incoming, i, p, at)
    ensures Shape(AskAgain(s, i, at).state) && AskAgain(s, i, at).state.heap == s.heap
    ensures |AskAgain(s, i, at).state.incoming| == |s.incoming|
    ensures Safe(AskAgain(s, i, at).state.incoming, i + 1, p, at)
  {
    var t := AskAgain(s, i, at).state.incoming;
    forall j | i + 1 <= j < |t| && t[j].peer == p ensures !GivesUp(t[j], at) {
      assert t[j] == s.incoming[j] || t[j] == s.incoming[j].(timestamp := at);
    }
  }

  /** A timer tick takes off the list of a missing chunk exactly the peers with a transfer given up. */
  lemma TimerPeers(s: State, at: Time, r: Ref)
    requires Shape(s) && r < |s.heap|
    ensures var t := OnClientTimer(SweepOutgoing(s, 0, at), at).state;
            && r < |t.heap| && t.heap[r].hash == s.heap[r].hash && Thinned(s.heap[r].peers, t.heap[r].peers)
            && (r in s.missing ==>
                  forall p :: p in t.heap[r].peers <==> p in s.heap[r].peers && !Dies(s.incoming, p, at))
  {
    var swept := SweepOutgoing(s, 0, at);
    var t := SweepIncoming(swept, 0, at).state;
    SweepThins(swept, 0, at, r);
    SweepIncomingPeersOnly(swept, 0, at);
    forall p | r in s.missing
      ensures p in t.heap[r].peers <==> p in s.heap[r].peers && !Dies(s.incoming, p, at)
    {
      if j :| 0 <= j < |s.incoming| && s.incoming[j].peer == p && GivesUp(s.incoming[j], at) {
        SweepRemoves(swept, 0, at, r, p, j);
      } else {
        SweepSpares(swept, 0, at, r, p);
      }
    }
  }

  /** Is this the arrival of an IHAVE from a known peer? */
  ghost predicate Hears(s: State, e: SessionRuns.Event) {
    e.Arrives? && e.message.IHave? && e.from in s.available
  }

  lemma IHavePeers(s: State, from: PeerId, hashes: seq<seq<byte>>, at: Time, r: Ref)
    requires Shape(s) && r < |s.heap| && from in s.available
    ensures var t := OnIHave(s, from, hashes, at).state;
            && r < |t.heap| && t.heap[r].hash == s.heap[r].hash
            && t.heap[r].peers == if r in s.missing && s.heap[r].hash in hashes && from !in s.heap[r].peers
                                  then [from] + s.heap[r].peers else s.heap[r].peers
  {
    NoteAllExact(s.heap, s.missing, hashes, from, r);
  }

  /** DATA with any payload leaves the peers of every chunk alone. */
  lemma DataPeers(sha: Digest, s: State, from: PeerId, k: nat, payload: seq<byte>, at: Time, r: Ref)
    requires Shape(s) && r < |s.heap| && Receiver.WellFormed(k, payload)
    ensures var t := OnData(sha, s, from, k, payload, at).state;
            r < |t.heap| && t.heap[r].hash == s.heap[r].hash && t.heap[r].peers == s.heap[r].peers
  {
    var i := IncomingFrom(s.incoming, from);
    if i < |s.incoming| {
      var c := s.heap[s.incoming[i].chunk];
      ReceptionPeers(s, i, Receive(sha, c.store, c.hash, k, payload), at, r);
    }
  }

  lemma ReceptionPeers(s: State, i: nat, x: Reception, at: Time, r: Ref)
    requires Shape(s) && r < |s.heap| && i < |s.incoming|
    ensures var s1 := Stored(s, i, x.store, at);
            var t := if x.verdict == Pending then s1 else Concluded(s1, i, x.verdict == Valid, at).state;
            r < |t.heap| && t.heap[r].hash == s.heap[r].hash && t.heap[r].peers == s.heap[r].peers
  {
  }

  /** Apart from IHAVE and timers, no step changes the peers of a chunk that exists. */
  lemma OtherPeers(sha: Digest, maxConn: nat, s: State, e: SessionRuns.Event, r: Ref)
    requires Shape(s) && Acceptable(s, e) && r < |s.heap| && e.Arrives? && !Hears(s, e)
    ensures var t := SessionRuns.Step(sha, maxConn, s, e).state;
            r < |t.heap| && t.heap[r].hash == s.heap[r].hash && t.heap[r].peers == s.heap[r].peers
  {
    if e.from in s.available && e.message.Data? {
      DataPeers(sha, s, e.from, e.message.packet.num, e.message.packet.payload, e.at, r);
    }
  }

  // ----- Which chunks are still missing, and which peers are known -----

  lemma {:induction false} WantMissing(s: State, entries: seq<Entry>, r: Ref)
    requires Shape(s) && (forall e :: e in entries ==> IsHash(e.hex)) && r < |s.heap|
    ensures r in Want(s, entries).missing ==> r in s.missing
    ensures |s.heap| <= |Want(s, entries).heap|
    decreases |entries|
  {
    if entries != [] {
      assert entries[0] in entries;
      WantMissing(WantOne(s, entries[0]), entries[1..], r);
    }
  }

  lemma StepSize(sha: Digest, maxConn: nat, s: State, e: SessionRuns.Event)
    requires Shape(s) && Acceptable(s, e) && !e.UserGet?
    ensures |SessionRuns.Step(sha, maxConn, s, e).state.heap| == |s.heap|
  {
  }

  /** A chunk that is not missing does not become missing again. */
  lemma StepMissing(sha: Digest, maxConn: nat, s: State, e: SessionRuns.Event, r: Ref)
    requires Shape(s) && Acceptable(s, e) && r < |s.heap|
    ensures var t := SessionRuns.Step(sha, maxConn, s, e).state;
            |s.heap| <= |t.heap| && (r in t.missing ==> r in s.missing)
  {
    if e.UserGet? {
      WantMissing(s, e.entries, r);
    } else {
      StepSize(sha, maxConn, s, e);
    }
  }

  lemma {:induction false} RunMissing(sha: Digest, maxConn: nat, s: State, events: seq<SessionRuns.Event>, r: Ref)
    requires Shape(s) && r < |s.heap| && Run(sha, maxConn, s, events).Some?
    ensures var t := Run(sha, maxConn, s, events).value;
            |s.heap| <= |t.heap| && (r in t.missing ==> r in s.missing)
    decreases |events|
  {
    if events != [] {
      StepMissing(sha, maxConn, s, events[0], r);
      RunMissing(sha, maxConn, SessionRuns.Step(sha, maxConn, s, events[0]).state, events[1..], r);
    }
  }

  lemma {:induction false} GetKeepsKnown(s: State, todo: seq<Ref>, now: Time, p: PeerId)
    requires Shape(s) && RefsIn(todo, s.heap) && p in s.available
    ensures p in GetChunkData(s, todo, now).state.available
    decreases |todo|
  {
    if todo != [] {
      var c := s.heap[todo[0]];
      var peer := FirstAvailable(c.peers, s.available);
      if peer.Some? && !Claimed(s, c.hash) {
        GetKeepsKnown(Claim(s, todo[0], peer.value, now), todo[1..], now, p);
      } else {
        GetKeepsKnown(s, todo[1..], now, p);
      }
    }
  }

  lemma {:induction false} SweepIncomingKnown(s: State, i: nat, at: Time, p: PeerId)
    requires Shape(s) && i <= |s.incoming| && p in s.available
    ensures p in SweepIncoming(s, i, at).state.available
    decreases |s.incoming| - i
  {
    if i < |s.incoming| {
      if !HasTimedOut(s.incoming[i].timestamp, at) {
        SweepIncomingKnown(s, i + 1, at, p);
      } else if s.incoming[i].timeoutCount + 1 >= MAX_TO_COUNTS {
        SweepIncomingKnown(Died(s, i), i, at, p);
      } else {
        SweepIncomingKnown(AskAgain(s, i, at).state, i + 1, at, p);
      }
    }
  }

  lemma {:induction false} SweepOutgoingKnown(s: State, i: nat, at: Time, p: PeerId)
    requires Shape(s) && i <= |s.outgoing| && p in s.available
    ensures p in SweepOutgoing(s, i, at).available
    decreases |s.outgoing| - i
  {
    if i < |s.outgoing| {
      match ReceiveTimer(s.outgoing[i].sender, at).next
      case None => SweepOutgoingKnown(DeleteOutgoing(s, i), i, at, p);
      case Some(x) =>
        SweepOutgoingKnown(s.(outgoing := s.outgoing[i := s.outgoing[i].(sender := x)]), i + 1, at, p);
    }
  }

  lemma TimerKnown(s: State, at: Time, p: PeerId)
    requires Shape(s) && p in s.available
    ensures p in OnClientTimer(SweepOutgoing(s, 0, at), at).state.available
  {
    SweepOutgoingKnown(s, 0, at, p);
    var swept := SweepOutgoing(s, 0, at);
    SweepIncomingKnown(swept, 0, at, p);
    var t := SweepIncoming(swept, 0, at).state;
    GetKeepsKnown(t, t.missing, at, p);
  }

  lemma ConcludedKnown(s: State, i: nat, valid: bool, at: Time, p: PeerId)
    requires Shape(s) && i < |s.incoming| && p in s.available
    ensures p in Concluded(s, i, valid, at).state.available
  {
    var s1 := if valid then CheckAllReceived(Received(s, s.incoming[i].chunk)) else s;
    var s2 := DeleteIncoming(s1, i);
    GetKeepsKnown(s2, s2.missing, at, p);
  }

  lemma DataKnown(sha: Digest, s: State, from: PeerId, k: nat, payload: seq<byte>, at: Time, p: PeerId)
    requires Shape(s) && p in s.available && Receiver.WellFormed(k, payload)
    ensures p in OnData(sha, s, from, k, payload, at).state.available
  {
    var i := IncomingFrom(s.incoming, from);
    if i < |s.incoming| {
      var c := s.heap[s.incoming[i].chunk];
      var r := Receive(sha, c.store, c.hash, k, payload);
      if r.verdict != Pending {
        ConcludedKnown(Stored(s, i, r.store, at), i, r.verdict == Valid, at, p);
      }
    }
  }

  /** A known peer stays known. */
  lemma StepKnown(sha: Digest, maxConn: nat, s: State, e: SessionRuns.Event, p: PeerId)
    requires Shape(s) && Acceptable(s, e) && p in s.available
    ensures p in SessionRuns.Step(sha, maxConn, s, e).state.available
  {
    match e
    case UserGet(_, _) =>
    case TimerFires(at) => TimerKnown(s, at, p);
    case Arrives(from, message, at) =>
      if from in s.available {
        match message
        case IHave(hashes) =>
          var s1 := s.(heap := NoteAll(s.heap, s.missing, hashes, from));
          GetKeepsKnown(s1, s1.missing, at, p);
        case Data(packet) => DataKnown(sha, s, from, packet.num, packet.payload, at, p);
        case _ =>
      }
  }

  // ----- Whole sessions -----

  /** Whether a missing chunk with hash h should list the peer after an event, given whether it did
      before: IHAVE with the hash puts the peer on, giving up a transfer takes it off. */
  ghost function ListedAfter(s: State, e: SessionRuns.Event, p: PeerId, h: seq<byte>, listed: bool): bool {
    if e.Arrives? && e.from == p && e.message.IHave? && h in e.message.hashes then true
    else listed && !(e.TimerFires? && Dies(s.incoming, p, e.at))
  }

  lemma StepLists(sha: Digest, maxConn: nat, s: State, e: SessionRuns.Event, p: PeerId, r: Ref)
    requires Shape(s) && Acceptable(s, e) && r < |s.heap| && r in s.missing && p in s.available
    ensures var t := SessionRuns.Step(sha, maxConn, s, e).state;
            && r < |t.heap| && t.heap[r].hash == s.heap[r].hash
            && (p in t.heap[r].peers <==> ListedAfter(s, e, p, s.heap[r].hash, p in s.heap[r].peers))
  {
    match e
    case UserGet(_, _) => assert false;
    case TimerFires(at) => TimerPeers(s, at, r);
    case Arrives(from, message, at) =>
      if Hears(s, e) {
        IHavePeers(s, from, message.hashes, at, r);
      } else {
        OtherPeers(sha, maxConn, s, e, r);
      }
  }

  /** The same, folded over a session. */
  ghost function Lists(sha: Digest, maxConn: nat, s: State, events: seq<SessionRuns.Event>, p: PeerId, h: seq<byte>, listed: bool): bool
    requires Shape(s) && Run(sha, maxConn, s, events).Some?
    decreases |events|
  {
    if events == [] then listed
    else Lists(sha, maxConn, SessionRuns.Step(sha, maxConn, s, events[0]).state, events[1..], p, h,
               ListedAfter(s, events[0], p, h, listed))
  }

  /** In every session, whatever else happens in it, a chunk that is missing at the end lists a peer
      exactly as the IHAVE packets of the peer and its failed transfers have it. */
  lemma {:induction false} RunLists(sha: Digest, maxConn: nat, s: State, events: seq<SessionRuns.Event>, p: PeerId, r: Ref)
    requires Shape(s) && r < |s.heap| && p in s.available && Run(sha, maxConn, s, events).Some?
    requires r in Run(sha, maxConn, s, events).value.missing
    ensures var t := Run(sha, maxConn, s, events).value;
            && r in s.missing && r < |t.heap| && t.heap[r].hash == s.heap[r].hash
            && (p in t.heap[r].peers <==> Lists(sha, maxConn, s, events, p, s.heap[r].hash, p in s.heap[r].peers))
    decreases |events|
  {
    RunMissing(sha, maxConn, s, events, r);
    if events != [] {
      StepLists(sha, maxConn, s, events[0], p, r);
      StepKnown(sha, maxConn, s, events[0], p);
      StepMissing(sha, maxConn, s, events[0], r);
      RunLists(sha, maxConn, SessionRuns.Step(sha, maxConn, s, events[0]).state, events[1..], p, r);
    }
  }

  // ----- Discovery -----

  /** The hash lists of the IHAVE packets from p, in order. */
  function Heard(events: seq<SessionRuns.Event>, p: PeerId): seq<seq<seq<byte>>> {
    if events == [] then []
    else
      var e := events[0];
      (if e.Arrives? && e.from == p && e.message.IHave? then [e.message.hashes] else []) + Heard(events[1..], p)
  }

  /** No transfer from p is given up during the session. */
  ghost predicate KeepsUp(sha: Digest, maxConn: nat, s: State, events: seq<SessionRuns.Event>, p: PeerId)
    requires Shape(s) && Run(sha, maxConn, s, events).Some?
    decreases |events|
  {
    events == [] ||
    (&& !(events[0].TimerFires? && Dies(s.incoming, p, events[0].at))
     && KeepsUp(sha, maxConn, SessionRuns.Step(sha, maxConn, s, events[0]).state, events[1..], p))
  }

  lemma {:induction false} ListsHeard(sha: Digest, maxConn: nat, s: State, events: seq<SessionRuns.Event>, p: PeerId, h: seq<byte>, listed: bool)
    requires Shape(s) && Run(sha, maxConn, s, events).Some? && KeepsUp(sha, maxConn, s, events, p)
    ensures Lists(sha, maxConn, s, events, p, h, listed) <==> listed || h in Flatten(Heard(events, p))
    decreases |events|
  {
    if events != [] {
      var e := events[0];
      ListsHeard(sha, maxConn, SessionRuns.Step(sha, maxConn, s, e).state, events[1..], p, h, ListedAfter(s, e, p, h, listed));
      var rest := Heard(events[1..], p);
      if e.Arrives? && e.from == p && e.message.IHave? {
        assert Heard(events, p)[1..] == rest;
      } else {
        assert Heard(events, p) == rest;
      }
    }
  }

  /** Every WHOHAS of the client has been answered by the server at least once, in any order. The
      server may have sent more, such as answers to later WHOHAS, but names only hashes it has. */
  ghost predicate Answered(s: State, server: State, replies: seq<seq<seq<byte>>>)
    requires Shape(s) && Shape(server)
  {
    var asked := Batches(HashesOf(s.heap, s.missing));
    && (forall b :: b in asked ==> Owned(server.heap, server.have, b) in replies)
    && (forall h :: h in Flatten(replies) ==> Owns(server.heap, server.have, h))
  }

  lemma AnsweredExactly(s: State, server: State, replies: seq<seq<seq<byte>>>, r: Ref)
    requires Shape(s) && Shape(server) && Answered(s, server, replies) && r in s.missing && r < |s.heap|
    ensures s.heap[r].hash in Flatten(replies) <==> Owns(server.heap, server.have, s.heap[r].hash)
  {
    var h, hashes := s.heap[r].hash, HashesOf(s.heap, s.missing);
    if Owns(server.heap, server.have, h) {
      InFlatten(replies, h);
      var i :| 0 <= i < |s.missing| && s.missing[i] == r;
      assert hashes[i] == h;
      BatchesPartition(hashes);
      InFlatten(Batches(hashes), h);
      var b :| b in Batches(hashes) && h in b;
      InOwned(server.heap, server.have, b, h);
    }
  }

  /** Answers that the server computes from its list name only hashes it has. */
  lemma AnswersAreHonest(server: State, asked: seq<seq<seq<byte>>>, replies: seq<seq<seq<byte>>>)
    requires Shape(server)
    requires forall x :: x in replies ==> exists b :: b in asked && x == Owned(server.heap, server.have, b)
    ensures forall h :: h in Flatten(replies) ==> Owns(server.heap, server.have, h)
  {
    forall h | h in Flatten(replies) ensures Owns(server.heap, server.have, h) {
      InFlatten(replies, h);
      var x :| x in replies && h in x;
      var b :| b in asked && x == Owned(server.heap, server.have, b);
      InOwned(server.heap, server.have, b, h);
    }
  }

  /** Discovery is exact in every session in which each WHOHAS is answered and no transfer from the
      peer is given up, whatever other packets, peers and timers do meanwhile: a chunk that is still
      missing lists the peer exactly when the peer has its hash or was listed before. */
  lemma DiscoveryExact(sha: Digest, maxConn: nat, s: State, events: seq<SessionRuns.Event>, from: PeerId, server: State, r: Ref)
    requires Shape(s) && Shape(server) && from in s.available && r < |s.heap|
    requires Run(sha, maxConn, s, events).Some? && r in Run(sha, maxConn, s, events).value.missing
    requires KeepsUp(sha, maxConn, s, events, from) && Answered(s, server, Heard(events, from))
    ensures var t := Run(sha, maxConn, s, events).value;
            && r < |t.heap|
            && (from in t.heap[r].peers <==> from in s.heap[r].peers || Owns(server.heap, server.have, s.heap[r].hash))
  {
    RunLists(sha, maxConn, s, events, from, r);
    ListsHeard(sha, maxConn, s, events, from, s.heap[r].hash, from in s.heap[r].peers);
    AnsweredExactly(s, server, Heard(events, from), r);
  }

  // ----- No peer is listed twice -----

  ghost predicate PeersDistinct(heap: seq<ChunkRec>) {
    forall r :: 0 <= r < |heap| ==> Distinct(heap[r].peers)
  }

  lemma {:induction false} WantDistinct(s: State, entries: seq<Entry>)
    requires Shape(s) && (forall e :: e in entries ==> IsHash(e.hex)) && PeersDistinct(s.heap)
    ensures PeersDistinct(Want(s, entries).heap)
    decreases |entries|
  {
    if entries != [] {
      assert entries[0] in entries;
      WantDistinct(WantOne(s, entries[0]), entries[1..]);
    }
  }

  lemma StepDistinct(sha: Digest, maxConn: nat, s: State, e: SessionRuns.Event)
    requires Shape(s) && Acceptable(s, e) && PeersDistinct(s.heap)
    ensures PeersDistinct(SessionRuns.Step(sha, maxConn, s, e).state.heap)
  {
    if e.UserGet? {
      WantDistinct(s, e.entries);
    } else {
      StepSize(sha, maxConn, s, e);
      forall r | 0 <= r < |s.heap| ensures Distinct(SessionRuns.Step(sha, maxConn, s, e).state.heap[r].peers) {
        assert Distinct(s.heap[r].peers);
        if e.TimerFires? {
          TimerPeers(s, e.at, r);
        } else if Hears(s, e) {
          IHavePeers(s, e.from, e.message.hashes, e.at, r);
        } else {
          OtherPeers(sha, maxConn, s, e, r);
        }
      }
    }
  }

  /** In every session from the start of a peer, no chunk ever lists a peer twice. */
  lemma NeverTwice(sha: Digest, maxConn: nat, s: State, events: seq<SessionRuns.Event>, own: nat)
    requires Initial(s, own) && NobodyListed(s) && Run(sha, maxConn, s, events).Some?
    ensures PeersDistinct(Run(sha, maxConn, s, events).value.heap)
  {
    RunDistinct(sha, maxConn, s, events);
  }

  lemma {:induction false} RunDistinct(sha: Digest, maxConn: nat, s: State, events: seq<SessionRuns.Event>)
    requires Shape(s) && PeersDistinct(s.heap) && Run(sha, maxConn, s, events).Some?
    ensures PeersDistinct(Run(sha, maxConn, s, events).value.heap)
    decreases |events|
  {
    if events != [] {
      StepDistinct(sha, maxConn, s, events[0]);
      RunDistinct(sha, maxConn, SessionRuns.Step(sha, maxConn, s, events[0]).state, events[1..]);
    }
  }
}
