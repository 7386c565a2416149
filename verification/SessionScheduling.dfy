/** Which downloads a peer starts, and when it asks the network again (code/bt_client.c, code/transfer.c). */
module SessionScheduling {
  import opened Common
  import opened Congestion
  import opened Sender
  import opened Receiver
  import opened Session
  import opened SessionSafety
  import opened SessionRuns

  // ----- Maximal matching -----

  ghost predicate NoneAvailable(peers: seq<PeerId>, available: map<PeerId, bool>) {
    forall p :: p in peers && p in available ==> !available[p]
  }

  /** A chunk is being fetched, or nobody who has it is free. */
  ghost predicate Served(s: State, r: Ref)
    requires Shape(s) && r < |s.heap|
  {
    Claimed(s, s.heap[r].hash) || NoneAvailable(s.heap[r].peers, s.available)
  }

  /** Going on never frees a peer nor drops a transfer. */
  lemma {:induction false} GetOnlyClaims(s: State, todo: seq<Ref>, now: Time, r: Ref)
    requires Shape(s) && RefsIn(todo, s.heap) && r < |s.heap| && Served(s, r)
    ensures Served(GetChunkData(s, todo, now).state, r)
    decreases |todo|
  {
    if todo != [] {
      var c := s.heap[todo[0]];
      var peer := FirstAvailable(c.peers, s.available);
      if peer.Some? && !Claimed(s, c.hash) {
        var t := Claim(s, todo[0], peer.value, now);
        ClaimKeepsServed(s, todo[0], peer.value, now, r);
        GetOnlyClaims(t, todo[1..], now, r);
      } else {
        GetOnlyClaims(s, todo[1..], now, r);
      }
    }
  }

  lemma ClaimKeepsServed(s: State, c: Ref, p: PeerId, now: Time, r: Ref)
    requires Shape(s) && r < |s.heap| && c < |s.heap| && Served(s, r)
    ensures Served(Claim(s, c, p, now), r)
  {
    var t := Claim(s, c, p, now);
    if Claimed(s, s.heap[r].hash) {
      var i :| 0 <= i < |s.incoming| && s.heap[s.incoming[i].chunk].hash == s.heap[r].hash;
      assert t.incoming[i + 1] == s.incoming[i];
    }
  }

  lemma ClaimServes(s: State, c: Ref, p: PeerId, now: Time)
    requires Shape(s) && c < |s.heap|
    ensures Served(Claim(s, c, p, now), c)
  {
    assert Claim(s, c, p, now).incoming[0].chunk == c;
  }

  /** After `get_chunk_data`, every chunk visited is being fetched or nobody who has it is free. */
  lemma {:induction false} MaximalMatching(s: State, todo: seq<Ref>, now: Time, r: Ref)
    requires Shape(s) && RefsIn(todo, s.heap) && r in todo && r < |s.heap|
    ensures Served(GetChunkData(s, todo, now).state, r)
    decreases |todo|
  {
    var c := s.heap[todo[0]];
    var peer := FirstAvailable(c.peers, s.available);
    var t := if peer.Some? && !Claimed(s, c.hash) then Claim(s, todo[0], peer.value, now) else s;
    if r == todo[0] {
      if t != s { ClaimServes(s, r, peer.value, now); }
      GetOnlyClaims(t, todo[1..], now, r);
    } else {
      MaximalMatching(t, todo[1..], now, r);
    }
  }

  // ----- When to flood -----

  ghost function ChunksOf(incoming: seq<Incoming>): seq<Ref> {
    seq(|incoming|, i requires 0 <= i < |incoming| => incoming[i].chunk)
  }

  ghost predicate BeingFetched(s: State, r: Ref) {
    exists i :: 0 <= i < |s.incoming| && s.incoming[i].chunk == r
  }

  /** By hash or by chunk, it is the same question. */
  lemma ClaimedIsFetched(sha: Digest, s: State, own: nat, r: Ref)
    requires SessionInv(sha, s, own) && Shape(s) && r in s.missing
    ensures r < |s.heap| && (Claimed(s, s.heap[r].hash) <==> BeingFetched(s, r))
  {
    if Claimed(s, s.heap[r].hash) {
      var i :| 0 <= i < |s.incoming| && s.heap[s.incoming[i].chunk].hash == s.heap[r].hash;
      assert Listed(s.incoming[i].chunk, s.have, s.missing) && Listed(r, s.have, s.missing);
    }
  }

  /** There are never more incoming transfers than missing chunks, and fewer exactly when some
      missing chunk is not being fetched: the length test floods exactly when it should. */
  lemma FloodTest(sha: Digest, s: State, own: nat)
    requires SessionInv(sha, s, own) && Shape(s)
    ensures |s.incoming| <= |s.missing|
    ensures |s.incoming| < |s.missing| <==> exists r :: r in s.missing && r < |s.heap| && !Claimed(s, s.heap[r].hash)
  {
    var chunks := ChunksOf(s.incoming);
    DistinctSize(chunks);
    DistinctSize(s.missing);
    assert ToSet(chunks) <= ToSet(s.missing);
    SubsetSize(ToSet(chunks), ToSet(s.missing));
    if |s.incoming| < |s.missing| {
      SmallerLeavesSome(ToSet(chunks), ToSet(s.missing));
      var r :| r in ToSet(s.missing) && r !in ToSet(chunks);
      ClaimedIsFetched(sha, s, own, r);
      assert forall i :: 0 <= i < |s.incoming| ==> s.incoming[i].chunk == chunks[i] && chunks[i] in chunks;
    }
    if r :| r in s.missing && r < |s.heap| && !Claimed(s, s.heap[r].hash) {
      ClaimedIsFetched(sha, s, own, r);
      assert r in ToSet(s.missing) && r !in ToSet(chunks);
    }
  }

  // ----- The availability flag, on a peer that serves nobody -----

  ghost predicate Busy(incoming: seq<Incoming>, p: PeerId) {
    exists i :: 0 <= i < |incoming| && incoming[i].peer == p
  }

  /** A peer is unavailable exactly when there is one incoming transfer from it. */
  ghost predicate FlagsExact(incoming: seq<Incoming>, available: map<PeerId, bool>) {
    && (forall i :: 0 <= i < |incoming| ==> incoming[i].peer in available && !available[incoming[i].peer])
    && (forall i, j :: 0 <= i < j < |incoming| ==> incoming[i].peer != incoming[j].peer)
    && (forall p {:trigger Busy(incoming, p)} :: p in available && !available[p] ==> Busy(incoming, p))
  }

  ghost predicate PeerInv(s: State) {
    s.outgoing == [] && FlagsExact(s.incoming, s.available)
  }

  lemma ClaimPeers(s: State, c: Ref, p: PeerId, now: Time)
    requires PeerInv(s) && p in s.available && s.available[p]
    ensures PeerInv(Claim(s, c, p, now))
  {
    var t := Claim(s, c, p, now);
    forall q | q in t.available && !t.available[q] ensures Busy(t.incoming, q) {
      if q == p {
        assert t.incoming[0].peer == p;
      } else {
        assert Busy(s.incoming, q);
        var i :| 0 <= i < |s.incoming| && s.incoming[i].peer == q;
        assert t.incoming[i + 1].peer == q;
      }
    }
  }

  lemma {:induction false} GetChunkDataPeers(s: State, todo: seq<Ref>, now: Time)
    requires Shape(s) && RefsIn(todo, s.heap) && PeerInv(s)
    ensures PeerInv(GetChunkData(s, todo, now).state)
    decreases |todo|
  {
    if todo != [] {
      var c := s.heap[todo[0]];
      var peer := FirstAvailable(c.peers, s.available);
      if peer.Some? && !Claimed(s, c.hash) {
        ClaimPeers(s, todo[0], peer.value, now);
        GetChunkDataPeers(Claim(s, todo[0], peer.value, now), todo[1..], now);
      } else {
        GetChunkDataPeers(s, todo[1..], now);
      }
    }
  }

  lemma DeleteIncomingPeers(s: State, i: nat)
    requires PeerInv(s) && i < |s.incoming|
    ensures PeerInv(DeleteIncoming(s, i))
  {
    var t := DeleteIncoming(s, i);
    forall j | 0 <= j < |t.incoming| ensures t.incoming[j].peer in t.available && !t.available[t.incoming[j].peer] {
      assert t.incoming[j] == s.incoming[if j < i then j else j + 1];
    }
    forall q | q in t.available && !t.available[q] ensures Busy(t.incoming, q) {
      assert Busy(s.incoming, q);
      var j :| 0 <= j < |s.incoming| && s.incoming[j].peer == q;
      assert t.incoming[if j < i then j else j - 1].peer == q;
    }
  }

  /** Transfers that differ only in their clocks. */
  lemma ClocksPeers(s: State, incoming: seq<Incoming>, heap: seq<ChunkRec>)
    requires PeerInv(s) && |incoming| == |s.incoming|
    requires forall j :: 0 <= j < |incoming| ==> incoming[j].peer == s.incoming[j].peer
    ensures PeerInv(s.(incoming := incoming, heap := heap))
  {
    forall q | q in s.available && !s.available[q] ensures Busy(incoming, q) {
      assert Busy(s.incoming, q);
      var j :| 0 <= j < |s.incoming| && s.incoming[j].peer == q;
      assert incoming[j].peer == q;
    }
  }

  lemma {:induction false} SweepIncomingPeers(s: State, i: nat, now: Time)
    requires Shape(s) && i <= |s.incoming| && PeerInv(s)
    ensures PeerInv(SweepIncoming(s, i, now).state)
    decreases |s.incoming| - i
  {
    if i < |s.incoming| {
      if !HasTimedOut(s.incoming[i].timestamp, now) {
        SweepIncomingPeers(s, i + 1, now);
      } else if s.incoming[i].timeoutCount + 1 >= MAX_TO_COUNTS {
        var t := Died(s, i);
        ClocksPeers(s, s.incoming, t.heap);
        DeleteIncomingPeers(s.(heap := t.heap), i);
        SweepIncomingPeers(t, i, now);
      } else {
        var t := AskAgain(s, i, now).state;
        ClocksPeers(s, t.incoming, s.heap);
        SweepIncomingPeers(t, i + 1, now);
      }
    }
  }

  lemma OnDataPeers(sha: Digest, s: State, from: PeerId, k: nat, payload: seq<byte>, now: Time)
    requires Shape(s) && PeerInv(s) && Receiver.WellFormed(k, payload)
    ensures PeerInv(OnData(sha, s, from, k, payload, now).state)
  {
    var i := IncomingFrom(s.incoming, from);
    if i < |s.incoming| {
      var c := s.heap[s.incoming[i].chunk];
      var r := Receive(sha, c.store, c.hash, k, payload);
      var s1 := Stored(s, i, r.store, now);
      ClocksPeers(s, s1.incoming, s1.heap);
      if r.verdict != Pending {
        ConcludedPeers(s1, i, r.verdict == Valid, now);
      }
    }
  }

  lemma ConcludedPeers(s: State, i: nat, valid: bool, now: Time)
    requires Shape(s) && PeerInv(s) && i < |s.incoming|
    ensures PeerInv(Concluded(s, i, valid, now).state)
  {
    var s1 := if valid then CheckAllReceived(Received(s, s.incoming[i].chunk)) else s;
    DeleteIncomingPeers(s1, i);
    var s2 := DeleteIncoming(s1, i);
    GetChunkDataPeers(s2, s2.missing, now);
  }

  lemma OnClientTimerPeers(s: State, now: Time)
    requires Shape(s) && PeerInv(s)
    ensures PeerInv(OnClientTimer(s, now).state)
  {
    if s.missing != [] {
      SweepIncomingPeers(s, 0, now);
      var swept := SweepIncoming(s, 0, now).state;
      GetChunkDataPeers(swept, swept.missing, now);
    }
  }

  /** Every step that does not start serving somebody keeps the flags exact. */
  lemma StepPeers(sha: Digest, maxConn: nat, s: State, e: SessionRuns.Event)
    requires Shape(s) && PeerInv(s) && Acceptable(s, e) && SessionRuns.Step(sha, maxConn, s, e).state.outgoing == []
    ensures PeerInv(SessionRuns.Step(sha, maxConn, s, e).state)
  {
    match e
    case UserGet(entries, _) =>
    case TimerFires(at) => OnClientTimerPeers(SweepOutgoing(s, 0, at), at);
    case Arrives(from, message, at) =>
      if from in s.available {
        match message
        case IHave(hashes) =>
          var s1 := s.(heap := NoteAll(s.heap, s.missing, hashes, from));
          ClocksPeers(s, s.incoming, s1.heap);
          GetChunkDataPeers(s1, s1.missing, at);
        case Data(packet) => OnDataPeers(sha, s, from, packet.num, packet.payload, at);
        case Denied =>
          var i := IncomingFrom(s.incoming, from);
          if i < |s.incoming| { DeleteIncomingPeers(s, i); }
        case _ =>
      }
  }

  /** The session runs through without an outgoing transfer: every GET that comes is refused. */
  ghost predicate ServesNobody(sha: Digest, maxConn: nat, s: State, events: seq<SessionRuns.Event>)
    requires Shape(s)
    decreases |events|
  {
    && s.outgoing == []
    && (events == [] ||
        (Acceptable(s, events[0]) && ServesNobody(sha, maxConn, SessionRuns.Step(sha, maxConn, s, events[0]).state, events[1..])))
  }

  /** In every session of a peer that serves nobody, from a start where everybody is free, the flag
      of a peer is off exactly when there is an incoming transfer from it, and there is then one. */
  lemma {:induction false} AvailabilityExact(sha: Digest, maxConn: nat, s: State, events: seq<SessionRuns.Event>)
    requires Shape(s) && PeerInv(s) && ServesNobody(sha, maxConn, s, events)
    ensures Run(sha, maxConn, s, events).Some? && PeerInv(Run(sha, maxConn, s, events).value)
    decreases |events|
  {
    if events != [] {
      StepPeers(sha, maxConn, s, events[0]);
      AvailabilityExact(sha, maxConn, SessionRuns.Step(sha, maxConn, s, events[0]).state, events[1..]);
    }
  }

  /** So it is in every such session from the start of a peer, when everybody is free. */
  lemma AvailableFromTheStart(sha: Digest, maxConn: nat, s: State, events: seq<SessionRuns.Event>, own: nat)
    requires Initial(s, own) && (forall p :: p in s.available ==> s.available[p])
    ensures Shape(s)
    ensures ServesNobody(sha, maxConn, s, events) ==>
              Run(sha, maxConn, s, events).Some? &&
              var t := Run(sha, maxConn, s, events).value; FlagsExact(t.incoming, t.available)
  {
    if ServesNobody(sha, maxConn, s, events) {
      AvailabilityExact(sha, maxConn, s, events);
    }
  }
}
