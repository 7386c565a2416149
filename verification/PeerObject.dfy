/** The peer as an object: its global lists, changed in place by the loops of code/bt_client.c,
    code/bt_server.c and code/peer.c, proved against the steps of module Session. */
module PeerObject {
  import opened Common
  import opened ChunkLayout
  import opened Congestion
  import opened Sender
  import opened Receiver
  import opened HexCodec
  import opened Session
  import opened SessionRuns

  /** The outcome of a later part of a step, after what was sent before it. */
  function Then(sent: seq<Send>, out: Out): Out {
    Out(out.state, sent + out.sent)
  }

  /** A chunk of the peer's own files: `create_chunk`, its data, and a full counter. */
  function OwnChunk(e: Entry, data: ChunkData): ChunkRec
    requires IsHash(e.hex)
  {
    ChunkRec(e.id, e.hex, HexToBinary(e.hex), Store(data, EmptyStore().bits, MAX_SEQ_NUM), [])
  }

  class Peer {
    var heap: seq<ChunkRec>
    var wanted: seq<Ref>
    var have: seq<Ref>
    var missing: seq<Ref>
    var incoming: seq<Incoming>
    var outgoing: seq<Outgoing>
    var available: map<PeerId, bool>
    var written: seq<Write>

    ghost function View(): State
      reads this
    {
      State(heap, wanted, have, missing, incoming, outgoing, available, written)
    }

    /** `peer_setup`: the chunks of the peer's own files, in the order of the list, and everybody free. */
    constructor (own: seq<Entry>, data: seq<ChunkData>, peers: set<PeerId>)
      requires |data| == |own| && forall i :: 0 <= i < |own| ==> IsHash(own[i].hex)
      requires forall i, j :: 0 <= i < j < |own| ==> own[i].hex != own[j].hex
      ensures Shape(View()) && Initial(View(), |own|) && NobodyListed(View())
      ensures forall i :: 0 <= i < |own| ==> heap[i].id == own[i].id && heap[i].hex == own[i].hex && heap[i].store.data == data[i]
      ensures forall p :: p in available <==> p in peers
      ensures forall p :: p in available ==> available[p]
    {
      heap := seq(|own|, i requires 0 <= i < |own| => OwnChunk(own[i], data[i]));
      have := seq(|own|, i => i);
      wanted, missing, incoming, outgoing, written := [], [], [], [], [];
      available := map p | p in peers :: true;
      forall i, j | 0 <= i < j < |own| ensures HexToBinary(own[i].hex) != HexToBinary(own[j].hex) {
        LookupsAgree(own[i].hex, own[j].hex);
      }
    }

    // ----- Searches -----

    /** `node_find` with `compare_transfer_by_chunk_hash` on the incoming list. */
    method IsClaimed(hash: seq<byte>) returns (claimed: bool)
      requires Shape(View())
      ensures claimed <==> Claimed(View(), hash)
    {
      for i := 0 to |incoming|
        invariant forall j :: 0 <= j < i ==> heap[incoming[j].chunk].hash != hash
      {
        if heap[incoming[i].chunk].hash == hash {
          return true;
        }
      }
      return false;
    }

    /** `find_first_available_peer`. */
    method FindAvailable(peers: seq<PeerId>) returns (found: Option<PeerId>)
      ensures found == FirstAvailable(peers, available)
    {
      var i := 0;
      while i < |peers|
        invariant i <= |peers|
        invariant FirstAvailable(peers, available) == FirstAvailable(peers[i..], available)
      {
        if peers[i] in available && available[peers[i]] {
          return Some(peers[i]);
        }
        i := i + 1;
      }
      return None;
    }

    /** `node_find` with `compare_transfer_by_peer_id` on the incoming list. */
    method FindIncoming(p: PeerId) returns (i: nat)
      ensures i == IncomingFrom(incoming, p)
    {
      i := 0;
      while i < |incoming| && incoming[i].peer != p
        invariant i <= |incoming|
        invariant IncomingFrom(incoming, p) == i + IncomingFrom(incoming[i..], p)
      {
        assert incoming[i..][1..] == incoming[i + 1..];
        i := i + 1;
      }
    }

    // ----- Scheduling -----

    /** `get_chunk_data`. */
    method StartDownloads(now: Time) returns (sent: seq<Send>)
      requires Shape(View())
      modifies this`incoming, this`available
      ensures Out(View(), sent) == GetChunkData(old(View()), old(missing), now)
    {
      sent := [];
      var i := 0;
      assert missing[0..] == missing;
      while i < |missing|
        invariant i <= |missing| && Shape(View())
        invariant Then(sent, GetChunkData(View(), missing[i..], now)) == GetChunkData(old(View()), missing, now)
      {
        var more := StartOne(i, now);
        sent := sent + more;
        i := i + 1;
      }
    }

    /** One turn of the loop of `get_chunk_data`. */
    method StartOne(i: nat, now: Time) returns (sent: seq<Send>)
      requires Shape(View()) && i < |missing|
      modifies this`incoming, this`available
      ensures Shape(View())
      ensures Then(sent, GetChunkData(View(), missing[i + 1..], now)) == GetChunkData(old(View()), missing[i..], now)
    {
      assert missing[i..][0] == missing[i] && missing[i..][1..] == missing[i + 1..];
      var c := heap[missing[i]];
      var claimed := IsClaimed(c.hash);
      var peer := FindAvailable(c.peers);
      sent := [];
      if peer.Some? && !claimed {
        available := available[peer.value := false];
        incoming := [Incoming(peer.value, missing[i], now, 0)] + incoming;
        sent := [To(peer.value, Get(c.hash))];
      }
    }

    // ----- Receiving data -----

    /** `construct_data` and the clearing of `wanted`, when nothing is missing. */
    method CheckCompletion()
      requires Shape(View())
      modifies this`wanted, this`written
      ensures View() == CheckAllReceived(old(View()))
    {
      if |missing| != 0 {
        return;
      }
      ghost var before := written;
      for i := 0 to |wanted|
        invariant wanted == old(wanted) && written == before + Writes(View(), wanted[..i])
      {
        var c := heap[wanted[i]];
        written := written + [Write(wanted[i], c.id * BT_CHUNK_SIZE, c.store.data)];
      }
      assert wanted[..|wanted|] == wanted;
      wanted := [];
    }

    /** The list part of `validate_chunk`. */
    method MoveToHave(c: Ref)
      requires Shape(View()) && c < |heap|
      modifies this`missing, this`have
      ensures View() == Received(old(View()), c)
    {
      var found := FindHash(heap, missing, heap[c].hash);
      if found.Some? {
        missing := missing[..found.value] + missing[found.value + 1..];
        have := [c] + have;
      }
    }

    /** `node_delete` of an incoming transfer, with `delete_transfer`. */
    method DropIncoming(i: nat)
      requires i < |incoming|
      modifies this`incoming, this`available
      ensures View() == DeleteIncoming(old(View()), i)
    {
      available := available[incoming[i].peer := true];
      incoming := incoming[..i] + incoming[i + 1..];
    }

    /** `receive_DATA`. */
    method ReceiveData(from: PeerId, k: nat, payload: seq<byte>, now: Time) returns (sent: seq<Send>)
      requires Shape(View()) && Receiver.WellFormed(k, payload)
      modifies this
      ensures Out(View(), sent) == OnData(ChunkSha1, old(View()), from, k, payload, now)
    {
      var i := FindIncoming(from);
      if i == |incoming| {
        return [];
      }
      var c := incoming[i].chunk;
      var r := Receive(ChunkSha1, heap[c].store, heap[c].hash, k, payload);
      heap := heap[c := heap[c].(store := r.store)];
      incoming := incoming[i := incoming[i].(timestamp := now)];
      assert View() == Stored(old(View()), i, r.store, now);
      sent := [To(from, Message.Ack(r.ack))];
      if r.verdict != Pending {
        var more := Conclude(i, r.verdict == Valid, now);
        sent := sent + more;
      }
    }

    method Conclude(i: nat, valid: bool, now: Time) returns (sent: seq<Send>)
      requires Shape(View()) && i < |incoming|
      modifies this
      ensures Out(View(), sent) == Concluded(old(View()), i, valid, now)
    {
      if valid {
        MoveToHave(incoming[i].chunk);
        CheckCompletion();
      }
      DropIncoming(i);
      sent := StartDownloads(now);
    }

    /** `receive_DENIED`. */
    method ReceiveDenied(from: PeerId)
      modifies this`incoming, this`available
      ensures View() == OnDenied(old(View()), from)
    {
      var i := FindIncoming(from);
      if i < |incoming| {
        DropIncoming(i);
      }
    }

    // ----- Discovery -----

    /** The inner loop of `receive_IHAVE`: note the peer on the missing chunks with this hash. */
    method NotePeer(hash: seq<byte>, from: PeerId)
      requires Shape(View())
      modifies this`heap
      ensures heap == Note(old(heap), missing, hash, from)
    {
      for i := 0 to |missing|
        invariant |heap| == |old(heap)| && Shape(View())
        invariant heap == Note(old(heap), missing[..i], hash, from)
      {
        var r := missing[i];
        assert missing[..i + 1] == missing[..i] + [r];
        if heap[r].hash == hash && from !in heap[r].peers {
          heap := heap[r := heap[r].(peers := [from] + heap[r].peers)];
        }
      }
      assert missing[..|missing|] == missing;
    }

    /** `receive_IHAVE`. */
    method ReceiveIHave(from: PeerId, hashes: seq<seq<byte>>, now: Time) returns (sent: seq<Send>)
      requires Shape(View())
      modifies this
      ensures Out(View(), sent) == OnIHave(old(View()), from, hashes, now)
    {
      if from !in available {
        return [];
      }
      var i := 0;
      assert hashes[0..] == hashes;
      while i < |hashes|
        invariant i <= |hashes| && |heap| == |old(heap)| && View() == old(View()).(heap := heap)
        invariant NoteAll(heap, missing, hashes[i..], from) == NoteAll(old(heap), missing, hashes, from)
      {
        assert hashes[i..][0] == hashes[i] && hashes[i..][1..] == hashes[i + 1..];
        NotePeer(hashes[i], from);
        i := i + 1;
      }
      sent := StartDownloads(now);
    }

    /** `send_WHOHAS`: fill a packet hash by hash and send it when full or at the end. */
    method SendWhoHas() returns (sent: seq<Send>)
      requires Shape(View())
      ensures sent == Flood(View())
    {
      var pack: seq<seq<byte>> := [];
      var batches: seq<seq<seq<byte>>> := [];
      ghost var hashes := HashesOf(heap, missing);
      assert [] + hashes[0..] == hashes;
      for i := 0 to |missing|
        invariant |pack| < PacketCodec.MAX_HASH_IN_PACKET && (i == |missing| ==> pack == [])
        invariant Packed(batches, pack, hashes[i..]) == Batches(hashes)
      {
        NextBatch(batches, pack, hashes, i);
        pack := pack + [heap[missing[i]].hash];
        if |pack| == PacketCodec.MAX_HASH_IN_PACKET || i + 1 == |missing| {
          batches := batches + [pack];
          pack := [];
        }
      }
      sent := seq(|batches|, i requires 0 <= i < |batches| => ToAll(WhoHas(batches[i])));
    }

    // ----- Client timer -----

    /** The loops of `handle_transfer_dead`: take the peer off every missing chunk, then the transfer
        off the list. */
    method TransferDied(i: nat)
      requires Shape(View()) && i < |incoming|
      modifies this`heap, this`incoming, this`available
      ensures View() == Died(old(View()), i)
    {
      var p := incoming[i].peer;
      ghost var before := heap;
      for j := 0 to |missing|
        invariant |heap| == |before| && Shape(View())
        invariant View() == old(View()).(heap := heap)
        invariant forall r :: 0 <= r < |heap| ==>
                    heap[r] == if r in missing[..j] then before[r].(peers := RemovePeer(before[r].peers, p)) else before[r]
      {
        var r := missing[j];
        assert missing[..j + 1] == missing[..j] + [r];
        var kept := WithoutPeer(heap[r].peers, p);
        RemoveTwice(before[r].peers, p);
        heap := heap[r := heap[r].(peers := kept)];
      }
      DropIncoming(i);
    }

    method WithoutPeer(peers: seq<PeerId>, p: PeerId) returns (kept: seq<PeerId>)
      ensures kept == RemovePeer(peers, p)
    {
      kept := [];
      var i := 0;
      assert peers[0..] == peers;
      while i < |peers|
        invariant i <= |peers|
        invariant kept + RemovePeer(peers[i..], p) == RemovePeer(peers, p)
      {
        assert peers[i..][0] == peers[i] && peers[i..][1..] == peers[i + 1..];
        if peers[i] != p {
          kept := kept + [peers[i]];
        }
        i := i + 1;
      }
    }

    /** `send_GET` or `send_ACK` again after a timeout. */
    method RetryTransfer(i: nat, now: Time) returns (sent: seq<Send>)
      requires Shape(View()) && i < |incoming|
      modifies this`incoming
      ensures Out(View(), sent) == AskAgain(old(View()), i, now)
    {
      var t := incoming[i];
      incoming := incoming[i := t.(timeoutCount := t.timeoutCount + 1)];
      var c := heap[t.chunk];
      if c.store.count == 0 {
        sent := [To(t.peer, Get(c.hash))];
      } else {
        sent := [To(t.peer, Message.Ack(Prefix(c.store.bits)))];
      }
      var j := FindIncoming(t.peer);
      if j < |incoming| {
        incoming := incoming[j := incoming[j].(timestamp := now)];
      }
    }

    /** `handle_client_timeout`. */
    method ClientTimeout(now: Time) returns (sent: seq<Send>)
      requires Shape(View())
      modifies this
      ensures Out(View(), sent) == OnClientTimer(old(View()), now)
    {
      if |missing| == 0 {
        return [];
      }
      sent := SweepTransfers(now);
      var started := StartDownloads(now);
      sent := sent + started;
      if |incoming| < |missing| {
        var flood := SendWhoHas();
        sent := sent + flood;
      }
    }

    method SweepTransfers(now: Time) returns (sent: seq<Send>)
      requires Shape(View())
      modifies this`heap, this`incoming, this`available
      ensures Out(View(), sent) == SweepIncoming(old(View()), 0, now)
    {
      sent := [];
      var i: nat := 0;
      while i < |incoming|
        invariant i <= |incoming| && Shape(View())
        invariant Then(sent, SweepIncoming(View(), i, now)) == SweepIncoming(old(View()), 0, now)
        decreases |incoming| - i
      {
        var more;
        i, more := SweepOne(i, now);
        sent := sent + more;
      }
    }

    /** One turn of the loop of `handle_client_timeout`. */
    method SweepOne(i: nat, now: Time) returns (next: nat, sent: seq<Send>)
      requires Shape(View()) && i < |incoming|
      modifies this`heap, this`incoming, this`available
      ensures Shape(View()) && next <= |incoming| && |incoming| - next < |old(incoming)| - i
      ensures Then(sent, SweepIncoming(View(), next, now)) == SweepIncoming(old(View()), i, now)
    {
      if !HasTimedOut(incoming[i].timestamp, now) {
        return i + 1, [];
      } else if incoming[i].timeoutCount + 1 >= MAX_TO_COUNTS {
        TransferDied(i);
        return i, [];
      } else {
        sent := RetryTransfer(i, now);
        return i + 1, sent;
      }
    }

    // ----- The user's GET -----

    /** `create_wanted_missing_list`. */
    method CreateLists(entries: seq<Entry>)
      requires Shape(View()) && forall e :: e in entries ==> IsHash(e.hex)
      modifies this
      ensures View() == CheckAllReceived(Want(old(View()), entries))
    {
      var i := 0;
      assert entries[0..] == entries;
      while i < |entries|
        invariant i <= |entries| && Shape(View())
        invariant Want(View(), entries[i..]) == Want(old(View()), entries)
      {
        assert entries[i..][0] == entries[i] && entries[i..][1..] == entries[i + 1..];
        assert entries[i] in entries;
        WantEntry(entries[i]);
        i := i + 1;
      }
      CheckCompletion();
    }

    method WantEntry(e: Entry)
      requires Shape(View()) && IsHash(e.hex)
      modifies this
      ensures Shape(View()) && View() == WantOne(old(View()), e)
    {
      var found := FindHex(heap, have, e.hex);
      var r;
      if found.None? {
        r := |heap|;
        heap := heap + [ChunkRec(e.id, e.hex, HexToBinary(e.hex), EmptyStore(), [])];
        missing := [r] + missing;
      } else {
        r := found.value;
        heap := heap[r := heap[r].(id := e.id)];
      }
      wanted := [r] + wanted;
    }

    /** `process_get`. */
    method ProcessGet(entries: seq<Entry>) returns (sent: seq<Send>)
      requires Shape(View()) && forall e :: e in entries ==> IsHash(e.hex)
      modifies this
      ensures Out(View(), sent) == OnUserGet(old(View()), entries)
    {
      CreateLists(entries);
      sent := SendWhoHas();
    }

    // ----- Server side -----

    /** The inner loop of `receive_WHOHAS`. */
    method CollectMatches(hash: seq<byte>) returns (found: seq<seq<byte>>)
      requires Shape(View())
      ensures found == Matches(heap, have, hash)
    {
      found := [];
      var i := 0;
      assert have[0..] == have;
      while i < |have|
        invariant i <= |have|
        invariant found + Matches(heap, have[i..], hash) == Matches(heap, have, hash)
      {
        assert have[i..][0] == have[i] && have[i..][1..] == have[i + 1..];
        ghost var rest := Matches(heap, have[i + 1..], hash);
        assert found + ([hash] + rest) == (found + [hash]) + rest && [] + rest == rest;
        if heap[have[i]].hash == hash {
          found := found + [hash];
        }
        i := i + 1;
      }
    }

    /** `receive_WHOHAS`. */
    method ReceiveWhoHas(from: PeerId, hashes: seq<seq<byte>>) returns (sent: seq<Send>)
      requires Shape(View())
      ensures Out(View(), sent) == OnWhoHas(View(), from, hashes)
    {
      var found: seq<seq<byte>> := [];
      var i := 0;
      assert hashes[0..] == hashes;
      while i < |hashes|
        invariant i <= |hashes|
        invariant found + Owned(heap, have, hashes[i..]) == Owned(heap, have, hashes)
      {
        assert hashes[i..][0] == hashes[i] && hashes[i..][1..] == hashes[i + 1..];
        var more := CollectMatches(hashes[i]);
        found := found + more;
        i := i + 1;
      }
      assert found + [] == found;
      sent := [To(from, IHave(found))];
    }

    /** `node_find` on the outgoing list, by chunk hash and by peer. */
    method IsServing(hash: seq<byte>) returns (serving: bool)
      requires Shape(View())
      ensures serving <==> exists j :: 0 <= j < |outgoing| && heap[outgoing[j].chunk].hash == hash
    {
      for i := 0 to |outgoing|
        invariant forall j :: 0 <= j < i ==> heap[outgoing[j].chunk].hash != hash
      {
        if heap[outgoing[i].chunk].hash == hash {
          return true;
        }
      }
      return false;
    }

    method FindOutgoing(p: PeerId) returns (i: nat)
      ensures i == OutgoingTo(outgoing, p)
    {
      i := 0;
      while i < |outgoing| && outgoing[i].peer != p
        invariant i <= |outgoing|
        invariant OutgoingTo(outgoing, p) == i + OutgoingTo(outgoing[i..], p)
      {
        assert outgoing[i..][1..] == outgoing[i + 1..];
        i := i + 1;
      }
    }

    /** `receive_GET`. */
    method ReceiveGet(from: PeerId, hash: seq<byte>, maxConn: nat, now: Time) returns (sent: seq<Send>)
      requires Shape(View())
      modifies this`outgoing, this`available
      ensures Out(View(), sent) == OnGet(old(View()), from, hash, maxConn, now)
    {
      var found := FindHash(heap, have, hash);
      if found.None? {
        return [To(from, Denied)];
      }
      if |outgoing| >= maxConn {
        return [To(from, Denied)];
      }
      var serving := IsServing(hash);
      if serving {
        return [];
      }
      var c := have[found.value];
      StartInv(now);
      available := available[from := false];
      outgoing := [Outgoing(from, c, Start(now).next.value)] + outgoing;
      sent := DataTo(from, Packets(heap[c].store.data, Start(now).sent));
    }

    /** `receive_ACK`, with the transfer's own part as the step of its sender. */
    method ReceiveAcknowledgement(from: PeerId, num: nat, now: Time) returns (sent: seq<Send>)
      requires Shape(View()) && num <= MAX_SEQ_NUM
      modifies this`outgoing, this`available
      ensures Out(View(), sent) == OnAck(old(View()), from, num, now)
    {
      var i := FindOutgoing(from);
      if i == |outgoing| {
        return [];
      }
      var t := outgoing[i];
      AckSendsInRange(t.sender, num, now);
      var r := ReceiveAck(t.sender, num, now);
      if r.next.None? {
        DropOutgoing(i);
        return [];
      }
      outgoing := outgoing[i := t.(sender := r.next.value)];
      sent := DataTo(from, Packets(heap[t.chunk].store.data, r.sent));
    }

    method DropOutgoing(i: nat)
      requires i < |outgoing|
      modifies this`outgoing, this`available
      ensures View() == DeleteOutgoing(old(View()), i)
    {
      available := available[outgoing[i].peer := true];
      outgoing := outgoing[..i] + outgoing[i + 1..];
    }

    /** `handle_server_timeout`. */
    method ServerTimeout(now: Time)
      requires Shape(View())
      modifies this`outgoing, this`available
      ensures View() == SweepOutgoing(old(View()), 0, now)
    {
      var i := 0;
      while i < |outgoing|
        invariant i <= |outgoing| && Shape(View())
        invariant SweepOutgoing(View(), i, now) == SweepOutgoing(old(View()), 0, now)
        decreases |outgoing| - i
      {
        var next := ReceiveTimer(outgoing[i].sender, now).next;
        if next.None? {
          DropOutgoing(i);
        } else {
          outgoing := outgoing[i := outgoing[i].(sender := next.value)];
          i := i + 1;
        }
      }
    }

    /** `handle_timeout`. */
    method Timeout(now: Time) returns (sent: seq<Send>)
      requires Shape(View())
      modifies this
      ensures Out(View(), sent) == OnClientTimer(SweepOutgoing(old(View()), 0, now), now)
    {
      ServerTimeout(now);
      sent := ClientTimeout(now);
    }

    // ----- Whole steps -----

    /** `process_inbound_udp`, once the packet is decoded. */
    method ProcessInboundUdp(from: PeerId, message: Message, maxConn: nat, now: Time) returns (sent: seq<Send>)
      requires Shape(View()) && Acceptable(View(), Arrives(from, message, now))
      modifies this
      ensures Out(View(), sent) == SessionRuns.Step(ChunkSha1, maxConn, old(View()), Arrives(from, message, now))
    {
      if from !in available {
        return [];
      }
      match message
      case WhoHas(hashes) => sent := ReceiveWhoHas(from, hashes);
      case IHave(hashes) => sent := ReceiveIHave(from, hashes, now);
      case Get(hash) => sent := ReceiveGet(from, hash, maxConn, now);
      case Data(packet) => sent := ReceiveData(from, packet.num, packet.payload, now);
      case Ack(num) => sent := ReceiveAcknowledgement(from, num, now);
      case Denied =>
        ReceiveDenied(from);
        sent := [];
    }

    /** One turn of the loop of `peer_run`. */
    method Handle(e: SessionRuns.Event, maxConn: nat) returns (sent: seq<Send>)
      requires Shape(View()) && Acceptable(View(), e)
      modifies this
      ensures Out(View(), sent) == SessionRuns.Step(ChunkSha1, maxConn, old(View()), e)
    {
      match e
      case UserGet(entries, _) => sent := ProcessGet(entries);
      case Arrives(from, message, at) => sent := ProcessInboundUdp(from, message, maxConn, at);
      case TimerFires(at) => sent := Timeout(at);
    }

    /** The loop of `peer_run`, over any sequence of events. */
    method PeerRun(events: seq<SessionRuns.Event>, maxConn: nat)
      requires Shape(View()) && Run(ChunkSha1, maxConn, View(), events).Some?
      modifies this
      ensures View() == Run(ChunkSha1, maxConn, old(View()), events).value
    {
      var i := 0;
      assert events[0..] == events;
      while i < |events|
        invariant i <= |events| && Shape(View())
        invariant Run(ChunkSha1, maxConn, View(), events[i..]) == Run(ChunkSha1, maxConn, old(View()), events)
      {
        assert events[i..][0] == events[i] && events[i..][1..] == events[i + 1..];
        var _ := Handle(events[i], maxConn);
        i := i + 1;
      }
    }
  }

  /** All packets there will be, from those sent, the one being filled and the hashes to come. */
  function Packed(batches: seq<seq<seq<byte>>>, pack: seq<seq<byte>>, rest: seq<seq<byte>>): seq<seq<seq<byte>>> {
    batches + Batches(pack + rest)
  }

  /** One more hash goes into the packet, and the packet goes out when it is full or the last one. */
  lemma NextBatch(batches: seq<seq<seq<byte>>>, pack: seq<seq<byte>>, hashes: seq<seq<byte>>, i: nat)
    requires i < |hashes| && |pack| < PacketCodec.MAX_HASH_IN_PACKET
    ensures Packed(batches, pack + [hashes[i]], hashes[i + 1..]) == Packed(batches, pack, hashes[i..])
    ensures |pack| + 1 == PacketCodec.MAX_HASH_IN_PACKET || i + 1 == |hashes| ==>
              Packed(batches + [pack + [hashes[i]]], [], hashes[i + 1..]) == Packed(batches, pack, hashes[i..])
  {
    var full, rest := pack + [hashes[i]], hashes[i + 1..];
    assert full + rest == pack + hashes[i..] && [] + rest == rest;
    if |full| == PacketCodec.MAX_HASH_IN_PACKET && rest != [] {
      assert (full + rest)[..PacketCodec.MAX_HASH_IN_PACKET] == full && (full + rest)[PacketCodec.MAX_HASH_IN_PACKET..] == rest;
    } else if rest == [] {
      assert full + rest == full;
    }
  }

  lemma {:induction false} RemoveTwice(peers: seq<PeerId>, p: PeerId)
    ensures RemovePeer(RemovePeer(peers, p), p) == RemovePeer(peers, p)
  {
    if peers != [] {
      RemoveTwice(peers[1..], p);
      if peers[0] != p {
        assert RemovePeer(peers, p)[1..] == RemovePeer(peers[1..], p);
      }
    }
  }
}
