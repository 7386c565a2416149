/** The state of one peer and its steps: what it has, wants and misses, who it knows to hold what,
    and its transfers in both directions (code/bt_client.c, code/bt_server.c, code/peer.c).

    Chunk structures are shared between lists by pointer, so they live in `heap` and the lists hold
    references. Lists grow at the front, as `node_insert` does. */
module Session {
  import opened Common
  import PacketCodec
  import opened ChunkLayout
  import opened Congestion
  import opened Sender
  import opened Receiver
  import opened HexCodec

  type PeerId = nat
  type Ref = nat

  /** A `chunk` structure. */
  datatype ChunkRec = ChunkRec(id: nat, hex: seq<byte>, hash: seq<byte>, store: Store, peers: seq<PeerId>)

  datatype Incoming = Incoming(peer: PeerId, chunk: Ref, timestamp: Time, timeoutCount: nat)

  datatype Outgoing = Outgoing(peer: PeerId, chunk: Ref, sender: Sender)

  /** One write of a chunk into the output file. */
  datatype Write = Write(chunk: Ref, offset: nat, bytes: ChunkData)

  /** `available` has an entry for every known peer. */
  datatype State = State(
    heap: seq<ChunkRec>,
    wanted: seq<Ref>,
    have: seq<Ref>,
    missing: seq<Ref>,
    incoming: seq<Incoming>,
    outgoing: seq<Outgoing>,
    available: map<PeerId, bool>,
    written: seq<Write>)

  datatype Message =
    | WhoHas(hashes: seq<seq<byte>>)
    | IHave(hashes: seq<seq<byte>>)
    | Get(hash: seq<byte>)
    | Data(packet: DataPacket)
    | Ack(num: nat)
    | Denied

  /** A message to one peer, or to all of them. */
  datatype Send = To(peer: PeerId, message: Message) | ToAll(message: Message)

  datatype Out = Out(state: State, sent: seq<Send>)

  // ----- Lists -----

  /** The position of the first transfer with the peer, or the length of the list. */
  function IncomingFrom(ts: seq<Incoming>, p: PeerId): (i: nat)
    ensures i <= |ts|
    ensures i < |ts| ==> ts[i].peer == p
    ensures forall j :: 0 <= j < i ==> ts[j].peer != p
  {
    if ts == [] || ts[0].peer == p then 0 else 1 + IncomingFrom(ts[1..], p)
  }

  function OutgoingTo(ts: seq<Outgoing>, p: PeerId): (i: nat)
    ensures i <= |ts|
    ensures i < |ts| ==> ts[i].peer == p
    ensures forall j :: 0 <= j < i ==> ts[j].peer != p
  {
    if ts == [] || ts[0].peer == p then 0 else 1 + OutgoingTo(ts[1..], p)
  }

  function RemoveAt<T>(s: seq<T>, i: nat): (r: seq<T>)
    requires i < |s|
    ensures |r| == |s| - 1
    ensures forall x :: x in r ==> x in s
  {
    s[..i] + s[i + 1..]
  }

  /** The first chunk of a list with the given binary hash. */
  function FindHash(heap: seq<ChunkRec>, refs: seq<Ref>, hash: seq<byte>): (found: Option<nat>)
    requires RefsIn(refs, heap)
    ensures found.Some? ==> found.value < |refs| && heap[refs[found.value]].hash == hash
    ensures found.None? ==> forall i :: 0 <= i < |refs| ==> heap[refs[i]].hash != hash
  {
    if refs == [] then None
    else if heap[refs[0]].hash == hash then Some(0)
    else
      match FindHash(heap, refs[1..], hash)
      case None => None
      case Some(i) => Some(i + 1)
  }

  /** The first chunk of a list with the given hash in hexadecimal. */
  function FindHex(heap: seq<ChunkRec>, refs: seq<Ref>, hex: seq<byte>): (found: Option<Ref>)
    requires RefsIn(refs, heap)
    ensures found.Some? ==> found.value in refs && heap[found.value].hex == hex
    ensures found.None? ==> forall i :: 0 <= i < |refs| ==> heap[refs[i]].hex != hex
  {
    if refs == [] then None
    else if heap[refs[0]].hex == hex then Some(refs[0])
    else FindHex(heap, refs[1..], hex)
  }

  /** `find_first_available_peer`. */
  function FirstAvailable(peers: seq<PeerId>, available: map<PeerId, bool>): (found: Option<PeerId>)
    ensures found.Some? ==> found.value in peers && found.value in available && available[found.value]
    ensures found.None? ==> forall p :: p in peers && p in available ==> !available[p]
  {
    if peers == [] then None
    else if peers[0] in available && available[peers[0]] then Some(peers[0])
    else FirstAvailable(peers[1..], available)
  }

  // ----- Well-formed states -----

  ghost predicate RefsIn(refs: seq<Ref>, heap: seq<ChunkRec>) {
    forall i :: 0 <= i < |refs| ==> refs[i] < |heap|
  }

  /** Every list refers to chunks that exist. */
  ghost predicate Shape(s: State) {
    && RefsIn(s.wanted, s.heap) && RefsIn(s.have, s.heap) && RefsIn(s.missing, s.heap)
    && (forall i :: 0 <= i < |s.incoming| ==> s.incoming[i].chunk < |s.heap|)
    && (forall i :: 0 <= i < |s.outgoing| ==> s.outgoing[i].chunk < |s.heap| && CountersInRange(s.outgoing[i].sender))
  }

  // ----- Scheduling of downloads -----

  /** Some incoming transfer is for a chunk with this hash. */
  predicate Claimed(s: State, hash: seq<byte>)
    requires Shape(s)
  {
    exists i :: 0 <= i < |s.incoming| && s.heap[s.incoming[i].chunk].hash == hash
  }

  function Claim(s: State, c: Ref, p: PeerId, now: Time): State {
    s.(incoming := [Incoming(p, c, now, 0)] + s.incoming, available := s.available[p := false])
  }

  /** `get_chunk_data`, for the part of the missing list still to be visited. */
  function GetChunkData(s: State, todo: seq<Ref>, now: Time): (out: Out)
    requires Shape(s) && RefsIn(todo, s.heap)
    ensures Shape(out.state)
    ensures out.state == s.(incoming := out.state.incoming, available := out.state.available)
    decreases |todo|
  {
    if todo == [] then Out(s, [])
    else
      var c := s.heap[todo[0]];
      var peer := FirstAvailable(c.peers, s.available);
      if peer.Some? && !Claimed(s, c.hash) then
        var rest := GetChunkData(Claim(s, todo[0], peer.value, now), todo[1..], now);
        Out(rest.state, [To(peer.value, Get(c.hash))] + rest.sent)
      else
        GetChunkData(s, todo[1..], now)
  }

  // ----- Completion -----

  /** What `construct_data` writes: the wanted chunks at their places. */
  function Writes(s: State, refs: seq<Ref>): seq<Write>
    requires RefsIn(refs, s.heap)
  {
    seq(|refs|, i requires 0 <= i < |refs| =>
      Write(refs[i], s.heap[refs[i]].id * BT_CHUNK_SIZE, s.heap[refs[i]].store.data))
  }

  /** `check_all_received`. */
  function CheckAllReceived(s: State): (t: State)
    requires Shape(s)
    ensures Shape(t) && t == s.(written := t.written, wanted := t.wanted)
  {
    if s.missing != [] then s
    else s.(written := s.written + Writes(s, s.wanted), wanted := [])
  }

  /** The list change of `validate_chunk` for a chunk found valid. */
  function Received(s: State, c: Ref): (t: State)
    requires Shape(s) && c < |s.heap|
    ensures Shape(t) && t == s.(missing := t.missing, have := t.have)
  {
    match FindHash(s.heap, s.missing, s.heap[c].hash)
    case None => s
    case Some(i) => s.(missing := RemoveAt(s.missing, i), have := [c] + s.have)
  }

  function DeleteIncoming(s: State, i: nat): State
    requires i < |s.incoming|
  {
    s.(incoming := RemoveAt(s.incoming, i), available := s.available[s.incoming[i].peer := true])
  }

  // ----- Client steps -----

  /** The chunk of transfer i has taken in a packet and the transfer's clock restarts. */
  function Stored(s: State, i: nat, store: Store, now: Time): State
    requires Shape(s) && i < |s.incoming|
  {
    var c := s.incoming[i].chunk;
    s.(heap := s.heap[c := s.heap[c].(store := store)],
       incoming := s.incoming[i := s.incoming[i].(timestamp := now)])
  }

  /** The end of `receive_DATA`, once all segments are there. */
  function Concluded(s: State, i: nat, valid: bool, now: Time): (out: Out)
    requires Shape(s) && i < |s.incoming|
    ensures Shape(out.state)
  {
    var s1 := if valid then CheckAllReceived(Received(s, s.incoming[i].chunk)) else s;
    var s2 := DeleteIncoming(s1, i);
    GetChunkData(s2, s2.missing, now)
  }

  /** `receive_DATA`. */
  function OnData(sha: Digest, s: State, from: PeerId, k: nat, payload: seq<byte>, now: Time): (out: Out)
    requires Shape(s) && Receiver.WellFormed(k, payload)
    ensures Shape(out.state)
  {
    var i := IncomingFrom(s.incoming, from);
    if i == |s.incoming| then Out(s, [])
    else
      var c := s.heap[s.incoming[i].chunk];
      var r := Receive(sha, c.store, c.hash, k, payload);
      var s1 := Stored(s, i, r.store, now);
      var ack := [To(from, Message.Ack(r.ack))];
      if r.verdict == Pending then Out(s1, ack)
      else
        var end := Concluded(s1, i, r.verdict == Valid, now);
        Out(end.state, ack + end.sent)
  }

  function OnDenied(s: State, from: PeerId): (r: State)
    ensures Shape(s) ==> Shape(r)
  {
    var i := IncomingFrom(s.incoming, from);
    if i == |s.incoming| then s else DeleteIncoming(s, i)
  }

  /** Add the peer to the list of every missing chunk with this hash. */
  function Note(heap: seq<ChunkRec>, missing: seq<Ref>, hash: seq<byte>, from: PeerId): (r: seq<ChunkRec>)
    requires RefsIn(missing, heap)
    ensures |r| == |heap|
  {
    seq(|heap|, i requires 0 <= i < |heap| =>
      if i in missing && heap[i].hash == hash && from !in heap[i].peers
      then heap[i].(peers := [from] + heap[i].peers) else heap[i])
  }

  function NoteAll(heap: seq<ChunkRec>, missing: seq<Ref>, hashes: seq<seq<byte>>, from: PeerId): (r: seq<ChunkRec>)
    requires RefsIn(missing, heap)
    ensures |r| == |heap|
    decreases |hashes|
  {
    if hashes == [] then heap
    else NoteAll(Note(heap, missing, hashes[0], from), missing, hashes[1..], from)
  }

  function OnIHave(s: State, from: PeerId, hashes: seq<seq<byte>>, now: Time): (out: Out)
    requires Shape(s)
    ensures Shape(out.state)
  {
    if from !in s.available then Out(s, [])
    else
      var s1 := s.(heap := NoteAll(s.heap, s.missing, hashes, from));
      GetChunkData(s1, s1.missing, now)
  }

  /** `send_GET` and `send_ACK` restart the clock of the first transfer with the peer. */
  function Touch(ts: seq<Incoming>, p: PeerId, now: Time): (r: seq<Incoming>)
    ensures |r| == |ts|
    ensures forall j :: 0 <= j < |ts| ==> r[j] == ts[j].(timestamp := r[j].timestamp)
  {
    var i := IncomingFrom(ts, p);
    if i == |ts| then ts else ts[i := ts[i].(timestamp := now)]
  }

  function RemovePeer(peers: seq<PeerId>, p: PeerId): (r: seq<PeerId>)
    ensures forall q :: q in r <==> q in peers && q != p
  {
    if peers == [] then []
    else if peers[0] == p then RemovePeer(peers[1..], p)
    else [peers[0]] + RemovePeer(peers[1..], p)
  }

  /** `handle_transfer_dead`. */
  function Died(s: State, i: nat): State
    requires Shape(s) && i < |s.incoming|
  {
    var p := s.incoming[i].peer;
    var heap := seq(|s.heap|, r requires 0 <= r < |s.heap| =>
      if r in s.missing then s.heap[r].(peers := RemovePeer(s.heap[r].peers, p)) else s.heap[r]);
    DeleteIncoming(s.(heap := heap), i)
  }

  /** What a client timeout that is not the last one does: ask again, or acknowledge again. */
  function AskAgain(s: State, i: nat, now: Time): Out
    requires Shape(s) && i < |s.incoming|
  {
    var t := s.incoming[i];
    var counted := s.incoming[i := t.(timeoutCount := t.timeoutCount + 1)];
    var c := s.heap[t.chunk];
    var message := if c.store.count == 0 then Get(c.hash) else Message.Ack(Prefix(c.store.bits));
    Out(s.(incoming := Touch(counted, t.peer, now)), [To(t.peer, message)])
  }

  /** The loop of `handle_client_timeout`, from position i of the list on. */
  function SweepIncoming(s: State, i: nat, now: Time): (out: Out)
    requires Shape(s) && i <= |s.incoming|
    ensures Shape(out.state)
    ensures out.state == s.(heap := out.state.heap, incoming := out.state.incoming, available := out.state.available)
    ensures |out.state.heap| == |s.heap|
    decreases |s.incoming| - i
  {
    if i == |s.incoming| then Out(s, [])
    else if !HasTimedOut(s.incoming[i].timestamp, now) then SweepIncoming(s, i + 1, now)
    else if s.incoming[i].timeoutCount + 1 >= MAX_TO_COUNTS then SweepIncoming(Died(s, i), i, now)
    else
      var again := AskAgain(s, i, now);
      var rest := SweepIncoming(again.state, i + 1, now);
      Out(rest.state, again.sent + rest.sent)
  }

  /** `send_WHOHAS`: the hashes of the missing chunks, in packets of at most 74. */
  function Batches(hashes: seq<seq<byte>>): seq<seq<seq<byte>>> {
    if hashes == [] then []
    else if |hashes| <= PacketCodec.MAX_HASH_IN_PACKET then [hashes]
    else [hashes[..PacketCodec.MAX_HASH_IN_PACKET]] + Batches(hashes[PacketCodec.MAX_HASH_IN_PACKET..])
  }

  function HashesOf(heap: seq<ChunkRec>, refs: seq<Ref>): seq<seq<byte>>
    requires RefsIn(refs, heap)
  {
    seq(|refs|, i requires 0 <= i < |refs| => heap[refs[i]].hash)
  }

  function Flood(s: State): seq<Send>
    requires Shape(s)
  {
    var batches := Batches(HashesOf(s.heap, s.missing));
    seq(|batches|, i requires 0 <= i < |batches| => ToAll(WhoHas(batches[i])))
  }

  /** `handle_client_timeout`. */
  function OnClientTimer(s: State, now: Time): (out: Out)
    requires Shape(s)
    ensures Shape(out.state)
  {
    if s.missing == [] then Out(s, [])
    else
      var swept := SweepIncoming(s, 0, now);
      var started := GetChunkData(swept.state, swept.state.missing, now);
      var flood := if |started.state.incoming| < |started.state.missing| then Flood(started.state) else [];
      Out(started.state, swept.sent + started.sent + flood)
  }

  // ----- The user's GET -----

  /** One line of a chunk file. */
  datatype Entry = Entry(id: nat, hex: seq<byte>)

  /** One turn of the loop of `create_wanted_missing_list`. */
  function WantOne(s: State, e: Entry): State
    requires Shape(s) && IsHash(e.hex)
  {
    match FindHex(s.heap, s.have, e.hex)
    case Some(r) =>
      s.(heap := s.heap[r := s.heap[r].(id := e.id)], wanted := [r] + s.wanted)
    case None =>
      var c := ChunkRec(e.id, e.hex, HexToBinary(e.hex), EmptyStore(), []);
      s.(heap := s.heap + [c], missing := [|s.heap|] + s.missing, wanted := [|s.heap|] + s.wanted)
  }

  function Want(s: State, entries: seq<Entry>): (r: State)
    requires Shape(s) && forall e :: e in entries ==> IsHash(e.hex)
    ensures Shape(r) && r == s.(heap := r.heap, wanted := r.wanted, missing := r.missing)
    decreases |entries|
  {
    if entries == [] then s else Want(WantOne(s, entries[0]), entries[1..])
  }

  /** `process_get`. */
  function OnUserGet(s: State, entries: seq<Entry>): (out: Out)
    requires Shape(s) && forall e :: e in entries ==> IsHash(e.hex)
    ensures Shape(out.state)
  {
    var s1 := CheckAllReceived(Want(s, entries));
    Out(s1, Flood(s1))
  }

  // ----- Server steps -----

  /** `receive_WHOHAS`: the hashes asked for that some chunk in `have` has. */
  function Matches(heap: seq<ChunkRec>, have: seq<Ref>, hash: seq<byte>): seq<seq<byte>>
    requires RefsIn(have, heap)
  {
    if have == [] then []
    else (if heap[have[0]].hash == hash then [hash] else []) + Matches(heap, have[1..], hash)
  }

  function Owned(heap: seq<ChunkRec>, have: seq<Ref>, hashes: seq<seq<byte>>): seq<seq<byte>>
    requires RefsIn(have, heap)
  {
    if hashes == [] then []
    else Matches(heap, have, hashes[0]) + Owned(heap, have, hashes[1..])
  }

  function OnWhoHas(s: State, from: PeerId, hashes: seq<seq<byte>>): Out
    requires Shape(s)
  {
    Out(s, [To(from, IHave(Owned(s.heap, s.have, hashes)))])
  }

  function DataTo(p: PeerId, packets: seq<DataPacket>): seq<Send> {
    seq(|packets|, i requires 0 <= i < |packets| => To(p, Data(packets[i])))
  }

  /** `receive_GET`. */
  function OnGet(s: State, from: PeerId, hash: seq<byte>, maxConn: nat, now: Time): (out: Out)
    requires Shape(s)
    ensures Shape(out.state)
  {
    match FindHash(s.heap, s.have, hash)
    case None => Out(s, [To(from, Denied)])
    case Some(i) =>
      var c := s.have[i];
      if |s.outgoing| >= maxConn then Out(s, [To(from, Denied)])
      else if exists j :: 0 <= j < |s.outgoing| && s.heap[s.outgoing[j].chunk].hash == hash then Out(s, [])
      else
        StartInv(now);
        Out(s.(outgoing := [Outgoing(from, c, Start(now).next.value)] + s.outgoing,
               available := s.available[from := false]),
            DataTo(from, Packets(s.heap[c].store.data, Start(now).sent)))
  }

  function DeleteOutgoing(s: State, i: nat): State
    requires i < |s.outgoing|
  {
    s.(outgoing := RemoveAt(s.outgoing, i), available := s.available[s.outgoing[i].peer := true])
  }

  /** `receive_ACK`. */
  function OnAck(s: State, from: PeerId, num: nat, now: Time): (out: Out)
    requires Shape(s) && num <= MAX_SEQ_NUM
    ensures Shape(out.state)
  {
    var i := OutgoingTo(s.outgoing, from);
    if i == |s.outgoing| then Out(s, [])
    else
      var t := s.outgoing[i];
      AckSendsInRange(t.sender, num, now);
      var r := ReceiveAck(t.sender, num, now);
      match r.next
      case None => Out(DeleteOutgoing(s, i), [])
      case Some(x) =>
        Out(s.(outgoing := s.outgoing[i := t.(sender := x)]),
            DataTo(from, Packets(s.heap[t.chunk].store.data, r.sent)))
  }

  /** `handle_server_timeout`, from position i of the list on. */
  function SweepOutgoing(s: State, i: nat, now: Time): (r: State)
    requires Shape(s) && i <= |s.outgoing|
    ensures Shape(r) && r == s.(outgoing := r.outgoing, available := r.available)
    decreases |s.outgoing| - i
  {
    if i == |s.outgoing| then s
    else
      match ReceiveTimer(s.outgoing[i].sender, now).next
      case None => SweepOutgoing(DeleteOutgoing(s, i), i, now)
      case Some(x) => SweepOutgoing(s.(outgoing := s.outgoing[i := s.outgoing[i].(sender := x)]), i + 1, now)
  }
}
