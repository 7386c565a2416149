/** One chunk on its way from a server to a client over a network that loses, duplicates and
    reorders packets, with both ends timing out (code/bt_server.c, code/bt_client.c).

    The network remembers every packet ever sent; delivering any of them, any number of times, in
    any order, or never, covers loss, duplication and reordering. */
module LossyTransfer {
  import opened Common
  import opened ChunkLayout
  import opened Congestion
  import opened Sender
  import opened Receiver

  /** The mutable part of an incoming `Transfer`. */
  datatype Incoming = Incoming(timestamp: Time, timeoutCount: nat)

  datatype State = State(
    sender: Option<Sender>,
    client: Option<Incoming>,
    store: Store,
    complete: bool,
    data: set<DataPacket>,
    acks: set<nat>,
    gets: bool)

  /** A step of one of the peers; `at` is its clock. */
  datatype Action =
    | Opens(at: Time)
    | GetArrives(admitted: bool, at: Time)
    | DeniedArrives
    | DataArrives(packet: DataPacket, at: Time)
    | AckArrives(num: nat, at: Time)
    | ServerTimer(at: Time)
    | ClientTimer(at: Time)

  /** A client opens a transfer only for a chunk that is still missing and has none yet. Packets
      arrive only if they have been sent. */
  predicate Enabled(s: State, a: Action) {
    match a
    case Opens(_) => s.client.None? && !s.complete
    case GetArrives(_, _) => s.gets
    case DataArrives(packet, _) => packet in s.data
    case AckArrives(num, _) => num in s.acks
    case DeniedArrives => true
    case ServerTimer(_) => true
    case ClientTimer(_) => true
  }

  /** The sender's step, with the packets it puts on the network. */
  function Served(s: State, source: ChunkData, r: Result): State
    requires forall k :: k in r.sent ==> IsSeqNum(k)
  {
    s.(sender := r.next, data := s.data + set k | k in r.sent :: DataPacket(k, Segment(source, k)))
  }

  function OnData(sha: Digest, s: State, source: ChunkData, packet: DataPacket, at: Time): State
    requires WellFormed(packet.num, packet.payload)
  {
    if s.client.None? then s
    else
      var r := Receive(sha, s.store, sha(source), packet.num, packet.payload);
      s.(store := r.store,
         acks := s.acks + {r.ack},
         client := if r.verdict == Pending then Some(s.client.value.(timestamp := at)) else None,
         complete := s.complete || r.verdict == Valid)
  }

  function OnClientTimer(s: State, at: Time): State {
    if s.client.None? || !HasTimedOut(s.client.value.timestamp, at) then s
    else
      var count := s.client.value.timeoutCount + 1;
      if count >= MAX_TO_COUNTS then s.(client := None)
      else if s.store.count == 0 then s.(client := Some(Incoming(at, count)), gets := true)
      else s.(client := Some(Incoming(at, count)), acks := s.acks + {Prefix(s.store.bits)})
  }

  function Apply(sha: Digest, s: State, source: ChunkData, a: Action): State
    requires Inv(s, source) && Enabled(s, a)
  {
    match a
    case Opens(at) => s.(client := Some(Incoming(at, 0)), gets := true)
    case GetArrives(admitted, at) =>
      if admitted && s.sender.None? then
        StartInv(at);
        Served(s, source, Start(at))
      else s
    case DeniedArrives => s.(client := None)
    case DataArrives(packet, at) => OnData(sha, s, source, packet, at)
    case AckArrives(num, at) =>
      if s.sender.None? then s
      else
        AckSendsInRange(s.sender.value, num, at);
        Served(s, source, ReceiveAck(s.sender.value, num, at))
    case ServerTimer(at) =>
      if s.sender.None? then s else Served(s, source, ReceiveTimer(s.sender.value, at))
    case ClientTimer(at) => OnClientTimer(s, at)
  }

  // ----- The invariant -----

  ghost predicate Inv(s: State, source: ChunkData) {
    // each set bit of the client means those bytes equal the server's segment
    && StoreInv(s.store) && Agrees(s.store, source)
    && (forall p :: p in s.data ==> IsSeqNum(p.num) && p.payload == Segment(source, p.num))
    // every ACK ever sent, and the window of the server, are at most the client's prefix
    && (forall a :: a in s.acks ==> a <= Prefix(s.store.bits))
    && (s.sender.Some? ==> CountersInRange(s.sender.value) && s.sender.value.cctrl.begin <= Prefix(s.store.bits))
    // a full chunk has been recognised as complete
    && (s.store.count == MAX_SEQ_NUM <==> s.complete)
    && (s.complete ==> s.client.None?)
  }

  /** A fresh transfer of a chunk that may already be partly filled with the right bytes. */
  ghost predicate Init(s: State, source: ChunkData) {
    && s.sender.None? && s.client.None? && s.data == {} && s.acks == {} && !s.gets && !s.complete
    && StoreInv(s.store) && Agrees(s.store, source) && s.store.count < MAX_SEQ_NUM
  }

  lemma DataKeepsInv(sha: Digest, s: State, source: ChunkData, packet: DataPacket, at: Time)
    requires Inv(s, source) && packet in s.data
    ensures Inv(OnData(sha, s, source, packet, at), source)
  {
    if s.client.Some? {
      ReceiveGenuine(sha, s.store, source, packet.num);
    }
  }

  /** Genuine packets on the network, and a window the client's prefix covers. */
  lemma ServedKeepsInv(s: State, source: ChunkData, r: Result)
    requires Inv(s, source) && (forall k :: k in r.sent ==> IsSeqNum(k))
    requires r.next.Some? ==> CountersInRange(r.next.value) && r.next.value.cctrl.begin <= Prefix(s.store.bits)
    ensures Inv(Served(s, source, r), source)
  {
  }

  lemma StepKeepsInv(sha: Digest, s: State, source: ChunkData, a: Action)
    requires Inv(s, source) && Enabled(s, a)
    ensures Inv(Apply(sha, s, source, a), source)
  {
    match a
    case DataArrives(packet, at) => DataKeepsInv(sha, s, source, packet, at);
    case AckArrives(num, at) =>
      if s.sender.Some? {
        AckSendsInRange(s.sender.value, num, at);
        ServedKeepsInv(s, source, ReceiveAck(s.sender.value, num, at));
      }
    case GetArrives(_, at) =>
      StartInv(at);
      ServedKeepsInv(s, source, Start(at));
    case ServerTimer(at) =>
      if s.sender.Some? {
        ServedKeepsInv(s, source, ReceiveTimer(s.sender.value, at));
      }
    case _ =>
  }

  // ----- Whole runs -----

  /** The state after a run; None if some action was not possible when its turn came. */
  ghost function Run(sha: Digest, s: State, source: ChunkData, actions: seq<Action>): Option<State>
    requires Inv(s, source)
    decreases |actions|
  {
    if actions == [] then Some(s)
    else if !Enabled(s, actions[0]) then None
    else
      StepKeepsInv(sha, s, source, actions[0]);
      Run(sha, Apply(sha, s, source, actions[0]), source, actions[1..])
  }

  lemma {:induction false} RunKeepsInv(sha: Digest, s: State, source: ChunkData, actions: seq<Action>)
    requires Inv(s, source) && Run(sha, s, source, actions).Some?
    ensures Inv(Run(sha, s, source, actions).value, source)
    decreases |actions|
  {
    if actions != [] {
      StepKeepsInv(sha, s, source, actions[0]);
      RunKeepsInv(sha, Apply(sha, s, source, actions[0]), source, actions[1..]);
    }
  }

  /** Safety of every run: set bits stand for the server's bytes, and no ACK ever sent, nor the
      server's window, runs ahead of the client's prefix. */
  lemma Safety(sha: Digest, s: State, source: ChunkData, actions: seq<Action>)
    requires Init(s, source) && Run(sha, s, source, actions).Some?
    ensures var t := Run(sha, s, source, actions).value;
            && Agrees(t.store, source)
            && (forall a :: a in t.acks ==> a <= Prefix(t.store.bits))
            && (t.sender.Some? ==> t.sender.value.cctrl.begin <= Prefix(t.store.bits))
            && (t.complete ==> t.store.data == source)
  {
    RunKeepsInv(sha, s, source, actions);
    var t := Run(sha, s, source, actions).value;
    if t.complete {
      FullIsSource(t.store, source);
    }
  }

  /** In every run, the server retires the transfer on ACK 525 only when the client holds the whole
      chunk byte for byte. */
  lemma RetiredMeansDelivered(sha: Digest, s: State, source: ChunkData, actions: seq<Action>, at: Time)
    requires Init(s, source)
    requires var r := Run(sha, s, source, actions); r.Some? && Enabled(r.value, AckArrives(MAX_SEQ_NUM, at))
    ensures var t := Run(sha, s, source, actions).value;
            t.complete && t.store.data == source && Prefix(t.store.bits) == MAX_SEQ_NUM
  {
    RunKeepsInv(sha, s, source, actions);
    var t := Run(sha, s, source, actions).value;
    FullCountIsFullPrefix(t.store.bits);
    FullIsSource(t.store, source);
  }

  /** In every run, with a server whose chunk has the right digest, validation never fails. */
  lemma NeverInvalid(sha: Digest, s: State, source: ChunkData, actions: seq<Action>, packet: DataPacket, at: Time)
    requires Init(s, source)
    requires var r := Run(sha, s, source, actions); r.Some? && Enabled(r.value, DataArrives(packet, at))
    ensures WellFormed(packet.num, packet.payload)
    ensures Receive(sha, Run(sha, s, source, actions).value.store, sha(source), packet.num, packet.payload).verdict != Invalid
  {
    RunKeepsInv(sha, s, source, actions);
    ReceiveGenuine(sha, Run(sha, s, source, actions).value.store, source, packet.num);
  }
}
