/** Two peers as whole sessions, one fetching a chunk from the other over a network that loses,
    duplicates and reorders, while both go on with everything else they do (code/bt_client.c,
    code/bt_server.c, code/peer.c).

    DATA and ACK carry no chunk id, so the pair exchanges one chunk, and the chunk comes from one peer. */
module SessionPair {
  import opened Common
  import opened ChunkLayout
  import opened Congestion
  import opened Sender
  import opened Receiver
  import opened HexCodec
  import opened Session
  import opened SessionSafety
  import opened SessionRuns
  import opened SessionScheduling
  import opened SessionAnswers
  import opened ServerAnswers
  import opened SessionWhence

  /** Who is who: the server as the client knows it, and the other way round; the chunk in the tables of
      both, and its bytes at the server; the limits on connections, and the chunks loaded at the start. */
  datatype Terms = Terms(
    server: PeerId,
    client: PeerId,
    fetched: Ref,
    served: Ref,
    source: ChunkData,
    clientMax: nat,
    serverMax: nat,
    clientOwn: nat,
    serverOwn: nat)

  /** Both sessions, and all DATA, ACKs and GETs ever sent between them. */
  datatype Pair = Pair(
    client: State,
    server: State,
    data: set<DataPacket>,
    acks: set<nat>,
    gets: set<seq<byte>>)

  datatype Move = ClientMoves(event: SessionRuns.Event) | ServerMoves(event: SessionRuns.Event)

  /** The client's transfers with the server are exactly those for the chunk. */
  ghost predicate Exclusive(c: Terms, s: State) {
    forall i :: 0 <= i < |s.incoming| ==> (s.incoming[i].peer == c.server <==> s.incoming[i].chunk == c.fetched)
  }

  /** Between the two, DATA, ACKs and GETs arrive only if they have been sent; everything else, and
      every other peer, is free. */
  ghost predicate Possible(c: Terms, p: Pair, m: Move) {
    match m
    case ClientMoves(e) =>
      && Acceptable(p.client, e)
      && (e.Arrives? && e.from == c.server && e.message.Data? ==> e.message.packet in p.data)
    case ServerMoves(e) =>
      && Acceptable(p.server, e)
      && (e.Arrives? && e.from == c.client && e.message.Ack? ==> e.message.num in p.acks)
      && (e.Arrives? && e.from == c.client && e.message.Get? ==> e.message.hash in p.gets)
  }

  ghost function Moved(sha: Digest, c: Terms, p: Pair, m: Move): Pair
    requires Shape(p.client) && Shape(p.server) && Possible(c, p, m)
  {
    match m
    case ClientMoves(e) =>
      var out := SessionRuns.Step(sha, c.clientMax, p.client, e);
      p.(client := out.state,
         acks := p.acks + set x | x in out.sent && x.To? && x.peer == c.server && x.message.Ack? :: x.message.num,
         gets := p.gets + set x | x in out.sent && x.To? && x.peer == c.server && x.message.Get? :: x.message.hash)
    case ServerMoves(e) =>
      var out := SessionRuns.Step(sha, c.serverMax, p.server, e);
      p.(server := out.state,
         data := p.data + set x | x in out.sent && x.To? && x.peer == c.client && x.message.Data? :: x.message.packet)
  }

  // ----- The invariant -----

  ghost predicate Genuine(source: ChunkData, packet: DataPacket) {
    IsSeqNum(packet.num) && packet.payload == Segment(source, packet.num)
  }

  /** What the client has of the chunk is right, and it knows it by the right hash. */
  ghost predicate ClientSide(sha: Digest, c: Terms, s: State) {
    && SessionInv(sha, s, c.clientOwn) && Shape(s)
    && c.fetched < |s.heap| && Listed(c.fetched, s.have, s.missing)
    && s.heap[c.fetched].hash == sha(c.source)
    && StoreInv(s.heap[c.fetched].store) && Agrees(s.heap[c.fetched].store, c.source)
  }

  ghost function Reach(c: Terms, s: State): nat
    requires c.fetched < |s.heap|
  {
    Prefix(s.heap[c.fetched].store.bits)
  }

  /** The server has the chunk, and its transfers to the client are for it and not ahead of the client. */
  ghost predicate ServerSide(sha: Digest, c: Terms, s: State, reach: nat) {
    && SessionInv(sha, s, c.serverOwn) && Shape(s)
    && c.served < |s.heap| && c.served in s.have
    && s.heap[c.served].hash == sha(c.source) && s.heap[c.served].store.data == c.source
    && forall j :: 0 <= j < |s.outgoing| && s.outgoing[j].peer == c.client ==>
         s.outgoing[j].chunk == c.served && s.outgoing[j].sender.cctrl.begin <= reach
  }

  ghost predicate PairInv(sha: Digest, c: Terms, p: Pair) {
    && ClientSide(sha, c, p.client)
    && ServerSide(sha, c, p.server, Reach(c, p.client))
    && (forall x :: x in p.data ==> Genuine(c.source, x))
    && (forall a: nat :: a in p.acks ==> a <= Reach(c, p.client))
    && (forall h :: h in p.gets ==> h == sha(c.source))
  }

  // ----- The client's chunk -----

  lemma {:induction false} WantStore(s: State, entries: seq<Entry>, r: Ref)
    requires Shape(s) && (forall e :: e in entries ==> IsHash(e.hex)) && r < |s.heap|
    ensures var t := Want(s, entries);
            && r < |t.heap| && t.heap[r].store == s.heap[r].store && t.heap[r].hash == s.heap[r].hash
            && t.have == s.have && (r in s.missing ==> r in t.missing)
    decreases |entries|
  {
    if entries != [] {
      assert entries[0] in entries;
      WantStore(WantOne(s, entries[0]), entries[1..], r);
    }
  }

  /** Only DATA changes what a peer has of a chunk, or the lists it is on. */
  lemma StoreStays(sha: Digest, maxConn: nat, s: State, e: SessionRuns.Event, r: Ref)
    requires Shape(s) && Acceptable(s, e) && r < |s.heap| && !(e.Arrives? && e.message.Data?)
    ensures var t := SessionRuns.Step(sha, maxConn, s, e).state;
            && r < |t.heap| && t.heap[r].store == s.heap[r].store && t.heap[r].hash == s.heap[r].hash
            && t.have == s.have && (r in s.missing ==> r in t.missing)
  {
    match e
    case UserGet(entries, _) => WantStore(s, entries, r);
    case TimerFires(at) => SweepIncomingPeersOnly(SweepOutgoing(s, 0, at), 0, at);
    case Arrives(from, message, _) =>
      if message.IHave? && from in s.available {
        NoteAllPeers(s.heap, s.missing, message.hashes, from);
      }
  }

  lemma ReceptionStore(s: State, i: nat, x: Reception, now: Time, r: Ref)
    requires Shape(s) && i < |s.incoming| && r < |s.heap|
    ensures var s1 := Stored(s, i, x.store, now);
            var t := if x.verdict == Pending then s1 else Concluded(s1, i, x.verdict == Valid, now).state;
            && r < |t.heap| && t.heap[r].hash == s.heap[r].hash
            && t.heap[r].store == if s.incoming[i].chunk == r then x.store else s.heap[r].store
  {
  }

  /** DATA for the first transfer with its sender changes the store of that chunk only. */
  lemma DataStore(sha: Digest, s: State, from: PeerId, k: nat, payload: seq<byte>, now: Time, r: Ref)
    requires Shape(s) && Receiver.WellFormed(k, payload) && r < |s.heap|
    ensures var t, i := OnData(sha, s, from, k, payload, now).state, IncomingFrom(s.incoming, from);
            && r < |t.heap| && t.heap[r].hash == s.heap[r].hash
            && t.heap[r].store == if i < |s.incoming| && s.incoming[i].chunk == r
                                  then Receive(sha, s.heap[r].store, s.heap[r].hash, k, payload).store
                                  else s.heap[r].store
  {
    var i := IncomingFrom(s.incoming, from);
    if i < |s.incoming| {
      var c := s.heap[s.incoming[i].chunk];
      ReceptionStore(s, i, Receive(sha, c.store, c.hash, k, payload), now, r);
    }
  }

  /** A valid chunk goes from one list to the other, and no chunk goes anywhere else. */
  lemma ReceptionListed(sha: Digest, s: State, i: nat, x: Reception, now: Time, own: nat, r: Ref)
    requires SessionInv(sha, s, own) && Shape(s) && i < |s.incoming| && Listed(r, s.have, s.missing)
    requires x.verdict == Valid ==> sha(x.store.data) == s.heap[s.incoming[i].chunk].hash
    ensures var s1 := Stored(s, i, x.store, now);
            var t := if x.verdict == Pending then s1 else Concluded(s1, i, x.verdict == Valid, now).state;
            Listed(r, t.have, t.missing)
  {
    if x.verdict == Valid {
      StoredCompletes(sha, s, i, x.store, now, own);
      ReceivedKeeps(sha, Stored(s, i, x.store, now), s.incoming[i].chunk, own);
    }
  }

  lemma DataListed(sha: Digest, s: State, from: PeerId, k: nat, payload: seq<byte>, now: Time, own: nat, r: Ref)
    requires SessionInv(sha, s, own) && Shape(s) && Receiver.WellFormed(k, payload) && Listed(r, s.have, s.missing)
    ensures var t := OnData(sha, s, from, k, payload, now).state; Listed(r, t.have, t.missing)
  {
    var i := IncomingFrom(s.incoming, from);
    if i < |s.incoming| {
      var c := s.heap[s.incoming[i].chunk];
      ReceptionListed(sha, s, i, Receive(sha, c.store, c.hash, k, payload), now, own, r);
    }
  }

  /** The client's side is kept by every possible step, its reach never shrinks, and a packet from the
      server for a transfer with it sets its own bit. */
  lemma ClientSideKeeps(sha: Digest, c: Terms, p: Pair, e: SessionRuns.Event)
    requires PairInv(sha, c, p) && Exclusive(c, p.client) && Possible(c, p, ClientMoves(e))
    ensures var t := SessionRuns.Step(sha, c.clientMax, p.client, e).state;
            && ClientSide(sha, c, t) && Reach(c, p.client) <= Reach(c, t)
            && (e.Arrives? && e.message.Data? && e.from == c.server && e.from in p.client.available && Busy(p.client.incoming, e.from) ==>
                  t.heap[c.fetched].store.bits == p.client.heap[c.fetched].store.bits[e.message.packet.num - 1 := true])
            && (!(e.Arrives? && e.message.Data?) ==> t.heap[c.fetched].store == p.client.heap[c.fetched].store)
  {
    StepKeeps(sha, c.clientMax, p.client, e, c.clientOwn);
    ClientChunk(sha, c, p, e);
  }

  lemma ClientChunk(sha: Digest, c: Terms, p: Pair, e: SessionRuns.Event)
    requires PairInv(sha, c, p) && Exclusive(c, p.client) && Possible(c, p, ClientMoves(e))
    ensures var s, t := p.client, SessionRuns.Step(sha, c.clientMax, p.client, e).state;
            && c.fetched < |t.heap| && Listed(c.fetched, t.have, t.missing) && t.heap[c.fetched].hash == sha(c.source)
            && StoreInv(t.heap[c.fetched].store) && Agrees(t.heap[c.fetched].store, c.source)
            && Reach(c, s) <= Reach(c, t)
            && (e.Arrives? && e.message.Data? && e.from == c.server && e.from in s.available && Busy(s.incoming, e.from) ==>
                  t.heap[c.fetched].store.bits == s.heap[c.fetched].store.bits[e.message.packet.num - 1 := true])
            && (!(e.Arrives? && e.message.Data?) ==> t.heap[c.fetched].store == s.heap[c.fetched].store)
  {
    if e.Arrives? && e.message.Data? {
      if e.from in p.client.available {
        ClientDataKeeps(sha, c, p, e.from, e.message.packet, e.at);
      }
    } else {
      StoreStays(sha, c.clientMax, p.client, e, c.fetched);
    }
  }

  lemma ClientDataKeeps(sha: Digest, c: Terms, p: Pair, from: PeerId, packet: DataPacket, now: Time)
    requires PairInv(sha, c, p) && Exclusive(c, p.client) && Receiver.WellFormed(packet.num, packet.payload)
    requires from == c.server ==> packet in p.data
    ensures var s, t := p.client, OnData(sha, p.client, from, packet.num, packet.payload, now).state;
            && c.fetched < |t.heap| && Listed(c.fetched, t.have, t.missing) && t.heap[c.fetched].hash == sha(c.source)
            && StoreInv(t.heap[c.fetched].store) && Agrees(t.heap[c.fetched].store, c.source)
            && Reach(c, s) <= Reach(c, t)
            && (from == c.server && Busy(s.incoming, from) ==>
                  t.heap[c.fetched].store.bits == s.heap[c.fetched].store.bits[packet.num - 1 := true])
  {
    var s, r := p.client, c.fetched;
    DataStore(sha, s, from, packet.num, packet.payload, now, r);
    DataListed(sha, s, from, packet.num, packet.payload, now, c.clientOwn, r);
    var i := IncomingFrom(s.incoming, from);
    FirstFrom(s.incoming, from, i);
    if i < |s.incoming| && s.incoming[i].chunk == r {
      assert Genuine(c.source, packet);
      ReceiveGenuine(sha, s.heap[r].store, c.source, packet.num);
      ReceiveLaw(sha, s.heap[r].store, s.heap[r].hash, packet.num, packet.payload);
    }
  }

  // ----- What the client sends -----

  lemma PrefixIsReach(bits: Bitmap, a: nat)
    requires IsPrefix(bits, a)
    ensures a == Prefix(bits)
  {
    var q := Prefix(bits);
    assert q < MAX_SEQ_NUM ==> !bits[q];
  }

  /** An ACK to the server is the client's reach after the step. */
  lemma AckIsReach(sha: Digest, c: Terms, p: Pair, e: SessionRuns.Event, m: Send)
    requires PairInv(sha, c, p) && Exclusive(c, p.client) && Possible(c, p, ClientMoves(e))
    requires m in SessionRuns.Step(sha, c.clientMax, p.client, e).sent && m.To? && m.peer == c.server && m.message.Ack?
    ensures var t := SessionRuns.Step(sha, c.clientMax, p.client, e).state;
            c.fetched < |t.heap| && m.message.num == Reach(c, t)
  {
    var s := p.client;
    StepExplained(sha, c.clientMax, s, e, c.clientOwn, m);
    ClientSideKeeps(sha, c, p, e);
    if IsDataAck(s, e, m) {
      var i: nat :| IsFirstFrom(s.incoming, e.from, i) &&
                    IsPrefix(s.heap[s.incoming[i].chunk].store.bits[e.message.packet.num - 1 := true], m.message.num);
      PrefixIsReach(s.heap[c.fetched].store.bits[e.message.packet.num - 1 := true], m.message.num);
    } else {
      var i :| 0 <= i < |s.incoming| && m.peer == s.incoming[i].peer && IsPrefix(s.heap[s.incoming[i].chunk].store.bits, m.message.num);
      PrefixIsReach(s.heap[c.fetched].store.bits, m.message.num);
    }
  }

  /** A GET to the server is for the chunk. */
  lemma GetIsForChunk(sha: Digest, c: Terms, p: Pair, e: SessionRuns.Event, m: Send)
    requires PairInv(sha, c, p) && Exclusive(c, p.client) && Possible(c, p, ClientMoves(e))
    requires Exclusive(c, SessionRuns.Step(sha, c.clientMax, p.client, e).state)
    requires m in SessionRuns.Step(sha, c.clientMax, p.client, e).sent && m.To? && m.peer == c.server && m.message.Get?
    ensures m.message.hash == sha(c.source)
  {
    var s, t := p.client, SessionRuns.Step(sha, c.clientMax, p.client, e).state;
    StepExplained(sha, c.clientMax, s, e, c.clientOwn, m);
    ClientSideKeeps(sha, c, p, e);
    if IsNewGet(t, m) {
      var i :| 0 <= i < |t.incoming| && t.incoming[i].chunk < |t.heap| && m == To(t.incoming[i].peer, Get(t.heap[t.incoming[i].chunk].hash));
    } else {
      var i :| 0 <= i < |s.incoming| && m == To(s.incoming[i].peer, Get(s.heap[s.incoming[i].chunk].hash));
    }
  }

  lemma ClientMoveKeeps(sha: Digest, c: Terms, p: Pair, e: SessionRuns.Event)
    requires PairInv(sha, c, p) && Exclusive(c, p.client) && Possible(c, p, ClientMoves(e))
    requires Exclusive(c, SessionRuns.Step(sha, c.clientMax, p.client, e).state)
    ensures PairInv(sha, c, Moved(sha, c, p, ClientMoves(e)))
  {
    var out, q := SessionRuns.Step(sha, c.clientMax, p.client, e), Moved(sha, c, p, ClientMoves(e));
    ClientSideKeeps(sha, c, p, e);
    forall a: nat | a in q.acks ensures a <= Reach(c, q.client) {
      if a !in p.acks {
        var m :| m in out.sent && m.To? && m.peer == c.server && m.message.Ack? && m.message.num == a;
        AckIsReach(sha, c, p, e, m);
      }
    }
    forall h | h in q.gets ensures h == sha(c.source) {
      if h !in p.gets {
        var m :| m in out.sent && m.To? && m.peer == c.server && m.message.Get? && m.message.hash == h;
        GetIsForChunk(sha, c, p, e, m);
      }
    }
  }

  // ----- What the server sends -----

  /** DATA to the client is a genuine segment of the chunk. */
  lemma DataIsGenuine(sha: Digest, c: Terms, p: Pair, e: SessionRuns.Event, m: Send)
    requires PairInv(sha, c, p) && Possible(c, p, ServerMoves(e))
    requires m in SessionRuns.Step(sha, c.serverMax, p.server, e).sent && m.To? && m.peer == c.client && m.message.Data?
    ensures Genuine(c.source, m.message.packet)
  {
    StepExplained(sha, c.serverMax, p.server, e, c.serverOwn, m);
    if e.message.Get? {
      FirstIsGenuine(sha, c, p.server, Reach(c, p.client), e.from, e.message.hash, e.at, m);
    } else {
      var i := AckCarries(p.server, e.from, e.message.num, e.at, m);
    }
  }

  lemma FirstIsGenuine(sha: Digest, c: Terms, s: State, reach: nat, from: PeerId, hash: seq<byte>, now: Time, m: Send)
    requires ServerSide(sha, c, s, reach) && hash == sha(c.source)
    requires m in OnGet(s, from, hash, c.serverMax, now).sent && m.To? && m.message.Data?
    ensures Genuine(c.source, m.message.packet)
  {
    GetLaw(s, from, hash, c.serverMax, now);
    var t := OnGet(s, from, hash, c.serverMax, now).state.outgoing[0];
    assert Listed(t.chunk, s.have, s.missing) && Listed(c.served, s.have, s.missing);
    assert Segment(c.source, 1) == c.source[..1000];
  }

  ghost predicate Behind(c: Terms, outgoing: seq<Outgoing>, reach: nat) {
    forall j :: 0 <= j < |outgoing| && outgoing[j].peer == c.client ==>
      outgoing[j].chunk == c.served && outgoing[j].sender.cctrl.begin <= reach
  }

  lemma {:induction false} TickedBehind(c: Terms, ts: seq<Outgoing>, now: Time, reach: nat)
    requires Behind(c, ts, reach)
    ensures Behind(c, Ticked(ts, now), reach)
  {
    if ts != [] {
      assert Behind(c, ts[1..], reach);
      TickedBehind(c, ts[1..], now, reach);
    }
  }

  lemma GetBehind(sha: Digest, c: Terms, s: State, reach: nat, from: PeerId, hash: seq<byte>, now: Time)
    requires ServerSide(sha, c, s, reach) && (from == c.client ==> hash == sha(c.source))
    ensures Behind(c, OnGet(s, from, hash, c.serverMax, now).state.outgoing, reach)
  {
    GetLaw(s, from, hash, c.serverMax, now);
    var t := OnGet(s, from, hash, c.serverMax, now).state.outgoing;
    if |t| == |s.outgoing| + 1 {
      assert Listed(t[0].chunk, s.have, s.missing) && Listed(c.served, s.have, s.missing);
    }
  }

  lemma AckBehind(sha: Digest, c: Terms, s: State, reach: nat, from: PeerId, num: nat, now: Time)
    requires ServerSide(sha, c, s, reach) && num <= MAX_SEQ_NUM && (from == c.client ==> num <= reach)
    ensures Behind(c, OnAck(s, from, num, now).state.outgoing, reach)
  {
    var i := OutgoingTo(s.outgoing, from);
    AckLaw(s, from, num, now, i);
    if i < |s.outgoing| {
      AckSendsInRange(s.outgoing[i].sender, num, now);
    }
  }

  lemma ServerSideKeeps(sha: Digest, c: Terms, p: Pair, e: SessionRuns.Event)
    requires PairInv(sha, c, p) && Possible(c, p, ServerMoves(e))
    ensures ServerSide(sha, c, SessionRuns.Step(sha, c.serverMax, p.server, e).state, Reach(c, p.client))
  {
    var s, reach := p.server, Reach(c, p.client);
    StepKeeps(sha, c.serverMax, s, e, c.serverOwn);
    OutgoingBehind(sha, c, s, reach, e);
  }

  lemma OutgoingBehind(sha: Digest, c: Terms, s: State, reach: nat, e: SessionRuns.Event)
    requires ServerSide(sha, c, s, reach) && Acceptable(s, e)
    requires e.Arrives? && e.from == c.client && e.message.Ack? ==> e.message.num <= reach
    requires e.Arrives? && e.from == c.client && e.message.Get? ==> e.message.hash == sha(c.source)
    ensures Behind(c, SessionRuns.Step(sha, c.serverMax, s, e).state.outgoing, reach)
  {
    if e.TimerFires? {
      ServerTickLaw(s, 0, e.at, 0);
      assert s.outgoing[0..] == s.outgoing && s.outgoing[..0] == [];
      TickedBehind(c, s.outgoing, e.at, reach);
    } else if e.Arrives? && e.message.Get? {
      if e.from in s.available { GetBehind(sha, c, s, reach, e.from, e.message.hash, e.at); }
    } else if e.Arrives? && e.message.Ack? {
      if e.from in s.available { AckBehind(sha, c, s, reach, e.from, e.message.num, e.at); }
    } else {
      OtherOutgoing(sha, c.serverMax, s, e);
    }
  }

  lemma ServerMoveKeeps(sha: Digest, c: Terms, p: Pair, e: SessionRuns.Event)
    requires PairInv(sha, c, p) && Possible(c, p, ServerMoves(e))
    ensures PairInv(sha, c, Moved(sha, c, p, ServerMoves(e)))
  {
    var out, q := SessionRuns.Step(sha, c.serverMax, p.server, e), Moved(sha, c, p, ServerMoves(e));
    ServerSideKeeps(sha, c, p, e);
    forall x | x in q.data ensures Genuine(c.source, x) {
      if x !in p.data {
        var m :| m in out.sent && m.To? && m.peer == c.client && m.message.Data? && m.message.packet == x;
        DataIsGenuine(sha, c, p, e, m);
      }
    }
  }

  lemma MoveKeeps(sha: Digest, c: Terms, p: Pair, m: Move)
    requires PairInv(sha, c, p) && Exclusive(c, p.client) && Possible(c, p, m) && Exclusive(c, Moved(sha, c, p, m).client)
    ensures PairInv(sha, c, Moved(sha, c, p, m))
  {
    match m
    case ClientMoves(e) => ClientMoveKeeps(sha, c, p, e);
    case ServerMoves(e) => ServerMoveKeeps(sha, c, p, e);
  }

  // ----- Whole runs -----

  /** The state of both after a run; None if a move was not possible, or led to a transfer that is not
      the pair's only one. */
  ghost function PairRun(sha: Digest, c: Terms, p: Pair, moves: seq<Move>): Option<Pair>
    requires Shape(p.client) && Shape(p.server)
    decreases |moves|
  {
    if moves == [] then Some(p)
    else if !Possible(c, p, moves[0]) || !Exclusive(c, Moved(sha, c, p, moves[0]).client) then None
    else PairRun(sha, c, Moved(sha, c, p, moves[0]), moves[1..])
  }

  lemma {:induction false} PairRunKeeps(sha: Digest, c: Terms, p: Pair, moves: seq<Move>)
    requires PairInv(sha, c, p) && Exclusive(c, p.client) && PairRun(sha, c, p, moves).Some?
    ensures PairInv(sha, c, PairRun(sha, c, p, moves).value)
    decreases |moves|
  {
    if moves != [] {
      MoveKeeps(sha, c, p, moves[0]);
      PairRunKeeps(sha, c, Moved(sha, c, p, moves[0]), moves[1..]);
    }
  }

  /** Two peers with nothing between them yet; the client may have a part of the chunk already. */
  ghost predicate PairInit(sha: Digest, c: Terms, p: Pair) {
    && ClientSide(sha, c, p.client) && SessionInv(sha, p.server, c.serverOwn) && Shape(p.server)
    && c.served < |p.server.heap| && c.served in p.server.have
    && p.server.heap[c.served].hash == sha(c.source) && p.server.heap[c.served].store.data == c.source
    && (forall i :: 0 <= i < |p.client.incoming| ==> p.client.incoming[i].peer != c.server && p.client.incoming[i].chunk != c.fetched)
    && (forall j :: 0 <= j < |p.server.outgoing| ==> p.server.outgoing[j].peer != c.client)
    && p.data == {} && p.acks == {} && p.gets == {}
  }

  /** End-to-end safety of two whole peers, in every run, whatever packets, timers, users and other peers
      do to either of them: what the client has of the chunk equals the server's bytes; no ACK it has ever
      sent, and no window of the server, is ahead of its prefix; all DATA to it is genuine; and once it
      has sent ACK 525, it has the chunk, byte for byte, in `have`. */
  lemma PairSafety(sha: Digest, c: Terms, p: Pair, moves: seq<Move>)
    requires PairInit(sha, c, p) && PairRun(sha, c, p, moves).Some?
    ensures var q := PairRun(sha, c, p, moves).value;
            && c.fetched < |q.client.heap|
            && Agrees(q.client.heap[c.fetched].store, c.source)
            && (forall a: nat :: a in q.acks ==> a <= Prefix(q.client.heap[c.fetched].store.bits))
            && (forall j :: 0 <= j < |q.server.outgoing| && q.server.outgoing[j].peer == c.client ==>
                  q.server.outgoing[j].sender.cctrl.begin <= Prefix(q.client.heap[c.fetched].store.bits))
            && (forall x :: x in q.data ==> Genuine(c.source, x))
            && (MAX_SEQ_NUM in q.acks ==> c.fetched in q.client.have && q.client.heap[c.fetched].store.data == c.source)
  {
    PairRunKeeps(sha, c, p, moves);
    var q := PairRun(sha, c, p, moves).value;
    if MAX_SEQ_NUM in q.acks {
      FullCountIsFullPrefix(q.client.heap[c.fetched].store.bits);
      FullIsSource(q.client.heap[c.fetched].store, c.source);
    }
  }
}
