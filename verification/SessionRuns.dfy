/** Whole sessions: any sequence of user requests, packets and timer ticks (code/peer.c). */
module SessionRuns {
  import opened Common
  import opened ChunkLayout
  import opened Congestion
  import opened Sender
  import opened Receiver
  import opened Session
  import opened SessionSafety

  /** What makes a peer act. */
  datatype Event =
    | UserGet(entries: seq<Entry>, at: Time)
    | Arrives(from: PeerId, message: Message, at: Time)
    | TimerFires(at: Time)

  /** One user GET at a time, for distinct chunks; packets are well formed, with any payload. */
  ghost predicate Acceptable(s: State, e: Event) {
    match e
    case UserGet(entries, _) => s.wanted == [] && s.missing == [] && NewEntries(s, entries)
    case Arrives(_, Data(packet), _) => Receiver.WellFormed(packet.num, packet.payload)
    case Arrives(_, Ack(num), _) => num <= MAX_SEQ_NUM
    case _ => true
  }

  /** `process_inbound_udp` drops packets from unknown addresses and dispatches the others. */
  ghost function Step(sha: Digest, maxConn: nat, s: State, e: Event): (out: Out)
    requires Shape(s) && Acceptable(s, e)
    ensures Shape(out.state)
  {
    match e
    case UserGet(entries, _) => OnUserGet(s, entries)
    case TimerFires(at) => OnClientTimer(SweepOutgoing(s, 0, at), at)
    case Arrives(from, message, at) =>
      if from !in s.available then Out(s, [])
      else
        match message
        case WhoHas(hashes) => OnWhoHas(s, from, hashes)
        case IHave(hashes) => OnIHave(s, from, hashes, at)
        case Get(hash) => OnGet(s, from, hash, maxConn, at)
        case Data(packet) => OnData(sha, s, from, packet.num, packet.payload, at)
        case Ack(num) => OnAck(s, from, num, at)
        case Denied => Out(OnDenied(s, from), [])
  }

  /** Packets from addresses that are not in the list of peers change nothing and are not answered. */
  lemma StrangersIgnored(sha: Digest, maxConn: nat, s: State, e: Event)
    requires Shape(s) && Acceptable(s, e) && e.Arrives? && e.from !in s.available
    ensures Step(sha, maxConn, s, e) == Out(s, [])
  {
  }

  lemma StepKeeps(sha: Digest, maxConn: nat, s: State, e: Event, own: nat)
    requires SessionInv(sha, s, own) && Shape(s) && Acceptable(s, e)
    ensures SessionInv(sha, Step(sha, maxConn, s, e).state, own)
    ensures Stable(s, Step(sha, maxConn, s, e).state)
  {
    match e
    case UserGet(entries, _) => OnUserGetKeeps(sha, s, entries, own);
    case TimerFires(at) =>
      SweepOutgoingKeeps(sha, s, 0, at, own);
      OnClientTimerKeeps(sha, SweepOutgoing(s, 0, at), at, own);
      StableTransitive(s, SweepOutgoing(s, 0, at), Step(sha, maxConn, s, e).state);
    case Arrives(from, message, at) =>
      if from in s.available {
        match message
        case IHave(hashes) => OnIHaveKeeps(sha, s, from, hashes, at, own);
        case Get(hash) => OnGetKeeps(sha, s, from, hash, maxConn, at, own);
        case Data(packet) => OnDataKeeps(sha, s, from, packet.num, packet.payload, at, own);
        case Ack(num) => OnAckKeeps(sha, s, from, num, at, own);
        case Denied => OnDeniedKeeps(sha, s, from, own);
        case WhoHas(_) =>
      }
  }

  /** The state after a session; None if some event was not acceptable when it came. */
  ghost function Run(sha: Digest, maxConn: nat, s: State, events: seq<Event>): (end: Option<State>)
    requires Shape(s)
    ensures end.Some? ==> Shape(end.value)
    decreases |events|
  {
    if events == [] then Some(s)
    else if !Acceptable(s, events[0]) then None
    else Run(sha, maxConn, Step(sha, maxConn, s, events[0]).state, events[1..])
  }

  lemma {:induction false} RunKeeps(sha: Digest, maxConn: nat, s: State, events: seq<Event>, own: nat)
    requires SessionInv(sha, s, own) && Shape(s) && Run(sha, maxConn, s, events).Some?
    ensures SessionInv(sha, Run(sha, maxConn, s, events).value, own)
    ensures Stable(s, Run(sha, maxConn, s, events).value)
    decreases |events|
  {
    if events != [] {
      StepKeeps(sha, maxConn, s, events[0], own);
      var next := Step(sha, maxConn, s, events[0]).state;
      RunKeeps(sha, maxConn, next, events[1..], own);
      StableTransitive(s, next, Run(sha, maxConn, s, events).value);
    }
  }

  /** A peer as it starts: it has the chunks of its own files and knows its peers. */
  ghost predicate Initial(s: State, own: nat) {
    && own == |s.heap| == |s.have| && (forall i :: 0 <= i < own ==> s.have[i] == i)
    && s.wanted == [] && s.missing == [] && s.incoming == [] && s.outgoing == [] && s.written == []
    && (forall r {:trigger Named(s.heap[r])} :: 0 <= r < own ==> Named(s.heap[r]))
    && (forall r, q :: 0 <= r < q < own ==> s.heap[r].hash != s.heap[q].hash)
  }

  /** Nobody is listed for any chunk: `create_chunk` gives a zeroed structure. */
  ghost predicate NobodyListed(s: State) {
    forall r :: 0 <= r < |s.heap| ==> s.heap[r].peers == []
  }

  lemma InitialInv(sha: Digest, s: State, own: nat)
    requires Initial(s, own)
    ensures SessionInv(sha, s, own)
  {
    assert forall r: Ref :: Listed(r, s.have, s.missing) ==> r < own;
  }

  /** Integrity of every session: `wanted` stays inside the disjoint union of `have` and `missing`;
      every incoming transfer is for a missing chunk; a chunk that was not loaded at the start is in
      `have` only with the right digest; and output files hold only bytes of that kind. */
  lemma Integrity(sha: Digest, maxConn: nat, s: State, events: seq<Event>, own: nat)
    requires Initial(s, own) && Run(sha, maxConn, s, events).Some?
    ensures var t := Run(sha, maxConn, s, events).value;
            && (forall r :: r in t.wanted ==> (r in t.have) != (r in t.missing))
            && (forall i :: 0 <= i < |t.incoming| ==> t.incoming[i].chunk in t.missing)
            && (forall r :: r in t.have && own <= r ==> sha(t.heap[r].store.data) == t.heap[r].hash)
            && (forall w :: w in t.written && own <= w.chunk ==> w.chunk < |t.heap| && sha(w.bytes) == t.heap[w.chunk].hash)
  {
    InitialInv(sha, s, own);
    RunKeeps(sha, maxConn, s, events, own);
    var t := Run(sha, maxConn, s, events).value;
    forall r | r in t.wanted ensures (r in t.have) != (r in t.missing) { assert Listed(r, t.have, t.missing); }
    forall r | r in t.have ensures Trusted(sha, t.heap, own, r) { }
  }

  /** Over any part of a session, chunks in `have` stay and their bytes never change. */
  lemma NeverLostNorChanged(sha: Digest, maxConn: nat, s: State, events: seq<Event>, own: nat, r: Ref)
    requires SessionInv(sha, s, own) && Shape(s) && Run(sha, maxConn, s, events).Some?
    requires r in s.have
    ensures var t := Run(sha, maxConn, s, events).value;
            && r < |s.heap| <= |t.heap| && r in t.have
            && t.heap[r].store.data == s.heap[r].store.data && t.heap[r].hash == s.heap[r].hash
            && s.written <= t.written
  {
    RunKeeps(sha, maxConn, s, events, own);
    assert Trusted(sha, s.heap, own, r);
  }

  /** DATA is served only from chunks in `have`, cut into genuine segments. */
  lemma ServedFromHave(sha: Digest, s: State, from: PeerId, num: nat, now: Time, own: nat, m: Send)
    requires SessionInv(sha, s, own) && Shape(s) && num <= MAX_SEQ_NUM
    requires m in OnAck(s, from, num, now).sent
    ensures m.To? && m.peer == from && m.message.Data?
    ensures exists r :: r in s.have && r < |s.heap| && IsSeqNum(m.message.packet.num) &&
              m.message.packet.payload == Segment(s.heap[r].store.data, m.message.packet.num)
  {
    var i := OutgoingTo(s.outgoing, from);
    var t := s.outgoing[i];
    AckSendsInRange(t.sender, num, now);
    var sent := ReceiveAck(t.sender, num, now).sent;
    var packets := Packets(s.heap[t.chunk].store.data, sent);
    var j :| 0 <= j < |DataTo(from, packets)| && DataTo(from, packets)[j] == m;
    assert sent[j] in sent;
  }
}
