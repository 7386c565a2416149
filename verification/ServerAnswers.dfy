/** What a peer answers as a server, and that it serves what it was asked for (code/bt_server.c). */
module ServerAnswers {
  import opened Common
  import opened ChunkLayout
  import opened Congestion
  import opened Sender
  import opened Receiver
  import opened Session
  import opened SessionSafety
  import opened SessionRuns
  import opened SessionDiscovery

  // ----- GET -----

  /** A chunk with this hash is being served. */
  ghost predicate InFlight(s: State, hash: seq<byte>)
    requires Shape(s)
  {
    exists j :: 0 <= j < |s.outgoing| && s.heap[s.outgoing[j].chunk].hash == hash
  }

  /** A transfer that has just sent the first segment. */
  ghost predicate JustBegun(x: Sender, now: Time) {
    && x.timestamp == now
    && x.cctrl.mode.SS? && x.cctrl.windSize == 1 && x.cctrl.ssthresh == 64
    && x.cctrl.begin == 0 && x.cctrl.index == 1 && x.cctrl.dupCount == 0 && x.cctrl.timeoutCount == 0
  }

  /** GET is refused with one DENIED if the peer has no chunk with the hash or already serves as many as
      it may, and ignored if such a chunk is being served. Else one transfer to the asker begins, of a
      chunk with that hash, and exactly its first thousand bytes are sent, as DATA 1. */
  lemma GetLaw(s: State, from: PeerId, hash: seq<byte>, maxConn: nat, now: Time)
    requires Shape(s)
    ensures var out := OnGet(s, from, hash, maxConn, now);
            if !Owns(s.heap, s.have, hash) || |s.outgoing| >= maxConn then out == Out(s, [To(from, Denied)])
            else if InFlight(s, hash) then out == Out(s, [])
            else
              && |out.state.outgoing| == |s.outgoing| + 1
              && var t := out.state.outgoing[0];
              && t.peer == from && t.chunk in s.have && t.chunk < |s.heap| && s.heap[t.chunk].hash == hash
              && JustBegun(t.sender, now)
              && out.state == s.(outgoing := [t] + s.outgoing, available := s.available[from := false])
              && out.sent == [To(from, Data(DataPacket(1, s.heap[t.chunk].store.data[..1000])))]
  {
    var found := FindHash(s.heap, s.have, hash);
    if found.Some? {
      StartInv(now);
      var data := s.heap[s.have[found.value]].store.data;
      assert Segment(data, 1) == data[..1000];
      assert Packets(data, [1]) == [DataPacket(1, data[..1000])];
      assert DataTo(from, Packets(data, [1])) == [To(from, Data(DataPacket(1, data[..1000])))];
    }
  }

  // ----- ACK -----

  ghost predicate IsFirstTo(ts: seq<Outgoing>, p: PeerId, i: nat) {
    i < |ts| && ts[i].peer == p && forall j :: 0 <= j < i ==> ts[j].peer != p
  }

  ghost predicate Serving(ts: seq<Outgoing>, p: PeerId) {
    exists j :: 0 <= j < |ts| && ts[j].peer == p
  }

  /** The messages are the DATA packets with these numbers, cut from the chunk, for the peer. */
  ghost predicate Carries(sent: seq<Send>, p: PeerId, data: ChunkData, nums: seq<nat>) {
    && |sent| == |nums|
    && forall j :: 0 <= j < |nums| ==>
         IsSeqNum(nums[j]) && sent[j] == To(p, Data(DataPacket(nums[j], Segment(data, nums[j]))))
  }

  /** ACK moves on the first transfer to the peer, if there is one: 525 ends it and frees the peer, and
      any other number does what the sender's step says, with DATA cut from that transfer's chunk. */
  lemma AckLaw(s: State, from: PeerId, num: nat, now: Time, i: nat)
    requires Shape(s) && num <= MAX_SEQ_NUM
    ensures !Serving(s.outgoing, from) ==> OnAck(s, from, num, now) == Out(s, [])
    ensures IsFirstTo(s.outgoing, from, i) && num == MAX_SEQ_NUM ==>
              OnAck(s, from, num, now) ==
              Out(s.(outgoing := s.outgoing[..i] + s.outgoing[i + 1..], available := s.available[from := true]), [])
    ensures IsFirstTo(s.outgoing, from, i) && num < MAX_SEQ_NUM ==>
              var out, r := OnAck(s, from, num, now), ReceiveAck(s.outgoing[i].sender, num, now);
              && r.next.Some?
              && out.state == s.(outgoing := s.outgoing[i := s.outgoing[i].(sender := r.next.value)])
              && Carries(out.sent, from, s.heap[s.outgoing[i].chunk].store.data, r.sent)
  {
    if IsFirstTo(s.outgoing, from, i) {
      assert OutgoingTo(s.outgoing, from) == i;
      AckSendsInRange(s.outgoing[i].sender, num, now);
      var sent := ReceiveAck(s.outgoing[i].sender, num, now).sent;
      assert forall j :: 0 <= j < |sent| ==> sent[j] in sent;
    }
  }

  // ----- Server timer -----

  /** What a tick leaves of one transfer. */
  ghost function TickedOne(t: Outgoing, now: Time): seq<Outgoing> {
    var next := ReceiveTimer(t.sender, now).next;
    if next.Some? then [t.(sender := next.value)] else []
  }

  /** The transfers that a tick leaves, each after its own timer step. */
  ghost function Ticked(ts: seq<Outgoing>, now: Time): seq<Outgoing> {
    if ts == [] then [] else TickedOne(ts[0], now) + Ticked(ts[1..], now)
  }

  /** Some transfer to the peer is given up. */
  ghost predicate Killed(ts: seq<Outgoing>, p: PeerId, now: Time) {
    exists i :: 0 <= i < |ts| && ts[i].peer == p && TickedOne(ts[i], now) == []
  }

  lemma TickedFrom(ts: seq<Outgoing>, i: nat, now: Time, p: PeerId)
    requires i < |ts|
    ensures Ticked(ts[i..], now) == TickedOne(ts[i], now) + Ticked(ts[i + 1..], now)
    ensures Killed(ts[i..], p, now) <==> (ts[i].peer == p && TickedOne(ts[i], now) == []) || Killed(ts[i + 1..], p, now)
  {
    var a, b := ts[i..], ts[i + 1..];
    assert a[0] == ts[i] && a[1..] == b;
    assert forall j :: 0 <= j < |b| ==> a[j + 1] == b[j];
    assert forall j :: 1 <= j < |a| ==> b[j - 1] == a[j];
  }

  /** One turn of the loop of `handle_server_timeout`; j is the place to go on. */
  lemma ServerTurn(s: State, i: nat, now: Time) returns (t: State, j: nat)
    requires Shape(s) && i < |s.outgoing|
    ensures Shape(t) && j <= |t.outgoing| && |t.outgoing| - j < |s.outgoing| - i
    ensures t.outgoing[..j] == s.outgoing[..i] + TickedOne(s.outgoing[i], now) && t.outgoing[j..] == s.outgoing[i + 1..]
    ensures t.available == if TickedOne(s.outgoing[i], now) == [] then s.available[s.outgoing[i].peer := true] else s.available
    ensures SweepOutgoing(s, i, now) == SweepOutgoing(t, j, now)
  {
    match ReceiveTimer(s.outgoing[i].sender, now).next
    case None =>
      t, j := DeleteOutgoing(s, i), i;
    case Some(x) =>
      t, j := s.(outgoing := s.outgoing[i := s.outgoing[i].(sender := x)]), i + 1;
      assert t.outgoing[..i + 1] == s.outgoing[..i] + [t.outgoing[i]];
  }

  /** The result of the loop from position i on, for peer p. */
  ghost predicate TicksTo(s: State, i: nat, now: Time, p: PeerId, t: State)
    requires i <= |s.outgoing|
  {
    var killed := Killed(s.outgoing[i..], p, now);
    && t.outgoing == s.outgoing[..i] + Ticked(s.outgoing[i..], now)
    && (p in t.available <==> p in s.available || killed)
    && (p in t.available ==> (t.available[p] <==> killed || s.available[p]))
  }

  lemma TicksOn(s: State, i: nat, now: Time, p: PeerId, t: State, j: nat, end: State)
    requires i < |s.outgoing| && j <= |t.outgoing| && TicksTo(t, j, now, p, end)
    requires t.outgoing[..j] == s.outgoing[..i] + TickedOne(s.outgoing[i], now) && t.outgoing[j..] == s.outgoing[i + 1..]
    requires t.available == if TickedOne(s.outgoing[i], now) == [] then s.available[s.outgoing[i].peer := true] else s.available
    ensures TicksTo(s, i, now, p, end)
  {
    TickedFrom(s.outgoing, i, now, p);
  }

  /** From position i on, the loop of `handle_server_timeout`, which deletes transfers while it walks,
      gives every transfer its own step, leaves the survivors in order, and frees exactly the peers of
      those given up. */
  lemma {:induction false} ServerTickLaw(s: State, i: nat, now: Time, p: PeerId)
    requires Shape(s) && i <= |s.outgoing|
    ensures TicksTo(s, i, now, p, SweepOutgoing(s, i, now))
    decreases |s.outgoing| - i
  {
    if i == |s.outgoing| {
      assert s.outgoing[..i] == s.outgoing;
    } else {
      var t, j := ServerTurn(s, i, now);
      ServerTickLaw(t, j, now, p);
      TicksOn(s, i, now, p, t, j, SweepOutgoing(s, i, now));
    }
  }

  // ----- Everybody is served what they asked for -----

  /** The peer asked for the hash during the session. */
  ghost predicate AskedFor(events: seq<SessionRuns.Event>, p: PeerId, h: seq<byte>) {
    exists i :: 0 <= i < |events| && events[i].Arrives? && events[i].from == p && events[i].message == Get(h)
  }

  /** The same transfer was there before. */
  ghost predicate WasThere(ts: seq<Outgoing>, t: Outgoing) {
    exists i :: 0 <= i < |ts| && ts[i].peer == t.peer && ts[i].chunk == t.chunk
  }

  ghost predicate AllThere(ts: seq<Outgoing>, ts': seq<Outgoing>) {
    forall j :: 0 <= j < |ts'| ==> WasThere(ts, ts'[j])
  }

  lemma ThereStill(ts: seq<Outgoing>, o: Outgoing)
    requires ts != [] && WasThere(ts[1..], o)
    ensures WasThere(ts, o)
  {
    var i :| 0 <= i < |ts[1..]| && ts[1..][i].peer == o.peer && ts[1..][i].chunk == o.chunk;
    assert ts[i + 1] == ts[1..][i];
  }

  lemma TickedOneThere(t: Outgoing, now: Time, o: Outgoing)
    requires o in TickedOne(t, now)
    ensures o.peer == t.peer && o.chunk == t.chunk
  {
  }

  lemma {:induction false} TickedThere(ts: seq<Outgoing>, now: Time, o: Outgoing)
    requires o in Ticked(ts, now)
    ensures WasThere(ts, o)
  {
    if o in TickedOne(ts[0], now) {
      TickedOneThere(ts[0], now, o);
    } else {
      TickedThere(ts[1..], now, o);
      ThereStill(ts, o);
    }
  }

  lemma AckThere(s: State, from: PeerId, num: nat, now: Time)
    requires Shape(s) && num <= MAX_SEQ_NUM
    ensures AllThere(s.outgoing, OnAck(s, from, num, now).state.outgoing)
  {
    var i, t := OutgoingTo(s.outgoing, from), OnAck(s, from, num, now).state.outgoing;
    AckLaw(s, from, num, now, i);
    forall j | 0 <= j < |t| ensures WasThere(s.outgoing, t[j]) {
      var k := if i < |s.outgoing| && num == MAX_SEQ_NUM && i <= j then j + 1 else j;
      assert s.outgoing[k].peer == t[j].peer && s.outgoing[k].chunk == t[j].chunk;
    }
  }

  lemma SweptThere(s: State, now: Time)
    requires Shape(s)
    ensures AllThere(s.outgoing, SweepOutgoing(s, 0, now).outgoing)
  {
    var t := SweepOutgoing(s, 0, now);
    ServerTickLaw(s, 0, now, 0);
    assert s.outgoing[0..] == s.outgoing && s.outgoing[..0] == [];
    forall j | 0 <= j < |t.outgoing| ensures WasThere(s.outgoing, t.outgoing[j]) {
      assert t.outgoing[j] in Ticked(s.outgoing, now);
      TickedThere(s.outgoing, now, t.outgoing[j]);
    }
  }

  lemma SameThere(ts: seq<Outgoing>)
    ensures AllThere(ts, ts)
  {
    forall j | 0 <= j < |ts| ensures WasThere(ts, ts[j]) { assert ts[j].peer == ts[j].peer; }
  }

  /** A transfer that was not there before is for the peer whose GET has just come, and for its hash. */
  ghost predicate Justified(s: State, e: SessionRuns.Event, t: State, o: Outgoing) {
    || WasThere(s.outgoing, o)
    || (e.Arrives? && e.from == o.peer && o.chunk < |t.heap| && e.message == Get(t.heap[o.chunk].hash))
  }

  lemma GetThere(s: State, from: PeerId, hash: seq<byte>, maxConn: nat, now: Time)
    requires Shape(s)
    ensures var t := OnGet(s, from, hash, maxConn, now).state;
            forall j :: 0 <= j < |t.outgoing| ==>
              || WasThere(s.outgoing, t.outgoing[j])
              || (t.outgoing[j].peer == from && t.outgoing[j].chunk < |t.heap| && t.heap[t.outgoing[j].chunk].hash == hash)
  {
    GetLaw(s, from, hash, maxConn, now);
    SameThere(s.outgoing);
  }

  lemma OtherOutgoing(sha: Digest, maxConn: nat, s: State, e: SessionRuns.Event)
    requires Shape(s) && Acceptable(s, e) && !e.TimerFires?
    requires e.Arrives? ==> !e.message.Get? && !e.message.Ack?
    ensures SessionRuns.Step(sha, maxConn, s, e).state.outgoing == s.outgoing
  {
  }

  lemma StepJustified(sha: Digest, maxConn: nat, s: State, e: SessionRuns.Event)
    requires Shape(s) && Acceptable(s, e)
    ensures var t := SessionRuns.Step(sha, maxConn, s, e).state;
            forall j :: 0 <= j < |t.outgoing| ==> Justified(s, e, t, t.outgoing[j])
  {
    SameThere(s.outgoing);
    var t := SessionRuns.Step(sha, maxConn, s, e).state;
    if e.TimerFires? {
      SweptThere(s, e.at);
    } else if e.Arrives? && e.message.Ack? {
      if e.from in s.available { AckThere(s, e.from, e.message.num, e.at); }
    } else if e.Arrives? && e.message.Get? {
      GetThere(s, e.from, e.message.hash, maxConn, e.at);
    } else {
      OtherOutgoing(sha, maxConn, s, e);
    }
  }

  lemma StepOrigin(sha: Digest, maxConn: nat, s: State, e: SessionRuns.Event, o: Outgoing)
    requires Shape(s) && Acceptable(s, e) && WasThere(SessionRuns.Step(sha, maxConn, s, e).state.outgoing, o)
    ensures Justified(s, e, SessionRuns.Step(sha, maxConn, s, e).state, o)
  {
    var t := SessionRuns.Step(sha, maxConn, s, e).state;
    StepJustified(sha, maxConn, s, e);
    var j :| 0 <= j < |t.outgoing| && t.outgoing[j].peer == o.peer && t.outgoing[j].chunk == o.chunk;
    assert Justified(s, e, t, t.outgoing[j]);
  }

  lemma AskedLater(events: seq<SessionRuns.Event>, p: PeerId, h: seq<byte>)
    requires events != []
    ensures AskedFor(events[1..], p, h) ==> AskedFor(events, p, h)
    ensures events[0].Arrives? && events[0].from == p && events[0].message == Get(h) ==> AskedFor(events, p, h)
  {
    if i :| 0 <= i < |events[1..]| && events[1..][i].Arrives? && events[1..][i].from == p && events[1..][i].message == Get(h) {
      assert events[i + 1] == events[1..][i];
    }
  }

  lemma HashStays(sha: Digest, maxConn: nat, s: State, events: seq<SessionRuns.Event>, own: nat, r: Ref)
    requires SessionInv(sha, s, own) && Shape(s) && Run(sha, maxConn, s, events).Some? && r < |s.heap|
    ensures var t := Run(sha, maxConn, s, events).value; r < |t.heap| && t.heap[r].hash == s.heap[r].hash
  {
    RunKeeps(sha, maxConn, s, events, own);
  }

  lemma {:induction false} RunJustified(sha: Digest, maxConn: nat, s: State, events: seq<SessionRuns.Event>, own: nat, o: Outgoing)
    requires SessionInv(sha, s, own) && Shape(s) && Run(sha, maxConn, s, events).Some?
    requires WasThere(Run(sha, maxConn, s, events).value.outgoing, o)
    ensures var t := Run(sha, maxConn, s, events).value;
            WasThere(s.outgoing, o) || (o.chunk < |t.heap| && AskedFor(events, o.peer, t.heap[o.chunk].hash))
    decreases |events|
  {
    if events != [] {
      var e, next, t := events[0], SessionRuns.Step(sha, maxConn, s, events[0]).state, Run(sha, maxConn, s, events).value;
      StepKeeps(sha, maxConn, s, e, own);
      RunJustified(sha, maxConn, next, events[1..], own, o);
      if WasThere(next.outgoing, o) {
        StepOrigin(sha, maxConn, s, e, o);
        if !WasThere(s.outgoing, o) {
          HashStays(sha, maxConn, next, events[1..], own, o.chunk);
          AskedLater(events, o.peer, t.heap[o.chunk].hash);
        }
      } else {
        AskedLater(events, o.peer, t.heap[o.chunk].hash);
      }
    }
  }

  /** In every session from the start of a peer: a DATA packet sent on an ACK goes to the peer that
      acknowledges, and carries a segment of a chunk in `have` with a hash that this peer has asked for. */
  lemma ServedAsAsked(sha: Digest, maxConn: nat, s: State, events: seq<SessionRuns.Event>, own: nat, from: PeerId, num: nat, at: Time, m: Send)
    requires Initial(s, own) && Run(sha, maxConn, s, events).Some? && num <= MAX_SEQ_NUM
    requires m in OnAck(Run(sha, maxConn, s, events).value, from, num, at).sent
    ensures m.To? && m.peer == from && m.message.Data? && IsSeqNum(m.message.packet.num)
    ensures var t := Run(sha, maxConn, s, events).value;
            exists r :: r in t.have && r < |t.heap| && AskedFor(events, from, t.heap[r].hash) &&
                        m.message.packet.payload == Segment(t.heap[r].store.data, m.message.packet.num)
  {
    InitialInv(sha, s, own);
    RunKeeps(sha, maxConn, s, events, own);
    var t := Run(sha, maxConn, s, events).value;
    var i := AckCarries(t, from, num, at, m);
    SameThere(t.outgoing);
    RunJustified(sha, maxConn, s, events, own, t.outgoing[i]);
    assert t.outgoing[i].chunk in t.have;
  }

  /** A message sent on an ACK is DATA of the chunk of some transfer to the peer. */
  lemma AckCarries(t: State, from: PeerId, num: nat, at: Time, m: Send) returns (i: nat)
    requires Shape(t) && num <= MAX_SEQ_NUM && m in OnAck(t, from, num, at).sent
    ensures i < |t.outgoing| && t.outgoing[i].peer == from
    ensures m.To? && m.peer == from && m.message.Data? && IsSeqNum(m.message.packet.num)
    ensures m.message.packet.payload == Segment(t.heap[t.outgoing[i].chunk].store.data, m.message.packet.num)
  {
    i := OutgoingTo(t.outgoing, from);
    AckLaw(t, from, num, at, i);
    var sent := OnAck(t, from, num, at).sent;
    var j :| 0 <= j < |sent| && sent[j] == m;
  }
}
