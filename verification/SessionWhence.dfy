/** Where the messages of a peer come from: what must have happened for an ACK, a GET or a DATA packet
    to be sent (code/bt_client.c, code/bt_server.c, code/peer.c). */
module SessionWhence {
  import opened Congestion
  import opened Sender
  import opened Receiver
  import opened Session
  import opened SessionSafety
  import opened SessionRuns
  import opened SessionAnswers
  import opened ServerAnswers

  // ----- Messages of the parts of a step -----

  /** A GET for the hash of the chunk of some transfer with the peer. */
  ghost predicate IsGetFor(heap: seq<ChunkRec>, incoming: seq<Incoming>, m: Send) {
    exists i :: 0 <= i < |incoming| && incoming[i].chunk < |heap| &&
                m == To(incoming[i].peer, Get(heap[incoming[i].chunk].hash))
  }

  lemma AsksAreGets(heap: seq<ChunkRec>, started: seq<Incoming>, sent: seq<Send>, m: Send)
    requires Asks(heap, started, sent) && m in sent
    ensures IsGetFor(heap, started, m)
  {
    var j :| 0 <= j < |sent| && sent[j] == m;
    assert AsksFor(heap, started[|started| - 1 - j], sent[j]);
  }

  /** An ACK for the leading bits of the chunk of some transfer with the peer. */
  ghost predicate IsAckFor(heap: seq<ChunkRec>, incoming: seq<Incoming>, m: Send) {
    exists i :: 0 <= i < |incoming| && incoming[i].chunk < |heap| && m.To? && m.peer == incoming[i].peer &&
                m.message.Ack? && IsPrefix(heap[incoming[i].chunk].store.bits, m.message.num)
  }

  lemma {:induction false} RemindersWhence(heap: seq<ChunkRec>, ts: seq<Incoming>, at: Time, m: Send)
    requires (forall i :: 0 <= i < |ts| ==> ts[i].chunk < |heap|) && m in Reminders(heap, ts, at)
    ensures IsGetFor(heap, ts, m) || IsAckFor(heap, ts, m)
  {
    if m in Again(heap, ts[0], at) {
      assert m == Reminder(heap, ts[0]);
    } else {
      RemindersWhence(heap, ts[1..], at, m);
      if IsGetFor(heap, ts[1..], m) {
        var i :| 0 <= i < |ts[1..]| && m == To(ts[1..][i].peer, Get(heap[ts[1..][i].chunk].hash));
        assert ts[i + 1] == ts[1..][i];
      } else {
        var i :| 0 <= i < |ts[1..]| && m.peer == ts[1..][i].peer && IsPrefix(heap[ts[1..][i].chunk].store.bits, m.message.num);
        assert ts[i + 1] == ts[1..][i];
      }
    }
  }

  // ----- Whole steps -----

  /** The answer to DATA: an ACK to the sender for the bits with that of the packet. */
  ghost predicate IsDataAck(s: State, e: SessionRuns.Event, m: Send)
    requires Shape(s) && Acceptable(s, e)
  {
    && e.Arrives? && e.message.Data? && m.To? && m.peer == e.from && m.message.Ack?
    && exists i: nat :: IsFirstFrom(s.incoming, e.from, i) &&
                   IsPrefix(s.heap[s.incoming[i].chunk].store.bits[e.message.packet.num - 1 := true], m.message.num)
  }

  /** A GET for a transfer that is there after the step. */
  ghost predicate IsNewGet(t: State, m: Send) {
    exists i :: 0 <= i < |t.incoming| && t.incoming[i].chunk < |t.heap| &&
                m == To(t.incoming[i].peer, Get(t.heap[t.incoming[i].chunk].hash))
  }

  /** What a step may send: the answer to DATA; GETs for transfers; on a tick, reminders for the
      transfers there were; questions to all, replies and refusals; and DATA, on GET and ACK only. */
  ghost predicate Explained(s: State, e: SessionRuns.Event, t: State, m: Send)
    requires Shape(s) && Acceptable(s, e)
  {
    match m
    case ToAll(message) => message.WhoHas?
    case To(p, message) =>
      match message
      case Ack(_) => IsDataAck(s, e, m) || (e.TimerFires? && IsAckFor(s.heap, s.incoming, m))
      case Get(_) => IsNewGet(t, m) || (e.TimerFires? && IsGetFor(s.heap, s.incoming, m))
      case Data(_) => e.Arrives? && e.from == p && (e.message.Get? || e.message.Ack?)
      case IHave(_) => e.Arrives? && e.from == p && e.message.WhoHas?
      case Denied => e.Arrives? && e.from == p && e.message.Get?
      case WhoHas(_) => false
  }

  lemma StripAt(ts: seq<Incoming>, i: nat)
    requires i < |ts|
    ensures Strip(ts)[i] == (ts[i].peer, ts[i].chunk, ts[i].timeoutCount)
  {
  }

  /** The transfers that have started are in the list. */
  lemma StartedGets(t: State, started: seq<Incoming>, rest: seq<(PeerId, Ref, nat)>, m: Send)
    requires Strip(t.incoming) == Strip(started) + rest && IsGetFor(t.heap, started, m)
    ensures IsNewGet(t, m)
  {
    var i :| 0 <= i < |started| && started[i].chunk < |t.heap| && m == To(started[i].peer, Get(t.heap[started[i].chunk].hash));
    StripAt(started, i);
    StripAt(t.incoming, i);
    assert Strip(t.incoming)[i] == Strip(started)[i];
  }

  lemma DataExplained(sha: Digest, maxConn: nat, s: State, e: SessionRuns.Event, own: nat, m: Send)
    requires SessionInv(sha, s, own) && Shape(s) && Acceptable(s, e) && e.Arrives? && e.message.Data? && e.from in s.available
    requires m in SessionRuns.Step(sha, maxConn, s, e).sent
    ensures Explained(s, e, SessionRuns.Step(sha, maxConn, s, e).state, m)
  {
    var i := IncomingFrom(s.incoming, e.from);
    if i < |s.incoming| {
      assert s.incoming[i].chunk in s.missing;
      DataMessages(sha, s, e.from, e.message.packet, e.at, i, m);
      assert IsFirstFrom(s.incoming, e.from, i);
    }
  }

  lemma DataMessages(sha: Digest, s: State, from: PeerId, p: DataPacket, now: Time, i: nat, m: Send)
    requires Shape(s) && Receiver.WellFormed(p.num, p.payload) && IsFirstFrom(s.incoming, from, i)
    requires StoreInv(s.heap[s.incoming[i].chunk].store) && m in OnData(sha, s, from, p.num, p.payload, now).sent
    ensures || (&& m.To? && m.peer == from && m.message.Ack?
                && IsPrefix(s.heap[s.incoming[i].chunk].store.bits[p.num - 1 := true], m.message.num))
            || (m.To? && m.message.Get? && IsNewGet(OnData(sha, s, from, p.num, p.payload, now).state, m))
  {
    var out := OnData(sha, s, from, p.num, p.payload, now);
    var started := DataLaw(sha, s, from, p.num, p.payload, now, i);
    if m != out.sent[0] {
      assert m in out.sent[1..];
      AsksAreGets(out.state.heap, started, out.sent[1..], m);
      StartedGets(out.state, started, Strip(RemoveAt(s.incoming, i)), m);
    }
  }

  lemma IHaveExplained(sha: Digest, maxConn: nat, s: State, e: SessionRuns.Event, m: Send)
    requires Shape(s) && Acceptable(s, e) && e.Arrives? && e.message.IHave?
    requires m in SessionRuns.Step(sha, maxConn, s, e).sent
    ensures Explained(s, e, SessionRuns.Step(sha, maxConn, s, e).state, m)
  {
    var out := SessionRuns.Step(sha, maxConn, s, e);
    var started := IHaveLaw(s, e.from, e.message.hashes, e.at);
    AsksAreGets(out.state.heap, started, out.sent, m);
    StripJoin(started, s.incoming);
    StartedGets(out.state, started, Strip(s.incoming), m);
  }

  lemma TimerExplained(sha: Digest, maxConn: nat, s: State, e: SessionRuns.Event, own: nat, m: Send)
    requires SessionInv(sha, s, own) && Shape(s) && Acceptable(s, e) && e.TimerFires?
    requires m in SessionRuns.Step(sha, maxConn, s, e).sent
    ensures Explained(s, e, SessionRuns.Step(sha, maxConn, s, e).state, m)
  {
    var out, swept := SessionRuns.Step(sha, maxConn, s, e), SweepOutgoing(s, 0, e.at);
    SweepOutgoingKeeps(sha, s, 0, e.at, own);
    var started, asks, flood := TickLaw(sha, swept, e.at, own);
    if m in Reminders(s.heap, s.incoming, e.at) {
      RemindersWhence(s.heap, s.incoming, e.at, m);
    } else if m in asks {
      AsksAreGets(out.state.heap, started, asks, m);
      StartedGets(out.state, started, Survivors(s.incoming, e.at), m);
    } else {
      assert m in flood;
    }
  }

  lemma ServerExplained(sha: Digest, maxConn: nat, s: State, e: SessionRuns.Event, m: Send)
    requires Shape(s) && Acceptable(s, e) && e.Arrives? && (e.message.Get? || e.message.Ack? || e.message.WhoHas? || e.message.Denied?)
    requires m in SessionRuns.Step(sha, maxConn, s, e).sent
    ensures Explained(s, e, SessionRuns.Step(sha, maxConn, s, e).state, m)
  {
    match e.message
    case Get(hash) => GetLaw(s, e.from, hash, maxConn, e.at);
    case Ack(num) => AckLaw(s, e.from, num, e.at, OutgoingTo(s.outgoing, e.from));
    case _ =>
  }

  /** Every message of every step is explained. */
  lemma StepExplained(sha: Digest, maxConn: nat, s: State, e: SessionRuns.Event, own: nat, m: Send)
    requires SessionInv(sha, s, own) && Shape(s) && Acceptable(s, e) && m in SessionRuns.Step(sha, maxConn, s, e).sent
    ensures Explained(s, e, SessionRuns.Step(sha, maxConn, s, e).state, m)
  {
    match e
    case UserGet(entries, _) => UserGetLaw(s, entries);
    case TimerFires(_) => TimerExplained(sha, maxConn, s, e, own, m);
    case Arrives(_, message, _) =>
      if message.Data? {
        DataExplained(sha, maxConn, s, e, own, m);
      } else if message.IHave? {
        IHaveExplained(sha, maxConn, s, e, m);
      } else {
        ServerExplained(sha, maxConn, s, e, m);
      }
  }
}
