/** What a peer sends in each step, and what the step changes besides (code/bt_client.c,
    code/bt_server.c). */
module SessionAnswers {
  import opened Common
  import opened ChunkLayout
  import opened Congestion
  import opened Sender
  import opened Receiver
  import opened HexCodec
  import opened Session
  import opened SessionSafety
  import opened SessionDiscovery
  import opened SessionScheduling

  // ----- New downloads -----

  /** The messages are the GETs for the transfers, the oldest of which stands last in the list. */
  ghost predicate Asks(heap: seq<ChunkRec>, started: seq<Incoming>, sent: seq<Send>) {
    && |sent| == |started|
    && forall j :: 0 <= j < |sent| ==> AsksFor(heap, started[|started| - 1 - j], sent[j])
  }

  ghost predicate AsksFor(heap: seq<ChunkRec>, t: Incoming, m: Send) {
    t.chunk < |heap| && m == To(t.peer, Get(heap[t.chunk].hash))
  }

  /** A transfer that begins now, for a missing chunk, from a listed peer that was available. */
  ghost predicate Begins(heap: seq<ChunkRec>, t: Incoming, todo: seq<Ref>, available: map<PeerId, bool>, now: Time) {
    && t.timestamp == now && t.timeoutCount == 0
    && t.chunk in todo && t.chunk < |heap| && t.peer in heap[t.chunk].peers
    && t.peer in available && available[t.peer]
  }

  /** The peers of these transfers are no longer available; nothing else changes. */
  ghost predicate Taken(started: seq<Incoming>, before: map<PeerId, bool>, after: map<PeerId, bool>) {
    && (forall p :: p in after <==> p in before)
    && (forall p :: p in before ==> (after[p] <==> before[p] && !Busy(started, p)))
  }

  ghost predicate AllBegin(heap: seq<ChunkRec>, started: seq<Incoming>, todo: seq<Ref>, available: map<PeerId, bool>, now: Time) {
    forall i :: 0 <= i < |started| ==> Begins(heap, started[i], todo, available, now)
  }

  lemma AsksMore(heap: seq<ChunkRec>, rest: seq<Incoming>, t: Incoming, sent: seq<Send>)
    requires Asks(heap, rest, sent) && t.chunk < |heap|
    ensures Asks(heap, rest + [t], [To(t.peer, Get(heap[t.chunk].hash))] + sent)
  {
    var started, all := rest + [t], [To(t.peer, Get(heap[t.chunk].hash))] + sent;
    forall j | 0 <= j < |all| ensures AsksFor(heap, started[|started| - 1 - j], all[j]) {
      if j > 0 {
        assert AsksFor(heap, rest[|rest| - 1 - (j - 1)], sent[j - 1]);
      }
    }
  }

  lemma BusyMore(rest: seq<Incoming>, t: Incoming, p: PeerId)
    ensures Busy(rest + [t], p) <==> Busy(rest, p) || p == t.peer
  {
    assert (rest + [t])[|rest|] == t;
    assert forall i :: 0 <= i < |rest| ==> (rest + [t])[i] == rest[i];
  }

  lemma TakenMore(rest: seq<Incoming>, t: Incoming, before: map<PeerId, bool>, after: map<PeerId, bool>)
    requires t.peer in before && before[t.peer] && Taken(rest, before[t.peer := false], after)
    ensures Taken(rest + [t], before, after)
  {
    forall p | p in before ensures after[p] <==> before[p] && !Busy(rest + [t], p) {
      BusyMore(rest, t, p);
    }
  }

  lemma BeginMore(heap: seq<ChunkRec>, rest: seq<Incoming>, t: Incoming, todo: seq<Ref>, available: map<PeerId, bool>, now: Time)
    requires todo != [] && Begins(heap, t, todo, available, now)
    requires AllBegin(heap, rest, todo[1..], available[t.peer := false], now)
    ensures AllBegin(heap, rest + [t], todo, available, now)
  {
    forall i | 0 <= i < |rest + [t]| ensures Begins(heap, (rest + [t])[i], todo, available, now) {
      if i < |rest| {
        assert Begins(heap, rest[i], todo[1..], available[t.peer := false], now);
      }
    }
  }

  /** `get_chunk_data` starts transfers in front of the list, and sends for each, in the order in which
      they start, one GET with the hash of its chunk to its peer; it sends nothing else. */
  lemma {:induction false} DownloadsLaw(s: State, todo: seq<Ref>, now: Time) returns (started: seq<Incoming>)
    requires Shape(s) && RefsIn(todo, s.heap)
    ensures var out := GetChunkData(s, todo, now);
            && out.state.incoming == started + s.incoming
            && Asks(s.heap, started, out.sent)
            && Taken(started, s.available, out.state.available)
            && AllBegin(s.heap, started, todo, s.available, now)
    decreases |todo|
  {
    started := [];
    if todo != [] {
      var c := s.heap[todo[0]];
      var peer := FirstAvailable(c.peers, s.available);
      if peer.Some? && !Claimed(s, c.hash) {
        var s1, t := Claim(s, todo[0], peer.value, now), Incoming(peer.value, todo[0], now, 0);
        var rest := DownloadsLaw(s1, todo[1..], now);
        var later := GetChunkData(s1, todo[1..], now);
        started := rest + [t];
        assert rest + ([t] + s.incoming) == started + s.incoming;
        AsksMore(s.heap, rest, t, later.sent);
        TakenMore(rest, t, s.available, later.state.available);
        BeginMore(s.heap, rest, t, todo, s.available, now);
      } else {
        started := DownloadsLaw(s, todo[1..], now);
      }
    }
  }

  // ----- DATA -----

  /** The first transfer with the peer stands at position i. */
  ghost predicate IsFirstFrom(ts: seq<Incoming>, p: PeerId, i: nat) {
    i < |ts| && ts[i].peer == p && forall j :: 0 <= j < i ==> ts[j].peer != p
  }

  lemma FirstFrom(ts: seq<Incoming>, p: PeerId, i: nat)
    ensures IsFirstFrom(ts, p, i) <==> IncomingFrom(ts, p) == i < |ts|
    ensures !Busy(ts, p) <==> IncomingFrom(ts, p) == |ts|
  {
  }

  /** a is the number of leading bits. */
  ghost predicate IsPrefix(bits: Bitmap, a: nat) {
    a <= MAX_SEQ_NUM && (forall i :: 0 <= i < a ==> bits[i]) && (a < MAX_SEQ_NUM ==> !bits[a])
  }

  /** DATA from a peer with no transfer is ignored. */
  lemma StrayData(sha: Digest, s: State, from: PeerId, k: nat, payload: seq<byte>, now: Time)
    requires Shape(s) && Receiver.WellFormed(k, payload) && !Busy(s.incoming, from)
    ensures OnData(sha, s, from, k, payload, now) == Out(s, [])
  {
    FirstFrom(s.incoming, from, 0);
  }

  /** DATA for the first transfer with the peer is answered with one cumulative ACK to that peer: the
      number of leading bits once the packet's bit is set. While bits are missing nothing else is sent,
      and only the chunk and the transfer's clock change. With the last bit the transfer ends, and the
      other messages are the GETs of the transfers that start. */
  lemma DataLaw(sha: Digest, s: State, from: PeerId, k: nat, payload: seq<byte>, now: Time, i: nat) returns (started: seq<Incoming>)
    requires Shape(s) && Receiver.WellFormed(k, payload) && IsFirstFrom(s.incoming, from, i)
    requires StoreInv(s.heap[s.incoming[i].chunk].store)
    ensures var out, c := OnData(sha, s, from, k, payload, now), s.incoming[i].chunk;
            var bits := s.heap[c].store.bits[k - 1 := true];
            && |out.sent| == 1 + |started|
            && out.sent[0].To? && out.sent[0].peer == from && out.sent[0].message.Ack? && IsPrefix(bits, out.sent[0].message.num)
            && |out.state.heap| == |s.heap| && Asks(out.state.heap, started, out.sent[1..])
            && (!AllSet(bits) ==>
                  && started == []
                  && out.state == s.(heap := s.heap[c := s.heap[c].(store := out.state.heap[c].store)],
                                     incoming := s.incoming[i := s.incoming[i].(timestamp := now)]))
            && (AllSet(bits) ==> Strip(out.state.incoming) == Strip(started) + Strip(RemoveAt(s.incoming, i)))
  {
    FirstFrom(s.incoming, from, i);
    var c := s.incoming[i].chunk;
    var r := Receive(sha, s.heap[c].store, s.heap[c].hash, k, payload);
    ReceiveLaw(sha, s.heap[c].store, s.heap[c].hash, k, payload);
    started := [];
    if r.verdict != Pending {
      started := ConclusionLaw(Stored(s, i, r.store, now), i, r.verdict == Valid, now);
      assert Strip(RemoveAt(Stored(s, i, r.store, now).incoming, i)) == Strip(RemoveAt(s.incoming, i));
    }
  }

  /** Peer, chunk and number of timeouts of each transfer. */
  function Strip(ts: seq<Incoming>): (r: seq<(PeerId, Ref, nat)>)
    ensures |r| == |ts|
  {
    seq(|ts|, i requires 0 <= i < |ts| => (ts[i].peer, ts[i].chunk, ts[i].timeoutCount))
  }

  lemma ConclusionLaw(s: State, i: nat, valid: bool, now: Time) returns (started: seq<Incoming>)
    requires Shape(s) && i < |s.incoming|
    ensures var out := Concluded(s, i, valid, now);
            && out.state.heap == s.heap && Asks(s.heap, started, out.sent)
            && out.state.incoming == started + RemoveAt(s.incoming, i)
            && Strip(out.state.incoming) == Strip(started) + Strip(RemoveAt(s.incoming, i))
  {
    var s1 := if valid then CheckAllReceived(Received(s, s.incoming[i].chunk)) else s;
    var s2 := DeleteIncoming(s1, i);
    started := DownloadsLaw(s2, s2.missing, now);
    StripJoin(started, RemoveAt(s.incoming, i));
  }

  lemma StripJoin(a: seq<Incoming>, b: seq<Incoming>)
    ensures Strip(a + b) == Strip(a) + Strip(b)
  {
  }

  // ----- DENIED -----

  /** DENIED ends the first transfer with the peer, if there is one, and frees the peer. */
  lemma DeniedLaw(s: State, from: PeerId, i: nat)
    ensures !Busy(s.incoming, from) ==> OnDenied(s, from) == s
    ensures IsFirstFrom(s.incoming, from, i) ==>
              var t := OnDenied(s, from);
              && t.incoming == s.incoming[..i] + s.incoming[i + 1..]
              && from in t.available && t.available[from]
              && (forall p :: p != from ==> (p in t.available <==> p in s.available))
              && (forall p :: p != from && p in s.available ==> t.available[p] == s.available[p])
              && t == s.(incoming := t.incoming, available := t.available)
  {
    FirstFrom(s.incoming, from, i);
  }

  // ----- Client timer -----

  /** What is sent again for a transfer that has timed out: GET if the chunk has nothing yet, else the
      ACK for what it has. */
  ghost predicate Reminds(heap: seq<ChunkRec>, t: Incoming, m: Send) {
    && t.chunk < |heap| && m.To? && m.peer == t.peer
    && if forall i :: 0 <= i < MAX_SEQ_NUM ==> !heap[t.chunk].store.bits[i]
       then m.message == Get(heap[t.chunk].hash)
       else m.message.Ack? && IsPrefix(heap[t.chunk].store.bits, m.message.num)
  }

  lemma {:induction false} CountZero(bits: seq<bool>)
    ensures CountBits(bits) == 0 <==> forall i :: 0 <= i < |bits| ==> !bits[i]
  {
    if bits != [] {
      CountZero(bits[1..]);
      assert forall i :: 0 <= i < |bits| - 1 ==> bits[1..][i] == bits[i + 1];
      assert forall i :: 1 <= i < |bits| ==> bits[i] == bits[1..][i - 1];
    }
  }

  function Reminder(heap: seq<ChunkRec>, t: Incoming): Send
    requires t.chunk < |heap|
  {
    To(t.peer, if heap[t.chunk].store.count == 0 then Get(heap[t.chunk].hash) else Message.Ack(Prefix(heap[t.chunk].store.bits)))
  }

  lemma ReminderReminds(heap: seq<ChunkRec>, t: Incoming)
    requires t.chunk < |heap| && StoreInv(heap[t.chunk].store)
    ensures Reminds(heap, t, Reminder(heap, t))
  {
    CountZero(heap[t.chunk].store.bits);
  }

  /** The transfers that a tick leaves, with their numbers of timeouts. */
  ghost function Survivors(ts: seq<Incoming>, at: Time): seq<(PeerId, Ref, nat)> {
    if ts == [] then [] else Kept(ts[0], at) + Survivors(ts[1..], at)
  }

  /** One reminder for each transfer that has timed out and is not given up. */
  ghost function Reminders(heap: seq<ChunkRec>, ts: seq<Incoming>, at: Time): seq<Send>
    requires forall i :: 0 <= i < |ts| ==> ts[i].chunk < |heap|
  {
    if ts == [] then [] else Again(heap, ts[0], at) + Reminders(heap, ts[1..], at)
  }

  lemma {:induction false} RemindersSame(heap: seq<ChunkRec>, heap': seq<ChunkRec>, ts: seq<Incoming>, at: Time)
    requires (forall i :: 0 <= i < |ts| ==> ts[i].chunk < |heap|) && PeersDiffer(heap, heap')
    ensures Reminders(heap, ts, at) == Reminders(heap', ts, at)
  {
    if ts != [] {
      RemindersSame(heap, heap', ts[1..], at);
    }
  }

  lemma DiedParts(s: State, i: nat)
    requires Shape(s) && i < |s.incoming|
    ensures Died(s, i).incoming[..i] == s.incoming[..i] && Died(s, i).incoming[i..] == s.incoming[i + 1..]
    ensures PeersDiffer(s.heap, Died(s, i).heap)
  {
  }

  lemma Split(s: seq<Incoming>, i: nat)
    requires i < |s|
    ensures s[i..][0] == s[i] && s[i..][1..] == s[i + 1..]
    ensures Strip(s[..i + 1]) == Strip(s[..i]) + [(s[i].peer, s[i].chunk, s[i].timeoutCount)]
  {
  }

  /** Sending a reminder restarts the clock of the first transfer with that peer, and of no other. */
  lemma ReminderClock(s: State, i: nat, at: Time, j: nat)
    requires Shape(s) && i < |s.incoming| && IsFirstFrom(s.incoming, s.incoming[i].peer, j)
    ensures var ts := AskAgain(s, i, at).state.incoming;
            && |ts| == |s.incoming| && ts[j].timestamp == at
            && forall k :: 0 <= k < |ts| && k != j ==> ts[k].timestamp == s.incoming[k].timestamp
  {
    var counted := s.incoming[i := s.incoming[i].(timeoutCount := s.incoming[i].timeoutCount + 1)];
    assert IsFirstFrom(counted, s.incoming[i].peer, j);
    FirstFrom(counted, s.incoming[i].peer, j);
  }

  /** The part of the survivors, and of the reminders, that one transfer gives. */
  ghost function Kept(t: Incoming, at: Time): seq<(PeerId, Ref, nat)> {
    if GivesUp(t, at) then []
    else [(t.peer, t.chunk, if HasTimedOut(t.timestamp, at) then t.timeoutCount + 1 else t.timeoutCount)]
  }

  ghost function Again(heap: seq<ChunkRec>, t: Incoming, at: Time): seq<Send>
    requires t.chunk < |heap|
  {
    if HasTimedOut(t.timestamp, at) && !GivesUp(t, at) then [Reminder(heap, t)] else []
  }

  /** One turn of the loop of `handle_client_timeout` leads to state t, with j the place to go on. */
  ghost predicate Turns(s: State, i: nat, at: Time, t: State, j: nat)
    requires Shape(s) && i < |s.incoming|
  {
    && Shape(t) && j <= |t.incoming| && |t.incoming| - j < |s.incoming| - i && PeersDiffer(s.heap, t.heap)
    && t.incoming[j..] == s.incoming[i + 1..]
    && Strip(t.incoming[..j]) == Strip(s.incoming[..i]) + Kept(s.incoming[i], at)
    && t.available == (if GivesUp(s.incoming[i], at) then s.available[s.incoming[i].peer := true] else s.available)
    && SweepIncoming(s, i, at) ==
       Out(SweepIncoming(t, j, at).state, Again(s.heap, s.incoming[i], at) + SweepIncoming(t, j, at).sent)
  }

  lemma TurnsOver(s: State, i: nat, at: Time)
    requires Shape(s) && i < |s.incoming| && !HasTimedOut(s.incoming[i].timestamp, at)
    ensures Turns(s, i, at, s, i + 1)
  {
    Split(s.incoming, i);
  }

  lemma TurnsToDeath(s: State, i: nat, at: Time)
    requires Shape(s) && i < |s.incoming| && GivesUp(s.incoming[i], at)
    ensures Shape(Died(s, i)) && Turns(s, i, at, Died(s, i), i)
  {
    DiedParts(s, i);
  }

  lemma TurnsToReminder(s: State, i: nat, at: Time)
    requires Shape(s) && i < |s.incoming| && HasTimedOut(s.incoming[i].timestamp, at) && !GivesUp(s.incoming[i], at)
    ensures Turns(s, i, at, AskAgain(s, i, at).state, i + 1)
  {
    SweepOneAgain(s, i, at);
  }

  lemma SweepTurns(s: State, i: nat, at: Time) returns (t: State, j: nat)
    requires Shape(s) && i < |s.incoming|
    ensures Turns(s, i, at, t, j)
  {
    if !HasTimedOut(s.incoming[i].timestamp, at) {
      t, j := s, i + 1;
      TurnsOver(s, i, at);
    } else if s.incoming[i].timeoutCount + 1 >= MAX_TO_COUNTS {
      t, j := Died(s, i), i;
      TurnsToDeath(s, i, at);
    } else {
      t, j := AskAgain(s, i, at).state, i + 1;
      TurnsToReminder(s, i, at);
    }
  }

  /** What holds of the rest of the loop holds of the loop with this turn in front. */
  lemma TurnLaw(s: State, i: nat, at: Time, t: State, j: nat, out: Out, rest: Out)
    requires Shape(s) && i < |s.incoming| && Shape(t) && j <= |t.incoming| && PeersDiffer(s.heap, t.heap)
    requires t.incoming[j..] == s.incoming[i + 1..]
    requires Strip(t.incoming[..j]) == Strip(s.incoming[..i]) + Kept(s.incoming[i], at)
    requires out == Out(rest.state, Again(s.heap, s.incoming[i], at) + rest.sent)
    requires Strip(rest.state.incoming) == Strip(t.incoming[..j]) + Survivors(t.incoming[j..], at)
    requires rest.sent == Reminders(t.heap, t.incoming[j..], at)
    ensures Strip(out.state.incoming) == Strip(s.incoming[..i]) + Survivors(s.incoming[i..], at)
    ensures out.sent == Reminders(s.heap, s.incoming[i..], at)
  {
    Split(s.incoming, i);
    RemindersSame(s.heap, t.heap, t.incoming[j..], at);
  }

  /** From position i on, the loop of `handle_client_timeout`, which deletes transfers while it walks,
      leaves the survivors in order and sends their reminders in order. */
  lemma {:induction false} SweepLaw(s: State, i: nat, at: Time)
    requires Shape(s) && i <= |s.incoming|
    ensures Strip(SweepIncoming(s, i, at).state.incoming) == Strip(s.incoming[..i]) + Survivors(s.incoming[i..], at)
    ensures SweepIncoming(s, i, at).sent == Reminders(s.heap, s.incoming[i..], at)
    decreases |s.incoming| - i
  {
    if i == |s.incoming| {
      assert s.incoming[..i] == s.incoming;
    } else {
      var t, j := SweepTurns(s, i, at);
      SweepLaw(t, j, at);
      TurnLaw(s, i, at, t, j, SweepIncoming(s, i, at), SweepIncoming(t, j, at));
    }
  }

  lemma SweepOneAgain(s: State, i: nat, at: Time)
    requires Shape(s) && i < |s.incoming|
    ensures var t := AskAgain(s, i, at).state;
            && |t.incoming| == |s.incoming| && t.heap == s.heap
            && t.incoming[i + 1..] == s.incoming[i + 1..]
            && Strip(t.incoming[..i + 1]) == Strip(s.incoming[..i]) + [(s.incoming[i].peer, s.incoming[i].chunk, s.incoming[i].timeoutCount + 1)]
            && AskAgain(s, i, at).sent == [Reminder(s.heap, s.incoming[i])]
  {
    forall j | i < j < |s.incoming| ensures AskAgain(s, i, at).state.incoming[j] == s.incoming[j] {
      AskAgainTouches(s, i, at, j);
    }
  }

  /** The sweep frees exactly the peers of the transfers that are given up. */
  lemma {:induction false} SweepFrees(s: State, i: nat, at: Time, p: PeerId)
    requires Shape(s) && i <= |s.incoming|
    ensures var after, dies := SweepIncoming(s, i, at).state.available, Dies(s.incoming[i..], p, at);
            && (p in after <==> p in s.available || dies)
            && (p in after ==> (after[p] <==> dies || s.available[p]))
    decreases |s.incoming| - i
  {
    if i < |s.incoming| {
      var t, j := SweepTurns(s, i, at);
      SweepFrees(t, j, at, p);
      DiesFrom(s.incoming, i, p, at);
    }
  }

  lemma DiesFrom(ts: seq<Incoming>, i: nat, p: PeerId, at: Time)
    requires i < |ts|
    ensures Dies(ts[i..], p, at) <==> (ts[i].peer == p && GivesUp(ts[i], at)) || Dies(ts[i + 1..], p, at)
  {
    var a, b := ts[i..], ts[i + 1..];
    assert a[0] == ts[i];
    assert forall j :: 0 <= j < |b| ==> a[j + 1] == b[j];
    assert forall j :: 1 <= j < |a| ==> b[j - 1] == a[j];
  }

  // ----- WHOHAS -----

  /** The hashes that the messages ask everybody for. */
  function Flooded(sent: seq<Send>): seq<seq<byte>> {
    if sent == [] then []
    else (if sent[0].ToAll? && sent[0].message.WhoHas? then sent[0].message.hashes else []) + Flooded(sent[1..])
  }

  lemma {:induction false} FloodedBatches(batches: seq<seq<seq<byte>>>, sent: seq<Send>)
    requires |sent| == |batches| && forall i :: 0 <= i < |sent| ==> sent[i] == ToAll(WhoHas(batches[i]))
    ensures Flooded(sent) == Flatten(batches)
  {
    if batches != [] {
      FloodedBatches(batches[1..], sent[1..]);
    }
  }

  /** `send_WHOHAS` asks everybody for exactly the hashes of the missing chunks, in order, and sends
      nothing else. */
  lemma FloodLaw(s: State)
    requires Shape(s)
    ensures Flooded(Flood(s)) == HashesOf(s.heap, s.missing)
    ensures forall i :: 0 <= i < |Flood(s)| ==> Flood(s)[i].ToAll? && Flood(s)[i].message.WhoHas?
  {
    var batches := Batches(HashesOf(s.heap, s.missing));
    FloodedBatches(batches, Flood(s));
    BatchesPartition(HashesOf(s.heap, s.missing));
  }

  /** A user GET asks everybody for exactly the chunks that are missing then. */
  lemma UserGetLaw(s: State, entries: seq<Entry>)
    requires Shape(s) && forall e :: e in entries ==> IsHash(e.hex)
    ensures var out := OnUserGet(s, entries);
            && Flooded(out.sent) == HashesOf(out.state.heap, out.state.missing)
            && forall i :: 0 <= i < |out.sent| ==> out.sent[i].ToAll? && out.sent[i].message.WhoHas?
  {
    FloodLaw(OnUserGet(s, entries).state);
  }

  /** WHOHAS is answered with one IHAVE to the asker, with exactly the hashes asked for that the peer
      has; nothing changes. */
  lemma WhoHasLaw(s: State, from: PeerId, hashes: seq<seq<byte>>, h: seq<byte>)
    requires Shape(s)
    ensures var out := OnWhoHas(s, from, hashes);
            && out.state == s && |out.sent| == 1
            && out.sent[0].To? && out.sent[0].peer == from && out.sent[0].message.IHave?
            && (h in out.sent[0].message.hashes <==> h in hashes && Owns(s.heap, s.have, h))
  {
    InOwned(s.heap, s.have, hashes, h);
  }

  /** IHAVE from a known peer sends only the GETs of the transfers that start. */
  lemma IHaveLaw(s: State, from: PeerId, hashes: seq<seq<byte>>, now: Time) returns (started: seq<Incoming>)
    requires Shape(s)
    ensures var out := OnIHave(s, from, hashes, now);
            && |out.state.heap| == |s.heap|
            && out.state.incoming == started + s.incoming && Asks(out.state.heap, started, out.sent)
            && (from !in s.available ==> started == [])
  {
    started := [];
    if from in s.available {
      var s1 := s.(heap := NoteAll(s.heap, s.missing, hashes, from));
      started := DownloadsLaw(s1, s1.missing, now);
    }
  }

  // ----- A whole tick -----

  /** Some missing chunk is not being fetched. */
  ghost predicate Unclaimed(s: State)
    requires Shape(s)
  {
    exists r :: r in s.missing && r < |s.heap| && !Claimed(s, s.heap[r].hash)
  }

  lemma WholeSweep(s: State, at: Time)
    requires Shape(s)
    ensures Strip(SweepIncoming(s, 0, at).state.incoming) == Survivors(s.incoming, at)
    ensures SweepIncoming(s, 0, at).sent == Reminders(s.heap, s.incoming, at)
  {
    assert s.incoming[0..] == s.incoming && s.incoming[..0] == [];
    SweepLaw(s, 0, at);
  }

  /** The parts of what a tick sends. */
  lemma TickParts(s: State, at: Time) returns (started: seq<Incoming>, asks: seq<Send>)
    requires Shape(s) && s.missing != []
    ensures var out := OnClientTimer(s, at);
            && |out.state.heap| == |s.heap| && Asks(out.state.heap, started, asks)
            && Strip(out.state.incoming) == Strip(started) + Survivors(s.incoming, at)
            && out.sent == Reminders(s.heap, s.incoming, at) + asks +
                           (if |out.state.incoming| < |out.state.missing| then Flood(out.state) else [])
  {
    WholeSweep(s, at);
    var swept := SweepIncoming(s, 0, at);
    started := DownloadsLaw(swept.state, swept.state.missing, at);
    asks := GetChunkData(swept.state, swept.state.missing, at).sent;
    StripJoin(started, swept.state.incoming);
  }

  lemma TickFloods(sha: Digest, s: State, at: Time, own: nat)
    requires SessionInv(sha, s, own) && Shape(s)
    ensures var t := OnClientTimer(s, at).state; |t.incoming| < |t.missing| <==> Unclaimed(t)
  {
    OnClientTimerKeeps(sha, s, at, own);
    FloodTest(sha, OnClientTimer(s, at).state, own);
  }

  /** A client timeout with chunks missing sends the reminders, then the GETs of new transfers, and
      asks everybody for all missing chunks if and only if one of them is then not being fetched. */
  lemma TickLaw(sha: Digest, s: State, at: Time, own: nat) returns (started: seq<Incoming>, asks: seq<Send>, flood: seq<Send>)
    requires SessionInv(sha, s, own) && Shape(s) && s.missing != []
    ensures var out := OnClientTimer(s, at);
            && |out.state.heap| == |s.heap| && Asks(out.state.heap, started, asks)
            && Strip(out.state.incoming) == Strip(started) + Survivors(s.incoming, at)
            && out.sent == Reminders(s.heap, s.incoming, at) + asks + flood
            && (forall i :: 0 <= i < |flood| ==> flood[i].ToAll? && flood[i].message.WhoHas?)
            && Flooded(flood) == if Unclaimed(out.state) then HashesOf(out.state.heap, out.state.missing) else []
  {
    started, asks := TickParts(s, at);
    TickFloods(sha, s, at, own);
    var t := OnClientTimer(s, at).state;
    flood := if |t.incoming| < |t.missing| then Flood(t) else [];
    FloodLaw(t);
  }

  // ----- Nothing waits that could be fetched -----

  ghost predicate AllServed(s: State)
    requires Shape(s)
  {
    forall r {:trigger r in s.missing} :: r in s.missing && r < |s.heap| ==> SessionScheduling.Served(s, r)
  }

  lemma DownloadsServe(s: State, now: Time)
    requires Shape(s)
    ensures AllServed(GetChunkData(s, s.missing, now).state)
  {
    var t := GetChunkData(s, s.missing, now).state;
    forall r | r in t.missing && r < |t.heap| ensures SessionScheduling.Served(t, r) {
      MaximalMatching(s, s.missing, now, r);
    }
  }

  /** After IHAVE from a known peer, after a tick with chunks missing, and after the DATA packet that
      completes a chunk, every missing chunk is being fetched or nobody who has it is free. */
  lemma NothingWaits(sha: Digest, s: State, from: PeerId, hashes: seq<seq<byte>>, k: nat, payload: seq<byte>, now: Time, i: nat)
    requires Shape(s) && Receiver.WellFormed(k, payload)
    ensures from in s.available ==> AllServed(OnIHave(s, from, hashes, now).state)
    ensures s.missing != [] ==> AllServed(OnClientTimer(s, now).state)
    ensures IsFirstFrom(s.incoming, from, i) && StoreInv(s.heap[s.incoming[i].chunk].store) &&
            AllSet(s.heap[s.incoming[i].chunk].store.bits[k - 1 := true]) ==>
              AllServed(OnData(sha, s, from, k, payload, now).state)
  {
    if from in s.available {
      DownloadsServe(s.(heap := NoteAll(s.heap, s.missing, hashes, from)), now);
    }
    DownloadsServe(SweepIncoming(s, 0, now).state, now);
    if IsFirstFrom(s.incoming, from, i) && StoreInv(s.heap[s.incoming[i].chunk].store) {
      DataServes(sha, s, from, k, payload, now, i);
    }
  }

  lemma DataServes(sha: Digest, s: State, from: PeerId, k: nat, payload: seq<byte>, now: Time, i: nat)
    requires Shape(s) && Receiver.WellFormed(k, payload)
    requires IsFirstFrom(s.incoming, from, i) && StoreInv(s.heap[s.incoming[i].chunk].store)
    ensures AllSet(s.heap[s.incoming[i].chunk].store.bits[k - 1 := true]) ==>
              AllServed(OnData(sha, s, from, k, payload, now).state)
  {
    FirstFrom(s.incoming, from, i);
    var c := s.heap[s.incoming[i].chunk];
    ReceiveLaw(sha, c.store, c.hash, k, payload);
    var r := Receive(sha, c.store, c.hash, k, payload);
    ConcludedServes(Stored(s, i, r.store, now), i, r.verdict == Valid, now);
  }

  lemma ConcludedServes(s: State, i: nat, valid: bool, now: Time)
    requires Shape(s) && i < |s.incoming|
    ensures AllServed(Concluded(s, i, valid, now).state)
  {
    var s1 := if valid then CheckAllReceived(Received(s, s.incoming[i].chunk)) else s;
    DownloadsServe(DeleteIncoming(s1, i), now);
  }
}
