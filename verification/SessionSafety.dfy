/** What every step of a peer keeps, whatever packets arrive (code/bt_client.c, code/peer.c). */
module SessionSafety {
  import opened Common
  import opened ChunkLayout
  import opened Congestion
  import opened Sender
  import opened Receiver
  import opened HexCodec
  import opened Session

  // ----- Invariants -----

  /** A chunk the peer owns or is fetching. */
  ghost predicate Listed(r: Ref, have: seq<Ref>, missing: seq<Ref>) { r in have || r in missing }

  ghost predicate SameHashSameChunk(heap: seq<ChunkRec>, have: seq<Ref>, missing: seq<Ref>) {
    forall r: Ref, q: Ref {:trigger Listed(r, have, missing), Listed(q, have, missing)} ::
      Listed(r, have, missing) && Listed(q, have, missing) && r < |heap| && q < |heap| && heap[r].hash == heap[q].hash
      ==> r == q
  }

  /** The two forms of a chunk's hash belong together. */
  ghost predicate Named(c: ChunkRec) { IsHash(c.hex) && c.hash == HexToBinary(c.hex) }

  /** Loaded from the peer's own files at the start (the first `own` chunks), or verified. */
  ghost predicate Trusted(sha: Digest, heap: seq<ChunkRec>, own: nat, r: Ref) {
    r < |heap| && (r < own || sha(heap[r].store.data) == heap[r].hash)
  }

  /** The chunk lists: `wanted` lies in the disjoint union of `have` and `missing`; what is in `have`
      is trusted; what is missing is incomplete, with a counter that counts its bits. */
  ghost predicate StockInv(sha: Digest, heap: seq<ChunkRec>, wanted: seq<Ref>, have: seq<Ref>, missing: seq<Ref>, own: nat) {
    && own <= |heap|
    && RefsIn(have, heap) && RefsIn(missing, heap)
    && (forall r :: r in wanted ==> Listed(r, have, missing))
    && (forall r :: r in missing ==> r !in have)
    && Distinct(missing)
    && SameHashSameChunk(heap, have, missing)
    && (forall r {:trigger Named(heap[r])} :: 0 <= r < |heap| ==> Named(heap[r]))
    && (forall r {:trigger Trusted(sha, heap, own, r)} :: r in have ==> Trusted(sha, heap, own, r))
    && (forall r :: r in missing && r < |heap| ==> StoreInv(heap[r].store) && heap[r].store.count < MAX_SEQ_NUM)
  }

  /** Incoming transfers are for missing chunks, at most one each. */
  ghost predicate IncomingInv(incoming: seq<Incoming>, missing: seq<Ref>) {
    && (forall i :: 0 <= i < |incoming| ==> incoming[i].chunk in missing)
    && (forall i, j :: 0 <= i < j < |incoming| ==> incoming[i].chunk != incoming[j].chunk)
  }

  /** Outgoing transfers are for chunks the peer has. */
  ghost predicate OutgoingInv(outgoing: seq<Outgoing>, have: seq<Ref>) {
    forall i :: 0 <= i < |outgoing| ==> outgoing[i].chunk in have && CountersInRange(outgoing[i].sender)
  }

  /** Everything in output files came from a chunk loaded at the start or has the right digest. */
  ghost predicate WrittenInv(sha: Digest, heap: seq<ChunkRec>, written: seq<Write>, own: nat) {
    forall w :: w in written ==> w.chunk < |heap| && (w.chunk < own || sha(w.bytes) == heap[w.chunk].hash)
  }

  ghost predicate SessionInv(sha: Digest, s: State, own: nat) {
    && StockInv(sha, s.heap, s.wanted, s.have, s.missing, own)
    && IncomingInv(s.incoming, s.missing)
    && OutgoingInv(s.outgoing, s.have)
    && WrittenInv(sha, s.heap, s.written, own)
  }

  lemma InvShape(sha: Digest, s: State, own: nat)
    requires SessionInv(sha, s, own)
    ensures Shape(s)
  {
    forall i | 0 <= i < |s.wanted| ensures s.wanted[i] < |s.heap| {
      assert s.wanted[i] in s.wanted;
      assert Listed(s.wanted[i], s.have, s.missing);
    }
  }

  /** What one step may do to the rest of the session: chunks keep their hashes, chunks in `have`
      stay there with their bytes unchanged, and what has been written stays written. */
  ghost predicate Stable(s: State, t: State) {
    && |s.heap| <= |t.heap|
    && (forall r :: 0 <= r < |s.heap| ==> t.heap[r].hash == s.heap[r].hash)
    && (forall r :: r in s.have ==> r in t.have)
    && (forall r :: r in s.have && r < |s.heap| ==> t.heap[r].store == s.heap[r].store)
    && s.written <= t.written
  }

  lemma StableTransitive(s: State, t: State, u: State)
    requires Stable(s, t) && Stable(t, u)
    ensures Stable(s, u)
  {
  }

  // ----- Changes that leave the chunks alone -----

  /** Only peer lists differ. */
  ghost predicate PeersDiffer(heap: seq<ChunkRec>, heap': seq<ChunkRec>) {
    |heap'| == |heap| && forall r :: 0 <= r < |heap| ==> heap'[r] == heap[r].(peers := heap'[r].peers)
  }

  lemma PeersKeepInv(sha: Digest, s: State, heap': seq<ChunkRec>, own: nat)
    requires SessionInv(sha, s, own) && PeersDiffer(s.heap, heap')
    ensures SessionInv(sha, s.(heap := heap'), own) && Stable(s, s.(heap := heap'))
  {
    forall r | r in s.have ensures Trusted(sha, heap', own, r) { assert Trusted(sha, s.heap, own, r); }
    forall r | 0 <= r < |heap'| ensures Named(heap'[r]) { assert Named(s.heap[r]); }
  }

  lemma {:induction false} GetChunkDataKeeps(sha: Digest, s: State, todo: seq<Ref>, now: Time, own: nat)
    requires SessionInv(sha, s, own) && Shape(s) && RefsIn(todo, s.heap) && forall r :: r in todo ==> r in s.missing
    ensures SessionInv(sha, GetChunkData(s, todo, now).state, own)
    ensures Stable(s, GetChunkData(s, todo, now).state)
    decreases |todo|
  {
    if todo != [] {
      var c := s.heap[todo[0]];
      var peer := FirstAvailable(c.peers, s.available);
      if peer.Some? && !Claimed(s, c.hash) {
        GetChunkDataKeeps(sha, Claim(s, todo[0], peer.value, now), todo[1..], now, own);
      } else {
        GetChunkDataKeeps(sha, s, todo[1..], now, own);
      }
    }
  }

  // ----- Data -----

  /** A packet that does not complete the chunk. */
  lemma StoredKeeps(sha: Digest, s: State, i: nat, store: Store, now: Time, own: nat)
    requires SessionInv(sha, s, own) && Shape(s) && i < |s.incoming|
    requires StoreInv(store) && store.count < MAX_SEQ_NUM
    ensures SessionInv(sha, Stored(s, i, store, now), own) && Stable(s, Stored(s, i, store, now))
  {
    var t := Stored(s, i, store, now);
    forall r | 0 <= r < |t.heap| ensures Named(t.heap[r]) { assert Named(s.heap[r]); }
    forall r | r in s.have ensures Trusted(sha, t.heap, own, r) { assert Trusted(sha, s.heap, own, r); }
  }

  lemma DeleteIncomingKeeps(incoming: seq<Incoming>, missing: seq<Ref>, i: nat, missing': seq<Ref>)
    requires IncomingInv(incoming, missing) && i < |incoming|
    requires forall r :: r in missing && r != incoming[i].chunk ==> r in missing'
    ensures IncomingInv(RemoveAt(incoming, i), missing')
  {
    var rest := RemoveAt(incoming, i);
    forall j | 0 <= j < |rest| ensures rest[j].chunk in missing' {
      assert rest[j] == incoming[if j < i then j else j + 1];
    }
  }

  lemma RemovedOnly(missing: seq<Ref>, i: nat)
    requires Distinct(missing) && i < |missing|
    ensures Distinct(RemoveAt(missing, i))
    ensures forall r :: r in RemoveAt(missing, i) <==> r in missing && r != missing[i]
  {
    var rest := RemoveAt(missing, i);
    forall r | r in missing && r != missing[i] ensures r in rest {
      var j :| 0 <= j < |missing| && missing[j] == r;
      assert rest[if j < i then j else j - 1] == r;
    }
    forall r | r in rest ensures r in missing && r != missing[i] {
      var j :| 0 <= j < |rest| && rest[j] == r;
      assert rest[j] == missing[if j < i then j else j + 1];
    }
  }

  /** The list invariant while chunk c is complete but still listed as missing. */
  ghost predicate Completed(sha: Digest, s: State, c: Ref, own: nat) {
    && c in s.missing && c < |s.heap| && sha(s.heap[c].store.data) == s.heap[c].hash
    && exists store :: StockInv(sha, s.heap[c := s.heap[c].(store := store)], s.wanted, s.have, s.missing, own)
  }

  /** A valid chunk goes out of `missing` and into `have`. */
  lemma ReceivedKeeps(sha: Digest, s: State, c: Ref, own: nat)
    requires Completed(sha, s, c, own) && Shape(s)
    ensures var t := Received(s, c);
            && StockInv(sha, t.heap, t.wanted, t.have, t.missing, own)
            && t == s.(missing := t.missing, have := [c] + s.have)
            && (forall r :: r in s.missing && r != c ==> r in t.missing)
  {
    var store :| StockInv(sha, s.heap[c := s.heap[c].(store := store)], s.wanted, s.have, s.missing, own);
    var heap := s.heap[c := s.heap[c].(store := store)];
    var i := FindHash(s.heap, s.missing, s.heap[c].hash).value;
    assert Listed(c, s.have, s.missing) && Listed(s.missing[i], s.have, s.missing);
    assert s.missing[i] == c;
    RemovedOnly(s.missing, i);
    var t := Received(s, c);
    forall r | 0 <= r < |t.heap| ensures Named(t.heap[r]) { assert Named(heap[r]); }
    forall r | r in t.have ensures Trusted(sha, t.heap, own, r) {
      if r != c { assert Trusted(sha, heap, own, r); }
    }
    forall r: Ref ensures Listed(r, t.have, t.missing) <==> Listed(r, s.have, s.missing) { }
  }

  /** Writing the file when nothing is missing any more. */
  lemma CheckAllReceivedKeeps(sha: Digest, s: State, own: nat)
    requires Shape(s) && StockInv(sha, s.heap, s.wanted, s.have, s.missing, own) && WrittenInv(sha, s.heap, s.written, own)
    ensures var t := CheckAllReceived(s);
            && StockInv(sha, t.heap, t.wanted, t.have, t.missing, own)
            && WrittenInv(sha, t.heap, t.written, own)
            && t == s.(wanted := t.wanted, written := t.written) && s.written <= t.written
  {
    if s.missing == [] {
      forall w | w in Writes(s, s.wanted)
        ensures w.chunk < |s.heap| && (w.chunk < own || sha(w.bytes) == s.heap[w.chunk].hash)
      {
        var i :| 0 <= i < |s.wanted| && Writes(s, s.wanted)[i] == w;
        assert s.wanted[i] in s.wanted;
        assert Trusted(sha, s.heap, own, s.wanted[i]);
      }
    }
  }

  lemma InvalidKeeps(sha: Digest, s: State, i: nat, now: Time, own: nat)
    requires SessionInv(sha, s, own) && Shape(s) && i < |s.incoming|
    ensures SessionInv(sha, Concluded(s, i, false, now).state, own) && Stable(s, Concluded(s, i, false, now).state)
  {
    DeleteIncomingKeeps(s.incoming, s.missing, i, s.missing);
    var s2 := DeleteIncoming(s, i);
    InvShape(sha, s2, own);
    GetChunkDataKeeps(sha, s2, s2.missing, now, own);
  }

  lemma ValidKeeps(sha: Digest, s: State, i: nat, now: Time, own: nat)
    requires Shape(s) && i < |s.incoming| && Completed(sha, s, s.incoming[i].chunk, own)
    requires IncomingInv(s.incoming, s.missing) && OutgoingInv(s.outgoing, s.have) && WrittenInv(sha, s.heap, s.written, own)
    ensures SessionInv(sha, Concluded(s, i, true, now).state, own) && Stable(s, Concluded(s, i, true, now).state)
  {
    var c := s.incoming[i].chunk;
    ReceivedKeeps(sha, s, c, own);
    var t := Received(s, c);
    CheckAllReceivedKeeps(sha, t, own);
    var u := CheckAllReceived(t);
    DeleteIncomingKeeps(s.incoming, s.missing, i, t.missing);
    var v := DeleteIncoming(u, i);
    InvShape(sha, v, own);
    GetChunkDataKeeps(sha, v, v.missing, now, own);
    StableTransitive(s, v, Concluded(s, i, true, now).state);
  }

  /** The state between storing the last segment and concluding, for a chunk with the right digest. */
  lemma StoredCompletes(sha: Digest, s: State, i: nat, store: Store, now: Time, own: nat)
    requires SessionInv(sha, s, own) && Shape(s) && i < |s.incoming|
    requires sha(store.data) == s.heap[s.incoming[i].chunk].hash
    ensures var t := Stored(s, i, store, now);
            && Shape(t) && Completed(sha, t, s.incoming[i].chunk, own) && Stable(s, t)
            && IncomingInv(t.incoming, t.missing) && OutgoingInv(t.outgoing, t.have) && WrittenInv(sha, t.heap, t.written, own)
  {
    var c := s.incoming[i].chunk;
    var t := Stored(s, i, store, now);
    assert t.heap[c := t.heap[c].(store := s.heap[c].store)] == s.heap;
  }

  /** What a reception leaves behind: a chunk with the right digest, or an incomplete one. */
  lemma ReceptionOutcome(sha: Digest, store: Store, hash: seq<byte>, k: nat, payload: seq<byte>)
    requires StoreInv(store) && Receiver.WellFormed(k, payload)
    ensures var r := Receive(sha, store, hash, k, payload);
            if r.verdict == Valid then sha(r.store.data) == hash
            else StoreInv(r.store) && r.store.count < MAX_SEQ_NUM
  {
    ReceiveInv(sha, store, hash, k, payload);
    FullCountIsFullPrefix(Receive(sha, store, hash, k, payload).store.bits);
  }

  /** The step for a given reception. */
  lemma ReceptionKeeps(sha: Digest, s: State, i: nat, r: Reception, now: Time, own: nat)
    requires SessionInv(sha, s, own) && Shape(s) && i < |s.incoming|
    requires if r.verdict == Valid then sha(r.store.data) == s.heap[s.incoming[i].chunk].hash
             else StoreInv(r.store) && r.store.count < MAX_SEQ_NUM
    ensures var s1 := Stored(s, i, r.store, now);
            var t := if r.verdict == Pending then s1 else Concluded(s1, i, r.verdict == Valid, now).state;
            SessionInv(sha, t, own) && Stable(s, t)
  {
    var s1 := Stored(s, i, r.store, now);
    if r.verdict == Valid {
      StoredCompletes(sha, s, i, r.store, now, own);
      ValidKeeps(sha, s1, i, now, own);
      StableTransitive(s, s1, Concluded(s1, i, true, now).state);
    } else {
      StoredKeeps(sha, s, i, r.store, now, own);
      if r.verdict == Invalid {
        InvalidKeeps(sha, s1, i, now, own);
        StableTransitive(s, s1, Concluded(s1, i, false, now).state);
      }
    }
  }

  lemma OnDataKeeps(sha: Digest, s: State, from: PeerId, k: nat, payload: seq<byte>, now: Time, own: nat)
    requires SessionInv(sha, s, own) && Shape(s) && Receiver.WellFormed(k, payload)
    ensures SessionInv(sha, OnData(sha, s, from, k, payload, now).state, own)
    ensures Stable(s, OnData(sha, s, from, k, payload, now).state)
  {
    var i := IncomingFrom(s.incoming, from);
    if i < |s.incoming| {
      var c := s.heap[s.incoming[i].chunk];
      assert s.incoming[i].chunk in s.missing;
      ReceptionOutcome(sha, c.store, c.hash, k, payload);
      ReceptionKeeps(sha, s, i, Receive(sha, c.store, c.hash, k, payload), now, own);
    }
  }

  lemma OnDeniedKeeps(sha: Digest, s: State, from: PeerId, own: nat)
    requires SessionInv(sha, s, own)
    ensures SessionInv(sha, OnDenied(s, from), own) && Stable(s, OnDenied(s, from))
  {
    var i := IncomingFrom(s.incoming, from);
    if i < |s.incoming| {
      DeleteIncomingKeeps(s.incoming, s.missing, i, s.missing);
    }
  }

  // ----- Discovery and timers -----

  lemma {:induction false} NoteAllPeers(heap: seq<ChunkRec>, missing: seq<Ref>, hashes: seq<seq<byte>>, from: PeerId)
    requires RefsIn(missing, heap)
    ensures PeersDiffer(heap, NoteAll(heap, missing, hashes, from))
    decreases |hashes|
  {
    if hashes != [] {
      NoteAllPeers(Note(heap, missing, hashes[0], from), missing, hashes[1..], from);
    }
  }

  lemma OnIHaveKeeps(sha: Digest, s: State, from: PeerId, hashes: seq<seq<byte>>, now: Time, own: nat)
    requires SessionInv(sha, s, own) && Shape(s)
    ensures SessionInv(sha, OnIHave(s, from, hashes, now).state, own) && Stable(s, OnIHave(s, from, hashes, now).state)
  {
    if from in s.available {
      NoteAllPeers(s.heap, s.missing, hashes, from);
      var s1 := s.(heap := NoteAll(s.heap, s.missing, hashes, from));
      PeersKeepInv(sha, s, s1.heap, own);
      GetChunkDataKeeps(sha, s1, s1.missing, now, own);
      StableTransitive(s, s1, OnIHave(s, from, hashes, now).state);
    }
  }

  lemma DiedKeeps(sha: Digest, s: State, i: nat, own: nat)
    requires SessionInv(sha, s, own) && Shape(s) && i < |s.incoming|
    ensures SessionInv(sha, Died(s, i), own) && Stable(s, Died(s, i))
  {
    var t := Died(s, i);
    assert PeersDiffer(s.heap, t.heap);
    PeersKeepInv(sha, s, t.heap, own);
    DeleteIncomingKeeps(s.incoming, s.missing, i, s.missing);
  }

  lemma AskAgainKeeps(sha: Digest, s: State, i: nat, now: Time, own: nat)
    requires SessionInv(sha, s, own) && Shape(s) && i < |s.incoming|
    ensures SessionInv(sha, AskAgain(s, i, now).state, own) && Stable(s, AskAgain(s, i, now).state)
  {
  }

  lemma {:induction false} SweepIncomingPeersOnly(s: State, i: nat, now: Time)
    requires Shape(s) && i <= |s.incoming|
    ensures PeersDiffer(s.heap, SweepIncoming(s, i, now).state.heap)
    decreases |s.incoming| - i
  {
    if i < |s.incoming| {
      if !HasTimedOut(s.incoming[i].timestamp, now) {
        SweepIncomingPeersOnly(s, i + 1, now);
      } else if s.incoming[i].timeoutCount + 1 >= MAX_TO_COUNTS {
        SweepIncomingPeersOnly(Died(s, i), i, now);
      } else {
        SweepIncomingPeersOnly(AskAgain(s, i, now).state, i + 1, now);
      }
    }
  }

  lemma {:induction false} SweepIncomingInv(sha: Digest, s: State, i: nat, now: Time, own: nat)
    requires SessionInv(sha, s, own) && Shape(s) && i <= |s.incoming|
    ensures SessionInv(sha, SweepIncoming(s, i, now).state, own)
    decreases |s.incoming| - i
  {
    if i < |s.incoming| {
      if !HasTimedOut(s.incoming[i].timestamp, now) {
        SweepIncomingInv(sha, s, i + 1, now, own);
      } else if s.incoming[i].timeoutCount + 1 >= MAX_TO_COUNTS {
        DiedKeeps(sha, s, i, own);
        SweepIncomingInv(sha, Died(s, i), i, now, own);
      } else {
        AskAgainKeeps(sha, s, i, now, own);
        SweepIncomingInv(sha, AskAgain(s, i, now).state, i + 1, now, own);
      }
    }
  }

  lemma SweepIncomingKeeps(sha: Digest, s: State, i: nat, now: Time, own: nat)
    requires SessionInv(sha, s, own) && Shape(s) && i <= |s.incoming|
    ensures SessionInv(sha, SweepIncoming(s, i, now).state, own) && Stable(s, SweepIncoming(s, i, now).state)
  {
    SweepIncomingInv(sha, s, i, now, own);
    SweepIncomingPeersOnly(s, i, now);
  }

  lemma OnClientTimerKeeps(sha: Digest, s: State, now: Time, own: nat)
    requires SessionInv(sha, s, own) && Shape(s)
    ensures SessionInv(sha, OnClientTimer(s, now).state, own) && Stable(s, OnClientTimer(s, now).state)
  {
    if s.missing != [] {
      SweepIncomingKeeps(sha, s, 0, now, own);
      var swept := SweepIncoming(s, 0, now).state;
      GetChunkDataKeeps(sha, swept, swept.missing, now, own);
      StableTransitive(s, swept, OnClientTimer(s, now).state);
    }
  }

  // ----- The user's GET -----

  /** A wanted chunk that the peer already has only gets a new position in the file. */
  lemma WantOwnedKeeps(sha: Digest, s: State, e: Entry, r: Ref, own: nat)
    requires SessionInv(sha, s, own) && r in s.have && r < |s.heap|
    ensures var t := s.(heap := s.heap[r := s.heap[r].(id := e.id)], wanted := [r] + s.wanted);
            SessionInv(sha, t, own) && Stable(s, t)
  {
    var t := s.(heap := s.heap[r := s.heap[r].(id := e.id)], wanted := [r] + s.wanted);
    forall q | 0 <= q < |t.heap| ensures Named(t.heap[q]) { assert Named(s.heap[q]); }
    forall q | q in s.have ensures Trusted(sha, t.heap, own, q) { assert Trusted(sha, s.heap, own, q); }
  }

  /** A hash that no chunk in a list has in hexadecimal, none of them has in binary. */
  lemma FreshHash(heap: seq<ChunkRec>, hex: seq<byte>, r: Ref)
    requires IsHash(hex) && r < |heap| && Named(heap[r]) && heap[r].hex != hex
    ensures heap[r].hash != HexToBinary(hex)
  {
    LookupsAgree(heap[r].hex, hex);
  }

  function NewChunk(e: Entry): ChunkRec
    requires IsHash(e.hex)
  {
    ChunkRec(e.id, e.hex, HexToBinary(e.hex), EmptyStore(), [])
  }

  function WithMissing(s: State, c: ChunkRec): State {
    s.(heap := s.heap + [c], missing := [|s.heap|] + s.missing, wanted := [|s.heap|] + s.wanted)
  }

  /** Adding an empty chunk whose hash is new. */
  lemma AddMissingKeeps(sha: Digest, s: State, c: ChunkRec, own: nat)
    requires SessionInv(sha, s, own) && Shape(s)
    requires Named(c) && StoreInv(c.store) && c.store.count < MAX_SEQ_NUM
    requires forall r: Ref :: Listed(r, s.have, s.missing) && r < |s.heap| ==> s.heap[r].hash != c.hash
    ensures SessionInv(sha, WithMissing(s, c), own) && Stable(s, WithMissing(s, c))
  {
    var n, t := |s.heap|, WithMissing(s, c);
    forall q | 0 <= q < |t.heap| ensures Named(t.heap[q]) {
      if q < n { assert Named(s.heap[q]); }
    }
    forall q | q in s.have ensures Trusted(sha, t.heap, own, q) { assert Trusted(sha, s.heap, own, q); }
    forall q: Ref ensures Listed(q, t.have, t.missing) <==> q == n || Listed(q, s.have, s.missing) { }
  }

  /** A wanted chunk that the peer does not have becomes a new missing chunk. */
  lemma WantMissingKeeps(sha: Digest, s: State, e: Entry, own: nat)
    requires SessionInv(sha, s, own) && Shape(s) && IsHash(e.hex)
    requires forall r: Ref :: Listed(r, s.have, s.missing) && r < |s.heap| ==> s.heap[r].hex != e.hex
    ensures SessionInv(sha, WithMissing(s, NewChunk(e)), own) && Stable(s, WithMissing(s, NewChunk(e)))
  {
    CountBitsNone(EmptyStore().bits);
    forall q: Ref | Listed(q, s.have, s.missing) && q < |s.heap| ensures s.heap[q].hash != NewChunk(e).hash {
      assert Named(s.heap[q]);
      FreshHash(s.heap, e.hex, q);
    }
    AddMissingKeeps(sha, s, NewChunk(e), own);
  }

  /** The chunk file names no chunk twice, and none that is already being fetched. */
  ghost predicate NewEntries(s: State, entries: seq<Entry>) {
    && (forall e :: e in entries ==> IsHash(e.hex))
    && (forall i, j :: 0 <= i < j < |entries| ==> entries[i].hex != entries[j].hex)
    && (forall r, i :: r in s.missing && r < |s.heap| && 0 <= i < |entries| ==> s.heap[r].hex != entries[i].hex)
  }

  lemma WantOneKeeps(sha: Digest, s: State, entries: seq<Entry>, own: nat)
    requires SessionInv(sha, s, own) && Shape(s) && entries != [] && NewEntries(s, entries)
    ensures var t := WantOne(s, entries[0]);
            SessionInv(sha, t, own) && Stable(s, t) && NewEntries(t, entries[1..])
  {
    var e := entries[0];
    assert e in entries;
    match FindHex(s.heap, s.have, e.hex)
    case Some(r) => WantOwnedKeeps(sha, s, e, r, own);
    case None =>
      forall r: Ref | Listed(r, s.have, s.missing) && r < |s.heap| ensures s.heap[r].hex != e.hex {
        if r in s.have {
          var i :| 0 <= i < |s.have| && s.have[i] == r;
        }
      }
      WantMissingKeeps(sha, s, e, own);
  }

  lemma {:induction false} WantKeeps(sha: Digest, s: State, entries: seq<Entry>, own: nat)
    requires SessionInv(sha, s, own) && Shape(s) && NewEntries(s, entries)
    ensures SessionInv(sha, Want(s, entries), own) && Stable(s, Want(s, entries))
    decreases |entries|
  {
    if entries != [] {
      WantOneKeeps(sha, s, entries, own);
      var t := WantOne(s, entries[0]);
      InvShape(sha, t, own);
      WantKeeps(sha, t, entries[1..], own);
      StableTransitive(s, t, Want(s, entries));
    }
  }

  lemma OnUserGetKeeps(sha: Digest, s: State, entries: seq<Entry>, own: nat)
    requires SessionInv(sha, s, own) && Shape(s) && NewEntries(s, entries)
    ensures SessionInv(sha, OnUserGet(s, entries).state, own) && Stable(s, OnUserGet(s, entries).state)
  {
    WantKeeps(sha, s, entries, own);
    var t := Want(s, entries);
    CheckAllReceivedKeeps(sha, t, own);
    StableTransitive(s, t, CheckAllReceived(t));
  }

  // ----- Server steps -----

  lemma OnGetKeeps(sha: Digest, s: State, from: PeerId, hash: seq<byte>, maxConn: nat, now: Time, own: nat)
    requires SessionInv(sha, s, own) && Shape(s)
    ensures SessionInv(sha, OnGet(s, from, hash, maxConn, now).state, own) && Stable(s, OnGet(s, from, hash, maxConn, now).state)
  {
    StartInv(now);
  }

  lemma OnAckKeeps(sha: Digest, s: State, from: PeerId, num: nat, now: Time, own: nat)
    requires SessionInv(sha, s, own) && Shape(s) && num <= MAX_SEQ_NUM
    ensures SessionInv(sha, OnAck(s, from, num, now).state, own) && Stable(s, OnAck(s, from, num, now).state)
  {
    var i := OutgoingTo(s.outgoing, from);
    if i < |s.outgoing| {
      AckSendsInRange(s.outgoing[i].sender, num, now);
      DeleteOutgoingKeeps(s.outgoing, s.have, i);
    }
  }

  lemma DeleteOutgoingKeeps(outgoing: seq<Outgoing>, have: seq<Ref>, i: nat)
    requires OutgoingInv(outgoing, have) && i < |outgoing|
    ensures OutgoingInv(RemoveAt(outgoing, i), have)
  {
    var rest := RemoveAt(outgoing, i);
    forall j | 0 <= j < |rest| ensures rest[j].chunk in have && CountersInRange(rest[j].sender) {
      assert rest[j] == outgoing[if j < i then j else j + 1];
    }
  }

  lemma {:induction false} SweepOutgoingKeeps(sha: Digest, s: State, i: nat, now: Time, own: nat)
    requires SessionInv(sha, s, own) && Shape(s) && i <= |s.outgoing|
    ensures SessionInv(sha, SweepOutgoing(s, i, now), own) && Stable(s, SweepOutgoing(s, i, now))
    decreases |s.outgoing| - i
  {
    if i < |s.outgoing| {
      match ReceiveTimer(s.outgoing[i].sender, now).next
      case None =>
        DeleteOutgoingKeeps(s.outgoing, s.have, i);
        SweepOutgoingKeeps(sha, DeleteOutgoing(s, i), i, now, own);
      case Some(x) =>
        SweepOutgoingKeeps(sha, s.(outgoing := s.outgoing[i := s.outgoing[i].(sender := x)]), i + 1, now, own);
    }
  }
}
