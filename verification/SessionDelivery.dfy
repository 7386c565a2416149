/** What the user gets: from a GET to the output file (code/peer.c, code/bt_client.c). */
module SessionDelivery {
  import opened Common
  import opened ChunkLayout
  import opened Congestion
  import opened Receiver
  import opened HexCodec
  import opened Session
  import opened SessionSafety
  import opened SessionRuns

  // ----- What steps other than a GET do to the request -----

  /** Chunks keep their names and their places in the file. */
  ghost predicate SameNames(heap: seq<ChunkRec>, heap': seq<ChunkRec>) {
    && |heap'| == |heap|
    && forall r :: 0 <= r < |heap| ==> heap'[r].id == heap[r].id && heap'[r].hex == heap[r].hex && heap'[r].hash == heap[r].hash
  }

  ghost predicate Waits(s: State, t: State) {
    t.wanted == s.wanted && t.written == s.written && (t.missing == [] <==> s.missing == [])
  }

  /** The last missing chunk has come, and all wanted chunks are written. */
  ghost predicate Completes(s: State, t: State)
    requires RefsIn(s.wanted, t.heap)
  {
    s.missing != [] && t.missing == [] && t.wanted == [] && t.written == s.written + Writes(t, s.wanted)
  }

  ghost predicate Advances(s: State, t: State) {
    SameNames(s.heap, t.heap) && (Waits(s, t) || (RefsIn(s.wanted, t.heap) && Completes(s, t)))
  }

  lemma ConcludedAdvances(s: State, i: nat, valid: bool, now: Time)
    requires Shape(s) && i < |s.incoming| && s.missing != []
    ensures Advances(s, Concluded(s, i, valid, now).state)
  {
    if valid {
      var t := Received(s, s.incoming[i].chunk);
      assert t.missing == [] ==> Writes(CheckAllReceived(t), s.wanted) == Writes(t, t.wanted);
    }
  }

  /** A change to the contents of a chunk and to transfers, before a step goes on. */
  lemma AdvancesAfter(s: State, s1: State, t: State)
    requires Advances(s1, t) && SameNames(s.heap, s1.heap)
    requires s1.wanted == s.wanted && s1.written == s.written && s1.missing == s.missing
    ensures Advances(s, t)
  {
  }

  lemma OnDataAdvances(sha: Digest, s: State, from: PeerId, k: nat, payload: seq<byte>, now: Time)
    requires Shape(s) && IncomingInv(s.incoming, s.missing) && Receiver.WellFormed(k, payload)
    ensures Advances(s, OnData(sha, s, from, k, payload, now).state)
  {
    var i := IncomingFrom(s.incoming, from);
    if i < |s.incoming| {
      assert s.incoming[i].chunk in s.missing;
      var c := s.heap[s.incoming[i].chunk];
      ReceptionAdvances(s, i, Receive(sha, c.store, c.hash, k, payload), now);
    }
  }

  lemma ReceptionAdvances(s: State, i: nat, r: Reception, now: Time)
    requires Shape(s) && i < |s.incoming| && s.missing != []
    ensures var s1 := Stored(s, i, r.store, now);
            Advances(s, if r.verdict == Pending then s1 else Concluded(s1, i, r.verdict == Valid, now).state)
  {
    var s1 := Stored(s, i, r.store, now);
    if r.verdict != Pending {
      ConcludedAdvances(s1, i, r.verdict == Valid, now);
      AdvancesAfter(s, s1, Concluded(s1, i, r.verdict == Valid, now).state);
    }
  }

  lemma OnGetAdvances(s: State, from: PeerId, hash: seq<byte>, maxConn: nat, now: Time)
    requires Shape(s)
    ensures Advances(s, OnGet(s, from, hash, maxConn, now).state)
  {
  }

  lemma OnAckAdvances(s: State, from: PeerId, num: nat, now: Time)
    requires Shape(s) && num <= MAX_SEQ_NUM
    ensures Advances(s, OnAck(s, from, num, now).state)
  {
  }

  lemma TimerAdvances(s: State, now: Time)
    requires Shape(s)
    ensures Advances(s, OnClientTimer(SweepOutgoing(s, 0, now), now).state)
  {
    SweepIncomingPeersOnly(SweepOutgoing(s, 0, now), 0, now);
  }

  lemma StepAdvances(sha: Digest, maxConn: nat, s: State, e: SessionRuns.Event, own: nat)
    requires SessionInv(sha, s, own) && Shape(s) && Acceptable(s, e) && !e.UserGet?
    ensures Advances(s, SessionRuns.Step(sha, maxConn, s, e).state)
  {
    match e
    case TimerFires(at) => TimerAdvances(s, at);
    case Arrives(from, message, at) =>
      if from in s.available {
        match message
        case IHave(hashes) => NoteAllPeers(s.heap, s.missing, hashes, from);
        case Get(hash) => OnGetAdvances(s, from, hash, maxConn, at);
        case Ack(num) => OnAckAdvances(s, from, num, at);
        case Data(packet) => OnDataAdvances(sha, s, from, packet.num, packet.payload, at);
        case _ =>
      }
  }

  // ----- The request -----

  /** The wanted list holds the chunks of the entries, the last one first. Those the peer had when
      the user asked are the same structures; the others are new. */
  ghost predicate Tracks(origin: State, heap: seq<ChunkRec>, wanted: seq<Ref>, entries: seq<Entry>) {
    && |wanted| == |entries| && RefsIn(wanted, heap)
    && forall i :: 0 <= i < |entries| ==> TracksOne(origin, heap, wanted[|entries| - 1 - i], entries[i])
  }

  ghost predicate TracksOne(origin: State, heap: seq<ChunkRec>, r: Ref, e: Entry) {
    && r < |heap| && heap[r].id == e.id && heap[r].hex == e.hex
    && ((r in origin.have && r < |origin.heap| && origin.heap[r].hex == e.hex) || |origin.heap| <= r)
  }

  lemma WantOneTracks(origin: State, s: State, done: seq<Entry>, e: Entry)
    requires Shape(origin) && Shape(s) && IsHash(e.hex) && Tracks(origin, s.heap, s.wanted, done)
    requires forall i :: 0 <= i < |done| ==> done[i].hex != e.hex
    requires Grown(origin, s)
    ensures Tracks(origin, WantOne(s, e).heap, WantOne(s, e).wanted, done + [e])
    ensures Grown(origin, WantOne(s, e))
  {
    var t, n := WantOne(s, e), |done|;
    assert t.wanted[1..] == s.wanted;
    forall i | 0 <= i <= n ensures TracksOne(origin, t.heap, t.wanted[n - i], (done + [e])[i]) {
      if i < n {
        assert TracksOne(origin, s.heap, s.wanted[n - 1 - i], done[i]);
      }
    }
  }

  /** While the lists are built, `have` stays and its chunks keep their names. */
  ghost predicate Grown(origin: State, s: State) {
    && s.have == origin.have && |origin.heap| <= |s.heap|
    && forall r :: 0 <= r < |origin.heap| ==> s.heap[r].hex == origin.heap[r].hex
  }

  /** Building the lists, with k entries done. */
  lemma {:induction false} WantTracks(origin: State, s: State, entries: seq<Entry>, k: nat)
    requires Shape(origin) && Shape(s) && Grown(origin, s)
    requires k <= |entries| && Tracks(origin, s.heap, s.wanted, entries[..k])
    requires forall e :: e in entries ==> IsHash(e.hex)
    requires forall i, j :: 0 <= i < j < |entries| ==> entries[i].hex != entries[j].hex
    ensures Tracks(origin, Want(s, entries[k..]).heap, Want(s, entries[k..]).wanted, entries)
    decreases |entries| - k
  {
    if k == |entries| {
      assert entries[..k] == entries;
    } else {
      var e := entries[k];
      assert e in entries;
      WantOneTracks(origin, s, entries[..k], e);
      assert entries[..k] + [e] == entries[..k + 1];
      WantTracks(origin, WantOne(s, e), entries, k + 1);
      assert entries[k..][0] == e && entries[k..][1..] == entries[k + 1..];
    }
  }

  // ----- The file -----

  /** The bytes at the place of an entry are those of a chunk with that hash that the peer had when
      the user asked, or they have the right digest. */
  ghost predicate EntryWritten(sha: Digest, origin: State, w: Write, e: Entry) {
    && w.offset == e.id * BT_CHUNK_SIZE
    && (|| (w.chunk in origin.have && w.chunk < |origin.heap| && origin.heap[w.chunk].hex == e.hex &&
            w.bytes == origin.heap[w.chunk].store.data)
        || (IsHash(e.hex) && sha(w.bytes) == HexToBinary(e.hex)))
  }

  ghost predicate FileWritten(sha: Digest, origin: State, writes: seq<Write>, entries: seq<Entry>) {
    && |writes| == |entries|
    && forall i :: 0 <= i < |entries| ==> EntryWritten(sha, origin, writes[|entries| - 1 - i], entries[i])
  }

  lemma WritesTheFile(sha: Digest, origin: State, t: State, wanted: seq<Ref>, entries: seq<Entry>, own: nat)
    requires SessionInv(sha, t, own) && Stable(origin, t) && own <= |origin.heap|
    requires Tracks(origin, t.heap, wanted, entries)
    requires forall w :: w in Writes(t, wanted) ==> w in t.written
    ensures FileWritten(sha, origin, Writes(t, wanted), entries)
  {
    var writes := Writes(t, wanted);
    forall i | 0 <= i < |entries| ensures EntryWritten(sha, origin, writes[|entries| - 1 - i], entries[i]) {
      var w := writes[|entries| - 1 - i];
      assert w in writes;
      assert TracksOne(origin, t.heap, w.chunk, entries[i]);
      assert Named(t.heap[w.chunk]);
    }
  }

  // ----- The whole download -----

  /** While chunks are missing nothing has been written; when none is, the whole file has. */
  ghost predicate Download(sha: Digest, origin: State, entries: seq<Entry>, t: State) {
    if t.missing != [] then
      Tracks(origin, t.heap, t.wanted, entries) && t.written == origin.written
    else
      t.wanted == [] && exists writes :: t.written == origin.written + writes && FileWritten(sha, origin, writes, entries)
  }

  lemma StepDownloads(sha: Digest, origin: State, entries: seq<Entry>, s: State, t: State, own: nat)
    requires Download(sha, origin, entries, s) && Advances(s, t)
    requires SessionInv(sha, t, own) && Stable(origin, t) && own <= |origin.heap|
    ensures Download(sha, origin, entries, t)
  {
    if s.missing != [] {
      TracksLater(origin, s.heap, t.heap, s.wanted, entries);
      if t.missing == [] {
        WritesTheFile(sha, origin, t, s.wanted, entries, own);
      }
    }
  }

  lemma TracksLater(origin: State, heap: seq<ChunkRec>, heap': seq<ChunkRec>, wanted: seq<Ref>, entries: seq<Entry>)
    requires Tracks(origin, heap, wanted, entries) && SameNames(heap, heap')
    ensures Tracks(origin, heap', wanted, entries)
  {
    forall i | 0 <= i < |entries| ensures TracksOne(origin, heap', wanted[|entries| - 1 - i], entries[i]) {
      assert TracksOne(origin, heap, wanted[|entries| - 1 - i], entries[i]);
    }
  }

  lemma GetStartsDownload(sha: Digest, maxConn: nat, s: State, entries: seq<Entry>, at: Time, own: nat)
    requires SessionInv(sha, s, own) && Shape(s) && Acceptable(s, UserGet(entries, at))
    ensures Download(sha, s, entries, SessionRuns.Step(sha, maxConn, s, UserGet(entries, at)).state)
  {
    StepKeeps(sha, maxConn, s, UserGet(entries, at), own);
    assert entries[0..] == entries;
    WantTracks(s, s, entries, 0);
    var t := SessionRuns.Step(sha, maxConn, s, UserGet(entries, at)).state;
    if t.missing == [] {
      var lists := Want(s, entries);
      assert Writes(lists, lists.wanted) == Writes(t, lists.wanted);
      WritesTheFile(sha, s, t, lists.wanted, entries, own);
    }
  }

  lemma {:induction false} DownloadGoesOn(sha: Digest, maxConn: nat, origin: State, entries: seq<Entry>, s: State, events: seq<SessionRuns.Event>, own: nat)
    requires SessionInv(sha, s, own) && Shape(s) && Stable(origin, s) && own <= |origin.heap|
    requires Download(sha, origin, entries, s) && Run(sha, maxConn, s, events).Some?
    requires forall e :: e in events ==> !e.UserGet?
    ensures Download(sha, origin, entries, Run(sha, maxConn, s, events).value)
    decreases |events|
  {
    if events != [] {
      assert events[0] in events;
      var t := SessionRuns.Step(sha, maxConn, s, events[0]).state;
      StepKeeps(sha, maxConn, s, events[0], own);
      StableTransitive(origin, s, t);
      StepAdvances(sha, maxConn, s, events[0], own);
      StepDownloads(sha, origin, entries, s, t, own);
      DownloadGoesOn(sha, maxConn, origin, entries, t, events[1..], own);
    }
  }

  /** After a GET, whatever packets with whatever payloads arrive: as long as a chunk is missing
      nothing is written, and when none is missing the file has been written once, every entry of the
      chunk file at its own place, with bytes of the right digest or of a chunk the peer had. */
  lemma WholeFile(sha: Digest, maxConn: nat, s: State, entries: seq<Entry>, at: Time, events: seq<SessionRuns.Event>, own: nat)
    requires SessionInv(sha, s, own) && Shape(s) && Acceptable(s, UserGet(entries, at))
    requires forall e :: e in events ==> !e.UserGet?
    requires Run(sha, maxConn, SessionRuns.Step(sha, maxConn, s, UserGet(entries, at)).state, events).Some?
    ensures var t := Run(sha, maxConn, SessionRuns.Step(sha, maxConn, s, UserGet(entries, at)).state, events).value;
            if t.missing != [] then t.written == s.written
            else exists writes :: t.written == s.written + writes && FileWritten(sha, s, writes, entries)
  {
    StepKeeps(sha, maxConn, s, UserGet(entries, at), own);
    GetStartsDownload(sha, maxConn, s, entries, at, own);
    DownloadGoesOn(sha, maxConn, s, entries, SessionRuns.Step(sha, maxConn, s, UserGet(entries, at)).state, events, own);
  }
}
