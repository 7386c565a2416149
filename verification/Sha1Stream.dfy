/** The streaming SHA-1 of code/sha.c, in every configuration of its compile-time options. */
module Sha1Stream {
  import opened Common
  import opened Fips180

  const ULONG_LONG: nat := 0x1_0000_0000_0000_0000

  type uint64 = n: nat | n < ULONG_LONG

  // ----- Macros -----

  function Rotr8(x: word): word { (x >> 8) | (x << 24) }

  function Rotl8(x: word): word { (x << 8) | (x >> 24) }

  function MacroF0(x: word, y: word, z: word): word { z ^ (x & (y ^ z)) }

  function MacroF20(x: word, y: word, z: word): word { x ^ y ^ z }

  function MacroF40(x: word, y: word, z: word): word { (x & (y | z)) | (y & z) }

  lemma ChooseForms(x: word, y: word, z: word)
    ensures z ^ (x & (y ^ z)) == (x & y) ^ (!x & z)
  {
  }

  lemma MajorityForms(x: word, y: word, z: word)
    ensures (x & (y | z)) | (y & z) == (x & y) ^ (x & z) ^ (y & z)
  {
  }

  /** The XOR and OR forms of the macros are Ch and Maj. */
  lemma MacrosAreFips(x: word, y: word, z: word)
    ensures MacroF0(x, y, z) == Ch(x, y, z)
    ensures MacroF40(x, y, z) == Maj(x, y, z)
  {
    ChooseForms(x, y, z);
    MajorityForms(x, y, z);
  }

  /** The sum of a DO_ROUND, in the order the macro adds. */
  function MacroSum(r: word, f: word, e: word, w: word, k: word): word { r + f + e + w + k }

  lemma SumInAnyOrder(r: word, f: word, e: word, w: word, k: word)
    ensures MacroSum(r, f, e, w, k) == Sum(r, f, e, k, w)
  {
  }

  /** One DO_ROUND, given the value of its round function and its constant. */
  function DoRound(v: Hash, f: word, k: word, w: word): Hash {
    Hash(MacroSum(Rotl5(v.a), f, v.e, w, k), v.a, Rotl30(v.b), v.c, v.d)
  }

  lemma DoRoundIsRound(v: Hash, t: nat, f: word, w: word)
    requires f == F(t, v.b, v.c, v.d)
    ensures DoRound(v, f, K(t), w) == Round(v, t, w)
  {
    SumInAnyOrder(Rotl5(v.a), f, v.e, w, K(t));
  }

  function ByteSwap(x: word): word {
    (Rotr8(x) & 0xff00ff00) | (Rotl8(x) & 0x00ff00ff)
  }

  function ByteSwap64(x: bv64): bv64 {
    var a := ((x >> 32) & 0xffff_ffff) as word;
    var b := (x & 0xffff_ffff) as word;
    ((ByteSwap(b) as bv64) << 32) | (ByteSwap(a) as bv64)
  }

  // ----- Memory of the machine -----

  /** The word the machine reads from four consecutive bytes. */
  function Load(littleEndian: bool, b0: byte, b1: byte, b2: byte, b3: byte): word {
    if littleEndian then BigEndian(b3, b2, b1, b0) else BigEndian(b0, b1, b2, b3)
  }

  /** The four bytes the machine writes for a word. */
  function Store(littleEndian: bool, x: word): (s: seq<byte>)
    ensures |s| == 4
  {
    var s := WordBytes(x);
    if littleEndian then [s[3], s[2], s[1], s[0]] else s
  }

  function Store64(littleEndian: bool, x: bv64): (s: seq<byte>)
    ensures |s| == 8
  {
    var s := BigEndian64(x);
    if littleEndian then [s[7], s[6], s[5], s[4], s[3], s[2], s[1], s[0]] else s
  }

  function Swapped(littleEndian: bool, x: word): word {
    if littleEndian then ByteSwap(x) else x
  }

  function Swapped64(littleEndian: bool, x: bv64): bv64 {
    if littleEndian then ByteSwap64(x) else x
  }

  lemma SwappedLoad(littleEndian: bool, b0: byte, b1: byte, b2: byte, b3: byte)
    ensures Swapped(littleEndian, Load(littleEndian, b0, b1, b2, b3)) == BigEndian(b0, b1, b2, b3)
  {
  }

  lemma StoreSwapped(littleEndian: bool, x: word)
    ensures Store(littleEndian, Swapped(littleEndian, x)) == WordBytes(x)
  {
  }

  lemma StoreSwapped64(littleEndian: bool, x: bv64)
    ensures Store64(littleEndian, Swapped64(littleEndian, x)) == BigEndian64(x)
  {
  }

  // ----- SHA1Guts -----

  /** Word t of a finished schedule satisfies its clause of the recurrence. */
  ghost predicate Follows(s: seq<word>, block: Block, t: nat)
    requires t < |s|
  {
    if t < 16 then s[t] == BigEndian(block[4 * t], block[4 * t + 1], block[4 * t + 2], block[4 * t + 3])
    else s[t] == Rotl1(Xor(s[t - 3], s[t - 8], s[t - 14], s[t - 16]))
  }

  ghost predicate IsSchedule(s: seq<word>, block: Block) {
    |s| == 80 && forall t: nat :: t < 80 ==> Follows(s, block, t)
  }

  lemma ScheduleIsSchedule(block: Block)
    ensures IsSchedule(Schedule(block), block)
  {
  }

  /** The 80-word schedule: 16 words swapped out of memory, the rest through four moving pointers. */
  method Expand(littleEndian: bool, cbuf: Block, ghost s: seq<word>) returns (buf: array<word>)
    requires IsSchedule(s, cbuf)
    ensures fresh(buf) && buf[..] == s
  {
    buf := new word[80];
    var w := 0;
    while w < 16
      invariant 0 <= w <= 16
      invariant forall t :: 0 <= t < w ==> buf[t] == s[t]
    {
      assert Follows(s, cbuf, w);
      buf[w] := Swapped(littleEndian, Load(littleEndian, cbuf[4 * w], cbuf[4 * w + 1], cbuf[4 * w + 2], cbuf[4 * w + 3]));
      SwappedLoad(littleEndian, cbuf[4 * w], cbuf[4 * w + 1], cbuf[4 * w + 2], cbuf[4 * w + 3]);
      w := w + 1;
    }
    var w16, w14, w8, w3 := 0, 2, 8, 13;
    while w < 80
      invariant 16 <= w <= 80
      invariant w16 == w - 16 && w14 == w - 14 && w8 == w - 8 && w3 == w - 3
      invariant forall t :: 0 <= t < w ==> buf[t] == s[t]
    {
      assert Follows(s, cbuf, w);
      buf[w] := Xor(buf[w3], buf[w8], buf[w14], buf[w16]);
      buf[w] := Rotl1(buf[w]);
      w, w3, w8, w14, w16 := w + 1, w3 + 1, w8 + 1, w14 + 1, w16 + 1;
    }
  }

  const K_0_19: word := 0x5a827999
  const K_20_39: word := 0x6ed9eba1
  const K_40_59: word := 0x8f1bbcdc
  const K_60_79: word := 0xca62c1d6

  /** The constant that the program passes to the rounds of each group. */
  function MacroK(t: nat): word {
    if t < 20 then K_0_19 else if t < 40 then K_20_39 else if t < 60 then K_40_59 else K_60_79
  }

  /** The value of the round macro F_0_19, F_20_39, F_40_59 or F_60_79. */
  function MacroF(t: nat, x: word, y: word, z: word): word {
    if t < 20 then MacroF0(x, y, z) else if t < 40 then MacroF20(x, y, z)
    else if t < 60 then MacroF40(x, y, z) else MacroF20(x, y, z)
  }

  lemma MacroFIsF(t: nat, x: word, y: word, z: word)
    ensures MacroF(t, x, y, z) == F(t, x, y, z)
  {
    MacrosAreFips(x, y, z);
  }

  function MacroRound(v: Hash, t: nat, w: word): Hash {
    DoRound(v, MacroF(t, v.b, v.c, v.d), MacroK(t), w)
  }

  lemma MacroKIsK(t: nat)
    ensures MacroK(t) == K(t)
  {
  }

  lemma MacroRoundIsRound(v: Hash, t: nat, w: word)
    ensures MacroRound(v, t, w) == Round(v, t, w)
  {
    MacroFIsF(t, v.b, v.c, v.d);
    MacroKIsK(t);
    DoRoundIsRound(v, t, MacroF(t, v.b, v.c, v.d), w);
  }

  /** The values SHA1_UNROLL may have. */
  predicate ValidUnroll(u: nat) { u == 1 || u == 2 || u == 4 || u == 5 || u == 10 || u == 20 }

  /** The working variables before each round and after the last one. */
  ghost function RoundStates(h: Hash, w: seq<word>): (s: seq<Hash>)
    ensures |s| == |w| + 1
  {
    seq(|w| + 1, t requires 0 <= t <= |w| => Rounds(h, w, t))
  }

  ghost predicate RoundAt(s: seq<Hash>, w: seq<word>, t: nat)
    requires |s| == |w| + 1 && t < |w|
  {
    s[t + 1] == Round(s[t], t, w[t])
  }

  lemma RoundStatesStep(h: Hash, w: seq<word>, t: nat)
    requires t < |w|
    ensures RoundAt(RoundStates(h, w), w, t)
  {
  }

  /** A pass of `count` consecutive DO_ROUNDs. */
  method Pass(v: Hash, w: seq<word>, first: nat, count: nat, ghost s: seq<Hash>) returns (r: Hash)
    requires first + count <= |w| && |s| == |w| + 1
    requires forall t: nat :: t < |w| ==> RoundAt(s, w, t)
    requires v == s[first]
    ensures r == s[first + count]
  {
    r := v;
    for t := first to first + count
      invariant r == s[t]
    {
      assert RoundAt(s, w, t);
      MacroRoundIsRound(r, t, w[t]);
      r := MacroRound(r, t, w[t]);
    }
  }

  /** One of the four groups of 20 rounds, as 20 / unroll passes of unroll rounds each. */
  method TwentyRounds(v: Hash, w: seq<word>, first: nat, unroll: nat, ghost s: seq<Hash>) returns (r: Hash)
    requires first + 20 <= |w| && |s| == |w| + 1 && ValidUnroll(unroll)
    requires forall t: nat :: t < |w| ==> RoundAt(s, w, t)
    requires v == s[first]
    ensures r == s[first + 20]
  {
    r := v;
    var t := first;
    var passes := 20 / unroll;
    assert passes * unroll == 20;
    while passes > 0
      invariant 0 <= passes && t + passes * unroll == first + 20
      invariant t <= first + 20
      invariant r == s[t]
    {
      assert t + unroll + (passes - 1) * unroll == first + 20;
      assert 0 <= (passes - 1) * unroll;
      r := Pass(r, w, t, unroll, s);
      t := t + unroll;
      passes := passes - 1;
    }
  }

  method Guts(h: Hash, cbuf: Block, littleEndian: bool, unroll: nat) returns (r: Hash)
    requires ValidUnroll(unroll)
    ensures r == Compress(h, cbuf)
  {
    ghost var w := Schedule(cbuf);
    ScheduleIsSchedule(cbuf);
    var buf := Expand(littleEndian, cbuf, w);
    ghost var s := RoundStates(h, w);
    forall t: nat | t < |w| ensures RoundAt(s, w, t) { RoundStatesStep(h, w, t); }
    r := TwentyRounds(h, buf[..], 0, unroll, s);
    r := TwentyRounds(r, buf[..], 20, unroll, s);
    r := TwentyRounds(r, buf[..], 40, unroll, s);
    r := TwentyRounds(r, buf[..], 60, unroll, s);
    r := Add(h, r);
  }

  // ----- What a context stands for -----

  /** The hash of the whole blocks seen so far, the length in bits, and the bytes still buffered. */
  datatype Context = Context(hash: Hash, total: nat, pending: seq<byte>)

  const Fresh: Context := Context(H0, 0, [])

  /** Hash whole blocks from the front for as long as there are any, and return what is left. */
  function Chop(f: (Hash, Block) -> Hash, h: Hash, s: seq<byte>): (r: (Hash, seq<byte>))
    ensures |r.1| < 64
    decreases |s|
  {
    if |s| < 64 then (h, s) else Chop(f, f(h, s[..64]), s[64..])
  }

  /** Taking in more bytes. */
  function Absorb(f: (Hash, Block) -> Hash, c: Context, data: seq<byte>): Context {
    var (hash, rest) := Chop(f, c.hash, c.pending + data);
    Context(hash, c.total + 8 * |data|, rest)
  }

  lemma {:induction false} ChopAppend(f: (Hash, Block) -> Hash, h: Hash, s: seq<byte>, t: seq<byte>)
    ensures var (h', rest) := Chop(f, h, s); Chop(f, h, s + t) == Chop(f, h', rest + t)
    decreases |s|
  {
    if 64 <= |s| {
      assert (s + t)[..64] == s[..64] && (s + t)[64..] == s[64..] + t;
      ChopAppend(f, f(h, s[..64]), s[64..], t);
    }
  }

  /** A whole number of blocks leaves nothing over. */
  lemma {:induction false} ChopWhole(f: (Hash, Block) -> Hash, h: Hash, s: seq<byte>)
    requires |s| % 64 == 0
    ensures Chop(f, h, s) == (Fold(f, h, s), [])
    decreases |s|
  {
    if s != [] {
      ChopWhole(f, f(h, s[..64]), s[64..]);
    }
  }

  lemma {:induction false} ChopRest(f: (Hash, Block) -> Hash, h: Hash, s: seq<byte>)
    ensures |Chop(f, h, s).1| == |s| % 64
    decreases |s|
  {
    if 64 <= |s| {
      ChopRest(f, f(h, s[..64]), s[64..]);
    }
  }

  /** Taking in two pieces one after the other is taking in their concatenation. */
  lemma AbsorbAppend(f: (Hash, Block) -> Hash, c: Context, a: seq<byte>, b: seq<byte>)
    ensures Absorb(f, Absorb(f, c, a), b) == Absorb(f, c, a + b)
  {
    ChopAppend(f, c.hash, c.pending + a, b);
    assert c.pending + (a + b) == c.pending + a + b;
  }

  /** Bytes that fit in the buffer: they are kept, or complete exactly one block. */
  lemma AbsorbPiece(f: (Hash, Block) -> Hash, c: Context, data: seq<byte>)
    requires |c.pending| + |data| <= 64
    ensures Absorb(f, c, data).total == c.total + 8 * |data|
    ensures |c.pending| + |data| < 64 ==>
              Absorb(f, c, data).hash == c.hash && Absorb(f, c, data).pending == c.pending + data
    ensures |c.pending| + |data| == 64 ==>
              Absorb(f, c, data).hash == f(c.hash, c.pending + data) && Absorb(f, c, data).pending == []
  {
    var all := c.pending + data;
    if |all| == 64 {
      assert all[..64] == all && all[64..] == [];
      assert Chop(f, c.hash, all) == Chop(f, f(c.hash, all), []) == (f(c.hash, all), []);
    }
  }

  /** A count cut to 64 bits. */
  function Wrap(n: nat): uint64 {
    if n < ULONG_LONG then n else Wrap(n - ULONG_LONG)
  }

  /** 64-bit addition. */
  function Add64(x: uint64, y: uint64): uint64 {
    if x + y < ULONG_LONG then x + y else x + y - ULONG_LONG
  }

  lemma {:induction false} WrapSum(n: nat, y: uint64)
    ensures Wrap(n + y) == Add64(Wrap(n), y)
  {
    if ULONG_LONG <= n {
      WrapSum(n - ULONG_LONG, y);
    }
  }

  // ----- Padding -----

  const padding: seq<byte> := [0x80] + Zeros(63)

  /** How many padding bytes SHA1Final feeds for a given fill of the buffer. */
  function BytesToPad(bufferLength: nat): (k: nat)
    requires bufferLength < 64
    ensures 1 <= k <= 64 && (bufferLength + k) % 64 == 56
  {
    if 120 - bufferLength > 64 then 120 - bufferLength - 64 else 120 - bufferLength
  }

  /** The context after SHA1Final has fed the padding and the length. */
  function Closing(f: (Hash, Block) -> Hash, c: Context): Context
    requires |c.pending| < 64
  {
    ClosedWith(f, c, LengthPad(Wrap(c.total)))
  }

  function LengthPad(total: uint64): (s: seq<byte>)
    ensures |s| == 8
  {
    BigEndian64(total as bv64)
  }

  function ClosedWith(f: (Hash, Block) -> Hash, c: Context, lengthPad: seq<byte>): Context
    requires |c.pending| < 64
  {
    Absorb(f, Absorb(f, c, padding[..BytesToPad(|c.pending|)]), lengthPad)
  }

  /** The padding arithmetic agrees with the standard for every message. */
  lemma PadBytes(m: Message)
    ensures m + padding[..BytesToPad(|m| % 64)] + BigEndian64((8 * |m|) as bv64) == Pad(m)
  {
    assert BytesToPad(|m| % 64) == 1 + ZeroCount(|m|);
    assert padding[..1 + ZeroCount(|m|)] == [0x80] + Zeros(ZeroCount(|m|));
    assert m + ([0x80] + Zeros(ZeroCount(|m|))) == m + [0x80] + Zeros(ZeroCount(|m|));
  }

  lemma AbsorbedMessage(f: (Hash, Block) -> Hash, m: Message)
    ensures Absorb(f, Fresh, m).total == 8 * |m|
    ensures |Absorb(f, Fresh, m).pending| == |m| % 64
  {
    assert Fresh.pending + m == m;
    ChopRest(f, H0, m);
  }

  lemma AbsorbedBlocks(f: (Hash, Block) -> Hash, s: seq<byte>)
    requires |s| % 64 == 0
    ensures Absorb(f, Fresh, s).hash == Fold(f, H0, s)
  {
    assert Fresh.pending + s == s;
    ChopWhole(f, H0, s);
  }

  /** Closing a context that has taken in m hashes exactly the padded message. */
  lemma ClosingIsFips(f: (Hash, Block) -> Hash, m: Message)
    ensures |Absorb(f, Fresh, m).pending| < 64
    ensures Closing(f, Absorb(f, Fresh, m)).hash == Fold(f, H0, Pad(m))
  {
    var c := Absorb(f, Fresh, m);
    AbsorbedMessage(f, m);
    var pad := padding[..BytesToPad(|m| % 64)];
    var length := BigEndian64((8 * |m|) as bv64);
    AbsorbAppend(f, Fresh, m, pad);
    AbsorbAppend(f, Fresh, m + pad, length);
    PadBytes(m);
    AbsorbedBlocks(f, Pad(m));
  }

  /** The context after a sequence of updates. */
  function AbsorbAll(f: (Hash, Block) -> Hash, c: Context, pieces: seq<seq<byte>>): Context
    decreases |pieces|
  {
    if pieces == [] then c else AbsorbAll(f, Absorb(f, c, pieces[0]), pieces[1..])
  }

  lemma {:induction false} AbsorbAllIsFlatten(f: (Hash, Block) -> Hash, m: seq<byte>, pieces: seq<seq<byte>>)
    ensures AbsorbAll(f, Absorb(f, Fresh, m), pieces) == Absorb(f, Fresh, m + Flatten(pieces))
    decreases |pieces|
  {
    if pieces == [] {
      assert m + [] == m;
    } else {
      AbsorbAppend(f, Fresh, m, pieces[0]);
      AbsorbAllIsFlatten(f, m + pieces[0], pieces[1..]);
      assert m + pieces[0] + Flatten(pieces[1..]) == m + Flatten(pieces);
    }
  }

  /** Every way of splitting a message over updates gives the digest of FIPS 180-4. */
  lemma StreamingDigest(pieces: seq<seq<byte>>)
    requires |Flatten(pieces)| < 0x2000_0000_0000_0000
    ensures |AbsorbAll(Compress, Fresh, pieces).pending| < 64
    ensures HashBytes(Closing(Compress, AbsorbAll(Compress, Fresh, pieces)).hash) == Sha1(Flatten(pieces))
  {
    assert Absorb(Compress, Fresh, []) == Fresh;
    AbsorbAllIsFlatten(Compress, [], pieces);
    assert [] + Flatten(pieces) == Flatten(pieces);
    ClosingIsFips(Compress, Flatten(pieces));
  }

  // ----- The context object -----

  /** `SHA1Context`, with the compile-time options of code/sha.c as constants. */
  class Sha1Context {
    const littleEndian: bool
    const fastCopy: bool
    const unroll: nat
    var totalLength: uint64
    var hash: Hash
    var bufferLength: nat
    const buffer: array<byte>
    /** The number of bits taken in, before it is cut to the 64 bits of `totalLength`. */
    ghost var bits: nat
    /** A name for Compress, so that proofs about buffering do not look inside it. */
    ghost const compress: (Hash, Block) -> Hash

    ghost predicate Valid()
      reads this, buffer
    {
      && buffer.Length == 64
      && bufferLength < 64
      && totalLength == Wrap(bits)
      && ValidUnroll(unroll)
      && forall h: Hash, b: Block {:trigger Compress(h, b)} :: compress(h, b) == Compress(h, b)
    }

    ghost function View(): Context
      requires Valid()
      reads this, buffer
    {
      Context(hash, bits, buffer[..bufferLength])
    }

    /** `SHA1Init`. */
    constructor (littleEndian: bool, fastCopy: bool, unroll: nat)
      requires ValidUnroll(unroll)
      ensures Valid() && View() == Fresh && compress == Compress && fresh(buffer)
    {
      this.littleEndian, this.fastCopy, this.unroll := littleEndian, fastCopy, unroll;
      totalLength, bits := 0, 0;
      hash := Hash(0x67452301, 0xefcdab89, 0x98badcfe, 0x10325476, 0xc3d2e1f0);
      bufferLength := 0;
      buffer := new byte[64];
      compress := Compress;
    }

    /** Copy bytes behind the buffered ones, and hash the buffer when that fills it. */
    method Top(data: seq<byte>)
      requires Valid() && bufferLength + |data| <= 64
      modifies this`totalLength, this`bits, this`hash, this`bufferLength, buffer
      ensures Valid() && View() == Absorb(compress, old(View()), data)
      ensures bufferLength == if old(bufferLength) + |data| == 64 then 0 else old(bufferLength) + |data|
    {
      AbsorbPiece(compress, View(), data);
      forall i | 0 <= i < |data| {
        buffer[bufferLength + i] := data[i];
      }
      assert buffer[..bufferLength + |data|] == old(buffer[..bufferLength]) + data;
      WrapSum(bits, |data| * 8);
      totalLength, bits := Add64(totalLength, |data| * 8), bits + |data| * 8;
      bufferLength := bufferLength + |data|;
      if bufferLength == 64 {
        assert buffer[..] == buffer[..bufferLength];
        hash := Guts(hash, buffer[..], littleEndian, unroll);
        bufferLength := 0;
      }
    }

    /** One turn of the buffered loop: copy as much as fits. */
    method Gulp(data: seq<byte>, done: nat, ghost c: Context) returns (upto: nat)
      requires Valid() && done < |data| && View() == Absorb(compress, c, data[..done])
      modifies this`totalLength, this`bits, this`hash, this`bufferLength, buffer
      ensures done < upto <= |data|
      ensures Valid() && View() == Absorb(compress, c, data[..upto])
    {
      var bytesToCopy := 64 - bufferLength;
      if bytesToCopy > |data| - done {
        bytesToCopy := |data| - done;
      }
      AbsorbMore(compress, c, data, done, bytesToCopy);
      Top(data[done..done + bytesToCopy]);
      upto := done + bytesToCopy;
    }

    /** `SHA1Update` without SHA1_FAST_COPY: everything goes through the buffer. */
    method UpdateBuffered(data: seq<byte>)
      requires Valid()
      modifies this`totalLength, this`bits, this`hash, this`bufferLength, buffer
      ensures Valid() && View() == Absorb(compress, old(View()), data)
    {
      var done := 0;
      AbsorbNothing(compress, View());
      assert data[..0] == [];
      while done < |data|
        invariant done <= |data|
        invariant Valid() && View() == Absorb(compress, old(View()), data[..done])
      {
        done := Gulp(data, done, old(View()));
      }
      assert data[..done] == data;
    }

    /** Hash one whole block where it lies, with nothing buffered. */
    method HashInPlace(block: Block)
      requires Valid() && bufferLength == 0
      modifies this`totalLength, this`bits, this`hash
      ensures Valid() && bufferLength == 0 && View() == Absorb(compress, old(View()), block)
    {
      AbsorbPiece(compress, View(), block);
      assert View().pending + block == block;
      WrapSum(bits, 512);
      totalLength, bits := Add64(totalLength, 512), bits + 512;
      hash := Guts(hash, block, littleEndian, unroll);
    }

    /** The first step of the fast form: complete a partly filled buffer. */
    method TopUp(data: seq<byte>) returns (done: nat)
      requires Valid()
      modifies this`totalLength, this`bits, this`hash, this`bufferLength, buffer
      ensures done <= |data| && (bufferLength == 0 || done == |data|)
      ensures Valid() && View() == Absorb(compress, old(View()), data[..done])
    {
      done := 0;
      AbsorbNothing(compress, View());
      if bufferLength != 0 {
        var bytesToCopy := 64 - bufferLength;
        if bytesToCopy > |data| {
          bytesToCopy := |data|;
        }
        Top(data[..bytesToCopy]);
        done := bytesToCopy;
      }
    }

    /** `SHA1Update` with SHA1_FAST_COPY: whole blocks are hashed where they lie. */
    method UpdateFast(data: seq<byte>)
      requires Valid()
      modifies this`totalLength, this`bits, this`hash, this`bufferLength, buffer
      ensures Valid() && View() == Absorb(compress, old(View()), data)
    {
      var done := TopUp(data);
      while |data| - done > 63
        invariant done <= |data|
        invariant bufferLength == 0 || done == |data|
        invariant Valid() && View() == Absorb(compress, old(View()), data[..done])
      {
        AbsorbMore(compress, old(View()), data, done, 64);
        HashInPlace(data[done..done + 64]);
        done := done + 64;
      }
      if done < |data| {
        AbsorbMore(compress, old(View()), data, done, |data| - done);
        Top(data[done..done + (|data| - done)]);
        done := |data|;
      }
      assert data[..done] == data;
    }

    method Update(data: seq<byte>)
      requires Valid()
      modifies this`totalLength, this`bits, this`hash, this`bufferLength, buffer
      ensures Valid() && View() == Absorb(compress, old(View()), data)
    {
      if fastCopy {
        UpdateFast(data);
      } else {
        UpdateBuffered(data);
      }
    }

    /** The memory image of `lengthPad`. */
    method LengthBytes(total: uint64) returns (lengthPad: seq<byte>)
      ensures lengthPad == LengthPad(total)
    {
      StoreSwapped64(littleEndian, total as bv64);
      lengthPad := Store64(littleEndian, Swapped64(littleEndian, total as bv64));
    }

    method Close(lengthPad: seq<byte>)
      requires Valid()
      modifies this`totalLength, this`bits, this`hash, this`bufferLength, buffer
      ensures Valid() && View() == ClosedWith(compress, old(View()), lengthPad)
    {
      var bytesToPad := 120 - bufferLength;
      if bytesToPad > 64 {
        bytesToPad := bytesToPad - 64;
      }
      Update(padding[..bytesToPad]);
      Update(lengthPad);
    }

    /** `SHA1Final`; no digest is written when the caller passes NULL. */
    method Final(digest: array?<byte>)
      requires Valid()
      requires digest != null ==> digest.Length == 20 && digest != buffer
      modifies this`totalLength, this`bits, this`hash, this`bufferLength, buffer, digest
      ensures Valid() && View() == Closing(compress, old(View()))
      ensures digest != null ==> digest[..] == HashBytes(hash)
    {
      var lengthPad := LengthBytes(totalLength);
      Close(lengthPad);
      if digest != null {
        WriteDigest(digest);
      }
    }

    method WriteDigest(digest: array<byte>)
      requires digest.Length == 20
      modifies digest
      ensures digest[..] == HashBytes(hash)
    {
      WriteWords(digest, Words(hash), WordBytes);
    }

    /** The bytes that either output loop writes for one word of the digest. */
    method WordOut(x: word) returns (bytes: seq<byte>)
      ensures bytes == WordBytes(x)
    {
      if fastCopy {
        bytes := Store(littleEndian, Swapped(littleEndian, x));
        StoreSwapped(littleEndian, x);
      } else {
        bytes := [((x >> 24) & 0xff) as byte, ((x >> 16) & 0xff) as byte, ((x >> 8) & 0xff) as byte, (x & 0xff) as byte];
      }
    }

    /** The output loop of `SHA1Final`; `g` is a name for WordBytes. */
    method WriteWords(digest: array<byte>, words: seq<word>, ghost g: word -> seq<byte>)
      requires digest.Length == 4 * |words|
      requires forall x :: |g(x)| == 4
      requires forall x {:trigger WordBytes(x)} :: g(x) == WordBytes(x)
      modifies digest
      ensures digest[..] == Join(g, words)
    {
      for i := 0 to |words|
        invariant digest[..4 * i] == Join(g, words[..i])
      {
        var bytes := WordOut(words[i]);
        digest[4 * i], digest[4 * i + 1], digest[4 * i + 2], digest[4 * i + 3] := bytes[0], bytes[1], bytes[2], bytes[3];
        assert words[..i + 1][..i] == words[..i];
        assert digest[..4 * (i + 1)] == digest[..4 * i] + g(words[i]);
      }
      assert words[..|words|] == words;
    }
  }

  /** Going on from a prefix of the data that has been taken in. */
  lemma AbsorbMore(f: (Hash, Block) -> Hash, c: Context, data: seq<byte>, done: nat, more: nat)
    requires done + more <= |data|
    ensures Absorb(f, Absorb(f, c, data[..done]), data[done..done + more]) == Absorb(f, c, data[..done + more])
  {
    AbsorbAppend(f, c, data[..done], data[done..done + more]);
    assert data[..done] + data[done..done + more] == data[..done + more];
  }

  lemma AbsorbNothing(f: (Hash, Block) -> Hash, c: Context)
    requires |c.pending| < 64
    ensures Absorb(f, c, []) == c
  {
    assert c.pending + [] == c.pending;
  }

  /** Any number of updates of any sizes, in any configuration, gives the digest of FIPS 180-4. */
  method Stream(pieces: seq<seq<byte>>, littleEndian: bool, fastCopy: bool, unroll: nat) returns (digest: seq<byte>)
    requires ValidUnroll(unroll) && |Flatten(pieces)| < 0x2000_0000_0000_0000
    ensures digest == Sha1(Flatten(pieces))
  {
    var sc := new Sha1Context(littleEndian, fastCopy, unroll);
    for i := 0 to |pieces|
      invariant sc.Valid() && sc.compress == Compress && fresh(sc) && fresh(sc.buffer)
      invariant AbsorbAll(Compress, sc.View(), pieces[i..]) == AbsorbAll(Compress, Fresh, pieces)
    {
      assert pieces[i..][0] == pieces[i] && pieces[i..][1..] == pieces[i + 1..];
      sc.Update(pieces[i]);
    }
    StreamingDigest(pieces);
    var out := new byte[20];
    sc.Final(out);
    digest := out[..];
  }

  /** `shahash`: one update with the whole buffer. */
  method ShaHash(m: Message) returns (digest: seq<byte>)
    ensures digest == Sha1(m)
  {
    assert Flatten([m]) == m + Flatten([]) == m;
    digest := Stream([m], true, false, 20);
  }
}
