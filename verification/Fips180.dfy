/** SHA-1 as FIPS 180-4 defines it, on messages made of whole bytes. */
module Fips180 {
  import opened Common

  type word = bv32

  /** The five working variables, or the five words of an intermediate hash value. */
  datatype Hash = Hash(a: word, b: word, c: word, d: word, e: word)

  function Rotl5(x: word): word { (x << 5) | (x >> 27) }

  function Rotl30(x: word): word { (x << 30) | (x >> 2) }

  function Rotl1(x: word): word { (x << 1) | (x >> 31) }

  // Section 4.1.1

  function Ch(x: word, y: word, z: word): word { (x & y) ^ (!x & z) }

  function Parity(x: word, y: word, z: word): word { x ^ y ^ z }

  function Maj(x: word, y: word, z: word): word { (x & y) ^ (x & z) ^ (y & z) }

  function F(t: nat, x: word, y: word, z: word): word {
    if t < 20 then Ch(x, y, z) else if t < 40 then Parity(x, y, z)
    else if t < 60 then Maj(x, y, z) else Parity(x, y, z)
  }

  // Section 4.2.1

  function K(t: nat): word {
    if t < 20 then 0x5a827999 else if t < 40 then 0x6ed9eba1
    else if t < 60 then 0x8f1bbcdc else 0xca62c1d6
  }

  // Section 5.1.1

  /** The eight bytes of a 64-bit number, most significant first. */
  function BigEndian64(x: bv64): (s: seq<byte>)
    ensures |s| == 8
  {
    [((x >> 56) & 0xff) as byte, ((x >> 48) & 0xff) as byte, ((x >> 40) & 0xff) as byte, ((x >> 32) & 0xff) as byte,
     ((x >> 24) & 0xff) as byte, ((x >> 16) & 0xff) as byte, ((x >> 8) & 0xff) as byte, (x & 0xff) as byte]
  }

  /** The least number of zero bytes that brings message, end mark and zeros to 56 modulo 64. */
  function ZeroCount(length: nat): (k: nat)
    ensures (length + 1 + k) % 64 == 56 && k < 64
  {
    if length % 64 < 56 then 55 - length % 64 else 119 - length % 64
  }

  lemma WholeBlocks(length: nat)
    ensures (length + 1 + ZeroCount(length) + 8) % 64 == 0
  {
    var q, r := length / 64, length % 64;
    assert length == 64 * q + r;
    assert length + 1 + ZeroCount(length) + 8 == 64 * (if r < 56 then q + 1 else q + 2);
  }

  /** Messages whose length in bits fits in 64 bits. */
  type Message = m: seq<byte> | |m| < 0x2000_0000_0000_0000

  function Pad(m: Message): (p: seq<byte>)
    ensures |p| % 64 == 0
  {
    WholeBlocks(|m|);
    m + [0x80] + Zeros(ZeroCount(|m|)) + BigEndian64((8 * |m|) as bv64)
  }

  // Section 5.3.1

  const H0: Hash := Hash(0x67452301, 0xefcdab89, 0x98badcfe, 0x10325476, 0xc3d2e1f0)

  // Section 6.1.2

  type Block = s: seq<byte> | |s| == 64 witness seq(64, _ => 0)

  /** Four bytes as a word, most significant first. */
  function BigEndian(b0: byte, b1: byte, b2: byte, b3: byte): word {
    ((b0 as word) << 24) | ((b1 as word) << 16) | ((b2 as word) << 8) | (b3 as word)
  }

  function Xor(x: word, y: word, z: word, u: word): word { x ^ y ^ z ^ u }

  function W(block: Block, t: nat): word {
    if t < 16 then
      BigEndian(block[4 * t], block[4 * t + 1], block[4 * t + 2], block[4 * t + 3])
    else
      Rotl1(Xor(W(block, t - 3), W(block, t - 8), W(block, t - 14), W(block, t - 16)))
  }

  function Schedule(block: Block): (w: seq<word>)
    ensures |w| == 80
  {
    seq(80, t requires 0 <= t => W(block, t))
  }

  function Sum(r: word, f: word, e: word, k: word, w: word): word { r + f + e + k + w }

  function Round(v: Hash, t: nat, w: word): Hash {
    Hash(Sum(Rotl5(v.a), F(t, v.b, v.c, v.d), v.e, K(t), w), v.a, Rotl30(v.b), v.c, v.d)
  }

  /** The working variables after the first `t` rounds. */
  function Rounds(v: Hash, w: seq<word>, t: nat): Hash
    requires t <= |w|
  {
    if t == 0 then v else Round(Rounds(v, w, t - 1), t - 1, w[t - 1])
  }

  function Add(x: Hash, y: Hash): Hash {
    Hash(x.a + y.a, x.b + y.b, x.c + y.c, x.d + y.d, x.e + y.e)
  }

  function Compress(h: Hash, block: Block): Hash {
    var w := Schedule(block);
    Add(h, Rounds(h, w, |w|))
  }

  /** Feed a whole number of 64-byte blocks to a function, one after the other. */
  function Fold<S>(f: (S, Block) -> S, h: S, s: seq<byte>): S
    requires |s| % 64 == 0
    decreases |s|
  {
    if s == [] then h else Fold(f, f(h, s[..64]), s[64..])
  }

  /** The images of the words, joined in order. */
  function Join(g: word -> seq<byte>, words: seq<word>): seq<byte> {
    if words == [] then [] else Join(g, words[..|words| - 1]) + g(words[|words| - 1])
  }

  lemma {:induction false} JoinLength(g: word -> seq<byte>, words: seq<word>)
    requires forall x :: |g(x)| == 4
    ensures |Join(g, words)| == 4 * |words|
  {
    if words != [] {
      JoinLength(g, words[..|words| - 1]);
    }
  }

  function Words(h: Hash): seq<word> { [h.a, h.b, h.c, h.d, h.e] }

  function HashBytes(h: Hash): (s: seq<byte>)
    ensures |s| == 20
  {
    JoinLength(WordBytes, Words(h));
    Join(WordBytes, Words(h))
  }

  /** The 20-byte message digest. */
  function Sha1(m: Message): (digest: seq<byte>)
    ensures |digest| == 20
  {
    HashBytes(Fold(Compress, H0, Pad(m)))
  }
}
