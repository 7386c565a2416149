/** Hashes in hexadecimal and in binary (code/chunk.c, code/hash.c). Characters are ASCII codes. */
module HexCodec {
  import opened Common

  const HEX_HASH_SIZE: nat := 40
  const BIN_HASH_SIZE: nat := 20

  predicate IsHexDigit(c: byte) {
    0x30 <= c <= 0x39 || 0x41 <= c <= 0x46 || 0x61 <= c <= 0x66
  }

  predicate IsHex(s: seq<byte>) {
    |s| % 2 == 0 && forall i :: 0 <= i < |s| ==> IsHexDigit(s[i])
  }

  function ToUpper(c: byte): byte { if 0x61 <= c <= 0x7a then c - 0x20 else c }

  function ToLower(c: byte): byte { if 0x41 <= c <= 0x5a then c + 0x20 else c }

  function Lower(s: seq<byte>): seq<byte> { seq(|s|, i requires 0 <= i < |s| => ToLower(s[i])) }

  /** `_hex2binary`. */
  function Nibble(c: byte): byte {
    var u := ToUpper(c);
    if u <= 0x39 then u - 0x30 else u - (0x41 - 0x0a)
  }

  /** One digit of `%.2x`. */
  function Digit(n: byte): byte {
    if n < 10 then 0x30 + n else 0x61 + (n - 10)
  }

  function MakeByte(c: byte, d: byte): byte { (Nibble(c) << 4) | Nibble(d) }

  function HighDigit(x: byte): byte { Digit(x >> 4) }

  function LowDigit(x: byte): byte { Digit(x & 0xf) }

  function HexToBinary(hex: seq<byte>): (r: seq<byte>)
    requires |hex| % 2 == 0
    ensures |r| == |hex| / 2
  {
    seq(|hex| / 2, i requires 0 <= i < |hex| / 2 => MakeByte(hex[2 * i], hex[2 * i + 1]))
  }

  function BinaryToHex(s: seq<byte>): (r: seq<byte>)
    ensures |r| == 2 * |s|
  {
    seq(2 * |s|, i requires 0 <= i < 2 * |s| => if i % 2 == 0 then HighDigit(s[i / 2]) else LowDigit(s[i / 2]))
  }

  // ----- What the digits mean -----

  const LowerDigits: seq<byte> :=
    [0x30, 0x31, 0x32, 0x33, 0x34, 0x35, 0x36, 0x37, 0x38, 0x39, 0x61, 0x62, 0x63, 0x64, 0x65, 0x66]
  const UpperDigits: seq<byte> :=
    [0x30, 0x31, 0x32, 0x33, 0x34, 0x35, 0x36, 0x37, 0x38, 0x39, 0x41, 0x42, 0x43, 0x44, 0x45, 0x46]

  /** The character stands for the number v below 16. */
  predicate HasValue(c: byte, v: nat) {
    v < 16 && (LowerDigits[v] == c || UpperDigits[v] == c)
  }

  /** The valid characters are those that stand for a number, and `_hex2binary` gives it. */
  lemma NibbleValue(c: byte)
    requires IsHexDigit(c)
    ensures HasValue(c, Nibble(c) as nat)
  {
  }

  lemma DigitValue(n: byte)
    requires n < 16
    ensures n as nat < 16 && Digit(n) == LowerDigits[n as nat]
  {
  }

  lemma ValueNibble(c: byte, v: nat)
    requires HasValue(c, v)
    ensures Nibble(c) as nat == v && Nibble(c) < 16
  {
  }

  lemma JoinNibbles(a: byte, b: byte)
    requires a < 16 && b < 16
    ensures ((a << 4) | b) as nat == 16 * (a as nat) + b as nat
  {
  }

  lemma SplitByte(x: byte)
    ensures (x >> 4) as nat == x as nat / 16 && (x & 0xf) as nat == x as nat % 16
  {
  }

  /** A valid hex string is read digit by digit, the first of each pair counting for sixteen. */
  lemma BinaryValue(hex: seq<byte>, i: nat, high: nat, low: nat)
    requires IsHex(hex) && i < |hex| / 2 && HasValue(hex[2 * i], high) && HasValue(hex[2 * i + 1], low)
    ensures HexToBinary(hex)[i] as nat == 16 * high + low
  {
    ValueNibble(hex[2 * i], high);
    ValueNibble(hex[2 * i + 1], low);
    JoinNibbles(Nibble(hex[2 * i]), Nibble(hex[2 * i + 1]));
  }

  /** Each byte is written as two lower-case digits, for its sixteens and for the rest. */
  lemma HexValue(s: seq<byte>, i: nat)
    requires i < |s|
    ensures s[i] as nat / 16 < 16
    ensures BinaryToHex(s)[2 * i] == LowerDigits[s[i] as nat / 16]
    ensures BinaryToHex(s)[2 * i + 1] == LowerDigits[s[i] as nat % 16]
  {
    SplitByte(s[i]);
    DigitValue(s[i] >> 4);
    DigitValue(s[i] & 0xf);
    assert (2 * i + 1) / 2 == i && (2 * i + 1) % 2 == 1;
  }

  lemma NibblesMakeByte(x: byte)
    ensures MakeByte(HighDigit(x), LowDigit(x)) == x
  {
  }

  lemma ByteGivesDigits(c: byte, d: byte)
    requires IsHexDigit(c) && IsHexDigit(d)
    ensures HighDigit(MakeByte(c, d)) == ToLower(c)
    ensures LowDigit(MakeByte(c, d)) == ToLower(d)
  {
  }

  /** `hex2binary` undoes `binary2hex`. */
  lemma BinaryRoundTrip(s: seq<byte>)
    ensures HexToBinary(BinaryToHex(s)) == s
  {
    var hex := BinaryToHex(s);
    forall i | 0 <= i < |s| ensures HexToBinary(hex)[i] == s[i] {
      assert hex[2 * i] == HighDigit(s[i]) && hex[2 * i + 1] == LowDigit(s[i]);
      NibblesMakeByte(s[i]);
    }
  }

  /** `binary2hex` of `hex2binary` is the hash in lower case. */
  lemma HexRoundTrip(hex: seq<byte>)
    requires IsHex(hex)
    ensures BinaryToHex(HexToBinary(hex)) == Lower(hex)
  {
    var s := HexToBinary(hex);
    forall i | 0 <= i < |hex| ensures BinaryToHex(s)[i] == Lower(hex)[i] {
      var j := i / 2;
      ByteGivesDigits(hex[2 * j], hex[2 * j + 1]);
      assert i == 2 * j || i == 2 * j + 1;
    }
  }

  /** A hash as the chunk files write it. */
  predicate IsHash(hex: seq<byte>) {
    |hex| == HEX_HASH_SIZE && IsHex(hex) && Lower(hex) == hex
  }

  /** On lower-case hashes, looking up by hex agrees with looking up by binary hash. */
  lemma LookupsAgree(a: seq<byte>, b: seq<byte>)
    requires IsHash(a) && IsHash(b)
    ensures HexToBinary(a) == HexToBinary(b) <==> a == b
  {
    HexRoundTrip(a);
    HexRoundTrip(b);
  }

  // ----- The loops -----

  /** `hex2binary`, into the caller's buffer. */
  method Hex2Binary(hex: seq<byte>, buf: array<byte>)
    requires |hex| % 2 == 0 && |hex| / 2 <= buf.Length
    modifies buf
    ensures buf[..|hex| / 2] == HexToBinary(hex)
    ensures buf[|hex| / 2..] == old(buf[|hex| / 2..])
  {
    var i := 0;
    while i < |hex|
      invariant 0 <= i <= |hex| && i % 2 == 0
      invariant forall j :: 0 <= j < i / 2 ==> buf[j] == HexToBinary(hex)[j]
      invariant buf[|hex| / 2..] == old(buf[|hex| / 2..])
    {
      buf[i / 2] := MakeByte(hex[i], hex[i + 1]);
      i := i + 2;
    }
  }

  /** `binary2hex`, into the caller's buffer, with a final zero. */
  method Binary2Hex(s: seq<byte>, hex: array<byte>)
    requires hex.Length == 2 * |s| + 1
    modifies hex
    ensures hex[..] == BinaryToHex(s) + [0]
  {
    for i := 0 to |s|
      invariant forall j :: 0 <= j < 2 * i ==> hex[j] == BinaryToHex(s)[j]
    {
      hex[2 * i], hex[2 * i + 1] := HighDigit(s[i]), LowDigit(s[i]);
    }
    hex[2 * |s|] := 0;
  }

  /** `compare_bin_hash` and `compare_hex_hash`: equality of the first `size` elements. */
  method CompareHash(a: seq<byte>, b: seq<byte>, size: nat) returns (equal: bool)
    requires size <= |a| && size <= |b|
    ensures equal <==> a[..size] == b[..size]
  {
    for i := 0 to size
      invariant a[..i] == b[..i]
    {
      if a[i] != b[i] {
        assert a[..size][i] != b[..size][i];
        return false;
      }
    }
    return true;
  }
}
