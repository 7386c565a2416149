/** Definitions shared by every module. */
module Common {
  /** An unsigned 8-bit integer, `uint8_t`. */
  type byte = bv8

  datatype Option<+T> = None | Some(value: T)

  function Min(a: int, b: int): int { if a < b then a else b }

  function Max(a: int, b: int): int { if a < b then b else a }

  /** The integers first + 1, ..., last, in increasing order. */
  function Upto(first: nat, last: nat): seq<nat>
    requires first <= last
  {
    seq(last - first, i requires 0 <= i => first + 1 + i)
  }

  /** The pieces, joined in order. */
  function Flatten<T>(pieces: seq<seq<T>>): seq<T> {
    if pieces == [] then [] else pieces[0] + Flatten(pieces[1..])
  }

  function Zeros(n: nat): seq<byte> { seq(n, _ => 0) }

  /** The four bytes of a word, most significant first. */
  function WordBytes(x: bv32): (s: seq<byte>)
    ensures |s| == 4
  {
    [((x >> 24) & 0xff) as byte, ((x >> 16) & 0xff) as byte, ((x >> 8) & 0xff) as byte, (x & 0xff) as byte]
  }

  /** A slice of a front part, or of a back part, is a slice of the whole. */
  lemma SliceOfPart<T>(s: seq<T>, k: nat, i: nat, j: nat)
    requires i <= j <= |s| && k <= |s|
    ensures j <= k ==> s[..k][i..j] == s[i..j]
    ensures k <= i ==> s[k..][i - k..j - k] == s[i..j]
  {
  }

  ghost predicate Distinct<T>(s: seq<T>) {
    forall i, j :: 0 <= i < j < |s| ==> s[i] != s[j]
  }

  function ToSet<T>(s: seq<T>): set<T> { set x | x in s }

  lemma {:induction false} DistinctSize<T>(s: seq<T>)
    requires Distinct(s)
    ensures |ToSet(s)| == |s|
  {
    if s != [] {
      DistinctSize(s[1..]);
      assert ToSet(s) == {s[0]} + ToSet(s[1..]);
    }
  }

  lemma {:induction false} SubsetSize<T>(a: set<T>, b: set<T>)
    requires a <= b
    ensures |a| <= |b|
    ensures |a| == |b| ==> a == b
    decreases a
  {
    if x :| x in a {
      SubsetSize(a - {x}, b - {x});
    }
  }

  lemma SmallerLeavesSome<T>(a: set<T>, b: set<T>)
    requires |a| < |b|
    ensures exists x :: x in b && x !in a
  {
    if forall x :: x in b ==> x in a {
      SubsetSize(b, a);
      assert false;
    }
  }
}
