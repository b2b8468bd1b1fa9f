/** What several parts share: an optional value, powers of two, bytes, 32 bit words in the
    sender's (little-endian) order, and a fact on sequences. */
module Basics {
  datatype Option<T> = None | Some(value: T)

  function Pow2(n: nat): (p: nat)
    ensures p > 0
  {
    if n == 0 then 1 else 2 * Pow2(n - 1)
  }

  type byte = x: int | 0 <= x < 256
  type u32 = x: int | 0 <= x < 0x1_0000_0000

  function Get32(s: seq<byte>, at: nat): u32
    requires at + 4 <= |s|
  {
    var b0: int, b1: int, b2: int, b3: int := s[at], s[at + 1], s[at + 2], s[at + 3];
    b0 + 0x100 * b1 + 0x1_0000 * b2 + 0x100_0000 * b3
  }

  function Word(x: u32): (w: seq<byte>)
    ensures |w| == 4
  {
    var y := x / 256;
    var z := y / 256;
    [x % 256, y % 256, z % 256, z / 256]
  }

  function Put32(s: seq<byte>, at: nat, x: u32): (r: seq<byte>)
    requires at + 4 <= |s|
    ensures |r| == |s|
    ensures forall i :: 0 <= i < |s| && !(at <= i < at + 4) ==> r[i] == s[i]
  {
    s[..at] + Word(x) + s[at + 4..]
  }

  lemma WordValue(x: u32)
    ensures Get32(Word(x), 0) == x
  {
    var y := x / 256;
    var z := y / 256;
    assert x == 256 * y + x % 256 && y == 256 * z + y % 256 && z == 256 * (z / 256) + z % 256;
  }

  lemma GetPut32(s: seq<byte>, at: nat, x: u32)
    requires at + 4 <= |s|
    ensures Get32(Put32(s, at, x), at) == x
  {
    var r := Put32(s, at, x);
    assert r[at] == Word(x)[0] && r[at + 1] == Word(x)[1] && r[at + 2] == Word(x)[2] && r[at + 3] == Word(x)[3];
    WordValue(x);
  }

  /** Writing one word leaves every disjoint word alone. */
  lemma GetFrame32(s: seq<byte>, at: nat, x: u32, other: nat)
    requires at + 4 <= |s| && other + 4 <= |s| && (other + 4 <= at || at + 4 <= other)
    ensures Get32(Put32(s, at, x), other) == Get32(s, other)
  {}

  /** Writing twice is writing once. */
  lemma PutPut32(s: seq<byte>, at: nat, x: u32, y: u32)
    requires at + 4 <= |s|
    ensures Put32(Put32(s, at, x), at, y) == Put32(s, at, y)
  {}

  lemma GetPrefix32(a: seq<byte>, b: seq<byte>, at: nat, n: nat)
    requires at + 4 <= n <= |a| && n <= |b| && a[..n] == b[..n]
    ensures Get32(a, at) == Get32(b, at)
  {
    assert a[at] == a[..n][at] && a[at + 1] == a[..n][at + 1] && a[at + 2] == a[..n][at + 2] && a[at + 3] == a[..n][at + 3];
  }

  lemma ConcatAssoc<T>(a: seq<T>, b: seq<T>, c: seq<T>)
    ensures a + (b + c) == (a + b) + c
  {}
}
