/** The stream cipher of a dmsg connection: 64 byte chunks, each under the next IV.
    The chunk cipher itself is abstract; it only has to be invertible. */
module Cipher {
  import opened Basics

  /** Chunk transforms for a 64 bit invocation counter. */
  datatype ChunkCipher = ChunkCipher(enc: (nat, seq<byte>) -> seq<byte>, dec: (nat, seq<byte>) -> seq<byte>)

  ghost predicate Sized(c: ChunkCipher) {
    && (forall iv: nat, p: seq<byte> {:trigger c.enc(iv, p)} :: |p| == 64 ==> |c.enc(iv, p)| == 64)
    && (forall iv: nat, p: seq<byte> {:trigger c.dec(iv, p)} :: |p| == 64 ==> |c.dec(iv, p)| == 64)
  }

  ghost predicate Invertible(c: ChunkCipher) {
    && Sized(c)
    && (forall iv: nat, p: seq<byte> {:trigger c.enc(iv, p)} :: |p| == 64 ==> c.dec(iv, c.enc(iv, p)) == p)
  }

  /** Chunk `k` of the stream is transformed under the IV `iv + k`; a partial chunk at the
      end waits for more. */
  function DecStream(c: ChunkCipher, iv: nat, s: seq<byte>): seq<byte>
    decreases |s|
  {
    if |s| < 64 then [] else c.dec(iv, s[..64]) + DecStream(c, iv + 1, s[64..])
  }

  function EncStream(c: ChunkCipher, iv: nat, s: seq<byte>): seq<byte>
    decreases |s|
  {
    if |s| < 64 then [] else c.enc(iv, s[..64]) + EncStream(c, iv + 1, s[64..])
  }

  function Whole(n: nat): (w: nat)
    ensures w % 64 == 0 && w <= n < w + 64
  {
    n / 64 * 64
  }

  lemma WholeNext(n: nat)
    ensures if n < 64 then Whole(n) == 0 else Whole(n) == 64 + Whole(n - 64)
  {}

  lemma SizedAt(c: ChunkCipher, iv: nat, p: seq<byte>)
    requires Sized(c) && |p| == 64
    ensures |c.enc(iv, p)| == 64 && |c.dec(iv, p)| == 64
  {}

  /** The part of a received stream that waits for the rest of its chunk. */
  function Tail(s: seq<byte>): (t: seq<byte>)
    ensures |t| < 64
  {
    s[Whole(|s|)..]
  }

  lemma {:induction false} DecLength(c: ChunkCipher, iv: nat, s: seq<byte>)
    requires Sized(c)
    ensures |DecStream(c, iv, s)| == Whole(|s|)
    decreases |s|
  {
    WholeNext(|s|);
    hide Whole, Sized;
    if |s| >= 64 {
      SizedAt(c, iv, s[..64]);
      DecLength(c, iv + 1, s[64..]);
    }
  }

  lemma {:induction false} EncLength(c: ChunkCipher, iv: nat, s: seq<byte>)
    requires Sized(c)
    ensures |EncStream(c, iv, s)| == Whole(|s|)
    decreases |s|
  {
    WholeNext(|s|);
    hide Whole, Sized;
    if |s| >= 64 {
      SizedAt(c, iv, s[..64]);
      EncLength(c, iv + 1, s[64..]);
    }
  }

  /** Decrypting in two steps is decrypting at once, if the counter moves on by the chunks
      consumed and the partial chunk is kept. */
  lemma {:induction false} DecSplit(c: ChunkCipher, iv: nat, s: seq<byte>, t: seq<byte>)
    ensures DecStream(c, iv, s + t) == DecStream(c, iv, s) + DecStream(c, iv + |s| / 64, Tail(s) + t)
    ensures Tail(s + t) == Tail(Tail(s) + t)
    decreases |s|
  {
    if |s| < 64 {
      assert Tail(s) == s;
    } else {
      var u, h := s[64..], c.dec(iv, s[..64]);
      ChunkSplit(s, t);
      DecSplit(c, iv + 1, u, t);
      ConcatAssoc(h, DecStream(c, iv + 1, u), DecStream(c, iv + |s| / 64, Tail(s) + t));
    }
  }

  /** Peeling the first chunk off both sides. */
  lemma ChunkSplit(s: seq<byte>, t: seq<byte>)
    requires |s| >= 64
    ensures (s + t)[..64] == s[..64] && (s + t)[64..] == s[64..] + t
    ensures Tail(s) == Tail(s[64..]) && Tail(s + t) == Tail(s[64..] + t)
    ensures |s| / 64 == |s[64..]| / 64 + 1
  {
    assert Whole(|s|) == Whole(|s[64..]|) + 64;
    assert Whole(|s + t|) == Whole(|s[64..] + t|) + 64;
    assert (s + t)[64..] == s[64..] + t;
  }

  lemma {:induction false} EncSplit(c: ChunkCipher, iv: nat, s: seq<byte>, t: seq<byte>)
    requires |s| % 64 == 0
    ensures EncStream(c, iv, s + t) == EncStream(c, iv, s) + EncStream(c, iv + |s| / 64, t)
    decreases |s|
  {
    if |s| >= 64 {
      var u, h := s[64..], c.enc(iv, s[..64]);
      ChunkSplit(s, t);
      EncSplit(c, iv + 1, u, t);
      ConcatAssoc(h, EncStream(c, iv + 1, u), EncStream(c, iv + |s| / 64, t));
    } else {
      assert s + t == t;
    }
  }

  /** Sender and receiver that start from the same counter stay in step: whatever prefix of
      the encrypted stream has arrived decrypts to the same prefix of the plaintext. */
  lemma {:induction false} Lockstep(c: ChunkCipher, iv: nat, p: seq<byte>, n: nat)
    requires Invertible(c) && |p| % 64 == 0 && n <= |EncStream(c, iv, p)|
    ensures |EncStream(c, iv, p)| == |p|
    ensures DecStream(c, iv, EncStream(c, iv, p)[..n]) == p[..Whole(n)]
    decreases |p|
  {
    EncLength(c, iv, p);
    var e := EncStream(c, iv, p);
    if n >= 64 {
      assert e[..n][..64] == c.enc(iv, p[..64]);
      assert e[..n][64..] == EncStream(c, iv + 1, p[64..])[..n - 64];
      Lockstep(c, iv + 1, p[64..], n - 64);
      assert Whole(n) == 64 + Whole(n - 64);
    }
  }

  /** The invocation counter of the IV after one increment; a wrap to 0 is reported. */
  function IvIncrement(c: nat): (r: (nat, bool))
    requires c < 0x1_0000_0000_0000_0000
    ensures r.0 < 0x1_0000_0000_0000_0000
  {
    var n := (c + 1) % 0x1_0000_0000_0000_0000;
    (n, n != 0)
  }

  /** The counter after `n` increments. */
  function IvAfter(c: nat, n: nat): (r: nat)
    requires c < 0x1_0000_0000_0000_0000
    ensures r < 0x1_0000_0000_0000_0000
  {
    if n == 0 then c else IvIncrement(IvAfter(c, n - 1)).0
  }

  /** Whether all of the first `n` increments succeed. */
  predicate NoWrap(c: nat, n: nat)
    requires c < 0x1_0000_0000_0000_0000
  {
    n == 0 || (NoWrap(c, n - 1) && IvIncrement(IvAfter(c, n - 1)).1)
  }

  /** The wrap is reported in time: as long as no increment fails, the counter is the plain
      sum that the stream functions use; it fails first when that sum reaches 2^64. */
  lemma {:induction false} CounterIsSum(c: nat, n: nat)
    requires c < 0x1_0000_0000_0000_0000
    ensures NoWrap(c, n) <==> c + n < 0x1_0000_0000_0000_0000
    ensures NoWrap(c, n) ==> IvAfter(c, n) == c + n
  {
    if n > 0 {
      CounterIsSum(c, n - 1);
    }
  }

  /** Section 8.2.1 of NIST SP 800-38D: no IV is used twice before a wrap is reported. */
  lemma IvsDistinct(c: nat, n: nat, i: nat, j: nat)
    requires c < 0x1_0000_0000_0000_0000 && NoWrap(c, n) && i < j <= n
    ensures IvAfter(c, i) != IvAfter(c, j)
  {
    CounterIsSum(c, n);
    CounterIsSum(c, i);
    CounterIsSum(c, j);
  }
}
