/** The sliding buffer of a receive queue: decrypted bytes, then possibly a gap, then bytes
    that arrived and are not yet decrypted. */
module RxFifo {
  import opened Basics
  import opened Wire
  import opened Cipher

  /** What `s`, received and not yet decrypted, yields, and what stays behind. */
  function Plain(crypted: bool, c: ChunkCipher, iv: nat, s: seq<byte>): seq<byte> {
    if crypted then DecStream(c, iv, s) else s
  }

  function Left(crypted: bool, s: seq<byte>): seq<byte> {
    if crypted then Tail(s) else []
  }

  function NextIv(crypted: bool, iv: nat, s: seq<byte>): nat {
    if crypted then iv + |s| / 64 else iv
  }

  /** A moment of a connection: decrypted data, bytes that wait for the rest of their chunk,
      the counter of the next chunk, and what is still in flight. */
  datatype Moment = Moment(data: seq<byte>, raw: seq<byte>, iv: nat, flight: seq<byte>)

  /** Between two moments `taken` arrived, and all of it that can be decrypted was. */
  ghost predicate Flow(crypted: bool, c: ChunkCipher, a: Moment, taken: seq<byte>, b: Moment) {
    && (!crypted ==> a.raw == [])
    && a.flight == taken + b.flight
    && b.data == a.data + Plain(crypted, c, a.iv, a.raw + taken)
    && b.raw == Left(crypted, a.raw + taken)
    && b.iv == NextIv(crypted, a.iv, a.raw + taken)
  }

  lemma FlowCompose(crypted: bool, c: ChunkCipher, m0: Moment, s: seq<byte>, m1: Moment, t: seq<byte>, m2: Moment)
    requires Flow(crypted, c, m0, s, m1) && Flow(crypted, c, m1, t, m2)
    ensures Flow(crypted, c, m0, s + t, m2)
  {
    ConcatAssoc(m0.raw, s, t);
    ConcatAssoc(s, t, m2.flight);
    ConcatAssoc(m0.data, Plain(crypted, c, m0.iv, m0.raw + s), Plain(crypted, c, m1.iv, m1.raw + t));
    if crypted {
      DecSplit(c, m0.iv, m0.raw + s, t);
      assert Whole(|m0.raw + s|) == |m0.raw + s| - |Tail(m0.raw + s)|;
    }
  }

  /** What was set aside before may be put in front again. */
  lemma FlowPrefix(crypted: bool, c: ChunkCipher, a: Moment, t: seq<byte>, b: Moment, x: seq<byte>)
    requires Flow(crypted, c, a, t, b)
    ensures Flow(crypted, c, a.(data := x + a.data), t, b.(data := x + b.data))
  {
    ConcatAssoc(x, a.data, Plain(crypted, c, a.iv, a.raw + t));
  }

  /** One turn of the decryption loop. */
  /** The contents of a buffer after `bytes` were put at `at`. */
  ghost predicate Put(was: seq<byte>, now: seq<byte>, at: nat, bytes: seq<byte>) {
    && |now| == |was| && at + |bytes| <= |was|
    && forall i :: 0 <= i < |now| ==> now[i] == if at <= i < at + |bytes| then bytes[i - at] else was[i]
  }

  lemma PutElsewhere(was: seq<byte>, now: seq<byte>, at: nat, bytes: seq<byte>, lo: nat, hi: nat)
    requires Put(was, now, at, bytes) && lo <= hi <= |was| && (hi <= at || at + |bytes| <= lo)
    ensures now[lo..hi] == was[lo..hi]
  {}

  lemma PutBehind(was: seq<byte>, now: seq<byte>, at: nat, bytes: seq<byte>, lo: nat)
    requires Put(was, now, at, bytes) && lo <= at
    ensures now[lo..at + |bytes|] == was[lo..at] + bytes
  {}

  lemma Behind(was: seq<byte>, lo: nat, hi: nat)
    requires lo + 64 <= hi <= |was|
    ensures was[lo + 64..hi] == was[lo..hi][64..]
  {}

  lemma DecDone(c: ChunkCipher, iv: nat, data: seq<byte>, raw: seq<byte>)
    requires |raw| < 64
    ensures data + DecStream(c, iv, raw) == data && Tail(raw) == raw && |raw| / 64 == 0
  {}

  lemma DecStep(c: ChunkCipher, iv: nat, data: seq<byte>, raw: seq<byte>)
    requires |raw| >= 64
    ensures data + DecStream(c, iv, raw) == data + c.dec(iv, raw[..64]) + DecStream(c, iv + 1, raw[64..])
    ensures Tail(raw) == Tail(raw[64..]) && |raw| / 64 == 1 + |raw[64..]| / 64
  {
    ChunkSplit(raw, []);
    ConcatAssoc(data, c.dec(iv, raw[..64]), DecStream(c, iv + 1, raw[64..]));
  }

  class Fifo {
    const crypted: bool
    const cipher: ChunkCipher
    const buf: array<byte>
    const healthy: bool  // the socket reports no error and does not end
    /** Bytes the peer has sent and this side has not read yet. */
    var inflight: seq<byte>
    var beg: nat
    var cdx: nat
    var cdn: nat
    var end: nat
    /** The invocation counter of the next chunk. */
    var iv: nat
    /** The decrypted bytes, and those waiting for the rest of their chunk. */
    ghost var data: seq<byte>
    ghost var raw: seq<byte>
    /** How many times the socket has been read. */
    ghost var readCalls: nat

    ghost predicate BufOk()
      reads this
    {
      && buf.Length == DMSG_BUF_SIZE
      && beg <= cdx <= cdn <= end <= DMSG_BUF_SIZE
      && (!crypted ==> cdx == cdn == end)
      && (crypted ==> Sized(cipher) && end - cdn < 64)
    }

    /** Between a read and the decryption of what was read. */
    ghost predicate Unsettled()
      reads this, buf
    {
      && buf.Length == DMSG_BUF_SIZE
      && beg <= cdx <= cdn <= end <= DMSG_BUF_SIZE
      && (!crypted ==> cdx == cdn)
      && (crypted ==> Sized(cipher))
      && data == buf[beg..cdx] && raw == buf[cdn..end]
    }

    ghost predicate Valid()
      reads this, buf
      ensures Valid() ==> BufOk()
    {
      BufOk() && data == buf[beg..cdx] && raw == buf[cdn..end]
    }

    constructor (crypted: bool, cipher: ChunkCipher, iv: nat, healthy: bool)
      requires crypted ==> Sized(cipher)
      ensures Valid() && fresh(buf) && data == [] && raw == [] && inflight == []
      ensures this.crypted == crypted && this.cipher == cipher && this.iv == iv && this.healthy == healthy
    {
      this.crypted := crypted;
      this.cipher := cipher;
      this.iv := iv;
      this.healthy := healthy;
      buf := new byte[DMSG_BUF_SIZE];
      beg, cdx, cdn, end := 0, 0, 0, 0;
      inflight, data, raw, readCalls := [], [], [], 0;
    }

    /** `bcopy` within the buffer; the regions may overlap. */
    method Bcopy(src: nat, dst: nat, n: nat)
      requires buf.Length == DMSG_BUF_SIZE && src + n <= DMSG_BUF_SIZE && dst + n <= DMSG_BUF_SIZE
      modifies buf
      ensures buf[dst..dst + n] == old(buf[src..src + n])
      ensures forall i :: 0 <= i < DMSG_BUF_SIZE && !(dst <= i < dst + n) ==> buf[i] == old(buf[i])
    {
      forall i | 0 <= i < n {
        buf[dst + i] := buf[src + i];
      }
    }

    /** Slide the contents to the front of the buffer and close the gap. */
    method Compact()
      requires Valid()
      modifies this`beg, this`cdx, this`cdn, this`end, buf
      ensures Valid() && beg == 0 && cdn == cdx
    {
      SlideData();
      SlideRaw();
    }

    method SlideData()
      requires Valid()
      modifies this`beg, this`cdx, buf
      ensures beg == 0 && cdx == old(cdx) - old(beg)
      ensures buf[..cdx] == data && buf[cdn..end] == raw
    {
      Bcopy(beg, 0, cdx - beg);
      assert buf[cdn..end] == raw;
      cdx := cdx - beg;
      beg := 0;
    }

    method SlideRaw()
      requires buf.Length == DMSG_BUF_SIZE && beg == 0 && cdx <= cdn <= end <= DMSG_BUF_SIZE
      modifies this`cdn, this`end, buf
      ensures cdn == cdx && end == cdx + (old(end) - old(cdn))
      ensures buf[..cdx] == old(buf[..cdx]) && buf[cdn..end] == old(buf[cdn..end])
    {
      Bcopy(cdn, cdx, end - cdn);
      assert buf[..cdx] == old(buf[..cdx]);
      end := end - (cdn - cdx);
      cdn := cdx;
    }

    /** Free space behind the contents. */
    function Room(): nat
      requires BufOk()
      reads this
    {
      DMSG_BUF_SIZE - end
    }

    /** The same, once the bytes that wait for their chunk are decrypted. */
    ghost function Slack(): nat
      requires BufOk()
      reads this
    {
      DMSG_BUF_SIZE - cdn
    }

    lemma RoomAndSlack()
      requires Valid()
      ensures Room() + |raw| == Slack() && |raw| < 64 && (!crypted ==> raw == [])
    {}

    /** Compact unless twice the space still needed is already free behind the contents. */
    method MakeRoom(needed: nat) returns (nmax: nat)
      requires Valid()
      modifies this`beg, this`cdx, this`cdn, this`end, buf
      ensures Valid() && nmax == Room()
      ensures |data| < needed <= DMSG_HDR_MAX ==> Slack() >= 2 * (needed - |data|)
      ensures |data| < needed && |data| < DMSG_HDR_MAX ==> nmax > 0
    {
      var bytes := cdx - beg;
      nmax := DMSG_BUF_SIZE - end;
      if bytes + nmax / 2 < needed {
        Compact();
        nmax := DMSG_BUF_SIZE - end;
      }
    }

    /** One `read()` on the socket: any number of the bytes in flight that fit, possibly
        none yet, or an error, or the end of the stream. */
    method SockRead(nmax: nat) returns (err: Option<RxError>, ghost taken: seq<byte>)
      requires Unsettled() && 0 < nmax == DMSG_BUF_SIZE - end
      modifies this`inflight, this`end, this`raw, this`readCalls, buf
      ensures Unsettled() && old(inflight) == taken + inflight && raw == old(raw) + taken
      ensures readCalls == old(readCalls) + 1
      ensures err.Some? ==> err.value in {Eof, Sock} && !healthy
    {
      err, taken, readCalls := None, [], readCalls + 1;
      if !healthy {
        err := *;
        if err.Some? && err.value != Eof {
          err := Some(Sock);
        }
      }
      if err.None? {
        var n: nat :| n <= nmax && n <= |inflight|;
        taken := inflight[..n];
        Arrive(inflight[..n]);
        inflight := inflight[n..];
      }
    }

    /** Bytes are put behind the contents. */
    method Arrive(bytes: seq<byte>)
      requires Unsettled() && end + |bytes| <= DMSG_BUF_SIZE
      modifies this`end, this`raw, buf
      ensures Unsettled() && raw == old(raw) + bytes
    {
      hide Sized;
      ghost var was := buf[..];
      forall i | 0 <= i < |bytes| {
        buf[end + i] := bytes[i];
      }
      assert Put(was, buf[..], end, bytes);
      PutElsewhere(was, buf[..], end, bytes, beg, cdx);
      PutBehind(was, buf[..], end, bytes, cdn);
      end := end + |bytes|;
      raw := raw + bytes;
    }

    /** `dmsg_crypto_decrypt`: decrypt every whole chunk in place. */
    method Decrypt()
      requires Unsettled() && crypted
      modifies this`cdx, this`cdn, this`iv, this`data, this`raw, buf
      ensures Valid()
      ensures data == old(data) + DecStream(cipher, old(iv), old(raw)) && raw == Tail(old(raw))
      ensures iv == old(iv) + |old(raw)| / 64 && cdn - cdx == old(cdn) - old(cdx)
    {
      hide DecStream, Tail, Sized;
      ghost var all, tail, count := data + DecStream(cipher, iv, raw), Tail(raw), iv + |raw| / 64;
      while end - cdn >= 64
        invariant Unsettled()
        invariant data + DecStream(cipher, iv, raw) == all && Tail(raw) == tail && iv + |raw| / 64 == count
        invariant cdn - cdx == old(cdn) - old(cdx)
      {
        DecStep(cipher, iv, data, raw);
        DecryptChunk();
      }
      DecDone(cipher, iv, data, raw);
    }

    /** `dec_chunk`: decrypt the next chunk under the next IV. */
    method DecryptChunk()
      requires Unsettled() && crypted && end - cdn >= 64
      modifies this`cdx, this`cdn, this`iv, this`data, this`raw, buf
      ensures Unsettled() && cdn == old(cdn) + 64 && cdx == old(cdx) + 64 && iv == old(iv) + 1
      ensures data == old(data) + cipher.dec(old(iv), old(raw)[..64]) && raw == old(raw)[64..]
    {
      assert raw[..64] == buf[cdn..cdn + 64];
      var plain := cipher.dec(iv, buf[cdn..cdn + 64]);
      Overwrite(plain);
      cdn := cdn + 64;
      cdx := cdx + 64;
      iv := iv + 1;
      data := data + plain;
      raw := raw[64..];
    }

    /** Put plaintext behind the decrypted bytes, over ciphertext that is no longer needed. */
    method Overwrite(plain: seq<byte>)
      requires buf.Length == DMSG_BUF_SIZE && |plain| == 64 && beg <= cdx <= cdn && cdn + 64 <= end <= DMSG_BUF_SIZE
      modifies buf
      ensures buf[beg..cdx + 64] == old(buf[beg..cdx]) + plain && buf[cdn + 64..end] == old(buf[cdn..end])[64..]
    {
      ghost var was := buf[..];
      forall i | 0 <= i < 64 {
        buf[cdx + i] := plain[i];
      }
      assert Put(was, buf[..], cdx, plain);
      PutElsewhere(was, buf[..], cdx, plain, cdn + 64, end);
      PutBehind(was, buf[..], cdx, plain, beg);
      Behind(was, cdn, end);
    }

    /** Decrypt; without encryption all that arrived is data at once. */
    method Settle()
      requires Unsettled()
      modifies this`cdx, this`cdn, this`iv, this`data, this`raw, buf
      ensures Valid()
      ensures data == old(data) + Plain(crypted, cipher, old(iv), old(raw)) && raw == Left(crypted, old(raw))
      ensures iv == NextIv(crypted, old(iv), old(raw))
      ensures crypted && |old(data)| % 64 == 0 ==> |data| % 64 == 0
      ensures Slack() + |data| == DMSG_BUF_SIZE - old(cdn) + |old(data)|
    {
      if crypted {
        DecLength(cipher, iv, raw);
        Decrypt();
      } else {
        assert buf[beg..end] == data + raw;
        cdx := end;
        cdn := end;
        data := data + raw;
        raw := [];
      }
    }

    ghost function Now(): Moment
      reads this
    {
      Moment(data, raw, iv, inflight)
    }

    /** Read if wanted, then decrypt. */
    method Fill(want: bool, nmax: nat) returns (err: Option<RxError>, ghost taken: seq<byte>)
      requires Valid() && nmax == Room() && (want ==> nmax > 0)
      modifies this, buf
      ensures Valid() && Flow(crypted, cipher, old(Now()), taken, Now())
      ensures crypted && |old(data)| % 64 == 0 ==> |data| % 64 == 0
      ensures Slack() + |data| == old(Slack()) + |old(data)| && |data| >= |old(data)| && old(data) == data[..|old(data)|]
      ensures readCalls == old(readCalls) + (if want then 1 else 0)
      ensures err.Some? ==> err.value in {Eof, Sock} && !healthy
    {
      hide Plain, Left, NextIv;
      err, taken := None, [];
      if want {
        err, taken := SockRead(nmax);
      }
      assert raw == old(raw) + taken;
      Settle();
    }

    /** How much decrypted data there is. */
    function Have(): (n: nat)
      requires Valid()
      reads this, buf
      ensures n == |data|
    {
      cdx - beg
    }

    /** The first `n` decrypted bytes. */
    function Peek(n: nat): (bytes: seq<byte>)
      requires Valid() && n <= |data|
      reads this, buf
      ensures bytes == data[..n]
    {
      buf[beg..beg + n]
    }

    /** Copy the first `n` decrypted bytes out and advance past them. */
    method Take(n: nat) returns (bytes: seq<byte>)
      requires Valid() && n <= |data|
      modifies this`beg, this`data
      ensures Valid() && bytes == old(data)[..n] && data == old(data)[n..]
    {
      assert buf[beg..cdx][..n] == buf[beg..beg + n] && buf[beg..cdx][n..] == buf[beg + n..cdx];
      bytes := buf[beg..beg + n];
      beg := beg + n;
      data := data[n..];
    }

    /** Start over at the front when everything has been consumed. */
    method Reset()
      requires Valid()
      modifies this`beg, this`cdx, this`cdn, this`end
      ensures Valid()
    {
      if beg == cdx && cdn == end {
        beg, cdx, cdn, end := 0, 0, 0, 0;
      }
    }
  }
}
