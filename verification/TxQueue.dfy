/** The sending side of a dmsg connection: queued messages, resume offsets, a 16 entry iovec
    and, on an encrypted link, a staging buffer for ciphertext. */
module TxQueue {
  import opened Basics
  import opened Wire
  import opened Cipher

  const DMSG_IOQ_MAXIOVEC := 16

  /** At most half a buffer of a header or of auxiliary data goes into one iovec entry. */
  const MAXLEN := DMSG_BUF_SIZE / 2

  /** A stream of messages. */
  function WireAll(ms: seq<Message>): seq<byte> {
    if ms == [] then [] else Encode(ms[0]) + WireAll(ms[1..])
  }

  lemma {:induction false} WireAllAppend(ms: seq<Message>, ns: seq<Message>)
    ensures WireAll(ms + ns) == WireAll(ms) + WireAll(ns)
  {
    if ms == [] {
      assert ms + ns == ns;
    } else {
      assert (ms + ns)[1..] == ms[1..] + ns;
      WireAllAppend(ms[1..], ns);
      ConcatAssoc(Encode(ms[0]), WireAll(ms[1..]), WireAll(ns));
    }
  }

  /** The pieces of an iovec, laid end to end. */
  function Flat(iov: seq<seq<byte>>): seq<byte> {
    if iov == [] then [] else Flat(iov[..|iov| - 1]) + iov[|iov| - 1]
  }

  lemma FlatAppend(iov: seq<seq<byte>>, piece: seq<byte>)
    ensures Flat(iov + [piece]) == Flat(iov) + piece
  {
    assert (iov + [piece])[..|iov|] == iov;
  }

  /** Queued messages know the sizes of their parts. */
  predicate Queueable(m: Message) {
    64 <= |m.head| && |m.head| == HdrBytes(m.head) && |m.data| == DoAlign(m.size)
  }

  predicate AllQueueable(ms: seq<Message>) { forall m :: m in ms ==> Queueable(m) }

  /** How far the first message of a queue is sent: its header first, then its data. */
  predicate Offsets(ms: seq<Message>, h: nat, a: nat) {
    if ms == [] then h == a == 0 else h <= |ms[0].head| && a <= |ms[0].data| && (a > 0 ==> h == |ms[0].head|)
  }

  /** What is left of a queue whose first message is sent up to `h` and `a`. */
  function Unsent(ms: seq<Message>, h: nat, a: nat): seq<byte>
    requires Offsets(ms, h, a)
  {
    if ms == [] then [] else ms[0].head[h..] + (ms[0].data[a..] + WireAll(ms[1..]))
  }

  lemma UnsentWhole(ms: seq<Message>)
    ensures Offsets(ms, 0, 0) && Unsent(ms, 0, 0) == WireAll(ms)
  {
    if ms != [] {
      ConcatAssoc(ms[0].head, ms[0].data, WireAll(ms[1..]));
    }
  }

  lemma UnsentAppend(ms: seq<Message>, h: nat, a: nat, ns: seq<Message>)
    requires Offsets(ms, h, a)
    ensures Offsets(ms + ns, h, a) && Unsent(ms + ns, h, a) == Unsent(ms, h, a) + WireAll(ns)
  {
    if ms == [] {
      assert ms + ns == ns;
      UnsentWhole(ns);
    } else {
      assert (ms + ns)[1..] == ms[1..] + ns;
      WireAllAppend(ms[1..], ns);
      var hd, dt, tl := ms[0].head[h..], ms[0].data[a..], WireAll(ms[1..]);
      ConcatAssoc(dt, tl, WireAll(ns));
      ConcatAssoc(hd, dt + tl, WireAll(ns));
    }
  }

  lemma Tails(ms: seq<Message>, i: nat)
    requires i < |ms|
    ensures ms[i..][1..] == ms[i + 1..] && ms[i..][0] == ms[i]
  {}

  lemma PieceFits(all: seq<byte>, done: seq<byte>, part: seq<byte>, n: nat, rest: seq<byte>)
    requires n <= |part| && all == done + (part + rest)
    ensures all == (done + part[..n]) + (part[n..] + rest)
    ensures done + part[..n] <= all
  {
    assert part == part[..n] + part[n..];
  }

  /** A whole number of 64 byte units. */
  predicate Unit(n: int) { n % 64 == 0 }

  predicate AllUnits(iov: seq<seq<byte>>) { forall k :: 0 <= k < |iov| ==> Unit(|iov[k]|) }

  lemma UnitSum(a: int, b: int)
    ensures Unit(a) && Unit(b) ==> Unit(a + b) && Unit(a - b)
  {}

  lemma UnitZero()
    ensures Unit(0)
  {}

  lemma UnitGap(a: nat, b: nat)
    requires Unit(a) && Unit(b) && a <= b < a + 64
    ensures a == b
  {}

  lemma QueueableUnits(m: Message)
    requires Queueable(m)
    ensures Unit(|m.head|) && Unit(|m.data|) && |m.head| > 0
  {}

  /** Add the part of a header or of auxiliary data that still has to go, or half a buffer of
      it, to the iovec; `stop` when the iovec is full or only a piece was taken. */
  method AddPiece(iov: seq<seq<byte>>, part: seq<byte>, ghost rest: seq<byte>)
    returns (iov': seq<seq<byte>>, n: nat, stop: bool)
    requires |iov| < DMSG_IOQ_MAXIOVEC
    ensures |Flat(iov')| == |Flat(iov)| + n && (part != [] ==> n > 0) && |iov'| <= DMSG_IOQ_MAXIOVEC
    ensures Flat(iov') <= Flat(iov) + (part + rest)
    ensures !stop ==> Flat(iov) + (part + rest) == Flat(iov') + rest && |iov'| < DMSG_IOQ_MAXIOVEC
    ensures stop ==> n > 0
    ensures AllUnits(iov) && Unit(|part|) ==> AllUnits(iov')
  {
    if |part| == 0 {
      assert part + rest == rest;
      return iov, 0, false;
    }
    n := if |part| > MAXLEN then MAXLEN else |part|;
    FlatAppend(iov, part[..n]);
    PieceFits(Flat(iov) + (part + rest), Flat(iov), part, n, rest);
    iov' := iov + [part[..n]];
    stop := |iov'| == DMSG_IOQ_MAXIOVEC || n != |part|;
    if !stop {
      assert part[..n] == part && part[n..] + rest == rest;
    }
  }

  /** The iovec for a queue whose first message is already sent up to `hbytes` and `abytes`:
      a prefix of what is unsent, not empty unless nothing is, in at most 16 pieces. */
  method BuildIovec(msgq: seq<Message>, hbytes: nat, abytes: nat) returns (iov: seq<seq<byte>>, nact: nat)
    requires AllQueueable(msgq) && Offsets(msgq, hbytes, abytes)
    ensures |iov| <= DMSG_IOQ_MAXIOVEC && nact == |Flat(iov)| && Flat(iov) <= Unsent(msgq, hbytes, abytes)
    ensures (Unsent(msgq, hbytes, abytes) != [] ==> nact > 0) && (msgq == [] ==> iov == [])
    ensures Unit(hbytes) && Unit(abytes) ==> AllUnits(iov)
  {
    hide Unit, AllUnits, Flat, WireAll, Queueable, Unsent;
    iov, nact := [], 0;
    var hoff: nat, aoff: nat := hbytes, abytes;
    ghost var all := Unsent(msgq, hbytes, abytes);
    var i := 0;
    assert msgq[0..] == msgq;
    BuildStart(msgq, hoff, aoff);
    while i < |msgq|
      invariant 0 <= i <= |msgq| && |iov| < DMSG_IOQ_MAXIOVEC && nact == |Flat(iov)|
      invariant Offsets(msgq[i..], hoff, aoff) && all == Flat(iov) + Unsent(msgq[i..], hoff, aoff)
      invariant Unit(hbytes) && Unit(abytes) ==> Unit(hoff) && Unit(aoff) && AllUnits(iov)
      invariant (i == |msgq| ==> all == Flat(iov)) && (i == 0 ==> iov == [])
    {
      Tails(msgq, i);
      BuildTurn(msgq, i, hoff, aoff);
      var n, m, stop;
      iov, n, stop := AddPiece(iov, msgq[i].head[hoff..], msgq[i].data[aoff..] + WireAll(msgq[i + 1..]));
      nact := nact + n;
      if stop { break; }
      iov, m, stop := AddPiece(iov, msgq[i].data[aoff..], WireAll(msgq[i + 1..]));
      nact := nact + m;
      if stop { break; }
      hoff := 0;
      aoff := 0;
      i := i + 1;
      BuildStart(msgq[i..], 0, 0);
    }
  }

  lemma BuildStart(ms: seq<Message>, h: nat, a: nat)
    requires Offsets(ms, h, a)
    ensures Flat([]) == [] && AllUnits([]) && Unit(0)
    ensures [] + Unsent(ms, h, a) == Unsent(ms, h, a)
    ensures forall x: seq<byte> :: ms == [] ==> x + Unsent(ms, h, a) == x
  {}

  /** What one turn adds. */
  lemma BuildTurn(msgq: seq<Message>, i: nat, h: nat, a: nat)
    requires i < |msgq| && AllQueueable(msgq) && Offsets(msgq[i..], h, a)
    ensures Unsent(msgq[i..], h, a) == msgq[i].head[h..] + (msgq[i].data[a..] + WireAll(msgq[i + 1..]))
    ensures Offsets(msgq[i + 1..], 0, 0) && Unsent(msgq[i + 1..], 0, 0) == WireAll(msgq[i + 1..])
    ensures Unit(h) && Unit(a) ==> Unit(|msgq[i].head[h..]|) && Unit(|msgq[i].data[a..]|)
  {
    Tails(msgq, i);
    UnsentWhole(msgq[i + 1..]);
    assert Queueable(msgq[i]);
  }

  /** A part from `off` on, and what follows it. */
  function From(part: seq<byte>, off: nat, rest: seq<byte>): (all: seq<byte>)
    requires off <= |part|
    ensures |all| == |part| - off + |rest|
  {
    part[off..] + rest
  }

  /** Dropping `n` bytes of it, within the part or beyond. */
  lemma CutWithin(part: seq<byte>, off: nat, n: nat, rest: seq<byte>)
    requires off + n <= |part|
    ensures From(part, off, rest)[n..] == From(part, off + n, rest)
  {}

  lemma CutBeyond(part: seq<byte>, off: nat, n: nat, rest: seq<byte>)
    requires off <= |part| <= off + n && n <= |part| - off + |rest|
    ensures From(part, off, rest)[n..] == rest[n - (|part| - off)..]
  {}

  lemma UnsentParts(ms: seq<Message>, h: nat, a: nat)
    requires ms != [] && Offsets(ms, h, a)
    ensures h <= |ms[0].head| && a <= |ms[0].data|
    ensures Unsent(ms, h, a) == From(ms[0].head, h, From(ms[0].data, a, WireAll(ms[1..])))
  {}

  /** The first message absorbs some of a count of sent bytes. */
  lemma FirstAbsorbs(ms: seq<Message>, h: nat, a: nat, n: nat)
    requires ms != [] && Offsets(ms, h, a) && n <= |Unsent(ms, h, a)|
    ensures h + n < |ms[0].head| ==> Offsets(ms, h + n, a) ==> Unsent(ms, h, a)[n..] == Unsent(ms, h + n, a)
    ensures h + n >= |ms[0].head| ==>
      var k := n - (|ms[0].head| - h);
      (a + k <= |ms[0].data| ==> Unsent(ms, h, a)[n..] == Unsent(ms, |ms[0].head|, a + k)) &&
      (a + k >= |ms[0].data| ==> k - (|ms[0].data| - a) <= |WireAll(ms[1..])|) &&
      (a + k >= |ms[0].data| ==> Unsent(ms, h, a)[n..] == WireAll(ms[1..])[k - (|ms[0].data| - a)..])
  {
    hide WireAll, Unsent, From;
    var head, data, tail := ms[0].head, ms[0].data, WireAll(ms[1..]);
    UnsentParts(ms, h, a);
    if h + n < |head| {
      CutWithin(head, h, n, From(data, a, tail));
      UnsentParts(ms, h + n, a);
    } else {
      var k := n - (|head| - h);
      CutBeyond(head, h, n, From(data, a, tail));
      if a + k <= |data| {
        UnsentParts(ms, |head|, a + k);
        CutWithin(data, a, k, tail);
        CutBeyond(head, |head|, 0, From(data, a + k, tail));
      }
      if a + k >= |data| {
        CutBeyond(data, a, k, tail);
      }
    }
  }

  /** Take `nact` bytes off a queue: whole messages leave it, the offsets of the one that is
      only partly taken move on, and nothing of the count is left over. */
  method Dequeue(msgq: seq<Message>, hbytes: nat, abytes: nat, nact: nat) returns (gone: nat, hbytes': nat, abytes': nat)
    requires AllQueueable(msgq) && Offsets(msgq, hbytes, abytes)
    requires nact <= |Unsent(msgq, hbytes, abytes)|
    ensures gone <= |msgq| && Offsets(msgq[gone..], hbytes', abytes')
    ensures Unsent(msgq[gone..], hbytes', abytes') == Unsent(msgq, hbytes, abytes)[nact..]
    ensures gone < |msgq| ==> hbytes' + abytes' < |Encode(msgq[gone])|
    ensures Unit(hbytes) && Unit(abytes) && Unit(nact) ==> Unit(hbytes') && Unit(abytes')
  {
    hide Unsent, WireAll, Unit, Queueable;
    gone, hbytes', abytes' := 0, hbytes, abytes;
    var left := nact;
    ghost var goal := Unsent(msgq, hbytes, abytes)[nact..];
    assert msgq[0..] == msgq;
    Drained(msgq, 0, hbytes, abytes, left);
    while gone < |msgq|
      invariant 0 <= gone <= |msgq| && 0 <= left <= nact && Offsets(msgq[gone..], hbytes', abytes')
      invariant left <= |Unsent(msgq[gone..], hbytes', abytes')| && Unsent(msgq[gone..], hbytes', abytes')[left..] == goal
      invariant Unit(hbytes) && Unit(abytes) && Unit(nact) ==> Unit(hbytes') && Unit(abytes') && Unit(left)
      invariant gone == |msgq| ==> left == 0
    {
      Tails(msgq, gone);
      FirstAbsorbs(msgq[gone..], hbytes', abytes', left);
      QueueableUnits(msgq[gone]);
      UnitTurn(|msgq[gone].head|, |msgq[gone].data|, hbytes', abytes', left);
      var hsize, asize := |msgq[gone].head|, |msgq[gone].data|;
      if left < hsize - hbytes' {
        hbytes', left := hbytes' + left, 0;
        break;
      }
      left := left - (hsize - hbytes');
      hbytes' := hsize;
      if left < asize - abytes' {
        abytes', left := abytes' + left, 0;
        break;
      }
      left := left - (asize - abytes');
      gone, hbytes', abytes' := gone + 1, 0, 0;
      UnsentWhole(msgq[gone..]);
      Drained(msgq, gone, 0, 0, left);
    }
    assert left == 0;
  }

  lemma UnitTurn(hsize: nat, asize: nat, h: nat, a: nat, left: nat)
    requires Unit(hsize) && Unit(asize)
    ensures Unit(0) && (Unit(h) && Unit(a) && Unit(left) ==>
      Unit(h + left) && Unit(a + (left - (hsize - h))) && Unit(left - (hsize - h) - (asize - a)))
  {}

  lemma Drained(msgq: seq<Message>, gone: nat, h: nat, a: nat, left: nat)
    requires gone <= |msgq| && Offsets(msgq[gone..], h, a) && left <= |Unsent(msgq[gone..], h, a)|
    ensures gone == |msgq| ==> left == 0
  {}

  /** One more chunk is encrypted under the next IV. */
  lemma EncMore(c: ChunkCipher, iv: nat, s: seq<byte>, chunk: seq<byte>)
    requires |s| % 64 == 0 && |chunk| == 64
    ensures EncStream(c, iv, s + chunk) == EncStream(c, iv, s) + c.enc(iv + |s| / 64, chunk)
    ensures |s + chunk| / 64 == |s| / 64 + 1
  {
    EncSplit(c, iv, s, chunk);
    assert chunk[..64] == chunk && EncStream(c, iv + |s| / 64 + 1, chunk[64..]) == [];
  }

  /** What a socket does with a write. */
  datatype SockWrite = Accepts(room: nat) | Again | Broken

  /** The value that writev returns for `len` bytes. */
  function Writev(w: SockWrite, len: nat): (n: int)
    ensures n <= len && (w.Accepts? <==> 0 <= n)
  {
    if !w.Accepts? then -1 else if w.room < len then w.room else len
  }

  /** What was taken and what is still queued make up everything ever queued; the first message
      is not complete yet. */
  ghost predicate QueueIs(crypted: bool, msgq: seq<Message>, h: nat, a: nat, eaten: seq<byte>, all: seq<byte>) {
    && AllQueueable(msgq) && Offsets(msgq, h, a) && eaten + Unsent(msgq, h, a) == all
    && (msgq != [] ==> h + a < |Encode(msgq[0])|)
    && (crypted ==> Unit(h) && Unit(a))
  }

  lemma QueueFacts(crypted: bool, msgq: seq<Message>, h: nat, a: nat, eaten: seq<byte>, all: seq<byte>)
    requires QueueIs(crypted, msgq, h, a, eaten, all)
    ensures AllQueueable(msgq) && Offsets(msgq, h, a) && (Unsent(msgq, h, a) == [] <==> msgq == [])
    ensures crypted ==> Unit(h) && Unit(a)
  {}

  /** What is taken moves from the unsent to the taken bytes. */
  lemma QueueTake(crypted: bool, msgq: seq<Message>, h: nat, a: nat, eaten: seq<byte>, all: seq<byte>,
                  part: seq<byte>, nact: nat, gone: nat, h': nat, a': nat)
    requires QueueIs(crypted, msgq, h, a, eaten, all) && nact <= |part| && part <= Unsent(msgq, h, a)
    requires gone <= |msgq| && Offsets(msgq[gone..], h', a') && Unsent(msgq[gone..], h', a') == Unsent(msgq, h, a)[nact..]
    requires (gone < |msgq| ==> h' + a' < |Encode(msgq[gone])|) && (crypted ==> Unit(h') && Unit(a'))
    ensures QueueIs(crypted, msgq[gone..], h', a', eaten + part[..nact], all) && eaten + part[..nact] <= all
  {
    hide Unsent, Unit;
    var unsent := Unsent(msgq, h, a);
    assert part[..nact] == unsent[..nact];
    assert unsent == unsent[..nact] + unsent[nact..];
    ConcatAssoc(eaten, unsent[..nact], unsent[nact..]);
  }

  /** Messages as they are finished one after the other. */
  ghost function StampAll(crc: Crc, seqno: nat, salts: seq<seq<byte>>, ms: seq<Message>): seq<Message>
    requires |salts| == |ms| && forall k :: 0 <= k < |ms| ==> Sendable(crc, ms[k]) && |salts[k]| == 3
    decreases |ms|
  {
    if ms == [] then [] else [Stamp(crc, seqno, salts[0], ms[0])] + StampAll(crc, seqno + 1, salts[1..], ms[1..])
  }

  /** Finishing messages changes nothing that they say. */
  lemma {:induction false} StampAllCarries(crc: Crc, seqno: nat, salts: seq<seq<byte>>, ms: seq<Message>)
    requires |salts| == |ms| && forall k :: 0 <= k < |ms| ==> Sendable(crc, ms[k]) && |salts[k]| == 3
    ensures AllCarry(ms, StampAll(crc, seqno, salts, ms))
    decreases |ms|
  {
    hide Stamp, Sendable, Carries;
    if ms != [] {
      StampAllCarries(crc, seqno + 1, salts[1..], ms[1..]);
      AllCarryMore([ms[0]], [Stamp(crc, seqno, salts[0], ms[0])], ms[1..], StampAll(crc, seqno + 1, salts[1..], ms[1..]));
      assert ms == [ms[0]] + ms[1..];
    }
  }

  /** Another message behind those queued. */
  lemma QueueMore(crypted: bool, msgq: seq<Message>, h: nat, a: nat, eaten: seq<byte>, log: seq<Message>, crc: Crc, seqno: nat, m: Message)
    requires QueueIs(crypted, msgq, h, a, eaten, WireAll(log)) && Stamped(crc, seqno, m)
    ensures QueueIs(crypted, msgq + [m], h, a, eaten, WireAll(log + [m])) && WireAll(log) <= WireAll(log + [m])
  {
    assert Queueable(m);
    UnsentAppend(msgq, h, a, [m]);
    WireAllAppend(log, [m]);
    ConcatAssoc(eaten, Unsent(msgq, h, a), WireAll([m]));
    UnitZero();
  }

  class Sender {
    const crc: Crc
    const crypted: bool
    const cipher: ChunkCipher
    const iv0: nat
    const buf: array<byte>
    var beg: nat
    var cdx: nat
    var cdn: nat
    var end: nat
    var iv: nat
    var msgq: seq<Message>
    var hbytes: nat
    var abytes: nat
    var seqno: nat
    var error: bool
    var wreq: bool
    var wwork: bool
    /** The bytes that the socket took. */
    var sent: seq<byte>
    /** Every message ever queued, as it goes on the wire. */
    ghost var log: seq<Message>
    /** Plaintext taken from the queue. */
    ghost var eaten: seq<byte>
    /** Ciphertext that the socket has not taken yet. */
    ghost var staged: seq<byte>

    ghost predicate StageOk()
      reads this`beg, this`cdx, this`cdn, this`end, this`staged, buf
    {
      && buf.Length == 8192 && beg <= cdx == cdn == end <= 8192 && staged == buf[beg..end] && (beg == end ==> beg == 0)
      && (crypted ==> Sized(cipher))
    }

    /** The ciphertext so far is that of the plaintext so far; a plain link stages nothing. */
    ghost predicate InStep()
      reads this`iv, this`eaten, this`sent, this`staged
    {
      if crypted
      then Unit(|eaten|) && sent + staged == EncStream(cipher, iv0, eaten) && iv == iv0 + |eaten| / 64
      else sent == eaten && staged == []
    }

    ghost predicate QueueOk()
      reads this`msgq, this`hbytes, this`abytes, this`eaten, this`log
    {
      QueueIs(crypted, msgq, hbytes, abytes, eaten, WireAll(log))
    }

    ghost predicate LogOk()
      reads this`log, this`seqno
    {
      |log| == seqno && forall k :: 0 <= k < |log| ==> Stamped(crc, k, log[k])
    }

    ghost predicate Valid()
      reads this, buf
    {
      StageOk() && InStep() && LogOk() && eaten <= WireAll(log) && (!error ==> QueueOk())
    }

    constructor (crc: Crc, crypted: bool, cipher: ChunkCipher, iv: nat)
      requires crypted ==> Sized(cipher)
      ensures Valid() && fresh(buf) && log == [] && sent == [] && !error && msgq == []
      ensures this.crc == crc && this.crypted == crypted && this.cipher == cipher && iv0 == iv
    {
      this.crc, this.crypted, this.cipher, iv0, this.iv := crc, crypted, cipher, iv, iv;
      buf := new byte[8192];
      beg, cdx, cdn, end := 0, 0, 0, 0;
      msgq, hbytes, abytes, seqno, error, wreq, wwork := [], 0, 0, 0, false, false, false;
      log, eaten, sent, staged := [], [], [], [];
    }

    /** Make room in the staging buffer when little is left at its end. */
    method Compact()
      requires StageOk()
      modifies this`beg, this`cdx, this`cdn, this`end, buf
      ensures StageOk() && (staged == [] || 8192 - end >= 64 || beg <= 4096)
      ensures staged == old(staged)
    {
      if beg > 4096 && 8192 - end < 128 {
        var n := end - beg;
        forall k | 0 <= k < n {
          buf[k] := buf[beg + k];
        }
        cdx := cdx - beg;
        cdn := cdn - beg;
        end := end - beg;
        beg := 0;
      }
    }

    /** Encrypt one chunk behind the staged bytes. */
    method EncChunk(chunk: seq<byte>)
      requires StageOk() && InStep() && crypted && |chunk| == 64 && end + 64 <= 8192
      modifies this`cdx, this`cdn, this`end, this`iv, this`staged, this`eaten, buf
      ensures StageOk() && InStep() && end == old(end) + 64 && eaten == old(eaten) + chunk && |staged| == old(|staged|) + 64
    {
      var ct := cipher.enc(iv, chunk);
      EncMore(cipher, iv0, eaten, chunk);
      ConcatAssoc(sent, staged, ct);
      Stage(ct);
      eaten := eaten + chunk;
      iv := iv + 1;
    }

    method Stage(ct: seq<byte>)
      requires StageOk() && |ct| == 64 && end + 64 <= 8192
      modifies this`cdx, this`cdn, this`end, this`staged, buf
      ensures StageOk() && end == old(end) + 64 && staged == old(staged) + ct
    {
      forall k | 0 <= k < 64 {
        buf[cdx + k] := ct[k];
      }
      assert buf[beg..end] == old(buf[beg..end]);
      assert buf[end..end + 64] == ct;
      assert buf[beg..end + 64] == buf[beg..end] + ct;
      staged := staged + ct;
      cdx, cdn, end := cdx + 64, cdn + 64, end + 64;
    }

    /** Encrypt as many whole chunks of one piece of the iovec as fit. */
    method EncPiece(piece: seq<byte>) returns (used: nat)
      requires StageOk() && InStep() && crypted && Unit(|piece|)
      modifies this`cdx, this`cdn, this`end, this`iv, this`staged, this`eaten, buf
      ensures StageOk() && InStep()
      ensures used <= |piece| && Unit(used) && eaten == old(eaten) + piece[..used]
      ensures used == |piece| || 8192 - end < 64
      ensures used > 0 ==> 8192 - old(end) >= 64
      ensures end >= old(end) && |staged| == old(|staged|) + used
    {
      hide StageOk, InStep, Unit;
      used := 0;
      assert Unit(0) by { UnitZero(); }
      assert piece[..0] == [] && eaten + [] == eaten;
      StageBound();
      while used + 64 <= |piece| && end + 64 <= 8192
        invariant used <= |piece| && Unit(used) && StageOk() && InStep() && end == old(end) + used
        invariant eaten == old(eaten) + piece[..used]
        invariant (used > 0 ==> 8192 - old(end) >= 64) && |staged| == old(|staged|) + used
        decreases |piece| - used
      {
        PieceMore(old(eaten), piece, used);
        EncChunk(piece[used..used + 64]);
        used := used + 64;
      }
      if used + 64 > |piece| {
        UnitGap(used, |piece|);
      }
    }

    lemma StageBound()
      requires StageOk()
      ensures end <= 8192 && (crypted ==> Sized(cipher))
    {}

    /** `dmsg_crypto_encrypt`: encrypt as many whole chunks of the iovec as fit; `nact` counts
        the plaintext that was taken. */
    method Encrypt(iov: seq<seq<byte>>) returns (nact: nat)
      requires StageOk() && InStep() && crypted && AllUnits(iov)
      modifies this`cdx, this`cdn, this`end, this`iv, this`staged, this`eaten, buf
      ensures StageOk() && InStep()
      ensures nact <= |Flat(iov)| && Unit(nact) && eaten == old(eaten) + Flat(iov)[..nact]
      ensures (nact == |Flat(iov)| || 8192 - end < 64) && |staged| == old(|staged|) + nact
    {
      hide Flat, StageOk, InStep, Unit;
      nact := 0;
      var i := 0;
      FlatPrefix(iov, 0);
      assert Unit(0) by { UnitZero(); }
      while i < |iov| && end < 8192
        invariant 0 <= i <= |iov| && StageOk() && InStep() && Unit(nact)
        invariant nact <= |Flat(iov[..i])| && Flat(iov[..i]) <= Flat(iov) && eaten == old(eaten) + Flat(iov)[..nact]
        invariant (nact == |Flat(iov[..i])| || 8192 - end < 64) && |staged| == old(|staged|) + nact
      {
        FlatPrefix(iov, i);
        var used := EncPiece(iov[i]);
        UnitSum(nact, used);
        TakeMore(old(eaten), Flat(iov[..i]), iov[i], Flat(iov), nact, used);
        nact := nact + used;
        i := i + 1;
      }
      FlatPrefix(iov, i);
    }

    /** Write staged ciphertext to the socket. */
    method WriteStaged(w: SockWrite) returns (n: int)
      requires StageOk() && InStep() && crypted
      modifies this`beg, this`cdx, this`cdn, this`end, this`staged, this`sent
      ensures StageOk() && InStep() && n == Writev(w, old(|staged|)) && sent + staged == old(sent + staged)
      ensures n > 0 ==> sent == old(sent) + old(staged)[..n]
      ensures n <= 0 ==> sent == old(sent)
    {
      n := Writev(w, cdx - beg);
      if n > 0 {
        var bytes := buf[beg..end][..n];
        SplitAt(staged, n);
        ConcatAssoc(sent, bytes, staged[n..]);
        sent := sent + bytes;
        staged := staged[n..];
        beg := beg + n;
        if beg == end {
          beg, cdn, cdx, end := 0, 0, 0, 0;
        }
      }
    }

    /** Hand an iovec to the socket, through the cipher on an encrypted link. */
    method Pump(iov: seq<seq<byte>>, w: SockWrite) returns (n: int, nact: nat)
      requires StageOk() && InStep() && (crypted ==> AllUnits(iov))
      modifies this`beg, this`cdx, this`cdn, this`end, this`iv, this`staged, this`sent, this`eaten, buf
      ensures StageOk() && InStep() && (n >= 0 <==> w.Accepts?)
      ensures nact <= |Flat(iov)| && eaten == old(eaten) + Flat(iov)[..nact] && (crypted ==> Unit(nact))
      ensures old(sent) <= sent && (n > 0 ==> |sent| > old(|sent|))
      ensures w.Accepts? && w.room > 0 && (Flat(iov) != [] || old(staged) != []) ==> n > 0
    {
      if crypted {
        hide InStep, StageOk, Unit, AllUnits, Flat;
        Compact();
        StagedSize();
        nact := Encrypt(iov);
        StagedSize();
        n := WriteStaged(w);
      } else {
        n := Writev(w, |Flat(iov)|);
        nact := if n > 0 then n else 0;
        sent := sent + Flat(iov)[..nact];
        eaten := eaten + Flat(iov)[..nact];
      }
    }

    lemma StagedSize()
      requires StageOk()
      ensures |staged| == end - beg && cdx == end && (staged == [] ==> beg == end == 0) && end <= 8192
    {}

    /** Finish one message and put it on the queue; after a fatal error it only waits to be
        thrown away. */
    method Enqueue(m: Message, salt: seq<byte>)
      requires Valid() && Sendable(crc, m) && |salt| == 3
      modifies this`msgq, this`log, this`seqno
      ensures Valid()
      ensures if error then log == old(log) else log == old(log) + [Stamp(crc, old(seqno), salt, m)]
      ensures msgq == old(msgq) + [if error then m else Stamp(crc, old(seqno), salt, m)]
    {
      hide StageOk, InStep, QueueIs, Stamp, Stamped, Sendable, WireAll;
      if error {
        msgq := msgq + [m];
      } else {
        var r := Stamp(crc, seqno, salt, m);
        StampIsStamped(crc, seqno, salt, m);
        QueueMore(crypted, msgq, hbytes, abytes, eaten, log, crc, seqno, r);
        msgq := msgq + [r];
        seqno := seqno + 1;
        log := log + [r];
      }
    }

    /** `dmsg_iocom_drain`: after a fatal error the queue is thrown away. */
    method Drain()
      requires StageOk() && InStep() && LogOk() && eaten <= WireAll(log) && error
      modifies this`msgq, this`hbytes, this`abytes, this`wreq, this`wwork
      ensures Valid() && msgq == [] && !wreq && !wwork
    {
      hide StageOk, InStep, LogOk, WireAll;
      wreq, wwork := false, false;
      hbytes, abytes := 0, 0;
      msgq := [];
    }

    /** Bytes that the socket still has to take. */
    ghost predicate Pending()
      reads this
    {
      staged != [] || msgq != []
    }

    /** Send what an iovec holds, or part of it, and take that off the queue. */
    method SendSome(iov: seq<seq<byte>>, w: SockWrite) returns (n: int, ghost gone: nat)
      requires StageOk() && InStep() && QueueOk()
      requires Offsets(msgq, hbytes, abytes) && Flat(iov) <= Unsent(msgq, hbytes, abytes) && (crypted ==> AllUnits(iov))
      modifies this`beg, this`cdx, this`cdn, this`end, this`iv, this`staged, this`sent, this`eaten, buf
      modifies this`msgq, this`hbytes, this`abytes
      ensures StageOk() && InStep() && QueueOk() && eaten <= WireAll(log)
      ensures old(sent) <= sent && old(eaten) <= eaten && gone <= old(|msgq|) && msgq == old(msgq)[gone..]
      ensures n >= 0 <==> w.Accepts?
      ensures n > 0 ==> |sent| > old(|sent|)
      ensures w.Accepts? && w.room > 0 && (Flat(iov) != [] || old(staged) != []) ==> n > 0
    {
      hide StageOk, InStep, QueueIs, Unit, AllUnits, WireAll, Flat, Unsent, Offsets, AllQueueable;
      ghost var h, a, before, all := hbytes, abytes, eaten, WireAll(log);
      QueueFacts(crypted, msgq, h, a, before, all);
      var nact;
      n, nact := Pump(iov, w);
      var count, h', a' := Dequeue(msgq, hbytes, abytes, nact);
      QueueTake(crypted, msgq, h, a, before, all, Flat(iov), nact, count, h', a');
      gone := count;
      msgq, hbytes, abytes := msgq[count..], h', a';
    }

    /** `dmsg_iocom_flush2`: one attempt to send what is queued; `more` when other messages
        wait to be queued. */
    method Flush2(w: SockWrite, more: bool) returns (ghost gone: nat)
      requires Valid()
      modifies this, buf
      ensures Valid() && log == old(log) && seqno == old(seqno) && old(sent) <= sent && old(eaten) <= eaten
      ensures error == (old(error) || (w.Broken? && old(Pending())))
      ensures gone <= old(|msgq|) && (if error then msgq == [] else msgq == old(msgq)[gone..])
      ensures !error && old(Pending()) && w.Accepts? && w.room > 0 ==> |sent| > old(|sent|)
      ensures !error && Pending() ==> wreq || wwork
    {
      hide StageOk, InStep, LogOk, QueueIs, Unit, AllUnits, WireAll, Flat, Unsent;
      gone := 0;
      if error {
        Drain();
        return;
      }
      StagedSize();
      QueueFacts(crypted, msgq, hbytes, abytes, eaten, WireAll(log));
      var iov, nact := BuildIovec(msgq, hbytes, abytes);
      IovEmpty(iov);
      if |iov| == 0 && beg == cdx {
        return;
      }
      var n;
      n, gone := SendSome(iov, w);
      StagedSize();
      if n < 0 {
        if w.Broken? {
          error := true;
          Drain();
        } else {
          wreq := true;
        }
      } else if msgq != [] || more || beg != cdx {
        wwork := true;
      }
    }

    /** `dmsg_iocom_flush1`: finish the waiting messages in order, queue them and start a flush. */
    method Flush1(txmsgq: seq<Message>, salts: seq<seq<byte>>, w: SockWrite, more: bool)
      requires Valid() && |salts| == |txmsgq|
      requires forall k :: 0 <= k < |txmsgq| ==> Sendable(crc, txmsgq[k]) && |salts[k]| == 3
      modifies this, buf
      ensures Valid() && old(sent) <= sent && old(eaten) <= eaten
      ensures old(error) ==> error && log == old(log)
      ensures !old(error) ==> log == old(log) + StampAll(crc, old(seqno), salts, txmsgq)
      ensures !error && Pending() ==> wreq || wwork
    {
      hide StageOk, InStep, QueueIs, Stamp, Stamped, Sendable, WireAll;
      wreq, wwork := false, false;
      var k := 0;
      while k < |txmsgq|
        invariant 0 <= k <= |txmsgq| && Valid() && sent == old(sent) && eaten == old(eaten) && error == old(error)
        invariant error ==> log == old(log)
        invariant !error ==> seqno == old(seqno) + k
        invariant !error ==>
          log + StampAll(crc, seqno, salts[k..], txmsgq[k..]) == old(log) + StampAll(crc, old(seqno), salts, txmsgq)
      {
        ghost var rest := StampAll(crc, seqno + 1, salts[k + 1..], txmsgq[k + 1..]);
        assert txmsgq[k..][1..] == txmsgq[k + 1..] && salts[k..][1..] == salts[k + 1..];
        ConcatAssoc(log, [Stamp(crc, seqno, salts[k], txmsgq[k])], rest);
        Enqueue(txmsgq[k], salts[k]);
        k := k + 1;
      }
      ghost var gone := Flush2(w, more);
    }
  }

  lemma IovEmpty(iov: seq<seq<byte>>)
    ensures iov == [] ==> Flat(iov) == []
  {}

  lemma SplitAt(s: seq<byte>, n: nat)
    requires n <= |s|
    ensures s == s[..n] + s[n..]
  {}

  lemma PieceMore(e: seq<byte>, piece: seq<byte>, used: nat)
    requires used + 64 <= |piece|
    ensures (e + piece[..used]) + piece[used..used + 64] == e + piece[..used + 64]
    ensures Unit(used) ==> Unit(used + 64)
  {}

  lemma TakeMore(e: seq<byte>, done: seq<byte>, piece: seq<byte>, all: seq<byte>, nact: nat, used: nat)
    requires used <= |piece| && nact <= |done| && done + piece <= all && (nact == |done| || used == 0)
    ensures (e + all[..nact]) + piece[..used] == e + all[..nact + used]
  {}

  /** The first pieces of an iovec are a prefix of it. */
  lemma {:induction false} FlatPrefix(iov: seq<seq<byte>>, i: nat)
    requires i <= |iov|
    ensures Flat(iov[..i]) <= Flat(iov) && (i == 0 ==> Flat(iov[..i]) == []) && (i == |iov| ==> iov[..i] == iov)
    ensures i < |iov| ==> Flat(iov[..i + 1]) == Flat(iov[..i]) + iov[i] && Flat(iov[..i + 1]) <= Flat(iov)
    decreases |iov| - i
  {
    if i < |iov| {
      assert iov[..i + 1][..i] == iov[..i];
      FlatPrefix(iov, i + 1);
    } else {
      assert iov[..i] == iov;
    }
  }
}
