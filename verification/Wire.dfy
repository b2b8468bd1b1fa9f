/** The dmsg wire format: what a message looks like on the stream, and the incremental
    parse of a stream prefix that a receiver must implement. */
module Wire {
  import opened Basics

  const DMSG_HDR_MAGIC := 0x4832
  const DMSG_HDR_MAGIC_REV := 0x3248
  const DMSG_HDR_MAX := 2048
  const DMSG_AUX_MAX := 65536
  const DMSG_BUF_SIZE := 8192

  // Offsets in the core header.
  const SALT := 0x04
  const CMD := 0x20
  const AUX_CRC := 0x24
  const AUX_BYTES := 0x28
  const HDR_CRC := 0x3C

  function DoAlign(n: nat): (r: nat)
    ensures r % 64 == 0 && n <= r < n + 64
  {
    (n + 63) / 64 * 64
  }

  /** The same in 32 bit arithmetic, as the receiver computes it. */
  function DoAlign32(n: u32): (r: nat)
    ensures r % 64 == 0
    ensures n <= 0xFFFF_FFC0 ==> r == DoAlign(n)
  {
    (n + 63) % 0x1_0000_0000 / 64 * 64
  }

  /** A message: its header, its auxiliary buffer (a whole number of 64 byte units) and
      the unaligned size of the auxiliary data. */
  datatype Message = Message(head: seq<byte>, data: seq<byte>, size: nat)

  datatype RxError = Eof | Sock | Sync | ForeignEndian | Field | Xcrc | Acrc | MsgSeq

  datatype Head = HeadMore | HeadBad(error: RxError) | HeadOk(hbytes: nat, abytes: nat, size: nat)

  type Crc = seq<byte> -> u32

  function Magic(s: seq<byte>): nat
    requires |s| >= 2
  {
    s[0] as int + 0x100 * s[1] as int
  }

  /** The extended header size encoded in the command word. */
  function HdrBytes(s: seq<byte>): nat
    requires |s| >= 64
  {
    s[CMD] as int * 64
  }

  /** Sizes from the core header, once it has arrived. */
  function ParseHead(s: seq<byte>): (h: Head)
    ensures h.HeadMore? <==> |s| < 64
    ensures h.HeadOk? ==> 64 <= |s| && 64 <= h.hbytes <= DMSG_HDR_MAX && h.hbytes % 64 == 0
    ensures h.HeadOk? ==> h.abytes <= DMSG_AUX_MAX && h.abytes % 64 == 0
  {
    if |s| < 64 then HeadMore
    else if Magic(s) == DMSG_HDR_MAGIC_REV then HeadBad(ForeignEndian)
    else if Magic(s) != DMSG_HDR_MAGIC then HeadBad(Sync)
    else
      var hbytes := HdrBytes(s);
      var size := Get32(s, AUX_BYTES);
      var abytes := DoAlign32(size);
      if hbytes < 64 || hbytes > DMSG_HDR_MAX || abytes > DMSG_AUX_MAX then HeadBad(Field)
      else HeadOk(hbytes, abytes, size)
  }

  /** The header as it is covered by its CRC. */
  function Uncrced(head: seq<byte>): (r: seq<byte>)
    requires |head| >= 64
    ensures |r| == |head|
  {
    Put32(head, HDR_CRC, 0)
  }

  predicate HeadCrcOk(crc: Crc, head: seq<byte>)
    requires |head| >= 64
  {
    crc(Uncrced(head)) == Get32(head, HDR_CRC)
  }

  datatype Parse = More | Bad(error: RxError) | Got(msg: Message, used: nat)

  /** The first message of a stream prefix, given the expected sequence number. */
  function ParseOne(crc: Crc, seqno: nat, s: seq<byte>): (p: Parse)
    ensures p.Got? ==> 64 <= p.used <= |s|
    ensures p.Bad? ==> p.error != Eof && p.error != Sock
  {
    match ParseHead(s)
    case HeadMore => More
    case HeadBad(e) => Bad(e)
    case HeadOk(hbytes, abytes, size) =>
      if |s| < hbytes then More
      else if !HeadCrcOk(crc, s[..hbytes]) then Bad(Xcrc)
      else if |s| < hbytes + abytes then More
      else ParseAux(crc, seqno, s[..hbytes], s[hbytes..hbytes + abytes], size)
  }

  /** The checks that are left when all of the message is there. */
  function ParseAux(crc: Crc, seqno: nat, head: seq<byte>, data: seq<byte>, size: nat): (p: Parse)
    requires |head| >= 64
    ensures p.Got? ==> p.used == |head| + |data| && p.msg == Message(head, data, size)
    ensures p.Bad? ==> p.error != Eof && p.error != Sock
    ensures !p.More?
  {
    if data != [] && crc(data) != Get32(head, AUX_CRC) then Bad(Acrc)
    else if head[SALT] != seqno % 256 then Bad(MsgSeq)
    else Got(Message(head, data, size), |head| + |data|)
  }

  /** Extending a prefix never changes what has already been recognised. */
  lemma ParseHeadStable(s: seq<byte>, t: seq<byte>)
    requires |s| >= 64
    ensures ParseHead(s + t) == ParseHead(s)
  {
    GetPrefix32(s + t, s, AUX_BYTES, 64);
  }

  /** The bytes of the core header that belong to the framing: magic, salt, auxiliary CRC and
      size, and header CRC. */
  predicate Framed(i: int) { 0 <= i < 2 || 4 <= i < 8 || 0x24 <= i < 0x2C || 0x3C <= i < 0x40 }

  /** `r` carries what `m` said: its data, its size, and every header byte that is not the
      framing's; an auxiliary CRC that was set, or that is not needed, stays. */
  ghost predicate Carries(m: Message, r: Message) {
    && r.data == m.data && r.size == m.size && |r.head| == |m.head| >= 64
    && (forall i {:trigger r.head[i]} :: 0 <= i < |m.head| && !Framed(i) ==> r.head[i] == m.head[i])
    && (m.size == 0 || Get32(m.head, AUX_CRC) != 0 ==> r.head[0x24..0x28] == m.head[0x24..0x28])
  }

  /** Message by message. */
  ghost predicate AllCarry(ms: seq<Message>, rs: seq<Message>) {
    |rs| == |ms| && forall k {:trigger Carries(ms[k], rs[k])} :: 0 <= k < |ms| ==> Carries(ms[k], rs[k])
  }

  lemma AllCarryMore(ms: seq<Message>, rs: seq<Message>, ms': seq<Message>, rs': seq<Message>)
    requires AllCarry(ms, rs) && AllCarry(ms', rs')
    ensures AllCarry(ms + ms', rs + rs')
  {
    hide Carries;
    var a, b := ms + ms', rs + rs';
    forall k {:trigger Carries(a[k], b[k])} | 0 <= k < |a| ensures Carries(a[k], b[k]) {
      assert if k < |ms| then Carries(ms[k], rs[k]) else Carries(ms'[k - |ms|], rs'[k - |ms|]);
    }
  }

  lemma AllCarryFirst(ms: seq<Message>, rs: seq<Message>, n: nat)
    requires AllCarry(ms, rs) && n <= |ms|
    ensures AllCarry(ms[..n], rs[..n])
  {
    hide Carries;
    forall k {:trigger Carries(ms[..n][k], rs[..n][k])} | 0 <= k < n ensures Carries(ms[..n][k], rs[..n][k]) {
      assert Carries(ms[k], rs[k]);
    }
  }

  /** What the sender makes of a message: magic, salt, CRCs and size filled in, and the rest
      left as it was. */
  function Stamp(crc: Crc, seqno: nat, salt: seq<byte>, m: Message): (r: Message)
    requires Sendable(crc, m) && |salt| == 3
    ensures Carries(m, r)
  {
    var h0 := Salted(seqno, salt, m.head);
    var h1 := if m.size != 0 && Get32(h0, AUX_CRC) == 0 then Put32(h0, AUX_CRC, crc(m.data)) else h0;
    var h2 := Put32(h1, AUX_BYTES, m.size);
    var h3 := Put32(h2, HDR_CRC, 0);
    m.(head := Put32(h3, HDR_CRC, crc(h3)))
  }

  /** Magic and salt; the low byte of the salt is the sequence number. */
  function Salted(seqno: nat, salt: seq<byte>, head: seq<byte>): (h: seq<byte>)
    requires |head| >= 64 && |salt| == 3
    ensures |h| == |head| && h[0] == 0x32 && h[1] == 0x48 && h[SALT] == seqno % 256
    ensures forall i :: 2 <= i < 4 || 8 <= i < |head| ==> h[i] == head[i]
  {
    [0x32, 0x48] + head[2..4] + [seqno % 256] + salt + head[8..]
  }

  /** A message as the upper layers hand it over: the header size is in its command word,
      and an auxiliary CRC is either still zero or right. */
  predicate Sendable(crc: Crc, m: Message) {
    && 64 <= |m.head| <= DMSG_HDR_MAX && |m.head| == HdrBytes(m.head)
    && m.size <= DMSG_AUX_MAX && |m.data| == DoAlign(m.size)
    && (m.size == 0 || Get32(m.head, AUX_CRC) == 0 || Get32(m.head, AUX_CRC) == crc(m.data))
  }

  function Encode(m: Message): seq<byte> { m.head + m.data }

  /** A message as it goes on the wire under sequence number `seqno`. */
  predicate Stamped(crc: Crc, seqno: nat, m: Message) {
    && 64 <= |m.head| <= DMSG_HDR_MAX && |m.head| == HdrBytes(m.head) && Magic(m.head) == DMSG_HDR_MAGIC
    && m.size <= DMSG_AUX_MAX && |m.data| == DoAlign(m.size) && Get32(m.head, AUX_BYTES) == m.size
    && m.head[SALT] == seqno % 256 && HeadCrcOk(crc, m.head)
    && (m.size != 0 ==> Get32(m.head, AUX_CRC) == crc(m.data))
  }

  lemma StampIsStamped(crc: Crc, seqno: nat, salt: seq<byte>, m: Message)
    requires Sendable(crc, m) && |salt| == 3
    ensures Stamped(crc, seqno, Stamp(crc, seqno, salt, m))
  {
    var h0 := Salted(seqno, salt, m.head);
    assert Get32(h0, AUX_CRC) == Get32(m.head, AUX_CRC);
    var h1 := if m.size != 0 && Get32(h0, AUX_CRC) == 0 then Put32(h0, AUX_CRC, crc(m.data)) else h0;
    if m.size != 0 && Get32(h0, AUX_CRC) == 0 {
      GetPut32(h0, AUX_CRC, crc(m.data));
    }
    var h2 := Put32(h1, AUX_BYTES, m.size);
    GetPut32(h1, AUX_BYTES, m.size);
    GetFrame32(h1, AUX_BYTES, m.size, AUX_CRC);
    var h3 := Put32(h2, HDR_CRC, 0);
    var h := Put32(h3, HDR_CRC, crc(h3));
    GetPut32(h3, HDR_CRC, crc(h3));
    PutPut32(h3, HDR_CRC, crc(h3), 0);
    PutPut32(h2, HDR_CRC, 0, 0);
    GetFrame32(h2, HDR_CRC, 0, AUX_CRC);
    GetFrame32(h3, HDR_CRC, crc(h3), AUX_CRC);
    GetFrame32(h2, HDR_CRC, 0, AUX_BYTES);
    GetFrame32(h3, HDR_CRC, crc(h3), AUX_BYTES);
  }

  /** The core header of a stamped message gives its sizes. */
  lemma StampedHead(crc: Crc, seqno: nat, m: Message, s: seq<byte>)
    requires Stamped(crc, seqno, m) && |s| >= 64 && s[..64] == m.head[..64]
    ensures ParseHead(s) == HeadOk(|m.head|, |m.data|, m.size)
  {
    GetPrefix32(s, m.head, AUX_BYTES, 64);
    assert s[0] == s[..64][0] && s[1] == s[..64][1] && s[CMD] == s[..64][CMD];
  }

  /** The receiver recognises exactly the stamped message, and not before it is complete. */
  lemma StampedParses(crc: Crc, seqno: nat, m: Message, s: seq<byte>)
    requires Stamped(crc, seqno, m)
    requires forall i :: 0 <= i < |s| && i < |Encode(m)| ==> s[i] == Encode(m)[i]
    ensures ParseOne(crc, seqno, s) == if |s| < |Encode(m)| then More else Got(m, |Encode(m)|)
  {
    hide ParseHead, HeadCrcOk, DoAlign;
    var w := Encode(m);
    if |s| < 64 {
      assert ParseHead(s) == HeadMore;
    } else {
      assert s[..64] == m.head[..64];
      StampedHead(crc, seqno, m, s);
      if |s| >= |m.head| {
        assert s[..|m.head|] == m.head;
        if |s| >= |w| {
          assert s[|m.head|..|m.head| + |m.data|] == m.data;
        }
      }
    }
  }
}
