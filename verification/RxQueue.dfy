/** The receiving side of a dmsg connection: a resumable parser over a sliding buffer. */
module RxQueue {
  import opened Basics
  import opened Wire
  import opened Cipher
  import opened RxFifo

  /** Where the parser stands: waiting for a core header, for the rest of an extended header
      of known sizes, or for auxiliary data behind a header that has been taken. */
  datatype RxState =
    | Header1
    | Header2(sizes: Head)
    | AuxData2(sizes: Head, head: seq<byte>, aux: seq<byte>)
    | Error

  /** What one call of the reader returns. */
  datatype RxResult = NoMessage | Delivered(msg: Message) | Failed(error: RxError)

  /** Decrypted bytes come in whole chunks on an encrypted link. */
  ghost predicate FifoOk(fifo: Fifo)
    reads fifo, fifo.buf
  {
    fifo.Valid() && (fifo.crypted ==> |fifo.data| % 64 == 0)
  }

  /** Space enough to finish a header of `hbytes` without moving anything. */
  ghost predicate HeaderRoom(fifo: Fifo, hbytes: nat)
    requires fifo.BufOk()
    reads fifo
  {
    |fifo.data| < hbytes ==> fifo.Slack() >= 2 * (hbytes - |fifo.data|)
  }

  lemma WholeUnits(a: nat, b: nat)
    requires b <= a && b % 64 == 0
    ensures a % 64 == 0 ==> (a - b) % 64 == 0
  {}

  /** The core header: read until 64 bytes are there, then take its sizes. */
  method ReadHeader1(fifo: Fifo) returns (err: Option<RxError>, h: Head, ghost taken: seq<byte>)
    requires FifoOk(fifo)
    modifies fifo, fifo.buf
    ensures FifoOk(fifo) && Flow(fifo.crypted, fifo.cipher, old(fifo.Now()), taken, fifo.Now())
    ensures err.Some? ==> err.value in {Eof, Sock} && !fifo.healthy
    ensures fifo.readCalls >= old(fifo.readCalls) && (h.HeadMore? ==> fifo.readCalls > old(fifo.readCalls))
    ensures h == ParseHead(fifo.data)
    ensures err.None? && h.HeadOk? ==> HeaderRoom(fifo, h.hbytes)
  {
    hide Flow, ParseHead, Fifo.Valid, Fifo.BufOk;
    var nmax := fifo.MakeRoom(64);
    err, taken := fifo.Fill(fifo.Have() < 64, nmax);
    assert fifo.data[..|fifo.data|] == fifo.data;
    h := ParseHead(fifo.Peek(fifo.Have()));
    if err.None? && h.HeadOk? {
      nmax := fifo.MakeRoom(h.hbytes);
    }
  }

  /** The extended header: complete it, check its CRC, take it out of the buffer.  `p` is
      the decrypted data before the header was taken. */
  method ReadHeader2(fifo: Fifo, crc: Crc, h: Head)
    returns (r: Option<RxResult>, head: seq<byte>, ghost p: seq<byte>, ghost taken: seq<byte>)
    requires FifoOk(fifo) && h.HeadOk? && 64 <= h.hbytes && h.hbytes % 64 == 0 && HeaderRoom(fifo, h.hbytes)
    modifies fifo, fifo.buf
    ensures FifoOk(fifo) && Flow(fifo.crypted, fifo.cipher, old(fifo.Now()), taken, fifo.Now().(data := p))
    ensures |p| >= |old(fifo.data)| && old(fifo.data) == p[..|old(fifo.data)|]
    ensures r.Some? ==> p == fifo.data
    ensures r.None? ==> |head| == h.hbytes && p == head + fifo.data && HeadCrcOk(crc, head)
    ensures r == Some(NoMessage) ==> |p| < h.hbytes && HeaderRoom(fifo, h.hbytes)
    ensures r.Some? ==> r.value in {NoMessage, Failed(Eof), Failed(Sock), Failed(Xcrc)}
    ensures r.Some? && r.value in {Failed(Eof), Failed(Sock)} ==> !fifo.healthy
    ensures r == Some(Failed(Xcrc)) ==> |p| >= h.hbytes && !HeadCrcOk(crc, p[..h.hbytes])
    ensures fifo.readCalls >= old(fifo.readCalls) && (r == Some(NoMessage) ==> fifo.readCalls > old(fifo.readCalls))
  {
    hide Flow, HeadCrcOk, Fifo.Valid, Fifo.BufOk;
    var err;
    head := [];
    fifo.RoomAndSlack();
    err, taken := fifo.Fill(fifo.Have() < h.hbytes, fifo.Room());
    p := fifo.data;
    if err.Some? {
      r := Some(Failed(err.value));
    } else if fifo.Have() < h.hbytes {
      r := Some(NoMessage);
    } else if !HeadCrcOk(crc, fifo.Peek(h.hbytes)) {
      r := Some(Failed(Xcrc));
    } else {
      WholeUnits(|p|, h.hbytes);
      head := fifo.Take(h.hbytes);
      r := None;
    }
  }

  /** Auxiliary data: as much more as one read brings. */
  method ReadAux(fifo: Fifo, abytes: nat, aux: seq<byte>) returns (err: Option<RxError>, aux': seq<byte>, ghost taken: seq<byte>)
    requires FifoOk(fifo) && abytes % 64 == 0 && |aux| <= abytes && (fifo.crypted ==> |aux| % 64 == 0)
    requires |aux| < abytes ==> fifo.data == []
    modifies fifo, fifo.buf
    ensures FifoOk(fifo)
    ensures Flow(fifo.crypted, fifo.cipher, old(fifo.Now()).(data := aux + old(fifo.data)), taken, fifo.Now().(data := aux' + fifo.data))
    ensures |aux'| <= abytes && (fifo.crypted ==> |aux'| % 64 == 0) && (|aux'| < abytes ==> fifo.data == [])
    ensures err.Some? ==> err.value in {Eof, Sock} && !fifo.healthy
    ensures fifo.readCalls >= old(fifo.readCalls) && (|aux'| < abytes ==> fifo.readCalls > old(fifo.readCalls))
  {
    hide Flow, Fifo.Valid, Fifo.BufOk;
    var nmax := fifo.MakeRoom(abytes - |aux|);
    if |aux| < abytes {
      assert nmax > 0;
      assert fifo.Have() == 0;
    }
    err, taken := fifo.Fill(|aux| < abytes, nmax);
    FlowPrefix(fifo.crypted, fifo.cipher, old(fifo.Now()), taken, fifo.Now(), aux);
    aux' := TakeAux(fifo, abytes, aux);
  }

  /** Move buffered bytes into the auxiliary data, as many as it lacks. */
  method TakeAux(fifo: Fifo, abytes: nat, aux: seq<byte>) returns (aux': seq<byte>)
    requires FifoOk(fifo) && abytes % 64 == 0 && |aux| <= abytes && (fifo.crypted ==> |aux| % 64 == 0)
    modifies fifo`beg, fifo`data
    ensures FifoOk(fifo) && aux' + fifo.data == aux + old(fifo.data)
    ensures |aux'| <= abytes && (fifo.crypted ==> |aux'| % 64 == 0) && (|aux'| < abytes ==> fifo.data == [])
  {
    var n := if fifo.Have() > abytes - |aux| then abytes - |aux| else fifo.Have();
    WholeUnits(|fifo.data|, if fifo.crypted then n else 0);
    var bytes := fifo.Take(n);
    aux' := aux + bytes;
  }

  class Queue {
    const crc: Crc
    const fifo: Fifo
    var state: RxState
    var seqno: nat

    /** Everything received and decrypted that belongs to messages not yet delivered. */
    ghost function Pending(): seq<byte>
      reads this, fifo
    {
      if state.AuxData2? then state.head + state.aux + fifo.data else fifo.data
    }

    /** Between calls. */
    ghost predicate Valid()
      reads this, fifo, fifo.buf
    {
      && FifoOk(fifo)
      && match state
         case Header1 => true
         case Header2(h) => h.HeadOk? && ParseHead(fifo.data) == h && |fifo.data| < h.hbytes && HeaderRoom(fifo, h.hbytes)
         case AuxData2(h, head, aux) => HeadTaken(h, head) && AuxPart(h, aux) && |aux| < h.abytes && fifo.data == []
         case Error => true
    }

    ghost predicate HeadTaken(h: Head, head: seq<byte>) {
      h.HeadOk? && |head| == h.hbytes && ParseHead(head) == h && HeadCrcOk(crc, head)
    }

    ghost predicate AuxPart(h: Head, aux: seq<byte>)
      requires h.HeadOk?
    {
      |aux| <= h.abytes && (fifo.crypted ==> |aux| % 64 == 0)
    }

    constructor (crc: Crc, crypted: bool, cipher: ChunkCipher, iv: nat, healthy: bool)
      requires crypted ==> Sized(cipher)
      ensures Valid() && fresh(fifo) && fresh(fifo.buf) && Pending() == [] && fifo.raw == [] && fifo.inflight == []
      ensures this.crc == crc && fifo.crypted == crypted && fifo.cipher == cipher
      ensures state == Header1 && seqno == 0 && fifo.iv == iv && fifo.healthy == healthy
    {
      this.crc := crc;
      fifo := new Fifo(crypted, cipher, iv, healthy);
      state, seqno := Header1, 0;
    }

    /** The rest of a call once the header has been taken. */
    method FromAux(h: Head, head: seq<byte>, aux: seq<byte>) returns (r: RxResult, ghost p: seq<byte>, ghost taken: seq<byte>)
      requires FifoOk(fifo) && HeadTaken(h, head) && AuxPart(h, aux) && (|aux| < h.abytes ==> fifo.data == [])
      modifies this`state, this`seqno, fifo, fifo.buf
      ensures Valid()
      ensures Flow(fifo.crypted, fifo.cipher, old(fifo.Now()).(data := head + (aux + old(fifo.data))), taken, fifo.Now().(data := p))
      ensures Outcome(crc, old(seqno), fifo.healthy, p, r, Pending())
      ensures fifo.readCalls >= old(fifo.readCalls) && (r == NoMessage ==> fifo.readCalls > old(fifo.readCalls))
      ensures seqno == old(seqno) + (if r.Delivered? then 1 else 0) && (state.Error? <==> r.Failed?)
    {
      hide Flow, ParseHead, ParseOne, ParseAux;
      var err, aux';
      err, aux', taken := ReadAux(fifo, h.abytes, aux);
      p := head + (aux' + fifo.data);
      FlowPrefix(fifo.crypted, fifo.cipher, old(fifo.Now()).(data := aux + old(fifo.data)), taken,
                 fifo.Now().(data := aux' + fifo.data), head);
      if err.Some? {
        state := Error;
        return Failed(err.value), p, taken;
      }
      r := Finish(h, head, aux');
    }

    /** Wait for more, or check the completed message and hand it over. */
    method Finish(h: Head, head: seq<byte>, aux: seq<byte>) returns (r: RxResult)
      requires FifoOk(fifo) && HeadTaken(h, head) && AuxPart(h, aux) && (|aux| < h.abytes ==> fifo.data == [])
      modifies this`state, this`seqno, fifo`beg, fifo`cdx, fifo`cdn, fifo`end
      ensures Valid() && (r == NoMessage <==> |aux| < h.abytes)
      ensures Outcome(crc, old(seqno), fifo.healthy, head + (aux + fifo.data), r, Pending())
      ensures seqno == old(seqno) + (if r.Delivered? then 1 else 0) && (state.Error? <==> r.Failed?)
    {
      hide ParseHead, ParseOne, HeadCrcOk, Fifo.Valid;
      ParseBehindHead(crc, seqno, h, head, aux + fifo.data);
      CutAux(head, aux, fifo.data);
      if |aux| < h.abytes {
        state := AuxData2(h, head, aux);
        assert Pending() == head + (aux + fifo.data);
        return NoMessage;
      }
      if h.abytes != 0 && crc(aux) != Get32(head, AUX_CRC) {
        state := Error;
        return Failed(Acrc);
      }
      if head[SALT] != seqno % 256 {
        state := Error;
        return Failed(MsgSeq);
      }
      seqno := seqno + 1;
      fifo.Reset();
      state := Header1;
      r := Delivered(Message(head, aux, h.size));
    }

    /** The rest of a call once the sizes are known. */
    method FromHeader2(h: Head) returns (r: RxResult, ghost p: seq<byte>, ghost taken: seq<byte>)
      requires FifoOk(fifo) && h.HeadOk? && ParseHead(fifo.data) == h && HeaderRoom(fifo, h.hbytes)
      modifies this`state, this`seqno, fifo, fifo.buf
      ensures Valid() && Flow(fifo.crypted, fifo.cipher, old(fifo.Now()), taken, fifo.Now().(data := p))
      ensures Outcome(crc, old(seqno), fifo.healthy, p, r, Pending())
      ensures fifo.readCalls >= old(fifo.readCalls) && (r == NoMessage ==> fifo.readCalls > old(fifo.readCalls))
      ensures seqno == old(seqno) + (if r.Delivered? then 1 else 0) && (state.Error? <==> r.Failed?)
    {
      hide Flow, ParseHead, ParseOne, HeadCrcOk, Fifo.Valid;
      var head, e;
      ghost var p1, taken1, taken2;
      e, head, p1, taken1 := ReadHeader2(fifo, crc, h);
      HeadGrows(old(fifo.data), p1);
      if e.Some? {
        r, p, taken := e.value, p1, taken1;
        HeaderDecides(crc, seqno, p, h);
        state := if r == NoMessage then Header2(h) else Error;
        return;
      }
      HeadGrows(head, p1);
      ghost var m1 := fifo.Now().(data := p1);
      var aux := TakeAux(fifo, h.abytes, []);
      assert head + (aux + fifo.data) == p1;
      r, p, taken2 := FromAux(h, head, aux);
      taken := taken1 + taken2;
      FlowCompose(fifo.crypted, fifo.cipher, old(fifo.Now()), taken1, m1, taken2, fifo.Now().(data := p));
    }

    /** The rest of a call that starts a new message. */
    method FromHeader1() returns (r: RxResult, ghost p: seq<byte>, ghost taken: seq<byte>)
      requires Valid() && state == Header1
      modifies this`state, this`seqno, fifo, fifo.buf
      ensures Valid() && Flow(fifo.crypted, fifo.cipher, old(fifo.Now()), taken, fifo.Now().(data := p))
      ensures Outcome(crc, old(seqno), fifo.healthy, p, r, Pending())
      ensures fifo.readCalls >= old(fifo.readCalls) && (r == NoMessage ==> fifo.readCalls > old(fifo.readCalls))
      ensures seqno == old(seqno) + (if r.Delivered? then 1 else 0) && (state.Error? <==> r.Failed?)
    {
      hide Flow, ParseHead, ParseOne, HeadCrcOk, Fifo.Valid;
      var err, h;
      ghost var taken1, taken2;
      err, h, taken1 := ReadHeader1(fifo);
      p, taken := fifo.data, taken1;
      HeadDecides(crc, seqno, p);
      if err.Some? {
        state := Error;
        return Failed(err.value), p, taken;
      }
      match h {
        case HeadMore =>
          r := NoMessage;
        case HeadBad(e) =>
          state := Error;
          r := Failed(e);
        case HeadOk(_, _, _) =>
          ghost var m1 := fifo.Now();
          r, p, taken2 := FromHeader2(h);
          taken := taken1 + taken2;
          FlowCompose(fifo.crypted, fifo.cipher, old(fifo.Now()), taken1, m1, taken2, fifo.Now().(data := p));
      }
    }

    /** `dmsg_ioq_read`: one call of the reader.  Its result, and what stays pending, are those
        of the incremental parse of everything received so far, however it arrived. */
    method Read() returns (r: RxResult, ghost p: seq<byte>, ghost taken: seq<byte>)
      requires Valid() && !state.Error?
      modifies this`state, this`seqno, fifo, fifo.buf
      ensures Valid()
      ensures Flow(fifo.crypted, fifo.cipher, old(fifo.Now()).(data := old(Pending())), taken, fifo.Now().(data := p))
      ensures Outcome(crc, old(seqno), fifo.healthy, p, r, Pending())
      ensures fifo.readCalls >= old(fifo.readCalls) && (r == NoMessage ==> fifo.readCalls > old(fifo.readCalls))
      ensures seqno == old(seqno) + (if r.Delivered? then 1 else 0) && (state.Error? <==> r.Failed?)
    {
      hide Flow, ParseHead, ParseOne, HeadCrcOk, Fifo.Valid;
      match state {
        case Header1 =>
          r, p, taken := FromHeader1();
        case Header2(h) =>
          r, p, taken := FromHeader2(h);
        case AuxData2(h, head, aux) =>
          assert head + (aux + []) == head + aux + [];
          r, p, taken := FromAux(h, head, aux);
      }
    }
  }

  /** Before the core header is complete, and when it is bad. */
  lemma HeadDecides(crc: Crc, seqno: nat, p: seq<byte>)
    ensures ParseHead(p).HeadMore? ==> ParseOne(crc, seqno, p) == More
    ensures ParseHead(p).HeadBad? ==> ParseOne(crc, seqno, p) == Bad(ParseHead(p).error)
  {}

  lemma CutAux(head: seq<byte>, aux: seq<byte>, data: seq<byte>)
    ensures (aux + data)[..|aux|] == aux
    ensures (head + (aux + data))[|head| + |aux|..] == data
  {}

  /** A prefix with the same 64 bytes has the same sizes. */
  lemma HeadGrows(s: seq<byte>, t: seq<byte>)
    requires 64 <= |s| <= |t| && s == t[..|s|]
    ensures ParseHead(s) == ParseHead(t)
  {
    assert t == s + t[|s|..];
    ParseHeadStable(s, t[|s|..]);
  }

  /** Before the header is complete, and when its CRC is wrong. */
  lemma HeaderDecides(crc: Crc, seqno: nat, p: seq<byte>, h: Head)
    requires h.HeadOk? && ParseHead(p) == h
    ensures |p| < h.hbytes ==> ParseOne(crc, seqno, p) == More
    ensures |p| >= h.hbytes && !HeadCrcOk(crc, p[..h.hbytes]) ==> ParseOne(crc, seqno, p) == Bad(Xcrc)
  {}

  /** A call's result is what the stream received so far, `p`, determines. */
  ghost predicate Outcome(crc: Crc, seqno: nat, healthy: bool, p: seq<byte>, r: RxResult, rest: seq<byte>) {
    match r
    case NoMessage => ParseOne(crc, seqno, p) == More && rest == p
    case Delivered(m) =>
      var q := ParseOne(crc, seqno, p);
      q.Got? && q.msg == m && rest == p[q.used..]
    case Failed(e) => (e in {Eof, Sock} && !healthy) || ParseOne(crc, seqno, p) == Bad(e)
  }

  /** Behind a complete header, only the auxiliary data is left to wait for and to check. */
  lemma ParseBehindHead(crc: Crc, seqno: nat, h: Head, head: seq<byte>, s: seq<byte>)
    requires h.HeadOk? && |head| == h.hbytes && |head| >= 64 && ParseHead(head) == h && HeadCrcOk(crc, head)
    ensures ParseOne(crc, seqno, head + s) ==
      if |s| < h.abytes then More else ParseAux(crc, seqno, head, s[..h.abytes], h.size)
  {
    hide ParseHead, HeadCrcOk, ParseAux;
    ParseHeadStable(head, s);
    assert (head + s)[..h.hbytes] == head;
    if |s| >= h.abytes {
      assert (head + s)[h.hbytes..h.hbytes + h.abytes] == s[..h.abytes];
    }
  }
}
