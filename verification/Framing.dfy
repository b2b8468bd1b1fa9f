/** The two ends of a dmsg connection together: what is sent is what is delivered. */
module Framing {
  import opened Basics
  import opened Wire
  import opened Cipher
  import opened RxFifo
  import opened RxQueue
  import opened TxQueue

  /** Whatever part of the stream has arrived, it decrypts to a prefix of what was sent. */
  lemma ArrivedIsPrefix(crypted: bool, c: ChunkCipher, iv: nat, plain: seq<byte>, taken: seq<byte>)
    requires if crypted then Invertible(c) && |plain| % 64 == 0 && taken <= EncStream(c, iv, plain) else taken <= plain
    ensures Plain(crypted, c, iv, taken) <= plain
    ensures crypted ==> |Plain(crypted, c, iv, taken)| == Whole(|taken|)
    ensures !crypted ==> Plain(crypted, c, iv, taken) == taken
  {
    if crypted {
      Lockstep(c, iv, plain, |taken|);
      assert EncStream(c, iv, plain)[..|taken|] == taken;
    }
  }

  lemma WireSplit(log: seq<Message>, k: nat)
    requires k <= |log|
    ensures WireAll(log) == WireAll(log[..k]) + WireAll(log[k..])
    ensures k < |log| ==> WireAll(log[k..]) == Encode(log[k]) + WireAll(log[k + 1..])
    ensures k < |log| ==> WireAll(log[..k + 1]) == WireAll(log[..k]) + Encode(log[k])
  {
    hide Encode;
    assert log == log[..k] + log[k..];
    WireAllAppend(log[..k], log[k..]);
    if k < |log| {
      WireHead(log, k);
    }
  }

  lemma WireHead(log: seq<Message>, k: nat)
    requires k < |log|
    ensures WireAll(log[k..]) == Encode(log[k]) + WireAll(log[k + 1..])
    ensures WireAll(log[..k + 1]) == WireAll(log[..k]) + Encode(log[k])
  {
    hide Encode;
    assert log[k..][1..] == log[k + 1..];
    assert log[..k + 1] == log[..k] + [log[k]];
    WireAllAppend(log[..k], [log[k]]);
    WireOne(log[k]);
  }

  lemma WireOne(m: Message)
    ensures WireAll([m]) == Encode(m)
  {
    assert WireAll([m]) == Encode(m) + WireAll([]);
  }

  /** The parse of a prefix of a stream of stamped messages: the next message, as soon as it
      is complete, and never an error. */
  lemma NextParse(crc: Crc, log: seq<Message>, k: nat, p: seq<byte>)
    requires k <= |log| && p <= WireAll(log[k..])
    requires k < |log| ==> Stamped(crc, k, log[k])
    ensures ParseOne(crc, k, p) ==
      if k < |log| && |Encode(log[k])| <= |p| then Got(log[k], |Encode(log[k])|) else More
  {
    WireSplit(log, k);
    if k < |log| {
      hide ParseOne, Stamped, Encode;
      StampedParses(crc, k, log[k], p);
    }
  }

  /** Undelivered data continues the stream behind the delivered messages. */
  lemma PendingIsNext(log: seq<Message>, k: nat, p: seq<byte>)
    requires k <= |log| && WireAll(log[..k]) + p <= WireAll(log)
    ensures p <= WireAll(log[k..])
  {
    WireSplit(log, k);
    PrefixCancel(WireAll(log[..k]), p, WireAll(log[k..]));
  }

  lemma PrefixCancel(d: seq<byte>, p: seq<byte>, w: seq<byte>)
    requires d + p <= d + w
    ensures p <= w
  {
    assert p == (d + p)[|d|..] && w == (d + w)[|d|..];
    assert (d + w)[..|d + p|] == d + p;
  }

  /** Delivering the first message of `p` regroups the received bytes. */
  lemma Regroup(log: seq<Message>, k: nat, p: seq<byte>)
    requires k < |log| && Encode(log[k]) <= p
    ensures WireAll(log[..k]) + p == WireAll(log[..k + 1]) + p[|Encode(log[k])|..]
  {
    WireSplit(log, k);
    var e := Encode(log[k]);
    assert p == e + p[|e|..];
    ConcatAssoc(WireAll(log[..k]), e, p[|e|..]);
  }

  /** From the first byte on, `taken` arrived, and `m` is what it amounts to. */
  ghost predicate Received(crypted: bool, c: ChunkCipher, iv: nat, taken: seq<byte>, m: Moment) {
    Flow(crypted, c, Moment([], [], iv, taken + m.flight), taken, m)
  }

  lemma ReceivedMore(crypted: bool, c: ChunkCipher, iv: nat, taken: seq<byte>, m: Moment, flight: seq<byte>)
    requires Received(crypted, c, iv, taken, m)
    ensures Received(crypted, c, iv, taken, m.(flight := flight))
  {}

  lemma ReceivedStep(crypted: bool, c: ChunkCipher, iv: nat, taken: seq<byte>, m: Moment, more: seq<byte>, m': Moment)
    requires Received(crypted, c, iv, taken, m) && Flow(crypted, c, m, more, m')
    ensures Received(crypted, c, iv, taken + more, m')
  {
    FlowCompose(crypted, c, Moment([], [], iv, taken + m.flight), taken, m, more, m');
    ConcatAssoc(taken, more, m'.flight);
  }

  lemma PlainNone(crypted: bool, c: ChunkCipher, iv: nat, e: seq<byte>)
    requires |e| == 0
    ensures Plain(crypted, c, iv, e) == e && Left(crypted, e) == e && NextIv(crypted, iv, e) == iv
  {
    assert Whole(|e|) == 0;
  }

  lemma ReceivedNone(crypted: bool, c: ChunkCipher, iv: nat, e: seq<byte>)
    requires |e| == 0
    ensures Received(crypted, c, iv, e, Moment(e, e, iv, e))
  {
    hide Plain, Left, NextIv;
    PlainNone(crypted, c, iv, e);
    assert e + e == e == [];
  }

  /** A sender, a receiver, and the messages that the receiver has delivered. */
  class Link {
    const tx: Sender
    const rx: Queue
    var delivered: seq<Message>
    /** The messages that were handed over to be sent. */
    ghost var given: seq<Message>
    /** What the receiver has read from the socket. */
    ghost var taken: seq<byte>

    ghost predicate SameLink() {
      && tx.crc == rx.crc && tx.crypted == rx.fifo.crypted && tx.cipher == rx.fifo.cipher
      && (tx.crypted ==> Invertible(tx.cipher)) && tx.buf != rx.fifo.buf
    }

    /** What was received is what was sent, decrypted, and it makes up the delivered messages
        and what is pending. */
    ghost predicate InOrder()
      reads this, tx, rx, rx.fifo
    {
      && rx.seqno <= |tx.log| && delivered == tx.log[..rx.seqno] && AllCarry(given, tx.log)
      && tx.sent == taken + rx.fifo.inflight
      && (!rx.state.Error? ==> Received(tx.crypted, tx.cipher, tx.iv0, taken, rx.fifo.Now().(data := WireAll(delivered) + rx.Pending())))
    }

    ghost predicate Valid()
      reads this, tx, tx.buf, rx, rx.fifo, rx.fifo.buf
    {
      SameLink() && tx.Valid() && rx.Valid() && InOrder()
    }

    constructor (crc: Crc, crypted: bool, cipher: ChunkCipher, iv: nat, healthy: bool)
      requires crypted ==> Invertible(cipher)
      ensures Valid() && fresh(tx) && fresh(tx.buf) && fresh(rx) && fresh(rx.fifo) && fresh(rx.fifo.buf)
      ensures delivered == given == tx.log == [] && !rx.state.Error? && rx.fifo.healthy == healthy
    {
      hide Sender.Valid, Queue.Valid, Received, Sender.StageOk, Fifo.Valid, FifoOk;
      tx := new Sender(crc, crypted, cipher, iv);
      rx := new Queue(crc, crypted, cipher, iv, healthy);
      delivered, given, taken := [], [], [];
      new;
      ReceivedNone(crypted, cipher, iv, tx.sent);
      assert rx.fifo.Now().(data := WireAll(delivered) + rx.Pending()) == Moment([], [], iv, []);
    }

    /** What is pending at the receiver is a prefix of the messages not delivered yet. */
    lemma PendingPrefix()
      requires Valid() && !rx.state.Error?
      ensures rx.Pending() <= WireAll(tx.log[rx.seqno..])
    {
      ReceivedPrefix(rx.fifo.Now().(data := WireAll(delivered) + rx.Pending()), taken, rx.seqno, rx.Pending());
    }

    lemma ReceivedPrefix(m: Moment, taken: seq<byte>, k: nat, p: seq<byte>)
      requires SameLink() && tx.Valid() && k <= |tx.log| && taken <= tx.sent
      requires m.data == WireAll(tx.log[..k]) + p && Received(tx.crypted, tx.cipher, tx.iv0, taken, m)
      ensures p <= WireAll(tx.log[k..])
    {
      ArrivedIsPrefix(tx.crypted, tx.cipher, tx.iv0, tx.eaten, taken);
      assert [] + taken == taken;
      assert m.data == Plain(tx.crypted, tx.cipher, tx.iv0, taken);
      PendingIsNext(tx.log, k, p);
    }

    /** Queue messages, start a flush, and let the bytes that the socket took fly. */
    method Send(txmsgq: seq<Message>, salts: seq<seq<byte>>, w: SockWrite, more: bool)
      requires Valid() && |salts| == |txmsgq|
      requires forall k :: 0 <= k < |txmsgq| ==> Sendable(tx.crc, txmsgq[k]) && |salts[k]| == 3
      modifies this`given, tx, tx.buf, rx.fifo`inflight
      ensures Valid() && rx.state == old(rx.state)
      ensures given == if old(tx.error) then old(given) else old(given) + txmsgq
      ensures if old(tx.error) then tx.error && tx.log == old(tx.log)
        else tx.log == old(tx.log) + StampAll(tx.crc, old(tx.seqno), salts, txmsgq)
    {
      hide Sender.Valid, Sendable, Received, StampAll, AllCarry;
      if !tx.error {
        StampAllCarries(tx.crc, tx.seqno, salts, txmsgq);
        AllCarryMore(given, tx.log, txmsgq, StampAll(tx.crc, tx.seqno, salts, txmsgq));
        given := given + txmsgq;
      }
      var before := |tx.sent|;
      tx.Flush1(txmsgq, salts, w, more);
      var bytes := tx.sent[before..];
      if !rx.state.Error? {
        ReceivedMore(tx.crypted, tx.cipher, tx.iv0, taken,
          rx.fifo.Now().(data := WireAll(delivered) + rx.Pending()), rx.fifo.inflight + bytes);
      }
      rx.fifo.inflight := rx.fifo.inflight + bytes;
      ConcatAssoc(taken, old(rx.fifo.inflight), bytes);
    }

    /** One call of the reader: it delivers the next message sent, or, if that has not arrived
        completely, nothing; it fails only when the socket does. */
    method ReceiveOne() returns (r: RxResult)
      requires Valid() && !rx.state.Error?
      modifies this`delivered, this`taken, rx`state, rx`seqno, rx.fifo, rx.fifo.buf
      ensures Valid() && (rx.state.Error? <==> r.Failed?)
      ensures if r.Delivered? then delivered == old(delivered) + [r.msg] else delivered == old(delivered)
      ensures r.Delivered? ==> |old(delivered)| < |given| && Carries(given[|old(delivered)|], r.msg)
      ensures r.Failed? ==> r.error in {Eof, Sock} && !rx.fifo.healthy
      ensures r == NoMessage ==> rx.seqno == |tx.log| || |rx.Pending()| < |Encode(tx.log[rx.seqno])|
    {
      hide Sender.Valid, Queue.Valid, Received, Flow, Queue.Pending, WireAll, Encode, ParseOne, Carries;
      ghost var k, x, m := rx.seqno, WireAll(delivered), rx.fifo.Now().(data := WireAll(delivered) + rx.Pending());
      ghost var old', p, bytes;
      old' := rx.fifo.Now().(data := rx.Pending());
      r, p, bytes := rx.Read();
      FlowPrefix(tx.crypted, tx.cipher, old', bytes, rx.fifo.Now().(data := p), x);
      FlightTaken(tx.crypted, tx.cipher, old', bytes, rx.fifo.Now().(data := p));
      ConcatAssoc(taken, bytes, rx.fifo.inflight);
      ReceivedStep(tx.crypted, tx.cipher, tx.iv0, taken, m, bytes, rx.fifo.Now().(data := x + p));
      taken := taken + bytes;
      ReceivedPrefix(rx.fifo.Now().(data := x + p), taken, k, p);
      NextOutcome(k, p, r, rx.Pending());
      match r {
        case Delivered(msg) =>
          delivered := delivered + [msg];
        case _ =>
      }
    }

    /** Deliver everything that can be delivered until the reader asks for more, or the
        socket fails. */
    method Receive() returns (r: RxResult)
      requires Valid() && !rx.state.Error?
      modifies this`delivered, this`taken, rx`state, rx`seqno, rx.fifo, rx.fifo.buf
      ensures Valid() && (rx.state.Error? <==> r.Failed?) && old(delivered) <= delivered && !r.Delivered?
      ensures r.Failed? ==> r.error in {Eof, Sock} && !rx.fifo.healthy
      ensures r == NoMessage ==> rx.seqno == |tx.log| || |rx.Pending()| < |Encode(tx.log[rx.seqno])|
    {
      hide SameLink, Sender.Valid, Queue.Valid, Received, Queue.Pending;
      r := ReceiveOne();
      while r.Delivered?
        invariant Valid() && (rx.state.Error? <==> r.Failed?) && old(delivered) <= delivered
        invariant r.Failed? ==> r.error in {Eof, Sock} && !rx.fifo.healthy
        invariant r == NoMessage ==> rx.seqno == |tx.log| || |rx.Pending()| < |Encode(tx.log[rx.seqno])|
        decreases |tx.log| - rx.seqno, r.Delivered?
      {
        r := ReceiveOne();
      }
    }

    /** At any time, the messages delivered say what the first messages given said. */
    lemma DeliveredCarry()
      requires Valid()
      ensures |delivered| <= |given| && AllCarry(given[..|delivered|], delivered)
    {
      AllCarryFirst(given, tx.log, |delivered|);
    }

    /** Once everything queued has been sent and read, everything given is delivered, and says
        what it said. */
    lemma AllDelivered()
      requires Valid() && !rx.state.Error? && !tx.error && !tx.Pending() && rx.fifo.inflight == []
      requires rx.seqno == |tx.log| || |rx.Pending()| < |Encode(tx.log[rx.seqno])|
      ensures delivered == tx.log && AllCarry(given, delivered)
    {
      var k, p := rx.seqno, rx.Pending();
      assert tx.eaten == WireAll(tx.log);
      assert taken == tx.sent;
      ArrivedIsPrefix(tx.crypted, tx.cipher, tx.iv0, tx.eaten, taken);
      if tx.crypted {
        EncLength(tx.cipher, tx.iv0, tx.eaten);
      }
      assert [] + taken == taken;
      assert WireAll(delivered) + p == WireAll(tx.log);
      WireSplit(tx.log, k);
    }

    lemma FlightTaken(crypted: bool, c: ChunkCipher, a: Moment, taken: seq<byte>, b: Moment)
      requires Flow(crypted, c, a, taken, b)
      ensures a.flight == taken + b.flight
    {}

    /** What a call of the reader can return when `p` has arrived behind message `k`. */
    lemma NextOutcome(k: nat, p: seq<byte>, r: RxResult, rest: seq<byte>)
      requires tx.Valid() && k <= |tx.log| && p <= WireAll(tx.log[k..]) && Outcome(tx.crc, k, rx.fifo.healthy, p, r, rest)
      ensures r.Failed? ==> r.error in {Eof, Sock} && !rx.fifo.healthy
      ensures r == NoMessage ==> rest == p && (k == |tx.log| || |p| < |Encode(tx.log[k])|)
      ensures r.Delivered? ==> k < |tx.log| && r.msg == tx.log[k] && tx.log[..k + 1] == tx.log[..k] + [r.msg]
      ensures r.Delivered? ==> WireAll(tx.log[..k]) + p == WireAll(tx.log[..k + 1]) + rest
    {
      hide ParseOne, WireAll, Encode, Sender.StageOk, Sender.InStep, Sender.QueueOk, Stamped;
      NextParse(tx.crc, tx.log, k, p);
      if r.Delivered? {
        assert Encode(tx.log[k]) <= p by {
          WireHead(tx.log, k);
        }
        Regroup(tx.log, k, p);
      }
    }
  }
}
